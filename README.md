# Checkout flow model

A Dafny model of the checkout of the siege-ascend-hub storefront. A buyer arrives with a link token. The page resolves the token, then runs three steps:

- **Dados**: name, phone and CPF (the Brazilian tax id), with masks and a mod-11 CPF check.
- **Bump**: an optional R$ 27 order bump.
- **Pagamento**: either a PIX code with a fifteen-minute countdown, or a credit card with masked fields, brand detection, an expiry check and an installment table.

The page then posts the order to the payment webhook and reacts to the answer. The outside world is passed in as values:

- the token lookup's outcome;
- the webhook's answer;
- the clock, in milliseconds for the PIX timer and as a local calendar month for the expiry check;
- the stored PIX deadline.

Files:

- `wrappers.dfy`: `Option`, for fields that may be absent.
- `text.dfy`: the JavaScript string built-ins the code relies on. These are `replace(/\D/g, "")`, `slice`, `trim`, `String(n)`, `padStart` and `parseInt` of a digit run.
- `checkout_utils.dfy`: the field formatters and validators:
  - the CPF check, a loop method proved against a specification predicate;
  - the CPF and card-number masks, whose regex rewrites are modelled as literal scans with closed-form layout lemmas;
  - the phone, expiry and CVV masks, which slice the digit string;
  - brand detection;
  - expiry validation;
  - the installment table, a loop method.
- `step_dados.dfy`: the data step's error map and submit gate, with a `Form` class over its fields.
- `step_payment.dfy`: the payment step:
  - the PIX countdown: its initial value, tick and formatting;
  - the card error map;
  - a `PaymentForm` class with the step's state and handlers.
- `checkout.dfy`: the page itself:
  - token resolution;
  - the phase machine, with lemmas over runs of phases;
  - the payment payload and the webhook-answer toasts;
  - a `Checkout` class with the page's state and handlers.

## Model

| member | source | states |
|---|---|---|
| Text.DigitsOf | src/lib/checkout-utils.ts:3 | the result contains only ASCII digits and is no longer than the input |
| Text.DigitsOfIdempotent | src/lib/checkout-utils.ts:3 | stripping non-digits a second time changes nothing |
| Text.Take | src/lib/checkout-utils.ts:22 | `slice(0, n)` is the prefix of length min(n, length) |
| Text.TrimEmptyIffBlank | src/components/checkout/StepDados.tsx:31 | `!s.trim()` holds exactly when s consists only of ECMAScript whitespace and line terminators |
| Text.NatToStringValue | src/components/checkout/StepPayment.tsx:81 | `String(n)` is a numeral that denotes n |
| Text.PaddedNumeral | src/components/checkout/StepPayment.tsx:81 | `String(n).padStart(k, "0")` is all digits and still denotes n |
| Text.ParseNatToString | src/components/checkout/StepPayment.tsx:219 | `parseInt(String(n)) == n` |
| CheckoutUtils.ValidateCpf | src/lib/checkout-utils.ts:2-18 | the loop implementation returns true exactly when the digits number 11, are not all equal, and both mod-11 check digits match |
| CheckoutUtils.CheckDigit | src/lib/checkout-utils.ts:9-10 | a check digit is between 0 and 9 |
| CheckoutUtils.CheckDigitTextbook | src/lib/checkout-utils.ts:9-16 | `(sum * 10) % 11`, with 10 mapped to 0, equals the textbook rule: 0 when sum mod 11 is below 2, otherwise 11 minus sum mod 11 |
| CheckoutUtils.CpfValidDigitsOnly | src/lib/checkout-utils.ts:3 | validity depends only on the digits of the input, not on its punctuation |
| CheckoutUtils.RepeatedDigitsPassChecksum | src/lib/checkout-utils.ts:5 | eleven equal digits satisfy both check digits, so only the explicit repeated-digit test rejects them |
| CheckoutUtils.HyphenateTailClosed | src/lib/checkout-utils.ts:26 | the end-anchored regex puts a hyphen before the last two digits when five digits end the string, otherwise before the last one when four do, otherwise changes nothing |
| CheckoutUtils.MaskCpfLayout | src/lib/checkout-utils.ts:21-27 | `maskCPF` gives the layout XXX.XXX.XXX-XX of the first eleven digits, each separator written only when a digit follows it |
| CheckoutUtils.CpfLayoutDigits | src/lib/checkout-utils.ts:23-26 | the separators of the CPF layout contribute no digits |
| CheckoutUtils.MaskCpfDigits | src/lib/checkout-utils.ts:21-27 | the digits of a masked CPF are the first eleven input digits |
| CheckoutUtils.MaskCpfIdempotent | src/lib/checkout-utils.ts:21-27 | masking a masked CPF changes nothing |
| CheckoutUtils.MaskCpfKeepsValidity | src/lib/checkout-utils.ts:21-27 | with at most eleven digits typed, masking does not change whether the CPF is valid |
| CheckoutUtils.PhoneLayoutDigits | src/lib/checkout-utils.ts:31-33 | the phone layout's parentheses, space and hyphen contribute no digits |
| CheckoutUtils.MaskPhoneDigits | src/lib/checkout-utils.ts:29-34 | the digits of a masked phone are the first eleven input digits |
| CheckoutUtils.MaskPhoneIdempotent | src/lib/checkout-utils.ts:29-34 | masking a masked phone changes nothing |
| CheckoutUtils.PhoneLayoutShape | src/lib/checkout-utils.ts:31-33 | (DD) NNNNN-NNNN: the length depends on the digit count, the punctuation sits at positions 0, 3, 4 and 10, and every other position is a digit |
| CheckoutUtils.SpaceAfterFoursGrouped | src/lib/checkout-utils.ts:38 | on digits, the global lookahead regex is the same as joining blocks of four with spaces |
| CheckoutUtils.MaskCardNumberLayout | src/lib/checkout-utils.ts:36-39 | `maskCardNumber` groups the first sixteen digits in blocks of four |
| CheckoutUtils.GroupedLength | src/lib/checkout-utils.ts:38 | n digits take n + (n-1)/4 characters once grouped |
| CheckoutUtils.GroupedDigits | src/lib/checkout-utils.ts:38 | grouping adds no digits and loses none |
| CheckoutUtils.GroupedShape | src/lib/checkout-utils.ts:38 | in the grouped text, position i is a space exactly when i mod 5 is 4; any other position holds digit i - i/5; there is no space at either end |
| CheckoutUtils.MaskCardNumberShape | src/lib/checkout-utils.ts:36-39 | the masked number has exactly that layout over its first sixteen digits |
| CheckoutUtils.MaskCardNumberDigits | src/lib/checkout-utils.ts:36-39 | the digits of a masked number are the first sixteen input digits |
| CheckoutUtils.MaskCardNumberIdempotent | src/lib/checkout-utils.ts:36-39 | masking a masked number changes nothing |
| CheckoutUtils.MaskExpiryDigits | src/lib/checkout-utils.ts:41-45 | the digits of a masked expiry are the first four input digits |
| CheckoutUtils.MaskExpiryIdempotent | src/lib/checkout-utils.ts:41-45 | masking a masked expiry changes nothing |
| CheckoutUtils.MaskCvvProperties | src/lib/checkout-utils.ts:47-49 | the CVV mask keeps the first three digits (four for Amex) and is idempotent |
| CheckoutUtils.CvvLength | src/components/checkout/StepPayment.tsx:88 | Amex requires four CVV digits; every other brand requires three |
| CheckoutUtils.EloRuleOrder | src/lib/checkout-utils.ts:54-61 | a number is reported as ELO exactly when its digits start with one of the ELO prefixes not already caught by an earlier rule |
| CheckoutUtils.EloShadowedByVisa | src/lib/checkout-utils.ts:56-59 | the ELO prefixes 438935, 451416, 4576 and 4011 are always reported as Visa |
| CheckoutUtils.BrandFirstRules | src/lib/checkout-utils.ts:55-60 | a leading 4 always means Visa; a number with no digits is unknown |
| CheckoutUtils.UnknownLeadingDigit | src/lib/checkout-utils.ts:54-61 | a number whose first digit is 0, 1, 7, 8 or 9 is unknown |
| CheckoutUtils.VisaExample | src/lib/checkout-utils.ts:56 | 4111 1111 1111 1111 is Visa |
| CheckoutUtils.MastercardExample | src/lib/checkout-utils.ts:57 | 5500… and 2221… numbers are Mastercard |
| CheckoutUtils.AmexExample | src/lib/checkout-utils.ts:58 | 34… and 37… numbers are Amex and require a four-digit CVV |
| CheckoutUtils.EloExample | src/lib/checkout-utils.ts:59 | 636368… is ELO |
| CheckoutUtils.CenturyValue | src/lib/checkout-utils.ts:68 | `"20" + YY` denotes 2000 + YY |
| CheckoutUtils.ValidateExpiryMeaning | src/lib/checkout-utils.ts:64-73 | an expiry is valid exactly when it has four digits MMYY, MM is between 1 and 12, and the card month is not before the current month |
| CheckoutUtils.ExpiryCurrentMonthAccepted | src/lib/checkout-utils.ts:71-72 | for any four-digit MMYY with MM from 1 to 12, a card whose month is the current calendar month is still accepted |
| CheckoutUtils.ExpiryPastMonthRejected | src/lib/checkout-utils.ts:71-72 | for any four-digit MMYY, a card whose month is before the current calendar month is rejected |
| CheckoutUtils.ExpiryMonthOutOfRange | src/lib/checkout-utils.ts:69 | for any four-digit MMYY, an MM outside 1 to 12 is rejected whatever the year and the date |
| CheckoutUtils.PowAboveOne | src/lib/checkout-utils.ts:96 | `(1 + r)^n` exceeds 1, so the coefficient's denominator is positive |
| CheckoutUtils.SharePlanTotal | src/lib/checkout-utils.ts:91 | n payments of total / n add up to the total |
| CheckoutUtils.CoefficientExceedsShare | src/lib/checkout-utils.ts:96 | at 1.99% a month, n payments of the amortisation coefficient repay more than 1 |
| CheckoutUtils.InterestPlanExceedsTotal | src/lib/checkout-utils.ts:95-98 | for a positive total, the plan with interest costs more than the total |
| CheckoutUtils.CalculateInstallments | src/lib/checkout-utils.ts:84-101 | the table has six rows. The counts are 1, 2, 3, 4, 6 and 12 in that order, and only the last row carries interest. The interest-free rows repay exactly the total. The 12x row is total × coefficient and repays more than a positive total |
| StepDados.CollectErrors | src/components/checkout/StepDados.tsx:28-35 | each field has an error exactly when its own check fails: a blank name, fewer than ten phone digits, an invalid CPF. Each error carries its message |
| StepDados.Form.constructor | src/components/checkout/StepDados.tsx:16-20 | the form opens with the given name and phone, an empty CPF and no errors |
| StepDados.Form.SetNome | src/components/checkout/StepDados.tsx:58 | the name field takes the text as typed, and the CPF field stays masked |
| StepDados.Form.SetCelular | src/components/checkout/StepDados.tsx:90 | the phone field holds the masked text: a fixed point of the mask, with at most eleven digits |
| StepDados.Form.SetCpf | src/components/checkout/StepDados.tsx:103 | the CPF field holds the masked text and remains a fixed point of the mask |
| StepDados.Form.HandleSubmit | src/components/checkout/StepDados.tsx:28-40 | the error map is committed: each key is present exactly when its own check fails, and holds that check's message. The CPF check sees at most eleven digits, since the field is always masked. The step forwards exactly the current name, phone and CPF, and only when the map is empty |
| StepDados.MaskedCpfDigits | src/components/checkout/StepDados.tsx:34 | a masked CPF field has at most eleven digits, and its validity is the validity of its digits |
| StepPayment.InitialTimer | src/components/checkout/StepPayment.tsx:34-41 | the timer starts at the whole seconds left before a stored deadline when that is positive, otherwise at 900; it is always at least 1 |
| StepPayment.NextTimer | src/components/checkout/StepPayment.tsx:60-63 | a tick counts down by one second and never goes below zero |
| StepPayment.CountdownSteps | src/components/checkout/StepPayment.tsx:57-66 | a timer started at t shows t - k after k ticks |
| StepPayment.CountdownStaysAtZero | src/components/checkout/StepPayment.tsx:61 | from t ticks on, the timer stays at zero |
| StepPayment.RestoreFreshDeadline | src/components/checkout/StepPayment.tsx:34-41 | read k seconds after it was written, a deadline for fifteen minutes later gives 900 - k |
| StepPayment.FormatTimerParts | src/components/checkout/StepPayment.tsx:81 | `formatTimer(s)` is minutes, a colon, then two-digit seconds below 60; minutes × 60 + seconds equals s |
| StepPayment.FormatTimerShape | src/components/checkout/StepPayment.tsx:81 | below 100 minutes the text is exactly MM:SS |
| StepPayment.CollectCardErrors | src/components/checkout/StepPayment.tsx:83-89 | each card field has an error exactly when its own check fails: fewer than 13 digits, a blank name, an invalid expiry, or a CVV shorter than the brand requires |
| StepPayment.PaymentForm.constructor | src/components/checkout/StepPayment.tsx:32-50 | the step opens with no PIX code and the restored or full timer, empty card fields, one installment selected and no errors |
| StepPayment.PaymentForm.GeneratePix | src/components/checkout/StepPayment.tsx:68-73 | the returned deadline is fifteen minutes from now; the timer restarts at 900 and starts ticking |
| StepPayment.PaymentForm.Tick | src/components/checkout/StepPayment.tsx:57-66 | each tick lowers the timer; the interval stops exactly when the timer reaches zero |
| StepPayment.PaymentForm.SetCardNumber | src/components/checkout/StepPayment.tsx:168 | the number field holds masked text, a fixed point of the mask |
| StepPayment.PaymentForm.SetCardName | src/components/checkout/StepPayment.tsx:179 | the name field takes the text it is given |
| StepPayment.PaymentForm.SetCardExpiry | src/components/checkout/StepPayment.tsx:191 | the expiry field holds masked text, a fixed point of the mask |
| StepPayment.PaymentForm.SetCardCvv | src/components/checkout/StepPayment.tsx:201 | the CVV is capped by the brand of the number typed so far |
| StepPayment.PaymentForm.SelectParcelas | src/components/checkout/StepPayment.tsx:213-223 | choosing one of the offered counts makes `parseInt(parcelas)` that count |
| StepPayment.PaymentForm.HandleCardSubmit | src/components/checkout/StepPayment.tsx:83-94 | while submitting, nothing happens. Otherwise the error map is committed, each key present exactly when its own check fails and holding that check's message, and a card payment with the current fields and the parsed count is handed on, exactly when there is no error |
| StepPayment.PaymentForm.SubmitPix | src/components/checkout/StepPayment.tsx:119-156 | a PIX payment is handed on exactly when the code was generated and nothing is being submitted |
| CheckoutPage.OrElse | src/pages/Checkout.tsx:49 | the JavaScript "or" default: a string that is present and non-empty is kept, an absent or empty one is replaced by the fallback |
| CheckoutPage.LoadOutcome | src/pages/Checkout.tsx:34-62 | the lookup ends on the data step exactly when a token was given, the server answered, and the link is valid and unused. On success the answer is kept; on error there is a message and no data. That message is "Nenhum token fornecido." without a token, and "Erro ao validar o link. Tente novamente." when the request or its JSON fails |
| CheckoutPage.MissingTokenIgnoresServer | src/pages/Checkout.tsx:35-39 | without a token the outcome is "Nenhum token fornecido.", whatever the server would say |
| CheckoutPage.RefusedLinkMessage | src/pages/Checkout.tsx:48-50 | a refused link shows the server's `motivo` when it is non-empty, otherwise the generic message |
| CheckoutPage.CurrentStep | src/pages/Checkout.tsx:31 | the progress bar is at 0 on data and bump, at 1 on payment, otherwise at 2 |
| CheckoutPage.FinalPhases | src/pages/Checkout.tsx:150-160 | the error and thank-you screens are never left |
| CheckoutPage.RunNeverGoesBack | src/pages/Checkout.tsx:34-148 | in any run of the page's handlers, a later phase is never earlier in the checkout |
| CheckoutPage.StepNeverDecreases | src/pages/Checkout.tsx:31 | across the phases that show the progress bar, its step never decreases |
| CheckoutPage.ErrorIsFinal | src/pages/Checkout.tsx:150-151 | once on the error screen, every later phase is the error screen |
| CheckoutPage.PaidRunVisitsEveryStep | src/pages/Checkout.tsx:64-118 | a run from loading to the thank-you screen passes through data, then bump, then payment |
| CheckoutPage.ParcelasOrOne | src/pages/Checkout.tsx:93 | the count sent is at least 1, and equals the selected count when that is present and non-zero |
| CheckoutPage.PayloadAmounts | src/pages/Checkout.tsx:78-102 | the bump is charged exactly when accepted, both places in the payload agree on it, and the total is the product price plus the bump |
| CheckoutPage.ChargedIsDisplayed | src/pages/Checkout.tsx:79-165 | with an offer price, the amount charged equals the total shown to the buyer |
| CheckoutPage.MissingPriceTotals | src/pages/Checkout.tsx:79-165 | without an offer price, the page shows the bump alone as the total but sends no total |
| CheckoutPage.InstallmentsReachWebhook | src/pages/Checkout.tsx:92-93 | the installment count the buyer picked reaches the webhook unchanged; PIX goes as one installment |
| CheckoutPage.NoticeCases | src/pages/Checkout.tsx:115-144 | only approval shows no toast, and only a pending payment's toast is not destructive. Every toast has a description, and a non-empty server message is shown as given |
| CheckoutPage.Checkout.constructor | src/pages/Checkout.tsx:22-29 | the page starts loading, with no data, empty client data, no bump and nothing being submitted |
| CheckoutPage.Checkout.Load | src/pages/Checkout.tsx:34-62 | the page takes the state the lookup outcome determines and keeps its invariant |
| CheckoutPage.Checkout.OpenDados | src/pages/Checkout.tsx:195-202 | the data step is prefilled with the link's name, e-mail and phone (absent fields become `""`) and an empty CPF |
| CheckoutPage.Checkout.HandleDadosSubmit | src/pages/Checkout.tsx:64-67 | the client data is stored and the page moves to the bump |
| CheckoutPage.Checkout.HandleBump | src/pages/Checkout.tsx:69-72 | the choice is stored and the page moves to payment |
| CheckoutPage.Checkout.BeginPayment | src/pages/Checkout.tsx:74-104 | the page is marked as submitting. The payload carries the link's token and e-mail, and any total it sends is the one displayed |
| CheckoutPage.Checkout.FinishPayment | src/pages/Checkout.tsx:106-147 | submitting is cleared on every answer. Approval moves to the thank-you screen; any other answer stays on payment and returns its toast |

## Left out

- `formatCurrency` (src/lib/checkout-utils.ts:76-81): this is locale formatting by `Intl.NumberFormat`, which has no counterpart here.
- CheckoutUtils.CalculateInstallments: prices and amounts are exact reals, not IEEE 754 doubles. Rounding in `total / n`, in `Math.pow` and in the coefficient is therefore not modelled, and the 12x coefficient is the exact annuity value.
- CheckoutPage.BuildPayload: its amounts are exact reals, so the rounding of the double sum `preco_oferta + bump` (src/pages/Checkout.tsx:79) is not modelled.
- CheckoutPage.DisplayedTotal: the same holds for the displayed sum (src/pages/Checkout.tsx:162-165).
- CheckoutPage.BuildPayload: a lookup field sent as `null` is read as absent (`None`), although the declared type `preco_oferta?: number` does not allow null. `valor_total` is the one place where the two would differ. For a null price, `null + 27` is 27 in JavaScript (src/pages/Checkout.tsx:79), while the model sends no total, as it does for an absent price, whose sum is `NaN`.
- The two HTTP calls and their JSON parsing are not modelled. The lookup's outcome (`Resolution`) and the webhook's answer (`Response`) are parameters, and a request failure or a parse failure is a single failure case.
- `localStorage` and `Date.now` (src/components/checkout/StepPayment.tsx:35-37, 69-70) are replaced by values: the stored deadline as `parseInt` reads it, and the current time. `GeneratePix` returns the deadline instead of storing it.
- `setInterval` and `clearInterval` are modelled by the `Tick` method and a `ticking` flag. Clearing the interval when the step unmounts is not modelled.
- Toasts are returned as `Notice` values rather than displayed.
- StepPayment.PaymentForm.SetCardName: the `toUpperCase` of src/components/checkout/StepPayment.tsx:179 is not modelled, because there is no Unicode case mapping here. The method takes the already upper-cased text.
- `parseInt` is modelled only for the strings the core feeds it, which start with their digits. Signs, leading whitespace and other radixes are not modelled.
- The expiry check compares calendar months on the local clock, which is passed in as an `Instant`. Time zones and daylight saving are not modelled.
- The payload's `timestamp` is not modelled.
- Asynchronous interleaving is not modelled: each handler runs atomically. `handlePayment` is split into `BeginPayment` (up to the request) and `FinishPayment` (the answer), so that the `isSubmitting` flag can be seen in between.
- `if (!data) return` in `handlePayment` cannot fire. The payment step is only shown after the lookup stored the data, and `Checkout.Valid` states this. `BeginPayment` therefore requires the payment phase instead of modelling the early return.
- Purely presentational parts are not modelled:
  - the shake animation and its `setTimeout`;
  - the CVV focus flag, the tab choice, the copy button and the clipboard, and the QR image;
  - `ProductSummary`, `StepProgress`, `BumpOrder` (only its accept/decline choice is modelled), `StepThankYou`, `CreditCardVisual`, `CheckoutLoading` and `CheckoutError`.
- StepDados.Form.SetCelular: the eleven-digit bound holds only after an edit. The phone the link supplies is shown unmasked until the buyer edits the field.
- StepPayment.PaymentForm.Valid: it does not state that the number and expiry fields are masked. Each setter's postcondition states it instead.
- The e-mail is not validated anywhere in the code, so no e-mail check is modelled.

## Behaviour of the code worth noting

The model follows the code in each case.

- **Expiry in the current month.** `validateExpiry` builds `new Date(year, MM)` with a one-based MM (src/lib/checkout-utils.ts:67-72). That date is the first day of the month after the card's, and the check is a strict `expiry > now`. A card is therefore accepted throughout its expiry month and rejected from the first day of the next one, as `CheckoutUtils.ValidateExpiryMeaning` states in full, and `CheckoutUtils.ExpiryCurrentMonthAccepted` and `CheckoutUtils.ExpiryPastMonthRejected` state for every card and every date.
- **PIX countdown after a reload.** The code evidently means a reload to resume the countdown. It writes the deadline to `pix_timer_end` when the code is generated (src/components/checkout/StepPayment.tsx:69-70), and it reads the deadline back as the initial timer (lines 35-38). But the timer ticks only while `pixGenerated` holds (line 58), which starts false after a reload (line 32). The countdown is shown only behind the generate button (line 119), and `generatePix` resets the timer to fifteen minutes (line 71). So the restored value is never seen, as `StepPayment.PaymentForm.GeneratePix` states.
- **CVV length.** The submit check only rejects a CVV shorter than the brand's length (src/components/checkout/StepPayment.tsx:88-89). The length cap comes from the mask, applied with the brand detected while the CVV is typed (line 201). So a four-digit CVV typed for an Amex number is still accepted after the number is changed to a Visa.
