/**
 * The payment step: the PIX tab with its fifteen-minute countdown, and the
 * card tab with its masked fields, the card error map and the installment
 * choice. The clock (milliseconds since the epoch, and the calendar month
 * for the expiry check) and the stored PIX deadline are passed in.
 */
module StepPayment {
  import opened Wrappers
  import opened Text
  import opened CheckoutUtils

  /** `PIX_DURATION`: fifteen minutes, in seconds. */
  const PixDuration: nat := 15 * 60

  datatype Method = Pix | Cartao

  /** `PaymentData`; a field the object does not set is None. */
  datatype PaymentData = PaymentData(
    metodo: Method,
    parcelas: Option<nat>,
    cardNumber: Option<string>,
    cardName: Option<string>,
    cardExpiry: Option<string>,
    cardCvv: Option<string>)

  datatype CardField = Number | Name | Expiry | Cvv

  const NumeroInvalido: string := "Número inválido"
  const NomeObrigatorio: string := "Nome obrigatório"
  const ValidadeInvalida: string := "Validade inválida"
  const CvvInvalido: string := "CVV inválido"

  /** The fewest card-number digits accepted. */
  const MinCardDigits: nat := 13

  /** The installment counts the select offers, one per row of `calculateInstallments`. */
  const InstallmentCounts: seq<nat> := NoInterestCounts + WithInterestCounts

  // ---------------------------------------------------------------------------
  // PIX countdown
  // ---------------------------------------------------------------------------

  /**
   * The first timer value: the whole seconds left until a stored deadline
   * when that is positive, fifteen minutes otherwise. `saved` is the stored
   * deadline as `parseInt` reads it (None when nothing is stored or it is
   * not a number).
   */
  function InitialTimer(saved: Option<int>, nowMs: int): (t: nat)
    ensures t >= 1
    ensures saved.Some? && saved.value - nowMs >= 1000 ==>
      t * 1000 <= saved.value - nowMs < (t + 1) * 1000
    ensures saved.None? || saved.value - nowMs < 1000 ==> t == PixDuration
  {
    if saved.Some? && (saved.value - nowMs) / 1000 > 0 then (saved.value - nowMs) / 1000
    else PixDuration
  }

  /** The interval's update of the timer: down by one second, never below zero. */
  function NextTimer(prev: int): (next: int)
    ensures next >= 0
    ensures prev >= 1 ==> next == prev - 1
    ensures prev <= 1 ==> next == 0
  {
    if prev <= 1 then 0 else prev - 1
  }

  /** The timer after k ticks. */
  function Countdown(t: int, k: nat): int {
    if k == 0 then t else NextTimer(Countdown(t, k - 1))
  }

  /** A timer started at t shows t - k after k ticks and reaches zero after exactly t ticks. */
  lemma {:induction false} CountdownSteps(t: nat, k: nat)
    requires k <= t
    ensures Countdown(t, k) == t - k
  {
    if k > 0 {
      CountdownSteps(t, k - 1);
    }
  }

  /** Once at zero, the timer stays at zero. */
  lemma {:induction false} CountdownStaysAtZero(t: nat, k: nat)
    requires k >= t
    ensures Countdown(t, k) == 0
  {
    if k > t {
      CountdownStaysAtZero(t, k - 1);
    } else {
      CountdownSteps(t, k);
    }
  }

  /** A deadline just written is read back as the full fifteen minutes. */
  lemma RestoreFreshDeadline(nowMs: int, k: nat)
    requires k < PixDuration
    ensures InitialTimer(Some(nowMs + PixDuration * 1000), nowMs + k * 1000) == PixDuration - k
  {
    var rest := nowMs + PixDuration * 1000 - (nowMs + k * 1000);
    assert rest == (PixDuration - k) * 1000;
  }

  /** `formatTimer`: minutes and seconds, each zero-padded to two digits. */
  function FormatTimer(s: nat): string {
    PadStartZero(NatToString(s / 60), 2) + ":" + PadStartZero(NatToString(s % 60), 2)
  }

  /** The text before the colon denotes the minutes and the two digits after it the seconds. */
  lemma FormatTimerParts(s: nat)
    ensures var m, ss := PadStartZero(NatToString(s / 60), 2), PadStartZero(NatToString(s % 60), 2);
      && FormatTimer(s) == m + ":" + ss
      && |m| >= 2 && |ss| == 2
      && AllDigits(m) && AllDigits(ss)
      && DecimalValue(m) * 60 + DecimalValue(ss) == s
      && DecimalValue(ss) < 60
  {
    PaddedNumeral(s / 60, 2);
    PaddedNumeral(s % 60, 2);
    NatToStringBelow(s % 60);
  }

  /** Below 100 minutes the timer reads as exactly MM:SS. */
  lemma FormatTimerShape(s: nat)
    requires s < 6000
    ensures |FormatTimer(s)| == 5 && FormatTimer(s)[2] == ':'
  {
    FormatTimerParts(s);
    NatToStringBelow(s / 60);
  }

  /** A number below 100 has at most two digits. */
  lemma NatToStringBelow(n: nat)
    requires n < 100
    ensures |NatToString(n)| <= 2
  {
  }

  // ---------------------------------------------------------------------------
  // Card validation
  // ---------------------------------------------------------------------------

  /**
   * The error map of `handleCardSubmit`: the number needs thirteen digits,
   * the name something besides whitespace, the expiry a month not yet past,
   * and the CVV as many characters as the detected brand requires.
   */
  method CollectCardErrors(number: string, name: string, expiry: string, cvv: string, now: Instant)
    returns (errs: map<CardField, string>)
    ensures Number in errs <==> |DigitsOf(number)| < MinCardDigits
    ensures Name in errs <==> IsBlank(name)
    ensures Expiry in errs <==> !ValidateExpiry(expiry, now)
    ensures Cvv in errs <==> |cvv| < CvvLength(DetectCardBrand(number))
    ensures Number in errs ==> errs[Number] == NumeroInvalido
    ensures Name in errs ==> errs[Name] == NomeObrigatorio
    ensures Expiry in errs ==> errs[Expiry] == ValidadeInvalida
    ensures Cvv in errs ==> errs[Cvv] == CvvInvalido
  {
    errs := map[];
    if |DigitsOf(number)| < MinCardDigits {
      errs := errs[Number := NumeroInvalido];
    }
    TrimEmptyIffBlank(name);
    if Trim(name) == [] {
      errs := errs[Name := NomeObrigatorio];
    }
    if !ValidateExpiry(expiry, now) {
      errs := errs[Expiry := ValidadeInvalida];
    }
    var isAmex := DetectCardBrand(number) == Amex;
    var cvvLen := if isAmex then 4 else 3;
    if |cvv| < cvvLen {
      errs := errs[Cvv := CvvInvalido];
    }
  }

  /** The state of the payment step. */
  class PaymentForm {
    var pixGenerated: bool
    var pixTimer: int
    /** Whether the one-second interval is running. */
    var ticking: bool
    var cardNumber: string
    var cardName: string
    var cardExpiry: string
    var cardCvv: string
    var parcelas: string
    var cardErrors: map<CardField, string>

    /**
     * Before the code is generated the timer holds its initial value and
     * does not run; afterwards it runs exactly while it is positive.
     */
    ghost predicate TimerValid()
      reads this`pixGenerated, this`pixTimer, this`ticking
    {
      && pixTimer >= 0
      && (!pixGenerated ==> pixTimer >= 1 && !ticking)
      && (pixGenerated ==> (ticking <==> pixTimer >= 1))
    }

    /** The CVV holds at most four digits, and the select one of its options. */
    ghost predicate CardValid()
      reads this`cardCvv, this`parcelas
    {
      && AllDigits(cardCvv) && |cardCvv| <= 4
      && ParseDecimal(parcelas).Some? && ParseDecimal(parcelas).value in InstallmentCounts
    }

    ghost predicate Valid()
      reads this`pixGenerated, this`pixTimer, this`ticking, this`cardCvv, this`parcelas
    {
      TimerValid() && CardValid()
    }

    /** The step opens on an empty card form with one installment selected. */
    constructor(saved: Option<int>, nowMs: int)
      ensures Valid()
      ensures !pixGenerated && !ticking && pixTimer == InitialTimer(saved, nowMs)
      ensures cardNumber == [] && cardName == [] && cardExpiry == [] && cardCvv == []
      ensures ParseDecimal(parcelas) == Some(1)
      ensures cardErrors == map[]
    {
      pixGenerated := false;
      pixTimer := InitialTimer(saved, nowMs);
      ticking := false;
      cardNumber := [];
      cardName := [];
      cardExpiry := [];
      cardCvv := [];
      parcelas := NatToString(1);
      cardErrors := map[];
      ParseNatToString(1);
      assert InstallmentCounts[0] == 1;
    }

    /**
     * `generatePix`: returns the deadline to store, fifteen minutes from
     * now; the timer restarts at fifteen minutes and starts ticking. Its
     * button is only shown before the code exists.
     */
    method GeneratePix(nowMs: int) returns (deadline: int)
      requires Valid() && !pixGenerated
      modifies this`pixGenerated, this`pixTimer, this`ticking
      ensures Valid()
      ensures deadline == nowMs + PixDuration * 1000
      ensures pixGenerated && pixTimer == PixDuration && ticking
    {
      deadline := nowMs + PixDuration * 1000;
      pixTimer := PixDuration;
      pixGenerated := true;
      ticking := true;
    }

    /** One second of the running interval; it clears itself when the timer reaches zero. */
    method Tick()
      requires Valid() && ticking
      modifies this`pixTimer, this`ticking
      ensures Valid()
      ensures pixTimer == NextTimer(old(pixTimer)) && pixTimer < old(pixTimer)
      ensures ticking <==> pixTimer >= 1
    {
      if pixTimer <= 1 {
        ticking := false;
        pixTimer := 0;
      } else {
        pixTimer := pixTimer - 1;
      }
    }

    /** The number field holds masked text, which masking again leaves as it is. */
    method SetCardNumber(input: string)
      requires Valid()
      modifies this`cardNumber
      ensures Valid()
      ensures cardNumber == MaskCardNumber(input)
      ensures MaskCardNumber(cardNumber) == cardNumber
    {
      cardNumber := MaskCardNumber(input);
      MaskCardNumberIdempotent(input);
    }

    /** The text arrives already upper-cased. */
    method SetCardName(input: string)
      requires Valid()
      modifies this`cardName
      ensures Valid()
      ensures cardName == input
    {
      cardName := input;
    }

    method SetCardExpiry(input: string)
      requires Valid()
      modifies this`cardExpiry
      ensures Valid()
      ensures cardExpiry == MaskExpiry(input)
      ensures MaskExpiry(cardExpiry) == cardExpiry
    {
      cardExpiry := MaskExpiry(input);
      MaskExpiryIdempotent(input);
    }

    /** The CVV is capped by the brand of the number typed so far. */
    method SetCardCvv(input: string)
      requires Valid()
      modifies this`cardCvv
      ensures Valid()
      ensures cardCvv == MaskCvv(input, DetectCardBrand(cardNumber) == Amex)
    {
      cardCvv := MaskCvv(input, DetectCardBrand(cardNumber) == Amex);
      MaskCvvProperties(input, DetectCardBrand(cardNumber) == Amex);
    }

    /** Choosing one of the options of the installment select. */
    method SelectParcelas(n: nat)
      requires Valid() && n in InstallmentCounts
      modifies this`parcelas
      ensures Valid()
      ensures ParseDecimal(parcelas) == Some(n)
    {
      parcelas := NatToString(n);
      ParseNatToString(n);
    }

    /**
     * `handleCardSubmit`: commits the card error map and, when it is empty,
     * hands on the card payment with the selected installment count. While
     * a payment is being submitted the button is disabled and nothing happens.
     */
    method HandleCardSubmit(isSubmitting: bool, now: Instant) returns (submitted: Option<PaymentData>)
      requires Valid()
      modifies this`cardErrors
      ensures Valid()
      ensures isSubmitting ==> submitted.None? && cardErrors == old(cardErrors)
      ensures !isSubmitting ==>
        && (Number in cardErrors <==> |DigitsOf(cardNumber)| < MinCardDigits)
        && (Name in cardErrors <==> IsBlank(cardName))
        && (Expiry in cardErrors <==> !ValidateExpiry(cardExpiry, now))
        && (Cvv in cardErrors <==> |cardCvv| < CvvLength(DetectCardBrand(cardNumber)))
        && (Number in cardErrors ==> cardErrors[Number] == NumeroInvalido)
        && (Name in cardErrors ==> cardErrors[Name] == NomeObrigatorio)
        && (Expiry in cardErrors ==> cardErrors[Expiry] == ValidadeInvalida)
        && (Cvv in cardErrors ==> cardErrors[Cvv] == CvvInvalido)
        && (submitted.Some? <==> cardErrors == map[])
      ensures submitted.Some? ==> submitted.value == PaymentData(
        Cartao, ParseDecimal(parcelas), Some(cardNumber), Some(cardName), Some(cardExpiry), Some(cardCvv))
    {
      if isSubmitting {
        return None;
      }
      var errs := CollectCardErrors(cardNumber, cardName, cardExpiry, cardCvv, now);
      cardErrors := errs;
      if |errs| == 0 {
        submitted := Some(PaymentData(Cartao, ParseDecimal(parcelas), Some(cardNumber), Some(cardName), Some(cardExpiry), Some(cardCvv)));
      } else {
        submitted := None;
      }
    }

    /**
     * "Já realizei o pagamento": the button exists only once the PIX code
     * was generated, and is disabled while a payment is being submitted.
     */
    method SubmitPix(isSubmitting: bool) returns (submitted: Option<PaymentData>)
      ensures submitted.Some? <==> pixGenerated && !isSubmitting
      ensures submitted.Some? ==> submitted.value == PaymentData(Pix, None, None, None, None, None)
    {
      if pixGenerated && !isSubmitting {
        submitted := Some(PaymentData(Pix, None, None, None, None, None));
      } else {
        submitted := None;
      }
    }
  }
}
