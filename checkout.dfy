/**
 * The checkout page: it resolves the link's token, then walks the buyer
 * through personal data, the order bump and payment, builds the payload
 * sent to the payment webhook and reacts to the webhook's answer. The two
 * HTTP calls are parameters: the outcome of the token lookup, and the
 * answer to the payment request.
 */
module CheckoutPage {
  import opened Wrappers
  import opened Text
  import opened CheckoutUtils
  import StepDados
  import opened StepPayment

  datatype Phase = Loading | Error | Dados | Bump | Pagamento | Obrigado

  /**
   * `CheckoutData`, the token lookup's answer; an optional field is None when
   * it is absent. A field sent as `null` is read as absent too.
   */
  datatype CheckoutData = CheckoutData(
    valido: bool,
    motivo: Option<string>,
    nome: Option<string>,
    email: Option<string>,
    celular: Option<string>,
    produtoNome: Option<string>,
    precoOriginal: Option<real>,
    precoOferta: Option<real>,
    tokenUsado: Option<bool>)

  /** The token lookup: the parsed answer, or a failure of the request or of its JSON. */
  datatype Resolution = Resolved(json: CheckoutData) | ResolutionFailed

  const NenhumToken: string := "Nenhum token fornecido."
  const LinkInvalido: string := "Link inválido ou já utilizado."
  const ErroAoValidar: string := "Erro ao validar o link. Tente novamente."

  /** The price of the order bump. */
  const BumpValue: real := 27.0

  /** `s || fallback` for an optional string: an absent or empty string gives the fallback. */
  function OrElse(s: Option<string>, fallback: string): (r: string)
    ensures s.Some? && s.value != [] ==> r == s.value
    ensures s.None? || s.value == [] ==> r == fallback
  {
    if s.Some? && s.value != [] then s.value else fallback
  }

  /** A link may be used: it is valid and not flagged as already used. */
  predicate Usable(d: CheckoutData) {
    d.valido && d.tokenUsado != Some(true)
  }

  /** What the page holds once the token lookup is over. */
  datatype LoadState = LoadState(phase: Phase, errorMsg: string, data: Option<CheckoutData>)

  /** The effect of the token lookup; with no token there is no request at all. */
  function LoadOutcome(token: string, outcome: Resolution): (s: LoadState)
    ensures s.phase == Dados || s.phase == Error
    ensures s.phase == Dados <==> token != [] && outcome.Resolved? && Usable(outcome.json)
    ensures s.phase == Dados ==> s.data == Some(outcome.json) && s.errorMsg == []
    ensures s.phase == Error ==> s.data.None? && s.errorMsg != []
    ensures token == [] ==> s.errorMsg == NenhumToken
    ensures token != [] && outcome.ResolutionFailed? ==> s.errorMsg == ErroAoValidar
  {
    if token == [] then LoadState(Error, NenhumToken, None)
    else match outcome
      case ResolutionFailed => LoadState(Error, ErroAoValidar, None)
      case Resolved(json) =>
        if !Usable(json) then LoadState(Error, OrElse(json.motivo, LinkInvalido), None)
        else LoadState(Dados, [], Some(json))
  }

  /** Without a token the page fails the same way whatever the server would have said. */
  lemma MissingTokenIgnoresServer(a: Resolution, b: Resolution)
    ensures LoadOutcome([], a) == LoadOutcome([], b)
    ensures LoadOutcome([], a) == LoadState(Error, NenhumToken, None)
  {
  }

  /** A refused link shows the server's reason when it gives one, the generic message otherwise. */
  lemma RefusedLinkMessage(token: string, json: CheckoutData)
    requires token != [] && !Usable(json)
    ensures LoadOutcome(token, Resolved(json)).phase == Error
    ensures json.motivo.Some? && json.motivo.value != [] ==>
      LoadOutcome(token, Resolved(json)).errorMsg == json.motivo.value
    ensures json.motivo.None? || json.motivo.value == [] ==>
      LoadOutcome(token, Resolved(json)).errorMsg == LinkInvalido
  {
  }

  /** The `currentStep` shown by the progress bar. */
  function CurrentStep(p: Phase): (n: nat)
    ensures n <= 2
    ensures n == 0 <==> p == Dados || p == Bump
    ensures n == 1 <==> p == Pagamento
  {
    if p == Dados || p == Bump then 0 else if p == Pagamento then 1 else 2
  }

  // ---------------------------------------------------------------------------
  // Phases
  // ---------------------------------------------------------------------------

  /** The page's phase changes: one handler's effect, or no change. */
  predicate Transition(p: Phase, q: Phase) {
    p == q
    || (p == Loading && (q == Dados || q == Error))
    || (p == Dados && q == Bump)
    || (p == Bump && q == Pagamento)
    || (p == Pagamento && q == Obrigado)
  }

  /** How far along the checkout a phase is. */
  function Rank(p: Phase): nat {
    match p
    case Loading => 0
    case Dados => 1
    case Bump => 2
    case Pagamento => 3
    case Obrigado => 4
    case Error => 4
  }

  /** A sequence of phases the page can go through. */
  predicate IsRun(run: seq<Phase>) {
    |run| >= 1 && forall i | 0 <= i < |run| - 1 :: Transition(run[i], run[i + 1])
  }

  /** The error and thank-you screens are final. */
  lemma FinalPhases(p: Phase, q: Phase)
    requires Transition(p, q) && (p == Error || p == Obrigado)
    ensures q == p
  {
  }

  /** The page never goes back to an earlier phase. */
  lemma {:induction false} RunNeverGoesBack(run: seq<Phase>, i: nat, j: nat)
    requires IsRun(run) && i <= j < |run|
    ensures Rank(run[i]) <= Rank(run[j])
    decreases j - i
  {
    if i < j {
      assert Transition(run[i], run[i + 1]);
      RunNeverGoesBack(run, i + 1, j);
    }
  }

  /** The phases that show the progress bar. */
  predicate ShowsProgress(p: Phase) {
    p == Dados || p == Bump || p == Pagamento
  }

  /** Across the phases that show it, the progress bar never moves back. */
  lemma StepNeverDecreases(run: seq<Phase>, i: nat, j: nat)
    requires IsRun(run) && i <= j < |run|
    requires ShowsProgress(run[i]) && ShowsProgress(run[j])
    ensures CurrentStep(run[i]) <= CurrentStep(run[j])
  {
    RunNeverGoesBack(run, i, j);
  }

  lemma {:induction false} ErrorIsFinal(run: seq<Phase>, i: nat, j: nat)
    requires IsRun(run) && i <= j < |run| && run[i] == Error
    ensures run[j] == Error
    decreases j - i
  {
    if i < j {
      assert Transition(run[i], run[i + 1]);
      ErrorIsFinal(run, i + 1, j);
    }
  }

  lemma {:induction false} RunVisits(run: seq<Phase>, target: Phase)
    requires IsRun(run) && run[|run| - 1] == Obrigado
    requires target == Dados || target == Bump || target == Pagamento
    requires Rank(run[0]) < Rank(target)
    ensures exists i | 0 < i < |run| :: run[i] == target
  {
    assert |run| >= 2;
    assert Transition(run[0], run[1]);
    if run[1] == target {
      assert run[1] == target;
    } else {
      if run[1] == Error {
        ErrorIsFinal(run, 1, |run| - 1);
      }
      var rest := run[1..];
      assert IsRun(rest) by {
        forall i | 0 <= i < |rest| - 1 ensures Transition(rest[i], rest[i + 1]) {
          assert Transition(run[i + 1], run[i + 2]);
        }
      }
      RunVisits(rest, target);
      var k :| 0 < k < |rest| && rest[k] == target;
      assert run[k + 1] == target;
    }
  }

  /** A buyer who reached the thank-you screen went through data, bump and payment, in that order. */
  lemma PaidRunVisitsEveryStep(run: seq<Phase>)
    requires IsRun(run) && run[0] == Loading && run[|run| - 1] == Obrigado
    ensures exists i, j, k | 0 < i < j < k < |run| - 1 :: run[i] == Dados && run[j] == Bump && run[k] == Pagamento
  {
    RunVisits(run, Dados);
    RunVisits(run, Bump);
    RunVisits(run, Pagamento);
    var i :| 0 < i < |run| && run[i] == Dados;
    var j :| 0 < j < |run| && run[j] == Bump;
    var k :| 0 < k < |run| && run[k] == Pagamento;
    if j <= i {
      RunNeverGoesBack(run, j, i);
      assert false;
    }
    if k <= j {
      RunNeverGoesBack(run, k, j);
      assert false;
    }
    assert k != |run| - 1;
    assert 0 < i < j < k < |run| - 1 && run[i] == Dados && run[j] == Bump && run[k] == Pagamento;
  }

  // ---------------------------------------------------------------------------
  // Payment payload
  // ---------------------------------------------------------------------------

  datatype Cliente = Cliente(nome: string, email: Option<string>, cpf: string, celular: string)

  /**
   * `pagamento`. `valorTotal` is None where the sum is `NaN`, that is when
   * the offer price is absent.
   */
  datatype PaymentDetails = PaymentDetails(
    metodo: Method,
    parcelas: nat,
    valorProduto: Option<real>,
    valorBump: real,
    valorTotal: Option<real>,
    status: string)

  datatype BumpInfo = BumpInfo(aceito: bool, valor: real)

  /** The body posted to the payment webhook, without its timestamp. */
  datatype Payload = Payload(
    token: string,
    evento: string,
    produto: Option<string>,
    cliente: Cliente,
    pagamento: PaymentDetails,
    bump: BumpInfo)

  /** `paymentData.parcelas || 1`: a missing or zero count is sent as one installment. */
  function ParcelasOrOne(parcelas: Option<nat>): (n: nat)
    ensures n >= 1
    ensures parcelas.Some? && parcelas.value != 0 ==> n == parcelas.value
  {
    if parcelas.Some? && parcelas.value != 0 then parcelas.value else 1
  }

  function BumpCharge(accepted: bool): real {
    if accepted then BumpValue else 0.0
  }

  /** The total the page shows and hands to the payment step: `(preco_oferta ?? 0) + bump`. */
  function DisplayedTotal(data: Option<CheckoutData>, bumpAccepted: bool): real {
    (if data.Some? then data.value.precoOferta.GetOr(0.0) else 0.0) + BumpCharge(bumpAccepted)
  }

  /** The payload of `handlePayment`. */
  function BuildPayload(token: string, data: CheckoutData, client: StepDados.ClientData,
                        bumpAccepted: bool, p: PaymentData): Payload
  {
    var charge := BumpCharge(bumpAccepted);
    Payload(
      token,
      "checkout_finalizado",
      data.produtoNome,
      Cliente(client.nome, data.email, client.cpf, client.celular),
      PaymentDetails(
        p.metodo,
        ParcelasOrOne(p.parcelas),
        data.precoOferta,
        charge,
        if data.precoOferta.Some? then Some(data.precoOferta.value + charge) else None,
        "pending"),
      BumpInfo(bumpAccepted, charge))
  }

  /**
   * The amounts agree: the total is the product price plus the bump, the bump
   * is charged exactly when accepted, and the two places that state the bump
   * agree.
   */
  lemma PayloadAmounts(token: string, data: CheckoutData, client: StepDados.ClientData,
                       bumpAccepted: bool, p: PaymentData)
    ensures var pl := BuildPayload(token, data, client, bumpAccepted, p);
      && pl.bump.aceito == bumpAccepted
      && pl.pagamento.valorBump == pl.bump.valor
      && (pl.pagamento.valorBump > 0.0 <==> bumpAccepted)
      && (pl.pagamento.valorTotal.Some? <==> pl.pagamento.valorProduto.Some?)
      && (pl.pagamento.valorTotal.Some? ==>
            pl.pagamento.valorTotal.value == pl.pagamento.valorProduto.value + pl.pagamento.valorBump)
  {
  }

  /** With an offer price, the amount charged is the total the buyer was shown. */
  lemma ChargedIsDisplayed(token: string, data: CheckoutData, client: StepDados.ClientData,
                           bumpAccepted: bool, p: PaymentData)
    requires data.precoOferta.Some?
    ensures BuildPayload(token, data, client, bumpAccepted, p).pagamento.valorTotal
         == Some(DisplayedTotal(Some(data), bumpAccepted))
  {
  }

  /** Without one, the page shows the bump alone as the total, but sends no total. */
  lemma MissingPriceTotals(token: string, data: CheckoutData, client: StepDados.ClientData,
                           bumpAccepted: bool, p: PaymentData)
    requires data.precoOferta.None?
    ensures BuildPayload(token, data, client, bumpAccepted, p).pagamento.valorTotal.None?
    ensures DisplayedTotal(Some(data), bumpAccepted) == BumpCharge(bumpAccepted)
  {
  }

  /**
   * The installment count the buyer selected reaches the webhook unchanged,
   * and a PIX payment goes as a single installment.
   */
  lemma InstallmentsReachWebhook(token: string, data: CheckoutData, client: StepDados.ClientData,
                                 bumpAccepted: bool, p: PaymentData, n: nat)
    requires n in InstallmentCounts
    requires p.metodo == Cartao ==> p.parcelas == ParseDecimal(NatToString(n))
    requires p.metodo == Pix ==> p.parcelas.None?
    ensures var pl := BuildPayload(token, data, client, bumpAccepted, p);
      && pl.pagamento.metodo == p.metodo
      && pl.pagamento.parcelas == (if p.metodo == Cartao then n else 1)
  {
    ParseNatToString(n);
    assert n >= 1 by {
      assert InstallmentCounts == [1, 2, 3, 4, 6, 12];
    }
  }

  // ---------------------------------------------------------------------------
  // Webhook answer
  // ---------------------------------------------------------------------------

  /** The payment webhook's answer, or a failure of the request or of its JSON. */
  datatype Response = Answered(status: Option<string>, mensagem: Option<string>) | NetworkFailure

  /** A toast: its title, its description and whether it uses the destructive style. */
  datatype Notice = Notice(title: string, description: string, destructive: bool)

  const Approved: string := "approved"
  const Pending: string := "pending"
  const Rejected: string := "rejected"

  /** The toast for an answer; an approved payment shows none and moves on. */
  function NoticeFor(r: Response): Option<Notice> {
    match r
    case NetworkFailure =>
      Some(Notice("Erro de conexão", "Não foi possível processar. Tente novamente.", true))
    case Answered(status, mensagem) =>
      if status == Some(Approved) then None
      else if status == Some(Pending) then
        Some(Notice("Pagamento em análise", OrElse(mensagem, "Você receberá um e-mail de confirmação."), false))
      else if status == Some(Rejected) then
        Some(Notice("Pagamento recusado", OrElse(mensagem, "Verifique os dados do cartão."), true))
      else
        Some(Notice("Erro", OrElse(mensagem, "Erro interno. Tente novamente."), true))
  }

  /**
   * Every answer but approval shows a toast with a description; only a
   * pending payment's toast is not destructive; a non-empty message from the
   * webhook is shown as it is.
   */
  lemma NoticeCases(r: Response)
    ensures NoticeFor(r).None? <==> r.Answered? && r.status == Some(Approved)
    ensures NoticeFor(r).Some? ==> NoticeFor(r).value.description != []
    ensures NoticeFor(r).Some? && !NoticeFor(r).value.destructive <==> r.Answered? && r.status == Some(Pending)
    ensures NoticeFor(r).Some? && r.Answered? && r.mensagem.Some? && r.mensagem.value != [] ==>
      NoticeFor(r).value.description == r.mensagem.value
  {
  }

  // ---------------------------------------------------------------------------
  // The page
  // ---------------------------------------------------------------------------

  class Checkout {
    const token: string
    var phase: Phase
    var errorMsg: string
    var data: Option<CheckoutData>
    var clientData: StepDados.ClientData
    var bumpAccepted: bool
    var isSubmitting: bool

    /**
     * Past the lookup, the link was accepted and its answer is kept; an error
     * screen has a message; a payment is only in flight on the payment step.
     */
    ghost predicate Valid()
      reads this
    {
      && (phase == Loading ==> data.None? && !isSubmitting)
      && (phase == Error ==> data.None? && errorMsg != [])
      && (phase != Loading && phase != Error ==> token != [] && data.Some? && Usable(data.value))
      && (isSubmitting ==> phase == Pagamento)
    }

    /** `token` is the link's query parameter, `""` when there is none. */
    constructor(token: string)
      ensures Valid()
      ensures this.token == token && phase == Loading && errorMsg == [] && data.None?
      ensures clientData == StepDados.ClientData([], [], []) && !bumpAccepted && !isSubmitting
    {
      this.token := token;
      phase := Loading;
      errorMsg := [];
      data := None;
      clientData := StepDados.ClientData([], [], []);
      bumpAccepted := false;
      isSubmitting := false;
    }

    /** The end of the token lookup. */
    method Load(outcome: Resolution)
      requires Valid() && phase == Loading
      modifies this`phase, this`errorMsg, this`data
      ensures Valid() && Transition(old(phase), phase)
      ensures LoadState(phase, errorMsg, data) == LoadOutcome(token, outcome)
    {
      var s := LoadOutcome(token, outcome);
      phase := s.phase;
      errorMsg := s.errorMsg;
      data := s.data;
    }

    /** The data step's pre-filled fields: the link's name, e-mail and phone, `""` when absent. */
    method OpenDados() returns (form: StepDados.Form)
      requires Valid() && phase == Dados
      ensures fresh(form) && form.Valid()
      ensures form.nome == OrElse(data.value.nome, []) && form.email == OrElse(data.value.email, [])
      ensures form.celular == OrElse(data.value.celular, []) && form.cpf == []
    {
      form := new StepDados.Form(OrElse(data.value.nome, []), OrElse(data.value.email, []), OrElse(data.value.celular, []));
    }

    /** `handleDadosSubmit` */
    method HandleDadosSubmit(d: StepDados.ClientData)
      requires Valid() && phase == Dados
      modifies this`clientData, this`phase
      ensures Valid() && Transition(old(phase), phase)
      ensures clientData == d && phase == Bump
    {
      clientData := d;
      phase := Bump;
    }

    /** `handleBump` */
    method HandleBump(accepted: bool)
      requires Valid() && phase == Bump
      modifies this`bumpAccepted, this`phase
      ensures Valid() && Transition(old(phase), phase)
      ensures bumpAccepted == accepted && phase == Pagamento
    {
      bumpAccepted := accepted;
      phase := Pagamento;
    }

    /**
     * The first half of `handlePayment`: marks the page as submitting and
     * returns the payload to post. On the payment step the link's answer is
     * always present, so `if (!data) return` never fires.
     */
    method BeginPayment(p: PaymentData) returns (payload: Payload)
      requires Valid() && phase == Pagamento && !isSubmitting
      modifies this`isSubmitting
      ensures Valid() && isSubmitting
      ensures payload == BuildPayload(token, data.value, clientData, bumpAccepted, p)
      ensures payload.token != [] && payload.token == token
      ensures payload.cliente.email == data.value.email
      ensures payload.pagamento.valorTotal.Some? ==>
        payload.pagamento.valorTotal.value == DisplayedTotal(data, bumpAccepted)
    {
      isSubmitting := true;
      payload := BuildPayload(token, data.value, clientData, bumpAccepted, p);
    }

    /**
     * The second half of `handlePayment`: an approved payment moves on to the
     * thank-you screen, any other answer leaves the buyer on the payment step
     * with a toast; either way the page stops submitting.
     */
    method FinishPayment(r: Response) returns (notice: Option<Notice>)
      requires Valid() && isSubmitting
      modifies this`phase, this`isSubmitting
      ensures Valid() && Transition(old(phase), phase)
      ensures !isSubmitting
      ensures notice == NoticeFor(r)
      ensures phase == (if notice.None? then Obrigado else Pagamento)
    {
      notice := NoticeFor(r);
      NoticeCases(r);
      if r.Answered? && r.status == Some(Approved) {
        phase := Obrigado;
      }
      isSubmitting := false;
    }
  }
}
