/**
 * The personal-data step of the checkout: the name, phone and CPF fields,
 * the per-field error map built on submit, and the gate that forwards the
 * data only when that map is empty. The e-mail is shown read-only and never
 * forms part of what the step submits.
 */
module StepDados {
  import opened Wrappers
  import opened Text
  import opened CheckoutUtils

  datatype Field = Nome | Celular | Cpf

  /** What the step hands to the page: `{ nome, celular, cpf }`. */
  datatype ClientData = ClientData(nome: string, celular: string, cpf: string)

  const NomeObrigatorio: string := "Nome obrigatório"
  const CelularInvalido: string := "Celular inválido"
  const CpfInvalido: string := "CPF inválido"

  /** The fewest phone digits the step accepts: a two-digit area code and eight digits. */
  const MinPhoneDigits: nat := 10

  /**
   * The error map of `handleSubmit`, filled field by field. Each check is
   * independent of the others: a key is present exactly when its own field
   * fails.
   */
  method CollectErrors(nome: string, celular: string, cpf: string) returns (errors: map<Field, string>)
    ensures Nome in errors <==> IsBlank(nome)
    ensures Celular in errors <==> |DigitsOf(celular)| < MinPhoneDigits
    ensures Cpf in errors <==> !CpfValid(cpf)
    ensures Nome in errors ==> errors[Nome] == NomeObrigatorio
    ensures Celular in errors ==> errors[Celular] == CelularInvalido
    ensures Cpf in errors ==> errors[Cpf] == CpfInvalido
  {
    errors := map[];
    TrimEmptyIffBlank(nome);
    if Trim(nome) == [] {
      errors := errors[Nome := NomeObrigatorio];
    }
    var phoneDigits := DigitsOf(celular);
    if |phoneDigits| < MinPhoneDigits {
      errors := errors[Celular := CelularInvalido];
    }
    var cpfOk := ValidateCpf(cpf);
    if !cpfOk {
      errors := errors[Cpf := CpfInvalido];
    }
  }

  /** The form state of the step. */
  class Form {
    const email: string
    var nome: string
    var celular: string
    var cpf: string
    var errors: map<Field, string>

    /** The CPF field only ever holds masked text. */
    ghost predicate Valid()
      reads this`cpf
    {
      cpf == MaskCpf(cpf)
    }

    /** The step opens with the name and phone the link resolved to, and an empty CPF. */
    constructor(initialNome: string, email: string, initialCelular: string)
      ensures Valid()
      ensures this.email == email
      ensures nome == initialNome && celular == initialCelular && cpf == [] && errors == map[]
    {
      this.email := email;
      nome := initialNome;
      celular := initialCelular;
      cpf := [];
      errors := map[];
    }

    method SetNome(input: string)
      requires Valid()
      modifies this`nome
      ensures Valid() && nome == input
    {
      nome := input;
    }

    /** The phone field keeps at most eleven digits, in the (DD) NNNNN-NNNN layout. */
    method SetCelular(input: string)
      requires Valid()
      modifies this`celular
      ensures Valid()
      ensures celular == MaskPhone(input)
      ensures celular == MaskPhone(celular)
      ensures |DigitsOf(celular)| <= 11
    {
      celular := MaskPhone(input);
      MaskPhoneIdempotent(input);
      MaskPhoneDigits(input);
    }

    method SetCpf(input: string)
      modifies this`cpf
      ensures cpf == MaskCpf(input)
      ensures Valid()
    {
      cpf := MaskCpf(input);
      MaskCpfIdempotent(input);
    }

    /**
     * `handleSubmit`: commits the error map, then forwards exactly the
     * current name, phone and CPF when there is no error. Since the CPF
     * field is always masked, its check sees at most eleven digits, and the
     * punctuation the mask added plays no part in it.
     */
    method HandleSubmit() returns (submitted: Option<ClientData>)
      requires Valid()
      modifies this`errors
      ensures Valid()
      ensures |DigitsOf(cpf)| <= 11
      ensures Nome in errors <==> IsBlank(nome)
      ensures Celular in errors <==> |DigitsOf(celular)| < MinPhoneDigits
      ensures Cpf in errors <==> !CpfValid(DigitsOf(cpf))
      ensures Cpf in errors <==> !CpfValid(cpf)
      ensures Nome in errors ==> errors[Nome] == NomeObrigatorio
      ensures Celular in errors ==> errors[Celular] == CelularInvalido
      ensures Cpf in errors ==> errors[Cpf] == CpfInvalido
      ensures submitted.Some? <==> errors == map[]
      ensures submitted.Some? ==> submitted.value == ClientData(nome, celular, cpf)
    {
      MaskedCpfDigits(cpf);
      var newErrors := CollectErrors(nome, celular, cpf);
      errors := newErrors;
      if |errors| == 0 {
        submitted := Some(ClientData(nome, celular, cpf));
      } else {
        submitted := None;
      }
    }
  }

  /** A masked CPF field has at most eleven digits, so masking never changed whether it is valid. */
  lemma MaskedCpfDigits(cpf: string)
    requires cpf == MaskCpf(cpf)
    ensures |DigitsOf(cpf)| <= 11
    ensures CpfValid(cpf) == CpfValid(DigitsOf(cpf))
  {
    MaskCpfDigits(cpf);
    CpfValidDigitsOnly(cpf);
  }
}
