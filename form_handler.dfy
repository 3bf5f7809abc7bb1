/** The contact forms' client-side validation (the `formHandler` object of
    script.js): the rule each field is checked against, the error state the
    page keeps per field, and the two methods that run the rules, one field
    at a time and over a whole form. */
module FormHandler {
  import opened Text
  import opened Validators

  const RequiredMessage := "Este campo es obligatorio"
  const EmailMessage := "Ingrese un email válido"
  const PhoneMessage := "Ingrese un celular válido (debe empezar con 9 y tener 9 dígitos)"
  const RucMessage := "El RUC debe tener exactamente 11 dígitos"
  const NombresMessage := "El nombre debe tener al menos 2 caracteres"
  const EmpresaMessage := "El nombre de la empresa debe tener al menos 2 caracteres"
  const CargoMessage := "El cargo debe tener al menos 2 caracteres"

  /** A form control: its `name`, its current `value` and whether it carries
      the `required` attribute. */
  datatype Field = Field(name: string, value: string, required: bool)

  /** The switch on the field's name, applied to a trimmed value that is not
      empty; `None` when the value passes. */
  function RuleError(name: string, value: string): (r: Option<string>)
    ensures r.Some? ==> r.value != ""
  {
    if name == "email" then
      if IsValidEmail(value) then None else Some(EmailMessage)
    else if name == "telefono" || name == "celular" then
      if IsValidPhone(value) then None else Some(PhoneMessage)
    else if name == "ruc" then
      if IsValidRUC(value) then None else Some(RucMessage)
    else if name == "nombres" then
      if |value| < 2 then Some(NombresMessage) else None
    else if name == "empresa" then
      if |value| < 2 then Some(EmpresaMessage) else None
    else if name == "cargo" then
      if |value| < 2 then Some(CargoMessage) else None
    else
      None
  }

  /** The verdict of `validateField`: the message it shows, or `None` when the
      field passes. Every message is non-empty, so a shown message can never
      be mistaken for a cleared one. */
  function FieldError(field: Field): (r: Option<string>)
    ensures r.Some? ==> r.value != ""
  {
    var value := Trim(field.value);
    if field.required && value == [] then Some(RequiredMessage)
    else if value != [] then RuleError(field.name, value)
    else None
  }

  /** A value that is empty once trimmed fails exactly when the field is
      required, and then with the "required" message. */
  lemma BlankValueFailsIffRequired(field: Field)
    requires AllWhitespace(field.value)
    ensures FieldError(field) == if field.required then Some(RequiredMessage) else None
  {
  }

  /** Names, company names and job titles fail exactly when the trimmed value
      is shorter than two characters. */
  lemma LengthRule(field: Field)
    requires field.name == "nombres" || field.name == "empresa" || field.name == "cargo"
    requires !AllWhitespace(field.value)
    ensures FieldError(field).Some? <==> |Trim(field.value)| < 2
  {
    var value := Trim(field.value);
    assert FieldError(field) == RuleError(field.name, value);
    assert field.name != "email" && field.name != "telefono" && field.name != "celular" && field.name != "ruc";
  }

  /** Email, phone and RUC fields fail exactly when their check rejects the
      trimmed value. */
  lemma FormatRules(field: Field)
    requires !AllWhitespace(field.value)
    ensures field.name == "email" ==> (FieldError(field).Some? <==> !IsValidEmail(Trim(field.value)))
    ensures field.name == "telefono" || field.name == "celular" ==>
              (FieldError(field).Some? <==> !IsValidPhone(Trim(field.value)))
    ensures field.name == "ruc" ==> (FieldError(field).Some? <==> !IsValidRUC(Trim(field.value)))
  {
  }

  /** A field whose name has no rule (the message box, for one) passes
      whenever it is not a required field left blank. */
  lemma UnruledNamePasses(field: Field)
    requires field.name !in ["email", "telefono", "celular", "ruc", "nombres", "empresa", "cargo"]
    requires !(field.required && AllWhitespace(field.value))
    ensures FieldError(field) == None
  {
    var value := Trim(field.value);
    if value != [] {
      assert RuleError(field.name, value) == None;
    }
  }

  /** Only the trimmed value matters: padding the value with white space never
      changes the verdict. */
  lemma VerdictIgnoresPadding(field: Field)
    ensures FieldError(field.(value := Trim(field.value))) == FieldError(field)
  {
    TrimIdempotent(field.value);
  }

  /** The per-field error state the page shows: the fields carrying the
      `error` class, and the text of each field's error region. */
  datatype ErrorView = ErrorView(flagged: set<string>, messages: map<string, string>)

  /** `clearFieldError`: the field loses the `error` class and its error
      region is emptied; no other field changes. */
  function Cleared(v: ErrorView, name: string): (w: ErrorView)
    ensures name !in w.flagged && name in w.messages && w.messages[name] == ""
    ensures forall other :: other != name ==> SameFor(w, v, other)
  {
    ErrorView(v.flagged - {name}, v.messages[name := ""])
  }

  /** `showFieldError`: the field gets the `error` class and its error region
      holds the message; no other field changes. */
  function Shown(v: ErrorView, name: string, message: string): (w: ErrorView)
    ensures name in w.flagged && name in w.messages && w.messages[name] == message
    ensures forall other :: other != name ==> SameFor(w, v, other)
  {
    ErrorView(v.flagged + {name}, v.messages[name := message])
  }

  /** The error state after `validateField(field)`: the field is flagged
      exactly when it fails. */
  function AfterValidation(v: ErrorView, field: Field): (w: ErrorView)
    ensures field.name in w.flagged <==> FieldError(field).Some?
  {
    var cleared := Cleared(v, field.name);
    match FieldError(field)
    case None => cleared
    case Some(message) => Shown(cleared, field.name, message)
  }

  /** The error state after validating `fields` one after another: every
      validated field's error region has been written, and no error region
      disappears. */
  function AfterValidations(v: ErrorView, fields: seq<Field>): (w: ErrorView)
    ensures v.messages.Keys <= w.messages.Keys
    ensures forall i :: 0 <= i < |fields| ==> fields[i].name in w.messages
    decreases |fields|
  {
    if fields == [] then v else AfterValidations(AfterValidation(v, fields[0]), fields[1..])
  }

  function MessageOf(error: Option<string>): string {
    match error
    case None => ""
    case Some(message) => message
  }

  /** `v` shows the verdict on `field`: the field is flagged exactly when it
      fails, and its error region holds the failure message, or nothing. */
  predicate Reports(v: ErrorView, field: Field) {
    && (field.name in v.flagged <==> FieldError(field).Some?)
    && field.name in v.messages
    && v.messages[field.name] == MessageOf(FieldError(field))
  }

  /** `v` and `w` show the same thing for the field called `name`. */
  predicate SameFor(v: ErrorView, w: ErrorView, name: string) {
    && (name in v.flagged <==> name in w.flagged)
    && (name in v.messages <==> name in w.messages)
    && (name in v.messages ==> v.messages[name] == w.messages[name])
  }

  /** Validating one field reports its verdict and leaves every other field's
      error state alone. */
  lemma AfterValidationReports(v: ErrorView, field: Field)
    ensures Reports(AfterValidation(v, field), field)
    ensures forall name :: name != field.name ==> SameFor(AfterValidation(v, field), v, name)
  {
  }

  /** Validating a sequence of fields touches only the fields validated. */
  lemma {:induction false} AfterValidationsFrame(v: ErrorView, fields: seq<Field>, name: string)
    requires forall i :: 0 <= i < |fields| ==> fields[i].name != name
    ensures SameFor(AfterValidations(v, fields), v, name)
    decreases |fields|
  {
    if fields != [] {
      AfterValidationReports(v, fields[0]);
      AfterValidationsFrame(AfterValidation(v, fields[0]), fields[1..], name);
    }
  }

  /** Validating a sequence of fields without stopping at the first failure
      reports every field's verdict; where two fields share a name, the one
      validated last is the one shown. */
  lemma {:induction false} AfterValidationsReportsAll(v: ErrorView, fields: seq<Field>)
    ensures forall i :: 0 <= i < |fields| && (forall j :: i < j < |fields| ==> fields[j].name != fields[i].name)
                        ==> Reports(AfterValidations(v, fields), fields[i])
    decreases |fields|
  {
    if fields != [] {
      var next := AfterValidation(v, fields[0]);
      AfterValidationsReportsAll(next, fields[1..]);
      forall i | 0 <= i < |fields| && (forall j :: i < j < |fields| ==> fields[j].name != fields[i].name)
        ensures Reports(AfterValidations(v, fields), fields[i])
      {
        if i == 0 {
          AfterValidationReports(v, fields[0]);
          AfterValidationsFrame(next, fields[1..], fields[0].name);
        } else {
          assert fields[i] == fields[1..][i - 1];
        }
      }
    }
  }

  /** The controls `querySelectorAll('input[required], select[required],
      textarea[required]')` selects, in document order. */
  function RequiredInputs(form: seq<Field>): (r: seq<Field>)
    ensures forall f :: f in r <==> f in form && f.required
  {
    if form == [] then []
    else (if form[0].required then [form[0]] else []) + RequiredInputs(form[1..])
  }

  /** The selection keeps document order: selecting from a form made of two
      parts gives the first part's required controls, then the second's. */
  lemma {:induction false} RequiredInputsConcat(a: seq<Field>, b: seq<Field>)
    ensures RequiredInputs(a + b) == RequiredInputs(a) + RequiredInputs(b)
  {
    if a == [] {
      assert a + b == b;
    } else {
      assert (a + b)[0] == a[0];
      assert (a + b)[1..] == a[1..] + b;
      RequiredInputsConcat(a[1..], b);
    }
  }

  /** The page's validator: one instance holds the error state of every field
      on the page. */
  class Validator {
    var flagged: set<string>
    var messages: map<string, string>

    function View(): ErrorView
      reads this
    {
      ErrorView(flagged, messages)
    }

    constructor ()
      ensures View() == ErrorView({}, map[])
    {
      flagged := {};
      messages := map[];
    }

    /** `showFieldError`: adds the `error` class and writes the message into
        the field's error region. */
    method ShowFieldError(field: Field, message: string)
      modifies this
      ensures View() == Shown(old(View()), field.name, message)
    {
      flagged := flagged + {field.name};
      messages := messages[field.name := message];
    }

    /** `clearFieldError`: removes the `error` class and empties the field's
        error region. */
    method ClearFieldError(field: Field)
      modifies this
      ensures View() == Cleared(old(View()), field.name)
    {
      flagged := flagged - {field.name};
      messages := messages[field.name := ""];
    }

    /** `validateField`: clears the field's previous error, checks the trimmed
        value, and flags the field with the rule's message when it fails. */
    method ValidateField(field: Field) returns (isValid: bool)
      modifies this
      ensures isValid <==> FieldError(field) == None
      ensures View() == AfterValidation(old(View()), field)
      ensures Reports(View(), field)
    {
      var value := Trim(field.value);
      var fieldName := field.name;
      isValid := true;
      var errorMessage := "";

      ClearFieldError(field);

      if field.required && value == [] {
        isValid := false;
        errorMessage := RequiredMessage;
      }

      if value != [] && isValid {
        if fieldName == "email" {
          if !IsValidEmail(value) {
            isValid := false;
            errorMessage := EmailMessage;
          }
        } else if fieldName == "telefono" || fieldName == "celular" {
          if !IsValidPhone(value) {
            isValid := false;
            errorMessage := PhoneMessage;
          }
        } else if fieldName == "ruc" {
          if !IsValidRUC(value) {
            isValid := false;
            errorMessage := RucMessage;
          }
        } else if fieldName == "nombres" {
          if |value| < 2 {
            isValid := false;
            errorMessage := NombresMessage;
          }
        } else if fieldName == "empresa" {
          if |value| < 2 {
            isValid := false;
            errorMessage := EmpresaMessage;
          }
        } else if fieldName == "cargo" {
          if |value| < 2 {
            isValid := false;
            errorMessage := CargoMessage;
          }
        }
      }

      if !isValid {
        ShowFieldError(field, errorMessage);
      }
    }

    /** `validateForm`: validates every required control, without stopping at
        the first failure, and passes only if all of them pass. */
    method ValidateForm(form: seq<Field>) returns (isValid: bool)
      modifies this
      ensures isValid <==> forall f :: f in RequiredInputs(form) ==> FieldError(f) == None
      ensures View() == AfterValidations(old(View()), RequiredInputs(form))
    {
      var inputs := RequiredInputs(form);
      isValid := true;
      var i := 0;
      while i < |inputs|
        invariant 0 <= i <= |inputs|
        invariant isValid <==> forall k :: 0 <= k < i ==> FieldError(inputs[k]) == None
        invariant AfterValidations(View(), inputs[i..]) == AfterValidations(old(View()), inputs)
      {
        assert inputs[i..][1..] == inputs[i + 1..];
        var ok := ValidateField(inputs[i]);
        if !ok {
          isValid := false;
        }
        i := i + 1;
      }
      assert inputs[i..] == [];
      if isValid {
        forall f | f in inputs ensures FieldError(f) == None {
          var k :| 0 <= k < |inputs| && inputs[k] == f;
        }
      }
    }
  }

  lemma WellFormedEmailPasses()
    ensures FieldError(Field("email", "x@y.com", true)) == None
  {
    var s := "x@y.com";
    assert s[1] == '@' && s[3] == '.';
    assert EmailAtom(s[..1]) && EmailAtom(s[2..3]) && EmailAtom(s[4..]);
    TrimUnpadded(s);
  }

  /** No short circuit: after a failing field, the next field is still
      validated, so the first stays flagged and the second is reported
      clean. */
  lemma FailureDoesNotStopValidation(v: ErrorView, bad: Field, good: Field)
    requires bad.name != good.name
    requires FieldError(bad) != None && FieldError(good) == None
    ensures bad.name in AfterValidations(v, [bad, good]).flagged
    ensures good.name !in AfterValidations(v, [bad, good]).flagged
  {
    AfterValidationsReportsAll(v, [bad, good]);
    assert [bad, good][0] == bad && [bad, good][1] == good;
  }

  /** A blank required name beside a well-formed email: the name is flagged
      and the email, validated too, is not. */
  lemma FormValidationExample()
    ensures var v := AfterValidations(ErrorView({}, map[]), [Field("nombres", "", true), Field("email", "x@y.com", true)]);
            "nombres" in v.flagged && "email" !in v.flagged
  {
    WellFormedEmailPasses();
    FailureDoesNotStopValidation(ErrorView({}, map[]), Field("nombres", "", true), Field("email", "x@y.com", true));
  }
}
