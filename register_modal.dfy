/** The registration dialog's form rules: the reset when it opens, the
    submit gate, and the choice of the username error message and class. */
module RegisterModal {
  import opened Outcomes
  import opened Entities
  import opened Form

  const EmailField := "registerEmail"
  const PasswordField := "registerPassword"
  const UsernameField := "username"

  const EmailTaken := "This email is not available"
  const NativeErrorClass := "form__input-error_active"
  const ApiErrorClass := "form__api-error"

  /** The three fields, all empty: the initial values and the reset target. */
  function BlankFields(): (m: map<string, string>)
    ensures m.Keys == {EmailField, PasswordField, UsernameField}
    ensures forall f :: f in m ==> m[f] == ""
  {
    map[EmailField := "", PasswordField := "", UsernameField := ""]
  }

  /** `errors.<name>`: `undefined` until the field has been changed once. */
  function ErrorOf(errors: map<string, string>, name: string): Option<string> {
    if name in errors then Some(errors[name]) else None
  }

  /** JavaScript `a || b` on optional strings. */
  function Or(a: Option<string>, b: Option<string>): (r: Option<string>)
    ensures Truthy(r) <==> Truthy(a) || Truthy(b)
  {
    if Truthy(a) then a else b
  }

  /** The `submitDisabled` expression: the first non-empty field error, if
      any; it is truthy exactly when some field error is non-empty. */
  function SubmitDisabled(errors: map<string, string>): (r: Option<string>)
    ensures Truthy(r) <==>
              Truthy(ErrorOf(errors, EmailField)) || Truthy(ErrorOf(errors, PasswordField)) ||
              Truthy(ErrorOf(errors, UsernameField))
    ensures Truthy(r) ==>
              r == ErrorOf(errors, EmailField) || r == ErrorOf(errors, PasswordField) ||
              r == ErrorOf(errors, UsernameField)
  {
    Or(Or(ErrorOf(errors, EmailField), ErrorOf(errors, PasswordField)), ErrorOf(errors, UsernameField))
  }

  /** The error class of the email and password inputs. */
  function FieldErrorClass(errors: map<string, string>, name: string): (c: string)
    ensures c == NativeErrorClass <==> Truthy(ErrorOf(errors, name))
    ensures c != NativeErrorClass ==> c == ""
  {
    if Truthy(ErrorOf(errors, name)) then NativeErrorClass else ""
  }

  /** The username input's message: a server error wins over the native one. */
  function UsernameErrorMessage(apiError: Option<Failure>, errors: map<string, string>): Option<string> {
    if apiError.Some? then Some(EmailTaken) else ErrorOf(errors, UsernameField)
  }

  /** The username input's class: the native error wins over a server one. */
  function UsernameErrorClass(apiError: Option<Failure>, errors: map<string, string>): string {
    if Truthy(ErrorOf(errors, UsernameField)) then NativeErrorClass
    else if apiError.Some? then ApiErrorClass
    else ""
  }

  /** What each username indicator shows, and that the two choose in
      opposite orders when both errors are present. */
  lemma UsernameIndicators(apiError: Option<Failure>, errors: map<string, string>)
    ensures UsernameErrorMessage(apiError, errors) == Some(EmailTaken) <==>
              apiError.Some? || ErrorOf(errors, UsernameField) == Some(EmailTaken)
    ensures apiError.None? ==> UsernameErrorMessage(apiError, errors) == ErrorOf(errors, UsernameField)
    ensures UsernameErrorClass(apiError, errors) == NativeErrorClass <==> Truthy(ErrorOf(errors, UsernameField))
    ensures UsernameErrorClass(apiError, errors) == ApiErrorClass <==>
              apiError.Some? && !Truthy(ErrorOf(errors, UsernameField))
    ensures UsernameErrorClass(apiError, errors) == "" <==>
              apiError.None? && !Truthy(ErrorOf(errors, UsernameField))
    ensures apiError.Some? && Truthy(ErrorOf(errors, UsernameField)) ==>
              UsernameErrorMessage(apiError, errors) == Some(EmailTaken) &&
              UsernameErrorClass(apiError, errors) == NativeErrorClass
  {
  }

  /** `handleSubmit`: the body handed to `handleRegister` is the current
      values object itself. */
  function SubmitPayload(values: Fields): (payload: Fields)
    ensures payload.Keys == values.Keys
    ensures forall f :: f in values ==> payload[f] == values[f]
  {
    values
  }

  /** The reset effect as written: `setErrors` is destructured from the form
      hook, which does not return it, so after the values are blanked the
      call to it throws and the errors stay as they were. */
  method ResetOnOpenAsWritten(form: FormState, modalIsOpen: bool) returns (r: Result<(), Failure>)
    modifies form
    ensures !modalIsOpen ==> r == Ok(()) && form.values == old(form.values)
    ensures modalIsOpen ==> r == Err(NotAFunction("setErrors")) && form.values == BlankFields()
    ensures form.errors == old(form.errors) && form.inputRefs == old(form.inputRefs)
  {
    if !modalIsOpen {
      return Ok(());
    }
    form.SetValues(BlankFields());
    r := Err(NotAFunction("setErrors"));
  }

  /** A counterexample: an email error left from an earlier visit keeps the
      submit-disabled predicate truthy after the dialog is opened again. */
  method StaleErrorBlocksSubmit() returns (blocked: bool, r: Result<(), Failure>)
    ensures blocked && r.Err?
  {
    var form := new FormState(BlankFields());
    form.RegisterInput(EmailField, Some(InputElement(0)));
    form.HandleChange(EmailField, "x", (el: InputElement) => "Please enter an email address.");
    r := ResetOnOpenAsWritten(form, true);
    blocked := Truthy(SubmitDisabled(form.errors));
  }

  /** The reset effect as intended: on open both the values and the errors
      of the three fields are blanked, so the submit-disabled predicate is
      falsy. */
  method ResetOnOpen(form: FormState, modalIsOpen: bool)
    modifies form
    ensures !modalIsOpen ==> form.values == old(form.values) && form.errors == old(form.errors)
    ensures modalIsOpen ==> form.values == BlankFields() && form.errors == BlankFields()
    ensures modalIsOpen ==> !Truthy(SubmitDisabled(form.errors))
    ensures form.inputRefs == old(form.inputRefs)
  {
    if modalIsOpen {
      form.SetValues(BlankFields());
      form.SetErrors(BlankFields());
    }
  }
}
