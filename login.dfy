/** The sign-in form: the e-mail and password rules run in turn, and the
    form is sent only when neither recorded a message. A successful sign-in
    returns to the page that sent the visitor here, or the dashboard. */
module Login {
  import opened Wrappers
  import opened Text
  import opened Backend
  import opened FormValidation
  import Dict

  datatype Field = Email | Password

  function Key(f: Field): string {
    match f
    case Email => EmailKey
    case Password => PasswordKey
  }

  datatype LoginForm = LoginForm(email: string, password: string)

  function WithValue(form: LoginForm, f: Field, v: string): (r: LoginForm)
    ensures f == Email ==> r == LoginForm(v, form.password)
    ensures f == Password ==> r == LoginForm(form.email, v)
  {
    match f
    case Email => form.(email := v)
    case Password => form.(password := v)
  }

  const LoginFailed := "Login failed. Please try again."
  const Dashboard := "/dashboard"

  /** The message a field's chain of rules records, None when it passes. */
  function FieldError(form: LoginForm, f: Field): Option<string> {
    match f
    case Email => EmailError(form.email)
    case Password => PasswordError(form.password)
  }

  /** Neither chain fails. */
  predicate FormValid(form: LoginForm) {
    EmailError(form.email).None? && PasswordError(form.password).None?
  }

  /** The sign-in form is accepted exactly when the e-mail fits its pattern
      and the password is non-blank with at least 6 UTF-16 code units. */
  lemma FormValidIff(form: LoginForm)
    ensures FormValid(form) <==> IsEmailLike(form.email) && Trim(form.password) != "" && Utf16Length(form.password) >= 6
  {
  }

  /** The error object `validateForm` builds: the e-mail's message, then the
      password's. */
  function Messages(form: LoginForm): Dict.Dict<string> {
    EntryFor(EmailKey, EmailError(form.email)) + EntryFor(PasswordKey, PasswordError(form.password))
  }

  /** Each field reads the message of its first failing rule, or nothing. */
  lemma MessagesGet(form: LoginForm)
    ensures forall f :: Dict.Get(Messages(form), Key(f)) == FieldError(form, f)
  {
    KeysDistinct();
    forall f
      ensures Dict.Get(Messages(form), Key(f)) == FieldError(form, f)
    {
      GetTwoEntries(EmailKey, EmailError(form.email), PasswordKey, PasswordError(form.password), Key(f));
    }
  }

  /** The two fields are filed under different keys. */
  lemma KeysDistinct()
    ensures EmailKey != PasswordKey
  {
    assert |EmailKey| != |PasswordKey|;
  }

  /** No key but the two fields' is recorded, and the object is empty
      exactly when the form is valid. */
  lemma MessagesShape(form: LoginForm)
    ensures forall i :: 0 <= i < |Messages(form)| ==> Messages(form)[i].key in {EmailKey, PasswordKey}
    ensures Messages(form) == [] <==> FormValid(form)
  {
    TwoEntriesShape(EmailKey, EmailError(form.email), PasswordKey, PasswordError(form.password));
  }

  /** Where a successful sign-in goes: the page the visitor came from, or
      the dashboard when there is none. */
  function Target(from: Option<string>): (r: string)
    ensures r != ""
    ensures from.Some? && from.value != "" ==> r == from.value
    ensures from.None? ==> r == Dashboard
  {
    OrText(from, Dashboard)
  }

  class LoginPage {
    /** The path of the page that sent the visitor here, if any. */
    const from: Option<string>
    var form: LoginForm
    var errors: Dict.Dict<string>
    var isSubmitting: bool

    constructor(from: Option<string>)
      ensures this.from == from
      ensures form == LoginForm("", "") && errors == [] && !isSubmitting
    {
      this.from := from;
      form := LoginForm("", "");
      errors := [];
      isSubmitting := false;
    }

    /** `handleChange`: the field takes the value, and a message showing
        under it is blanked. */
    method HandleChange(f: Field, value: string)
      modifies this`form, this`errors
      ensures form == WithValue(old(form), f, value)
      ensures errors == ClearShown(old(errors), Key(f))
    {
      form := WithValue(form, f, value);
      var shown := Dict.Get(errors, Key(f));
      if shown.Some? && shown.value != "" {
        errors := Dict.Put(errors, Key(f), "");
      }
    }

    /** `validateForm`: the two chains run in turn and the error object is
        replaced by what they collected. The form passes exactly when
        nothing was. */
    method ValidateForm() returns (valid: bool)
      modifies this`errors
      ensures errors == Messages(form)
      ensures valid <==> errors == []
    {
      var newErrors: Dict.Dict<string> := [];
      newErrors := CheckEmail(newErrors, form.email);
      newErrors := CheckPassword(newErrors, form.password);
      assert [] + EntryFor(EmailKey, EmailError(form.email)) == EntryFor(EmailKey, EmailError(form.email));
      errors := newErrors;
      valid := newErrors == [];
    }

    /** `handleSubmit`: an invalid form stops after validation and nothing
        is sent. A valid one is sent (`answer` is what the sign-in call did):
        success goes to `Target(from)`; otherwise only the general message
        is left, the service's error text or a fixed one. */
    method HandleSubmit(answer: Answer) returns (sent: bool, target: Option<string>)
      modifies this`errors, this`isSubmitting
      ensures sent <==> FormValid(form)
      ensures !sent ==> target.None? && isSubmitting == old(isSubmitting) && errors == Messages(form)
      ensures sent ==> !isSubmitting
      ensures sent && GeneralMessage(answer, LoginFailed).None? ==> target == Some(Target(from)) && errors == []
      ensures sent && GeneralMessage(answer, LoginFailed).Some? ==> target.None?
      ensures sent && GeneralMessage(answer, LoginFailed).Some? ==>
        errors == [Dict.Entry(GeneralKey, GeneralMessage(answer, LoginFailed).value)]
    {
      var valid := ValidateForm();
      MessagesShape(form);
      if !valid {
        return false, None;
      }
      isSubmitting := true;
      sent := true;
      var message := GeneralMessage(answer, LoginFailed);
      if message.None? {
        target := Some(Target(from));
      } else {
        errors := [Dict.Entry(GeneralKey, message.value)];
        target := None;
      }
      isSubmitting := false;
    }
  }
}
