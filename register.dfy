/** The sign-up form: five fields, each checked by its own chain of rules
    that records the first failing rule's message in the error object; the
    form is submitted only when that object ends up empty. */
module Register {
  import opened Wrappers
  import opened Text
  import opened Backend
  import opened FormValidation
  import Dict

  datatype Field = FullName | Username | Email | Password | ConfirmPassword

  /** The error object's key for a field. */
  function Key(f: Field): string {
    match f
    case FullName => "fullName"
    case Username => "username"
    case Email => EmailKey
    case Password => PasswordKey
    case ConfirmPassword => "confirmPassword"
  }

  datatype RegisterForm = RegisterForm(
    fullName: string, username: string, email: string, password: string, confirmPassword: string)

  function Value(form: RegisterForm, f: Field): string {
    match f
    case FullName => form.fullName
    case Username => form.username
    case Email => form.email
    case Password => form.password
    case ConfirmPassword => form.confirmPassword
  }

  function WithValue(form: RegisterForm, f: Field, v: string): (r: RegisterForm)
    ensures Value(r, f) == v
    ensures forall g :: g != f ==> Value(r, g) == Value(form, g)
  {
    match f
    case FullName => form.(fullName := v)
    case Username => form.(username := v)
    case Email => form.(email := v)
    case Password => form.(password := v)
    case ConfirmPassword => form.(confirmPassword := v)
  }

  /** `[a-zA-Z0-9_-]`. */
  predicate IsUsernameChar(c: char) {
    ('a' <= c <= 'z') || ('A' <= c <= 'Z') || ('0' <= c <= '9') || c == '_' || c == '-'
  }

  /** `/^[a-zA-Z0-9_-]+$/.test(s)`: non-empty, and nothing but those
      characters. */
  predicate IsUsername(s: string) {
    |s| > 0 && forall i :: 0 <= i < |s| ==> IsUsernameChar(s[i])
  }

  const NameRequired := "Full name is required"
  const NameTooShort := "Name must be at least 2 characters"
  const UsernameRequired := "Username is required"
  const UsernameTooShort := "Username must be at least 3 characters"
  const UsernameInvalid := "Username can only contain letters, numbers, underscores, and hyphens"
  const ConfirmRequired := "Please confirm your password"
  const ConfirmMismatch := "Passwords do not match"
  const RegistrationFailed := "Registration failed. Please try again."

  /** The full-name rule: non-blank, and at least 2 UTF-16 code units once
      trimmed (`trim().length`). */
  function FullNameError(name: string): (r: Option<string>)
    ensures r.None? <==> Utf16Length(Trim(name)) >= 2
  {
    if Trim(name) == "" then Some(NameRequired)
    else if Utf16Length(Trim(name)) < 2 then Some(NameTooShort)
    else None
  }

  /** The username rule: non-blank, at least 3 UTF-16 code units once
      trimmed, and the untrimmed text made of letters, digits, '_' and '-'
      only. */
  function UsernameError(username: string): (r: Option<string>)
    ensures r.None? <==> Utf16Length(Trim(username)) >= 3 && IsUsername(username)
  {
    if Trim(username) == "" then Some(UsernameRequired)
    else if Utf16Length(Trim(username)) < 3 then Some(UsernameTooShort)
    else if !IsUsername(username) then Some(UsernameInvalid)
    else None
  }

  /** The pattern is tested on the text as typed: a name with a leading space
      passes the length rule and fails the pattern. */
  lemma PaddedUsernameRejected()
    ensures UsernameError(" ann") == Some(UsernameInvalid)
  {
    var t := TrimStart(" ann");
    assert t == "ann";
    assert TrimEnd("ann") == "ann";
  }

  /** Lengths are counted in UTF-16 code units: one character outside the
      Basic Multilingual Plane is a long enough name, and two of them pass the
      length rule for a username and fail only its pattern. */
  lemma AstralNamesCountTwice()
    ensures FullNameError("\U{1F600}") == None
    ensures UsernameError("\U{1F600}\U{1F600}") == Some(UsernameInvalid)
  {
    assert TrimStart("\U{1F600}") == "\U{1F600}";
    assert TrimEnd("\U{1F600}") == "\U{1F600}";
    assert TrimStart("\U{1F600}\U{1F600}") == "\U{1F600}\U{1F600}";
    assert TrimEnd("\U{1F600}\U{1F600}") == "\U{1F600}\U{1F600}";
  }

  /** The confirmation rule: non-blank, and equal to the password. */
  function ConfirmError(password: string, confirm: string): (r: Option<string>)
    ensures r.None? <==> Trim(confirm) != "" && confirm == password
  {
    if Trim(confirm) == "" then Some(ConfirmRequired)
    else if password != confirm then Some(ConfirmMismatch)
    else None
  }

  /** The message a field's chain of rules records, None when it passes. */
  function FieldError(form: RegisterForm, f: Field): Option<string> {
    match f
    case FullName => FullNameError(form.fullName)
    case Username => UsernameError(form.username)
    case Email => EmailError(form.email)
    case Password => PasswordError(form.password)
    case ConfirmPassword => ConfirmError(form.password, form.confirmPassword)
  }

  /** No field's chain of rules fails. */
  predicate FormValid(form: RegisterForm) {
    forall f :: FieldError(form, f).None?
  }

  /** The sign-up form is accepted exactly when the name has at least 2
      UTF-16 code units and the username at least 3 once trimmed, the
      username as typed fits its pattern, the e-mail fits its pattern, the
      password is non-blank with at least 6 code units, and the confirmation
      repeats it. */
  lemma FormValidIff(form: RegisterForm)
    ensures FormValid(form) <==>
      (Utf16Length(Trim(form.fullName)) >= 2 && Utf16Length(Trim(form.username)) >= 3 && IsUsername(form.username)
       && IsEmailLike(form.email) && Trim(form.password) != "" && Utf16Length(form.password) >= 6
       && form.confirmPassword == form.password)
  {
    if FormValid(form) {
      assert FieldError(form, FullName).None? && FieldError(form, Username).None? && FieldError(form, Email).None?;
      assert FieldError(form, Password).None? && FieldError(form, ConfirmPassword).None?;
    } else {
      var f :| FieldError(form, f).Some?;
      match f
      case FullName =>
      case Username =>
      case Email =>
      case Password =>
      case ConfirmPassword =>
    }
  }

  /** The entry a field's chain of rules leaves in the error object. */
  function Entry(form: RegisterForm, f: Field): Dict.Dict<string> {
    EntryFor(Key(f), FieldError(form, f))
  }

  /** The fields in the order `validateForm` checks them. */
  const Fields: seq<Field> := [FullName, Username, Email, Password, ConfirmPassword]

  /** Different fields are filed under different keys. */
  lemma KeysDistinct(f: Field, g: Field)
    ensures Key(f) == Key(g) ==> f == g
  {
    if Key(f) == Key(g) {
      assert Key(f)[0] == Key(g)[0];
    }
  }

  /** The error object after the chains of `fs` have run in order. */
  function MessagesOf(form: RegisterForm, fs: seq<Field>): Dict.Dict<string> {
    if fs == [] then [] else MessagesOf(form, fs[..|fs| - 1]) + Entry(form, fs[|fs| - 1])
  }

  /** The error object `validateForm` builds: the failing fields' messages,
      in the order the fields are checked. */
  function Messages(form: RegisterForm): Dict.Dict<string> {
    MessagesOf(form, Fields)
  }

  /** Running one more field's chain appends that field's entry. */
  lemma MessagesOfSnoc(form: RegisterForm, fs: seq<Field>, f: Field)
    ensures MessagesOf(form, fs + [f]) == MessagesOf(form, fs) + Entry(form, f)
  {
    assert (fs + [f])[..|fs|] == fs;
  }

  /** After the chains of `fs`, a field among them reads the message of
      its first failing rule, or nothing; a field not among them reads
      nothing. */
  lemma {:induction false} MessagesOfGet(form: RegisterForm, fs: seq<Field>, f: Field)
    ensures Dict.Get(MessagesOf(form, fs), Key(f)) == if f in fs then FieldError(form, f) else None
  {
    if fs != [] {
      var init, last := fs[..|fs| - 1], fs[|fs| - 1];
      assert fs == init + [last];
      MessagesOfGet(form, init, f);
      Dict.GetConcat(MessagesOf(form, init), Entry(form, last), Key(f));
      EntryForSpec(Key(last), FieldError(form, last));
      KeysDistinct(f, last);
    }
  }

  /** After the chains of `fs`, every recorded key is the key of one of
      them. */
  lemma {:induction false} MessagesOfKeys(form: RegisterForm, fs: seq<Field>)
    ensures forall i :: 0 <= i < |MessagesOf(form, fs)| ==> exists f :: f in fs && Key(f) == MessagesOf(form, fs)[i].key
  {
    if fs != [] {
      var init, last := fs[..|fs| - 1], fs[|fs| - 1];
      assert fs == init + [last];
      MessagesOfKeys(form, init);
      var a: Dict.Dict<string>, b: Dict.Dict<string> := MessagesOf(form, init), Entry(form, last);
      assert MessagesOf(form, fs) == a + b;
      EntryForSpec(Key(last), FieldError(form, last));
      forall i | 0 <= i < |a + b|
        ensures exists f :: f in fs && Key(f) == (a + b)[i].key
      {
        if i < |a| {
          var f :| f in init && Key(f) == a[i].key;
          assert (a + b)[i] == a[i];
          assert f in fs;
        } else {
          assert (a + b)[i] == b[i - |a|] && b[i - |a|].key == Key(last);
          assert last in fs;
        }
      }
    } else {
      assert MessagesOf(form, fs) == [];
    }
  }

  /** After the chains of `fs`, the object is empty exactly when each of
      them passed. */
  lemma {:induction false} MessagesOfEmpty(form: RegisterForm, fs: seq<Field>)
    ensures MessagesOf(form, fs) == [] <==> forall f :: f in fs ==> FieldError(form, f).None?
  {
    if fs != [] {
      var init, last := fs[..|fs| - 1], fs[|fs| - 1];
      assert fs == init + [last];
      MessagesOfEmpty(form, init);
      EntryForSpec(Key(last), FieldError(form, last));
      assert MessagesOf(form, fs) == MessagesOf(form, init) + Entry(form, last);
    }
  }

  /** `Fields`, built one field at a time. */
  lemma FieldsInOrder()
    ensures [] + [FullName] + [Username] + [Email] + [Password] + [ConfirmPassword] == Fields
  {
  }

  /** `Fields` lists every field. */
  lemma FieldsComplete(f: Field)
    ensures f in Fields
  {
    match f
    case FullName => assert Fields[0] == f;
    case Username => assert Fields[1] == f;
    case Email => assert Fields[2] == f;
    case Password => assert Fields[3] == f;
    case ConfirmPassword => assert Fields[4] == f;
  }

  /** The form is valid exactly when every field's chain passes. */
  lemma FormValidAll(form: RegisterForm)
    ensures FormValid(form) <==> forall f :: f in Fields ==> FieldError(form, f).None?
  {
    forall f
      ensures f in Fields
    {
      FieldsComplete(f);
    }
  }

  /** Every field reads the message of its first failing rule, or nothing,
      and no key but a field's is recorded. */
  lemma MessagesSpec(form: RegisterForm)
    ensures forall f :: Dict.Get(Messages(form), Key(f)) == FieldError(form, f)
    ensures forall k :: k in Dict.Keys(Messages(form)) ==> exists f :: Key(f) == k
  {
    var m := MessagesOf(form, Fields);
    forall f
      ensures Dict.Get(m, Key(f)) == FieldError(form, f)
    {
      MessagesOfGet(form, Fields, f);
      FieldsComplete(f);
    }
    MessagesOfKeys(form, Fields);
    forall k | k in Dict.Keys(m)
      ensures exists f :: Key(f) == k
    {
      var i :| 0 <= i < |m| && m[i].key == k;
      var f :| f in Fields && Key(f) == m[i].key;
    }
  }

  /** The error object is empty exactly when the form is valid. */
  lemma MessagesEmptyIff(form: RegisterForm)
    ensures Messages(form) == [] <==> FormValid(form)
  {
    MessagesOfEmpty(form, Fields);
    FormValidAll(form);
  }

  /** The full-name chain of `validateForm`. */
  method CheckFullName(errors: Dict.Dict<string>, name: string) returns (r: Dict.Dict<string>)
    ensures r == errors + EntryFor(Key(FullName), FullNameError(name))
  {
    ghost var e := FullNameError(name);
    r := errors;
    if Trim(name) == "" {
      r := r + [Dict.Entry(Key(FullName), NameRequired)];
      assert e == Some(NameRequired);
    } else if Utf16Length(Trim(name)) < 2 {
      r := r + [Dict.Entry(Key(FullName), NameTooShort)];
      assert e == Some(NameTooShort);
    } else {
      assert e.None?;
    }
  }

  /** The username chain of `validateForm`. */
  method CheckUsername(errors: Dict.Dict<string>, username: string) returns (r: Dict.Dict<string>)
    ensures r == errors + EntryFor(Key(Username), UsernameError(username))
  {
    ghost var e := UsernameError(username);
    r := errors;
    if Trim(username) == "" {
      r := r + [Dict.Entry(Key(Username), UsernameRequired)];
      assert e == Some(UsernameRequired);
    } else if Utf16Length(Trim(username)) < 3 {
      r := r + [Dict.Entry(Key(Username), UsernameTooShort)];
      assert e == Some(UsernameTooShort);
    } else if !IsUsername(username) {
      r := r + [Dict.Entry(Key(Username), UsernameInvalid)];
      assert e == Some(UsernameInvalid);
    } else {
      assert e.None?;
    }
  }

  /** The confirmation chain of `validateForm`. */
  method CheckConfirm(errors: Dict.Dict<string>, password: string, confirm: string) returns (r: Dict.Dict<string>)
    ensures r == errors + EntryFor(Key(ConfirmPassword), ConfirmError(password, confirm))
  {
    ghost var e := ConfirmError(password, confirm);
    r := errors;
    if Trim(confirm) == "" {
      r := r + [Dict.Entry(Key(ConfirmPassword), ConfirmRequired)];
      assert e == Some(ConfirmRequired);
    } else if password != confirm {
      r := r + [Dict.Entry(Key(ConfirmPassword), ConfirmMismatch)];
      assert e == Some(ConfirmMismatch);
    } else {
      assert e.None?;
    }
  }

  class RegisterPage {
    var form: RegisterForm
    var errors: Dict.Dict<string>
    var isSubmitting: bool

    constructor()
      ensures form == RegisterForm("", "", "", "", "") && errors == [] && !isSubmitting
    {
      form := RegisterForm("", "", "", "", "");
      errors := [];
      isSubmitting := false;
    }

    /** `handleChange`: the field takes the value, and a message showing
        under it is blanked. */
    method HandleChange(f: Field, value: string)
      modifies this`form, this`errors
      ensures form == WithValue(old(form), f, value)
      ensures errors == ClearShown(old(errors), Key(f))
    {
      form := WithValue(form, f, value);
      var shown := Dict.Get(errors, Key(f));
      if shown.Some? && shown.value != "" {
        errors := Dict.Put(errors, Key(f), "");
      }
    }

    /** `validateForm`: each field's chain runs in turn, a failing rule
        adding its message under the field's key (a new key goes last), and
        the error object is replaced by what was collected. The form passes
        exactly when nothing was. */
    method ValidateForm() returns (valid: bool)
      modifies this`errors
      ensures errors == Messages(form)
      ensures valid <==> errors == []
    {
      var newErrors: Dict.Dict<string> := [];
      ghost var done: seq<Field> := [];
      newErrors := CheckFullName(newErrors, form.fullName);
      MessagesOfSnoc(form, done, FullName);
      assert Entry(form, FullName) == EntryFor(Key(FullName), FullNameError(form.fullName));
      done := done + [FullName];
      assert newErrors == MessagesOf(form, done);
      newErrors := CheckUsername(newErrors, form.username);
      MessagesOfSnoc(form, done, Username);
      assert Entry(form, Username) == EntryFor(Key(Username), UsernameError(form.username));
      done := done + [Username];
      assert newErrors == MessagesOf(form, done);
      newErrors := CheckEmail(newErrors, form.email);
      MessagesOfSnoc(form, done, Email);
      assert Entry(form, Email) == EntryFor(Key(Email), EmailError(form.email));
      done := done + [Email];
      assert newErrors == MessagesOf(form, done);
      newErrors := CheckPassword(newErrors, form.password);
      MessagesOfSnoc(form, done, Password);
      assert Entry(form, Password) == EntryFor(Key(Password), PasswordError(form.password));
      done := done + [Password];
      assert newErrors == MessagesOf(form, done);
      newErrors := CheckConfirm(newErrors, form.password, form.confirmPassword);
      MessagesOfSnoc(form, done, ConfirmPassword);
      assert Entry(form, ConfirmPassword) == EntryFor(Key(ConfirmPassword), ConfirmError(form.password, form.confirmPassword));
      done := done + [ConfirmPassword];
      assert newErrors == MessagesOf(form, done);
      FieldsInOrder();
      errors := newErrors;
      valid := newErrors == [];
    }

    /** `handleSubmit`: an invalid form stops after validation and nothing
        is sent. A valid one is sent (`answer` is what the sign-up call did):
        success goes to the dashboard; otherwise only the general message is
        left, the service's error text or a fixed one. */
    method HandleSubmit(answer: Answer) returns (sent: bool, target: Option<string>)
      modifies this`errors, this`isSubmitting
      ensures sent <==> FormValid(form)
      ensures !sent ==> target.None? && isSubmitting == old(isSubmitting) && errors == Messages(form)
      ensures sent ==> !isSubmitting
      ensures sent && GeneralMessage(answer, RegistrationFailed).None? ==> target == Some("/dashboard") && errors == []
      ensures sent && GeneralMessage(answer, RegistrationFailed).Some? ==> target.None?
      ensures sent && GeneralMessage(answer, RegistrationFailed).Some? ==>
        errors == [Dict.Entry(GeneralKey, GeneralMessage(answer, RegistrationFailed).value)]
    {
      var valid := ValidateForm();
      MessagesEmptyIff(form);
      if !valid {
        return false, None;
      }
      isSubmitting := true;
      sent := true;
      var message := GeneralMessage(answer, RegistrationFailed);
      if message.None? {
        target := Some("/dashboard");
      } else {
        errors := [Dict.Entry(GeneralKey, message.value)];
        target := None;
      }
      isSubmitting := false;
    }
  }
}
