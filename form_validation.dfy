/** The field rules the sign-up and sign-in forms share: the e-mail pattern
    `\S+@\S+\.\S+` and the password rule. A rule yields the message shown
    under its field, or None when the field is acceptable. */
module FormValidation {
  import opened Wrappers
  import opened Text
  import Dict
  import opened Backend

  /** `/\S+@\S+\.\S+/.test(s)`, searched anywhere in `s`: some '@' has a
      non-space character before it, and after it a non-empty run of
      non-space characters reaches a '.' that is followed by a non-space
      character. */
  predicate IsEmailLike(s: string) {
    exists p, q :: 0 <= p < |s| && 0 <= q < |s| && EmailAt(s, p, q)
  }

  /** The pattern matches with its '@' at `p` and its '.' at `q`. */
  predicate EmailAt(s: string, p: int, q: int) {
    1 <= p && p + 1 < q && q + 1 < |s| && s[p] == '@' && s[q] == '.'
    && !IsSpace(s[p - 1]) && !IsSpace(s[q + 1]) && NoSpaceIn(s[p + 1..q])
  }

  predicate NoSpaceIn(s: string) {
    forall i :: 0 <= i < |s| ==> !IsSpace(s[i])
  }

  const EmailRequired := "Email is required"
  const EmailInvalid := "Please enter a valid email address"
  const PasswordRequired := "Password is required"
  const PasswordTooShort := "Password must be at least 6 characters"

  /** The e-mail rule: required first, then the pattern. */
  function EmailError(email: string): (r: Option<string>)
    ensures r.None? <==> IsEmailLike(email)
  {
    EmailLikeIsNotBlank(email);
    if Trim(email) == "" then Some(EmailRequired)
    else if !IsEmailLike(email) then Some(EmailInvalid)
    else None
  }

  /** An address that fits the pattern is never blank, so the "required"
      message and the pattern message split the rejected addresses between
      them. */
  lemma EmailLikeIsNotBlank(s: string)
    ensures IsEmailLike(s) ==> Trim(s) != ""
  {
    if IsEmailLike(s) {
      var p, q :| EmailAt(s, p, q);
      TrimEmptyIffAllSpace(s);
    }
  }

  /** A few addresses as the pattern judges them. */
  lemma EmailExamples()
    ensures IsEmailLike("ann@mail.com")
    ensures !IsEmailLike("ann@mail")
    ensures !IsEmailLike("@mail.com")
  {
    assert EmailAt("ann@mail.com", 3, 8);
  }

  /** The password rule: blank after trimming first, then at least six
      UTF-16 code units counted untrimmed. */
  function PasswordError(password: string): (r: Option<string>)
    ensures r.None? <==> Trim(password) != "" && Utf16Length(password) >= 6
  {
    if Trim(password) == "" then Some(PasswordRequired)
    else if Utf16Length(password) < 6 then Some(PasswordTooShort)
    else None
  }

  /** The "required" message is shown exactly for a blank password, the
      length message exactly for a non-blank one under six code units. */
  lemma PasswordMessages(password: string)
    ensures PasswordError(password) == Some(PasswordRequired) <==> Trim(password) == ""
    ensures PasswordError(password) == Some(PasswordTooShort) <==> Trim(password) != "" && Utf16Length(password) < 6
  {
    assert |PasswordRequired| != |PasswordTooShort|;
  }

  /** Six spaces are long enough but still blank: the first rule wins. */
  lemma BlankPasswordIsRequired()
    ensures PasswordError("      ") == Some(PasswordRequired)
  {
    TrimEmptyIffAllSpace("      ");
  }

  const EmailKey := "email"
  const PasswordKey := "password"

  /** The key of the one message left after a sign-in or sign-up that did
      not succeed. */
  const GeneralKey := "general"
  const UnexpectedError := "An unexpected error occurred. Please try again."

  /** The entry a failing rule leaves in an error object; none when the rule
      passes. */
  function EntryFor(key: string, e: Option<string>): Dict.Dict<string> {
    if e.Some? then [Dict.Entry(key, e.value)] else []
  }

  /** The key reads the rule's message; any other key reads nothing; the
      entry is there exactly when the rule failed. */
  lemma EntryForSpec(key: string, e: Option<string>)
    ensures Dict.Get(EntryFor(key, e), key) == e
    ensures forall k :: k != key ==> Dict.Get(EntryFor(key, e), k).None?
    ensures EntryFor(key, e) == [] <==> e.None?
    ensures forall i :: 0 <= i < |EntryFor(key, e)| ==> EntryFor(key, e)[i].key == key
  {
  }

  /** Two rules' entries laid end to end: each key reads its own rule's
      message, another key reads nothing. */
  lemma GetTwoEntries(k1: string, e1: Option<string>, k2: string, e2: Option<string>, k: string)
    requires k1 != k2
    ensures Dict.Get(EntryFor(k1, e1) + EntryFor(k2, e2), k) == if k == k1 then e1 else if k == k2 then e2 else None
  {
    EntryForSpec(k1, e1);
    EntryForSpec(k2, e2);
    Dict.GetConcat(EntryFor(k1, e1), EntryFor(k2, e2), k);
  }

  /** Two rules' entries laid end to end hold no key but the two, and
      nothing at all exactly when both rules passed. */
  lemma TwoEntriesShape(k1: string, e1: Option<string>, k2: string, e2: Option<string>)
    ensures forall i :: 0 <= i < |EntryFor(k1, e1) + EntryFor(k2, e2)| ==>
      (EntryFor(k1, e1) + EntryFor(k2, e2))[i].key in {k1, k2}
    ensures EntryFor(k1, e1) + EntryFor(k2, e2) == [] <==> e1.None? && e2.None?
  {
    var a: Dict.Dict<string>, b: Dict.Dict<string> := EntryFor(k1, e1), EntryFor(k2, e2);
    EntryForSpec(k1, e1);
    EntryForSpec(k2, e2);
    forall i | 0 <= i < |a + b|
      ensures (a + b)[i].key in {k1, k2}
    {
      if i < |a| {
        assert (a + b)[i] == a[i];
      } else {
        assert (a + b)[i] == b[i - |a|];
      }
    }
  }

  /** The e-mail chain of `validateForm`: the first failing rule's message is
      added under "email". */
  method CheckEmail(errors: Dict.Dict<string>, email: string) returns (r: Dict.Dict<string>)
    ensures r == errors + EntryFor(EmailKey, EmailError(email))
  {
    ghost var e := EmailError(email);
    r := errors;
    if Trim(email) == "" {
      r := r + [Dict.Entry(EmailKey, EmailRequired)];
      assert e == Some(EmailRequired);
    } else if !IsEmailLike(email) {
      r := r + [Dict.Entry(EmailKey, EmailInvalid)];
      assert e == Some(EmailInvalid);
    } else {
      assert e.None?;
    }
  }

  /** The password chain of `validateForm`. */
  /** Three characters outside the Basic Multilingual Plane are six code
      units, a long enough password. */
  lemma AstralPasswordAccepted()
    ensures PasswordError("\U{1F600}\U{1F600}\U{1F600}") == None
  {
    assert TrimStart("\U{1F600}\U{1F600}\U{1F600}") == "\U{1F600}\U{1F600}\U{1F600}";
    assert TrimEnd("\U{1F600}\U{1F600}\U{1F600}") == "\U{1F600}\U{1F600}\U{1F600}";
  }

  method CheckPassword(errors: Dict.Dict<string>, password: string) returns (r: Dict.Dict<string>)
    ensures r == errors + EntryFor(PasswordKey, PasswordError(password))
  {
    ghost var e := PasswordError(password);
    r := errors;
    if Trim(password) == "" {
      r := r + [Dict.Entry(PasswordKey, PasswordRequired)];
      assert e == Some(PasswordRequired);
    } else if Utf16Length(password) < 6 {
      r := r + [Dict.Entry(PasswordKey, PasswordTooShort)];
      assert e == Some(PasswordTooShort);
    } else {
      assert e.None?;
    }
  }

  /** `handleChange`'s update of the error object: a message showing under
      the edited field is blanked; an absent or already blank one is left. */
  function ClearShown(errors: Dict.Dict<string>, key: string): (r: Dict.Dict<string>)
    ensures Dict.Get(r, key) == if Dict.Get(errors, key).Some? then Some("") else None
    ensures forall k :: k != key ==> Dict.Get(r, k) == Dict.Get(errors, k)
    ensures forall k :: k in Dict.Keys(r) <==> k in Dict.Keys(errors)
  {
    var shown := Dict.Get(errors, key);
    if shown.Some? && shown.value != "" then
      Dict.PutEffect(errors, key, "");
      Dict.GetSpec(errors, key);
      Dict.Put(errors, key, "")
    else errors
  }

  /** What the sign-in or sign-up service did with a submitted form: it
      answered, with success or an error text, or the call threw. */
  datatype Answer = Answered(result: Result<()>) | Threw

  /** The general message a submission leaves: none on success; the
      service's error text, or `fallback` when that is empty; the fixed
      text when the call threw. A submission that did not succeed always
      shows a non-empty message. */
  function GeneralMessage(answer: Answer, fallback: string): (r: Option<string>)
    ensures r.None? <==> answer.Answered? && answer.result.Success?
    ensures answer.Threw? ==> r == Some(UnexpectedError)
    ensures answer.Answered? && answer.result.Failure? && answer.result.error != "" ==> r == Some(answer.result.error)
    ensures r.Some? && fallback != "" ==> r.value != ""
  {
    match answer
    case Threw => Some(UnexpectedError)
    case Answered(Success(_)) => None
    case Answered(Failure(e)) => Some(OrText(Some(e), fallback))
  }
}
