/** The login page's form: e-mail and password, their validation, error
    clearing on input, and the message shown when the login request fails. */
module Login {
  import opened Wrappers
  import opened EmailPattern

  datatype FieldName = Email | Password

  /** The keys of the error object: one per field and a general one for
      what the server reports. */
  datatype ErrorKey = EmailKey | PasswordKey | General

  type Errors = map<ErrorKey, string>

  datatype FormData = FormData(email: string, password: string)

  function KeyOf(f: FieldName): ErrorKey
  {
    match f
    case Email => EmailKey
    case Password => PasswordKey
  }

  function Set(d: FormData, f: FieldName, value: string): FormData
  {
    match f
    case Email => d.(email := value)
    case Password => d.(password := value)
  }

  /** The login password rule is presence only. */
  function PasswordError(password: string): (e: Option<string>)
    ensures e == None <==> password != ""
    ensures e.Some? ==> e.value == "Password is required"
  {
    if password == "" then Some("Password is required") else None
  }

  /** The rule behind each key; the general key has none. */
  function RuleError(d: FormData, k: ErrorKey): Option<string>
  {
    match k
    case EmailKey => EmailError(d.email)
    case PasswordKey => PasswordError(d.password)
    case General => None
  }

  /** What validateForm collects: the e-mail rule the sign-up page uses and
      the presence of a password; never a general error. */
  function FormErrors(d: FormData): (errs: Errors)
    ensures EmailKey in errs <==> EmailError(d.email).Some?
    ensures EmailKey in errs ==> errs[EmailKey] == EmailError(d.email).value
    ensures PasswordKey in errs <==> d.password == ""
    ensures PasswordKey in errs ==> errs[PasswordKey] == "Password is required"
    ensures General !in errs
  {
    map k | k in {EmailKey, PasswordKey} && RuleError(d, k).Some? :: RuleError(d, k).value
  }

  lemma MapExt(a: Errors, b: Errors)
    requires forall k :: k in a <==> k in b
    requires forall k :: k in a ==> a[k] == b[k]
    ensures a == b
  {
  }

  /** validateForm's body: the rules add their messages one after the other,
      and the form is valid exactly when none was added. */
  method Validate(d: FormData) returns (newErrors: Errors, ok: bool)
    ensures newErrors == FormErrors(d)
    ensures ok <==> newErrors == map[]
  {
    newErrors := map[];
    var e := EmailError(d.email);
    if e.Some? {
      newErrors := newErrors[EmailKey := e.value];
    }
    if d.password == "" {
      newErrors := newErrors[PasswordKey := "Password is required"];
    }
    forall k
      ensures k in newErrors <==> k in FormErrors(d)
      ensures k in newErrors ==> newErrors[k] == FormErrors(d)[k]
    {
      match k
      case EmailKey =>
      case PasswordKey =>
      case General =>
    }
    MapExt(newErrors, FormErrors(d));
    ok := |newErrors| == 0;
    assert ok <==> newErrors == map[] by {
      if newErrors != map[] {
        var k :| k in newErrors;
      }
    }
  }

  /** The login form passes exactly when the address has the e-mail shape and
      a password was typed. */
  lemma ValidIff(d: FormData)
    ensures FormErrors(d) == map[] <==> MatchesPattern(d.email) && d.password != ""
  {
    if FormErrors(d) == map[] {
      assert EmailKey !in FormErrors(d) && PasswordKey !in FormErrors(d);
    } else {
      var k :| k in FormErrors(d);
    }
  }

  /** The error part of handleInputChange: a non-empty message under the
      edited field and a non-empty general message both become ""; every
      other entry, and the set of keys, stays. */
  function ClearedOnInput(errs: Errors, f: FieldName): (r: Errors)
    ensures r.Keys == errs.Keys
    ensures KeyOf(f) in r ==> r[KeyOf(f)] == ""
    ensures General in r ==> r[General] == ""
    ensures forall k :: k in errs && k != KeyOf(f) && k != General ==> r[k] == errs[k]
  {
    var k := KeyOf(f);
    var e1 := if k in errs && errs[k] != "" then errs[k := ""] else errs;
    if General in e1 && e1[General] != "" then e1[General := ""] else e1
  }

  /** How the login request failed: no response at all, or a response
      with a status and possibly a message in its body. */
  datatype Failure = NoResponse | Response(status: int, message: Option<string>)

  /** The general message after a failed login: a 400 always means bad
      credentials; otherwise the server's own message, when it sent a
      non-empty one; otherwise a generic retry message. */
  function FailureMessage(f: Failure): (m: string)
    ensures f.Response? && f.status == 400 ==> m == "Invalid email or password"
    ensures f.Response? && f.status != 400 && f.message.Some? && f.message.value != "" ==> m == f.message.value
    ensures (f.NoResponse? || (f.status != 400 && (f.message.None? || f.message.value == ""))) ==>
              m == "Failed to login. Please try again."
    ensures m != ""
  {
    if f.Response? && f.status == 400 then "Invalid email or password"
    else if f.Response? && f.message.Some? && f.message.value != "" then f.message.value
    else "Failed to login. Please try again."
  }

  /** What the login request gave back. */
  datatype Outcome = LoggedIn | Failed(failure: Failure)

  class Page {
    var formData: FormData
    var errors: Errors

    constructor ()
      ensures formData == FormData("", "") && errors == map[]
    {
      formData := FormData("", "");
      errors := map[];
    }

    /** handleInputChange. */
    method InputChange(name: FieldName, value: string)
      modifies this
      ensures formData == Set(old(formData), name, value)
      ensures errors == ClearedOnInput(old(errors), name)
    {
      formData := Set(formData, name, value);
      var k := KeyOf(name);
      if k in errors && errors[k] != "" {
        errors := errors[k := ""];
      }
      if General in errors && errors[General] != "" {
        errors := errors[General := ""];
      }
    }

    /** handleSubmit, with the login request's outcome as a parameter: an
        invalid form stops at the validation errors and sends nothing; a
        valid one is sent, and a failure replaces every error by the one
        general message. */
    method Submit(outcome: Outcome) returns (sent: bool)
      modifies this
      ensures formData == old(formData)
      ensures sent <==> FormErrors(formData) == map[]
      ensures !sent ==> errors == FormErrors(formData)
      ensures sent && outcome.LoggedIn? ==> errors == map[]
      ensures sent && outcome.Failed? ==> errors == map[General := FailureMessage(outcome.failure)]
    {
      var newErrors, ok := Validate(formData);
      errors := newErrors;
      if !ok {
        return false;
      }
      sent := true;
      if outcome.Failed? {
        errors := map[General := FailureMessage(outcome.failure)];
      }
    }
  }
}
