/** The sign-up page's form: four text fields, rule-by-rule validation
    into an error map, and clearing of a field's error once the user types
    in it. */
module SignUp {
  import opened Wrappers
  import opened EmailPattern

  datatype FieldName = Email | Username | Password | ConfirmPassword

  datatype FormData = FormData(email: string, username: string, password: string,
                               confirmPassword: string)

  /** The error object: a message per field that has one. A message of ""
      is a cleared error: it is kept as an entry but shows nothing. */
  type Errors = map<FieldName, string>

  function Get(d: FormData, f: FieldName): string
  {
    match f
    case Email => d.email
    case Username => d.username
    case Password => d.password
    case ConfirmPassword => d.confirmPassword
  }

  /** `{ ...prev, [name]: value }`. */
  function Set(d: FormData, f: FieldName, value: string): (r: FormData)
    ensures Get(r, f) == value
    ensures forall g :: g != f ==> Get(r, g) == Get(d, g)
  {
    match f
    case Email => d.(email := value)
    case Username => d.(username := value)
    case Password => d.(password := value)
    case ConfirmPassword => d.(confirmPassword := value)
  }

  /** The username rule: required, then at least three characters. */
  function UsernameError(username: string): (e: Option<string>)
    ensures username == "" ==> e == Some("Username is required")
    ensures 0 < |username| < 3 ==> e == Some("Username must be at least 3 characters long")
    ensures e == None <==> |username| >= 3
  {
    if username == "" then Some("Username is required")
    else if |username| < 3 then Some("Username must be at least 3 characters long")
    else None
  }

  /** The password rule: required, then at least six characters. */
  function PasswordError(password: string): (e: Option<string>)
    ensures password == "" ==> e == Some("Password is required")
    ensures 0 < |password| < 6 ==> e == Some("Password must be at least 6 characters long")
    ensures e == None <==> |password| >= 6
  {
    if password == "" then Some("Password is required")
    else if |password| < 6 then Some("Password must be at least 6 characters long")
    else None
  }

  /** The confirmation rule: required, then equal to the password. */
  function ConfirmError(password: string, confirmPassword: string): (e: Option<string>)
    ensures confirmPassword == "" ==> e == Some("Please confirm your password")
    ensures confirmPassword != "" && confirmPassword != password ==> e == Some("Passwords do not match")
    ensures e == None <==> confirmPassword != "" && confirmPassword == password
  {
    if confirmPassword == "" then Some("Please confirm your password")
    else if password != confirmPassword then Some("Passwords do not match")
    else None
  }

  /** The rule that applies to one field. */
  function FieldError(d: FormData, f: FieldName): Option<string>
  {
    match f
    case Email => EmailError(d.email)
    case Username => UsernameError(d.username)
    case Password => PasswordError(d.password)
    case ConfirmPassword => ConfirmError(d.password, d.confirmPassword)
  }

  /** What validateForm collects: an entry for exactly the fields whose rule
      fails, holding that rule's message. */
  function FormErrors(d: FormData): (errs: Errors)
    ensures forall f :: f in errs <==> FieldError(d, f).Some?
    ensures forall f :: f in errs ==> errs[f] == FieldError(d, f).value
  {
    map f | f in {Email, Username, Password, ConfirmPassword} && FieldError(d, f).Some? :: FieldError(d, f).value
  }

  /** Two error maps with the same entries are equal. */
  lemma MapExt(a: Errors, b: Errors)
    requires forall f :: f in a <==> f in b
    requires forall f :: f in a ==> a[f] == b[f]
    ensures a == b
  {
  }

  /** validateForm's body: starting from an empty object, each rule in turn
      adds its message; the form is valid exactly when nothing was added. */
  method Validate(d: FormData) returns (newErrors: Errors, ok: bool)
    ensures newErrors == FormErrors(d)
    ensures ok <==> newErrors == map[]
  {
    newErrors := map[];
    var e := EmailError(d.email);
    if e.Some? {
      newErrors := newErrors[Email := e.value];
    }
    assert (Email in newErrors <==> e.Some?) && (Email in newErrors ==> newErrors[Email] == e.value);
    e := UsernameError(d.username);
    if e.Some? {
      newErrors := newErrors[Username := e.value];
    }
    assert (Username in newErrors <==> e.Some?) && (Username in newErrors ==> newErrors[Username] == e.value);
    e := PasswordError(d.password);
    if e.Some? {
      newErrors := newErrors[Password := e.value];
    }
    assert (Password in newErrors <==> e.Some?) && (Password in newErrors ==> newErrors[Password] == e.value);
    e := ConfirmError(d.password, d.confirmPassword);
    if e.Some? {
      newErrors := newErrors[ConfirmPassword := e.value];
    }
    assert (ConfirmPassword in newErrors <==> e.Some?) && (ConfirmPassword in newErrors ==> newErrors[ConfirmPassword] == e.value);
    forall f
      ensures f in newErrors <==> f in FormErrors(d)
      ensures f in newErrors ==> newErrors[f] == FormErrors(d)[f]
    {
      match f
      case Email =>
      case Username =>
      case Password =>
      case ConfirmPassword =>
    }
    MapExt(newErrors, FormErrors(d));
    NoKeysIsEmpty(newErrors);
    ok := |newErrors| == 0;
  }

  /** `Object.keys(m).length === 0` holds exactly for the empty object. */
  lemma NoKeysIsEmpty(m: Errors)
    ensures |m| == 0 <==> m == map[]
  {
    if m != map[] {
      var f :| f in m;
      assert f in m.Keys;
    }
  }

  /** The form passes exactly when the address has the e-mail shape, the
      username has at least 3 characters, the password at least 6, and the
      confirmation equals the password. */
  lemma ValidIff(d: FormData)
    ensures FormErrors(d) == map[] <==>
      && MatchesPattern(d.email) && |d.username| >= 3 && |d.password| >= 6
      && d.confirmPassword == d.password
  {
    if FormErrors(d) == map[] {
      assert Email !in FormErrors(d) && Username !in FormErrors(d);
      assert Password !in FormErrors(d) && ConfirmPassword !in FormErrors(d);
    } else {
      var f :| f in FormErrors(d);
    }
  }

  /** True when the page shows an error under the field (a non-empty message). */
  predicate Shown(errs: Errors, f: FieldName)
  {
    f in errs && errs[f] != ""
  }

  /** The error part of handleInputChange: a shown error of the edited
      field becomes "", and the map is otherwise left alone. */
  function ClearedOnInput(errs: Errors, f: FieldName): (r: Errors)
    ensures r.Keys == errs.Keys
    ensures !Shown(r, f)
    ensures forall g :: g != f && g in errs ==> r[g] == errs[g]
    ensures f in errs && errs[f] == "" ==> r == errs
  {
    if f in errs && errs[f] != "" then errs[f := ""] else errs
  }

  class Page {
    var formData: FormData
    var errors: Errors

    constructor ()
      ensures formData == FormData("", "", "", "") && errors == map[]
    {
      formData := FormData("", "", "", "");
      errors := map[];
    }

    /** handleInputChange: the edited field takes the new value, and its
        error, when one is shown, is cleared. */
    method InputChange(name: FieldName, value: string)
      modifies this
      ensures formData == Set(old(formData), name, value)
      ensures errors == ClearedOnInput(old(errors), name)
    {
      formData := Set(formData, name, value);
      if name in errors && errors[name] != "" {
        errors := errors[name := ""];
      }
    }

    /** handleSubmit up to the call to register: the errors are replaced by
        what validation found, and registration is attempted exactly when
        nothing was found. */
    method Submit() returns (registers: bool)
      modifies this
      ensures errors == FormErrors(formData) && formData == old(formData)
      ensures registers <==> errors == map[]
    {
      var newErrors, ok := Validate(formData);
      errors := newErrors;
      registers := ok;
    }
  }
}
