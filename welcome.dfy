/** The welcome endpoint: it validates a posted name and greets it. */
module Welcome {
  import opened Js
  import opened Wrappers

  /** The JavaScript values a JSON request body can hold in `name`. */
  datatype JsValue = Undefined | Null | Bool(b: bool) | Num(n: int) | Str(s: string) | Object

  /** `!value`: undefined, null, false, 0 and the empty string. */
  predicate Falsy(v: JsValue)
  {
    v == Undefined || v == Null || v == Bool(false) || v == Num(0) || v == Str("")
  }

  /** The request body: absent (destructuring it throws) or an object whose
      `name` property is the given value (Undefined when missing). */
  datatype Body = NoBody | Body(name: JsValue)

  /** The JSON answer; `cached` is only part of it on success. */
  datatype Reply = Reply(status: int, success: bool, message: string, cached: Option<bool>)

  const MaxNameLength: nat := 50
  const GreetingPrefix: string := "Nice to have you, "
  const GreetingSuffix: string := "! Welcome to promodoro"

  /** The success message: the fixed prefix, the name, the fixed suffix. */
  function Greeting(name: string): (g: string)
    ensures |g| == |GreetingPrefix| + |name| + |GreetingSuffix|
    ensures g[..|GreetingPrefix|] == GreetingPrefix
    ensures g[|g| - |GreetingSuffix|..] == GreetingSuffix
  {
    GreetingPrefix + name + GreetingSuffix
  }

  /** The name inside a greeting. */
  function GreetedName(message: string): string
    requires |message| >= |GreetingPrefix| + |GreetingSuffix|
  {
    message[|GreetingPrefix|..|message| - |GreetingSuffix|]
  }

  lemma GreetedNameOfGreeting(name: string)
    ensures |Greeting(name)| >= |GreetingPrefix| + |GreetingSuffix|
    ensures GreetedName(Greeting(name)) == name
  {
    var g := Greeting(name);
    assert g[|GreetingPrefix|..|g| - |GreetingSuffix|] == name;
  }

  /** welcomeMessage: a missing body is a server error; a falsy or
      non-string name, a name that is blank after trimming, and a trimmed
      name over 50 characters are each refused with their own 400; any
      other name is greeted, trimmed. */
  function WelcomeMessage(body: Body): (r: Reply)
    ensures body.NoBody? ==> r == Reply(500, false, "Internal server error", None)
    ensures body.Body? && (Falsy(body.name) || !body.name.Str?) ==>
              r == Reply(400, false, "Please provide a valid name", None)
    ensures body.Body? && body.name.Str? && body.name.s != "" && Blank(body.name.s) ==>
              r == Reply(400, false, "Name cannot be empty", None)
    ensures body.Body? && body.name.Str? && |Trim(body.name.s)| > MaxNameLength ==>
              r == Reply(400, false, "Name is too long (max 50 characters)", None)
    ensures r.success <==> r.status == 200
  {
    if body.NoBody? then Reply(500, false, "Internal server error", None)
    else
      var name := body.name;
      if Falsy(name) || !name.Str? then Reply(400, false, "Please provide a valid name", None)
      else
        var trimmedName := Trim(name.s);
        if |trimmedName| == 0 then Reply(400, false, "Name cannot be empty", None)
        else if |trimmedName| > MaxNameLength then Reply(400, false, "Name is too long (max 50 characters)", None)
        else Reply(200, true, Greeting(trimmedName), Some(false))
  }

  /** A name is greeted exactly when it is a string whose trimmed form has 1
      to 50 characters; the greeting then carries that trimmed name, which
      can be read back out of it, and is marked as not cached. */
  lemma WelcomeSucceedsIff(body: Body)
    ensures WelcomeMessage(body).success <==>
      body.Body? && body.name.Str? && 1 <= |Trim(body.name.s)| <= MaxNameLength
    ensures WelcomeMessage(body).success ==>
      && WelcomeMessage(body).cached == Some(false)
      && |WelcomeMessage(body).message| >= |GreetingPrefix| + |GreetingSuffix|
      && GreetedName(WelcomeMessage(body).message) == Trim(body.name.s)
  {
    if body.Body? && body.name.Str? {
      GreetedNameOfGreeting(Trim(body.name.s));
    }
  }
}
