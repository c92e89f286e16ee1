/** URL building for the server API: the base URL, the one-slash
    normalisation of endpoints, and the named endpoints. */
module Api {
  import opened Js
  import opened Wrappers

  const DefaultBase: string := "http://localhost:3000"

  /** `import.meta.env.VITE_API_URL || 'http://localhost:3000'`: the
      configured base, unless it is missing or empty. */
  function BaseUrl(configured: Option<string>): (b: string)
    ensures configured.Some? && configured.value != "" ==> b == configured.value
    ensures configured.None? || configured.value == "" ==> b == DefaultBase
    ensures b != ""
  {
    if configured.Some? && configured.value != "" then configured.value else DefaultBase
  }

  /** createApiUrl: the base, "/api/", and the endpoint with one leading
      slash removed if it has one. */
  function CreateApiUrl(base: string, endpoint: string): (url: string)
    ensures StartsWith(url, base + "/api/")
    ensures !StartsWith(endpoint, "/") ==> url == base + "/api/" + endpoint
    ensures StartsWith(endpoint, "/") ==> url == base + "/api/" + endpoint[1..]
  {
    var cleanEndpoint := if StartsWith(endpoint, "/") then endpoint[1..] else endpoint;
    base + "/api/" + cleanEndpoint
  }

  /** The part of the URL after "/api/": the endpoint without one leading
      slash. Together with CreateApiUrl it recovers the cleaned endpoint. */
  function EndpointOf(base: string, url: string): string
    requires StartsWith(url, base + "/api/")
  {
    url[|base| + 5..]
  }

  /** Building then reading back gives the endpoint with at most one
      slash removed: exactly the endpoint when it has none, the endpoint
      minus its first character when it has one. */
  lemma EndpointRoundTrip(base: string, endpoint: string)
    ensures EndpointOf(base, CreateApiUrl(base, endpoint))
         == (if StartsWith(endpoint, "/") then endpoint[1..] else endpoint)
    ensures |EndpointOf(base, CreateApiUrl(base, endpoint))| >= |endpoint| - 1
  {
    var prefix := base + "/api/";
    assert |prefix| == |base| + 5;
    var clean := if StartsWith(endpoint, "/") then endpoint[1..] else endpoint;
    assert (prefix + clean)[|prefix|..] == clean;
  }

  /** A leading slash makes no difference exactly when the endpoint does
      not already start with one: a second slash is kept. */
  lemma LeadingSlashOptional(base: string, endpoint: string)
    ensures CreateApiUrl(base, "/" + endpoint) == CreateApiUrl(base, endpoint)
        <==> !StartsWith(endpoint, "/")
  {
    var e := "/" + endpoint;
    assert StartsWith(e, "/");
    assert e[1..] == endpoint;
    if StartsWith(endpoint, "/") {
      assert |CreateApiUrl(base, e)| != |CreateApiUrl(base, endpoint)|;
    }
  }

  /** A path whose first character is not '/' is used as it is. */
  lemma NoLeadingSlash(path: string)
    requires path != [] && path[0] != '/'
    ensures !StartsWith(path, "/")
  {
    assert path[..1][0] == path[0];
  }

  // The named endpoints: each URL is the base, "/api/" and the path, which
  // reads back from it.

  function Ping(base: string): (url: string)
    ensures StartsWith(url, base + "/api/") && EndpointOf(base, url) == "ping"
  {
    NoLeadingSlash("ping");
    EndpointRoundTrip(base, "ping");
    CreateApiUrl(base, "ping")
  }

  function AuthMe(base: string): (url: string)
    ensures StartsWith(url, base + "/api/") && EndpointOf(base, url) == "auth/me"
  {
    NoLeadingSlash("auth/me");
    EndpointRoundTrip(base, "auth/me");
    CreateApiUrl(base, "auth/me")
  }

  function AuthLogin(base: string): (url: string)
    ensures StartsWith(url, base + "/api/") && EndpointOf(base, url) == "auth/login"
  {
    NoLeadingSlash("auth/login");
    EndpointRoundTrip(base, "auth/login");
    CreateApiUrl(base, "auth/login")
  }

  function AuthRegister(base: string): (url: string)
    ensures StartsWith(url, base + "/api/") && EndpointOf(base, url) == "auth/register"
  {
    NoLeadingSlash("auth/register");
    EndpointRoundTrip(base, "auth/register");
    CreateApiUrl(base, "auth/register")
  }

  function Projects(base: string): (url: string)
    ensures StartsWith(url, base + "/api/") && EndpointOf(base, url) == "projects"
  {
    NoLeadingSlash("projects");
    EndpointRoundTrip(base, "projects");
    CreateApiUrl(base, "projects")
  }

  function Tasks(base: string): (url: string)
    ensures StartsWith(url, base + "/api/") && EndpointOf(base, url) == "tasks"
  {
    NoLeadingSlash("tasks");
    EndpointRoundTrip(base, "tasks");
    CreateApiUrl(base, "tasks")
  }

  function Messages(base: string): (url: string)
    ensures StartsWith(url, base + "/api/") && EndpointOf(base, url) == "messages"
  {
    NoLeadingSlash("messages");
    EndpointRoundTrip(base, "messages");
    CreateApiUrl(base, "messages")
  }

  /** PROJECT_BY_ID: the project collection's URL, '/', then the id. */
  function ProjectById(base: string, id: string): (url: string)
    ensures url == Projects(base) + "/" + id
  {
    CreateApiUrl(base, "projects/" + id)
  }

  /** TASK_BY_ID: the task collection's URL, '/', then the id. */
  function TaskById(base: string, id: string): (url: string)
    ensures url == Tasks(base) + "/" + id
  {
    CreateApiUrl(base, "tasks/" + id)
  }
}
