/** The forwarding endpoint of vercel-analytics/api/analytics.js.  A POST
    whose body names an `action` is forwarded to GitHub as a repository
    dispatch event of type `testgenie_analytics`, with the body as the client
    payload; the answer says whether GitHub accepted it.

    The GitHub call is a parameter: the model records the request the
    handler makes and takes GitHub's answer as given. */
module AnalyticsApi {
  import opened Json
  import opened Platform

  const DefaultRepo: string := "sjuberrafik-clgx/testgenie"
  const DispatchType: string := "testgenie_analytics"

  /** The repository dispatch request: where it goes, the bearer token, and
      the JSON body. */
  datatype DispatchRequest = DispatchRequest(url: string, token: string, body: Value)

  /** GitHub's answer: accepted, refused with a response text, or the call
      threw with a message. */
  datatype GitHubAnswer = Accepted | Refused(text: string) | CallThrew(message: string)

  /** The status, the JSON body (none for OPTIONS), and the dispatch request
      made, if any. */
  datatype Response = Response(status: int, body: Option<Value>, dispatched: Option<DispatchRequest>)

  function ErrorBody(message: string): Value {
    Obj(map["error" := Str(message)])
  }

  /** `!data || !data.action`: the body is missing or falsy, or has no truthy
      `action` (a non-object body never has one). */
  predicate MissingAction(body: Option<Value>) {
    body.None? || !Truthy(body.value) || !Truthy(Or(Get(body, "action"), Null))
  }

  /** The request sent for a body, a token and a repository. */
  function DispatchOf(repo: string, token: string, data: Value): (d: DispatchRequest)
    ensures d.url == "https://api.github.com/repos/" + repo + "/dispatches" && d.token == token
    ensures d.body.Obj? && d.body.fields.Keys == {"event_type", "client_payload"}
    ensures d.body.fields["event_type"] == Str(DispatchType) && d.body.fields["client_payload"] == data
  {
    DispatchRequest("https://api.github.com/repos/" + repo + "/dispatches", token,
      Obj(map["event_type" := Str(DispatchType), "client_payload" := data]))
  }

  /** The handler.  The checks run in the order of the source: the method,
      then the body, then the token; only a request that passes all three is
      forwarded. */
  function Handle(httpMethod: string, body: Option<Value>, env: Env, answer: GitHubAnswer): (r: Response)
    ensures httpMethod == "OPTIONS" ==> r == Response(200, None, None)
    ensures httpMethod != "OPTIONS" && httpMethod != "POST" ==>
      r == Response(405, Some(ErrorBody("Method not allowed")), None)
    ensures httpMethod == "POST" && MissingAction(body) ==>
      r == Response(400, Some(ErrorBody("Missing required field: action")), None)
    ensures httpMethod == "POST" && !MissingAction(body) && EnvVar(env, "GITHUB_TOKEN").None? ==>
      r == Response(500, Some(ErrorBody("GitHub token not configured")), None)
    ensures r.dispatched.Some? <==>
      httpMethod == "POST" && !MissingAction(body) && EnvVar(env, "GITHUB_TOKEN").Some?
    ensures r.dispatched.Some? ==>
      r.dispatched.value == DispatchOf(EnvVar(env, "GITHUB_REPO").GetOr(DefaultRepo),
                                       EnvVar(env, "GITHUB_TOKEN").value, body.value)
    ensures r.dispatched.Some? ==> match answer
      case Accepted => r.status == 200 && r.body == Some(Obj(map[
        "success" := Bool(true), "message" := Str("Analytics tracked"),
        "action" := Or(Get(body, "action"), Null)]))
      case Refused(text) => r.status == 500 && r.body == Some(Obj(map[
        "error" := Str("GitHub API error"), "details" := Str(text)]))
      case CallThrew(message) => r.status == 500 && r.body == Some(ErrorBody(message))
  {
    if httpMethod == "OPTIONS" then Response(200, None, None)
    else if httpMethod != "POST" then Response(405, Some(ErrorBody("Method not allowed")), None)
    else if MissingAction(body) then Response(400, Some(ErrorBody("Missing required field: action")), None)
    else match EnvVar(env, "GITHUB_TOKEN")
      case None => Response(500, Some(ErrorBody("GitHub token not configured")), None)
      case Some(token) =>
        var request := DispatchOf(EnvVar(env, "GITHUB_REPO").GetOr(DefaultRepo), token, body.value);
        match answer
        case Accepted => Response(200, Some(Obj(map[
          "success" := Bool(true), "message" := Str("Analytics tracked"),
          "action" := Or(Get(body, "action"), Null)])), Some(request))
        case Refused(text) => Response(500, Some(Obj(map[
          "error" := Str("GitHub API error"), "details" := Str(text)])), Some(request))
        case CallThrew(message) => Response(500, Some(ErrorBody(message)), Some(request))
  }

  /** A request is tracked (200) exactly when it is a POST with an action,
      the token is configured and GitHub accepts the dispatch; and the
      action echoed back is the one that was posted. */
  lemma TrackedExactly(httpMethod: string, body: Option<Value>, env: Env, answer: GitHubAnswer)
    ensures var r := Handle(httpMethod, body, env, answer);
      && (r.status == 200 && r.body.Some? <==>
           httpMethod == "POST" && !MissingAction(body) && EnvVar(env, "GITHUB_TOKEN").Some? && answer.Accepted?)
      && (r.status == 200 && r.body.Some? ==> r.body.value.fields["action"] == body.value.fields["action"])
  {
    var r := Handle(httpMethod, body, env, answer);
    if r.status == 200 && r.body.Some? {
      assert !MissingAction(body);
      assert body.value.Obj? && "action" in body.value.fields;
    }
  }

  /** The method is checked before the body: a GET with an invalid body is
      405, not 400, and nothing is forwarded. */
  lemma MethodBeforeBody(env: Env, answer: GitHubAnswer)
    ensures Handle("GET", None, env, answer).status == 405
    ensures Handle("GET", None, env, answer).dispatched.None?
  {
  }

  /** The repository defaults when GITHUB_REPO is unset or empty. */
  lemma RepoDefault(token: string, data: Value, answer: GitHubAnswer)
    requires token != "" && data.Obj? && "action" in data.fields && Truthy(data.fields["action"])
    ensures var r := Handle("POST", Some(data), map["GITHUB_TOKEN" := token, "GITHUB_REPO" := ""], answer);
      r.dispatched == Some(DispatchOf(DefaultRepo, token, data))
  {
    var env := map["GITHUB_TOKEN" := token, "GITHUB_REPO" := ""];
    assert EnvVar(env, "GITHUB_TOKEN") == Some(token);
    assert EnvVar(env, "GITHUB_REPO") == None;
    assert !MissingAction(Some(data));
  }
}
