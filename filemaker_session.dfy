/**
 * Opening a FileMaker Data API session (`fm_get_token`): the reply to the
 * session request is accepted only with status 200 or 201 and a non-empty
 * `response.token`.
 */
module FileMakerSession {
  import opened Wrappers
  import opened Values

  /** Why no session token came back; each is raised as a RuntimeError or by Python itself. */
  datatype SessionError =
    | BadStatus(status: int)       // "Failed to create FileMaker session: <status> <text>"
    | NotJson                      // r.json() could not decode the body
    | NotAnObject(found: RawValue) // .get called on a JSON value that is not an object
    | NoToken(reply: RawValue)     // "No token found in FileMaker session response: <reply>"

  /** The statuses the session request must answer with. */
  predicate IsCreated(status: int)
  {
    status == 200 || status == 201
  }

  /**
   * The token from the session reply: `status` and the decoded body
   * (`None` when the body is not JSON).
   */
  function SessionToken(status: int, body: Option<RawValue>): (r: Result<RawValue, SessionError>)
    ensures !IsCreated(status) ==> r == Err(BadStatus(status))
    ensures r.Ok? ==> IsCreated(status) && Truthy(r.value)
  {
    if !IsCreated(status) then Err(BadStatus(status))
    else match body
      case None => Err(NotJson)
      case Some(reply) =>
        match reply
        case Dict(top) =>
          var response := if "response" in top then top["response"] else Dict(map[]);
          (match response
           case Dict(fields) =>
             var token := Get(fields, "token");
             if Truthy(token) then Ok(token) else Err(NoToken(reply))
           case other => Err(NotAnObject(other)))
        case other => Err(NotAnObject(other))
  }

  /** The reply `{"response": {"token": t, ...}, ...}`. */
  predicate CarriesToken(body: Option<RawValue>, token: RawValue)
  {
    body.Some? && body.value.Dict? && "response" in body.value.fields
    && body.value.fields["response"].Dict?
    && "token" in body.value.fields["response"].fields
    && body.value.fields["response"].fields["token"] == token
  }

  /**
   * A session is accepted exactly when the status is 200 or 201 and the
   * reply carries a non-empty token; the accepted token is that one.
   */
  lemma SessionAccepted(status: int, body: Option<RawValue>)
    ensures SessionToken(status, body).Ok? <==>
      IsCreated(status) && exists t :: CarriesToken(body, t) && Truthy(t)
    ensures SessionToken(status, body).Ok? ==> CarriesToken(body, SessionToken(status, body).value)
  {
    if IsCreated(status) && exists t :: CarriesToken(body, t) && Truthy(t) {
      var t :| CarriesToken(body, t) && Truthy(t);
      assert SessionToken(status, body) == Ok(t);
    }
  }

  /** An empty token string is refused even with a success status. */
  lemma EmptyTokenRefused(status: int, top: map<string, RawValue>)
    requires IsCreated(status)
    requires "response" in top && top["response"] == Dict(map["token" := Str("")])
    ensures SessionToken(status, Some(Dict(top))) == Err(NoToken(Dict(top)))
  {
  }

  /** A reply without a `response` object has no token. */
  lemma MissingResponseRefused(status: int, top: map<string, RawValue>)
    requires IsCreated(status) && "response" !in top
    ensures SessionToken(status, Some(Dict(top))) == Err(NoToken(Dict(top)))
  {
  }
}
