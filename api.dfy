/**
 * DomoticzAPI's two decision rules: which headers a request carries, and
 * which responses count as a result.
 */
module Api {
  import opened Wrappers
  import opened Json
  import opened Host
  import opened Logging

  /** A decoded JSON object, the only kind of result DomoticzAPI hands back. */
  type Fields = map<string, Json>

  predicate IsAscii(s: string) {
    forall i :: 0 <= i < |s| ==> s[i] as int < 128
  }

  /** The user-pass of section 2 of RFC 7617: user-id, a colon, then the password. */
  function UserPass(p: Parameters): string {
    p.username + ":" + p.password
  }

  /**
   * The request DomoticzAPI sends for query, or None when the credentials
   * cannot be encoded as ASCII (the call then raises before anything is sent).
   */
  function MakeRequest(p: Parameters, query: string): (r: Option<Request>)
    ensures r.None? <==> p.username != "" && !IsAscii(UserPass(p))
    ensures r.Some? ==> r.value.url == Url(p.address, p.port, query)
    ensures r.Some? ==> (r.value.authorization.Some? <==> p.username != "")
    ensures r.Some? && p.username != "" ==> r.value.authorization == Some(UserPass(p))
  {
    var url := Url(p.address, p.port, query);
    if p.username == "" then Some(Request(url, None))
    else if IsAscii(UserPass(p)) then Some(Request(url, Some(UserPass(p))))
    else None
  }

  /** How a server reads a user-pass: the user-id ends at the first colon. */
  function SplitUserPass(s: string): Option<(string, string)> {
    if |s| == 0 then None
    else if s[0] == ':' then Some(("", s[1..]))
    else match SplitUserPass(s[1..])
      case Some(pair) => Some(([s[0]] + pair.0, pair.1))
      case None => None
  }

  /** A user name without a colon is recovered, with the password, from the header. */
  lemma {:induction false} UserPassRoundTrip(user: string, password: string)
    requires ':' !in user
    ensures SplitUserPass(user + ":" + password) == Some((user, password))
  {
    if |user| > 0 {
      assert (user + ":" + password)[1..] == user[1..] + ":" + password;
      UserPassRoundTrip(user[1..], password);
      assert [user[0]] + user[1..] == user;
    }
  }

  /** HTTP 200 and a JSON object whose "status" is "OK". */
  predicate StatusOk(response: Response) {
    && response.Reply?
    && response.status == 200
    && response.body.Some?
    && response.body.value.JObject?
    && "status" in response.body.value.fields
    && response.body.value.fields["status"] == JString("OK")
  }

  /** What DomoticzAPI returns for one response, and the error it logs. */
  datatype Acceptance = Acceptance(result: Option<Fields>, error: Option<Message>)

  /**
   * The acceptance rule: a result only for HTTP 200 with "status" equal to
   * "OK"; otherwise no result and exactly one error.
   */
  function Accept(response: Response, url: Url): (a: Acceptance)
    ensures a.result.Some? <==> StatusOk(response)
    ensures a.result.Some? ==> response.body == Some(JObject(a.result.value))
    ensures a.result.None? <==> a.error.Some?
    ensures response.Raised? ==> a.error == Some(CallFailed(url))
    ensures response.Reply? && response.status != 200 ==> a.error == Some(HttpError(response.status))
  {
    match response
    case Raised => Acceptance(None, Some(CallFailed(url)))
    case Reply(status, body) =>
      if status != 200 then Acceptance(None, Some(HttpError(status)))
      else match body
        case None => Acceptance(None, Some(CallFailed(url)))
        case Some(JObject(fields)) =>
          if "status" !in fields then Acceptance(None, Some(CallFailed(url)))
          else if fields["status"] != JString("OK") then Acceptance(None, Some(ApiStatusNotOk(fields["status"])))
          else Acceptance(Some(fields), None)
        case Some(_) => Acceptance(None, Some(CallFailed(url)))
  }

  /** DomoticzAPI's result as the source computes it: any decoded value, or None. */
  datatype RawAcceptance = RawAcceptance(result: Option<Json>, error: Option<Message>)

  /**
   * The rule as written: resultJson is assigned the decoded body before
   * resultJson["status"] is read, so when that read raises (no "status" key,
   * or a body that is not an object) the bare except logs an error and the
   * unchecked body is returned. A JSON null is Python's None.
   */
  function AcceptAsWritten(response: Response, url: Url): RawAcceptance {
    match response
    case Raised => RawAcceptance(None, Some(CallFailed(url)))
    case Reply(status, body) =>
      if status != 200 then RawAcceptance(None, Some(HttpError(status)))
      else match body
        case None => RawAcceptance(None, Some(CallFailed(url)))
        case Some(JNull) => RawAcceptance(None, Some(CallFailed(url)))
        case Some(JObject(fields)) =>
          if "status" !in fields then RawAcceptance(body, Some(CallFailed(url)))
          else if fields["status"] != JString("OK") then RawAcceptance(None, Some(ApiStatusNotOk(fields["status"])))
          else RawAcceptance(body, None)
        case Some(_) => RawAcceptance(body, Some(CallFailed(url)))
  }

  /** A 200 reply {"result": []} with no "status": the code returns it as a result while logging an error. */
  lemma AsWrittenAcceptsBodyWithoutStatus(url: Url)
    ensures var response := Reply(200, Some(JObject(map["result" := JArray([])])));
      && !StatusOk(response)
      && AcceptAsWritten(response, url) == RawAcceptance(response.body, Some(CallFailed(url)))
      && Accept(response, url) == Acceptance(None, Some(CallFailed(url)))
  {
  }

  /**
   * The two rules part only where the source raises after assigning
   * resultJson; everywhere else they return the same value and log the same error.
   */
  lemma AcceptAgreesWithAsWritten(response: Response, url: Url)
    ensures var raw := AcceptAsWritten(response, url);
      var a := Accept(response, url);
      && raw.error == a.error
      && (a.result.Some? ==> raw.result == Some(JObject(a.result.value)))
      && (raw.result.Some? && a.result.None? <==>
            response.Reply? && response.status == 200 && response.body.Some?
            && response.body.value != JNull
            && !(response.body.value.JObject? && "status" in response.body.value.fields))
  {
  }
}
