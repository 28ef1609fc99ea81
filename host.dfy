/**
 * What the helper sees of the host: its configuration and its JSON control
 * API reached over HTTP. The HTTP exchange itself is an input: each request
 * the helper sends is answered by the next Response of a script.
 */
module Host {
  import opened Wrappers
  import opened Json

  /** Parameters["Address"], ["Port"], ["Username"], ["Password"] and ["Name"] of the plugin. */
  datatype Parameters = Parameters(address: string, port: string, username: string, password: string, name: string)

  /** http://{address}:{port}/json.htm?{query}; the query is sent percent-quoted. */
  datatype Url = Url(address: string, port: string, query: string)

  /**
   * An HTTP GET of url. When authorization is Some(userPass), the request
   * carries "Authorization: Basic " followed by the base64 of userPass.
   */
  datatype Request = Request(url: Url, authorization: Option<string>)

  /**
   * What urlopen gave for one request: it raised (no connection, a timeout,
   * an HTTPError), or it returned a status and a body, the body decoded as
   * UTF-8 JSON (None where decoding raises).
   */
  datatype Response = Raised | Reply(status: int, body: Option<Json>)
}
