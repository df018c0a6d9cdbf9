/**
 * The console's API proxy (`/api/auth` for GET, POST, PUT, PATCH and
 * DELETE): a chain of checks on the session, the `api_url` parameter, the
 * session address and the server configuration, each with its own status;
 * a request that passes is forwarded to the backend with the admin secret
 * added, `host` removed and the body only for methods that carry one, and
 * the backend's answer is passed back as it is. Header names are the
 * lowercase names a `Headers` object holds; the session, the environment
 * and the backend's answer are parameters.
 */
module AdminProxyRoute {
  import opened Wrappers
  import opened Text
  import opened AllowedEmails

  /** `ADMIN_HEADER`, as a `Headers` object stores it. */
  const AdminHeader: string := "x-admin-secret"

  datatype Session = Session(email: Option<string>)

  /** What is sent to the backend: `api_url` resolved against the backend
      base, the method, the headers and whether the body is streamed along.
      Redirects are not followed. */
  datatype UpstreamRequest = UpstreamRequest(
    apiUrl: string, baseUrl: string, httpMethod: string, headers: map<string, string>, forwardsBody: bool)

  datatype ProxyResult = Respond(status: int, body: string) | Forward(upstream: UpstreamRequest)

  /** The forwarded headers: the incoming ones with the secret set (replacing
      any value the client sent) and `host` deleted. */
  function ForwardHeaders(headers: map<string, string>, secret: string): (forwarded: map<string, string>)
    ensures AdminHeader in forwarded && forwarded[AdminHeader] == secret
    ensures "host" !in forwarded
    ensures forall name :: name != AdminHeader && name != "host" ==>
      (name in forwarded <==> name in headers) && (name in forwarded ==> forwarded[name] == headers[name])
  {
    headers[AdminHeader := secret] - {"host"}
  }

  /** True for a value a JavaScript `!value` test rejects. */
  predicate Missing(value: Option<string>) {
    value.None? || value.value == ""
  }

  /** `proxy`, up to the call to the backend. */
  function AdminProxy(session: Option<Session>, apiUrl: Option<string>, httpMethod: string,
                      headers: map<string, string>, adminSecret: Option<string>,
                      backendBase: Option<string>, envValue: Option<string>): (r: ProxyResult)
    ensures session.None? ==> r == Respond(401, "Unauthorized")
    ensures session.Some? && Missing(apiUrl) ==> r == Respond(400, "parameter(api_url) is required")
    ensures (session.Some? && !Missing(apiUrl)
             && (StartsWith(apiUrl.value, "http://") || StartsWith(apiUrl.value, "https://"))) ==>
      r == Respond(400, "parameter(api_url) must be a relative path")
    ensures r.Respond? && r.status == 403 <==>
      session.Some? && !Missing(apiUrl) && !StartsWith(apiUrl.value, "http://") && !StartsWith(apiUrl.value, "https://")
      && !IsAllowedEmail(session.value.email, envValue)
    ensures r.Forward? <==>
      session.Some? && !Missing(apiUrl) && !StartsWith(apiUrl.value, "http://") && !StartsWith(apiUrl.value, "https://")
      && IsAllowedEmail(session.value.email, envValue) && !Missing(adminSecret) && !Missing(backendBase)
    ensures r.Respond? && r.status == 500 ==> Missing(adminSecret) || Missing(backendBase)
    ensures r.Forward? ==>
      r.upstream.apiUrl == apiUrl.value && r.upstream.baseUrl == backendBase.value && r.upstream.httpMethod == httpMethod
      && r.upstream.headers == ForwardHeaders(headers, adminSecret.value)
      && (r.upstream.forwardsBody <==> httpMethod != "GET" && httpMethod != "HEAD")
  {
    if session.None? then Respond(401, "Unauthorized")
    else if Missing(apiUrl) then Respond(400, "parameter(api_url) is required")
    else if StartsWith(apiUrl.value, "http://") || StartsWith(apiUrl.value, "https://") then
      Respond(400, "parameter(api_url) must be a relative path")
    else if !IsAllowedEmail(session.value.email, envValue) then Respond(403, "Forbidden")
    else if Missing(adminSecret) then Respond(500, "server configuration error")
    else if Missing(backendBase) then Respond(500, "server configuration error")
    else
      var bodyAllowed := httpMethod != "GET" && httpMethod != "HEAD";
      Forward(UpstreamRequest(apiUrl.value, backendBase.value, httpMethod, ForwardHeaders(headers, adminSecret.value), bodyAllowed))
  }

  /** The backend's answer and the proxy's reply to the browser. */
  datatype UpstreamResponse = UpstreamResponse(status: int, body: seq<bv8>, headers: map<string, string>)

  /** The reply carries the backend's status, body and headers unchanged. */
  function Relay(upstream: UpstreamResponse): (reply: UpstreamResponse)
    ensures reply.status == upstream.status && reply.body == upstream.body && reply.headers == upstream.headers
  {
    UpstreamResponse(upstream.status, upstream.body, upstream.headers)
  }

  /** The order of the checks: without a session the answer is 401 whatever
      else is wrong, and a missing `api_url` is reported before the address
      is looked at. */
  lemma ChecksInOrder(apiUrl: Option<string>, httpMethod: string, headers: map<string, string>,
                      adminSecret: Option<string>, backendBase: Option<string>, envValue: Option<string>, email: Option<string>)
    ensures AdminProxy(None, apiUrl, httpMethod, headers, adminSecret, backendBase, envValue).status == 401
    ensures AdminProxy(Some(Session(email)), None, httpMethod, headers, adminSecret, backendBase, envValue).status == 400
  {
  }

  /** A forwarded request always carries the configured secret, never one
      the client supplied, and never the client's `host`. */
  lemma SecretNotSpoofable(session: Option<Session>, apiUrl: Option<string>, httpMethod: string,
                           headers: map<string, string>, adminSecret: Option<string>,
                           backendBase: Option<string>, envValue: Option<string>)
    requires AdminHeader in headers && headers[AdminHeader] != adminSecret.GetOr("")
    ensures var r := AdminProxy(session, apiUrl, httpMethod, headers, adminSecret, backendBase, envValue);
      r.Forward? ==> r.upstream.headers[AdminHeader] == adminSecret.value != headers[AdminHeader]
                     && "host" !in r.upstream.headers
  {
  }
}
