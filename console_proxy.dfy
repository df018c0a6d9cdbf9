/**
 * The console route gate run by the authentication middleware: paths
 * outside `/console` and the public console pages pass; any other console
 * page passes only for a signed-in, allowed address, and otherwise the
 * visitor is sent to the login page with the original URL as `callbackUrl`.
 */
module ConsoleProxy {
  import opened Wrappers
  import opened Text
  import opened AllowedEmails

  /** `PUBLIC_CONSOLE_PATHS`. */
  const PublicConsolePaths: seq<string> := ["/console/login", "/console/guest"]

  datatype ProxyDecision = Next | Redirect(location: string, callbackUrl: string)

  /** Whether some public path is a prefix of `pathname`. */
  predicate IsPublicConsolePath(pathname: string) {
    exists k :: 0 <= k < |PublicConsolePaths| && StartsWith(pathname, PublicConsolePaths[k])
  }

  /** The decision for a request for `pathname` (full URL `url`) by a
      visitor whose session address is `email`. */
  function ConsoleGate(pathname: string, url: string, email: Option<string>, envValue: Option<string>)
    : (d: ProxyDecision)
    ensures !StartsWith(pathname, "/console") ==> d == Next
    ensures StartsWith(pathname, "/console/login") || StartsWith(pathname, "/console/guest") ==> d == Next
    ensures StartsWith(pathname, "/console") && !IsPublicConsolePath(pathname) ==>
      (d == Next <==> IsAllowedEmail(email, envValue))
    ensures d.Redirect? ==> d.location == "/console/login" && d.callbackUrl == url
  {
    assert PublicConsolePaths[0] == "/console/login" && PublicConsolePaths[1] == "/console/guest";
    if !StartsWith(pathname, "/console") then Next
    else if IsPublicConsolePath(pathname) then Next
    else if email.Some? && email.value != "" && IsAllowedEmail(email, envValue) then Next
    else Redirect("/console/login", url)
  }

  /** Public paths match by prefix: a page whose path merely begins with a
      public path is let through for anyone. */
  lemma PrefixOfPublicPathPasses(url: string, envValue: Option<string>)
    ensures ConsoleGate("/console/guestbook", url, None, envValue) == Next
  {
    assert StartsWith("/console/guestbook", "/console/guest");
  }

  /** A protected page without a session redirects to the login page. */
  lemma SignedOutVisitorRedirected(url: string, envValue: Option<string>)
    ensures ConsoleGate("/console/works", url, None, envValue) == Redirect("/console/login", url)
  {
    var path := "/console/works";
    assert StartsWith(path, "/console");
    assert path[9] == 'w' && PublicConsolePaths[0][9] == 'l' && PublicConsolePaths[1][9] == 'g';
    assert !IsPublicConsolePath(path);
  }
}
