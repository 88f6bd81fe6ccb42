/** The application's CORS policy and its last-resort error handler. The URL parser
    that yields an origin's hostname is an input (None when it throws). */
module Server {
  import opened Base
  import opened JsValue

  /** isAllowedVercelPreview: a hostname under ".vercel.app" that, lower-cased,
      starts with "inviteflow-" and contains "-invitapop"; false when the origin
      does not parse. */
  predicate IsAllowedPreview(origin: string, hostname: string -> Option<string>) {
    match hostname(origin)
    case None => false
    case Some(h) =>
      EndsWith(h, ".vercel.app") && StartsWith(ToLower(h), "inviteflow-") && Contains(ToLower(h), "-invitapop")
  }

  datatype CorsDecision = Allow | Blocked(message: string)

  /** The origin callback. A request without an Origin header (or an empty one) is
      allowed, as is an exact member of the configured origins or a preview
      deployment; anything else is refused with an error naming the origin and the
      configured list. */
  function CorsOrigin(origin: Option<string>, allowed: seq<string>, hostname: string -> Option<string>): (r: CorsDecision)
    ensures (origin.None? || origin.value == "") ==> r == Allow
    ensures origin.Some? && origin.value in allowed ==> r == Allow
    ensures r == Allow <==>
      (origin.None? || origin.value == "" || origin.value in allowed || IsAllowedPreview(origin.value, hostname))
    ensures r.Blocked? ==> StartsWith(r.message, "CORS blocked")
  {
    if origin.None? || origin.value == "" then Allow
    else if origin.value in allowed then Allow
    else if IsAllowedPreview(origin.value, hostname) then Allow
    else Blocked("CORS blocked for origin: " + origin.value + " de " + Join(allowed, ","))
  }

  datatype Reply = Delegate | Status(code: int, error: string)

  /** The error handler: once headers are sent the error goes on to Express's own
      handler; an error whose message starts with "CORS blocked" is a 403 carrying
      that message; any other is a 500 with a fixed message. */
  function HandleError(headersSent: bool, message: Value): (r: Reply)
    ensures headersSent ==> r == Delegate
    ensures !headersSent && StartsWith(ToJsString(Or(message, Str(""))), "CORS blocked") ==>
      r == Status(403, ToJsString(message))
    ensures !headersSent && !StartsWith(ToJsString(Or(message, Str(""))), "CORS blocked") ==>
      r == Status(500, "Internal server error")
  {
    if headersSent then Delegate
    else if StartsWith(ToJsString(Or(message, Str(""))), "CORS blocked") then Status(403, ToJsString(message))
    else Status(500, "Internal server error")
  }

  /** A refused origin reaches the client as a 403 with the refusal's message,
      unless the response was already under way. */
  lemma {:induction false} BlockedOriginIsForbidden(origin: Option<string>, allowed: seq<string>, hostname: string -> Option<string>)
    requires CorsOrigin(origin, allowed, hostname).Blocked?
    ensures var m := CorsOrigin(origin, allowed, hostname).message;
      HandleError(false, Str(m)) == Status(403, m)
  {
    var m := CorsOrigin(origin, allowed, hostname).message;
    assert m != "" by {
      assert |m| >= |"CORS blocked"|;
    }
  }

  /** The origin list decides alone for listed origins: the hostname parser plays no
      part for them. */
  lemma {:induction false} ListedOriginIgnoresParser(origin: string, allowed: seq<string>,
                                  hostname1: string -> Option<string>, hostname2: string -> Option<string>)
    requires origin in allowed
    ensures CorsOrigin(Some(origin), allowed, hostname1) == CorsOrigin(Some(origin), allowed, hostname2) == Allow
  {
  }

  /** A preview hostname needs all three marks: one under another domain is
      refused whatever its name. */
  lemma {:induction false} PreviewNeedsVercelDomain(origin: string, allowed: seq<string>, hostname: string -> Option<string>)
    requires origin != "" && origin !in allowed
    requires hostname(origin).Some? && !EndsWith(hostname(origin).value, ".vercel.app")
    ensures CorsOrigin(Some(origin), allowed, hostname).Blocked?
  {
  }
}
