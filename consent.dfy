/** registerConsent: recording a visitor's cookie consent. The row keeps a hash of
    the client's IP address rather than the address. The hash function (SHA-256 in
    hex), the pepper it is salted with and the insert's outcome are inputs. */
module Consent {
  import opened Base
  import opened JsValue

  /** The request headers the handler reads (absent headers are None) and the
      socket's remote address. */
  datatype Client = Client(
    userAgent: Option<string>,
    forwardedFor: Option<string>,
    realIp: Option<string>,
    remoteAddress: Option<string>)

  /** `header || fallback` for an optional header. */
  function OrElse(header: Option<string>, fallback: string): (r: string)
    ensures header.Some? && header.value != "" ==> r == header.value
    ensures header.None? || header.value == "" ==> r == fallback
  {
    if header.Some? && header.value != "" then header.value else fallback
  }

  /** The user agent, "unknown" when the header is absent or empty. */
  function UserAgent(c: Client): (r: string)
    ensures r != ""
    ensures c.userAgent.Some? && c.userAgent.value != "" ==> r == c.userAgent.value
  {
    OrElse(c.userAgent, "unknown")
  }

  /** The first hop of X-Forwarded-For: the text before its first comma, trimmed. */
  function FirstHop(forwardedFor: string): (r: string)
    ensures r == "" <==> IsBlank(Split(forwardedFor, ",")[0])
  {
    Trim(Split(forwardedFor, ",")[0])
  }

  /** The client's address: the first hop of X-Forwarded-For when that is not blank,
      else X-Real-IP, else the socket's address, else "0.0.0.0". */
  function ClientIp(c: Client): (r: string)
    ensures r != ""
    ensures c.forwardedFor.Some? && FirstHop(c.forwardedFor.value) != "" ==> r == FirstHop(c.forwardedFor.value)
    ensures (c.forwardedFor.None? || FirstHop(c.forwardedFor.value) == "") && c.realIp.Some? && c.realIp.value != ""
      ==> r == c.realIp.value
    ensures (c.forwardedFor.None? || FirstHop(c.forwardedFor.value) == "") && (c.realIp.None? || c.realIp.value == "")
      ==> r == OrElse(c.remoteAddress, "0.0.0.0")
  {
    var hop := if c.forwardedFor.Some? then FirstHop(c.forwardedFor.value) else "";
    if hop != "" then hop
    else OrElse(c.realIp, OrElse(c.remoteAddress, "0.0.0.0"))
  }

  /** Behind proxies, the address is the first (client-side) entry of the list,
      without the spaces around it, whatever the later entries are. */
  lemma {:induction false} ForwardedFirstHop(hop: string, rest: string, c: Client)
    requires Lacks(hop, ',') && !IsBlank(hop)
    requires c.forwardedFor == Some(hop + "," + rest)
    ensures ClientIp(c) == Trim(hop)
  {
    LacksIndex(hop, ',');
    SplitAt(hop, ",", rest);
  }

  /** A client reached directly, with no proxy headers, is known by its socket
      address. */
  lemma {:induction false} DirectClient(address: string, userAgent: Option<string>)
    requires address != ""
    ensures ClientIp(Client(userAgent, None, None, Some(address))) == address
  {
  }

  /** The handler's response and the row it inserted, if any. */
  datatype Reply = Reply(status: int, json: Value, inserted: Option<map<string, Value>>)

  /** The row recorded for a consent: the body's fields as given, the IP hash and the
      user agent. */
  function ConsentRow(body: Value, ipHash: string, userAgent: string): (r: map<string, Value>)
    ensures r.Keys == {"consent_id", "consent_version", "cookies_policy_version", "consent_settings", "ip_hash", "user_agent"}
    ensures r["ip_hash"] == Str(ipHash) && r["user_agent"] == Str(userAgent)
    ensures r["consent_id"] == Get(body, "consent_id") && r["consent_version"] == Get(body, "consent_version")
    ensures r["cookies_policy_version"] == Get(body, "cookies_policy_version")
      && r["consent_settings"] == Get(body, "consent_settings")
  {
    map[
      "consent_id" := Get(body, "consent_id"),
      "consent_version" := Get(body, "consent_version"),
      "cookies_policy_version" := Get(body, "cookies_policy_version"),
      "consent_settings" := Get(body, "consent_settings"),
      "ip_hash" := Str(ipHash),
      "user_agent" := Str(userAgent)
    ]
  }

  /** registerConsent. `thrown` is the message of the error raised when the body
      cannot be destructured; `insertError` is the error the insert reports, if any. */
  function RegisterConsent(body: Value, c: Client, pepper: string, hash: string -> string,
                           insertError: Option<Value>, thrown: Value): (r: Reply)
    ensures IsNullish(body) ==> r == Reply(500, Obj(map["success" := Bool(false), "error" := thrown]), None)
    ensures !IsNullish(body) && !(Truthy(Get(body, "consent_id")) && Truthy(Get(body, "consent_version"))) ==>
      r == Reply(400, Obj(map["success" := Bool(false), "error" := Str("Missing required fields")]), None)
    ensures r.inserted.Some? <==>
      !IsNullish(body) && Truthy(Get(body, "consent_id")) && Truthy(Get(body, "consent_version"))
    ensures r.inserted.Some? ==> r.inserted.value == ConsentRow(body, hash(ClientIp(c) + pepper), UserAgent(c))
    ensures r.status == 200 <==> r.inserted.Some? && insertError.None?
    ensures r.status == 200 ==> r.json == Obj(map["success" := Bool(true)])
    ensures r.inserted.Some? && insertError.Some? ==>
      r == Reply(500, Obj(map["success" := Bool(false), "error" := Get(insertError.value, "message"),
                              "details" := insertError.value]), r.inserted)
  {
    if IsNullish(body) then Reply(500, Obj(map["success" := Bool(false), "error" := thrown]), None)
    else if !Truthy(Get(body, "consent_id")) || !Truthy(Get(body, "consent_version")) then
      Reply(400, Obj(map["success" := Bool(false), "error" := Str("Missing required fields")]), None)
    else
      var row := ConsentRow(body, hash(ClientIp(c) + pepper), UserAgent(c));
      match insertError
      case Some(e) =>
        Reply(500, Obj(map["success" := Bool(false), "error" := Get(e, "message"), "details" := e]), Some(row))
      case None => Reply(200, Obj(map["success" := Bool(true)]), Some(row))
  }

  /** The stored hash never depends on the headers beyond the address they select:
      two requests from the same address with the same consent store the same hash. */
  lemma {:induction false} SameAddressSameHash(body: Value, c1: Client, c2: Client, pepper: string, hash: string -> string,
                            thrown: Value)
    requires ClientIp(c1) == ClientIp(c2)
    requires !IsNullish(body) && Truthy(Get(body, "consent_id")) && Truthy(Get(body, "consent_version"))
    ensures RegisterConsent(body, c1, pepper, hash, None, thrown).inserted.value["ip_hash"]
         == RegisterConsent(body, c2, pepper, hash, None, thrown).inserted.value["ip_hash"]
  {
  }
}
