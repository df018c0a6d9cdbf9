/**
 * The backend's click pipeline and small configuration rules: the
 * `work_click` broadcast with its 64-bit sequence counter, the
 * `POST /works/:id/clicks` decision (blank id, rate limit, store, broadcast),
 * the CORS origin list, the WebSocket origin check, the admin-secret check
 * and the environment fallback. The click store is a log of stored work ids;
 * whether the insert succeeds is a parameter.
 */
module Backend {
  import opened Text
  import opened ClickLimiting
  import opened WsHubs

  /** `wsSeq` is a `uint64`; `atomic.AddUint64` wraps at 2^64. */
  const Uint64Modulus: int := 0x1_0000_0000_0000_0000

  /** `workClickEvent`, the payload of every broadcast. */
  datatype WorkClickEvent = WorkClickEvent(eventType: string, workId: string, seqNo: int)

  /** The counter after one more broadcast. */
  function NextSeq(wsSeq: int): (next: int)
    requires 0 <= wsSeq < Uint64Modulus
    ensures 0 <= next < Uint64Modulus
    ensures wsSeq < Uint64Modulus - 1 ==> next == wsSeq + 1
    ensures wsSeq == Uint64Modulus - 1 ==> next == 0
  {
    (wsSeq + 1) % Uint64Modulus
  }

  class Server {
    var wsSeq: int
    const hub: WsHub?<WorkClickEvent>
    const limiter: ClickLimiter?
    /** The work ids of the clicks stored so far, in order. */
    var storedClicks: seq<string>

    ghost predicate Valid()
      reads this, hub
    {
      0 <= wsSeq < Uint64Modulus && (hub != null ==> hub.Valid())
    }

    constructor (hub: WsHub?<WorkClickEvent>, limiter: ClickLimiter?)
      requires hub != null ==> hub.Valid()
      ensures Valid()
      ensures this.hub == hub && this.limiter == limiter && wsSeq == 0 && storedClicks == []
    {
      this.hub := hub;
      this.limiter := limiter;
      wsSeq := 0;
      storedClicks := [];
    }

    /** Whether `isAllowedClick` lets the click through: a nil limiter allows
        every click, a limiter answers as `Decide` does. */
    ghost function WouldAllow(ip: string, workId: string, now: int): bool
      reads this, limiter
    {
      limiter == null
      || Decide(limiter.lastClicks, limiter.lastCleanup, limiter.minInterval, limiter.maxEntries,
                limiter.cleanupInterval, ClickKey(ip, workId), now).allowed
    }

    /** `broadcastWorkClick`: with no hub nothing happens; otherwise the
        counter moves on by one and the event carrying the new value is
        broadcast to every client. */
    method BroadcastWorkClick(workId: string)
      requires Valid()
      modifies this, hub
      ensures Valid()
      ensures storedClicks == old(storedClicks)
      ensures hub == null ==> wsSeq == old(wsSeq)
      ensures hub != null ==>
        wsSeq == NextSeq(old(wsSeq))
        && hub.clients == Survivors(old(hub.clients), old(hub.buffers))
        && hub.buffers == Enqueued(old(hub.clients), old(hub.buffers), WorkClickEvent("work_click", workId, wsSeq))
        && hub.closedSends == old(hub.closedSends) + (old(hub.clients) - hub.clients)
        && hub.closedConns == old(hub.closedConns) + (old(hub.clients) - hub.clients)
        && hub.nextId == old(hub.nextId)
    {
      if hub == null {
        return;
      }
      wsSeq := NextSeq(wsSeq);
      var event := WorkClickEvent("work_click", workId, wsSeq);
      hub.Broadcast(event);
    }

    /** `handleCreateWorkClick`: 400 for a blank id; 202 when the limiter
        rejects the click (nothing stored, nothing broadcast); 500 when the
        insert fails; otherwise the click is stored, broadcast with the next
        sequence number, and 201 returned. An empty client IP is keyed as
        "unknown". */
    method HandleCreateWorkClick(rawId: string, realIp: string, now: int, storeSucceeds: bool)
      returns (status: int)
      requires Valid()
      modifies this, hub, limiter
      ensures Valid()
      ensures var id := GoTrim(rawId);
        var ip := if realIp == "" then "unknown" else realIp;
        && (status == 400 <==> id == "")
        && (status == 202 <==> id != "" && !old(WouldAllow(ip, id, now)))
        && (status == 500 <==> id != "" && old(WouldAllow(ip, id, now)) && !storeSucceeds)
        && (status == 201 <==> id != "" && old(WouldAllow(ip, id, now)) && storeSucceeds)
        && (id != "" && limiter != null ==>
              Decision(status != 202, limiter.lastClicks, limiter.lastCleanup)
              == old(Decide(limiter.lastClicks, limiter.lastCleanup, limiter.minInterval, limiter.maxEntries,
                            limiter.cleanupInterval, ClickKey(ip, id), now)))
        && (status == 201 ==> storedClicks == old(storedClicks) + [id])
        && (status == 201 && hub != null ==>
              wsSeq == NextSeq(old(wsSeq))
              && hub.clients == Survivors(old(hub.clients), old(hub.buffers))
              && hub.buffers == Enqueued(old(hub.clients), old(hub.buffers), WorkClickEvent("work_click", id, wsSeq))
              && hub.closedSends == old(hub.closedSends) + (old(hub.clients) - hub.clients)
              && hub.closedConns == old(hub.closedConns) + (old(hub.clients) - hub.clients)
              && hub.nextId == old(hub.nextId))
      ensures status != 201 ==> storedClicks == old(storedClicks) && wsSeq == old(wsSeq)
      ensures status == 201 && hub == null ==> wsSeq == old(wsSeq)
      ensures status != 201 && hub != null ==>
        hub.clients == old(hub.clients) && hub.buffers == old(hub.buffers)
        && hub.closedSends == old(hub.closedSends) && hub.closedConns == old(hub.closedConns)
        && hub.nextId == old(hub.nextId)
      ensures GoTrim(rawId) == "" && limiter != null ==>
        limiter.lastClicks == old(limiter.lastClicks) && limiter.lastCleanup == old(limiter.lastCleanup)
    {
      var workId := GoTrim(rawId);
      if workId == "" {
        return 400;
      }
      var ip := realIp;
      if ip == "" {
        ip := "unknown";
      }
      var allowed := true;
      if limiter != null {
        allowed := limiter.IsAllowedClick(ip, workId, now);
      }
      if !allowed {
        return 202;
      }
      if !storeSucceeds {
        return 500;
      }
      storedClicks := storedClicks + [workId];
      BroadcastWorkClick(workId);
      return 201;
    }
  }

  /** Without a limiter, two clicks with non-blank ids are both stored, in
      order, and advance the counter by two (below the 64-bit wrap). */
  method TwoAcceptedClicks(server: Server, a: string, b: string, now: int)
    returns (first: int, second: int)
    requires server.Valid() && server.hub != null && server.limiter == null
    requires GoTrim(a) != "" && GoTrim(b) != "" && server.wsSeq < Uint64Modulus - 2
    modifies server, server.hub
    ensures first == 201 && second == 201
    ensures server.wsSeq == old(server.wsSeq) + 2
    ensures server.storedClicks == old(server.storedClicks) + [GoTrim(a), GoTrim(b)]
  {
    first := server.HandleCreateWorkClick(a, "", now, true);
    second := server.HandleCreateWorkClick(b, "", now, true);
  }

  /** `corsConfig`: every origin when the configured value is empty or `*`,
      otherwise exactly the configured value (not trimmed). */
  function CorsOrigins(allowedOrigin: string): (origins: seq<string>)
    ensures |origins| == 1
    ensures origins == ["*"] <==> allowedOrigin == "" || allowedOrigin == "*"
    ensures allowedOrigin != "" && allowedOrigin != "*" ==> origins == [allowedOrigin]
  {
    if allowedOrigin != "" && allowedOrigin != "*" then [allowedOrigin] else ["*"]
  }

  /** `wsUpgrader().CheckOrigin`: the configured value is trimmed; empty or
      `*` accepts every request, otherwise the `Origin` header (empty when
      absent) must equal it. */
  function CheckOrigin(allowedOrigin: string, originHeader: string): (ok: bool)
    ensures GoTrim(allowedOrigin) == "" || GoTrim(allowedOrigin) == "*" ==> ok
    ensures !(GoTrim(allowedOrigin) == "" || GoTrim(allowedOrigin) == "*") ==>
      (ok <==> originHeader == GoTrim(allowedOrigin))
  {
    var allowed := GoTrim(allowedOrigin);
    allowed == "" || allowed == "*" || originHeader == allowed
  }

  /** The two rules differ on a padded value: `" *"` gives a CORS list
      holding only the literal `" *"`, while the WebSocket check accepts
      every origin. */
  lemma PaddedStarDisagrees(originHeader: string)
    ensures CorsOrigins(" *") == [" *"]
    ensures CheckOrigin(" *", originHeader)
  {
    var s := " *";
    assert SkipSpaces(s, IsGoSpace, 1) == 1;
    assert SkipSpaces(s, IsGoSpace, 0) == 1;
    assert SkipSpacesBack(s, IsGoSpace, 1, 2) == 2;
    assert GoTrim(s) == s[1..2] == "*";
  }

  /** `requireAdmin`: the `X-Admin-Secret` header (empty when absent) must be
      non-empty and equal to the configured secret. */
  function RequireAdmin(secretHeader: string, adminSecret: string): (pass: bool)
    ensures pass <==> secretHeader != "" && secretHeader == adminSecret
    ensures adminSecret == "" ==> !pass
  {
    secretHeader != "" && secretHeader == adminSecret
  }

  /** `getEnv`: the variable's value when it is set and non-empty, the
      fallback otherwise (an unset variable reads as empty). */
  function GetEnv(env: map<string, string>, key: string, fallback: string): (v: string)
    ensures v == fallback || (key in env && v == env[key] != "")
    ensures key in env && env[key] != "" ==> v == env[key]
    ensures fallback != "" ==> v != ""
  {
    if key in env && env[key] != "" then env[key] else fallback
  }
}
