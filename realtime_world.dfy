/**
 * The live click feed of the falling-box world (`WorkClickPhysics`): a
 * WebSocket client that gates "work_click" messages with a sequence
 * watermark, reconnects with capped exponential back-off, appends boxes
 * below a population cap, ends the live feed once the cap is reached, and
 * runs a five-shot welcome spawner.
 *
 * Physics, rendering and the random spawn geometry are not modelled; the
 * random box id and the random work index are parameters.
 */
module RealtimeWorld {
  import opened Wrappers

  const MaxBoxes: nat := 30
  const AutoSpawnCount: nat := 5
  const MaxRetry: nat := 6
  const BaseDelayMs: nat := 500
  const MaxDelayMs: nat := 10000

  /** A value `JSON.parse` can produce, as far as the handler looks at it:
      arrays and objects are `JsObject`, and a missing field reads as
      `JsUndefined`. */
  datatype JsValue = JsString(s: string) | JsNumber(n: real) | JsBoolean(b: bool) | JsNull | JsUndefined | JsObject

  /** JavaScript truthiness: the empty string, 0, false, null and undefined
      are falsy (JSON has no NaN). */
  predicate Truthy(v: JsValue) {
    match v
    case JsString(s) => s != ""
    case JsNumber(n) => n != 0.0
    case JsBoolean(b) => b
    case JsNull => false
    case JsUndefined => false
    case JsObject => true
  }

  /** A spawned box as far as the model tracks it: its (random) id and the
      work id it was spawned with (whatever value the message carried).
      Position, velocity, impulse, torque and spin are physics inputs and are
      left out. */
  datatype FallingBox = FallingBox(id: string, workId: JsValue)

  /** `Number(parsed.seq)`: a finite number, or NaN / an infinity / a throw. */
  datatype SeqNumber = Finite(value: real) | NotFinite

  /** What the handler reads from the value `JSON.parse` produced:
      whether it is truthy, its `type` when that is a string, its `workId`
      field, and `Number(seq)`. */
  datatype Parsed = Parsed(truthy: bool, kind: Option<string>, workId: JsValue, seqNo: SeqNumber)

  /** A WebSocket message event: binary data, or text that either fails to
      parse (`None`) or parses. */
  datatype Frame = Binary | Text(json: Option<Parsed>)

  datatype Verdict = Ignore | Accept(workId: JsValue, seqNo: real)

  /** The checks of `ws.onmessage`, in order, against the watermark `lastSeq`. */
  function Gate(frame: Frame, lastSeq: real): (v: Verdict)
  {
    match frame
    case Binary => Ignore
    case Text(None) => Ignore
    case Text(Some(p)) =>
      if !p.truthy || p.kind != Some("work_click") then Ignore
      else if !Truthy(p.workId) then Ignore
      else if p.seqNo.NotFinite? || p.seqNo.value <= lastSeq then Ignore
      else Accept(p.workId, p.seqNo.value)
  }

  /** A frame is accepted exactly when it is a parsable text frame of type
      "work_click" with a truthy work id and a finite seq above the
      watermark; the accepted work id and seq are the message's own. */
  lemma GateAcceptsExactly(frame: Frame, lastSeq: real)
    ensures Gate(frame, lastSeq).Accept? <==>
      (frame.Text? && frame.json.Some? && frame.json.value.truthy
       && frame.json.value.kind == Some("work_click")
       && Truthy(frame.json.value.workId)
       && frame.json.value.seqNo.Finite? && frame.json.value.seqNo.value > lastSeq)
    ensures Gate(frame, lastSeq).Accept? ==>
      Gate(frame, lastSeq) == Accept(frame.json.value.workId, frame.json.value.seqNo.value)
  {
  }

  /** The work-id test is truthiness, not a type check: a numeric work id is
      accepted and passed on as it is, while an empty string or 0 is not. */
  lemma NonStringWorkIds(lastSeq: real)
    requires lastSeq < 1.0
    ensures Gate(Text(Some(Parsed(true, Some("work_click"), JsNumber(42.0), Finite(1.0)))), lastSeq)
         == Accept(JsNumber(42.0), 1.0)
    ensures Gate(Text(Some(Parsed(true, Some("work_click"), JsNumber(0.0), Finite(1.0)))), lastSeq) == Ignore
    ensures Gate(Text(Some(Parsed(true, Some("work_click"), JsString(""), Finite(1.0)))), lastSeq) == Ignore
  {
  }

  /** The watermark after one frame. */
  function NextWatermark(lastSeq: real, frame: Frame): (w: real)
    ensures w >= lastSeq
    ensures w != lastSeq ==> Gate(frame, lastSeq).Accept? && w == Gate(frame, lastSeq).seqNo
    ensures Gate(frame, lastSeq).Accept? ==> w == Gate(frame, lastSeq).seqNo > lastSeq
    ensures Gate(frame, lastSeq).Ignore? ==> w == lastSeq
  {
    match Gate(frame, lastSeq)
    case Accept(_, s) => s
    case Ignore => lastSeq
  }

  /** The seqs accepted from a run of frames, starting at watermark `lastSeq`. */
  function AcceptedSeqs(frames: seq<Frame>, lastSeq: real): seq<real>
    decreases |frames|
  {
    if frames == [] then []
    else
      match Gate(frames[0], lastSeq)
      case Accept(_, s) => [s] + AcceptedSeqs(frames[1..], s)
      case Ignore => AcceptedSeqs(frames[1..], lastSeq)
  }

  predicate StrictlyIncreasing(xs: seq<real>) {
    forall i, j :: 0 <= i < j < |xs| ==> xs[i] < xs[j]
  }

  /** The accepted seqs are strictly increasing and all above the starting
      watermark: replays and out-of-order messages are dropped. */
  lemma {:induction false} AcceptedSeqsIncrease(frames: seq<Frame>, lastSeq: real)
    ensures StrictlyIncreasing(AcceptedSeqs(frames, lastSeq))
    ensures forall i :: 0 <= i < |AcceptedSeqs(frames, lastSeq)| ==> AcceptedSeqs(frames, lastSeq)[i] > lastSeq
    decreases |frames|
  {
    if frames != [] {
      match Gate(frames[0], lastSeq)
      case Accept(_, s) =>
        AcceptedSeqsIncrease(frames[1..], s);
      case Ignore =>
        AcceptedSeqsIncrease(frames[1..], lastSeq);
    }
  }

  /** A well-formed "work_click" text frame carrying `seq`. */
  function ClickFrame(workId: string, seqNo: real): Frame {
    Text(Some(Parsed(true, Some("work_click"), JsString(workId), Finite(seqNo))))
  }

  /** Seqs 5, 3, 7, 7, 9 arriving at a fresh client
      (watermark 0) accept 5, 7 and 9. */
  lemma WatermarkExample()
    ensures AcceptedSeqs([ClickFrame("a", 5.0), ClickFrame("a", 3.0), ClickFrame("a", 7.0),
                          ClickFrame("a", 7.0), ClickFrame("a", 9.0)], 0.0) == [5.0, 7.0, 9.0]
  {
  }

  /** A message with seq 0 is never accepted by a fresh client. */
  lemma SeqZeroRejected(workId: string)
    ensures Gate(ClickFrame(workId, 0.0), 0.0) == Ignore
  {
  }

  function Pow2(n: nat): (p: nat)
    ensures p >= 1
  {
    if n == 0 then 1 else 2 * Pow2(n - 1)
  }

  /** `Math.min(10000, 500 * 2 ** retryCount)`. */
  function Backoff(retry: nat): (d: nat)
    ensures BaseDelayMs <= d <= MaxDelayMs
  {
    if BaseDelayMs * Pow2(retry) < MaxDelayMs then BaseDelayMs * Pow2(retry) else MaxDelayMs
  }

  /** `Math.min(retryCount + 1, 6)`. */
  function NextRetry(retry: nat): nat {
    if retry + 1 < MaxRetry then retry + 1 else MaxRetry
  }

  /** The retry counter after `k` consecutive closes, starting from `retry`. */
  function RetryAfterCloses(retry: nat, k: nat): nat
    decreases k
  {
    if k == 0 then retry else RetryAfterCloses(NextRetry(retry), k - 1)
  }

  /** The delay scheduled by the `n`-th consecutive close after an open (n >= 1). */
  function NthCloseDelay(n: nat): nat
    requires n >= 1
  {
    Backoff(RetryAfterCloses(0, n - 1))
  }

  /** After `k` closes with no open in between, from a fresh counter, the
      counter is `min(k, 6)`. */
  lemma {:induction false} RetryAfterClosesFromZero(r: nat, k: nat)
    requires r <= MaxRetry
    ensures RetryAfterCloses(r, k) == if r + k < MaxRetry then r + k else MaxRetry
    decreases k
  {
    if k > 0 {
      RetryAfterClosesFromZero(NextRetry(r), k - 1);
    }
  }

  /** The delay sequence is 500, 1000, 2000, 4000, 8000 ms and then 10000 ms
      for every further close: the first reconnect waits 500 ms. */
  lemma BackoffSchedule(n: nat)
    requires n >= 1
    ensures n == 1 ==> NthCloseDelay(n) == 500
    ensures n == 2 ==> NthCloseDelay(n) == 1000
    ensures n == 3 ==> NthCloseDelay(n) == 2000
    ensures n == 4 ==> NthCloseDelay(n) == 4000
    ensures n == 5 ==> NthCloseDelay(n) == 8000
    ensures n >= 6 ==> NthCloseDelay(n) == 10000
  {
    RetryAfterClosesFromZero(0, n - 1);
    var r := RetryAfterCloses(0, n - 1);
    assert Pow2(5) == 32 && Pow2(6) == 64;
  }

  /** The `setBoxes` updater of `spawnBox`: one box more below the cap,
      otherwise the list unchanged. */
  function SpawnInto(prev: seq<FallingBox>, box: FallingBox): (next: seq<FallingBox>)
    ensures |prev| < MaxBoxes ==> next == prev + [box]
    ensures |prev| >= MaxBoxes ==> next == prev
  {
    if |prev| >= MaxBoxes then prev else prev + [box]
  }

  /** Spawning a run of boxes from a list within the cap stays within the cap,
      and from `n` boxes below the cap, `k` spawns leave `min(n + k, 30)`. */
  function SpawnAll(prev: seq<FallingBox>, boxes: seq<FallingBox>): seq<FallingBox>
    decreases |boxes|
  {
    if boxes == [] then prev else SpawnAll(SpawnInto(prev, boxes[0]), boxes[1..])
  }

  lemma {:induction false} SpawnAllCapped(prev: seq<FallingBox>, boxes: seq<FallingBox>)
    requires |prev| <= MaxBoxes
    ensures |SpawnAll(prev, boxes)| == if |prev| + |boxes| < MaxBoxes then |prev| + |boxes| else MaxBoxes
    ensures SpawnAll(prev, boxes)[..|prev|] == prev
    decreases |boxes|
  {
    if boxes != [] {
      var next := SpawnInto(prev, boxes[0]);
      SpawnAllCapped(next, boxes[1..]);
      assert next[..|prev|] == prev;
    }
  }

  /** `boxSize`: a tenth of the viewport width (1 when the width is not
      positive), clamped to [0.5, 1]. */
  function BoxSize(viewportWidth: real): (size: real)
    ensures 0.5 <= size <= 1.0
    ensures viewportWidth > 0.0 && 0.5 <= viewportWidth / 10.0 <= 1.0 ==> size == viewportWidth / 10.0
    ensures viewportWidth <= 0.0 ==> size == 1.0
    ensures viewportWidth / 10.0 > 1.0 ==> size == 1.0
    ensures viewportWidth > 0.0 && viewportWidth / 10.0 < 0.5 ==> size == 0.5
  {
    var base := if viewportWidth > 0.0 then viewportWidth / 10.0 else 1.0;
    var atLeast := if base > 0.5 then base else 0.5;
    if atLeast < 1.0 then atLeast else 1.0
  }

  /** State of the socket held in `wsRef`. */
  datatype SocketState = NoSocket | Connecting | Open | Closing | Closed {
    predicate Live() { Connecting? || Open? }
  }

  /** The state of one mounted `WorkClickPhysics`: its `boxes` state, the refs
      (`lastSeqRef`, `retryRef`, `reconnectTimerRef`, `wsRef`,
      `shouldReconnectRef`, `autoSpawnStartedRef`), the connection effect's
      `disposed` flag, and the auto-spawn interval with its `runCount`. */
  class WorkClickFeed {
    var boxes: seq<FallingBox>
    var lastSeq: real
    var retry: nat
    /** A reconnect timer is scheduled and has neither fired nor been cleared. */
    var timerPending: bool
    /** Delay of the most recently scheduled reconnect. */
    var lastDelay: nat
    var socket: SocketState
    var disposed: bool
    var shouldReconnect: bool
    /** How many times `onSpawnEnded` has been called. */
    var spawnEndedCalls: nat
    /** How many sockets `connect` has opened. */
    var connects: nat
    var autoSpawnStarted: bool
    /** The auto-spawn interval is armed. */
    var autoSpawnActive: bool
    /** The `works` the auto-spawn closure captured. */
    var autoSpawnWorks: seq<string>
    var autoSpawnRuns: nat

    ghost predicate Valid()
      reads this
    {
      && retry <= MaxRetry
      && |boxes| <= MaxBoxes
      && (timerPending ==> socket.Closed? && !disposed && shouldReconnect)
      && spawnEndedCalls == (if shouldReconnect then 0 else 1)
      && (!shouldReconnect ==> |boxes| == MaxBoxes)
      && autoSpawnRuns <= AutoSpawnCount
      && (autoSpawnActive ==> autoSpawnStarted && autoSpawnRuns < AutoSpawnCount && autoSpawnWorks != [])
    }

    /** The initial state of a mounted component, before its effects run. */
    constructor ()
      ensures Valid()
      ensures boxes == [] && lastSeq == 0.0 && retry == 0 && !timerPending
      ensures socket == NoSocket && !disposed && shouldReconnect && spawnEndedCalls == 0
      ensures connects == 0 && !autoSpawnStarted && !autoSpawnActive && autoSpawnRuns == 0
      ensures lastDelay == 0 && autoSpawnWorks == []
    {
      boxes := [];
      lastSeq := 0.0;
      retry := 0;
      timerPending := false;
      lastDelay := 0;
      socket := NoSocket;
      disposed := false;
      shouldReconnect := true;
      spawnEndedCalls := 0;
      connects := 0;
      autoSpawnStarted := false;
      autoSpawnActive := false;
      autoSpawnWorks := [];
      autoSpawnRuns := 0;
    }

    /** `connect`: a no-op once disposed, otherwise a new socket that is
        connecting. Called on mount and by the reconnect timer, never while a
        socket is live or another reconnect is pending. */
    method Connect()
      requires Valid()
      requires (socket.NoSocket? || socket.Closed?) && !timerPending
      modifies this
      ensures Valid()
      ensures old(disposed) ==> socket == old(socket) && connects == old(connects)
      ensures !old(disposed) ==> socket == Connecting && connects == old(connects) + 1
      ensures boxes == old(boxes) && lastSeq == old(lastSeq) && retry == old(retry)
      ensures timerPending == old(timerPending) && disposed == old(disposed)
      ensures shouldReconnect == old(shouldReconnect) && spawnEndedCalls == old(spawnEndedCalls)
      ensures autoSpawnActive == old(autoSpawnActive) && autoSpawnRuns == old(autoSpawnRuns)
      ensures autoSpawnStarted == old(autoSpawnStarted) && autoSpawnWorks == old(autoSpawnWorks)
      ensures lastDelay == old(lastDelay)
    {
      if disposed {
        return;
      }
      socket := Connecting;
      connects := connects + 1;
    }

    /** The reconnect timer fires and calls `connect`. */
    method ReconnectTimerFires()
      requires Valid() && timerPending
      modifies this
      ensures Valid() && !timerPending
      ensures socket == Connecting && connects == old(connects) + 1
      ensures boxes == old(boxes) && lastSeq == old(lastSeq) && retry == old(retry)
      ensures lastDelay == old(lastDelay) && disposed == old(disposed)
      ensures shouldReconnect == old(shouldReconnect) && spawnEndedCalls == old(spawnEndedCalls)
      ensures autoSpawnStarted == old(autoSpawnStarted) && autoSpawnActive == old(autoSpawnActive)
      ensures autoSpawnRuns == old(autoSpawnRuns) && autoSpawnWorks == old(autoSpawnWorks)
    {
      timerPending := false;
      Connect();
    }

    /** `ws.onopen`: the retry counter goes back to 0. */
    method OnOpen()
      requires Valid() && socket.Connecting?
      modifies this
      ensures Valid()
      ensures socket == Open && retry == 0
      ensures boxes == old(boxes) && lastSeq == old(lastSeq) && timerPending == old(timerPending)
      ensures disposed == old(disposed) && shouldReconnect == old(shouldReconnect)
      ensures spawnEndedCalls == old(spawnEndedCalls) && connects == old(connects) && lastDelay == old(lastDelay)
      ensures autoSpawnStarted == old(autoSpawnStarted) && autoSpawnActive == old(autoSpawnActive)
      ensures autoSpawnRuns == old(autoSpawnRuns) && autoSpawnWorks == old(autoSpawnWorks)
    {
      socket := Open;
      retry := 0;
    }

    /** `ws.onmessage` (browsers deliver messages only to an open socket): an
        accepted frame moves the watermark to its seq and spawns one box for
        its work; any other frame changes nothing. */
    method OnMessage(frame: Frame, boxId: string)
      requires Valid() && socket.Open?
      modifies this
      ensures Valid()
      ensures lastSeq == NextWatermark(old(lastSeq), frame)
      ensures Gate(frame, old(lastSeq)).Accept? ==>
        boxes == SpawnInto(old(boxes), FallingBox(boxId, Gate(frame, old(lastSeq)).workId))
      ensures Gate(frame, old(lastSeq)).Ignore? ==> boxes == old(boxes)
      ensures retry == old(retry) && timerPending == old(timerPending) && socket == old(socket)
      ensures disposed == old(disposed) && shouldReconnect == old(shouldReconnect)
      ensures spawnEndedCalls == old(spawnEndedCalls) && connects == old(connects) && lastDelay == old(lastDelay)
      ensures autoSpawnActive == old(autoSpawnActive) && autoSpawnRuns == old(autoSpawnRuns)
      ensures autoSpawnStarted == old(autoSpawnStarted) && autoSpawnWorks == old(autoSpawnWorks)
    {
      var verdict := Gate(frame, lastSeq);
      if verdict.Ignore? {
        return;
      }
      lastSeq := verdict.seqNo;
      Spawn(verdict.workId, boxId);
    }

    /** `ws.onerror`: closes the socket; the close event that follows runs
        the reconnect logic, so errors and closes are handled alike. */
    method OnError()
      requires Valid() && !socket.NoSocket?
      modifies this
      ensures Valid()
      ensures socket == if old(socket).Live() then Closing else old(socket)
      ensures boxes == old(boxes) && lastSeq == old(lastSeq) && retry == old(retry)
      ensures timerPending == old(timerPending) && disposed == old(disposed) && lastDelay == old(lastDelay)
      ensures shouldReconnect == old(shouldReconnect) && spawnEndedCalls == old(spawnEndedCalls)
      ensures connects == old(connects)
      ensures autoSpawnStarted == old(autoSpawnStarted) && autoSpawnActive == old(autoSpawnActive)
      ensures autoSpawnRuns == old(autoSpawnRuns) && autoSpawnWorks == old(autoSpawnWorks)
    {
      if socket.Live() {
        socket := Closing;
      }
    }

    /** `ws.onclose`: unless disposed or ended, schedules a reconnect after
        `min(10000, 500 * 2^retry)` ms and bumps the counter, capped at 6. */
    method OnClose()
      requires Valid() && (socket.Live() || socket.Closing?)
      modifies this
      ensures Valid() && socket == Closed
      ensures (old(disposed) || !old(shouldReconnect)) ==>
        !timerPending && retry == old(retry) && lastDelay == old(lastDelay)
      ensures !old(disposed) && old(shouldReconnect) ==>
        timerPending && lastDelay == Backoff(old(retry)) && retry == NextRetry(old(retry))
      ensures boxes == old(boxes) && lastSeq == old(lastSeq) && connects == old(connects)
      ensures disposed == old(disposed) && shouldReconnect == old(shouldReconnect)
      ensures spawnEndedCalls == old(spawnEndedCalls)
      ensures autoSpawnStarted == old(autoSpawnStarted) && autoSpawnActive == old(autoSpawnActive)
      ensures autoSpawnRuns == old(autoSpawnRuns) && autoSpawnWorks == old(autoSpawnWorks)
    {
      socket := Closed;
      if disposed || !shouldReconnect {
        return;
      }
      var retryCount := retry;
      lastDelay := Backoff(retryCount);
      retry := NextRetry(retryCount);
      timerPending := true;
    }

    /** The effect cleanup: marks the connection disposed, clears the pending
        reconnect timer and closes the socket. */
    method Dispose()
      requires Valid()
      modifies this
      ensures Valid()
      ensures disposed && !timerPending
      ensures socket == if old(socket).Live() then Closing else old(socket)
      ensures boxes == old(boxes) && lastSeq == old(lastSeq) && retry == old(retry)
      ensures shouldReconnect == old(shouldReconnect) && connects == old(connects)
      ensures spawnEndedCalls == old(spawnEndedCalls) && lastDelay == old(lastDelay)
      ensures autoSpawnStarted == old(autoSpawnStarted) && autoSpawnActive == old(autoSpawnActive)
      ensures autoSpawnRuns == old(autoSpawnRuns) && autoSpawnWorks == old(autoSpawnWorks)
    {
      disposed := true;
      timerPending := false;
      if socket.Live() {
        socket := Closing;
      }
    }

    /** `spawnBox(workId)` with the random box id as a parameter. */
    method Spawn(workId: JsValue, boxId: string)
      requires Valid()
      modifies this`boxes
      ensures Valid()
      ensures boxes == SpawnInto(old(boxes), FallingBox(boxId, workId))
    {
      boxes := SpawnInto(boxes, FallingBox(boxId, workId));
    }

    /** The cap-reached effect: the first time the population is at the cap,
        reconnection stops, `onSpawnEnded` is called, the timer is cleared and
        the socket closed. Afterwards it does nothing. */
    method CheckCap()
      requires Valid()
      modifies this
      ensures Valid()
      ensures old(|boxes| >= MaxBoxes && shouldReconnect) ==>
        !shouldReconnect && spawnEndedCalls == 1 && !timerPending
        && socket == (if old(socket).Live() then Closing else old(socket))
      ensures !old(|boxes| >= MaxBoxes && shouldReconnect) ==>
        shouldReconnect == old(shouldReconnect) && spawnEndedCalls == old(spawnEndedCalls)
        && timerPending == old(timerPending) && socket == old(socket)
      ensures spawnEndedCalls <= 1
      ensures boxes == old(boxes) && lastSeq == old(lastSeq) && retry == old(retry)
      ensures disposed == old(disposed) && connects == old(connects) && lastDelay == old(lastDelay)
      ensures autoSpawnStarted == old(autoSpawnStarted) && autoSpawnActive == old(autoSpawnActive)
      ensures autoSpawnRuns == old(autoSpawnRuns) && autoSpawnWorks == old(autoSpawnWorks)
    {
      if |boxes| < MaxBoxes {
        return;
      }
      if !shouldReconnect {
        return;
      }
      shouldReconnect := false;
      spawnEndedCalls := spawnEndedCalls + 1;
      timerPending := false;
      if socket.Live() {
        socket := Closing;
      }
    }

    /** The auto-spawn effect: starts the interval once, and only when there
        are works. */
    method StartAutoSpawn(works: seq<string>)
      requires Valid()
      modifies this
      ensures Valid()
      ensures old(autoSpawnStarted) || works == [] ==>
        autoSpawnStarted == old(autoSpawnStarted) && autoSpawnActive == old(autoSpawnActive)
        && autoSpawnRuns == old(autoSpawnRuns) && autoSpawnWorks == old(autoSpawnWorks)
      ensures !old(autoSpawnStarted) && works != [] ==>
        autoSpawnStarted && autoSpawnActive && autoSpawnRuns == 0 && autoSpawnWorks == works
      ensures boxes == old(boxes) && shouldReconnect == old(shouldReconnect) && socket == old(socket)
      ensures spawnEndedCalls == old(spawnEndedCalls)
      ensures lastSeq == old(lastSeq) && retry == old(retry) && timerPending == old(timerPending)
      ensures lastDelay == old(lastDelay) && disposed == old(disposed) && connects == old(connects)
    {
      if autoSpawnStarted {
        return;
      }
      if works == [] {
        return;
      }
      autoSpawnStarted := true;
      autoSpawnRuns := 0;
      autoSpawnWorks := works;
      autoSpawnActive := true;
    }

    /** One interval tick with the random index as a parameter: spawns a box
        for that work, and clears the interval after the fifth spawn. */
    method AutoSpawnTick(index: nat, boxId: string)
      requires Valid() && autoSpawnActive
      modifies this
      ensures Valid()
      ensures index >= |old(autoSpawnWorks)| ==>
        boxes == old(boxes) && autoSpawnRuns == old(autoSpawnRuns) && autoSpawnActive
      ensures index < |old(autoSpawnWorks)| ==>
        && boxes == SpawnInto(old(boxes), FallingBox(boxId, JsString(old(autoSpawnWorks)[index])))
        && autoSpawnRuns == old(autoSpawnRuns) + 1
        && autoSpawnActive == (autoSpawnRuns < AutoSpawnCount)
      ensures autoSpawnStarted && autoSpawnWorks == old(autoSpawnWorks)
      ensures shouldReconnect == old(shouldReconnect) && socket == old(socket)
      ensures spawnEndedCalls == old(spawnEndedCalls)
      ensures lastSeq == old(lastSeq) && retry == old(retry) && timerPending == old(timerPending)
      ensures lastDelay == old(lastDelay) && disposed == old(disposed) && connects == old(connects)
    {
      if index >= |autoSpawnWorks| {
        return;
      }
      Spawn(JsString(autoSpawnWorks[index]), boxId);
      autoSpawnRuns := autoSpawnRuns + 1;
      if autoSpawnRuns >= AutoSpawnCount {
        autoSpawnActive := false;
      }
    }

    /** The auto-spawn effect's cleanup (unmount, or a new `works` list): the
        interval is cleared and, since it has started once, never restarts. */
    method AutoSpawnCleanup()
      requires Valid()
      modifies this
      ensures Valid() && !autoSpawnActive
      ensures autoSpawnStarted == old(autoSpawnStarted) && autoSpawnRuns == old(autoSpawnRuns)
      ensures boxes == old(boxes) && shouldReconnect == old(shouldReconnect) && socket == old(socket)
      ensures autoSpawnWorks == old(autoSpawnWorks) && spawnEndedCalls == old(spawnEndedCalls)
      ensures lastSeq == old(lastSeq) && retry == old(retry) && timerPending == old(timerPending)
      ensures lastDelay == old(lastDelay) && disposed == old(disposed) && connects == old(connects)
    {
      autoSpawnActive := false;
    }
  }

  /** After dispose, the close
      event that follows schedules nothing and `connect` opens nothing. */
  method DisposeStopsReconnecting(feed: WorkClickFeed)
    requires feed.Valid() && feed.socket.Open?
    modifies feed
    ensures feed.socket == Closed && !feed.timerPending
    ensures feed.connects == old(feed.connects)
  {
    feed.Dispose();
    feed.OnClose();
    feed.Connect();
  }
}
