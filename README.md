# Portfolio site core, modelled in Dafny

This project models the logic of a portfolio site. It has three parts:

- **Go backend.** A rate-limited click endpoint whose accepted clicks are broadcast over a WebSocket hub with a 64-bit sequence counter. The work create and update handlers, which normalise their requests. Origin, admin-secret and environment rules.
- **Realtime world on the home page.** A client that gates the click feed by sequence number, reconnects with capped exponential back-off, spawns falling boxes up to a cap of 30 and runs a five-shot welcome spawner.
- **Console editors and helpers.** Tech-stack and image selection toggles, the link editor, the upload status list, the form initialiser, hex-colour parsing and printing, the e-mail allow-list, the console route gate, the admin proxy route and the works store. There are also small animation state machines: in-view activation and a clamped transition.

Each source file has its own module, and modules import one another the way the source files do.

- **Pure code** (validators, list transformations, codecs) is written as functions. Lemmas state what those functions promise.
- **Code that updates state** is written as classes, with fields, `modifies` clauses and methods:
  - React refs and state setters, for example `WorkClickPhysics`, `useInViewAnimation`, `useTransitionState` and `useDragAndDropUploader`;
  - the Go limiter, hub and server.

  Each method's postcondition ties the new state to a specification function, or states it field by field.
- **Source loops** are `while`/`for` loops with invariants. Examples: the limiter sweep, the hub broadcast, the request-normalisation loops and the upload enqueue loop.

Some inputs become parameters, because they are outside the logic:

- clock readings;
- random numbers, UUIDs and box ids;
- database lookups, modelled as sets of known ids;
- the date parser, modelled as a predicate;
- the outcome of every network request, modelled as a datatype of results.

Where the behaviour is easy to misjudge, the model follows the code:

- The first reconnect waits 500 ms, not 1000 ms, because the retry counter starts at 0 (`RealtimeWorld.BackoffSchedule`).
- A message with sequence number 0 is never accepted by a fresh client (`RealtimeWorld.SeqZeroRejected`).
- The client tests the work id for truthiness, not for being a string, so a numeric work id is accepted and spawns a box (`RealtimeWorld.NonStringWorkIds`). The backend always sends a string.
- Public console paths match by prefix, so `/console/guestbook` is public (`ConsoleProxy.PrefixOfPublicPathPasses`).
- The three-digit colour `#abc` is accepted by the colour helper but rejected by the backend (`ColorChanger.ShortFormExample`, `WorkRequests.ShortAccentRejected`).

## Model

| member | source | states |
|---|---|---|
| RealtimeWorld.GateAcceptsExactly | frontend/src/components/realtimeWorld.tsx:229-238 | A frame is accepted iff it is a string frame that parses to a truthy value of type `work_click`, with a truthy work id (any JSON value, not only a string) and a finite seq strictly above the watermark. The accepted work id and seq are the message's own. |
| RealtimeWorld.NonStringWorkIds | frontend/src/components/realtimeWorld.tsx:234-238 | The work-id test is truthiness: a numeric work id 42 is accepted and passed on unchanged, while 0 and the empty string are ignored. |
| RealtimeWorld.NextWatermark | frontend/src/components/realtimeWorld.tsx:236-237 | The watermark never decreases. An accepted frame moves it to that frame's seq, which is above the old watermark; an ignored frame leaves it unchanged. |
| RealtimeWorld.AcceptedSeqsIncrease | frontend/src/components/realtimeWorld.tsx:236-237 | Over any run of frames, the accepted seqs are strictly increasing and all lie above the starting watermark. Replays and out-of-order messages are dropped. |
| RealtimeWorld.WatermarkExample | frontend/src/components/realtimeWorld.tsx:236-237 | Seqs 5, 3, 7, 7, 9 arriving at a fresh client accept exactly 5, 7, 9. |
| RealtimeWorld.SeqZeroRejected | frontend/src/components/realtimeWorld.tsx:236 | A well-formed frame with seq 0 is ignored by a fresh client. |
| RealtimeWorld.Backoff | frontend/src/components/realtimeWorld.tsx:247 | Every reconnect delay lies between 500 and 10000 ms. |
| RealtimeWorld.RetryAfterClosesFromZero | frontend/src/components/realtimeWorld.tsx:246-248 | After k consecutive closes from counter r ≤ 6, the counter is min(r + k, 6). |
| RealtimeWorld.BackoffSchedule | frontend/src/components/realtimeWorld.tsx:244-249 | After an open, the n-th consecutive close waits 500, 1000, 2000, 4000, 8000 ms, then 10000 ms for every later close. |
| RealtimeWorld.SpawnInto | frontend/src/components/realtimeWorld.tsx:197-211 | Below 30 boxes the new box is appended. At or above 30 the list is unchanged. |
| RealtimeWorld.SpawnAllCapped | frontend/src/components/realtimeWorld.tsx:197-211 | From a list within the cap, k spawns give min(n + k, 30) boxes and keep the old boxes as a prefix. |
| RealtimeWorld.BoxSize | frontend/src/components/realtimeWorld.tsx:130-133 | The box size lies in [0.5, 1]. It is width/10 when that is within range, and 1 for a non-positive width. It is 1 when width/10 is above 1, and 0.5 when a positive width gives width/10 below 0.5. |
| RealtimeWorld.WorkClickFeed.constructor | frontend/src/components/realtimeWorld.tsx:123-129 | The initial refs: no boxes, watermark 0, retry 0, reconnect enabled, no socket or timer. |
| RealtimeWorld.WorkClickFeed.Connect | frontend/src/components/realtimeWorld.tsx:219-223 | Once disposed, `connect` does nothing. Otherwise it opens a new connecting socket and counts it. Every other field is stated unchanged. |
| RealtimeWorld.WorkClickFeed.ReconnectTimerFires | frontend/src/components/realtimeWorld.tsx:249 | The pending timer fires and a new socket connects. Every other field is stated unchanged. |
| RealtimeWorld.WorkClickFeed.OnOpen | frontend/src/components/realtimeWorld.tsx:225-227 | An open socket resets the retry counter to 0. Every other field is stated unchanged. |
| RealtimeWorld.WorkClickFeed.OnMessage | frontend/src/components/realtimeWorld.tsx:229-242 | The watermark follows `NextWatermark`. An accepted frame spawns one box (capped) carrying the frame's work-id value, numeric ones included. An ignored frame leaves the boxes unchanged, and no other field changes either way. |
| RealtimeWorld.WorkClickFeed.OnError | frontend/src/components/realtimeWorld.tsx:252-254 | An error only starts closing a live socket; every other field is unchanged. Retry and timers are handled by the close that follows. |
| RealtimeWorld.WorkClickFeed.OnClose | frontend/src/components/realtimeWorld.tsx:244-250 | After dispose or the end of spawning, a close schedules nothing. Otherwise it schedules one reconnect after `Backoff(retry)` and moves retry to min(retry + 1, 6). Every other field is stated unchanged. |
| RealtimeWorld.WorkClickFeed.Dispose | frontend/src/components/realtimeWorld.tsx:259-265 | The cleanup marks the feed disposed, leaves no timer pending and closes a live socket. Every other field is stated unchanged. |
| RealtimeWorld.WorkClickFeed.Spawn | frontend/src/components/realtimeWorld.tsx:175-214 | The box list becomes `SpawnInto` of the old list. |
| RealtimeWorld.WorkClickFeed.CheckCap | frontend/src/components/realtimeWorld.tsx:268-277 | The first time the population reaches the cap, reconnection stops, `onSpawnEnded` is called once, the timer is cleared and the socket closes. Otherwise nothing changes. `onSpawnEnded` is never called twice. The connection fields and the auto-spawn fields are stated unchanged. |
| RealtimeWorld.WorkClickFeed.StartAutoSpawn | frontend/src/components/realtimeWorld.tsx:279-295 | The interval starts only on the first run with a non-empty works list. Otherwise nothing changes. The boxes and every connection field are stated unchanged. |
| RealtimeWorld.WorkClickFeed.AutoSpawnTick | frontend/src/components/realtimeWorld.tsx:284-293 | An index within the list spawns a box for that work and counts the run. The fifth run clears the interval. An index past the end does nothing. Every connection field is stated unchanged. |
| RealtimeWorld.WorkClickFeed.AutoSpawnCleanup | frontend/src/components/realtimeWorld.tsx:296 | The interval is cleared and the started flag stays, so it never restarts. The captured works, the boxes and every connection field are stated unchanged. |
| RealtimeWorld.DisposeStopsReconnecting | frontend/src/components/realtimeWorld.tsx:244-265 | After dispose, the close that follows leaves the socket closed, no timer pending and no new connection. |
| ClickLimiting.RejectedIffTooSoon | backend/main.go:132-134 | A click is rejected iff its key was recorded less than `minInterval` ago. A rejection leaves the map and the last-sweep time unchanged. |
| ClickLimiting.AllowedRecordsNow | backend/main.go:135-145 | An allowed click records `now` for its key, and the sweep never removes that key. |
| ClickLimiting.OtherKeysOnlyExpire | backend/main.go:135-145 | No key is added. Another key either keeps its time, or is removed by a sweep because its time is before `now - 10·minInterval`. |
| ClickLimiting.SweepKeepsExactlyFresh | backend/main.go:137-145 | A sweep runs only when the map exceeds `maxEntries` or `cleanupInterval` has passed. It then keeps exactly the entries not older than `now - 10·minInterval` and sets the last-sweep time to `now`. When it is not due, the map is the old one with the click recorded and the last-sweep time stays. |
| ClickLimiting.AcceptedClicksSpaced | backend/main.go:132-135 | Two accepted clicks with the same key are at least `minInterval` apart. |
| ClickLimiting.ClickLimiter.constructor | backend/main.go:111-119 | A new limiter has an empty map, the given settings, and the last sweep at the creation time. |
| ClickLimiting.ClickLimiter.IsAllowedClick | backend/main.go:121-148 | The answer and the new map and sweep time are those of `Decide`, with the sweep loop deleting one key at a time. |
| WsHubs.BroadcastEffect | backend/main.go:194-213 | A broadcast evicts exactly the registered clients whose 32-slot channel is full. It appends the message to every other registered client, never overfills a channel, and leaves unregistered channels alone. |
| WsHubs.BroadcastsInOrder | backend/main.go:194-213 | A client with room for two messages survives both broadcasts and receives both messages in order. |
| WsHubs.WsHub.constructor | backend/main.go:167-169 | A new hub has no clients and no channels. |
| WsHubs.WsHub.Add | backend/main.go:171-180 | `Add` registers a new client with a fresh, empty channel. Nothing else changes. |
| WsHubs.WsHub.Remove | backend/main.go:182-192 | Removing a nil or unregistered client changes nothing, so removal is idempotent. A registered client is unregistered and its open channel is closed. |
| WsHubs.WsHub.Broadcast | backend/main.go:194-213 | The new clients are the `Survivors` and the channels are `Enqueued`. Exactly the evicted clients get their channel and their connection closed. |
| WsHubs.WsHub.Receive | backend/main.go:324-330 | The writer takes the oldest queued message (FIFO). A closed, drained channel yields none. Registration is unchanged. |
| Backend.NextSeq | backend/main.go:692 | The counter moves up by one, modulo 2^64. |
| Backend.Server.constructor | backend/main.go:215-296 | A new server has counter 0 and no stored clicks. |
| Backend.Server.BroadcastWorkClick | backend/main.go:688-703 | With no hub nothing changes. Otherwise the counter becomes `NextSeq`, and a `work_click` event carrying the new value is broadcast as `WsHub.Broadcast` specifies: the surviving clients, their queues, and the dropped clients added to the closed sends and closed connections. |
| Backend.Server.HandleCreateWorkClick | backend/main.go:705-728 | Status 400 iff the trimmed id is blank. 202 iff the limiter (keyed with `unknown` for an empty IP) rejects. 500 iff the insert fails. 201 otherwise, and only then is the click stored and broadcast with the next seq, with the hub's full broadcast effect. On every other status the counter, the store and the whole hub are unchanged. The limiter state follows `Decide`. |
| Backend.TwoAcceptedClicks | backend/main.go:688-728 | Without a limiter, two clicks with non-blank ids both return 201, are stored in order, and advance the counter by 2. |
| Backend.CorsOrigins | backend/main.go:1143-1155 | The origin list is `["*"]` iff the value is empty or `*`. Otherwise it is exactly the untrimmed value. |
| Backend.CheckOrigin | backend/main.go:358-369 | After trimming, an empty value or `*` accepts every request. Otherwise the request is accepted iff the `Origin` header equals the trimmed value. |
| Backend.PaddedStarDisagrees | backend/main.go:358-369 | For `" *"`, CORS allows only the literal `" *"`, while the WebSocket check accepts every origin. |
| Backend.RequireAdmin | backend/main.go:372-380 | The request passes iff the header is non-empty and equals the configured secret. An empty secret admits nobody. |
| Backend.GetEnv | backend/main.go:1136-1141 | The result is the variable's value when it is set and non-empty, and the fallback otherwise. |
| WorkRequests.NormalizeAccent | backend/main.go:747-754 | A colour is accepted iff it is blank after trimming or its trimmed, lower-cased form matches `#` and six hex digits. A non-blank accepted colour is that trimmed, lower-cased form, and every accepted colour is a lower-case `#rrggbb`. |
| WorkRequests.AccentIdempotent | backend/main.go:747-754 | Normalising an accepted colour again returns it unchanged. |
| WorkRequests.BlankAccentDefaults | backend/main.go:748-750 | A blank colour is stored as `#000000`. |
| WorkRequests.AccentExample | backend/main.go:747-754 | `"  #ABCDEF "` is stored as `#abcdef`. |
| WorkRequests.ShortAccentRejected | backend/main.go:752-754 | The short form `#abc` is rejected. |
| WorkRequests.ImageIds | backend/main.go:779-788 | The kept image ids are non-blank and no more numerous than the entries. |
| WorkRequests.ImageIdsAppend | backend/main.go:781-788 | The image-id filter distributes over concatenation, and a single entry contributes its trimmed value, or nothing when blank. Together these fix the result: trimmed, blanks dropped, duplicates kept, in order. |
| WorkRequests.ImageIdsKeepAll | backend/main.go:779-788 | Without blank entries, every entry is kept trimmed, position by position, duplicates included. |
| WorkRequests.CollectImageIds | backend/main.go:779-789 | The loop returns `ImageIds` and exactly the set of those ids. |
| WorkRequests.TechIds | backend/main.go:805-817 | The kept tech ids are non-blank and no more numerous than the entries. |
| WorkRequests.FirstTrimmedIndex | backend/main.go:807-816 | The index of the first entry that trims to x is within the list bounds. |
| WorkRequests.TechIdsDistinctAndComplete | backend/main.go:805-817 | The kept tech ids are distinct, and are exactly the non-blank trimmed entries. |
| WorkRequests.FirstTrimmedIndexFound | backend/main.go:807-816 | The search finds an entry iff one trims to x. The entry found trims to x and no earlier one does. |
| WorkRequests.TechIdsFirstOccurrenceOrder | backend/main.go:805-817 | The kept tech ids are in the order of their first occurrence in the request. |
| WorkRequests.CollectTechIds | backend/main.go:805-817 | The loop returns `TechIds`. |
| WorkRequests.FilteredUrls | backend/main.go:827-841 | The kept links all have a non-blank label and url, and there are no more of them than entries. |
| WorkRequests.FilteredUrlsSnoc | backend/main.go:828-841 | One loop step: after an earlier rejection or a half-blank entry the list is rejected, a both-blank entry is skipped, and any other entry is appended with both fields trimmed. |
| WorkRequests.FilteredUrlsAppend | backend/main.go:827-841 | The URL filter accepts a concatenation iff it accepts both parts, and then keeps both parts' links in order. A single entry is skipped when both fields are blank, rejects the list when one is, and is otherwise kept with both fields trimmed. |
| WorkRequests.FilteredUrlsRejectIff | backend/main.go:827-841 | The URL list is rejected iff some entry has exactly one of label and url blank. |
| WorkRequests.FilterUrls | backend/main.go:827-841 | The loop, which stops at the first half-blank entry, returns `FilteredUrls`. |
| WorkRequests.NoneStaysNone | backend/main.go:834-836 | A rejected prefix makes the whole list rejected. |
| WorkRequests.NumberImages | backend/main.go:864-876 | Row k holds image k with display order k. |
| WorkRequests.NumberUrls | backend/main.go:878-891 | Row k holds link k with display order k. |
| WorkRequests.ImageRows | backend/main.go:864-876 | Row k holds image k with display order k. |
| WorkRequests.UrlRows | backend/main.go:878-891 | Row k holds link k with display order k. |
| WorkRequests.CheckScalars | backend/main.go:737-775 | The checks pass iff the trimmed title, comment, date and thumbnail id are non-blank, the colour is accepted and the date is valid. Every failure is a 400. On success, the fields are trimmed, the colour is the normalised lower-case `#rrggbb`, and the description is absent iff blank and otherwise trimmed. |
| WorkRequests.UpdateNormalisesAsCreate | backend/main.go:925-1036 | For an existing, non-blank work id, update answers as create does, with 200 in place of 201. |
| WorkRequests.SavedWorkNormalised | backend/main.go:737-911 | A saved work is normalised throughout: trimmed non-blank title and comment, a lower-case `#rrggbb` colour, known images numbered by position, at least one known and distinct tech id, and complete links numbered by position. |
| WorkRequests.BlankTechIdsRejected | backend/main.go:818-820 | A request whose tech ids are all blank is rejected with 400. |
| WorkRequests.CreateWorkSavedIff | backend/main.go:731-912 | A work is stored iff the scalar checks pass, every image id and the thumbnail are known, at least one tech id remains and all are known, and no URL entry is half blank. The stored work is the checked scalars with the numbered image and URL rows and the de-duplicated tech ids, answered with 201. |
| WorkRequests.AllBlankNoTechIds | backend/main.go:805-817 | All-blank entries keep no tech id. |
| WorkRequests.RunLists | backend/main.go:779-891 | The list loops and checks give the outcome `CheckLists` specifies. |
| WorkRequests.HandleCreateWork | backend/main.go:731-912 | The handler's answer is `CreateWork`. |
| WorkRequests.HandleUpdateWork | backend/main.go:914-1108 | The handler's answer is `UpdateWork`: the path id is checked first, and the work's existence after the scalar fields. |
| SelectingCube.SelectingCubeState.constructor | frontend/src/contexts/selectingCubeContext.tsx:28-30 | Nothing is hovered or clicked, and the nonce is 0. |
| SelectingCube.SelectingCubeState.EmitCubeClick | frontend/src/contexts/selectingCubeContext.tsx:32-35 | The clicked id becomes the id and the nonce goes up by exactly 1. The hover id is unchanged. |
| SelectingCube.SelectingCubeState.SetSelectingCubeId | frontend/src/contexts/selectingCubeContext.tsx:28 | Only the hover id changes. |
| SelectingCube.SelectingCubeState.PointerEnter | frontend/src/components/realtimeWorld.tsx:96-101 | The hover id becomes the box's work id. Clicks are unchanged. |
| SelectingCube.SelectingCubeState.PointerLeave | frontend/src/components/realtimeWorld.tsx:102-107 | The hover id becomes null. Clicks are unchanged. |
| SelectingCube.SelectingCubeState.BoxClick | frontend/src/components/realtimeWorld.tsx:108-111 | Clicking a box emits a cube click for its work. |
| SelectingCube.RepeatedClicks | frontend/src/contexts/selectingCubeContext.tsx:32-35 | Two clicks on the same box give distinct, strictly increasing nonces. |
| WorksList.ToInt32 | frontend/src/components/works/list.tsx:230 | `x \| 0` is the signed 32-bit value congruent to x modulo 2^32. |
| WorksList.ToUint32 | frontend/src/components/works/list.tsx:232 | `x >>> 0` is the unsigned 32-bit value congruent to x modulo 2^32. |
| WorksList.Hash | frontend/src/components/works/list.tsx:228-231 | The hash is always a signed 32-bit integer. |
| WorksList.DelayFromId | frontend/src/components/works/list.tsx:227-233 | The delay lies in [0, maxDelay] and equals the unsigned hash modulo maxDelay + 1. The empty id gives 0. |
| WorksList.ToggleSelection | frontend/src/components/works/list.tsx:321-322 | Clicking the selected card clears the selection. Clicking any other card selects it. |
| WorksList.SelectionMachine | frontend/src/components/works/list.tsx:321-322 | Unselected goes to a on a click on a. a goes to unselected on a second click on a. a goes to b on a click on b. |
| WorksList.CardVisibleIff | frontend/src/components/works/list.tsx:320 | A card is visible iff nothing is selected or it is the selected card. |
| WorksList.OnlySelectedVisible | frontend/src/components/works/list.tsx:320 | With a card selected, exactly that card stays visible. |
| WorksList.FindSelected | frontend/src/components/works/list.tsx:387-389 | A found work has the selected id and comes from the list. No match means no work has that id. |
| WorksList.FindSelectedFirst | frontend/src/components/works/list.tsx:387-389 | The found work is the first one with the selected id. |
| WorksList.CloseSelection | frontend/src/components/works/list.tsx:482 | CLOSE makes the selection undefined. |
| WorksList.CloseShowsAll | frontend/src/components/works/list.tsx:482 | After CLOSE every card is visible and no work is shown in detail. |
| TransitionState.NextProgress | frontend/src/hooks/useTransitionState.ts:65-69 | One step's progress never exceeds 1, never decreases for a non-negative delta, and reaches 1 iff progress + delta/duration ≥ 1. |
| TransitionState.ProgressAfterIsCappedSum | frontend/src/hooks/useTransitionState.ts:56-78 | From progress p ≤ 1, with non-negative steps, the progress is min(1, p + total elapsed / duration). A transition from 0 completes once `duration` ms have elapsed. |
| TransitionState.Transition.constructor | frontend/src/hooks/useTransitionState.ts:21-27 | The initial snapshot: from = to = value = initial, progress 1, duration max(1, durationMs). |
| TransitionState.Transition.JumpTo | frontend/src/hooks/useTransitionState.ts:29-37 | The value, from and to become x, and progress becomes 1. The duration is unchanged. |
| TransitionState.Transition.StartTransition | frontend/src/hooks/useTransitionState.ts:39-54 | Immediate mode is `JumpTo`. Otherwise from becomes the current value, to becomes x and progress 0, with value and duration unchanged. |
| TransitionState.Transition.Step | frontend/src/hooks/useTransitionState.ts:56-80 | A settled transition yields `to`. Otherwise the progress advances by delta/duration, capped at 1, and the value is the mapping at the new progress. |
| TransitionState.Transition.GetProgress | frontend/src/hooks/useTransitionState.ts:82 | The current progress, which never exceeds 1. |
| TransitionState.Transition.GetValue | frontend/src/hooks/useTransitionState.ts:84 | The current value, with no state change. |
| ColorChanger.RemoveFirst | frontend/src/lib/sketch/colorChanger.ts:2 | `replace("#", "")` with a `#` present removes one character. Without a `#` the string is unchanged. |
| ColorChanger.RemoveFirstAt | frontend/src/lib/sketch/colorChanger.ts:2 | The character removed is the first `#`: everything before it and everything after it is kept. |
| ColorChanger.HexDigit | frontend/src/lib/sketch/colorChanger.ts:11 | A radix-16 digit's value lies in 0-15. |
| ColorChanger.ParseIntHex | frontend/src/lib/sketch/colorChanger.ts:11 | A number parsed from n code units has magnitude below 16^n. |
| ColorChanger.Channels | frontend/src/lib/sketch/colorChanger.ts:12 | Each channel of the shift-and-mask lies in 0-255. |
| ColorChanger.Doubled | frontend/src/lib/sketch/colorChanger.ts:7-9 | The result is twice as long, with code unit i repeated at 2i and 2i + 1. |
| ColorChanger.HexToRgb | frontend/src/lib/sketch/colorChanger.ts:1-13 | `hexToRgb` throws iff the body is neither 3 nor 6 UTF-16 units long. Otherwise every channel lies in 0-255. |
| ColorChanger.ClampChannel | frontend/src/lib/sketch/colorChanger.ts:17 | The clamped channel lies in 0-255, and equals the rounded value when that is in range. |
| ColorChanger.DigitChar | frontend/src/lib/sketch/colorChanger.ts:18 | Each digit prints as one lower-case hex character of that value. |
| ColorChanger.To2 | frontend/src/lib/sketch/colorChanger.ts:16-19 | `to2` always gives exactly two characters. |
| ColorChanger.RgbToHex | frontend/src/lib/sketch/colorChanger.ts:15-21 | The result is `#` followed by six lower-case hex digits. |
| ColorChanger.PrintedUnits | frontend/src/lib/sketch/colorChanger.ts:15-21 | `hexToRgb` reads exactly the six printed digits back from a printed colour. |
| ColorChanger.PrintedDigits | frontend/src/lib/sketch/colorChanger.ts:16-19 | The printed digits of integer channels 0-255 are their high and low nibbles. |
| ColorChanger.HexValueOfSix | frontend/src/lib/sketch/colorChanger.ts:11 | Six hex digits denote their place-value sum. |
| ColorChanger.ParseSixDigits | frontend/src/lib/sketch/colorChanger.ts:11 | A six-digit body parses to the number the digits denote. |
| ColorChanger.ChannelsOfPacked | frontend/src/lib/sketch/colorChanger.ts:12 | The channels of r·2^16 + g·2^8 + b are r, g, b. |
| ColorChanger.PackedDigits | frontend/src/lib/sketch/colorChanger.ts:11-12 | Six digits holding the nibbles of r, g, b parse back to r, g, b. |
| ColorChanger.RoundTrip | frontend/src/lib/sketch/colorChanger.ts:1-21 | `hexToRgb(rgbToHex(r, g, b))` returns r, g, b for every byte triple. |
| ColorChanger.DoubledDigits | frontend/src/lib/sketch/colorChanger.ts:4-12 | Three doubled digits parse to channels of 17 times each digit. |
| ColorChanger.ShortFormDoubles | frontend/src/lib/sketch/colorChanger.ts:4-12 | A three-digit body reads like its doubled six-digit form: each channel is its digit times 17. |
| ColorChanger.ShortFormExample | frontend/src/lib/sketch/colorChanger.ts:1-13 | `#abc` reads as (170, 187, 204), the value of `#aabbcc`. |
| ColorChanger.WrongLengthThrows | frontend/src/lib/sketch/colorChanger.ts:3 | `#abcd` throws. |
| ColorChanger.ClampAmount | frontend/src/lib/sketch/colorChanger.ts:24 | The amount is clamped to [0, 1]. |
| ColorChanger.LightenHex | frontend/src/lib/sketch/colorChanger.ts:23-30 | `lightenHex` throws exactly where `hexToRgb` throws. |
| ColorChanger.To2OfClamped | frontend/src/lib/sketch/colorChanger.ts:16-19 | Printing a real channel is printing its rounded, clamped value. |
| ColorChanger.LightenedChannelBetween | frontend/src/lib/sketch/colorChanger.ts:26-28 | A lightened channel rounds to a value between the channel and 255. |
| ColorChanger.LightenBounds | frontend/src/lib/sketch/colorChanger.ts:23-30 | Each lightened channel lies between the input channel and 255. An amount ≤ 0 gives the input colour back, and an amount ≥ 1 gives white. |
| Text.Trim | backend/main.go:737 | The trim is the slice between the first and the last non-space character. It is empty iff the string is all space, and it has no space at either end. |
| Text.TrimOfUnpadded | frontend/src/lib/auth/allowedEmails.ts:5 | A string with no space at either end is its own trim. |
| Text.LowerChar | frontend/src/lib/auth/allowedEmails.ts:5 | Each ASCII upper-case letter maps to the lower-case letter at the same distance from `a`, and every other character is unchanged. |
| Text.ToLower | frontend/src/lib/auth/allowedEmails.ts:5 | Lower-casing keeps the length and maps each character by `LowerChar`. |
| Text.Utf16 | frontend/src/components/works/list.tsx:229-230 | Every code unit is below 2^16, and there are at least as many units as characters. |
| Text.Utf16OfBmp | frontend/src/components/works/list.tsx:229-230 | Characters below U+10000 give one code unit each, equal to the character. |
| Text.Split | frontend/src/lib/auth/allowedEmails.ts:3-4 | `split` with a one-character separator never returns an empty list, and no part contains the separator. |
| Text.SplitJoin | frontend/src/lib/auth/allowedEmails.ts:3-4 | Joining the parts back with the separator gives the original string. |
| TechInfo.TechsById | frontend/src/hooks/useTechInfoGetter.ts:11-14 | The map's keys are exactly the techs' ids, and each value is a tech with its key as id. |
| TechInfo.LaterEntryWins | frontend/src/hooks/useTechInfoGetter.ts:12 | When ids repeat, the map holds the last tech with that id. |
| TechInfo.TechsInfo | frontend/src/hooks/useTechInfoGetter.ts:16-23 | No more infos than entries, and each info is the map's tech for some entry's id. |
| TechInfo.TechsInfoAppend | frontend/src/hooks/useTechInfoGetter.ts:18-21 | The lookup distributes over concatenation, so entry order is kept. |
| TechInfo.TechsInfoAllKnown | frontend/src/hooks/useTechInfoGetter.ts:18-21 | When every entry is known, the output matches the entries one for one, so repeated entries give repeated techs. |
| TechInfo.TechsInfoSkipsUnknown | frontend/src/hooks/useTechInfoGetter.ts:19-20 | Entries with unknown ids contribute nothing. |
| TechInfo.UseTechInfoGetter | frontend/src/hooks/useTechInfoGetter.ts:8-26 | Each returned tech is one of the techs, and has the id of one of the work's entries. |
| TechInfo.DuplicateTechIdExample | frontend/src/hooks/useTechInfoGetter.ts:12-20 | An entry whose id two techs share gives the later tech. |
| IdLists.Without | frontend/src/components/console/stackSelectingBox.tsx:29 | The filter keeps exactly the elements other than x. It shrinks iff x was present, and is unchanged otherwise. |
| IdLists.WithoutAppend | frontend/src/components/console/stackSelectingBox.tsx:29 | Filtering distributes over concatenation, so the kept elements stay in order. |
| IdLists.WithoutDistinct | frontend/src/components/console/stackSelectingBox.tsx:29 | Filtering a duplicate-free list keeps it duplicate-free. |
| IdLists.Toggle | frontend/src/components/console/stackSelectingBox.tsx:27-30 | The id's membership flips and every other id's is kept. An absent id is appended at the end. |
| IdLists.ToggleKeepsOthersInOrder | frontend/src/components/console/stackSelectingBox.tsx:27-30 | Toggling leaves the other ids in their relative order. |
| IdLists.ToggleTwice | frontend/src/components/console/stackSelectingBox.tsx:27-30 | Toggling an absent id twice restores the list. Toggling a present id twice moves it to the end. |
| IdLists.ToggleDistinct | frontend/src/components/console/stackSelectingBox.tsx:27-30 | Toggling keeps a list duplicate-free. |
| IdLists.IndexOf | frontend/src/components/console/imageSelectingBox.tsx:63 | The index found holds the element, and no earlier position does. |
| StackSelecting.FailureMessage | frontend/src/components/console/stackSelectingBox.tsx:58-68 | A non-OK answer shows its text, or the fallback `登録に失敗しました` when the text is empty. A thrown `Error` shows its message, and anything else shows the fallback. |
| StackSelecting.StackSelectingBox.constructor | frontend/src/components/console/stackSelectingBox.tsx:18-23 | The selection is `initialSelectedIds`, or empty when absent. The name is empty, and nothing is submitting or failed. |
| StackSelecting.StackSelectingBox.HandleToggleSelect | frontend/src/components/console/stackSelectingBox.tsx:25-35 | The toggled list is reported to `onChange` and becomes the selection. The form is unchanged. |
| StackSelecting.StackSelectingBox.SetNewStackName | frontend/src/components/console/stackSelectingBox.tsx:102 | Only the name changes. |
| StackSelecting.StackSelectingBox.HandleCreateTechStack | frontend/src/components/console/stackSelectingBox.tsx:37-56 | A name blank after trimming sets the error and sends nothing. Any other name is sent trimmed, and the form starts submitting with no error. |
| StackSelecting.StackSelectingBox.FinishCreateTechStack | frontend/src/components/console/stackSelectingBox.tsx:58-72 | On success, the techs are refreshed and the name cleared. On failure, the error becomes `FailureMessage`. Either way submitting ends. |
| StackSelecting.ClickTwice | frontend/src/components/console/stackSelectingBox.tsx:25-35 | Two clicks on an unselected tech report the list with it, then the original list. |
| ImageSelecting.NextSelectedIds | frontend/src/components/console/imageSelectingBox.tsx:43-52 | Multiple mode toggles like the stack box. Single mode selects only the clicked image. |
| ImageSelecting.SingleModeIdempotent | frontend/src/components/console/imageSelectingBox.tsx:51 | Repeating a click in single mode changes nothing. |
| ImageSelecting.NextSelectedIdsDistinct | frontend/src/components/console/imageSelectingBox.tsx:43-52 | Clicks keep a duplicate-free selection duplicate-free. |
| ImageSelecting.Badge | frontend/src/components/console/imageSelectingBox.tsx:61-65 | A badge is shown iff the mode is multiple and the image is selected. Its number is the 1-based position of the image. |
| ImageSelecting.NewSelectionGetsLastBadge | frontend/src/components/console/imageSelectingBox.tsx:61-65 | A newly selected image gets the next badge number. |
| ImageSelecting.ImageSelectingBox.constructor | frontend/src/components/console/imageSelectingBox.tsx:16-31 | Nothing is loaded or selected, and the empty selection is reported once. |
| ImageSelecting.ImageSelectingBox.ImagesLoaded | frontend/src/components/console/imageSelectingBox.tsx:19-27 | The image list is replaced. The selection is unchanged. |
| ImageSelecting.ImageSelectingBox.Click | frontend/src/components/console/imageSelectingBox.tsx:41-53 | The selection becomes `NextSelectedIds` for the clicked image and is reported. The images are unchanged. |
| WorkUrlsInput.CreateEmptyWorkUrlItem | frontend/src/components/console/workUrlsInput.tsx:12-19 | A new item has the fresh id and empty label and url. |
| WorkUrlsInput.HandleFieldChange | frontend/src/components/console/workUrlsInput.tsx:27-36 | The named field of every item with that id takes the value. Ids, order, the other field and all other items are unchanged. |
| WorkUrlsInput.FieldChangeLastWins | frontend/src/components/console/workUrlsInput.tsx:27-36 | Changing the same field twice keeps only the second value. |
| WorkUrlsInput.HandleAddItem | frontend/src/components/console/workUrlsInput.tsx:38-40 | One empty item is appended and the old items are kept. |
| WorkUrlsInput.HandleRemove | frontend/src/components/console/workUrlsInput.tsx:42-47 | Exactly the items with other ids are kept. Without an item with that id the list is unchanged. |
| WorkUrlsInput.RemoveAppend | frontend/src/components/console/workUrlsInput.tsx:44 | Removal distributes over concatenation, so the order of the rest is kept. |
| WorkUrlsInput.AddThenRemove | frontend/src/components/console/workUrlsInput.tsx:38-47 | Removing an item just added under a fresh id gives the list back. |
| WorkUrlsInput.FieldChangeUnknownId | frontend/src/components/console/workUrlsInput.tsx:31 | A field change for an id no item has changes nothing. |
| WorksViewer.WithOrder | frontend/src/components/console/worksViewer.tsx:11 | The group of elements with one display order is no longer than the list. |
| WorksViewer.Insert | frontend/src/components/console/worksViewer.tsx:11 | Insertion adds exactly x (as a multiset), and inserting into a sorted list keeps it sorted. |
| WorksViewer.SortByOrder | frontend/src/components/console/worksViewer.tsx:10-14 | The sorted list is in ascending display order and is a permutation of the input. |
| WorksViewer.InsertWithOrder | frontend/src/components/console/worksViewer.tsx:11 | Insertion puts x first in its own order group and leaves the other groups alone. |
| WorksViewer.SortStable | frontend/src/components/console/worksViewer.tsx:10-14 | The sort is stable: elements sharing a display order keep their relative order. |
| WorksViewer.SortOfSorted | frontend/src/components/console/worksViewer.tsx:10-14 | A list already in display order comes back unchanged. |
| WorksViewer.PublishedDate | frontend/src/components/console/worksViewer.tsx:25 | The date is the first ten characters of `created_at` (all of it when shorter), and empty for an empty value. |
| WorksViewer.FormImageIds | frontend/src/components/console/worksViewer.tsx:10-12 | One id per image, each the id of one of the work's images. The i-th id is the id of the i-th image of the stable display-order sort, which is sorted, a permutation and keeps ties in stored order. |
| WorksViewer.FormUrls | frontend/src/components/console/worksViewer.tsx:13-19 | One editor item per link, each the id, label and url of one of the work's links. The i-th item is the id, label and url of the i-th link of the stable display-order sort. |
| WorksViewer.FormTechIds | frontend/src/components/console/worksViewer.tsx:20 | The ids are the tech entries' ids, in stored order. |
| WorksViewer.InitializeWorkValues | frontend/src/components/console/worksViewer.tsx:9-33 | The form copies title, comment and colour. Missing thumbnail and description become empty. Missing lists count as empty, and the lengths match the work's lists. The image ids and links are those of the display-order sort, and the tech ids are in stored order. |
| WorksViewer.OrderedListsKeepOrder | frontend/src/components/console/worksViewer.tsx:10-19 | Images and links already in display order keep that order in the form. |
| WorksViewer.FormImagesInDisplayOrder | frontend/src/components/console/worksViewer.tsx:10-12 | An image listed earlier in the form has a display order no larger than one listed later. |
| WorksViewer.FormUrlsInDisplayOrder | frontend/src/components/console/worksViewer.tsx:13-19 | A link listed earlier in the form has a display order no larger than one listed later, and each item is the id, label and url of the sorted link at its place. |
| WorksViewer.ToggleEdit | frontend/src/components/console/worksViewer.tsx:48-50 | The open work's id closes its form. Any other id opens that one. |
| DragDropUploader.Decimal | frontend/src/hooks/useDragAndDropUploader.ts:89 | A number prints as a non-empty string of decimal digits, with at least two digits from 10 up. |
| DragDropUploader.DecimalInjective | frontend/src/hooks/useDragAndDropUploader.ts:89 | Different numbers print differently. |
| DragDropUploader.HeadNoLonger | frontend/src/hooks/useDragAndDropUploader.ts:89 | In a dash-free head followed by a dash, the first dash marks the end of the head. |
| DragDropUploader.SplitAtFirstDash | frontend/src/hooks/useDragAndDropUploader.ts:89 | A dash-free head is recovered from the text before the first dash. |
| DragDropUploader.UploadIdsDiffer | frontend/src/hooks/useDragAndDropUploader.ts:87-93 | Ids built for different file positions differ, whatever the clock readings and file names. |
| DragDropUploader.BatchIds | frontend/src/hooks/useDragAndDropUploader.ts:87-93 | A batch gets one id per file, in file order, and no two are equal. |
| DragDropUploader.UpdateById | frontend/src/hooks/useDragAndDropUploader.ts:40-63 | Entries with the id are updated in place. Every other entry and the order are kept. |
| DragDropUploader.Uploader.constructor | frontend/src/hooks/useDragAndDropUploader.ts:23-26 | Not dragging, and no uploads. |
| DragDropUploader.Uploader.HandleDragOver | frontend/src/hooks/useDragAndDropUploader.ts:28-32 | The drag flag is set. Nothing else changes. |
| DragDropUploader.Uploader.HandleDragLeave | frontend/src/hooks/useDragAndDropUploader.ts:34-36 | The drag flag is cleared. Nothing else changes. |
| DragDropUploader.Uploader.EnqueueUploads | frontend/src/hooks/useDragAndDropUploader.ts:85-101 | One entry per file is appended in file order with the batch's distinct ids. Every entry with a batch id becomes uploading. The other entries are kept, and one upload per file is started. |
| DragDropUploader.Uploader.HandleDrop | frontend/src/hooks/useDragAndDropUploader.ts:103-112 | The drag ends. A non-empty file list is enqueued as `EnqueueUploads` does: one uploading entry per file, with its batch id and name, appended in order, and older entries sharing a batch id marked uploading. An empty list changes nothing else. |
| DragDropUploader.Uploader.HandleSelectingFiles | frontend/src/hooks/useDragAndDropUploader.ts:114-122 | A non-empty selection is enqueued as `EnqueueUploads` does: one uploading entry per file, with its batch id and name, appended in order, and older entries sharing a batch id marked uploading. An empty one changes nothing. |
| DragDropUploader.Uploader.FinishUpload | frontend/src/hooks/useDragAndDropUploader.ts:55-80 | Success marks the id's entries as succeeded and calls `onUploadSuccess` once. Failure marks them as failed with the error's message or the fallback. Other entries are unchanged. |
| InViewAnimation.InViewAnimationState.constructor | frontend/src/hooks/useInViewAnimation.ts:21-28 | No element, inactive, no observer and no timer. |
| InViewAnimation.InViewAnimationState.Rerun | frontend/src/hooks/useInViewAnimation.ts:25-73 | The cleanup disconnects and clears the timer. The new run observes iff there is an element and not (`once` and active). |
| InViewAnimation.InViewAnimationState.AttachNode | frontend/src/hooks/useInViewAnimation.ts:21 | The element arrives and the effect re-runs: it observes unless a `once` animation is already active. The timer state is unchanged. |
| InViewAnimation.InViewAnimationState.Activate | frontend/src/hooks/useInViewAnimation.ts:38-43 | The element becomes active. A `once` animation's observer is disconnected, and the effect re-runs on the change. |
| InViewAnimation.InViewAnimationState.OnIntersect | frontend/src/hooks/useInViewAnimation.ts:33-48 | A pending timer is cleared. Then the element activates at once for a non-positive delay, or exactly one new timer is scheduled. |
| InViewAnimation.InViewAnimationState.OnLeave | frontend/src/hooks/useInViewAnimation.ts:49-58 | Without `once`, the timer is cleared and the element becomes inactive. With `once`, only the pending timer is cleared. |
| InViewAnimation.InViewAnimationState.TimerFires | frontend/src/hooks/useInViewAnimation.ts:45 | The pending timer runs `activate`: the element becomes active and no timer is left live. With `once`, the observer disconnects and the ref is cleared. Otherwise, a newly active element re-observes; an already active one keeps its observer and ref. The element is unchanged. |
| InViewAnimation.InViewAnimationState.Teardown | frontend/src/hooks/useInViewAnimation.ts:66-72 | Unmounting leaves no observer and no live timer. |
| InViewAnimation.DelayedOnceActivation | frontend/src/hooks/useInViewAnimation.ts:25-73 | A delayed `once` animation that comes into view and whose timer fires stays active, with no observer or timer left to change it. |
| AllowedEmails.NormalForms | frontend/src/lib/auth/allowedEmails.ts:5 | Entry by entry, each normal form is the entry trimmed and lower-cased. |
| AllowedEmails.NormalizedEntries | frontend/src/lib/auth/allowedEmails.ts:3-6 | The list holds exactly the non-empty normal forms of the entries. |
| AllowedEmails.IsAllowedEmail | frontend/src/lib/auth/allowedEmails.ts:1-11 | An address is allowed iff it is present, its normal form is non-empty, and that form is among the normal forms of the comma-separated variable. |
| AllowedEmails.EmptyListAllowsNothing | frontend/src/lib/auth/allowedEmails.ts:3-10 | Without a non-blank entry, no address is allowed. |
| AllowedEmails.UnsetEnvAllowsNothing | frontend/src/lib/auth/allowedEmails.ts:2 | An unset or empty variable allows nobody. |
| AllowedEmails.BlankEmailRefused | frontend/src/lib/auth/allowedEmails.ts:8-10 | A whitespace-only address is never allowed. |
| AllowedEmails.SameNormalFormSameAnswer | frontend/src/lib/auth/allowedEmails.ts:9-10 | Two addresses with the same normal form get the same answer. |
| ConsoleProxy.ConsoleGate | frontend/src/proxy.ts:8-27 | Outside `/console`, on a public path, or with an allowed address, the request goes through. Otherwise it redirects to `/console/login` with the request URL as `callbackUrl`. |
| ConsoleProxy.PrefixOfPublicPathPasses | frontend/src/proxy.ts:15 | `/console/guestbook` is let through for anyone, because paths match by prefix. |
| ConsoleProxy.SignedOutVisitorRedirected | frontend/src/proxy.ts:19-26 | A protected console page without a session redirects to the login page. |
| AdminProxyRoute.ForwardHeaders | frontend/src/app/api/auth/route.ts:34-36 | The forwarded headers carry the configured secret and no `host`. Every other header is kept. |
| AdminProxyRoute.AdminProxy | frontend/src/app/api/auth/route.ts:8-46 | 401 iff there is no session. Then 400 for a missing or absolute `api_url`, 403 for a disallowed address, and 500 for a missing secret or base URL. Otherwise the request is forwarded with the same method, a body iff the method is neither GET nor HEAD, and `ForwardHeaders`. |
| AdminProxyRoute.Relay | frontend/src/app/api/auth/route.ts:47-52 | The reply carries the backend's status, body and headers. |
| AdminProxyRoute.ChecksInOrder | frontend/src/app/api/auth/route.ts:13-21 | Without a session the answer is 401 whatever else is wrong. A missing `api_url` is reported before the address is checked. |
| AdminProxyRoute.SecretNotSpoofable | frontend/src/app/api/auth/route.ts:34-36 | A forwarded request carries the configured secret, never one the client supplied, and never the client's `host`. |
| WorksContext.SanitizeWork | frontend/src/contexts/worksContext.tsx:38-43 | The sanitised work has all three lists present. Present lists and every other field are kept. |
| WorksContext.SanitizeWorks | frontend/src/contexts/worksContext.tsx:37-44 | A non-array body gives no works. An array keeps its length and order, with each work sanitised. |
| WorksContext.SanitizeIdempotent | frontend/src/contexts/worksContext.tsx:37-44 | Sanitising twice is sanitising once. |
| WorksContext.FailureMessage | frontend/src/contexts/worksContext.tsx:32-49 | A non-OK answer shows its text, or the fallback `作品一覧の取得に失敗しました` for an empty text. A thrown `Error` shows its message, and anything else shows the fallback. |
| WorksContext.WorksStore.constructor | frontend/src/contexts/worksContext.tsx:23-25 | No works, loading, and no error. |
| WorksContext.WorksStore.BeginRefresh | frontend/src/contexts/worksContext.tsx:28-29 | Loading starts and the error clears. The works are unchanged. |
| WorksContext.WorksStore.CompleteRefresh | frontend/src/contexts/worksContext.tsx:30-52 | On success, the works become `SanitizeWorks` of the body. Otherwise the error becomes `FailureMessage` and the old works are kept. Loading ends either way. |

## Left out

- Physics, rendering, styling and the 3D scene: positions, velocities, impulses, colours of boxes, camera and fonts. Only the box list and its ids are modelled.
- I/O: network requests, JSON parsing and serialisation, file contents, `FormData`, `window` timers and WebSocket transport are all left out. The outcome of each request, the parsed frame, and timer events become parameters or separate methods.
- Database access and transactions in the backend: stored rows are modelled as a log or as sets of known ids. Transaction failures and `c.Bind` failures are not modelled, and neither are the other backend handlers (images, tech stacks, works listing, delete).
- `time.Parse("2006-01-02", ...)` is a parameter predicate. Go's `time.Time` arithmetic is integer nanoseconds, without saturation.
- Concurrency: mutexes, `atomic.AddUint64`, goroutines, and the race between a `Broadcast` and a concurrent `Remove` are not modelled. The hub and server are sequential.
- The WebSocket writer's ping ticker and write errors are not modelled, but the channel receive is.
- The JSON `seq` travels as a `uint64` but is read as a JavaScript number; precision above 2^53 is not modelled.
- RealtimeWorld.WorkClickFeed: the connection effect re-running when `spawnBox` changes identity (on a resize) is not modelled; one run of the effect is.
- WorksList.DelayFromId: requires `maxDelay >= 0`. For a negative `maxDelay` the source's `%` by a non-positive number (NaN or negative results) is not modelled.
- Text.ToLower: lower-cases ASCII letters only. Unicode case mapping in `strings.ToLower` and `toLowerCase` is not modelled, so AllowedEmails matching is exact for ASCII addresses only.
- WorksViewer.PublishedDate: slices characters, not UTF-16 code units. The two agree on the ASCII dates the backend stores.
- InViewAnimation.InViewAnimationState.OnIntersect: an observer callback batch with several entries is modelled as a sequence of single-entry callbacks. `rootMargin` and `threshold` are not modelled.
- InViewAnimation: the effect re-running on a changed `delayMs`, `rootMargin`, `threshold` or `once` is not modelled; those are fixed for the component's life.
- DragDropUploader.Uploader.HandleSelectingFiles: the `e.target.value = ""` reset of the file input is not modelled.
- DragDropUploader.Uploader.FinishUpload: the `await` on `onUploadSuccess` is a counted call. An exception it throws is not modelled.
- ImageSelecting.ImageSelectingBox: the effect re-running because the `onChange` callback changed identity is not modelled.
- AdminProxyRoute.AdminProxy: resolving `new URL(apiUrl, BACKEND_BASE_URL)` is not modelled. The upstream request carries the two strings, and the scheme check is the case-sensitive prefix test of the source.
- StackSelecting.StackSelectingBox.HandleCreateTechStack: requires `!isSubmitting`, because the button is disabled while a request is in flight.
- SelectingCube.SelectingCubeState.PointerEnter: takes the box's work id as a string, the type the selection context declares. A box spawned from a frame whose truthy `workId` is not a string (see `RealtimeWorld.NonStringWorkIds`) would store that non-string value at run time; the backend always sends a string.
- SelectingCube.SelectingCubeState.BoxClick: takes the work id as a string for the same reason as PointerEnter.
- ConsoleProxy.ConsoleGate: the redirect target is the path `/console/login`. The source resolves it against the request URL into an absolute URL and adds `callbackUrl` as a query parameter. URL resolution and query encoding are not modelled; the decision carries the path and the callback URL separately.
- WorksViewer: the `workInitialValues` map over all works and `handleDelete` (confirmation dialog and request) are not modelled; `InitializeWorkValues` models one entry.
- The telemetry, session, sitemap and layout files outside the core are not part of this model.
- TransitionState: JavaScript numbers are idealised as reals, and the mapping function is a parameter.
- ColorChanger.LightenHex: JavaScript numbers are idealised as reals. A NaN `amount`, floating-point error in `r + (255 - r) * a`, and its effect on `Math.round` near a half are not modelled. The default `amount = 0.3` is not modelled either, so callers pass the amount.
