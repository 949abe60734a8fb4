# bilibili-live-monitor: room-monitor scheduler, broadcast framing and rate limiter in Dafny

This project models the core of a service that watches a churning set of
Bilibili live-stream chat rooms and rebroadcasts guard, gift, pk and storm
events to WebSocket clients:

- **Controllers** (`src/danmu/controller.js`). A controller keeps a registry
  (`connections`) from room id (or, for the raffle controller, area id) to
  the monitor watching it, the rooms to connect in this cycle
  (`roomWaitList`), a cooldown history of rooms whose monitor closed
  (`recentlyClosed`) and a `running` flag. `updateRooms` computes the rooms
  that have no monitor yet. The guard rollout tries each of them in index
  order, skipping rooms that are cooling down or already watched, and then
  trims the history. A monitor's close handler unregisters the room and
  starts its cooldown. A dynamic monitor that qualifies for permanent
  tracking also emits `add_fixed`. The raffle controller keeps one monitor
  per content area, puts it on the first live room of the area's listing,
  and re-populates only the area whose monitor closed.
  `Controller.GuardController` covers the fixed and the dynamic controller.
  They share the rollout and differ in a `policy` chosen at construction.
  `Raffle.RaffleController` is the raffle controller.
- **Broadcast framing** (`src/server/wshost.js`). Each event goes out as a
  16-byte big-endian header (total length, header length 16, version 1,
  operation 5, sequence 1) followed by the body. Every inbound client message
  is answered with a 16-byte header-only acknowledgement (operation 8). The
  header is a zero-filled buffer whose fields are written in place with
  `writeUInt32BE` and `writeUInt16BE`; `WsHost.WriteUIntBE` models both, with a
  field width of 4 or 2 bytes. `WsHost.DecodeFrame` is the receiver's reading of
  a frame, and the round-trip lemmas connect the two.
- **Token-bucket rate limiter** (`src/util/ratelimiter.js`). It starts with
  15 tokens and earns 8 tokens per second. It is refilled lazily, only when
  a caller finds it empty, and the refill is applied only when it lifts the
  count above one. A caller that finds no token triggers a refill, waits one
  second and checks again. `RateLimit.Wait` is the outcome of that loop as a
  function. `RateLimit.RateLimiter.WaitForTokens` is the loop itself, proved
  equal to it.

Collaborators are inputs. The monitors, the room-discovery feed and the
platform API are not part of this model. Their reports reach the
controllers as method calls: a close (with the monitor's `toFixed()` answer),
a discovered room id, a guard purchase, a storm, and a discovery-feed event.
The platform's answers are parameters: each area's listing or its failure,
and the liveness answer for each listed room. Clock readings are integer
milliseconds passed in by the caller. The controllers' outward events are
appended to an `emitted` log. Room ids sent to the discovery feed are
appended to `enqueued`. The raffle controller's discovery requests are
appended to `requests`.

Notable behaviours of the code, which the model keeps:

- The acknowledgement's operation field is 8, as the message handler writes it.
- The history trim keeps the first 20 entries, which are the oldest. So
  when a trim happens, the most recently closed rooms become eligible again
  at once (`Controller.TrimForgetsNewest`).
- The raffle controller's `run` queries all areas on every call. Only the
  `running` flag is set once.
- The dynamic controller arms its re-discovery timer after every
  `updateRooms`, even one made while it is not running.
- A caller that reaches an empty bucket at the instant of its last refill
  waits two polls. The refill it triggers earns nothing, and the
  one triggered a second later is only looked at after a further second
  (`RateLimit.EmptyBucketWaitsTwoPolls`).

## Model

| member | source | states |
|---|---|---|
| `WsHost.WriteUIntBE` | src/server/wshost.js:125-130 | the written bytes at the offset are the big-endian image of the value; every other byte of the buffer is unchanged |
| `WsHost.EncodeHeader` | src/server/wshost.js:125-130 | the header is 16 bytes; HeaderRoundTrip and HeaderOfDecodeHeader show it is inverted by the header decoder |
| `WsHost.FromBigEndianOfBigEndian` | src/server/wshost.js:126-130 | reading back a big-endian field of n bytes gives the value written, for any value below 256^n |
| `WsHost.BigEndianOfFromBigEndian` | src/server/wshost.js:126-130 | every byte string is the image of the value it denotes, so the field encoding is onto as well as one-to-one |
| `WsHost.DecodeFrame` | src/server/wshost.js:125-133 | a frame decodes exactly when it has at least 16 bytes, and then it is the encoded header followed by the body |
| `WsHost.HeaderRoundTrip` | src/server/wshost.js:125-130 | decoding an encoded header whose fields fit their widths gives the same header |
| `WsHost.HeaderOfDecodeHeader` | src/server/wshost.js:125-130 | re-encoding a decoded header reproduces the 16 bytes it came from |
| `WsHost.DecodeHeaderOfPrefix` | src/server/wshost.js:132 | the header is read from the first 16 bytes alone, whatever body follows |
| `WsHost.FieldsFormHeader` | src/server/wshost.js:125-130 | five field images written at offsets 0, 4, 6, 8 and 12 of a 16-byte buffer form the encoded header |
| `WsHost.ConstantFieldImages` | src/server/wshost.js:127-130 | the constant fields are the bytes 00 10, 00 01, 00 00 00 05, 00 00 00 08 and 00 00 00 01 |
| `WsHost.MessageFrameRoundTrip` | src/server/wshost.js:125-133 | decoding the event frame for a body gives header (16 + body length, 16, 1, 5, 1) and the body unchanged |
| `WsHost.MessageFrameBytes` | src/server/wshost.js:125-132 | the event frame for a body is 16 + body length bytes: the length big-endian in bytes 0-3, then 00 10 00 01, then 00 00 00 05 00 00 00 01, then the body unchanged |
| `WsHost.ParseMessage` | src/server/wshost.js:121-134 | fails exactly when 16 + body length does not fit in 32 bits; otherwise the frame is 16 + body length bytes, bytes 0-3 are that length big-endian, bytes 4-15 are 00 10 00 01 00 00 00 05 00 00 00 01, the body follows unchanged, and the frame decodes to its header and body |
| `WsHost.HandshakeAck` | src/server/wshost.js:64-71 | the reply is exactly the 16 bytes for total length 16, header length 16, version 1, operation 8 and sequence 1, and it decodes to that header with an empty body |
| `RateLimit.Refill` | src/util/ratelimiter.js:41-49 | a refill keeps the count within [0, 15]; it changes nothing when tokens plus earned tokens is at most 1, and otherwise stamps the bucket with now and leaves more than one token; with a forward clock it never loses tokens |
| `RateLimit.RateLimiter.AddMoreTokens` | src/util/ratelimiter.js:41-49 | tokens become min(tokens + elapsed seconds × 8, 15) and updatedAt becomes now when that sum exceeds 1; otherwise both are unchanged; bounds are kept |
| `RateLimit.RateLimiter.constructor` | src/util/ratelimiter.js:9-13 | a new limiter holds MAX_TOKENS = 15 tokens, is stamped with the current time, and is within bounds |
| `RateLimit.Wait` | src/util/ratelimiter.js:22-39 | a caller waits no poll exactly when a token is there, and then takes exactly one; otherwise at most two 1000 ms polls; it waits exactly one poll when it finds no token and the refill at arrival lifts the count above one; after n > 0 polls the bucket is the one refilled at the last re-check (now + 1000 × (n − 1)), capped at 15, less the token taken; the bucket afterwards is within [0, 15] |
| `RateLimit.RateLimiter.WaitForTokens` | src/util/ratelimiter.js:22-39 | the loop's waits and final bucket are those of Wait; with a token present it takes exactly one and does not wait; without one it waits once or twice, and the tokens left are the refill at the last re-check, capped at 15, less the one taken, stamped with that re-check's time |
| `RateLimit.EmptyBucketWaitsTwoPolls` | src/util/ratelimiter.js:25-31 | a caller arriving at an empty bucket stamped now waits two polls and leaves 7 tokens stamped one second later |
| `RateLimit.RateLimiter.Request` | src/util/ratelimiter.js:16-20 | the client call is made with the caller's arguments only once a token has been taken, at the time the wait ends; with a token present the call is immediate and costs exactly one token; otherwise the bucket is the refill at the last re-check, one poll before the call, capped at 15, less one |
| `Controller.Pending` | src/danmu/controller.js:85-90 | a room is in the wait list exactly when it was requested and has no monitor |
| `Controller.PendingAppend` | src/danmu/controller.js:55-60 | the filter distributes over concatenation, so the wait list keeps the request order |
| `Controller.PendingMultiplicity` | src/danmu/controller.js:57-59 | a room without a monitor keeps all its repetitions in the wait list; a watched room has none |
| `Controller.TrimCooldown` | src/danmu/controller.js:106-110 | the trimmed history is a prefix of the old one (the oldest entries) and holds at most 30 rooms; it is unchanged exactly when the old history held at most 30, and otherwise it is cut to its first 20 |
| `Controller.TrimForgetsNewest` | src/danmu/controller.js:106-110 | when a history of distinct rooms is trimmed, the most recently closed room is no longer in it |
| `Controller.MonitorFor` | src/danmu/controller.js:136-137 | the monitor created for a room watches that room and is a guard monitor (fixed or dynamic) |
| `Controller.Admit` | src/danmu/controller.js:131-137 | one attempt adds exactly the room unless it is in the cooldown history; an added room that had no monitor gets the policy's guard monitor for it; existing monitors are unchanged |
| `Controller.Rollout` | src/danmu/controller.js:97-104 | the rollout over the wait list keeps every existing monitor |
| `Controller.RolloutEffect` | src/danmu/controller.js:97-104 | a rollout adds monitors for exactly the listed rooms that were neither watched nor cooling down, each for its own room, and leaves every existing monitor as it was |
| `Controller.CooldownSuppresses` | src/danmu/controller.js:133-134 | a room in the cooldown history that has no monitor gains none from any rollout |
| `Controller.GuardController.constructor` | src/danmu/controller.js:21-27 | a new controller has an empty registry, wait list and history and is not running |
| `Controller.GuardController.Run` | src/danmu/controller.js:36-45 | after run the controller is running; a second call changes nothing; run touches neither the registry nor the history |
| `Controller.GuardController.ForwardFeedEvent` | src/danmu/controller.js:40-43 | a guard, gift or pk event from the discovery feed is re-emitted unchanged |
| `Controller.GuardController.Close` | src/danmu/controller.js:47-53 | close empties the registry and leaves the history, the running flag and everything else unchanged |
| `Controller.GuardController.UpdateRooms` | src/danmu/controller.js:85-91 | the wait list is the requested rooms without a monitor, in order; when running, the registry becomes the rollout over it and the history is trimmed, and otherwise neither changes; a dynamic controller arms one re-discovery timer per call |
| `Controller.GuardController.SetupMonitor` | src/danmu/controller.js:93-111 | when not running nothing changes; otherwise one attempt per waiting room in index order, then the history trim |
| `Controller.GuardController.SetupMonitorAtRoom` | src/danmu/controller.js:131-147 | a room that is cooling down or already watched leaves the registry unchanged; otherwise exactly one entry is added, for that room, and no other entry changes |
| `Controller.GuardController.OnMonitorClose` | src/danmu/controller.js:180-188 | the room leaves the registry and is appended to the history; add_fixed is emitted exactly when the controller is dynamic and the monitor's toFixed() answer is true |
| `Controller.GuardController.OnRoomDiscovered` | src/danmu/controller.js:143 | a room id a monitor reports is handed to the discovery feed |
| `Controller.GuardController.OnStorm` | src/danmu/controller.js:145 | a monitor's storm is re-emitted unchanged |
| `Controller.GuardController.OnGuard` | src/danmu/controller.js:144 | a fixed monitor's guard purchase emits add_to_db for its room; a dynamic controller emits nothing |
| `Controller.GuardController.FireRediscoveryTimer` | src/danmu/controller.js:158-160 | an armed re-discovery timer emits exactly one get_new_rooms |
| `Raffle.FirstLive` | src/danmu/controller.js:240-241 | the index found is that of a candidate reported live, and no earlier candidate is; none is found only when no candidate is live |
| `Raffle.InArea` | src/danmu/controller.js:237-264 | an area that has a monitor is unchanged; otherwise it gets a monitor on its first live candidate, or none if no candidate is live; no other area changes |
| `Raffle.AreaOf` | src/danmu/controller.js:225 | an answer's area is the parent_id of its first entry when that is non-zero, and otherwise the area at the answer's index (index + 1) |
| `Raffle.AreaStep` | src/danmu/controller.js:219-231 | a failed or empty answer changes nothing; otherwise the answer's candidates are handled for its area as in InArea; existing monitors are kept |
| `Raffle.AreaRollout` | src/danmu/controller.js:219-234 | handling the answers in area order keeps every existing monitor |
| `Raffle.AreaRolloutEffect` | src/danmu/controller.js:216-235 | handling the six area answers keeps every existing monitor; a new monitor is a raffle monitor keyed by its own area, for an area some answer named and listed a live room for |
| `Raffle.OfferedIsMonitored` | src/danmu/controller.js:219-231 | conversely, every area that some answer names and lists a live room for has a monitor after the answers are handled |
| `Raffle.FirstOfferWins` | src/danmu/controller.js:219-241 | an area without a monitor is put on the first live room of the first answer that names it with a live room; later answers for the same area change nothing |
| `Raffle.RaffleController.constructor` | src/danmu/controller.js:199-209 | a new raffle controller has an empty registry and is not running |
| `Raffle.RaffleController.Run` | src/danmu/controller.js:211-214 | run sets running and, on every call, makes one all-areas request and handles the six answers |
| `Raffle.RaffleController.ForwardFeedEvent` | src/danmu/controller.js:40-43 | a guard, gift or pk event from the discovery feed is re-emitted unchanged |
| `Raffle.RaffleController.Close` | src/danmu/controller.js:47-53 | close empties the registry |
| `Raffle.RaffleController.UpdateRooms` | src/danmu/controller.js:55-61 | the wait list is the requested ids that are not area keys, and the areas are queried and handled as in run |
| `Raffle.RaffleController.SetupMonitor` | src/danmu/controller.js:216-235 | one all-areas request; then each area's answer is handled in area order, under parent_id or else the area at that index, skipping failed or empty listings |
| `Raffle.RaffleController.SetupMonitorInArea` | src/danmu/controller.js:237-264 | the registry becomes InArea of the old one: a monitor is registered for the area only on a live room while the area has none |
| `Raffle.RaffleController.RecoverArea` | src/danmu/controller.js:266-277 | exactly one request is made, for page 10 of size 10 of this area only; a failed request leaves the registry unchanged |
| `Raffle.RaffleController.OnMonitorClose` | src/danmu/controller.js:250-255 | only the closed area is removed and re-populated, and only it is re-queried; every other area's monitor is unchanged |
| `Raffle.RaffleController.OnRoomDiscovered` | src/danmu/controller.js:256 | a room id a monitor reports is handed to the discovery feed |
| `Raffle.RaffleController.OnStorm` | src/danmu/controller.js:257 | a monitor's storm is re-emitted unchanged |

## Left out

- The WebSocket and HTTP servers, `broadcast`, the 20-second ping heartbeat and the cluster bootstrapping in `src/main.js` and `src/server/httphost.js` are left out. They are socket and process I/O.
- `JSON.stringify` and UTF-8 encoding are left out: the body is taken as an already encoded byte sequence.
- Timers and promises are sequential. The rollout attempts run one after another in index order (the 50 ms stagger only orders them). No close or other event interleaves with a rollout, with an area's liveness answers, or with a rate-limiter wait.
- The order in which promises settle is not modelled: liveness answers are taken in the order the rooms are listed, and area answers in area order.
- A rollout attempt that throws is not modelled. Monitor construction is assumed not to throw, so the history trim always runs.
- Monitor internals are left out: the monitors, `RoomidHandler` and `Bilibili` are not part of this model. Starting a monitor, closing it and removing its listeners are not recorded, and each monitor is assumed to report its close at most once. Events are delivered only for registered keys.
- Logging (`cprint`), colours and area display names are left out. The raffle `catch` that names an undefined `error` is read as "this area is skipped".
- The rate limiting of the platform's liveness and listing calls is left out. Those calls live in `bilibili.js`, which is not part of this model.
- `RateLimit.RateLimiter.WaitForTokens`: each re-check is modelled exactly 1000 ms after the previous one, and the clock must not go back (`updatedAt <= now`). Callers do not share the bucket concurrently, so the model does not capture latency under many concurrent waiters. Floating-point rounding is replaced by exact `real` arithmetic.
- `RateLimit.RateLimiter.Request`: the wrapped client is not called. The call it would make is returned instead. The unused `queue` field is left out.
- `Raffle.RaffleController`: the inherited `recentlyClosed` history is left out, because the raffle controller never reads or writes it.
- Room and area ids are integers. JavaScript's distinction between a numeric and a string id is not modelled.
