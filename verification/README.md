# x2webrtc core, modelled in Dafny

x2webrtc streams one X11 window to a browser over WebRTC and replays the
browser's mouse input on that window. This project models the parts of the
client that decide behaviour, and proves properties about them.

- `timer.dfy` (module `Timer`) models the frame pacing timer. It keeps a
  fixed-period schedule that never drifts. It returns how long to sleep until
  the next slot. Time is an exact real number passed in as `now`, and a sleep
  is returned as the duration that would be slept.
- `track.dfy` (module `Track`) models the bounded frame channel between the
  capture thread and the media transport. Its class `ScreenCaptureTrack`
  keeps the queue, the last delivered frame, the two timers and the session
  start. Pushing onto a full queue drops the frame and backs off. Pulling from
  an empty queue repeats the last frame. Every delivered frame is stamped in
  milliseconds since the first pull.
- `models.dfy` (module `Models`) models the event codec: `to_dict`,
  `from_dict`, the type map and the two-phase tagged decoding. It follows the
  dacite library the source decodes with.
- `input.dfy` (module `Input`) models the input dispatcher `InputHandler`.
  Its target window is a fake that logs the injections it accepts. The fake
  can refuse an injection and can fail its geometry query. Those are the ways
  the real calls raise.
- `config.dfy` (module `Config`) models config selection and path
  resolution. It covers the defaults, the strict decoding of a config
  document, the `parse_path` hook and the precedence in `load_config`. Paths
  are modelled lexically, as `pathlib` treats them. The filesystem, YAML
  reading, the working directory and the home directory are parameters.
- `wrappers.dfy` holds `Option` and `Result`. `json.dfy` holds the document
  values that JSON and YAML decode to.

Behaviour of the code worth knowing, which the model follows:

- The queue capacity is `int(fps * max_buf_sec)`, which truncates rather than
  rounds. A capacity of zero or less gives an unbounded queue, as
  `queue.Queue` treats it.
- The move event's tag is `"move"`, not `"mouse-move"`.
- There is no top-level `"kind"`. The message is `{"events": [...]}` and each
  element is `{"kind": tag, "event": fields}`.
- Button and direction values travel as integers, not names.
- The integer fields `x` and `y` reject floats, because dacite checks
  `isinstance(v, int)`, under which a boolean passes. Enum fields accept an
  integral float through the `IntEnum` cast.
- The envelope of one event is decoded leniently, so extra keys are ignored.
  The payload and the outer object are decoded strictly.
- `input.py` annotates `send` with `models.InputReport`, which `models.py`
  does not define. It is modelled as `ScreenEvents`. Without
  `from __future__ import annotations`, that annotation is evaluated when the
  class body runs, so before Python 3.14 importing `input.py` (and `cli.py`,
  which imports it) raises `AttributeError`. `webrtc.py` also tests
  `isinstance(message, models.InputReport)` before calling `send`, which
  raises inside its `try` for every message. As shipped, no batch reaches
  `send` at all; the model describes what `send` does once it is reached.
- `track.py` imports its timer from `x2webrtc.timer`, which is not part of
  this model. The timer modelled is `momo/timer.py`.

## Model

| member | source | states |
|---|---|---|
| `Timer.WaitSec` | momo/timer.py:11-23 | the wait is never negative; it is 0 on the first call; otherwise it is max(0, new `_last` − now), i.e. `duration − diff` when early and 0 when on time or late |
| `Timer.NoDrift` | momo/timer.py:13-15 | after n calls following an anchor, `_last` is exactly anchor + n·duration, whatever the call times |
| `Timer.FirstCallAnchors` | momo/timer.py:21-23 | the first call on a fresh timer returns 0 and anchors the schedule at its own instant; n calls leave `_last` at first instant + (n−1)·duration |
| `Timer.WaitsReachSchedule` | momo/timer.py:13-20 | the k-th call after an anchor returns exactly what brings the caller to slot anchor + (k+1)·duration, or 0 when that slot has passed |
| `Timer.OnScheduleNeverWaits` | momo/timer.py:16-20 | calls made on or after their slot, in particular spaced exactly one period apart, never wait |
| `Timer.Timer.constructor` | momo/timer.py:7-9 | a fresh timer has no `_last` and period 1/fps |
| `Timer.Timer.CalcWaitSec` | momo/timer.py:11-23 | returns `WaitSec` of the old state; `_last` becomes `now` on the first call and advances by one period otherwise, keeping the no-drift invariant |
| `Timer.Timer.ResetThrottle` | momo/timer.py:25-26 | `_last` becomes now, nothing else changes, and a call at that same instant then waits exactly one period |
| `Timer.Timer.Wait` | momo/timer.py:33-36 | computes the same wait as `CalcWaitSec` and sleeps only when it is strictly positive |
| `Timer.Timer.WaitAsync` | momo/timer.py:28-31 | the same wait and sleep policy as `Wait` |
| `Track.QueueCapacity` | client/x2webrtc/track.py:24-28 | capacity is fps·max_buf_sec truncated toward zero, and is at most 0 (unbounded) when the product is below 1 |
| `Track.Pts` | client/x2webrtc/track.py:63-76 | a frame delivered at now gets ⌊(now − start)·1000⌋ milliseconds, never negative once the session started |
| `Track.InitialArrayAsWritten` | client/x2webrtc/track.py:15-17 | the blank array as written has `width` rows and `height` columns |
| `Track.InitialArray` | client/x2webrtc/track.py:15-17 | the intended blank array reads back as a frame `width` wide and `height` high |
| `Track.InitialFrameAsWrittenIsTransposed` | client/x2webrtc/track.py:15-17 | as written, the default 640×480 blank frame comes out 480 wide and 640 high |
| `Track.VideoFrame.FromNdArray` | client/x2webrtc/track.py:51 | a frame carries the array's width, height and pixels, with no timestamp yet |
| `Track.CreateInitialFrame` | client/x2webrtc/track.py:15-17 | a fresh all-zero frame; built from the array as written it is `height` wide and `width` high, built from the intended array it is `width` wide and `height` high |
| `Track.ScreenCaptureTrack.constructor` | client/x2webrtc/track.py:24-34 | empty queue of capacity `QueueCapacity`, blank 640×480 last frame, two fresh distinct timers at 1/fps, no start, inactive, live |
| `Track.ScreenCaptureTrack.SetActive` | client/x2webrtc/track.py:40-42 | sets `active` and nothing else |
| `Track.ScreenCaptureTrack.WaitForNextPut` | client/x2webrtc/track.py:44-45 | waits on the sender timer only, with the timer's wait policy |
| `Track.ScreenCaptureTrack.PutFrame` | client/x2webrtc/track.py:47-57 | ignored when inactive or not live; appends a fresh frame at the back of a non-full queue, leaving the timers alone; on a full queue the queue is unchanged, the sender timer re-anchors at now and the producer backs off 0.1 s; the capacity bound is kept |
| `Track.ScreenCaptureTrack.Recv` | client/x2webrtc/track.py:59-77 | waits on the receiver timer only; sets the start on the first pull only; pops the oldest frame and remembers it, or repeats the last frame when the queue is empty; stamps pts and the 1/1000 time base on the delivered frame only, so after a pop the frame delivered before is untouched; keeps the capacity bound and that queued frames are distinct objects, none of them the last delivered frame |
| `Track.RepeatLastFrame` | client/x2webrtc/track.py:69-73 | before any push the track delivers the blank initial frame; after one push it delivers that frame, then repeats it |
| `Models.ButtonFromValue` | client/x2webrtc/models.py:19-22 | a button exists for exactly the values 0 to 2, and maps back to its value |
| `Models.EventKindFromValue` | client/x2webrtc/models.py:25-27 | a direction exists for exactly the values 0 and 1, and maps back to its value |
| `Models.LookupType` | client/x2webrtc/models.py:60-63 | finds a class exactly when the tag is a key of the type map; the class is that of the first entry with the tag |
| `Models.LookupTag` | client/x2webrtc/models.py:88-96 | finds a tag exactly when some entry has the class; the tag is the key of the first entry with that class, where the search loop breaks |
| `Models.TagLeadsBackToClass` | client/x2webrtc/models.py:85-96 | in a map with distinct keys, the tag found for a class decodes back to that class |
| `Models.EventTypeMapTags` | client/x2webrtc/models.py:37-40 | the map's keys are distinct; `MouseMoveEvent` ↔ `"move"` and `MouseButtonEvent` ↔ `"mouse-button"` |
| `Models.ToEventType` | client/x2webrtc/models.py:85-99 | fails exactly when the map has no entry for the event's class; otherwise wraps the event's fields with its tag |
| `Models.EncodeEvents` | client/x2webrtc/models.py:102-105 | succeeds exactly when every event encodes, yielding one envelope per event in order |
| `Models.ShippedEnvelope` | client/x2webrtc/models.py:85-99 | over the shipped type map, a move event is wrapped with `"move"` and a button event with `"mouse-button"`, around its `asdict` |
| `Models.ToDict` | client/x2webrtc/models.py:102-105 | encoding never fails and yields a single `"events"` key with one correctly tagged envelope per event, in order |
| `Models.IntField` | client/x2webrtc/models.py:64 | an integer field accepts integers (and booleans) and refuses null, floats, strings, lists and objects |
| `Models.EnumLookupKey` | client/x2webrtc/models.py:64 | an enum field accepts integers, booleans and exactly the integral floats |
| `Models.DecodeAs` | client/x2webrtc/models.py:63-65 | a decoded event is of the class the tag selected |
| `Models.ParseEvent` | client/x2webrtc/models.py:57-65 | a non-mapping fails; an envelope fails with "unknown type" exactly when its tag is not in the map; otherwise the result is the strict decoding of its `event` fields as the tag's class, and a decoded event's class is the one its tag names |
| `Models.FromDict` | client/x2webrtc/models.py:68-82 | a non-mapping fails; a key besides `"events"` fails first; a decoded batch came from `{"events": [...]}` and is the element-wise decoding of that list, which succeeds exactly when every element decodes |
| `Models.ParseEvents` | client/x2webrtc/models.py:68-82 | the list decodes exactly when every element decodes, element by element in order |
| `Models.FieldsRoundTrip` | client/x2webrtc/models.py:64 | the strict decode of an event's own fields, as its own class, gives the event back |
| `Models.EventRoundTrip` | client/x2webrtc/models.py:57-99 | every event decodes back from its own envelope |
| `Models.RoundTrip` | client/x2webrtc/models.py:68-105 | `from_dict(to_dict(s)) == s` for every batch |
| `Models.UnknownKindRejected` | client/x2webrtc/models.py:60-61 | an envelope with a tag outside the map fails with "unknown type" |
| `Models.EnvelopeIgnoresExtraKeys` | client/x2webrtc/models.py:59 | a key besides `kind` and `event` in an envelope changes nothing |
| `Models.PayloadIsStrict` | client/x2webrtc/models.py:64 | an undeclared key in an event's fields rejects the event |
| `Models.OuterIsStrict` | client/x2webrtc/models.py:74-80 | any key besides `"events"` rejects the message |
| `Models.BadElementRejectsMessage` | client/x2webrtc/models.py:68-82 | one undecodable element rejects the whole message |
| `Models.ButtonValuesInRange` | client/x2webrtc/models.py:19-33 | a button event decodes exactly when its values are 0–2 and 0–1, and the members carry those values |
| `Input.TranslateCoords` | client/x2webrtc/input.py:22-30 | the translated point is the window-relative point shifted by the window's origin |
| `Input.Window.FakeInput` | client/x2webrtc/input.py:41 | an injection is logged exactly when the display server accepts it |
| `Input.SendEffectAppend` | client/x2webrtc/input.py:64-78 | replaying two batches in turn has the effect of replaying their concatenation |
| `Input.FailedEventIsSkipped` | client/x2webrtc/input.py:67-78 | an event that fails contributes nothing, and the rest are replayed as if it were absent |
| `Input.SendInjectsInOrder` | client/x2webrtc/input.py:64-74 | when nothing fails, a batch injects one action per event in order: moves translated by the window origin, UP as release, DOWN as press, with the button's native code |
| `Input.ShippedWindowInjectsNothing` | client/x2webrtc/input.py:41-57 | when every injection raises, `send` swallows each failure and injects nothing |
| `Input.InputHandler.constructor` | client/x2webrtc/input.py:14-16 | a fresh handler has no target |
| `Input.InputHandler.SetTarget` | client/x2webrtc/input.py:18-20 | replaces the target, including with none, and nothing else |
| `Input.InputHandler.MoveTo` | client/x2webrtc/input.py:32-41 | without a target nothing happens; a relative move injects at the translated point read at call time, an absolute one at the point as given; fails when the geometry or the injection fails |
| `Input.InputHandler.MouseDown` | client/x2webrtc/input.py:43-49 | without a target nothing happens; otherwise one press with the button's native code |
| `Input.InputHandler.MouseUp` | client/x2webrtc/input.py:51-57 | without a target nothing happens; otherwise one release with the button's native code |
| `Input.InputHandler.Click` | client/x2webrtc/input.py:59-62 | a press followed by a release of the same button; a failed press raises before the release |
| `Input.InputHandler.Send` | client/x2webrtc/input.py:64-78 | the log grows by each event's effect, in list order, with moves always relative and failures caught per event |
| `Input.FailureDoesNotDropBatch` | client/x2webrtc/input.py:67-78 | a batch whose first event is refused still injects the event after it |
| `Config.ParsePath` | client/x2webrtc/config.py:76 | a path is absolute exactly when the string starts with `/`, and keeps only non-empty components other than `.` |
| `Config.ParseRender` | client/x2webrtc/config.py:76 | writing a well-formed path out and parsing it back gives the same path |
| `Config.Parent` | client/x2webrtc/config.py:64 | the parent drops the last component, and `.` and `/` are their own parent |
| `Config.Resolve` | client/x2webrtc/config.py:45 | a resolved path is absolute with no `..`; without `..`, a relative path lands under the working directory and an absolute one is kept |
| `Config.ResolveIdempotent` | client/x2webrtc/config.py:45 | resolving a resolved base directory changes nothing |
| `Config.ExpandUser` | client/x2webrtc/config.py:10 | a leading `~` becomes the home directory; any other path is unchanged |
| `Config.HomeCandidateAsWrittenIsRelative` | client/x2webrtc/config.py:10 | as written, the second candidate is `~/.x2webrtc` under the working directory |
| `Config.HomeCandidateIsInHome` | client/x2webrtc/config.py:10 | with expansion, the second candidate is `.x2webrtc` in the home directory |
| `Config.LocalCandidateUnchanged` | client/x2webrtc/config.py:10 | the first candidate is `.x2webrtc` relative to the working directory |
| `Config.DefaultPeerConnectionConfig` | client/x2webrtc/config.py:24-26 | the default has the single server `stun:stun.l.google.com:19302`, without credentials |
| `Config.DefaultConfig` | client/x2webrtc/config.py:39-41 | the default config has neither field set |
| `Config.GetPeerConnectionConfig` | client/x2webrtc/config.py:34-37 | the configured value when present, otherwise the single public STUN server |
| `Config.DefaultUsesPublicStun` | client/x2webrtc/config.py:24-41 | the default config's peer connection uses exactly the public STUN server |
| `Config.ParsePathArg` | client/x2webrtc/config.py:47-53 | a path is kept; an absolute string replaces the base; a relative one lands under it; anything else is an invalid path |
| `Config.OptString` | client/x2webrtc/config.py:16-17 | an optional string field is accepted exactly when absent, null or a string, and absent or null means `None` |
| `Config.DecodeIceServer` | client/x2webrtc/config.py:13-17 | decoding succeeds exactly when the value is a mapping with no undeclared key, a string `url` and `username`/`credential` each absent, null or a string; a decoded server carries that `url` |
| `Config.DecodeIceServers` | client/x2webrtc/config.py:22 | the list decodes element by element, and fails only when some element fails |
| `Config.DecodePeerConnection` | client/x2webrtc/config.py:20-31 | null means no peer-connection config; otherwise decoding succeeds exactly when the value is a mapping whose only key is `ice_servers`, holding a list of which every element decodes as an ICE server |
| `Config.DecodePlugin` | client/x2webrtc/config.py:32-56 | null means no plugin; a string goes through `parse_path`; any other value is an invalid path |
| `Config.DecodeConfig` | client/x2webrtc/config.py:55-57 | strict: a non-mapping fails, an undeclared key fails first, and a decoded config holds the two decoded fields |
| `Config.LoadConfigFromDict` | client/x2webrtc/config.py:44-57 | a decoded config came from a mapping with no undeclared key; a relative plugin string lands under the resolved base directory and an absolute one is kept as written |
| `Config.LoadConfigFromFile` | client/x2webrtc/config.py:60-64 | an unreadable file fails; otherwise the document is decoded with the file's resolved parent directory as base |
| `Config.UrlOnlyServer` | client/x2webrtc/config.py:14-17 | a server given only a URL has neither username nor credential |
| `Config.EmptyDocumentIsDefault` | client/x2webrtc/config.py:29-41 | an empty mapping decodes to the default config |
| `Config.EmptyFileFails` | client/x2webrtc/config.py:60-64 | an empty file reads as null, which is not a mapping, so loading it fails |
| `Config.PluginAnchoredAtConfigDir` | client/x2webrtc/config.py:44-64 | a relative plugin path lands under the config file's resolved directory; an absolute one is taken as written |
| `Config.IceServerRoundTrip` | client/x2webrtc/config.py:13-17 | every ICE server decodes back from its own document |
| `Config.IceServersRoundTrip` | client/x2webrtc/config.py:20-22 | every server list decodes back from its own document |
| `Config.ConfigRoundTrip` | client/x2webrtc/config.py:44-57 | a config decodes back from its own document, with a relative plugin path anchored at the base |
| `Config.LoadConfig` | client/x2webrtc/config.py:67-80 | the environment variable takes precedence and must name a regular file; otherwise the first candidate that is a regular file wins; otherwise the default; this holds both for the candidates as written and for the candidates with `~` expanded (see Findings) |
| `Config.CandidatesSeenFrom` | client/x2webrtc/config.py:10 | looked up from the working directory, the candidate `.x2webrtc` is `<home>/.x2webrtc` only from the home directory, and `~/.x2webrtc` only from the home directory's parent when the home directory is named `~` |
| `Config.HomeConfigMissedAsWritten` | client/x2webrtc/config.py:75-80 | with only `<home>/.x2webrtc` on disk and relative paths looked up from the working directory, the candidates as written give the default config from any working directory other than the home directory (or its parent, for a home named `~`); from the home directory they load the file through `.x2webrtc` |
| `Config.HomeConfigFoundExpanded` | client/x2webrtc/config.py:75-80 | on the same disk, the candidates with `~` expanded load `<home>/.x2webrtc` from any working directory |

## Left out

- Config.LoadConfig: `isFile` and `readYaml` receive each path as written, relative paths included; they stand for the filesystem as seen from the working directory `cwd`, which is how `HomeConfigMissedAsWritten` and `HomeConfigFoundExpanded` build their disk.
- The real clock and sleeps (`time.time`, `time.sleep`, `asyncio.sleep`): `now` is a parameter and a sleep is a returned duration.
- Floating-point rounding in `1.0 / fps` and in `int(diff / VIDEO_TIME_BASE)`: arithmetic is exact.
- Timer.Timer.constructor: requires fps > 0; a zero fps raises `ZeroDivisionError` and a negative one gives a negative period, and neither is modelled.
- Track.ScreenCaptureTrack.constructor: requires fps > 0 for the same reason. It also builds its blank frame with the corrected 640-wide, 480-high array from the first Findings row, not the transposed one the code builds as written.
- Track.RepeatLastFrame: the blank frame it observes is the corrected 640×480 one, for the same reason.
- Locks: the `RLock` in the dispatcher and the internal locking of `queue.Queue`. The model is sequential.
- The `readyState` of the media-stream base class: it is a field that only that class (or a client) changes.
- Pixel data: an image is an identity plus its shape; format conversion in `VideoFrame.from_ndarray` is not modelled.
- The branch for a direction that is neither UP nor DOWN (client/x2webrtc/input.py:75-76): the direction is a closed two-value type, so that branch cannot be reached.
- Logging in every module.
- The X11 window and the display connection: they are a fake window. Its geometry query either answers or fails, and it refuses a chosen set of injections.
- The button-to-native-code mapping `to_X11` is not defined in the repository. It is a parameter of the handler.
- `pathlib` details: symbolic links in `resolve`, `~user` forms, a leading `//`, and `exists()` (for which `is_file()` implies existence, so one predicate stands for both).
- The exact exception classes and field paths of dacite's errors: errors are named by kind and field.
- YAML parsing: a document is a JSON-like value, and mapping keys are strings.
- A path value handed to `parse_path` directly: YAML documents carry no path values, so only `Config.ParsePathArg` covers that case.
- The capture worker and CLI (client/x2webrtc/cli.py), the WebRTC wiring, signaling and plugin loading, and the browser viewer are not part of this model.

## Findings

| source | as written | input that shows it | evidently intended | confidence | as-written member | corrected member |
|---|---|---|---|---|---|---|
| client/x2webrtc/track.py:16 | `numpy.zeros((width, height, 3))` builds `width` rows of `height` pixels, and `VideoFrame.from_ndarray` reads rows as height | the defaults width 640, height 480 | a blank frame 640 wide and 480 high | high, not executed | `Track.InitialFrameAsWrittenIsTransposed` | `Track.InitialArray` |
| client/x2webrtc/input.py:41-57 | injections call `fake_input` on the screen-capture `Window`, which defines no such method, and `to_X11` on `MouseButtonKind`, which defines none either, so every injection raises and `send` swallows it | any batch sent while a target is set, once `send` is reachable (the `models.InputReport` annotation and test stop it from being reached at all, see above) | each event injected on the target, in order | high, not executed | `Input.ShippedWindowInjectsNothing` | `Input.SendInjectsInOrder` |
| client/x2webrtc/config.py:10 | the candidate `"~/.x2webrtc"` goes to `pathlib.Path` without `expanduser`, so it names a directory literally called `~` under the working directory | home `/home/u` holding `.x2webrtc`, working directory `/srv`: the file checked is `/srv/~/.x2webrtc` | `.x2webrtc` in the home directory | high, not executed | `Config.HomeCandidateAsWrittenIsRelative` | `Config.HomeCandidateIsInHome` |
