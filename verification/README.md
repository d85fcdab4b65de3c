# Car controller: command-state synchronisation

A Dafny model of the `CarController` React component of React-Car-Controller
(`src/Car-controller.jsx`). Buttons and a range slider drive five pieces of
state: `direction`, `speed`, `headlightsOn`, `hornOn` and `battery`. One
WebSocket is opened on mount. An effect keyed on the five fields and the stored
socket handle sends the whole state as a JSON object whenever one of them
changes, provided a handle is stored and its socket is OPEN.

The model is an event-trace machine with one module per concern:

- `Command`: the five-field `CommandState`, the `useState` defaults and one
  pure function per handler. These are `handleMouseDown`, `handleMouseUp`,
  `stopCar`, the horn and headlight toggles and the slider. It also gives a
  field-by-field reference definition of the state after any sequence of
  intents (last write wins; a toggle flips once per click).
- `Json`: the part of `JSON.stringify` the message needs, as section 25.5.2 of
  ECMA-262 describes it. That covers string quoting and escaping, integers,
  booleans and a flat object without whitespace. It also holds scanners for
  those pieces.
- `Wire`: the `carData` snapshot object and its serialisation (`Encode`). It
  has a decoder for exactly that layout. The decoder is used to prove that
  the encoding keeps all five values and is injective.
- `Channel`: the browser socket's `readyState` (as in the WHATWG WebSockets
  Standard) and whether the `webSocket` state variable holds
  the socket. It covers the `onopen`, `onclose` and `onerror` handlers, the
  unmount cleanup and the guarded `send`.
- `Controller`: a `Session` made of the command state, the connection, whether
  the component is mounted, and the trace of sent messages. `Step` runs one
  event's handler and then the effect. `Run` folds a sequence of events.

Modelling decisions:

- The code does not clamp speed. Its range comes only from the slider's
  `min="0"` and `max="100"`, so the slider intent carries a precondition
  rather than a clamp. Speed then stays within [0, 100] as a property of
  reachable states.
- There is no channel status beyond the nullable `webSocket` handle, set in
  `onopen` and cleared in `onclose`, and the socket's own `readyState`. An
  error only logs. The model keeps those two and nothing else.
- The effect sends only when a dependency changes value, so writing an
  equal value sends nothing.
- The device can start the closing handshake: the socket becomes CLOSING
  while the handle stays stored until `close` fires. Intents in that window
  are dropped by the `readyState` test of the send.
- The four arrow buttons press Forward, Left, Right and Reverse; only Stop
  writes Neutral, so a direction press never carries Neutral.
- Only one socket is created per mount, so "a handle is stored" is a boolean.
- React re-runs the effect only when a dependency changed value. So an event
  that writes equal values sends nothing, and `stopCar`'s two writes form one
  snapshot and one message. Storing the handle in `onopen` is itself a
  dependency change, so the current snapshot is sent as soon as the socket
  opens.
- The browser fires `open` only on a CONNECTING socket and `close` once. An
  event the browser would not dispatch in the current `readyState` leaves the
  session unchanged.
- After unmount no UI exists, and state writes of an unmounted component are
  lost. The cleanup runs once. `closeCalls` counts the calls of `ws.close()`.
- The socket transport is abstracted: `send` appends the message to the
  `sent` trace.

## Model

| member | source | states |
|---|---|---|
| Command.HandleMouseDown | src/Car-controller.jsx:44-46 | pressing a direction sets `direction` to it and leaves every other field, speed included, unchanged |
| Command.HandleMouseUp | src/Car-controller.jsx:49-51 | releasing a direction button leaves the whole state as it was |
| Command.StopCar | src/Car-controller.jsx:38-41 | Stop yields Neutral and speed 0 from any state and keeps lights, horn and battery |
| Command.ToggleHorn | src/Car-controller.jsx:79 | the horn click flips `hornOn` and nothing else |
| Command.ToggleHeadlights | src/Car-controller.jsx:85 | the headlights click flips `headlightsOn` and nothing else |
| Command.SetSpeed | src/Car-controller.jsx:101-106 | the slider writes a speed within its bounds 0..100, unclamped, and nothing else |
| Command.Initial | src/Car-controller.jsx:6-10 | the `useState` defaults: Neutral, speed 50, lights off, horn off, battery 85 |
| Command.Apply | src/Car-controller.jsx:79-153 | one intent never writes battery and keeps the battery and speed bounds; the dispatch of each control to its handler is the body, and `Command.ApplyAllLastWriteWins` fixes each intent's result |
| Command.ApplyAll | src/Car-controller.jsx:6-10 | any sequence of intents keeps battery at 85 and speed within 0..100 when they held before |
| Command.ApplyAllLastWriteWins | src/Car-controller.jsx:38-106 | after any sequence of intents each field holds the last value written to it (Stop counts as a write of Neutral and 0), each toggle field is flipped by the parity of its clicks, and battery is never written |
| Command.ToggleTwiceRestores | src/Car-controller.jsx:79-85 | clicking the same toggle twice restores the original state |
| Command.EveryDirectionReachable | src/Car-controller.jsx:114-153 | every direction can follow any state through the buttons (the four arrows, or Stop for Neutral) |
| Wire.DirectionName | src/Car-controller.jsx:6-153 | each direction is stored and sent as its capitalised name ("Neutral", "Forward", "Reverse", "Left", "Right"), never empty |
| Wire.Snapshot | src/Car-controller.jsx:55-61 | the snapshot object has exactly the keys direction, speed, headlightsOn, hornOn, battery in that order, each carrying the current field value |
| Wire.Stringify | src/Car-controller.jsx:66 | the generic serialisation of the snapshot object equals the message layout `Wire.Encode` |
| Wire.Encode | src/Car-controller.jsx:66 | the message is an object text opening with the `direction` key; its full content is given by `Wire.EncodeIsStringify`, `Wire.MessageText` and `Wire.DecodeEncode` |
| Wire.EncodeIsStringify | src/Car-controller.jsx:55-66 | the message the model sends equals the generic JSON.stringify serialisation of the snapshot object, with keys quoted and values written as JSON |
| Wire.MessageText | src/Car-controller.jsx:55-66 | every message is the compact JSON object with those five keys in that order, each followed by its value |
| Wire.DecodeEncode | src/Car-controller.jsx:66 | every message can be read back to exactly the snapshot it was made from |
| Wire.EncodeInjective | src/Car-controller.jsx:66 | two messages are equal exactly when their snapshots are equal |
| Json.NatTextValue | src/Car-controller.jsx:66 | the decimal text written for a number reads back as that number |
| Channel.Created | src/Car-controller.jsx:11-15 | the socket created on mount is CONNECTING and the `webSocket` handle is null |
| Channel.OnOpen | src/Car-controller.jsx:17-20 | on open the socket is OPEN and, while mounted, the handle is stored so sending is possible |
| Channel.OnClose | src/Car-controller.jsx:22-25 | on close the socket is CLOSED, the handle is cleared while mounted, and sending is impossible |
| Channel.OnClosing | src/Car-controller.jsx:65 | when the device starts closing, the socket is CLOSING with the handle still stored, so the send guard fails and `close` can still fire |
| Channel.OnError | src/Car-controller.jsx:27-29 | an error changes neither the handle nor the socket |
| Channel.Teardown | src/Car-controller.jsx:31-35 | the cleanup closes the created socket (closing or closed afterwards), calls close once more, keeps the handle, and rules out sending |
| Channel.Send | src/Car-controller.jsx:65-67 | the message is appended exactly when a handle is stored and its socket is OPEN, and dropped silently otherwise |
| Controller.Start | src/Car-controller.jsx:6-15 | at mount the state holds the defaults, the socket is connecting with no handle stored, and nothing has been sent |
| Controller.Handle | src/Car-controller.jsx:17-51 | the handlers send nothing themselves; only a UI intent on a mounted component changes the command state, intents never touch the connection, and only unmounting ends the mount |
| Controller.DepsChanged | src/Car-controller.jsx:68 | the effect re-runs exactly when the message the five fields encode changes or the `webSocket` handle changes |
| Controller.Step | src/Car-controller.jsx:53-68 | one event changes the trace by at most one message, the encoding of the new snapshot, and does so exactly when a dependency changed and the socket can send |
| Controller.Run | src/Car-controller.jsx:53-68 | the sent trace only grows: earlier messages are never altered or removed |
| Controller.RunInv | src/Car-controller.jsx:6-35 | the reachable-state invariant is kept by every sequence of admissible events |
| Controller.Reachable | src/Car-controller.jsx:6-68 | from mount, battery stays 85, speed stays within 0..100, a mounted component holds a handle exactly while the socket is OPEN or CLOSING (from `open` until `close`), close is called at most once and only by unmounting, whenever the socket can send the last message sent is the current snapshot, and every sent message encodes a snapshot within those bounds |
| Controller.StopSendsAtMostOnce | src/Car-controller.jsx:38-41 | Stop sends at most one message, and that message carries both Neutral and speed 0 |
| Controller.PressKeepsSpeed | src/Car-controller.jsx:44-46 | a direction press keeps speed and connection and sends exactly when the direction changed and the socket can send |
| Controller.ReleaseIsSilent | src/Car-controller.jsx:49-51 | releasing a button changes nothing and sends nothing |
| Controller.ErrorIsSilent | src/Car-controller.jsx:27-29 | a socket error changes nothing and sends nothing |
| Controller.HornClick | src/Car-controller.jsx:79 | a horn click on a mounted component flips the horn and always passes its new snapshot to the guarded send at lines 65-68 |
| Controller.ToggleTwice | src/Car-controller.jsx:79 | two horn clicks restore the state and send two full snapshots when the socket can send, none otherwise |
| Controller.OpenSendsSnapshot | src/Car-controller.jsx:17-20 | when the socket opens on a mounted component the current snapshot is sent at once |
| Controller.CloseClearsHandle | src/Car-controller.jsx:22-25 | close clears the handle and sends nothing |
| Controller.NothingSentWhileClosing | src/Car-controller.jsx:65-67 | while the socket is CLOSING no event sends anything, though the handle may still be stored |
| Controller.PressWhileClosingIsDropped | src/Car-controller.jsx:44-67 | a press after the device started closing changes the direction but its snapshot is dropped by the `readyState` test |
| Controller.UnmountClosesOnce | src/Car-controller.jsx:31-35 | unmounting closes the socket with one close call and sends nothing; a second unmount does nothing |
| Controller.NoSendWhileNotOpen | src/Car-controller.jsx:65-67 | with no stored open socket an event sends nothing and raises no error |
| Controller.SilentAfterUnmount | src/Car-controller.jsx:31-35 | after unmount no sequence of events sends anything |
| Controller.ForwardThenHorn | src/Car-controller.jsx:53-68 | with the socket open, pressing Forward and then clicking the horn sends the two post-change snapshots in order |

## Left out

- JSX markup, icons, CSS classes and display text (lines 70-160) are presentation only.
- `console.log` and `console.error` calls are I/O with no effect on state.
- The WebSocket transport, the fixed endpoint `ws://192.168.4.1:81`, network timing and asynchrony are left out. Socket activity is reduced to open, close and error events and an append to the sent trace.
- React scheduling beyond "the effect re-runs once per render whose dependencies changed" is left out. That includes render batching internals and Strict Mode's double effect run in development.
- The `error` event the browser fires before `close` when a connection fails is modelled as log-only. The `readyState` change is taken at the `close` event.
- `Number(e.target.value)` is taken to yield the slider's integer value. Non-integer and NaN values cannot come from a range input with the default step.
- No clamp of arbitrary speeds exists in the code, so none is modelled. The slider bounds are a precondition.
- Numbers of magnitude 10^21 or more, which `JSON.stringify` writes in exponent form, are not covered by `Json.IntText`; every reachable speed and battery is far below that.
- Inbound messages from the device, reconnection and send timeouts do not exist in the code.
- Controller.ForwardThenHorn: states a two-event example through `Wire.Encode` of the two snapshots rather than as literal message strings, because comparing long string literals is too costly for the verifier. `Wire.MessageText` gives the exact text of any message.
