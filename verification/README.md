# gamescope-type: the keystroke-to-request loop, modelled and verified in Dafny

`gamescope-type` reads raw bytes from a terminal and types them into a
gamescope input-method session. A single boolean `in_escape` drives the
decoding.

- Outside an escape, each byte becomes one request: `set_string` or
  `set_action(DELETE_LEFT | SUBMIT)`. A `commit` with the current
  `ime_serial` and one `wl_display_roundtrip` follow it.
- CR is dropped.
- ESC opens an escape. Any number of `[` are then skipped, and the next byte
  is looked up in a fixed table:
  - `A`–`D` move the cursor once.
  - `3` deletes to the right and reads one more byte.
  - `5`, `6`, `H` and `F` send 128 moves, each one committed.
  - Any other byte sends nothing.

  In every case one roundtrip follows. During a roundtrip the compositor may
  send `done` (a new serial) or `unavailable`. The program checks
  availability once, after its first roundtrip, and never again.

The model has four files:

- `protocol.dfy` (`ImeProtocol`): bytes, serials, the requests
  (`SetString`, `SetAction`, `Commit`, `Roundtrip`), the events (`Done`,
  `Unavailable`) and the byte constants of the decoder.
- `typing.dfy` (`Typing`): the reference semantics, as pure functions.
  - A `Session` holds `ime_serial`, `ime_unavailable`, and the event batches
    the compositor will deliver, one batch per roundtrip. This queue is the
    event oracle.
  - A `Machine` adds `in_escape` and the trace of requests sent so far.
  - `Step` is one pass of the `for (;;)` loop, `Run` is the loop over a finite
    input, and `Launch` is the initial roundtrip, the availability gate and
    then the loop.
- `typing_lemmas.dfy` (`TypingProperties`): the properties. They cover what
  each byte sends and how escapes are consumed. They also show that the
  unavailable flag is never cleared and never consulted inside the loop, and
  that every commit carries the serial of the latest `done` delivered before
  it (`CommitsCarryLatestSerial`).
- `client.dfy` (`ImeClient.Client`): the program as it runs.
  - The class holds the globals, `in_escape` and the request trace.
  - The handler methods and the read loop update these fields in place.
  - `Run` is proved to compute `Typing.Run` and `Launch` to compute
    `Typing.Launch`.

The terminal input is a finite `seq` of bytes. When the bytes run out, the
program is blocked in a read, and the model stops at that point. If the bytes
run out just after `ESC [ 3`, the program is blocked in the extra read that
`3` performs. By then the action and its commit have gone out, but the
roundtrip has not. The model keeps this case as it is.

Behaviour of the code worth knowing:

- A 128-step jump commits inside every iteration: 128 set_action/commit
  pairs, then one roundtrip.
- After the start-up gate nothing checks `ime_unavailable`. The loop keeps
  sending requests after an `unavailable` event (`LoopIgnoresUnavailable`).
- The decoder keeps one flag, `in_escape`. ESC followed by any byte other
  than `[` treats that byte as the final byte, so `ESC ESC` is an unbound
  escape that costs a roundtrip.
- Commits carry the initial serial 0 until a roundtrip delivers a `done`;
  nothing waits for a first `done` before the loop starts.
- A typed byte is sent as a one-character C string, so byte 0 is sent as the
  empty string.

## Model

| member | source | states |
|---|---|---|
| Typing.Start | main.c:15-16 | definition without a contract: `ime_serial` starts at 0 and `ime_unavailable` at false (stated of the program by `ImeClient.Client.constructor`) |
| Typing.Initial | main.c:97 | definition without a contract: the session of `Start`, `in_escape` false and no request sent yet (stated by `ImeClient.Client.constructor`) |
| Typing.Handle | main.c:20-33 | definition without a contract: the listener for one event; its behaviour over a batch is stated by `Typing.Deliver` and `TypingProperties.LatestDoneWins` |
| Typing.Send | main.c:124 | definition without a contract: requests go out in order after those already sent; stated of the program by `ImeClient.Client.SendAction`, `SendString` and `SendCommit` |
| Typing.Sync | main.c:90 | definition without a contract: one `wl_display_roundtrip` (also at main.c:118 and 139), the request appended and the next batch received; stated by `Typing.Receive` and `ImeClient.Client.DisplayRoundtrip` |
| Typing.FinalBinding | main.c:106-116 | definition without a contract: the switch on the final byte; its cases are stated by `ArrowKeys`, `DeleteRightSwallowsOne`, `JumpKeys` and `UnboundFinalByte` |
| Typing.FinalRequests | main.c:106-116 | definition without a contract: the requests the switch sends before the roundtrip; stated by the same lemmas and by `ImeClient.Client.HandleFinal` |
| Typing.KeyRequest | main.c:123-136 | definition without a contract: BS/DEL to `DeleteLeft`, LF to `Submit`, any other byte to a one-character string, empty for byte 0; stated by `PlainByteInserted` and `EditKeys` |
| Typing.Deliver | main.c:20-28 | after the listener handles a batch of events, the serial is unchanged or is the serial of some `done` in the batch; the flag is set exactly when it was already set or the batch contains `unavailable`; nothing else changes |
| TypingProperties.LatestDoneWins | main.c:20-23 | after a batch, the serial is the one carried by the last `done` event of the batch |
| TypingProperties.DeliverIgnoresUnavailable | main.c:20-28 | the serial the listener ends with does not depend on the unavailable flag |
| Typing.Receive | main.c:90 | every roundtrip (this one and those at main.c:118 and 139) pops exactly one pending batch and applies it: the flag is set exactly when it was set or the batch holds `unavailable`, the serial is kept or comes from a `done` of that batch; with nothing pending the session is unchanged; the flag is never cleared |
| Typing.Replay | main.c:25-28 | along any sequence of requests, a set unavailable flag stays set |
| Typing.Repeat | main.c:112-115 | the counted loop sends exactly 2·n requests, alternating `SetAction(kind)` and `Commit(serial)` with one fixed serial |
| Typing.Step | main.c:98-140 | each pass of the loop reads exactly one byte, or exactly two for `3` inside an escape when a byte follows it |
| Typing.Run | main.c:97-140 | the loop only appends requests; it never retracts one |
| Typing.Launch | main.c:89-95 | the first request after creating the input-method object is the roundtrip that waits for the first `done`/`unavailable` |
| TypingProperties.StepShape | main.c:102-139 | every pass commits only with the serial current at its start, sends at most one roundtrip and only as its last request, and the session changes only through that roundtrip |
| TypingProperties.PlainByteInserted | main.c:133-139 | outside an escape, any byte other than BS, DEL, CR, LF and ESC sends a one-character string (empty for byte 0), then a commit with the current serial, then one roundtrip, and stays outside an escape |
| TypingProperties.EditKeys | main.c:123-128 | outside an escape, BS and DEL send `SetAction(DeleteLeft)` and LF sends `SetAction(Submit)`, each followed by one commit and one roundtrip |
| TypingProperties.CarriageReturnIgnored | main.c:125-126 | CR sends nothing, commits nothing, costs no roundtrip and leaves the state unchanged |
| TypingProperties.EscapeStarts | main.c:129-131 | ESC sends nothing and opens an escape |
| TypingProperties.BracketsSkipped | main.c:102-104 | inside an escape, any number of `[` send nothing and leave the escape open |
| TypingProperties.FinalByteEndsEscape | main.c:106-120 | the first byte after ESC that is not `[` closes the escape; its bound requests are followed by exactly one roundtrip, which is the last request of the pass |
| TypingProperties.UnboundFinalByte | main.c:106-120 | a final byte that is not in the table sends no action and no commit, but still costs one roundtrip, and decoding then continues outside any escape |
| TypingProperties.ArrowKeys | main.c:107-110 | `A`, `B`, `C` and `D` each send one `SetAction` (MoveUp, MoveDown, MoveRight, MoveLeft) and one commit, then a roundtrip, and read no further byte |
| TypingProperties.DeleteThenRest | main.c:111 | after `3`, the pass reads exactly one more byte, whatever it is, before the roundtrip |
| TypingProperties.DeleteRightSwallowsOne | main.c:111 | `3` sends `SetAction(DeleteRight)` and one commit, then a roundtrip, and the byte after it has no effect |
| TypingProperties.DeleteBlocked | main.c:111 | if the input ends right after `3`, the action and commit are sent, the roundtrip is not, and the escape stays open |
| TypingProperties.FinalByteThenRest | main.c:106-120 | any final byte other than `[` and `3` sends its bound requests and one roundtrip, closes the escape and reads no further byte |
| TypingProperties.KeyThenRest | main.c:123-139 | outside an escape, any byte other than CR and ESC sends its request, a commit with the current serial and one roundtrip |
| TypingProperties.JumpKeys | main.c:112-115 | `5`, `6`, `H` and `F` send exactly 128 (set_action, commit) pairs (MoveUp, MoveDown, MoveLeft, MoveRight), all with the same serial, then one roundtrip, and read no further byte |
| TypingProperties.UpThenRest | main.c:107 | inside an escape, `A` sends one `MoveUp` action, one commit with the current serial and one roundtrip, reads no further byte, and closes the escape |
| TypingProperties.CursorUpSequence | main.c:102-120 | `ESC [ A` sends exactly one `MoveUp` action, one commit and one roundtrip, and decoding returns outside any escape |
| TypingProperties.DeleteKeySequence | main.c:102-120 | `ESC [ 3 ~` sends one `DeleteRight` action, one commit and one roundtrip, and consumes all four bytes |
| TypingProperties.PageUpThenRest | main.c:102-120 | `ESC [ 5` sends the 128 MoveUp pairs, all with the current serial, then one roundtrip, and decoding returns outside any escape |
| TypingProperties.PageUpSequenceTypesTilde | main.c:112-139 | `ESC [ 5 ~` sends the 128 MoveUp pairs and a roundtrip; the trailing `~` is then typed as text and committed with the serial that roundtrip delivered |
| TypingProperties.UnavailableStaysSet | main.c:25-28 | once `ime_unavailable` is set, no run of the loop clears it |
| TypingProperties.LoopIgnoresUnavailable | main.c:97-140 | inside the loop the requests sent do not depend on the unavailable flag: it is never rechecked |
| TypingProperties.GateClosed | main.c:89-95 | if the first roundtrip reports `unavailable`, the program ends in the state that roundtrip left: the loop never runs, no byte is read, and nothing but that roundtrip is sent |
| TypingProperties.GateOpen | main.c:89-97 | otherwise the read loop runs on the whole input |
| TypingProperties.ReplayAppend | main.c:118 | over the roundtrips at main.c:90, 118 and 139, replaying the events of two request sequences in a row is replaying their concatenation |
| TypingProperties.RunKeepsConsistent | main.c:97-140 | the loop keeps the globals equal to what the delivered events made of them and keeps every commit on the latest serial |
| TypingProperties.ReplayDelivers | main.c:20-28 | replaying a request sequence is handing the listener, in order, the batches its roundtrips pulled from the compositor (one per roundtrip while any are left) |
| TypingProperties.LatestDelivered | main.c:20-23 | after a request sequence the serial is the one carried by the last `done` its roundtrips delivered, or the starting serial when they delivered none |
| TypingProperties.CommitsCarryLatestSerial | main.c:16-23 | over the whole program, every commit carries the serial left by the events delivered before it (by `LatestDelivered`, the latest `done`), and the globals equal the replay of all delivered events |
| ImeClient.Client.constructor | main.c:15-16 | the session starts with serial 0, the session available, no escape open and no request sent |
| ImeClient.Client.HandleDone | main.c:20-23 | `done` overwrites the serial and writes nothing else |
| ImeClient.Client.HandleUnavailable | main.c:25-28 | `unavailable` sets the flag and writes nothing else |
| ImeClient.Client.Dispatch | main.c:30-33 | handling a batch event by event leaves the session as `Typing.Deliver` describes |
| ImeClient.Client.DisplayRoundtrip | main.c:118 | a roundtrip appends `Roundtrip` to the trace and dispatches the next pending batch |
| ImeClient.Client.SendAction | main.c:124 | appends exactly one `SetAction` |
| ImeClient.Client.SendString | main.c:134-135 | appends exactly one `SetString` |
| ImeClient.Client.SendCommit | main.c:138 | appends one commit carrying the current `ime_serial` |
| ImeClient.Client.Jump | main.c:112-115 | the counted loop appends the 128 set_action/commit pairs of `Typing.Repeat` and changes nothing else |
| ImeClient.Client.HandleFinal | main.c:106-116 | the final-byte switch appends exactly the bound requests of the byte, with the current serial |
| ImeClient.Client.EndEscape | main.c:118-120 | after a final byte, one roundtrip, and the escape is closed |
| ImeClient.Client.HandleKey | main.c:123-139 | outside an escape: CR changes nothing, ESC only opens an escape, and any other byte sends its request, a commit and one roundtrip |
| ImeClient.Client.Pass | main.c:98-140 | one pass of the loop body reads the bytes and leaves the state that `Typing.Step` gives, including the return while blocked in the extra read after `3` |
| ImeClient.Client.Run | main.c:97-140 | the read loop leaves the state that `Typing.Run` gives for the same input |
| ImeClient.Client.Launch | main.c:89-140 | from a fresh session, the initial roundtrip, the gate and the loop leave the state that `Typing.Launch` gives |

## Left out

- Connecting to the Wayland display, discovering and binding the registry globals, and the seat and manager checks (main.c:35-47, 62-87). This is library plumbing over `wayland-client`, which is not part of this model.
- Terminal raw mode in `getch` (main.c:49-58). Input is a finite sequence of bytes. End of file (`getchar` returning -1) is not modelled.
- How requests are marshalled, and how events are dispatched inside `wl_display_roundtrip`. Requests are abstract trace entries. The compositor's answers are a queue of event batches, one batch per roundtrip.
- The return value of `wl_display_roundtrip`, which the source ignores. Transport failures are therefore not modelled.
- The environment-variable lookup, diagnostics on stderr, exit codes and teardown (main.c:62-64, 68, 92-94, 142-146). The gate is modelled as the loop not running; process exit is not.
- The roundtrip during registry discovery (main.c:74). It happens before the input-method object exists, so it is not in the trace.
- ImeClient.Client.Launch: requires a freshly created client (serial 0, flag clear, no escape, empty trace), which is the state in which `main` reaches line 89.
