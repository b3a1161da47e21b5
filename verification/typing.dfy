/** Reference semantics of the client: what the compositor sees, request by
    request, when the terminal delivers a given sequence of bytes and the
    compositor answers each roundtrip with a given batch of events.
    The imperative `ImeClient.Client` is proved to compute exactly this. */
module Typing {
  import opened ImeProtocol

  // ---------------------------------------------------------------------
  // The input-method session: the two globals the event handlers write
  // ---------------------------------------------------------------------

  /** `serial` and `unavailable` are the globals `ime_serial` and
      `ime_unavailable`; `pending` lists the event batches the compositor
      will deliver at the coming roundtrips, one batch per roundtrip. */
  datatype Session = Session(serial: uint32, unavailable: bool, pending: seq<seq<Event>>)

  /** The session before any event: `ime_serial = 0`, `ime_unavailable = false`. */
  function Start(server: seq<seq<Event>>): Session {
    Session(0, false, server)
  }

  /** The listener: `done` overwrites the serial, `unavailable` sets the flag. */
  function Handle(s: Session, e: Event): Session {
    match e
    case Done(n) => s.(serial := n)
    case Unavailable => s.(unavailable := true)
  }

  /** The session after the listener has handled `evs` in order. Only a `done`
      event writes the serial and the flag is only ever raised (that the
      latest `done` wins is `TypingProperties.LatestDoneWins`). */
  function Deliver(s: Session, evs: seq<Event>): (r: Session)
    decreases |evs|
    ensures r.pending == s.pending
    ensures r.unavailable == (s.unavailable || Unavailable in evs)
    ensures r.serial == s.serial || Done(r.serial) in evs
  {
    if evs == [] then s
    else Handle(Deliver(s, evs[..|evs| - 1]), evs[|evs| - 1])
  }

  /** One `wl_display_roundtrip`: the compositor delivers its next batch of
      events (none once it has nothing more to say). */
  function Receive(s: Session): (r: Session)
    ensures s.pending == [] ==> r == s
    ensures s.pending != [] ==> r.unavailable == (s.unavailable || Unavailable in s.pending[0])
    ensures s.pending != [] ==> (r.serial == s.serial || Done(r.serial) in s.pending[0])
    ensures s.unavailable ==> r.unavailable
    ensures r.pending == if s.pending == [] then [] else s.pending[1..]
  {
    if s.pending == [] then s
    else Deliver(s.(pending := s.pending[1..]), s.pending[0])
  }

  /** The session a client holds after sending the requests `t`: every
      `Roundtrip` in `t` has delivered one batch. */
  function Replay(t: seq<Request>, s: Session): (r: Session)
    decreases |t|
    ensures s.unavailable ==> r.unavailable
  {
    if t == [] then s
    else
      var before := Replay(t[..|t| - 1], s);
      if t[|t| - 1] == Roundtrip then Receive(before) else before
  }

  /** Every commit in `t` carries the serial of the latest `done` event
      delivered before it was sent. */
  ghost predicate CommitsCurrent(t: seq<Request>, s: Session) {
    forall i | 0 <= i < |t| && t[i].Commit? :: t[i].serial == Replay(t[..i], s).serial
  }

  // ---------------------------------------------------------------------
  // The decoder: what each byte sends
  // ---------------------------------------------------------------------

  /** What a final byte is bound to: an action sent `times` times, or nothing. */
  datatype Binding = Unbound | Bound(kind: ActionKind, times: nat)

  /** The switch on the byte that ends an escape sequence. */
  function FinalBinding(b: byte): Binding {
    if b == KEY_UP then Bound(MoveUp, 1)
    else if b == KEY_DOWN then Bound(MoveDown, 1)
    else if b == KEY_RIGHT then Bound(MoveRight, 1)
    else if b == KEY_LEFT then Bound(MoveLeft, 1)
    else if b == KEY_DELETE then Bound(DeleteRight, 1)
    else if b == KEY_PAGE_UP then Bound(MoveUp, JUMP_COUNT)
    else if b == KEY_PAGE_DOWN then Bound(MoveDown, JUMP_COUNT)
    else if b == KEY_HOME then Bound(MoveLeft, JUMP_COUNT)
    else if b == KEY_END then Bound(MoveRight, JUMP_COUNT)
    else Unbound
  }

  /** `n` set_action/commit pairs, all for the same action and serial. */
  function Repeat(kind: ActionKind, serial: uint32, n: nat): (r: seq<Request>)
    ensures |r| == 2 * n
    ensures forall i | 0 <= i < |r| ::
              r[i] == if i % 2 == 0 then SetAction(kind) else Commit(serial)
  {
    if n == 0 then []
    else Repeat(kind, serial, n - 1) + [SetAction(kind), Commit(serial)]
  }

  /** The requests sent for a final byte, before the roundtrip. */
  function FinalRequests(b: byte, serial: uint32): seq<Request> {
    match FinalBinding(b)
    case Unbound => []
    case Bound(kind, n) => Repeat(kind, serial, n)
  }

  /** The request for a byte read outside an escape (other than CR and ESC).
      Any other byte is sent as a one-character C string, so byte 0 is the
      empty string. */
  function KeyRequest(b: byte): Request {
    if b == BACKSPACE || b == DELETE then SetAction(DeleteLeft)
    else if b == LINE_FEED then SetAction(Submit)
    else SetString(if b == 0 then [] else [b])
  }

  // ---------------------------------------------------------------------
  // The read loop
  // ---------------------------------------------------------------------

  /** Everything the loop depends on: the session, the `in_escape` flag and
      the requests sent so far. */
  datatype Machine = Machine(session: Session, inEscape: bool, trace: seq<Request>)

  function Initial(server: seq<seq<Event>>): Machine {
    Machine(Start(server), false, [])
  }

  function Send(m: Machine, reqs: seq<Request>): Machine {
    m.(trace := m.trace + reqs)
  }

  function Sync(m: Machine): Machine {
    m.(session := Receive(m.session), trace := m.trace + [Roundtrip])
  }

  /** One pass of the `for (;;)` loop on the bytes still to come: the new
      machine and how many bytes the pass read (two when ESC [ 3 pulls one
      more byte). If the input ends right after that `3`, the loop is blocked
      in the extra read: the action and its commit are out, the roundtrip is
      not. */
  function Step(m: Machine, input: seq<byte>): (r: (Machine, nat))
    requires input != []
    ensures r.1 == if m.inEscape && input[0] == KEY_DELETE && |input| > 1 then 2 else 1
    ensures r.1 <= |input|
  {
    var b := input[0];
    if m.inEscape then
      if b == LEFT_BRACKET then (m, 1)
      else
        var sent := Send(m, FinalRequests(b, m.session.serial));
        if b == KEY_DELETE && |input| == 1 then (sent, 1)
        else (Sync(sent).(inEscape := false), if b == KEY_DELETE then 2 else 1)
    else if b == CARRIAGE_RETURN then (m, 1)
    else if b == ESCAPE then (m.(inEscape := true), 1)
    else (Sync(Send(m, [KeyRequest(b), Commit(m.session.serial)])), 1)
  }

  /** The loop over every byte of `input`. */
  function Run(m: Machine, input: seq<byte>): (r: Machine)
    decreases |input|
    ensures m.trace <= r.trace
  {
    if input == [] then m
    else
      var pass := Step(m, input);
      Run(pass.0, input[pass.1..])
  }

  /** The program from the input-method object's creation on: one roundtrip
      for the first `done`/`unavailable`, then the loop, unless the session
      is already unavailable. */
  function Launch(server: seq<seq<Event>>, input: seq<byte>): (r: Machine)
    ensures r.trace != [] && r.trace[0] == Roundtrip
  {
    var ready := Sync(Initial(server));
    if ready.session.unavailable then ready else Run(ready, input)
  }
}
