/** Properties of the reference semantics in `Typing`: what each kind of
    byte sends, how escape sequences are consumed, and how the session
    globals relate to the commits. */
module TypingProperties {
  import opened ImeProtocol
  import opened Typing

  /** One pass of the loop, then the rest. */
  lemma RunUnfold(m: Machine, input: seq<byte>)
    requires input != []
    ensures Run(m, input) == Run(Step(m, input).0, input[Step(m, input).1..])
  {
  }

  /** What any pass sends: requests that commit with the serial current at
      the start of the pass, at most one roundtrip and only as the last
      request, and the session moves on only by that roundtrip. */
  lemma StepShape(m: Machine, input: seq<byte>)
    requires input != []
    ensures var r := Step(m, input).0;
            && m.trace <= r.trace
            && (forall i | |m.trace| <= i < |r.trace| && r.trace[i].Commit? ::
                  r.trace[i].serial == m.session.serial)
            && (forall i | |m.trace| <= i < |r.trace| - 1 :: r.trace[i] != Roundtrip)
            && if |m.trace| < |r.trace| && r.trace[|r.trace| - 1] == Roundtrip
               then r.session == Receive(m.session)
               else r.session == m.session
  {
  }

  lemma SendSend(m: Machine, a: seq<Request>, b: seq<Request>)
    ensures Send(Send(m, a), b) == Send(m, a + b)
  {
    assert m.trace + a + b == m.trace + (a + b);
  }

  // ---------------------------------------------------------------------
  // Outside an escape
  // ---------------------------------------------------------------------

  /** Any byte other than BS, DEL, CR, LF and ESC becomes a one-character
      string, one commit with the current serial and one roundtrip. */
  lemma PlainByteInserted(m: Machine, b: byte, rest: seq<byte>)
    requires !m.inEscape
    requires b !in {BACKSPACE, DELETE, CARRIAGE_RETURN, LINE_FEED, ESCAPE}
    ensures Step(m, [b] + rest).1 == 1
    ensures !Step(m, [b] + rest).0.inEscape
    ensures Step(m, [b] + rest).0.trace
            == m.trace + [SetString(if b == 0 then [] else [b]), Commit(m.session.serial), Roundtrip]
    ensures Step(m, [b] + rest).0.session == Receive(m.session)
  {
  }

  /** BS and DEL delete to the left, LF submits; each with one commit and one
      roundtrip. */
  lemma EditKeys(m: Machine, b: byte, rest: seq<byte>)
    requires !m.inEscape
    requires b in {BACKSPACE, DELETE, LINE_FEED}
    ensures Step(m, [b] + rest).1 == 1
    ensures !Step(m, [b] + rest).0.inEscape
    ensures Step(m, [b] + rest).0.trace
            == m.trace + [SetAction(if b == LINE_FEED then Submit else DeleteLeft),
                          Commit(m.session.serial), Roundtrip]
  {
  }

  /** CR is read and dropped: no request, no commit, no roundtrip. */
  lemma CarriageReturnIgnored(m: Machine, rest: seq<byte>)
    requires !m.inEscape
    ensures Run(m, [CARRIAGE_RETURN] + rest) == Run(m, rest)
  {
    assert ([CARRIAGE_RETURN] + rest)[1..] == rest;
  }

  /** ESC sends nothing and enters an escape. */
  lemma EscapeStarts(m: Machine, rest: seq<byte>)
    requires !m.inEscape
    ensures Run(m, [ESCAPE] + rest) == Run(m.(inEscape := true), rest)
  {
    assert ([ESCAPE] + rest)[1..] == rest;
  }

  function Brackets(n: nat): (r: seq<byte>)
    ensures |r| == n && forall i | 0 <= i < n :: r[i] == LEFT_BRACKET
  {
    seq(n, _ => LEFT_BRACKET)
  }

  /** Inside an escape, any run of '[' sends nothing and the escape goes on. */
  lemma {:induction false} BracketsSkipped(m: Machine, n: nat, rest: seq<byte>)
    requires m.inEscape
    ensures Run(m, Brackets(n) + rest) == Run(m, rest)
  {
    if n > 0 {
      var input := Brackets(n) + rest;
      assert input[0] == LEFT_BRACKET;
      assert Step(m, input) == (m, 1);
      assert input[1..] == Brackets(n - 1) + rest;
      BracketsSkipped(m, n - 1, rest);
    } else {
      assert Brackets(n) + rest == rest;
    }
  }

  // ---------------------------------------------------------------------
  // The final byte of an escape
  // ---------------------------------------------------------------------

  /** The first byte after ESC that is not '[' ends the escape, and exactly one
      roundtrip follows the requests of its binding, as the last request of
      the pass (unless the input stops inside the extra read of '3'). */
  lemma FinalByteEndsEscape(m: Machine, b: byte, rest: seq<byte>)
    requires m.inEscape && b != LEFT_BRACKET
    requires b == KEY_DELETE ==> rest != []
    ensures !Step(m, [b] + rest).0.inEscape
    ensures Step(m, [b] + rest).0.trace
            == m.trace + FinalRequests(b, m.session.serial) + [Roundtrip]
    ensures Step(m, [b] + rest).0.session == Receive(m.session)
  {
  }

  /** A byte that is not in the table sends no action and no commit, but still
      costs a roundtrip; afterwards the decoder is back outside any escape. */
  lemma UnboundFinalByte(m: Machine, b: byte, rest: seq<byte>)
    requires m.inEscape && b != LEFT_BRACKET
    requires b !in {KEY_UP, KEY_DOWN, KEY_RIGHT, KEY_LEFT, KEY_DELETE,
                    KEY_PAGE_UP, KEY_PAGE_DOWN, KEY_HOME, KEY_END}
    ensures Run(m, [b] + rest)
            == Run(Machine(Receive(m.session), false, m.trace + [Roundtrip]), rest)
  {
    assert FinalRequests(b, m.session.serial) == [];
    assert m.trace + [] == m.trace;
    assert Step(m, [b] + rest) == (Machine(Receive(m.session), false, m.trace + [Roundtrip]), 1);
    assert ([b] + rest)[1..] == rest;
  }

  /** A, B, C and D move by one: one set_action and one commit, and no byte
      beyond the final one is read. */
  lemma ArrowKeys(m: Machine, b: byte, rest: seq<byte>)
    requires m.inEscape
    requires b in {KEY_UP, KEY_DOWN, KEY_RIGHT, KEY_LEFT}
    ensures Step(m, [b] + rest).1 == 1
    ensures Step(m, [b] + rest).0.trace
            == m.trace + [SetAction(if b == KEY_UP then MoveUp
                                    else if b == KEY_DOWN then MoveDown
                                    else if b == KEY_RIGHT then MoveRight
                                    else MoveLeft),
                          Commit(m.session.serial), Roundtrip]
  {
  }

  lemma DeleteRequests(t: seq<Request>, serial: uint32)
    ensures t + FinalRequests(KEY_DELETE, serial) + [Roundtrip]
            == t + [SetAction(DeleteRight), Commit(serial), Roundtrip]
  {
    assert FinalRequests(KEY_DELETE, serial) == [SetAction(DeleteRight), Commit(serial)];
  }

  /** After '3' the pass reads exactly one more byte, whatever it is, and
      sends its binding and one roundtrip. */
  lemma DeleteThenRest(m: Machine, x: byte, rest: seq<byte>)
    requires m.inEscape
    ensures Run(m, [KEY_DELETE, x] + rest)
            == Run(Sync(Send(m, FinalRequests(KEY_DELETE, m.session.serial))).(inEscape := false), rest)
  {
    var input := [KEY_DELETE, x] + rest;
    assert Step(m, input).1 == 2 && input[2..] == rest;
    RunUnfold(m, input);
  }

  /** '3' deletes to the right with one commit, and reads exactly one more
      byte, which has no effect whatever it is. */
  lemma DeleteRightSwallowsOne(m: Machine, x: byte, rest: seq<byte>)
    requires m.inEscape
    ensures Run(m, [KEY_DELETE, x] + rest)
            == Run(Machine(Receive(m.session), false,
                           m.trace + [SetAction(DeleteRight), Commit(m.session.serial), Roundtrip]),
                   rest)
  {
    DeleteThenRest(m, x, rest);
    DeleteRequests(m.trace, m.session.serial);
  }

  /** If the input stops right after '3', the loop is blocked in the extra read:
      the action and its commit are out, the roundtrip is not, and the escape
      is still open. */
  lemma DeleteBlocked(m: Machine)
    requires m.inEscape
    ensures Run(m, [KEY_DELETE]) == Send(m, FinalRequests(KEY_DELETE, m.session.serial))
  {
    RunUnfold(m, [KEY_DELETE]);
  }

  /** Any other final byte reads nothing more: the requests of its binding, one
      roundtrip, and the decoder is back outside any escape. */
  lemma FinalByteThenRest(m: Machine, b: byte, rest: seq<byte>)
    requires m.inEscape && b != LEFT_BRACKET && b != KEY_DELETE
    ensures Run(m, [b] + rest)
            == Run(Sync(Send(m, FinalRequests(b, m.session.serial))).(inEscape := false), rest)
  {
    var input := [b] + rest;
    assert Step(m, input).1 == 1 && input[1..] == rest;
    RunUnfold(m, input);
  }

  /** Outside an escape, any byte but CR and ESC is one request, one commit
      and one roundtrip, and reads nothing more. */
  lemma KeyThenRest(m: Machine, b: byte, rest: seq<byte>)
    requires !m.inEscape && b != CARRIAGE_RETURN && b != ESCAPE
    ensures Run(m, [b] + rest)
            == Run(Sync(Send(m, [KeyRequest(b), Commit(m.session.serial)])), rest)
  {
    var input := [b] + rest;
    assert Step(m, input).1 == 1 && input[1..] == rest;
    RunUnfold(m, input);
  }

  /** '5', '6', 'H' and 'F' send 128 set_action/commit pairs, all with the same
      serial, then one roundtrip, and read no byte beyond the final one. */
  lemma JumpKeys(m: Machine, b: byte, rest: seq<byte>)
    requires m.inEscape
    requires b in {KEY_PAGE_UP, KEY_PAGE_DOWN, KEY_HOME, KEY_END}
    ensures Step(m, [b] + rest).1 == 1
    ensures var t := Step(m, [b] + rest).0.trace;
            var kind := if b == KEY_PAGE_UP then MoveUp
                        else if b == KEY_PAGE_DOWN then MoveDown
                        else if b == KEY_HOME then MoveLeft
                        else MoveRight;
            |t| == |m.trace| + 2 * JUMP_COUNT + 1
            && t[..|m.trace|] == m.trace
            && t[|t| - 1] == Roundtrip
            && forall k | 0 <= k < JUMP_COUNT ::
                 t[|m.trace| + 2 * k] == SetAction(kind)
                 && t[|m.trace| + 2 * k + 1] == Commit(m.session.serial)
  {
    var t := Step(m, [b] + rest).0.trace;
    var kind := FinalBinding(b).kind;
    var pairs := Repeat(kind, m.session.serial, JUMP_COUNT);
    assert t == m.trace + pairs + [Roundtrip];
    forall k | 0 <= k < JUMP_COUNT
      ensures t[|m.trace| + 2 * k] == SetAction(kind)
      ensures t[|m.trace| + 2 * k + 1] == Commit(m.session.serial)
    {
      assert pairs[2 * k] == SetAction(kind);
      assert pairs[2 * k + 1] == Commit(m.session.serial);
    }
  }

  // ---------------------------------------------------------------------
  // Whole sequences
  // ---------------------------------------------------------------------

  /** ESC then one '[' inside the loop: nothing is sent. */
  lemma EscapeBracket(m: Machine, rest: seq<byte>)
    requires !m.inEscape
    ensures Run(m, [ESCAPE, LEFT_BRACKET] + rest) == Run(m.(inEscape := true), rest)
  {
    assert [ESCAPE, LEFT_BRACKET] + rest == [ESCAPE] + ([LEFT_BRACKET] + rest);
    EscapeStarts(m, [LEFT_BRACKET] + rest);
    assert Brackets(1) == [LEFT_BRACKET];
    BracketsSkipped(m.(inEscape := true), 1, rest);
  }

  /** Sending requests and then a roundtrip, written out field by field. */
  lemma SendThenSync(m: Machine, reqs: seq<Request>)
    ensures Sync(Send(m, reqs)) == Machine(Receive(m.session), m.inEscape, m.trace + reqs + [Roundtrip])
  {
  }

  lemma UpRequests(t: seq<Request>, serial: uint32)
    ensures t + FinalRequests(KEY_UP, serial) + [Roundtrip]
            == t + [SetAction(MoveUp), Commit(serial), Roundtrip]
  {
    assert FinalRequests(KEY_UP, serial) == [SetAction(MoveUp), Commit(serial)];
  }

  /** Inside an escape, `A` moves up once and ends the escape. */
  lemma UpThenRest(m: Machine, rest: seq<byte>)
    requires m.inEscape
    ensures Run(m, [KEY_UP] + rest)
            == Run(Machine(Receive(m.session), false,
                           m.trace + [SetAction(MoveUp), Commit(m.session.serial), Roundtrip]),
                   rest)
  {
    FinalByteThenRest(m, KEY_UP, rest);
    SendThenSync(m, FinalRequests(KEY_UP, m.session.serial));
    UpRequests(m.trace, m.session.serial);
  }

  /** ESC [ A moves up once. */
  lemma CursorUpSequence(m: Machine, rest: seq<byte>)
    requires !m.inEscape
    ensures Run(m, [ESCAPE, LEFT_BRACKET, KEY_UP] + rest)
            == Run(Machine(Receive(m.session), false,
                           m.trace + [SetAction(MoveUp), Commit(m.session.serial), Roundtrip]),
                   rest)
  {
    var escaped := m.(inEscape := true);
    calc {
      Run(m, [ESCAPE, LEFT_BRACKET, KEY_UP] + rest);
      { assert [ESCAPE, LEFT_BRACKET, KEY_UP] + rest == [ESCAPE, LEFT_BRACKET] + ([KEY_UP] + rest); }
      Run(m, [ESCAPE, LEFT_BRACKET] + ([KEY_UP] + rest));
      { EscapeBracket(m, [KEY_UP] + rest); }
      Run(escaped, [KEY_UP] + rest);
      { UpThenRest(escaped, rest); }
      Run(Machine(Receive(escaped.session), false,
                  escaped.trace + [SetAction(MoveUp), Commit(escaped.session.serial), Roundtrip]),
          rest);
    }
  }

  /** ESC [ 3 ~ deletes to the right once and reads all four bytes. */
  lemma DeleteKeySequence(m: Machine, rest: seq<byte>)
    requires !m.inEscape
    ensures Run(m, [ESCAPE, LEFT_BRACKET, KEY_DELETE, 0x7e] + rest)
            == Run(Machine(Receive(m.session), false,
                           m.trace + [SetAction(DeleteRight), Commit(m.session.serial), Roundtrip]),
                   rest)
  {
    assert [ESCAPE, LEFT_BRACKET, KEY_DELETE, 0x7e] + rest
           == [ESCAPE, LEFT_BRACKET] + ([KEY_DELETE, 0x7e] + rest);
    EscapeBracket(m, [KEY_DELETE, 0x7e] + rest);
    DeleteRightSwallowsOne(m.(inEscape := true), 0x7e, rest);
  }

  lemma PageUpRequests(serial: uint32)
    ensures FinalRequests(KEY_PAGE_UP, serial) == Repeat(MoveUp, serial, JUMP_COUNT)
  {
  }

  /** ESC [ 5 pages up: the 128 pairs, then one roundtrip. */
  lemma PageUpThenRest(m: Machine, tail: seq<byte>)
    requires !m.inEscape
    ensures Run(m, [ESCAPE, LEFT_BRACKET, KEY_PAGE_UP] + tail)
            == Run(Machine(Receive(m.session), false,
                           m.trace + Repeat(MoveUp, m.session.serial, JUMP_COUNT) + [Roundtrip]),
                   tail)
  {
    var escaped := m.(inEscape := true);
    assert [ESCAPE, LEFT_BRACKET, KEY_PAGE_UP] + tail == [ESCAPE, LEFT_BRACKET] + ([KEY_PAGE_UP] + tail);
    EscapeBracket(m, [KEY_PAGE_UP] + tail);
    FinalByteThenRest(escaped, KEY_PAGE_UP, tail);
    PageUpRequests(m.session.serial);
    SendThenSync(escaped, Repeat(MoveUp, m.session.serial, JUMP_COUNT));
  }

  /** ESC [ 5 ~ pages up, and the trailing '~' is then typed as text, committed
      with the serial the page-up roundtrip delivered. */
  lemma PageUpSequenceTypesTilde(m: Machine, rest: seq<byte>)
    requires !m.inEscape
    ensures var paged := Machine(Receive(m.session), false,
                                 m.trace + Repeat(MoveUp, m.session.serial, JUMP_COUNT) + [Roundtrip]);
            Run(m, [ESCAPE, LEFT_BRACKET, KEY_PAGE_UP, 0x7e] + rest)
            == Run(Machine(Receive(paged.session), false,
                           paged.trace + [SetString([0x7e]), Commit(paged.session.serial), Roundtrip]),
                   rest)
  {
    var paged := Machine(Receive(m.session), false,
                         m.trace + Repeat(MoveUp, m.session.serial, JUMP_COUNT) + [Roundtrip]);
    var typed := [SetString([0x7e]), Commit(paged.session.serial)];
    assert [ESCAPE, LEFT_BRACKET, KEY_PAGE_UP, 0x7e] + rest
           == [ESCAPE, LEFT_BRACKET, KEY_PAGE_UP] + ([0x7e] + rest);
    PageUpThenRest(m, [0x7e] + rest);
    assert KeyRequest(0x7e) == SetString([0x7e]);
    KeyThenRest(paged, 0x7e, rest);
    SendThenSync(paged, typed);
    assert paged.trace + typed + [Roundtrip]
           == paged.trace + [SetString([0x7e]), Commit(paged.session.serial), Roundtrip];
  }

  // ---------------------------------------------------------------------
  // The session globals
  // ---------------------------------------------------------------------

  /** Once `ime_unavailable` is set, nothing clears it. */
  lemma {:induction false} UnavailableStaysSet(m: Machine, input: seq<byte>)
    requires m.session.unavailable
    ensures Run(m, input).session.unavailable
    decreases |input|
  {
    if input != [] {
      var (next, n) := Step(m, input);
      UnavailableStaysSet(next, input[n..]);
    }
  }

  /** The serial the listener ends with does not depend on the flag. */
  lemma {:induction false} DeliverIgnoresUnavailable(s: Session, u: bool, evs: seq<Event>)
    ensures Deliver(s.(unavailable := u), evs).serial == Deliver(s, evs).serial
    decreases |evs|
  {
    if evs != [] {
      DeliverIgnoresUnavailable(s, u, evs[..|evs| - 1]);
    }
  }

  lemma ReceiveIgnoresUnavailable(s: Session, u: bool)
    ensures Receive(s.(unavailable := u)).serial == Receive(s).serial
    ensures Receive(s.(unavailable := u)).pending == Receive(s).pending
  {
    if s.pending != [] {
      DeliverIgnoresUnavailable(s.(pending := s.pending[1..]), u, s.pending[0]);
      assert s.(unavailable := u).(pending := s.pending[1..])
             == s.(pending := s.pending[1..]).(unavailable := u);
    }
  }

  /** One pass does the same whatever the flag says. */
  lemma StepIgnoresUnavailable(m: Machine, u: bool, input: seq<byte>)
    requires input != []
    ensures var flagged := Step(m.(session := m.session.(unavailable := u)), input);
            flagged.1 == Step(m, input).1
            && flagged.0.inEscape == Step(m, input).0.inEscape
            && flagged.0.trace == Step(m, input).0.trace
            && flagged.0.session.serial == Step(m, input).0.session.serial
            && flagged.0.session.pending == Step(m, input).0.session.pending
  {
    ReceiveIgnoresUnavailable(m.session, u);
  }

  /** Inside the loop the flag is never looked at: the requests sent do not
      depend on it. */
  lemma {:induction false} LoopIgnoresUnavailable(m: Machine, u: bool, input: seq<byte>)
    ensures Run(m.(session := m.session.(unavailable := u)), input).trace == Run(m, input).trace
    decreases |input|
  {
    if input != [] {
      var flagged := m.(session := m.session.(unavailable := u));
      var (next, n) := Step(m, input);
      var (next', n') := Step(flagged, input);
      StepIgnoresUnavailable(m, u, input);
      assert next' == next.(session := next.session.(unavailable := next'.session.unavailable));
      LoopIgnoresUnavailable(next, next'.session.unavailable, input[n..]);
    }
  }

  /** If the first roundtrip reports the session unavailable, no byte is read
      and nothing but that roundtrip is sent. */
  lemma GateClosed(server: seq<seq<Event>>, input: seq<byte>)
    requires server != [] && Unavailable in server[0]
    ensures Launch(server, input) == Sync(Initial(server))
    ensures Launch(server, input).trace == [Roundtrip]
    ensures Launch(server, input).session.unavailable
  {
  }

  /** Otherwise the loop runs on the whole input. */
  lemma GateOpen(server: seq<seq<Event>>, input: seq<byte>)
    requires server == [] || Unavailable !in server[0]
    ensures Launch(server, input) == Run(Sync(Initial(server)), input)
  {
  }

  /** After a batch, the serial is the one of the last `done` event in it. */
  lemma {:induction false} LatestDoneWins(s: Session, evs: seq<Event>, i: nat)
    requires i < |evs| && evs[i].Done?
    requires forall j | i < j < |evs| :: !evs[j].Done?
    ensures Deliver(s, evs).serial == evs[i].serial
    decreases |evs|
  {
    if i < |evs| - 1 {
      LatestDoneWins(s, evs[..|evs| - 1], i);
    }
  }

  // ---------------------------------------------------------------------
  // Every commit carries the latest serial
  // ---------------------------------------------------------------------

  lemma {:induction false} ReplayAppend(t: seq<Request>, u: seq<Request>, s: Session)
    ensures Replay(t + u, s) == Replay(u, Replay(t, s))
    decreases |u|
  {
    if u == [] {
      assert t + u == t;
    } else {
      var w := u[..|u| - 1];
      assert (t + u)[..|t + u| - 1] == t + w;
      assert (t + u)[|t + u| - 1] == u[|u| - 1];
      ReplayAppend(t, w, s);
    }
  }

  /** Requests other than `Roundtrip` leave the session as it was. */
  lemma {:induction false} ReplayQuiet(u: seq<Request>, s: Session)
    requires forall i | 0 <= i < |u| :: u[i] != Roundtrip
    ensures Replay(u, s) == s
    decreases |u|
  {
    if u != [] {
      ReplayQuiet(u[..|u| - 1], s);
    }
  }

  /** How many roundtrips `t` sends. */
  function Roundtrips(t: seq<Request>): nat
    decreases |t|
  {
    if t == [] then 0
    else Roundtrips(t[..|t| - 1]) + (if t[|t| - 1] == Roundtrip then 1 else 0)
  }

  /** The events of a list of batches, in delivery order. */
  function Flatten(bs: seq<seq<Event>>): seq<Event>
    decreases |bs|
  {
    if bs == [] then [] else Flatten(bs[..|bs| - 1]) + bs[|bs| - 1]
  }

  /** The events the roundtrips of `t` have delivered, starting from `s`:
      one batch per roundtrip, while the compositor has any left. */
  function Delivered(t: seq<Request>, s: Session): seq<Event> {
    var k := if Roundtrips(t) < |s.pending| then Roundtrips(t) else |s.pending|;
    Flatten(s.pending[..k])
  }

  lemma {:induction false} DeliverAppend(s: Session, a: seq<Event>, b: seq<Event>)
    ensures Deliver(s, a + b) == Deliver(Deliver(s, a), b)
    decreases |b|
  {
    if b == [] {
      assert a + b == a;
    } else {
      assert (a + b)[..|a + b| - 1] == a + b[..|b| - 1];
      DeliverAppend(s, a, b[..|b| - 1]);
    }
  }

  lemma {:induction false} DeliverKeepsQueue(s: Session, q: seq<seq<Event>>, evs: seq<Event>)
    ensures Deliver(s.(pending := q), evs) == Deliver(s, evs).(pending := q)
    decreases |evs|
  {
    if evs != [] {
      DeliverKeepsQueue(s, q, evs[..|evs| - 1]);
    }
  }

  /** Replaying requests is delivering, in order, the batches their
      roundtrips pulled from the compositor. */
  lemma {:induction false} ReplayDelivers(t: seq<Request>, s: Session)
    ensures var k := if Roundtrips(t) < |s.pending| then Roundtrips(t) else |s.pending|;
            Replay(t, s) == Deliver(s.(pending := s.pending[k..]), Flatten(s.pending[..k]))
    decreases |t|
  {
    var p := s.pending;
    if t == [] {
      assert p[0..] == p;
    } else {
      var w := t[..|t| - 1];
      ReplayDelivers(w, s);
      var j := if Roundtrips(w) < |p| then Roundtrips(w) else |p|;
      var before := Deliver(s.(pending := p[j..]), Flatten(p[..j]));
      if t[|t| - 1] == Roundtrip && j < |p| {
        assert p[..j + 1][..j] == p[..j];
        assert Flatten(p[..j + 1]) == Flatten(p[..j]) + p[j];
        assert p[j..][1..] == p[j + 1..];
        DeliverKeepsQueue(s, p[j + 1..], Flatten(p[..j]));
        DeliverKeepsQueue(s, p[j..], Flatten(p[..j]));
        DeliverAppend(s.(pending := p[j + 1..]), Flatten(p[..j]), p[j]);
      }
    }
  }

  /** The serial a client holds after sending `t` is the one carried by the
      last `done` its roundtrips delivered, or the serial it started with when
      they delivered none. */
  lemma LatestDelivered(t: seq<Request>, s: Session)
    ensures var evs := Delivered(t, s);
            && ((forall j | 0 <= j < |evs| :: !evs[j].Done?) ==> Replay(t, s).serial == s.serial)
            && forall i | 0 <= i < |evs| && evs[i].Done? && (forall j | i < j < |evs| :: !evs[j].Done?) ::
                 Replay(t, s).serial == evs[i].serial
  {
    var evs := Delivered(t, s);
    var k := if Roundtrips(t) < |s.pending| then Roundtrips(t) else |s.pending|;
    var s1 := s.(pending := s.pending[k..]);
    ReplayDelivers(t, s);
    forall i | 0 <= i < |evs| && evs[i].Done? && (forall j | i < j < |evs| :: !evs[j].Done?)
      ensures Replay(t, s).serial == evs[i].serial
    {
      LatestDoneWins(s1, evs, i);
    }
  }

  lemma CommitsCurrentAppend(t: seq<Request>, u: seq<Request>, s: Session)
    requires CommitsCurrent(t, s) && CommitsCurrent(u, Replay(t, s))
    ensures CommitsCurrent(t + u, s)
  {
    var tu := t + u;
    forall i | 0 <= i < |tu| && tu[i].Commit?
      ensures tu[i].serial == Replay(tu[..i], s).serial
    {
      if i < |t| {
        assert tu[..i] == t[..i];
      } else {
        assert tu[..i] == t + u[..i - |t|];
        ReplayAppend(t, u[..i - |t|], s);
      }
    }
  }

  /** The session agrees with the requests sent, and so do the commits. */
  ghost predicate Consistent(m: Machine, s0: Session) {
    m.session == Replay(m.trace, s0) && CommitsCurrent(m.trace, s0)
  }

  /** Appending requests that commit with the current serial and end with at
      most one roundtrip, whose events the session then reflects, keeps the
      machine consistent. */
  lemma ExtendKeepsConsistent(m: Machine, r: Machine, s0: Session)
    requires Consistent(m, s0) && m.trace <= r.trace
    requires forall i | |m.trace| <= i < |r.trace| && r.trace[i].Commit? ::
               r.trace[i].serial == m.session.serial
    requires forall i | |m.trace| <= i < |r.trace| - 1 :: r.trace[i] != Roundtrip
    requires if |m.trace| < |r.trace| && r.trace[|r.trace| - 1] == Roundtrip
             then r.session == Receive(m.session)
             else r.session == m.session
    ensures Consistent(r, s0)
  {
    var u := r.trace[|m.trace|..];
    assert r.trace == m.trace + u;
    var ends := u != [] && u[|u| - 1] == Roundtrip;
    var v := if ends then u[..|u| - 1] else u;
    ReplayQuiet(v, m.session);
    if ends {
      assert u[..|u| - 1] == v;
    }
    assert Replay(u, m.session) == r.session;
    forall i | 0 <= i < |u| && u[i].Commit?
      ensures u[i].serial == Replay(u[..i], m.session).serial
    {
      assert u[i] == r.trace[|m.trace| + i];
      ReplayQuiet(u[..i], m.session);
    }
    ReplayAppend(m.trace, u, s0);
    CommitsCurrentAppend(m.trace, u, s0);
  }

  lemma StepKeepsConsistent(m: Machine, input: seq<byte>, s0: Session)
    requires input != [] && Consistent(m, s0)
    ensures Consistent(Step(m, input).0, s0)
  {
    StepShape(m, input);
    ExtendKeepsConsistent(m, Step(m, input).0, s0);
  }

  lemma {:induction false} RunKeepsConsistent(m: Machine, input: seq<byte>, s0: Session)
    requires Consistent(m, s0)
    ensures Consistent(Run(m, input), s0)
    decreases |input|
  {
    if input != [] {
      var (next, n) := Step(m, input);
      StepKeepsConsistent(m, input, s0);
      RunKeepsConsistent(next, input[n..], s0);
    }
  }

  /** The whole program: the globals always equal what the delivered events
      made of them, and every commit carries the latest serial. */
  lemma CommitsCarryLatestSerial(server: seq<seq<Event>>, input: seq<byte>)
    ensures Launch(server, input).session == Replay(Launch(server, input).trace, Start(server))
    ensures CommitsCurrent(Launch(server, input).trace, Start(server))
  {
    var ready := Sync(Initial(server));
    assert ready.trace == [Roundtrip];
    assert ready.trace[..0] == [];
    assert !ready.trace[0].Commit?;
    assert Consistent(ready, Start(server));
    if !ready.session.unavailable {
      RunKeepsConsistent(ready, input, Start(server));
    }
  }
}
