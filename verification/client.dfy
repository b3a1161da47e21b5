/** The client as the program runs it: the globals the listener writes, the
    `in_escape` flag of the read loop, and the requests sent so far. Each
    method is proved to do what `Typing` says. */
module ImeClient {
  import opened ImeProtocol
  import Typing
  import TypingProperties

  class Client {
    /** `ime_serial`: written only by the `done` handler. */
    var serial: uint32
    /** `ime_unavailable`: set only by the `unavailable` handler. */
    var unavailable: bool
    /** The event batches the compositor still has to deliver, one per roundtrip. */
    var pending: seq<seq<Event>>
    /** The read loop's `in_escape`. */
    var inEscape: bool
    /** Every request sent on the input-method object, in order. */
    var trace: seq<Request>

    function Session(): Typing.Session
      reads this
    {
      Typing.Session(serial, unavailable, pending)
    }

    function State(): Typing.Machine
      reads this
    {
      Typing.Machine(Session(), inEscape, trace)
    }

    /** The program's state once the input-method object exists and nothing
        has been delivered yet. */
    constructor (server: seq<seq<Event>>)
      ensures State() == Typing.Initial(server)
    {
      serial := 0;
      unavailable := false;
      pending := server;
      inEscape := false;
      trace := [];
    }

    /** `ime_handle_done` */
    method HandleDone(n: uint32)
      modifies this`serial
      ensures serial == n
    {
      serial := n;
    }

    /** `ime_handle_unavailable` */
    method HandleUnavailable()
      modifies this`unavailable
      ensures unavailable
    {
      unavailable := true;
    }

    /** The listener called on each event of a batch, in order. */
    method Dispatch(evs: seq<Event>)
      modifies this`serial, this`unavailable
      ensures Session() == Typing.Deliver(old(Session()), evs)
    {
      for k := 0 to |evs|
        invariant Session() == Typing.Deliver(old(Session()), evs[..k])
      {
        match evs[k] {
          case Done(n) => HandleDone(n);
          case Unavailable => HandleUnavailable();
        }
        assert evs[..k + 1][..k] == evs[..k];
      }
      assert evs[..|evs|] == evs;
    }

    /** `wl_display_roundtrip`: the request goes out, then the compositor's
        next batch of events is dispatched. */
    method DisplayRoundtrip()
      modifies this`trace, this`pending, this`serial, this`unavailable
      ensures State() == Typing.Sync(old(State()))
    {
      trace := trace + [Roundtrip];
      if pending != [] {
        var batch := pending[0];
        pending := pending[1..];
        Dispatch(batch);
      }
    }

    /** `gamescope_input_method_set_action` */
    method SendAction(kind: ActionKind)
      modifies this`trace
      ensures trace == old(trace) + [SetAction(kind)]
    {
      trace := trace + [SetAction(kind)];
    }

    /** `gamescope_input_method_set_string` with a NUL-terminated buffer. */
    method SendString(text: seq<byte>)
      modifies this`trace
      ensures trace == old(trace) + [SetString(text)]
    {
      trace := trace + [SetString(text)];
    }

    /** `gamescope_input_method_commit(ime, ime_serial)` */
    method SendCommit()
      modifies this`trace
      ensures trace == old(trace) + [Commit(serial)]
    {
      trace := trace + [Commit(serial)];
    }

    /** A page or home/end gesture: the counted loop of 128 set_action/commit
        pairs. */
    method Jump(kind: ActionKind)
      modifies this`trace
      ensures trace == old(trace) + Typing.Repeat(kind, serial, JUMP_COUNT)
    {
      for i := 0 to JUMP_COUNT
        invariant trace == old(trace) + Typing.Repeat(kind, serial, i)
      {
        SendAction(kind);
        SendCommit();
      }
    }

    /** The switch on the final byte of an escape sequence. */
    method HandleFinal(b: byte)
      modifies this`trace
      ensures State() == Typing.Send(old(State()), Typing.FinalRequests(b, serial))
    {
      if b == KEY_UP {
        SendAction(MoveUp); SendCommit();
      } else if b == KEY_DOWN {
        SendAction(MoveDown); SendCommit();
      } else if b == KEY_RIGHT {
        SendAction(MoveRight); SendCommit();
      } else if b == KEY_LEFT {
        SendAction(MoveLeft); SendCommit();
      } else if b == KEY_DELETE {
        SendAction(DeleteRight); SendCommit();
      } else if b == KEY_PAGE_UP {
        assert Typing.FinalBinding(b) == Typing.Bound(MoveUp, JUMP_COUNT);
        Jump(MoveUp);
      } else if b == KEY_PAGE_DOWN {
        assert Typing.FinalBinding(b) == Typing.Bound(MoveDown, JUMP_COUNT);
        Jump(MoveDown);
      } else if b == KEY_HOME {
        assert Typing.FinalBinding(b) == Typing.Bound(MoveLeft, JUMP_COUNT);
        Jump(MoveLeft);
      } else if b == KEY_END {
        assert Typing.FinalBinding(b) == Typing.Bound(MoveRight, JUMP_COUNT);
        Jump(MoveRight);
      }
    }

    /** The `for (;;)` read loop on the bytes the terminal delivers. When the
        bytes run out the loop is blocked in a read, which is where this
        method returns. */
    method Run(input: seq<byte>)
      modifies this
      ensures State() == Typing.Run(old(State()), input)
    {
      var i := 0;
      while i < |input|
        invariant i <= |input|
        invariant Typing.Run(State(), input[i..]) == Typing.Run(old(State()), input)
        decreases |input| - i
      {
        ghost var before := State();
        var next := Pass(input, i);
        TypingProperties.RunUnfold(before, input[i..]);
        assert input[i..][next - i..] == input[next..];
        i := next;
      }
    }

    /** One pass of the loop from `input[i]`: the bytes it reads, and what it
        sends. Returns the index of the next byte to read. */
    method Pass(input: seq<byte>, i: nat) returns (next: nat)
      requires i < |input|
      modifies this
      ensures next == i + Typing.Step(old(State()), input[i..]).1
      ensures State() == Typing.Step(old(State()), input[i..]).0
    {
      var ch := input[i];
      next := i + 1;
      if inEscape {
        if ch == LEFT_BRACKET {
          return;
        }
        HandleFinal(ch);
        if ch == KEY_DELETE {
          if next == |input| {
            // blocked in the extra read, before the roundtrip
            return;
          }
          next := next + 1;
        }
        EndEscape();
      } else {
        HandleKey(ch);
      }
    }

    /** A byte read outside an escape: CR is dropped, ESC opens an escape, and
        any other byte is sent as an action or a string, committed with the
        current serial and followed by a roundtrip. */
    method HandleKey(ch: byte)
      requires !inEscape
      modifies this
      ensures ch == CARRIAGE_RETURN ==> State() == old(State())
      ensures ch == ESCAPE ==> State() == old(State()).(inEscape := true)
      ensures ch != CARRIAGE_RETURN && ch != ESCAPE ==>
                State() == Typing.Sync(Typing.Send(old(State()), [Typing.KeyRequest(ch), Commit(old(serial))]))
    {
      if ch == BACKSPACE || ch == DELETE {
        SendAction(DeleteLeft);
      } else if ch == CARRIAGE_RETURN {
        return;
      } else if ch == LINE_FEED {
        SendAction(Submit);
      } else if ch == ESCAPE {
        inEscape := true;
        return;
      } else {
        SendString(if ch == 0 then [] else [ch]);
      }
      ghost var keyed := State();
      assert keyed == Typing.Send(old(State()), [Typing.KeyRequest(ch)]);
      SendCommit();
      assert State() == Typing.Send(keyed, [Commit(old(serial))]);
      TypingProperties.SendSend(old(State()), [Typing.KeyRequest(ch)], [Commit(old(serial))]);
      DisplayRoundtrip();
    }

    /** The end of every escape sequence: one roundtrip, and the decoder is
        back outside any escape. */
    method EndEscape()
      modifies this
      ensures State() == Typing.Sync(old(State())).(inEscape := false)
    {
      DisplayRoundtrip();
      inEscape := false;
    }

    /** From the input-method object's creation: wait for the first
        `done`/`unavailable`, give up if the session is unavailable, and
        otherwise run the read loop. */
    method Launch(input: seq<byte>)
      requires State() == Typing.Initial(pending)
      modifies this
      ensures State() == Typing.Launch(old(pending), input)
    {
      DisplayRoundtrip();
      if unavailable {
        return;
      }
      Run(input);
    }
  }
}
