/**
 * The serial reader and keepalive worker (`launch_serialport_worker`, `send_break_if_needed` and
 * `send_break` in src/main.rs). One turn of the worker's loop is a state transition over the time of
 * the last received chunk; the transport, the clock and the frame channel's consumer are the
 * environment of that turn. Times are integers in milliseconds.
 */
module Reader {
  import opened Prelude
  import Mpsc

  /** Size of the read buffer. */
  const BufferSize: nat := 64

  /** The keepalive window `main` passes to the worker (three seconds). */
  const KeepaliveTimeoutMs: int := 3000

  /** How long `send_break` holds the break state before clearing it. */
  const BreakHoldMs: int := 1000

  /** What one `read` on the serial port gave: `Ok(n)` with the n bytes it wrote, a timeout, or another I/O error. */
  datatype ReadOutcome = Read(bytes: seq<byte>) | TimedOut | OtherError

  /**
   * What the environment decides in one turn: the read's outcome, the clock when the read returned
   * (`now`), the clock once a break has been sent (`later`, read after `send_break` returns), and
   * whether `set_break` and `clear_break` succeed.
   */
  datatype Event = Event(read: ReadOutcome, now: int, later: int, setBreakOk: bool, clearBreakOk: bool)

  /** The causes for which the worker calls `process::exit(1)`. */
  datatype FatalCause = ReadFailed | SetBreakFailed | ConsumerGone

  /**
   * The end of one turn: the loop goes on with a new time of last reception, having sent `chunk` to
   * the frame channel (if any) and having pulsed the break line (or not); or the process exits.
   */
  datatype Step = Continue(lastReceived: int, chunk: Option<seq<byte>>, pulsed: bool) | Fatal(cause: FatalCause)

  /** A read that brought nothing: `Ok(0)` or a timeout. */
  predicate IsIdle(r: ReadOutcome) {
    (r.Read? && |r.bytes| == 0) || r.TimedOut?
  }

  /** `Instant::elapsed`: the time since `since`, zero if the clock reads earlier. */
  function Elapsed(since: int, now: int): nat {
    if since <= now then now - since else 0
  }

  /** The keepalive rule: a break is due when strictly more than `timeout` has elapsed. */
  predicate BreakDue(lastReceived: int, now: int, timeout: int) {
    timeout < Elapsed(lastReceived, now)
  }

  /** Keepalive part of a turn: an idle read sends a break when one is due. */
  function Keepalive(last: int, ev: Event, timeout: int): Step {
    if !BreakDue(last, ev.now, timeout) then Continue(last, None, false)
    else if !ev.setBreakOk then Fatal(SetBreakFailed)
    else Continue(ev.later, None, true)
  }

  /**
   * One turn of the worker's loop, from the time of last reception `last`; `consumerAlive` says
   * whether the frame channel's receiver still exists.
   */
  function Next(last: int, ev: Event, consumerAlive: bool, timeout: int): (s: Step)
    // a nonempty read forwards exactly its bytes, resets the time of last reception and never pulses
    ensures ev.read.Read? && |ev.read.bytes| > 0 && consumerAlive ==>
      s == Continue(ev.now, Some(ev.read.bytes), false)
    // a chunk is forwarded only from a nonempty read
    ensures s.Continue? && s.chunk.Some? ==> ev.read.Read? && s.chunk.value == ev.read.bytes != []
    // a break is sent only on an idle read, only when one is due, and it resets the time
    ensures s.Continue? && s.pulsed ==>
      IsIdle(ev.read) && BreakDue(last, ev.now, timeout) && s.lastReceived == ev.later && ev.setBreakOk
    // an idle read when a break is due always sends one (or dies trying)
    ensures IsIdle(ev.read) && BreakDue(last, ev.now, timeout) ==> s.Fatal? || s.pulsed
    // an idle read with no break due changes nothing
    ensures IsIdle(ev.read) && !BreakDue(last, ev.now, timeout) ==> s == Continue(last, None, false)
    // the three fatal conditions, and no other
    ensures s.Fatal? <==>
      || ev.read.OtherError?
      || (IsIdle(ev.read) && BreakDue(last, ev.now, timeout) && !ev.setBreakOk)
      || (ev.read.Read? && |ev.read.bytes| > 0 && !consumerAlive)
  {
    match ev.read
    case Read(bytes) =>
      if |bytes| != 0 then
        (if consumerAlive then Continue(ev.now, Some(bytes), false) else Fatal(ConsumerGone))
      else Keepalive(last, ev, timeout)
    case TimedOut => Keepalive(last, ev, timeout)
    case OtherError => Fatal(ReadFailed)
  }

  /** A failing `clear_break` is only logged: it never changes what a turn does. */
  lemma ClearBreakFailureIsHarmless(last: int, ev: Event, consumerAlive: bool, timeout: int)
    ensures Next(last, ev, consumerAlive, timeout) == Next(last, ev.(clearBreakOk := true), consumerAlive, timeout)
  {
  }

  /** A keepalive pulse: when it was decided (`at`) and when the time of last reception was reset (`done`). */
  datatype Pulse = Pulse(at: int, done: int)

  /**
   * The record of a run of turns: the time of last reception at its end, how many turns completed,
   * the chunks sent to the frame channel, the pulses sent, and the fatal cause if the process exited.
   */
  datatype Trace = Trace(lastReceived: int, turns: nat, sent: seq<seq<byte>>, pulses: seq<Pulse>, stop: Option<FatalCause>)

  /** Runs the worker's loop over a sequence of events, with the consumer alive or gone throughout. */
  function Run(last: int, events: seq<Event>, consumerAlive: bool, timeout: int): (t: Trace)
    ensures t.turns <= |events|
    ensures t.stop.None? <==> t.turns == |events|
    decreases |events|
  {
    if events == [] then Trace(last, 0, [], [], None)
    else match Next(last, events[0], consumerAlive, timeout)
      case Fatal(c) => Trace(last, 0, [], [], Some(c))
      case Continue(l, chunk, pulsed) =>
        var rest := Run(l, events[1..], consumerAlive, timeout);
        rest.(turns := rest.turns + 1,
              sent := (if chunk.Some? then [chunk.value] else []) + rest.sent,
              pulses := (if pulsed then [Pulse(events[0].now, events[0].later)] else []) + rest.pulses)
  }

  /** The bytes of every nonempty read, in order. */
  function Chunks(events: seq<Event>): seq<seq<byte>> {
    if events == [] then []
    else
      var r := events[0].read;
      (if r.Read? && |r.bytes| > 0 then [r.bytes] else []) + Chunks(events[1..])
  }

  /**
   * No loss, no duplication, no reordering: while the dispatch loop is alive, the frame channel
   * receives exactly the bytes of every nonempty read of the turns that completed, in order; and the
   * worker stops only on a read error or a failed `set_break`.
   */
  lemma {:induction false} RunForwardsEveryChunk(last: int, events: seq<Event>, timeout: int)
    ensures var t := Run(last, events, true, timeout);
      t.sent == Chunks(events[..t.turns]) && (t.stop.Some? ==> t.stop.value != ConsumerGone)
    decreases |events|
  {
    if events != [] {
      var t := Run(last, events, true, timeout);
      match Next(last, events[0], true, timeout)
      case Fatal(c) =>
        assert events[..0] == [];
      case Continue(l, chunk, pulsed) =>
        RunForwardsEveryChunk(l, events[1..], timeout);
        var rest := Run(l, events[1..], true, timeout);
        assert events[..t.turns][1..] == events[1..][..rest.turns];
    }
  }

  /**
   * The clock never runs backwards: from `last` on, each turn's `now` is no earlier than the
   * previous reading and its `later` no earlier than its `now`.
   */
  ghost predicate Monotone(last: int, events: seq<Event>)
    decreases |events|
  {
    events != [] ==> last <= events[0].now <= events[0].later && Monotone(events[0].later, events[1..])
  }

  /** Pulses are spaced by more than the keepalive window: after `last` and after each other. */
  ghost predicate Spaced(last: int, pulses: seq<Pulse>, timeout: int) {
    && (pulses != [] ==> pulses[0].at - last > timeout)
    && (forall k :: 0 <= k < |pulses| - 1 ==> pulses[k + 1].at - pulses[k].done > timeout)
  }

  /**
   * The keepalive never fires early: on a clock that does not run backwards, the first break of a
   * run comes more than `timeout` after the starting time of last reception, and every later break
   * more than `timeout` after the previous one completed, whatever chunks arrive in between.
   */
  lemma {:induction false} BreaksAreSpaced(last: int, events: seq<Event>, consumerAlive: bool, timeout: int)
    requires Monotone(last, events)
    ensures Spaced(last, Run(last, events, consumerAlive, timeout).pulses, timeout)
    decreases |events|
  {
    if events != [] {
      var e := events[0];
      match Next(last, e, consumerAlive, timeout)
      case Fatal(c) =>
      case Continue(l, chunk, pulsed) =>
        assert last <= l <= e.later;
        assert Monotone(l, events[1..]) by { MonotoneFromEarlier(l, e.later, events[1..]); }
        BreaksAreSpaced(l, events[1..], consumerAlive, timeout);
        var rest := Run(l, events[1..], consumerAlive, timeout).pulses;
        var all := Run(last, events, consumerAlive, timeout).pulses;
        if pulsed {
          assert all == [Pulse(e.now, e.later)] + rest;
          assert l == e.later;
        } else {
          assert all == rest;
        }
    }
  }

  /** Starting from an earlier time keeps a clock monotone. */
  lemma MonotoneFromEarlier(early: int, late: int, events: seq<Event>)
    requires early <= late && Monotone(late, events)
    ensures Monotone(early, events)
  {
  }

  /** The keepalive outcome of `send_break_if_needed`: not due, sent, or the process exited. */
  datatype BreakOutcome = NotDue | Sent | Exited

  /**
   * `send_break`: asserting the break is fatal when it fails; clearing it after the hold is best
   * effort. The worker survives exactly when `set_break` succeeded.
   */
  method SendBreak(setBreakOk: bool, clearBreakOk: bool) returns (survived: bool)
    ensures survived <==> setBreakOk
  {
    if !setBreakOk {
      // the break cannot be asserted: logged, and the process exits
      return false;
    }
    // hold the break for BreakHoldMs, then clear it; a failure to clear is logged, never fatal
    return true;
  }

  /** `send_break_if_needed`: sends a break exactly when strictly more than `timeout` has elapsed. */
  method SendBreakIfNeeded(lastReceived: int, ev: Event, timeout: int) returns (r: BreakOutcome)
    ensures r.NotDue? <==> !BreakDue(lastReceived, ev.now, timeout)
    ensures r.Exited? <==> BreakDue(lastReceived, ev.now, timeout) && !ev.setBreakOk
  {
    var elapsed := Elapsed(lastReceived, ev.now);
    if timeout < elapsed {
      var survived := SendBreak(ev.setBreakOk, ev.clearBreakOk);
      r := if survived then Sent else Exited;
    } else {
      r := NotDue;
    }
  }

  /** The worker task: the serial port's read buffer, the time of last reception and the channel's sending end. */
  class SerialWorker {
    var lastReceived: int
    const buf: array<byte>
    const tx: Mpsc.Channel<seq<byte>>
    const timeout: int

    ghost predicate Valid()
      reads this
    {
      buf.Length == BufferSize
    }

    /** The task as spawned: an empty 64-byte buffer, and `start` (the clock at spawn) as the time of last reception. */
    constructor (tx: Mpsc.Channel<seq<byte>>, timeout: int, start: int)
      ensures Valid() && fresh(buf)
      ensures lastReceived == start && this.tx == tx && this.timeout == timeout
    {
      lastReceived := start;
      buf := new byte[BufferSize](_ => 0);
      this.tx := tx;
      this.timeout := timeout;
    }

    /**
     * One turn of the loop. The read writes its bytes to the front of the buffer (a read never
     * reports more bytes than the buffer holds); what the turn does is `Next`.
     */
    method Turn(ev: Event) returns (s: Step)
      requires Valid()
      requires ev.read.Read? ==> |ev.read.bytes| <= buf.Length
      modifies this, buf, tx
      ensures Valid()
      ensures s == Next(old(lastReceived), ev, old(tx.receiverAlive), timeout)
      ensures s.Continue? ==> lastReceived == s.lastReceived
      ensures tx.queue == old(tx.queue) + (if s.Continue? && s.chunk.Some? then [s.chunk.value] else [])
      ensures tx.senderAlive == old(tx.senderAlive) && tx.receiverAlive == old(tx.receiverAlive)
      ensures ev.read.Read? ==> buf[..|ev.read.bytes|] == ev.read.bytes
    {
      match ev.read
      case Read(bytes) =>
        forall i | 0 <= i < |bytes| {
          buf[i] := bytes[i];
        }
        var readSize := |bytes|;
        if readSize != 0 {
          lastReceived := ev.now;
          var vec := buf[0..readSize];
          assert vec == bytes;
          var ok := tx.Send(vec);
          if !ok {
            // the dispatch loop is gone: logged, and the process exits
            return Fatal(ConsumerGone);
          }
          return Continue(lastReceived, Some(vec), false);
        }
        s := IdleTurn(ev);
      case TimedOut =>
        s := IdleTurn(ev);
      case OtherError =>
        // any read error other than a timeout: logged, and the process exits
        return Fatal(ReadFailed);
    }

    /** The keepalive half of a turn, shared by `Ok(0)` and a timeout. */
    method IdleTurn(ev: Event) returns (s: Step)
      requires Valid()
      modifies this
      ensures Valid()
      ensures s == Keepalive(old(lastReceived), ev, timeout)
      ensures s.Continue? ==> lastReceived == s.lastReceived
    {
      var r := SendBreakIfNeeded(lastReceived, ev, timeout);
      match r {
        case NotDue =>
          s := Continue(lastReceived, None, false);
        case Sent =>
          lastReceived := ev.later;
          s := Continue(lastReceived, None, true);
        case Exited =>
          s := Fatal(SetBreakFailed);
      }
    }
  }
}
