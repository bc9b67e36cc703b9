/**
 The response pump of the owned relay: what one request captures, forwards and finally records when
 the client may vanish at any point and the upstream may end, fail or outlast the drain window.
 The environment is a script of events; real time appears only as the event `WindowElapsed`.
 */
module Relay {
  import opened Prelude
  import opened Frames
  import opened Engine

  /** Per-request settings: drain after a cancel, and whether the response is an event stream. */
  datatype Settings = Settings(onCancel: bool, isSse: bool)

  datatype Event =
    | Received(bytes: seq<byte>, writeOk: bool, cap: nat) // a chunk, the fate of its write, the cap read
    | StreamEnd
    | ReadError
    | ClientGone    // the downstream probe reports the disconnect
    | ProbeIdle
    | WindowElapsed // the drain deadline passed before the next chunk

  /** What the pump has done so far. `received` and `forwarded` are the two ends of the wire. */
  datatype State = State(
    respBuf: seq<byte>, drain: Option<Drain>, overflow: nat,
    clientDead: bool, timedOut: bool, failed: bool, endSeen: bool, stopped: bool,
    received: seq<byte>, forwarded: seq<byte>)

  /** After the response head: its write may already have failed, or there may be no body. */
  function Begin(s: Settings, headOk: bool, noBody: bool): State {
    State([], None, 0, !headOk, false, false, noBody, noBody || (!headOk && !s.onCancel), [], [])
  }

  /** `begin_drain`: seed the accumulator, once, with everything captured so far. */
  function BeginDrainOf(p: Protocol, s: Settings, st: State): State {
    if st.drain.None? && s.isSse then st.(drain := Some(DrainFeedOf(p, EMPTY_DRAIN, st.respBuf))) else st
  }

  /** `drain_capture`: raw bytes up to the cap, the rest only counted. */
  function CaptureOf(st: State, bytes: seq<byte>, cap: nat): State {
    var take := Min(Max(cap - |st.respBuf|, 0), |bytes|);
    st.(respBuf := st.respBuf + bytes[..take], overflow := st.overflow + (|bytes| - take))
  }

  function OnDeath(p: Protocol, s: Settings, st: State): State {
    if s.onCancel then BeginDrainOf(p, s, st.(clientDead := true))
    else st.(clientDead := true, stopped := true)
  }

  function DrainChunkOf(p: Protocol, s: Settings, st: State, bytes: seq<byte>, cap: nat): State {
    var captured := CaptureOf(st, bytes, cap);
    if st.drain.None? && !s.isSse then captured
    else
      var d := if st.drain.Some? then st.drain.value else EMPTY_DRAIN;
      captured.(drain := Some(DrainFeedOf(p, d, bytes)))
  }

  function StepOf(p: Protocol, s: Settings, st: State, e: Event): State {
    if st.stopped then st
    else match e
      case StreamEnd => st.(endSeen := true, stopped := true)
      case ReadError => st.(failed := true, stopped := true)
      case ProbeIdle => st
      case ClientGone => if st.clientDead then st else OnDeath(p, s, st)
      case WindowElapsed => if st.clientDead then st.(timedOut := true, stopped := true) else st
      case Received(bytes, writeOk, cap) =>
        var got := st.(received := st.received + bytes);
        if !st.clientDead then
          var kept := got.(respBuf := st.respBuf + bytes);
          if writeOk then kept.(forwarded := st.forwarded + bytes) else OnDeath(p, s, kept)
        else if s.onCancel then DrainChunkOf(p, s, got, bytes, cap)
        else got.(stopped := true)
  }

  function RunOf(p: Protocol, s: Settings, st: State, script: seq<Event>): State {
    if script == [] then st
    else StepOf(p, s, RunOf(p, s, st, script[..|script| - 1]), script[|script| - 1])
  }

  /** What `logging` records for an event stream: the drained accumulator, else the whole capture. */
  function Recorded(p: Protocol, st: State): Outcome {
    if st.drain.Some? then DrainFinishOf(p, st.drain.value) else WholeBody(p, st.respBuf)
  }

  // ---------------------------------------------------------------------------------------------
  // The pump in place

  class Ctx {
    var respBuf: seq<byte>
    var drainAcc: SseAccum?
    var drainTail: seq<byte>
    var overflow: nat
    var clientDead: bool
    var timedOut: bool
    var failed: bool
    var endSeen: bool
    ghost var stopped: bool
    ghost var received: seq<byte>
    ghost var forwarded: seq<byte>

    ghost predicate Valid()
      reads this
    {
      drainAcc == null ==> drainTail == []
    }

    ghost function View(): State
      reads this, drainAcc
    {
      State(
        respBuf, if drainAcc == null then None else Some(Drain(drainAcc.View(), drainTail)), overflow,
        clientDead, timedOut, failed, endSeen, stopped, received, forwarded)
    }

    constructor (s: Settings, headOk: bool, noBody: bool)
      ensures Valid() && drainAcc == null && View() == Begin(s, headOk, noBody)
    {
      respBuf, drainAcc, drainTail, overflow := [], null, [], 0;
      clientDead, timedOut, failed, endSeen := !headOk, false, false, noBody;
      stopped, received, forwarded := noBody || (!headOk && !s.onCancel), [], [];
    }

    method BeginDrain(p: Protocol, s: Settings)
      requires Valid()
      modifies this`drainAcc, this`drainTail
      ensures Valid() && View() == BeginDrainOf(p, s, old(View()))
      ensures drainAcc == old(drainAcc) || fresh(drainAcc)
    {
      if drainAcc == null && s.isSse {
        var acc := new SseAccum();
        drainTail := DrainFeed(acc, p, drainTail, respBuf);
        drainAcc := acc;
      }
    }

    method DrainCapture(bytes: seq<byte>, cap: nat)
      requires Valid()
      modifies this`respBuf, this`overflow
      ensures Valid() && View() == CaptureOf(old(View()), bytes, cap)
    {
      var room := Max(cap - |respBuf|, 0);
      var take := Min(room, |bytes|);
      respBuf := respBuf + bytes[..take];
      overflow := overflow + (|bytes| - take);
    }

    /** One turn of the pump loop; `go` is false when the loop is left. */
    method Turn(p: Protocol, s: Settings, e: Event) returns (go: bool)
      requires Valid() && !stopped
      modifies this, drainAcc
      ensures Valid() && View() == StepOf(p, s, old(View()), e) && go == !stopped
      ensures drainAcc == old(drainAcc) || fresh(drainAcc)
    {
      go := true;
      match e {
        case StreamEnd =>
          endSeen := true;
          go := false;
        case ReadError =>
          failed := true;
          go := false;
        case ProbeIdle =>
        case ClientGone =>
          if !clientDead { go := Die(p, s); }
        case WindowElapsed =>
          if clientDead {
            timedOut := true;
            go := false;
          }
        case Received(bytes, writeOk, cap) =>
          go := Take(p, s, bytes, writeOk, cap);
      }
      stopped := !go;
    }

    /** A chunk has arrived. */
    method Take(p: Protocol, s: Settings, bytes: seq<byte>, writeOk: bool, cap: nat) returns (go: bool)
      requires Valid() && !stopped
      modifies this, drainAcc
      ensures Valid() && !stopped
      ensures var r := StepOf(p, s, old(View()), Received(bytes, writeOk, cap));
              View() == r.(stopped := false) && go == !r.stopped
      ensures drainAcc == old(drainAcc) || fresh(drainAcc)
    {
      go := true;
      received := received + bytes;
      if clientDead {
        if s.onCancel { DrainChunk(p, s, bytes, cap); } else { go := false; }
      } else {
        go := Deliver(p, s, bytes, writeOk);
      }
    }

    /** A chunk for a live client: capture it, write it, and start draining if the write fails. */
    method Deliver(p: Protocol, s: Settings, bytes: seq<byte>, writeOk: bool) returns (go: bool)
      requires Valid() && !clientDead && !stopped
      modifies this
      ensures Valid() && go == (writeOk || s.onCancel)
      ensures var kept := old(View()).(respBuf := old(respBuf) + bytes);
              View() == if writeOk then kept.(forwarded := old(forwarded) + bytes)
                        else OnDeath(p, s, kept).(stopped := false)
      ensures drainAcc == old(drainAcc) || fresh(drainAcc)
    {
      go := true;
      respBuf := respBuf + bytes;
      if writeOk {
        forwarded := forwarded + bytes;
      } else {
        go := Die(p, s);
      }
    }

    /** The client is gone: drain from here on, or leave the loop. */
    method Die(p: Protocol, s: Settings) returns (go: bool)
      requires Valid() && !clientDead && !stopped
      modifies this
      ensures Valid() && go == s.onCancel
      ensures View() == OnDeath(p, s, old(View())).(stopped := false)
      ensures drainAcc == old(drainAcc) || fresh(drainAcc)
    {
      clientDead, go := true, s.onCancel;
      if s.onCancel { BeginDrain(p, s); }
    }

    /** A chunk after the client is gone: captured under the cap and fed to the accumulator. */
    method DrainChunk(p: Protocol, s: Settings, bytes: seq<byte>, cap: nat)
      requires Valid()
      modifies this, drainAcc
      ensures Valid() && View() == DrainChunkOf(p, s, old(View()), bytes, cap)
      ensures drainAcc == old(drainAcc) || fresh(drainAcc)
    {
      DrainCapture(bytes, cap);
      if drainAcc == null && s.isSse { drainAcc := new SseAccum(); }
      if drainAcc != null { drainTail := DrainFeed(drainAcc, p, drainTail, bytes); }
    }

    /** The body pump of `relay`, from the response head on. */
    method Pump(p: Protocol, s: Settings, headOk: bool, noBody: bool, script: seq<Event>)
      requires Valid() && View() == Begin(s, headOk, noBody)
      modifies this, drainAcc
      ensures Valid() && View() == RunOf(p, s, Begin(s, headOk, noBody), script)
    {
      ghost var start := View();
      if !headOk && !s.onCancel {
        StoppedStays(p, s, start, script, 0);
        return;
      }
      var i, go := 0, !endSeen;
      while i < |script| && go
        invariant 0 <= i <= |script| && Valid() && go == !stopped
        invariant View() == RunOf(p, s, start, script[..i])
        invariant drainAcc == old(drainAcc) || fresh(drainAcc)
      {
        assert script[..i + 1][..i] == script[..i];
        go := Turn(p, s, script[i]);
        i := i + 1;
      }
      assert script[..|script|] == script;
      if !go { StoppedStays(p, s, start, script, i); }
    }

    /** The event-stream arm of `logging`: drained accumulator or one pass over the capture. */
    method Record(p: Protocol) returns (out: Outcome)
      requires Valid()
      modifies this, drainAcc
      ensures out == Recorded(p, old(View()))
    {
      if drainAcc != null {
        out := DrainFinish(drainAcc, p, drainTail);
        drainAcc, drainTail := null, [];
      } else {
        out := StreamResponse(p, respBuf);
      }
    }
  }

  lemma {:induction false} StoppedStays(p: Protocol, s: Settings, st: State, script: seq<Event>, i: nat)
    requires i <= |script| && RunOf(p, s, st, script[..i]).stopped
    ensures RunOf(p, s, st, script) == RunOf(p, s, st, script[..i])
    decreases |script|
  {
    if i == |script| {
      assert script[..i] == script;
    } else {
      var init := script[..|script| - 1];
      assert init[..i] == script[..i];
      StoppedStays(p, s, st, init, i);
    }
  }

  // ---------------------------------------------------------------------------------------------
  // Nothing is lost or parsed twice

  /** Every byte received is either captured, or already handed to the drain accumulator. */
  ghost predicate Accounted(p: Protocol, s: Settings, st: State) {
    && (st.drain.Some? ==> Tracks(p, st.drain.value, st.received))
    && (st.drain.None? && s.isSse ==> st.respBuf == st.received)
    && (st.drain.None? && s.isSse && st.clientDead && !st.stopped ==> st.received == [])
    && (st.clientDead && !s.onCancel ==> st.stopped)
    && |st.respBuf| + st.overflow == |st.received|
    && (!st.clientDead ==> st.drain.None? && st.respBuf == st.received == st.forwarded)
    && st.forwarded <= st.received
  }

  lemma DeathAccounted(p: Protocol, s: Settings, st: State)
    requires st.drain.None? && st.respBuf == st.received && st.overflow == 0
    requires st.forwarded <= st.received
    ensures Accounted(p, s, OnDeath(p, s, st))
  {
    StartTracks(p);
    FeedTracks(p, EMPTY_DRAIN, [], st.respBuf);
    assert [] + st.respBuf == st.respBuf;
  }

  lemma DrainChunkAccounted(p: Protocol, s: Settings, st: State, bytes: seq<byte>, cap: nat)
    requires Accounted(p, s, st) && st.clientDead && s.onCancel && !st.stopped
    ensures Accounted(p, s, DrainChunkOf(p, s, st.(received := st.received + bytes), bytes, cap))
  {
    StartTracks(p);
    var d := if st.drain.Some? then st.drain.value else EMPTY_DRAIN;
    if st.drain.Some? || s.isSse {
      FeedTracks(p, d, st.received, bytes);
    }
  }

  lemma StepAccounted(p: Protocol, s: Settings, st: State, e: Event)
    requires Accounted(p, s, st)
    ensures Accounted(p, s, StepOf(p, s, st, e))
  {
    if st.stopped {
    } else if e.Received? && st.clientDead {
      DrainChunkAccounted(p, s, st, e.bytes, e.cap);
    } else if e.Received? && !e.writeOk {
      DeathAccounted(p, s, st.(received := st.received + e.bytes, respBuf := st.respBuf + e.bytes));
    } else if e.ClientGone? && !st.clientDead {
      DeathAccounted(p, s, st);
    }
  }

  lemma {:induction false} RunAccounted(p: Protocol, s: Settings, st: State, script: seq<Event>)
    requires Accounted(p, s, st)
    ensures Accounted(p, s, RunOf(p, s, st, script))
    decreases |script|
  {
    if script != [] {
      RunAccounted(p, s, st, script[..|script| - 1]);
      StepAccounted(p, s, RunOf(p, s, st, script[..|script| - 1]), script[|script| - 1]);
    }
  }

  /**
   On every path (alive to the end, cancelled at a write, at a probe or at the head, drained or cut
   off) the recorded outcome is that of one pass over all bytes the upstream delivered.
   */
  lemma RelayRecordsWholeStream(p: Protocol, s: Settings, headOk: bool, noBody: bool, script: seq<Event>)
    requires s.isSse
    ensures var st := RunOf(p, s, Begin(s, headOk, noBody), script);
            Recorded(p, st) == WholeBody(p, st.received)
  {
    RunAccounted(p, s, Begin(s, headOk, noBody), script);
    var st := RunOf(p, s, Begin(s, headOk, noBody), script);
    if st.drain.Some? { TracksFinish(p, st.drain.value, st.received); }
  }

  /** The capture and its overflow counter add up to the bytes received, for any caps. */
  lemma CaptureConserves(p: Protocol, s: Settings, headOk: bool, noBody: bool, script: seq<Event>)
    ensures var st := RunOf(p, s, Begin(s, headOk, noBody), script);
            |st.respBuf| + st.overflow == |st.received|
  {
    RunAccounted(p, s, Begin(s, headOk, noBody), script);
  }

  // ---------------------------------------------------------------------------------------------
  // The wire to the client

  function OfferedBytes(script: seq<Event>): seq<byte> {
    if script == [] then []
    else
      var last := script[|script| - 1];
      OfferedBytes(script[..|script| - 1]) + (if last.Received? then last.bytes else [])
  }

  /** While the pump runs it takes every chunk offered; a stopped pump took those before the stop. */
  lemma {:induction false} ReceivedIsOffered(p: Protocol, s: Settings, headOk: bool, noBody: bool, script: seq<Event>)
    ensures var st := RunOf(p, s, Begin(s, headOk, noBody), script);
            st.received <= OfferedBytes(script) && (!st.stopped ==> st.received == OfferedBytes(script))
    decreases |script|
  {
    if script != [] {
      var init := script[..|script| - 1];
      ReceivedIsOffered(p, s, headOk, noBody, init);
      StepReceives(p, s, RunOf(p, s, Begin(s, headOk, noBody), init), script[|script| - 1]);
      assert OfferedBytes(init) <= OfferedBytes(script);
    }
  }

  lemma StepReceives(p: Protocol, s: Settings, st: State, e: Event)
    ensures var r := StepOf(p, s, st, e);
            && (st.stopped ==> r == st)
            && (!st.stopped ==> r.received == st.received + if e.Received? then e.bytes else [])
  {
    RawFields(p, s, st, e);
  }

  lemma StepForwards(p: Protocol, s: Settings, st: State, e: Event)
    requires st.clientDead
    ensures StepOf(p, s, st, e).clientDead && StepOf(p, s, st, e).forwarded == st.forwarded
  {
  }

  /** A live client has been sent everything received; a dead one is never sent anything more. */
  lemma {:induction false} ForwardedUntilDeath(
    p: Protocol, s: Settings, headOk: bool, noBody: bool, script: seq<Event>, i: nat)
    requires i <= |script|
    ensures var early := RunOf(p, s, Begin(s, headOk, noBody), script[..i]);
            var late := RunOf(p, s, Begin(s, headOk, noBody), script);
            && early.forwarded <= early.received
            && (!early.clientDead ==> early.forwarded == early.received)
            && (early.clientDead ==> late.clientDead && late.forwarded == early.forwarded)
    decreases |script|
  {
    RunAccounted(p, s, Begin(s, headOk, noBody), script[..i]);
    if i == |script| {
      assert script[..i] == script;
    } else {
      var init := script[..|script| - 1];
      assert init[..i] == script[..i];
      ForwardedUntilDeath(p, s, headOk, noBody, init, i);
      var st := RunOf(p, s, Begin(s, headOk, noBody), init);
      if st.clientDead { StepForwards(p, s, st, script[|script| - 1]); }
    }
  }

  /** What one step does to the raw capture and the byte count. */
  lemma RawFields(p: Protocol, s: Settings, st: State, e: Event)
    ensures var r := StepOf(p, s, st, e);
            if st.stopped || !e.Received? then
              r.respBuf == st.respBuf && r.overflow == st.overflow && r.received == st.received
            else
              && r.received == st.received + e.bytes
              && (!st.clientDead ==> r.respBuf == st.respBuf + e.bytes && r.overflow == st.overflow)
              && (st.clientDead && !s.onCancel ==> r.respBuf == st.respBuf && r.overflow == st.overflow)
              && (st.clientDead && s.onCancel ==>
                    var c := CaptureOf(st, e.bytes, e.cap);
                    r.respBuf == c.respBuf && r.overflow == c.overflow)
  {
  }
}
