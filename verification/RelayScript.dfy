/** What the relay did for its client and why it stopped, told from the script of events alone. */
module RelayScript {
  import opened Prelude
  import opened Engine
  import opened Relay
  import opened RelayCapture

  /** The client is found gone: by the probe, or by a write that fails. */
  predicate IsDeath(e: Event) {
    e.ClientGone? || (e.Received? && !e.writeOk)
  }

  /** With a live client the pump runs up to a death, the end of the stream, or a read error. */
  predicate IsLastLive(e: Event) {
    IsDeath(e) || e.StreamEnd? || e.ReadError?
  }

  /** Where the pump stops serving a live client; the length of the script if it has not yet. */
  function LastLive(script: seq<Event>): (k: nat)
    ensures StartsEnd(script, k)
  {
    if script == [] || IsLastLive(script[0]) then 0 else 1 + LastLive(script[1..])
  }

  predicate StartsEnd(script: seq<Event>, k: nat) {
    && k <= |script| && (forall i | 0 <= i < k :: !IsLastLive(script[i]))
    && (k < |script| ==> IsLastLive(script[k]))
  }

  lemma {:induction false} OneLastLive(script: seq<Event>, k: nat)
    requires StartsEnd(script, k)
    ensures LastLive(script) == k
  {
    if k > 0 {
      assert forall i | 0 <= i < k - 1 :: script[1..][i] == script[i + 1];
      OneLastLive(script[1..], k - 1);
    }
  }

  lemma {:induction false} LastLiveSnoc(script: seq<Event>)
    requires script != []
    ensures var n := |script| - 1; var k := LastLive(script[..n]);
            LastLive(script) == if k < n then k else if IsLastLive(script[n]) then n else n + 1
  {
    var n := |script| - 1;
    var k := LastLive(script[..n]);
    assert forall i | 0 <= i < n :: script[..n][i] == script[i];
    OneLastLive(script, if k < n then k else if IsLastLive(script[n]) then n else n + 1);
  }

  /** The bytes that arrived with a live client and were written to it. */
  function Delivered(script: seq<Event>): seq<byte> {
    OfferedBytes(script[..LastLive(script)])
  }

  predicate Died(script: seq<Event>) {
    LastLive(script) < |script| && IsDeath(script[LastLive(script)])
  }

  /** A live client's part of the run, by one event. */
  lemma LiveStep(p: Protocol, s: Settings, st: State, e: Event)
    requires !st.clientDead && !st.stopped
    ensures var r := StepOf(p, s, st, e);
            && r.clientDead == IsDeath(e)
            && (!r.clientDead && !r.stopped <==> !IsLastLive(e))
            && r.forwarded == st.forwarded + (if e.Received? && !IsLastLive(e) then e.bytes else [])
  {
  }

  lemma EndedStep(p: Protocol, s: Settings, st: State, e: Event)
    requires st.clientDead || st.stopped
    ensures var r := StepOf(p, s, st, e);
            && r.clientDead == st.clientDead && r.forwarded == st.forwarded
            && (r.clientDead || r.stopped)
  {
  }

  /**
   With the head delivered, the client is sent exactly the chunks before the first death or end in
   the script, and is taken for dead iff that was a death.
   */
  lemma {:induction false} ServedUntilLastLive(p: Protocol, s: Settings, script: seq<Event>)
    ensures var st := RunOf(p, s, Begin(s, true, false), script);
            && st.forwarded == Delivered(script)
            && st.clientDead == Died(script)
            && (!st.clientDead && !st.stopped <==> LastLive(script) == |script|)
    decreases |script|
  {
    if script != [] {
      var n := |script| - 1;
      var init, e := script[..n], script[n];
      ServedUntilLastLive(p, s, init);
      LastLiveSnoc(script);
      ServedNext(script);
      var st := RunOf(p, s, Begin(s, true, false), init);
      if st.clientDead || st.stopped { EndedStep(p, s, st, e); } else { LiveStep(p, s, st, e); }
    }
  }

  lemma ServedNext(script: seq<Event>)
    requires script != []
    ensures var n := |script| - 1; var init, e := script[..n], script[n];
            && (LastLive(init) < n ==> Delivered(script) == Delivered(init) && Died(script) == Died(init))
            && (LastLive(init) == n ==>
                  Delivered(script) == Delivered(init) + (if e.Received? && !IsLastLive(e) then e.bytes else [])
                  && Died(script) == IsDeath(e))
  {
    var n := |script| - 1;
    LastLiveSnoc(script);
    assert script[..n][..LastLive(script[..n])] == script[..LastLive(script[..n])];
    assert script[..n + 1] == script;
    assert OfferedBytes(script) == OfferedBytes(script[..n]) + (if script[n].Received? then script[n].bytes else []);
  }

  /** When the head could not be written, the client is dead from the start and is sent nothing. */
  lemma {:induction false} NothingAfterFailedHead(p: Protocol, s: Settings, noBody: bool, script: seq<Event>)
    ensures var st := RunOf(p, s, Begin(s, false, noBody), script);
            st.clientDead && st.forwarded == []
    decreases |script|
  {
    if script != [] {
      var init := script[..|script| - 1];
      NothingAfterFailedHead(p, s, noBody, init);
      EndedStep(p, s, RunOf(p, s, Begin(s, false, noBody), init), script[|script| - 1]);
    }
  }

  /** A response without a body, or a failed head without draining, takes nothing from the upstream. */
  lemma {:induction false} NothingTaken(p: Protocol, s: Settings, headOk: bool, noBody: bool, script: seq<Event>)
    requires noBody || (!headOk && !s.onCancel)
    ensures RunOf(p, s, Begin(s, headOk, noBody), script) == Begin(s, headOk, noBody)
    ensures var st := RunOf(p, s, Begin(s, headOk, noBody), script);
            && st.received == [] && st.forwarded == [] && st.respBuf == [] && st.overflow == 0
            && st.clientDead == !headOk && st.endSeen == noBody
            && !st.failed && !st.timedOut
    decreases |script|
  {
    if script != [] { NothingTaken(p, s, headOk, noBody, script[..|script| - 1]); }
  }

  // ---------------------------------------------------------------------------------------------
  // The flags

  /** The event was handled by a running pump. */
  predicate Handled(q: Relayed, script: seq<Event>, i: nat)
    requires i < |script|
  {
    !At(q, script, i).stopped
  }

  predicate HandledEnd(q: Relayed, script: seq<Event>, n: nat)
    requires n <= |script|
  {
    exists i | 0 <= i < n :: script[i].StreamEnd? && Handled(q, script, i)
  }

  predicate HandledError(q: Relayed, script: seq<Event>, n: nat)
    requires n <= |script|
  {
    exists i | 0 <= i < n :: script[i].ReadError? && Handled(q, script, i)
  }

  predicate HandledTimeout(q: Relayed, script: seq<Event>, n: nat)
    requires n <= |script|
  {
    exists i | 0 <= i < n ::
      script[i].WindowElapsed? && Handled(q, script, i) && At(q, script, i).clientDead
  }

  lemma FlagStep(p: Protocol, s: Settings, st: State, e: Event)
    ensures var r := StepOf(p, s, st, e);
            && r.endSeen == (st.endSeen || (!st.stopped && e.StreamEnd?))
            && r.failed == (st.failed || (!st.stopped && e.ReadError?))
            && r.timedOut == (st.timedOut || (!st.stopped && st.clientDead && e.WindowElapsed?))
  {
  }

  /** The end was seen, the upstream failed, or the window elapsed iff that event was handled. */
  lemma {:induction false} FlagsTellTheScript(q: Relayed, script: seq<Event>, n: nat)
    requires n <= |script|
    ensures At(q, script, n).endSeen == (q.noBody || HandledEnd(q, script, n))
    ensures At(q, script, n).failed == HandledError(q, script, n)
    ensures At(q, script, n).timedOut == HandledTimeout(q, script, n)
  {
    if n > 0 {
      FlagsTellTheScript(q, script, n - 1);
      AtNext(q, script, n - 1);
      FlagStep(q.p, q.s, At(q, script, n - 1), script[n - 1]);
      HandledNext(q, script, n - 1);
    }
  }

  lemma HandledNext(q: Relayed, script: seq<Event>, n: nat)
    requires n < |script|
    ensures HandledEnd(q, script, n + 1)
         == (HandledEnd(q, script, n) || (script[n].StreamEnd? && !At(q, script, n).stopped))
    ensures HandledError(q, script, n + 1)
         == (HandledError(q, script, n) || (script[n].ReadError? && !At(q, script, n).stopped))
    ensures HandledTimeout(q, script, n + 1)
         == (HandledTimeout(q, script, n)
             || (script[n].WindowElapsed? && !At(q, script, n).stopped && At(q, script, n).clientDead))
  {
    assert Handled(q, script, n) == !At(q, script, n).stopped;
  }

  // ---------------------------------------------------------------------------------------------
  // The bounded capture

  /**
   While draining, the capture takes what fits under the cap: it grows to the cap at most, refuses
   nothing while there is room, and takes nothing beyond.
   */
  lemma DrainedCapture(p: Protocol, s: Settings, st: State, bytes: seq<byte>, writeOk: bool, cap: nat)
    requires Drains(s, st)
    ensures var r := StepOf(p, s, st, Received(bytes, writeOk, cap));
            && |r.respBuf| == Max(|st.respBuf|, Min(cap, |st.respBuf| + |bytes|))
            && st.respBuf <= r.respBuf <= st.respBuf + bytes
  {
    RawFields(p, s, st, Received(bytes, writeOk, cap));
  }

  /** A live client's chunk is captured whole, whatever the cap. */
  lemma LiveCapture(p: Protocol, s: Settings, st: State, bytes: seq<byte>, writeOk: bool, cap: nat)
    requires !st.clientDead && !st.stopped
    ensures StepOf(p, s, st, Received(bytes, writeOk, cap)).respBuf == st.respBuf + bytes
  {
    RawFields(p, s, st, Received(bytes, writeOk, cap));
  }
}
