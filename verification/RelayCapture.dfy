/**
 The raw capture of a response against the stream it was taken from. While the client lives, every
 byte is kept; afterwards a cap, read anew for each chunk, decides how much of the chunk is kept.
 */
module RelayCapture {
  import opened Prelude
  import opened Engine
  import opened Relay

  /** One relayed request: its protocol, settings, and how its response head fared. */
  datatype Relayed = Relayed(p: Protocol, s: Settings, headOk: bool, noBody: bool)

  function At(q: Relayed, script: seq<Event>, i: nat): State
    requires i <= |script|
  {
    RunOf(q.p, q.s, Begin(q.s, q.headOk, q.noBody), script[..i])
  }

  predicate KeepsPrefix(q: Relayed, script: seq<Event>) {
    At(q, script, |script|).respBuf <= At(q, script, |script|).received
  }

  /** The next chunk goes through the bounded capture. */
  predicate Drains(s: Settings, st: State) {
    st.clientDead && s.onCancel && !st.stopped
  }

  /** Bytes were refused before, and now there is room for some of this chunk. */
  predicate Reopens(s: Settings, st: State, e: Event) {
    e.Received? && e.bytes != [] && Drains(s, st) && st.overflow > 0 && e.cap > |st.respBuf|
  }

  predicate ReopensAt(q: Relayed, script: seq<Event>, i: nat)
    requires i < |script|
  {
    Reopens(q.s, At(q, script, i), script[i])
  }

  predicate NeverReopens(q: Relayed, script: seq<Event>) {
    forall i | 0 <= i < |script| :: !ReopensAt(q, script, i)
  }

  /** Equal but for the contents of the chunks: the lengths are the same. */
  predicate Alike(x: Event, y: Event) {
    if x.Received? then y.Received? && |x.bytes| == |y.bytes| && x.writeOk == y.writeOk && x.cap == y.cap
    else x == y
  }

  predicate SameShape(a: seq<Event>, b: seq<Event>) {
    |a| == |b| && forall i | 0 <= i < |a| :: Alike(a[i], b[i])
  }

  /** Equal but for what the chunks hold and how long they are. */
  predicate AlikeFate(x: Event, y: Event) {
    if x.Received? then y.Received? && x.writeOk == y.writeOk && x.cap == y.cap else x == y
  }

  predicate SameFates(a: seq<Event>, b: seq<Event>) {
    |a| == |b| && forall i | 0 <= i < |a| :: AlikeFate(a[i], b[i])
  }

  predicate DrainedAt(q: Relayed, script: seq<Event>, i: nat)
    requires i < |script|
  {
    script[i].Received? && Drains(q.s, At(q, script, i))
  }

  /** No drained chunk meets a larger cap than an earlier drained chunk did. */
  predicate CapsFall(q: Relayed, script: seq<Event>) {
    forall i, j | 0 <= i < j < |script| && DrainedAt(q, script, i) && DrainedAt(q, script, j) ::
      script[j].cap <= script[i].cap
  }

  // ---------------------------------------------------------------------------------------------
  // Steps

  lemma AtNext(q: Relayed, script: seq<Event>, i: nat)
    requires i < |script|
    ensures At(q, script, i + 1) == StepOf(q.p, q.s, At(q, script, i), script[i])
  {
    assert script[..i + 1][..i] == script[..i];
  }

  lemma AtBooked(q: Relayed, script: seq<Event>, i: nat)
    requires i <= |script|
    ensures var st := At(q, script, i);
            |st.respBuf| + st.overflow == |st.received| && (!st.clientDead ==> st.respBuf == st.received)
  {
    RunAccounted(q.p, q.s, Begin(q.s, q.headOk, q.noBody), script[..i]);
  }

  function DeadAfter(dead: bool, stopped: bool, e: Event): bool {
    dead || (!stopped && (e.ClientGone? || (e.Received? && !e.writeOk)))
  }

  function StoppedAfter(s: Settings, dead: bool, stopped: bool, e: Event): bool {
    stopped
    || e.StreamEnd? || e.ReadError? || (e.WindowElapsed? && dead)
    || (!s.onCancel && (if dead then e.Received? else e.ClientGone? || (e.Received? && !e.writeOk)))
  }

  lemma FlagsAfter(p: Protocol, s: Settings, st: State, e: Event)
    ensures StepOf(p, s, st, e).clientDead == DeadAfter(st.clientDead, st.stopped, e)
    ensures StepOf(p, s, st, e).stopped == StoppedAfter(s, st.clientDead, st.stopped, e)
  {
  }

  /** Whether the client is dead and the pump stopped does not depend on what the chunks hold. */
  lemma {:induction false} SameFlags(q: Relayed, a: seq<Event>, b: seq<Event>, i: nat)
    requires SameFates(a, b) && i <= |a|
    ensures At(q, a, i).clientDead == At(q, b, i).clientDead && At(q, a, i).stopped == At(q, b, i).stopped
  {
    if i > 0 {
      SameFlags(q, a, b, i - 1);
      AtNext(q, a, i - 1);
      AtNext(q, b, i - 1);
      FlagsAfter(q.p, q.s, At(q, a, i - 1), a[i - 1]);
      FlagsAfter(q.p, q.s, At(q, b, i - 1), b[i - 1]);
      assert AlikeFate(a[i - 1], b[i - 1]);
    }
  }

  lemma StepSizes(p: Protocol, s: Settings, a: State, b: State, x: Event, y: Event)
    requires Alike(x, y) && a.clientDead == b.clientDead && a.stopped == b.stopped
    requires |a.respBuf| == |b.respBuf| && a.overflow == b.overflow
    ensures var r, t := StepOf(p, s, a, x), StepOf(p, s, b, y);
            |r.respBuf| == |t.respBuf| && r.overflow == t.overflow
  {
    RawFields(p, s, a, x);
    RawFields(p, s, b, y);
  }

  lemma {:induction false} SameSizes(q: Relayed, a: seq<Event>, b: seq<Event>, i: nat)
    requires SameShape(a, b) && i <= |a|
    ensures |At(q, a, i).respBuf| == |At(q, b, i).respBuf| && At(q, a, i).overflow == At(q, b, i).overflow
  {
    if i > 0 {
      SameSizes(q, a, b, i - 1);
      SameFlags(q, a, b, i - 1);
      AtNext(q, a, i - 1);
      AtNext(q, b, i - 1);
      StepSizes(q.p, q.s, At(q, a, i - 1), At(q, b, i - 1), a[i - 1], b[i - 1]);
    }
  }

  lemma ShapeKeepsGuard(q: Relayed, a: seq<Event>, b: seq<Event>)
    requires SameShape(a, b)
    ensures NeverReopens(q, a) == NeverReopens(q, b)
  {
    forall i | 0 <= i < |a| ensures ReopensAt(q, a, i) == ReopensAt(q, b, i) {
      SameSizes(q, a, b, i);
      SameFlags(q, a, b, i);
    }
  }

  // ---------------------------------------------------------------------------------------------
  // The guard is enough

  lemma PrefixStep(p: Protocol, s: Settings, st: State, e: Event)
    requires st.respBuf <= st.received && |st.respBuf| + st.overflow == |st.received|
    requires !st.clientDead ==> st.respBuf == st.received
    requires !Reopens(s, st, e)
    ensures StepOf(p, s, st, e).respBuf <= StepOf(p, s, st, e).received
  {
    RawFields(p, s, st, e);
    if e.Received? && Drains(s, st) && st.overflow == 0 {
      assert st.respBuf == st.received;
    }
  }

  /** A capture that never takes bytes again after refusing some is a prefix of the stream. */
  lemma {:induction false} CaptureIsPrefix(q: Relayed, script: seq<Event>, i: nat)
    requires NeverReopens(q, script) && i <= |script|
    ensures At(q, script, i).respBuf <= At(q, script, i).received
  {
    if i > 0 {
      CaptureIsPrefix(q, script, i - 1);
      AtBooked(q, script, i - 1);
      AtNext(q, script, i - 1);
      assert !ReopensAt(q, script, i - 1);
      PrefixStep(q.p, q.s, At(q, script, i - 1), script[i - 1]);
    }
  }

  // ---------------------------------------------------------------------------------------------
  // The guard is necessary

  /** Position `n` of the capture is not position `n` of the stream. */
  predicate Differs(st: State, n: nat) {
    n < |st.respBuf| && n < |st.received| && st.respBuf[n] != st.received[n]
  }

  lemma {:induction false} DifferenceStays(q: Relayed, script: seq<Event>, i: nat, j: nat, n: nat)
    requires i <= j <= |script| && Differs(At(q, script, i), n)
    ensures Differs(At(q, script, j), n)
    decreases j
  {
    if i < j {
      DifferenceStays(q, script, i, j - 1, n);
      AtNext(q, script, j - 1);
      RawFields(q.p, q.s, At(q, script, j - 1), script[j - 1]);
    }
  }

  function Filled(n: nat, b: byte): (s: seq<byte>)
    ensures |s| == n && forall k | 0 <= k < n :: s[k] == b
  {
    seq(n, k requires 0 <= k < n => b)
  }

  function Refill(e: Event, s: seq<byte>): Event {
    if e.Received? then e.(bytes := s) else e
  }

  function LengthOf(e: Event): nat {
    if e.Received? then |e.bytes| else 0
  }

  /** The same chunks, all zero before `g` and all one from there. */
  function Painted(script: seq<Event>, g: nat): (r: seq<Event>)
    ensures SameShape(script, r)
  {
    seq(|script|, i requires 0 <= i < |script| =>
      Refill(script[i], Filled(LengthOf(script[i]), if i < g then 0 else 1)))
  }

  predicate Blank(st: State) {
    (forall k | 0 <= k < |st.respBuf| :: st.respBuf[k] == 0)
    && (forall k | 0 <= k < |st.received| :: st.received[k] == 0)
  }

  lemma {:induction false} BlankBefore(q: Relayed, script: seq<Event>, g: nat, i: nat)
    requires i <= g <= |script|
    ensures Blank(At(q, Painted(script, g), i))
  {
    if i > 0 {
      var painted := Painted(script, g);
      BlankBefore(q, script, g, i - 1);
      AtNext(q, painted, i - 1);
      RawFields(q.p, q.s, At(q, painted, i - 1), painted[i - 1]);
    }
  }

  lemma ReopeningDiffers(p: Protocol, s: Settings, st: State, e: Event)
    requires Blank(st) && |st.respBuf| + st.overflow == |st.received|
    requires Reopens(s, st, e) && e.bytes == Filled(|e.bytes|, 1)
    ensures Differs(StepOf(p, s, st, e), |st.respBuf|)
  {
    RawFields(p, s, st, e);
  }

  /** Where the guard fails, some contents of the same chunks leave a gap. */
  lemma GapWhereItReopens(q: Relayed, script: seq<Event>, g: nat)
    requires g < |script| && ReopensAt(q, script, g)
    ensures !KeepsPrefix(q, Painted(script, g))
  {
    var painted := Painted(script, g);
    SameSizes(q, script, painted, g);
    SameFlags(q, script, painted, g);
    BlankBefore(q, script, g, g);
    AtBooked(q, painted, g);
    AtNext(q, painted, g);
    ReopeningDiffers(q.p, q.s, At(q, painted, g), painted[g]);
    DifferenceStays(q, painted, g + 1, |script|, |At(q, painted, g).respBuf|);
  }

  /**
   For chunks of given lengths, fates and caps, the capture is a prefix of the stream whatever they
   hold iff no chunk finds room after bytes were refused.
   */
  lemma CapturePrefixIff(q: Relayed, script: seq<Event>)
    ensures NeverReopens(q, script) <==> forall other | SameShape(script, other) :: KeepsPrefix(q, other)
  {
    if NeverReopens(q, script) {
      forall other | SameShape(script, other) ensures KeepsPrefix(q, other) {
        ShapeKeepsGuard(q, script, other);
        CaptureIsPrefix(q, other, |other|);
      }
    } else {
      var g :| 0 <= g < |script| && ReopensAt(q, script, g);
      GapWhereItReopens(q, script, g);
      assert SameShape(script, Painted(script, g));
    }
  }

  // ---------------------------------------------------------------------------------------------
  // In terms of the caps alone

  lemma FullStep(p: Protocol, s: Settings, st: State, e: Event, cap: nat)
    requires st.overflow > 0 ==> cap <= |st.respBuf|
    ensures var r := StepOf(p, s, st, e);
            r.overflow > 0 ==> cap <= |r.respBuf| || (e.Received? && Drains(s, st) && e.cap <= |r.respBuf|)
    ensures var r := StepOf(p, s, st, e);
            r.overflow > 0 && st.overflow == 0 ==> e.Received? && Drains(s, st) && e.cap <= |r.respBuf|
  {
    RawFields(p, s, st, e);
  }

  /** Bytes are only ever refused by the cap of a drained chunk, which the capture then fills. */
  lemma {:induction false} RefusedByCap(q: Relayed, script: seq<Event>, i: nat) returns (k: nat)
    requires i <= |script| && At(q, script, i).overflow > 0
    ensures k < i && DrainedAt(q, script, k) && script[k].cap <= |At(q, script, i).respBuf|
  {
    var st := At(q, script, i - 1);
    AtNext(q, script, i - 1);
    if st.overflow > 0 {
      k := RefusedByCap(q, script, i - 1);
      FullStep(q.p, q.s, st, script[i - 1], script[k].cap);
      if script[k].cap > |At(q, script, i).respBuf| { k := i - 1; }
    } else {
      FullStep(q.p, q.s, st, script[i - 1], 0);
      k := i - 1;
    }
  }

  lemma FallingCapsNeverReopen(q: Relayed, script: seq<Event>)
    requires CapsFall(q, script)
    ensures NeverReopens(q, script)
  {
    forall j | 0 <= j < |script| ensures !ReopensAt(q, script, j) {
      if At(q, script, j).overflow > 0 {
        var k := RefusedByCap(q, script, j);
        assert DrainedAt(q, script, j) ==> script[j].cap <= script[k].cap;
      }
    }
  }

  lemma FatesKeepCapsFall(q: Relayed, a: seq<Event>, b: seq<Event>)
    requires SameFates(a, b) && CapsFall(q, a)
    ensures CapsFall(q, b)
  {
    forall i | 0 <= i < |a| ensures DrainedAt(q, a, i) == DrainedAt(q, b, i) {
      SameFlags(q, a, b, i);
    }
  }

  /** The same fates, with one byte too many in chunk `i`, one byte in chunk `j`, nothing elsewhere. */
  function Probe(script: seq<Event>, i: nat, j: nat): (r: seq<Event>)
    requires i < j < |script| && script[i].Received?
    ensures SameFates(script, r)
  {
    seq(|script|, k requires 0 <= k < |script| =>
      Refill(script[k], if k == i then Filled(script[i].cap + 1, 0) else if k == j then [0] else []))
  }

  lemma {:induction false} EmptyChunks(q: Relayed, script: seq<Event>, i: nat, j: nat)
    requires i <= j <= |script| && forall k | i <= k < j :: LengthOf(script[k]) == 0
    ensures At(q, script, j).respBuf == At(q, script, i).respBuf
    ensures At(q, script, j).overflow == At(q, script, i).overflow
    decreases j
  {
    if i < j {
      EmptyChunks(q, script, i, j - 1);
      AtNext(q, script, j - 1);
      RawFields(q.p, q.s, At(q, script, j - 1), script[j - 1]);
    }
  }

  lemma ProbeReopens(q: Relayed, script: seq<Event>, i: nat, j: nat)
    requires i < j < |script| && DrainedAt(q, script, i) && DrainedAt(q, script, j)
    requires script[i].cap < script[j].cap
    ensures ReopensAt(q, Probe(script, i, j), j)
  {
    var probe := Probe(script, i, j);
    SameFlags(q, script, probe, i);
    SameFlags(q, script, probe, j);
    EmptyChunks(q, probe, 0, i);
    AtNext(q, probe, i);
    RawFields(q.p, q.s, At(q, probe, i), probe[i]);
    EmptyChunks(q, probe, i + 1, j);
  }

  lemma PrefixWhereCapsFall(q: Relayed, script: seq<Event>, other: seq<Event>)
    requires CapsFall(q, script) && SameFates(script, other)
    ensures KeepsPrefix(q, other)
  {
    FatesKeepCapsFall(q, script, other);
    FallingCapsNeverReopen(q, other);
    CaptureIsPrefix(q, other, |other|);
  }

  /**
   For given fates and caps, the capture is a prefix of the stream whatever arrives iff no chunk that
   is drained meets a larger cap than a chunk drained before it. Caps of other chunks do not matter.
   */
  lemma CapturePrefixIffCapsFall(q: Relayed, script: seq<Event>)
    ensures CapsFall(q, script) <==> forall other | SameFates(script, other) :: KeepsPrefix(q, other)
  {
    if CapsFall(q, script) {
      forall other | SameFates(script, other) ensures KeepsPrefix(q, other) {
        PrefixWhereCapsFall(q, script, other);
      }
    } else {
      var other := GapWhereCapsRise(q, script);
    }
  }

  lemma GapWhereCapsRise(q: Relayed, script: seq<Event>) returns (other: seq<Event>)
    requires !CapsFall(q, script)
    ensures SameFates(script, other) && !KeepsPrefix(q, other)
  {
    var i, j :| 0 <= i < j < |script| && DrainedAt(q, script, i) && DrainedAt(q, script, j)
      && script[j].cap > script[i].cap;
    ProbeReopens(q, script, i, j);
    GapWhereItReopens(q, Probe(script, i, j), j);
    other := Painted(Probe(script, i, j), j);
  }

  /** A cap that grows between two drained chunks leaves a gap: the capture is no prefix any more. */
  lemma GrowingCapLeavesGap(p: Protocol)
    ensures var script := [ClientGone, Received([1, 2], true, 1), Received([3], true, 2)];
            var st := RunOf(p, Settings(true, false), Begin(Settings(true, false), true, false), script);
            st.respBuf == [1, 3] && st.received == [1, 2, 3]
  {
    var s := Settings(true, false);
    var script := [ClientGone, Received([1, 2], true, 1), Received([3], true, 2)];
    var s2, s1 := script[..2], script[..1];
    assert s2[..1] == s1 && s1[..0] == [];
    var st0 := Begin(s, true, false);
    var st1 := StepOf(p, s, st0, script[0]);
    assert RunOf(p, s, st0, s1) == st1;
    var st2 := StepOf(p, s, st1, script[1]);
    assert RunOf(p, s, st0, s2) == st2;
    assert st2.respBuf == [1] && st2.received == [1, 2];
  }
}
