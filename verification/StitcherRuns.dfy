/** Whole runs of the stitcher: equivalence with the eager purge, session safety, bounds. */
module StitcherRuns {
  import opened Prelude
  import opened Stitcher

  datatype Op =
    | Request(scope: string, messages: seq<Message>, now: nat)
    | Limits(capacity: nat, ttlMs: nat)

  ghost predicate Steps(eager: bool, s: State, op: Op, s': State, out: Option<Answer>) {
    match op
    case Limits(c, t) => out == None && s' == SetLimitsOf(s, c, t)
    case Request(scope, messages, now) =>
      && out.Some?
      && if eager then EagerlyAssigns(s, scope, messages, now, s', out.value)
         else Assigns(s, scope, messages, now, s', out.value)
  }

  datatype Run = Run(trace: seq<State>, outs: seq<Option<Answer>>)

  ghost predicate IsRun(eager: bool, init: State, ops: seq<Op>, r: Run) {
    && |r.trace| == |ops| + 1 && |r.outs| == |ops| && r.trace[0] == init
    && forall i | 0 <= i < |ops| :: StepsAt(eager, ops, r, i)
  }

  ghost predicate StepsAt(eager: bool, ops: seq<Op>, r: Run, i: nat)
    requires |r.trace| == |ops| + 1 && |r.outs| == |ops| && i < |ops|
  {
    Steps(eager, r.trace[i], ops[i], r.trace[i + 1], r.outs[i])
  }

  // ---------------------------------------------------------------------------------------------
  // Sets and maps

  lemma SubsetSize<T>(a: set<T>, b: set<T>)
    requires a <= b
    ensures |a| <= |b| && (|a| == |b| ==> a == b)
  {
    assert b == a + (b - a) && |b| == |a| + |b - a|;
  }

  predicate DistinctTimes(m: Table) {
    forall a, b | a in m && b in m && m[a].lastUsed == m[b].lastUsed :: a == b
  }

  // ---------------------------------------------------------------------------------------------
  // Every state has a step (so runs exist)

  lemma TrimExists(m: Table, capacity: nat) returns (t: Table)
    requires capacity >= 1
    ensures Trimmed(m, t, capacity)
    decreases |m|
  {
    if |m| < capacity {
      t := m;
    } else {
      var k := OldestExists(m);
      var rest := m - {k};
      assert rest.Keys == m.Keys - {k};
      t := TrimExists(rest, capacity);
      forall gone, kept | gone in m && gone !in t && kept in t
        ensures m[gone].lastUsed <= m[kept].lastUsed
      {
        if gone != k { assert gone in rest; }
      }
    }
  }

  lemma ResolveExists(e: State, key: Key, messages: seq<Message>, now: nat) returns (s': State, out: Answer)
    requires e.capacity >= 1
    ensures Resolves(e, key, messages, now, s', out) && s'.capacity >= 1
  {
    var id := SessionId(messages, e.nextNonce);
    if key in e.states {
      var c := e.states[key];
      if c.history <= messages {
        s' := e.(states := e.states[key := Chain(messages, c.session, now)]);
        out := Answer(c.session, false);
      } else {
        s' := e.(states := e.states[key := Chain(messages, id, now)], nextNonce := e.nextNonce + 1);
        out := Answer(id, true);
      }
    } else {
      var t := TrimExists(e.states, e.capacity);
      var after := t[key := Chain(messages, id, now)];
      assert after - {key} == t;
      s' := e.(states := after, nextNonce := e.nextNonce + 1, inserts := e.inserts + 1,
               evicted := e.evicted + (|e.states| - |t|));
      out := Answer(id, false);
    }
  }

  lemma StepExists(eager: bool, s: State, op: Op) returns (s': State, out: Option<Answer>)
    requires s.capacity >= 1
    ensures Steps(eager, s, op, s', out) && s'.capacity >= 1
  {
    match op {
      case Limits(c, t) =>
        s', out := SetLimitsOf(s, c, t), None;
      case Request(scope, messages, now) =>
        var key := KeyOf(scope, messages);
        var e := if eager then Purge(s, now) else DropExpired(Sweep(s, now), key, now);
        var answer;
        s', answer := ResolveExists(e, key, messages, now);
        out := Some(answer);
    }
  }

  lemma {:induction false} RunExists(eager: bool, init: State, ops: seq<Op>) returns (r: Run)
    requires init.capacity >= 1
    ensures IsRun(eager, init, ops, r) && r.trace[|ops|].capacity >= 1
    decreases |ops|
  {
    if ops == [] {
      r := Run([init], []);
    } else {
      var n := |ops| - 1;
      var before := RunExists(eager, init, ops[..n]);
      var s', out := StepExists(eager, before.trace[n], ops[n]);
      r := Run(before.trace + [s'], before.outs + [out]);
      forall i | 0 <= i < |ops| ensures StepsAt(eager, ops, r, i) {
        if i < n { assert StepsAt(eager, ops[..n], before, i); }
      }
    }
  }

  // ---------------------------------------------------------------------------------------------
  // Lazy and eager expiry cannot be told apart

  /** Strictly increasing request times, and a TTL that no reload raises. */
  predicate Paced(ops: seq<Op>, ttlMs: nat, last: int)
    decreases ops
  {
    ops == [] ||
    match ops[0]
    case Request(_, _, now) => last < now && Paced(ops[1..], ttlMs, now)
    case Limits(_, t) => Max(t, 1) <= ttlMs && Paced(ops[1..], Max(t, 1), last)
  }

  /** The eager table is the lazy one without some chains that had already expired at `last`. */
  ghost predicate Similar(lazy: State, eager: State, last: int) {
    && lazy.capacity == eager.capacity >= 1 && lazy.ttlMs == eager.ttlMs && lazy.nextNonce == eager.nextNonce
    && (forall k | k in eager.states :: k in lazy.states && lazy.states[k] == eager.states[k])
    && (forall k | k in lazy.states :: lazy.states[k].lastUsed <= last)
    && (forall k | k in lazy.states && last - lazy.states[k].lastUsed < lazy.ttlMs * NS_PER_MS ::
          k in eager.states)
    && DistinctTimes(lazy.states)
  }

  lemma StrictlySmaller<T>(a: set<T>, b: set<T>, x: T)
    requires a <= b && x in b && x !in a
    ensures |a| < |b|
  {
    SubsetSize(a, b);
  }

  lemma TrimmedSizes(a: Table, b: Table, a': Table, b': Table, capacity: nat)
    requires b.Keys <= a.Keys && Trimmed(a, a', capacity) && Trimmed(b, b', capacity)
    ensures |b'.Keys| <= |a'.Keys|
    ensures |b'.Keys| < |a'.Keys| ==> b'.Keys == b.Keys
  {
    SubsetSize(b.Keys, a.Keys);
    SubsetSize(b'.Keys, b.Keys);
  }

  /** Both evictions respect age, so neither can drop a live chain that the other keeps. */
  lemma AgeOrder(a: Table, b: Table, a': Table, b': Table, capacity: nat, now: nat, ttlMs: nat, x: Key, y: Key)
    requires DistinctTimes(a) && b == LivePart(a, now, ttlMs)
    requires Trimmed(a, a', capacity) && Trimmed(b, b', capacity)
    requires forall k | k in a :: a[k].lastUsed <= now
    requires x in b' && x !in a' && y in a'
    ensures y in b'
  {
    assert x in a && y in a;
    assert a[x].lastUsed <= a[y].lastUsed;
    assert y in b;
  }

  /**
   Evicting from a table that still holds expired chains keeps the same live chains as evicting from
   the purged table: LRU takes the expired ones first.
   */
  lemma TrimsAgree(a: Table, b: Table, a': Table, b': Table, capacity: nat, now: nat, ttlMs: nat)
    requires DistinctTimes(a) && b == LivePart(a, now, ttlMs)
    requires Trimmed(a, a', capacity) && Trimmed(b, b', capacity)
    requires forall k | k in a :: a[k].lastUsed <= now
    ensures b'.Keys <= a'.Keys
    ensures forall k | k in a' && Live(a'[k], now, ttlMs) :: k in b'
  {
    TrimmedSizes(a, b, a', b', capacity);
    forall x | x in b' ensures x in a' {
      if x !in a' {
        forall y | y in a' ensures y in b' {
          AgeOrder(a, b, a', b', capacity, now, ttlMs, x, y);
        }
        StrictlySmaller(a'.Keys, b'.Keys, x);
      }
    }
    forall y | y in a' && Live(a'[y], now, ttlMs) ensures y in b' {
      assert y in b.Keys;
      if y !in b' { StrictlySmaller(b'.Keys, a'.Keys, y); }
    }
  }

  // Expiry before the lookup, in both versions

  /** After expiry both tables hold the same live chains, and the looked-up key is live or absent. */
  ghost predicate Aligned(lazy: State, eager: State, key: Key, now: nat) {
    && lazy.capacity == eager.capacity >= 1 && lazy.ttlMs == eager.ttlMs && lazy.nextNonce == eager.nextNonce
    && eager.states == LivePart(lazy.states, now, lazy.ttlMs)
    && (key in lazy.states ==> key in eager.states)
    && (forall k | k in lazy.states :: lazy.states[k].lastUsed < now)
    && DistinctTimes(lazy.states)
  }

  lemma SweepKeepsLive(s: State, key: Key, now: nat)
    ensures var r := DropExpired(Sweep(s, now), key, now);
            && r.capacity == s.capacity && r.ttlMs == s.ttlMs && r.nextNonce == s.nextNonce
            && (forall k | k in r.states :: k in s.states && r.states[k] == s.states[k])
            && (forall k | k in s.states && Live(s.states[k], now, s.ttlMs) :: k in r.states)
            && (key in r.states ==> Live(r.states[key], now, s.ttlMs))
  {
  }

  lemma ExpiryAligns(lazy: State, eager: State, key: Key, last: int, now: nat)
    requires Similar(lazy, eager, last) && last < now
    ensures Aligned(DropExpired(Sweep(lazy, now), key, now), Purge(eager, now), key, now)
  {
    SweepKeepsLive(lazy, key, now);
    var m, b := DropExpired(Sweep(lazy, now), key, now).states, eager.states;
    forall k
      ensures k in LivePart(b, now, lazy.ttlMs) <==> k in LivePart(m, now, lazy.ttlMs)
    {
    }
    assert LivePart(b, now, lazy.ttlMs) == LivePart(m, now, lazy.ttlMs);
  }

  lemma FreshShape(s: State, key: Key, messages: seq<Message>, now: nat, s': State, out: Answer) returns (kept: Table)
    requires Resolves(s, key, messages, now, s', out) && key !in s.states
    ensures Trimmed(s.states, kept, s.capacity)
    ensures s'.states == kept[key := Chain(messages, SessionId(messages, s.nextNonce), now)]
    ensures out == Answer(SessionId(messages, s.nextNonce), false)
    ensures s'.nextNonce == s.nextNonce + 1 && s'.capacity == s.capacity && s'.ttlMs == s.ttlMs
    ensures s'.inserts == s.inserts + 1 && s'.evicted == s.evicted + (|s.states| - |kept|)
    ensures s'.expired == s.expired && s'.lookupRemovals == s.lookupRemovals
    ensures s'.lastSweepMs == s.lastSweepMs && s'.sweeps == s.sweeps
    ensures key !in kept && |s'.states| == |kept| + 1
  {
    kept := s'.states - {key};
    assert s'.states.Keys == kept.Keys + {key};
    assert |kept.Keys + {key}| == |kept.Keys| + 1;
  }

  lemma ResolveFresh(
    lazy: State, eager: State, key: Key, messages: seq<Message>, now: nat,
    lazy': State, eager': State, a: Answer, b: Answer)
    requires Aligned(lazy, eager, key, now) && key !in lazy.states
    requires Resolves(lazy, key, messages, now, lazy', a) && Resolves(eager, key, messages, now, eager', b)
    ensures a == b && Similar(lazy', eager', now)
  {
    var ka := FreshShape(lazy, key, messages, now, lazy', a);
    var kb := FreshShape(eager, key, messages, now, eager', b);
    TrimsAgree(lazy.states, eager.states, ka, kb, lazy.capacity, now, lazy.ttlMs);
    WithNewest(ka, kb, lazy'.states, eager'.states, key, now, lazy.ttlMs);
  }

  /** Storing the same chain under the same key, used now, keeps two tables similar. */
  lemma WithNewest(ka: Table, kb: Table, ta: Table, tb: Table, key: Key, now: nat, ttlMs: nat)
    requires key in ta && ta[key].lastUsed == now && ta == ka[key := ta[key]] && tb == kb[key := ta[key]]
    requires forall k | k in kb :: k in ka && ka[k] == kb[k]
    requires forall k | k in ka && Live(ka[k], now, ttlMs) :: k in kb
    requires forall k | k in ka && k != key :: ka[k].lastUsed < now
    requires forall x, y | x in ka && y in ka && ka[x].lastUsed == ka[y].lastUsed :: x == y
    ensures forall k | k in tb :: k in ta && ta[k] == tb[k]
    ensures forall k | k in ta :: ta[k].lastUsed <= now
    ensures forall k | k in ta && Live(ta[k], now, ttlMs) :: k in tb
    ensures DistinctTimes(ta)
  {
  }

  lemma ResolveKnown(
    lazy: State, eager: State, key: Key, messages: seq<Message>, now: nat,
    lazy': State, eager': State, a: Answer, b: Answer)
    requires Aligned(lazy, eager, key, now) && key in lazy.states
    requires Resolves(lazy, key, messages, now, lazy', a) && Resolves(eager, key, messages, now, eager', b)
    ensures a == b && Similar(lazy', eager', now)
  {
    WithNewest(lazy.states, eager.states, lazy'.states, eager'.states, key, now, lazy.ttlMs);
  }

  lemma ResolveAgrees(
    lazy: State, eager: State, key: Key, messages: seq<Message>, now: nat,
    lazy': State, eager': State, a: Answer, b: Answer)
    requires Aligned(lazy, eager, key, now)
    requires Resolves(lazy, key, messages, now, lazy', a) && Resolves(eager, key, messages, now, eager', b)
    ensures a == b && Similar(lazy', eager', now)
  {
    if key in lazy.states {
      ResolveKnown(lazy, eager, key, messages, now, lazy', eager', a, b);
    } else {
      ResolveFresh(lazy, eager, key, messages, now, lazy', eager', a, b);
    }
  }

  lemma StepAgrees(
    lazy: State, eager: State, op: Op, last: int, lazy': State, eager': State,
    a: Option<Answer>, b: Option<Answer>)
    requires Similar(lazy, eager, last)
    requires op.Request? ==> last < op.now
    requires op.Limits? ==> Max(op.ttlMs, 1) <= lazy.ttlMs
    requires Steps(false, lazy, op, lazy', a) && Steps(true, eager, op, eager', b)
    ensures a == b && Similar(lazy', eager', if op.Request? then op.now else last)
  {
    if op.Request? {
      var key := KeyOf(op.scope, op.messages);
      ExpiryAligns(lazy, eager, key, last, op.now);
      ResolveAgrees(
        DropExpired(Sweep(lazy, op.now), key, op.now), Purge(eager, op.now), key, op.messages, op.now,
        lazy', eager', a.value, b.value);
    }
  }

  lemma {:induction false} AgreeFrom(
    lazy: State, eager: State, last: int, ops: seq<Op>, l: Run, e: Run)
    requires Similar(lazy, eager, last) && Paced(ops, lazy.ttlMs, last)
    requires IsRun(false, lazy, ops, l) && IsRun(true, eager, ops, e)
    ensures l.outs == e.outs
    decreases |ops|
  {
    if ops != [] {
      var op := ops[0];
      assert StepsAt(false, ops, l, 0) && StepsAt(true, ops, e, 0);
      StepAgrees(lazy, eager, op, last, l.trace[1], e.trace[1], l.outs[0], e.outs[0]);
      var l', e' := Run(l.trace[1..], l.outs[1..]), Run(e.trace[1..], e.outs[1..]);
      TailRun(false, lazy, ops, l);
      TailRun(true, eager, ops, e);
      StepLimits(lazy, op, l.trace[1], l.outs[0]);
      AgreeFrom(l.trace[1], e.trace[1], if op.Request? then op.now else last, ops[1..], l', e');
      assert l.outs == [l.outs[0]] + l'.outs && e.outs == [e.outs[0]] + e'.outs;
    }
  }

  lemma TailRun(eager: bool, init: State, ops: seq<Op>, r: Run)
    requires ops != [] && IsRun(eager, init, ops, r)
    ensures IsRun(eager, r.trace[1], ops[1..], Run(r.trace[1..], r.outs[1..]))
  {
    var rest := Run(r.trace[1..], r.outs[1..]);
    forall i | 0 <= i < |ops[1..]| ensures StepsAt(eager, ops[1..], rest, i) {
      assert StepsAt(eager, ops, r, i + 1);
    }
  }

  lemma StepLimits(s: State, op: Op, s': State, out: Option<Answer>)
    requires Steps(false, s, op, s', out)
    ensures s'.capacity == if op.Limits? then Max(op.capacity, 1) else s.capacity
    ensures s'.ttlMs == if op.Limits? then Max(op.ttlMs, 1) else s.ttlMs
  {
  }

  /**
   For every sequence of requests and reloads with increasing times and a TTL that never grows, the
   amortised stitcher answers exactly as the one that purges on every request.
   */
  lemma LazyEqualsEager(capacity: nat, ttlMs: nat, ops: seq<Op>, l: Run, e: Run)
    requires Paced(ops, Max(ttlMs, 1), -1)
    requires IsRun(false, Initial(capacity, ttlMs), ops, l) && IsRun(true, Initial(capacity, ttlMs), ops, e)
    ensures l.outs == e.outs
  {
    AgreeFrom(Initial(capacity, ttlMs), Initial(capacity, ttlMs), -1, ops, l, e);
  }

  // ---------------------------------------------------------------------------------------------
  // A TTL that grows revives a chain the eager version has forgotten

  const A: seq<Message> := ["a"]
  const B: seq<Message> := ["b"]
  const FIRST := SessionId(A, 0)

  function RevivalOps(t1: nat, t2: nat): seq<Op> {
    var end := t1 * NS_PER_MS;
    [Request("s", A, 1), Request("s", B, end), Request("s", B, end + 1), Limits(10, t2), Request("s", A, end + 2)]
  }

  lemma TrimNothing(m: Table, t: Table, capacity: nat)
    requires Trimmed(m, t, capacity) && |m| < capacity
    ensures t == m
  {
    SubsetSize(t.Keys, m.Keys);
  }

  /** A chain under another key survives a request that neither sweeps it away nor needs its room. */
  lemma Bystander(s: State, k: Key, scope: string, messages: seq<Message>, now: nat, s': State, out: Answer)
    requires Assigns(s, scope, messages, now, s', out) && k in s.states && k != KeyOf(scope, messages)
    requires Live(s.states[k], now, s.ttlMs) || !SweepDue(s, now)
    requires |s.states| < s.capacity
    ensures k in s'.states && s'.states[k] == s.states[k] && |s'.states| <= |s.states| + 1
    ensures s'.capacity == s.capacity && s'.ttlMs == s.ttlMs
    ensures s'.lastSweepMs == if SweepDue(s, now) then now / NS_PER_MS else s.lastSweepMs
  {
    var key := KeyOf(scope, messages);
    var r := DropExpired(Sweep(s, now), key, now);
    SweepKeepsLive(s, key, now);
    SubsetSize(r.states.Keys, s.states.Keys);
    if key in r.states {
      assert s'.states.Keys == r.states.Keys;
    } else {
      var kept := FreshShape(r, key, messages, now, s', out);
      TrimNothing(r.states, kept, r.capacity);
    }
  }

  lemma FirstRequest(eager: bool, t1: nat, s': State, out: Option<Answer>)
    requires t1 >= 1 && Steps(eager, Initial(10, t1), Request("s", A, 1), s', out)
    ensures s'.states == map[KeyOf("s", A) := Chain(A, FIRST, 1)]
    ensures s'.nextNonce == 1 && s'.capacity == 10 && s'.ttlMs == t1 && s'.lastSweepMs == 0
  {
    var s, key := Initial(10, t1), KeyOf("s", A);
    var r := if eager then Purge(s, 1) else DropExpired(Sweep(s, 1), key, 1);
    assert r.states == map[];
    var kept := FreshShape(r, key, A, 1, s', out.value);
    TrimNothing(r.states, kept, 10);
  }

  lemma SameMillisecond(t: nat)
    ensures t * NS_PER_MS / NS_PER_MS == t
    ensures (t * NS_PER_MS + 1) / NS_PER_MS == t
    ensures (t * NS_PER_MS + 2) / NS_PER_MS == t
  {
  }

  /** The first chain as stored at time 1, in a table with room. */
  predicate Holds(s: State, ttlMs: nat, size: nat) {
    && KeyOf("s", A) in s.states && s.states[KeyOf("s", A)] == Chain(A, FIRST, 1)
    && |s.states| <= size && s.capacity == 10 && s.ttlMs == ttlMs
  }

  lemma LazyKeeps(t1: nat, s: State, size: nat, now: nat, s': State, out: Option<Answer>)
    requires Holds(s, t1, size) && size < 10 && Steps(false, s, Request("s", B, now), s', out)
    requires now - 1 < t1 * NS_PER_MS || !SweepDue(s, now)
    requires now >= 1
    ensures Holds(s', t1, size + 1)
    ensures s'.lastSweepMs == if SweepDue(s, now) then now / NS_PER_MS else s.lastSweepMs
  {
    DifferentKeys();
    Bystander(s, KeyOf("s", A), "s", B, now, s', out.value);
  }

  lemma DifferentKeys()
    ensures KeyOf("s", A) != KeyOf("s", B)
  {
    assert A[..1] == A && B[..1] == B && A[0] != B[0];
  }

  lemma LazyExtends(t1: nat, t2: nat, s: State, s': State, out: Option<Answer>)
    requires t1 < t2 && Holds(s, t2, 9) && t1 - s.lastSweepMs < SWEEP_INTERVAL_MS
    requires Steps(false, s, Request("s", A, t1 * NS_PER_MS + 2), s', out)
    ensures out == Some(Answer(FIRST, false))
  {
    SameMillisecond(t1);
    assert !SweepDue(s, t1 * NS_PER_MS + 2);
    assert Live(Chain(A, FIRST, 1), t1 * NS_PER_MS + 2, t2);
  }

  ghost predicate Revival(eager: bool, t1: nat, t2: nat, r: Run) {
    1 <= t1 < t2 && IsRun(eager, Initial(10, t1), RevivalOps(t1, t2), r)
  }

  /** The first chain is held, and no sweep falls due within the millisecond in which it expires. */
  predicate Unswept(s: State, t1: nat, ttlMs: nat, size: nat) {
    Holds(s, ttlMs, size) && t1 - s.lastSweepMs < SWEEP_INTERVAL_MS
  }

  lemma LazyAt2(t1: nat, t2: nat, l: Run)
    requires Revival(false, t1, t2, l)
    ensures Unswept(l.trace[2], t1, t1, 2)
  {
    var ops := RevivalOps(t1, t2);
    assert StepsAt(false, ops, l, 0) && StepsAt(false, ops, l, 1);
    FirstRequest(false, t1, l.trace[1], l.outs[0]);
    SameMillisecond(t1);
    LazyKeeps(t1, l.trace[1], 1, t1 * NS_PER_MS, l.trace[2], l.outs[1]);
  }

  lemma LazyAt3(t1: nat, t2: nat, l: Run)
    requires Revival(false, t1, t2, l) && Unswept(l.trace[2], t1, t1, 2)
    ensures Unswept(l.trace[3], t1, t1, 3)
  {
    assert StepsAt(false, RevivalOps(t1, t2), l, 2);
    SameMillisecond(t1);
    LazyKeeps(t1, l.trace[2], 2, t1 * NS_PER_MS + 1, l.trace[3], l.outs[2]);
  }

  lemma LazyAt4(t1: nat, t2: nat, l: Run)
    requires Revival(false, t1, t2, l) && Unswept(l.trace[3], t1, t1, 3)
    ensures Unswept(l.trace[4], t1, t2, 9)
  {
    assert StepsAt(false, RevivalOps(t1, t2), l, 3);
  }

  lemma LazyRevives(t1: nat, t2: nat, l: Run)
    requires Revival(false, t1, t2, l)
    ensures l.outs[4] == Some(Answer(FIRST, false))
  {
    LazyAt2(t1, t2, l);
    LazyAt3(t1, t2, l);
    LazyAt4(t1, t2, l);
    assert StepsAt(false, RevivalOps(t1, t2), l, 4);
    LazyExtends(t1, t2, l.trace[4], l.trace[5], l.outs[4]);
  }

  lemma EagerDrops(t1: nat, s: State, now: nat, s': State, out: Option<Answer>)
    requires s.ttlMs == t1 && Steps(true, s, Request("s", B, now), s', out)
    requires KeyOf("s", A) in s.states ==> s.states[KeyOf("s", A)] == Chain(A, FIRST, 1)
    ensures KeyOf("s", A) in s'.states ==> s'.states[KeyOf("s", A)] == Chain(A, FIRST, 1)
    ensures now - 1 >= t1 * NS_PER_MS ==> KeyOf("s", A) !in s'.states
    ensures s'.nextNonce >= s.nextNonce && s'.ttlMs == s.ttlMs
  {
    DifferentKeys();
    ElsewhereEager(s, KeyOf("s", A), B, now, s', out.value);
  }

  lemma EagerReopens(s: State, now: nat, s': State, out: Option<Answer>)
    requires KeyOf("s", A) !in s.states && s.nextNonce >= 1 && Steps(true, s, Request("s", A, now), s', out)
    ensures out.Some? && out.value.session.nonce >= 1
  {
    var kept := FreshShape(Purge(s, now), KeyOf("s", A), A, now, s', out.value);
  }

  predicate FirstOrGone(s: State, t1: nat) {
    && (KeyOf("s", A) in s.states ==> s.states[KeyOf("s", A)] == Chain(A, FIRST, 1))
    && s.nextNonce >= 1 && s.ttlMs == t1
  }

  lemma EagerAt2(t1: nat, t2: nat, e: Run)
    requires Revival(true, t1, t2, e)
    ensures FirstOrGone(e.trace[2], t1)
  {
    var ops := RevivalOps(t1, t2);
    assert StepsAt(true, ops, e, 0) && StepsAt(true, ops, e, 1);
    FirstRequest(true, t1, e.trace[1], e.outs[0]);
    EagerDrops(t1, e.trace[1], t1 * NS_PER_MS, e.trace[2], e.outs[1]);
  }

  predicate Gone(s: State) {
    KeyOf("s", A) !in s.states && s.nextNonce >= 1
  }

  lemma EagerAt3(t1: nat, t2: nat, e: Run)
    requires Revival(true, t1, t2, e) && FirstOrGone(e.trace[2], t1)
    ensures Gone(e.trace[3])
  {
    assert StepsAt(true, RevivalOps(t1, t2), e, 2);
    EagerDrops(t1, e.trace[2], t1 * NS_PER_MS + 1, e.trace[3], e.outs[2]);
  }

  lemma EagerAt4(t1: nat, t2: nat, e: Run)
    requires Revival(true, t1, t2, e) && Gone(e.trace[3])
    ensures Gone(e.trace[4])
  {
    assert StepsAt(true, RevivalOps(t1, t2), e, 3);
  }

  lemma EagerForgets(t1: nat, t2: nat, e: Run)
    requires Revival(true, t1, t2, e)
    ensures e.outs[4].Some? && e.outs[4].value.session.nonce >= 1
  {
    EagerAt2(t1, t2, e);
    EagerAt3(t1, t2, e);
    EagerAt4(t1, t2, e);
    assert StepsAt(true, RevivalOps(t1, t2), e, 4);
    EagerReopens(e.trace[4], t1 * NS_PER_MS + 2, e.trace[5], e.outs[4]);
  }

  /** An eager request under another key leaves at most the chain it found, and only while live. */
  lemma ElsewhereEager(s: State, k: Key, messages: seq<Message>, now: nat, s': State, out: Answer)
    requires EagerlyAssigns(s, "s", messages, now, s', out) && k != KeyOf("s", messages)
    ensures k in s'.states ==> k in s.states && s'.states[k] == s.states[k] && Live(s.states[k], now, s.ttlMs)
    ensures s'.nextNonce >= s.nextNonce && s'.ttlMs == s.ttlMs
  {
    var key, r := KeyOf("s", messages), Purge(s, now);
    if key !in r.states {
      var kept := FreshShape(r, key, messages, now, s', out);
    }
  }

  /** The two versions agree on every run iff the reloaded TTL does not exceed the one it replaces. */
  lemma AgreementIffTtlNeverGrows(t1: nat, t2: nat)
    requires t1 >= 1 && t2 >= 1
    ensures t2 <= t1 <==>
      forall capacity: nat, before: seq<Op>, after: seq<Op>, c: nat, l: Run, e: Run |
        && Reloaded(capacity, t1, before, c, t2, after, l, e) :: l.outs == e.outs
  {
    if t2 <= t1 {
      forall capacity: nat, before: seq<Op>, after: seq<Op>, c: nat, l: Run, e: Run |
        Reloaded(capacity, t1, before, c, t2, after, l, e) ensures l.outs == e.outs
      {
        PacedReload(before, c, t1, t2, after);
        LazyEqualsEager(capacity, t1, before + [Limits(c, t2)] + after, l, e);
      }
    } else {
      var ops := RevivalOps(t1, t2);
      var l := RunExists(false, Initial(10, t1), ops);
      var e := RunExists(true, Initial(10, t1), ops);
      assert ops == ops[..3] + [Limits(10, t2)] + ops[4..];
      LazyRevives(t1, t2, l);
      EagerForgets(t1, t2, e);
      assert l.outs != e.outs;
      assert Reloaded(10, t1, ops[..3], 10, t2, ops[4..], l, e);
    }
  }

  predicate AllRequests(ops: seq<Op>) {
    forall i | 0 <= i < |ops| :: ops[i].Request?
  }

  predicate Increasing(ops: seq<Op>) {
    forall i, j | 0 <= i < j < |ops| && ops[i].Request? && ops[j].Request? :: ops[i].now < ops[j].now
  }

  /** Both versions run on the same requests, with one reload from TTL `t1` to `t2` in between. */
  ghost predicate Reloaded(
    capacity: nat, t1: nat, before: seq<Op>, c: nat, t2: nat, after: seq<Op>, l: Run, e: Run)
  {
    var ops := before + [Limits(c, t2)] + after;
    && AllRequests(before) && AllRequests(after) && Increasing(ops)
    && IsRun(false, Initial(capacity, t1), ops, l) && IsRun(true, Initial(capacity, t1), ops, e)
  }

  lemma PacedReload(before: seq<Op>, c: nat, t1: nat, t2: nat, after: seq<Op>)
    requires AllRequests(before) && AllRequests(after) && 1 <= t2 <= t1
    requires Increasing(before + [Limits(c, t2)] + after)
    ensures Paced(before + [Limits(c, t2)] + after, t1, -1)
  {
    PacedFrom(before + [Limits(c, t2)] + after, |before|, t1, -1);
  }

  predicate AllAfter(ops: seq<Op>, last: int) {
    forall i | 0 <= i < |ops| && ops[i].Request? :: last < ops[i].now
  }

  lemma Tail(ops: seq<Op>)
    requires ops != [] && Increasing(ops)
    ensures Increasing(ops[1..]) && (ops[0].Request? ==> AllAfter(ops[1..], ops[0].now))
  {
    assert forall i | 0 <= i < |ops[1..]| :: ops[1..][i] == ops[i + 1];
  }

  /** Requests with a single reload, at `at`, that does not raise the TTL. */
  lemma {:induction false} PacedFrom(ops: seq<Op>, at: nat, ttlMs: nat, last: int)
    requires at < |ops| && ops[at].Limits? && 1 <= ops[at].ttlMs <= ttlMs
    requires AllRequests(ops[..at]) && AllRequests(ops[at + 1..])
    requires Increasing(ops) && AllAfter(ops, last)
    ensures Paced(ops, ttlMs, last)
    decreases at
  {
    Tail(ops);
    if at == 0 {
      assert AllAfter(ops[1..], last) by { assert forall i | 0 <= i < |ops[1..]| :: ops[1..][i] == ops[i + 1]; }
      PacedRequests(ops[1..], ops[0].ttlMs, last);
    } else {
      assert ops[0] == ops[..at][0];
      assert ops[1..][..at - 1] == ops[..at][1..] && ops[1..][at..] == ops[at + 1..];
      PacedFrom(ops[1..], at - 1, ttlMs, ops[0].now);
    }
  }

  lemma {:induction false} PacedRequests(ops: seq<Op>, ttlMs: nat, last: int)
    requires AllRequests(ops) && Increasing(ops)
    requires AllAfter(ops, last)
    ensures Paced(ops, ttlMs, last)
    decreases |ops|
  {
    if ops != [] {
      Tail(ops);
      PacedRequests(ops[1..], ttlMs, ops[0].now);
    }
  }
}
