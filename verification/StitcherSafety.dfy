/** What the session ids and the table size guarantee over every run of the stitcher. */
module StitcherSafety {
  import opened Prelude
  import opened Stitcher
  import opened StitcherRuns

  // ---------------------------------------------------------------------------------------------
  // One step, as the log sees it

  predicate Reopens(s: State, key: Key, now: nat) {
    key in s.states && Live(s.states[key], now, s.ttlMs)
  }

  /** The same first two messages, or the same single message or none. */
  predicate SameHead(a: seq<Message>, b: seq<Message>) {
    if |a| < 2 then a == b else |b| >= 2 && a[0] == b[0] && a[1] == b[1]
  }

  /** Chains are filed under the credential scope and the head of the conversation, no more, no less. */
  lemma KeyIsScopeAndHead(scope: string, a: seq<Message>, other: string, b: seq<Message>)
    ensures KeyOf(scope, a) == KeyOf(other, b) <==> scope == other && SameHead(a, b)
  {
    var x, y := a[..Min(2, |a|)], b[..Min(2, |b|)];
    assert |a| < 2 ==> x == a;
    assert |b| < 2 ==> y == b;
    if |a| >= 2 && |b| >= 2 {
      assert x == [a[0], a[1]] && y == [b[0], b[1]];
    }
  }

  lemma RequestEffect(s: State, op: Op, s': State, out: Answer)
    requires op.Request? && Assigns(s, op.scope, op.messages, op.now, s', out)
    ensures var key := KeyOf(op.scope, op.messages);
            && key in s'.states && s'.states[key] == Chain(op.messages, out.session, op.now)
            && (forall k | k in s'.states && k != key :: k in s.states && s'.states[k] == s.states[k])
            && (out.breakpoint <==> Reopens(s, key, op.now) && !(s.states[key].history <= op.messages))
            && (if Reopens(s, key, op.now) && s.states[key].history <= op.messages
                then out.session == s.states[key].session && s'.nextNonce == s.nextNonce
                else out.session == SessionId(op.messages, s.nextNonce) && s'.nextNonce == s.nextNonce + 1)
  {
    var key := KeyOf(op.scope, op.messages);
    var r := DropExpired(Sweep(s, op.now), key, op.now);
    SweepKeepsLive(s, key, op.now);
    if key !in r.states {
      var kept := FreshShape(r, key, op.messages, op.now, s', out);
    }
  }

  // ---------------------------------------------------------------------------------------------
  // Sessions

  /** Ids in the table were issued already, and no two chains share one. */
  predicate Sound(s: State) {
    && (forall k | k in s.states :: s.states[k].session.nonce < s.nextNonce)
    && (forall a, b | a in s.states && b in s.states && s.states[a].session == s.states[b].session :: a == b)
  }

  predicate Issued(s: State, id: SessionId) {
    id.nonce < s.nextNonce
  }

  predicate Held(s: State, id: SessionId) {
    exists k :: k in s.states && s.states[k].session == id
  }

  lemma StepSound(s: State, op: Op, s': State, out: Option<Answer>)
    requires Sound(s) && Steps(false, s, op, s', out)
    ensures Sound(s') && s.nextNonce <= s'.nextNonce
    ensures out.Some? ==> Issued(s', out.value.session)
  {
    if op.Request? { RequestEffect(s, op, s', out.value); }
  }

  /** An id that was issued and is no longer held stays gone, and is not the answer of the step. */
  lemma StepNeverRevives(s: State, op: Op, s': State, out: Option<Answer>, id: SessionId)
    requires Issued(s, id) && !Held(s, id) && Steps(false, s, op, s', out)
    ensures Issued(s', id) && !Held(s', id)
    ensures out.Some? ==> out.value.session != id
  {
    if op.Request? {
      RequestEffect(s, op, s', out.value);
      var key := KeyOf(op.scope, op.messages);
      if key in s.states { assert s.states[key].session != id; }
    }
  }

  lemma {:induction false} RunSound(capacity: nat, ttlMs: nat, ops: seq<Op>, r: Run, n: nat)
    requires IsRun(false, Initial(capacity, ttlMs), ops, r) && n <= |ops|
    ensures Sound(r.trace[n])
  {
    if n > 0 {
      RunSound(capacity, ttlMs, ops, r, n - 1);
      assert StepsAt(false, ops, r, n - 1);
      StepSound(r.trace[n - 1], ops[n - 1], r.trace[n], r.outs[n - 1]);
    }
  }

  lemma {:induction false} GoneForGood(eagerInit: State, ops: seq<Op>, r: Run, m: nat, n: nat, id: SessionId)
    requires IsRun(false, eagerInit, ops, r) && m <= n < |ops|
    requires Issued(r.trace[m], id) && !Held(r.trace[m], id)
    ensures Issued(r.trace[n], id) && !Held(r.trace[n], id)
    ensures r.outs[n].Some? ==> r.outs[n].value.session != id
    decreases n
  {
    if m < n { GoneForGood(eagerInit, ops, r, m, n - 1, id); }
    if m < n {
      assert StepsAt(false, ops, r, n - 1);
      StepNeverRevives(r.trace[n - 1], ops[n - 1], r.trace[n], r.outs[n - 1], id);
    }
    assert StepsAt(false, ops, r, n);
    StepNeverRevives(r.trace[n], ops[n], r.trace[n + 1], r.outs[n], id);
  }

  /** Request `i` of the run got this id. */
  predicate Got(ops: seq<Op>, r: Run, i: int, id: SessionId) {
    0 <= i < |ops| && i < |r.outs| && ops[i].Request? && r.outs[i].Some? && r.outs[i].value.session == id
  }

  predicate UnusedBetween(ops: seq<Op>, r: Run, i: int, n: int, id: SessionId) {
    forall m | i < m < n :: !Got(ops, r, m, id)
  }

  /** How the table remembers a use: same key, a history extending it, and its time if the latest. */
  lemma {:induction false} Remembered(
    capacity: nat, ttlMs: nat, ops: seq<Op>, r: Run, i: nat, n: nat, id: SessionId, k: Key)
    requires IsRun(false, Initial(capacity, ttlMs), ops, r) && i < n <= |ops| && Got(ops, r, i, id)
    requires k in r.trace[n].states && r.trace[n].states[k].session == id
    ensures k == KeyOf(ops[i].scope, ops[i].messages)
    ensures ops[i].messages <= r.trace[n].states[k].history
    ensures UnusedBetween(ops, r, i, n, id) ==> r.trace[n].states[k].lastUsed == ops[i].now
    decreases n
  {
    var s, s', op := r.trace[n - 1], r.trace[n], ops[n - 1];
    assert StepsAt(false, ops, r, n - 1);
    RunSound(capacity, ttlMs, ops, r, n - 1);
    if op.Request? { RequestEffect(s, op, s', r.outs[n - 1].value); }
    if i == n - 1 {
      RunSound(capacity, ttlMs, ops, r, n);
    } else {
      IssuedAt(capacity, ttlMs, ops, r, i, n - 1, id);
      if op.Request? && k == KeyOf(op.scope, op.messages) {
        assert Got(ops, r, n - 1, id);
      }
      Remembered(capacity, ttlMs, ops, r, i, n - 1, id, k);
    }
  }

  lemma {:induction false} IssuedAt(
    capacity: nat, ttlMs: nat, ops: seq<Op>, r: Run, i: nat, n: nat, id: SessionId)
    requires IsRun(false, Initial(capacity, ttlMs), ops, r) && i < n <= |ops| && Got(ops, r, i, id)
    ensures Issued(r.trace[n], id)
    decreases n
  {
    RunSound(capacity, ttlMs, ops, r, n - 1);
    assert StepsAt(false, ops, r, n - 1);
    StepSound(r.trace[n - 1], ops[n - 1], r.trace[n], r.outs[n - 1]);
    if i < n - 1 { IssuedAt(capacity, ttlMs, ops, r, i, n - 1, id); }
  }

  /**
   Two requests answered with one session id belong to one scope and head, the earlier history is a
   prefix of the later one, and consecutive uses are less than the TTL apart.
   */
  lemma SameSessionSameConversation(
    capacity: nat, ttlMs: nat, ops: seq<Op>, r: Run, i: nat, j: nat, id: SessionId)
    requires IsRun(false, Initial(capacity, ttlMs), ops, r) && i < j < |ops|
    requires Got(ops, r, i, id) && Got(ops, r, j, id)
    ensures ops[i].scope == ops[j].scope && SameHead(ops[i].messages, ops[j].messages)
    ensures ops[i].messages <= ops[j].messages
    ensures UnusedBetween(ops, r, i, j, id) ==> ops[j].now - ops[i].now < r.trace[j].ttlMs * 1_000_000
    ensures !r.outs[j].value.breakpoint
  {
    assert StepsAt(false, ops, r, j);
    RequestEffect(r.trace[j], ops[j], r.trace[j + 1], r.outs[j].value);
    IssuedAt(capacity, ttlMs, ops, r, i, j, id);
    var key := KeyOf(ops[j].scope, ops[j].messages);
    assert Reopens(r.trace[j], key, ops[j].now);
    Remembered(capacity, ttlMs, ops, r, i, j, id, key);
    KeyIsScopeAndHead(ops[i].scope, ops[i].messages, ops[j].scope, ops[j].messages);
  }

  /** Leaving a session at a breakpoint abandons it: no later request is given its id. */
  lemma BreakpointEndsSession(capacity: nat, ttlMs: nat, ops: seq<Op>, r: Run, n: nat, m: nat)
    requires IsRun(false, Initial(capacity, ttlMs), ops, r) && n < m < |ops|
    requires ops[n].Request? && r.outs[n].Some? && r.outs[n].value.breakpoint
    ensures var key := KeyOf(ops[n].scope, ops[n].messages);
            key in r.trace[n].states
            && (r.outs[m].Some? ==> r.outs[m].value.session != r.trace[n].states[key].session)
  {
    RunSound(capacity, ttlMs, ops, r, n);
    assert StepsAt(false, ops, r, n);
    RequestEffect(r.trace[n], ops[n], r.trace[n + 1], r.outs[n].value);
    var id := r.trace[n].states[KeyOf(ops[n].scope, ops[n].messages)].session;
    GoneForGood(Initial(capacity, ttlMs), ops, r, n + 1, m, id);
  }

  /** An id handed out and then expired or evicted from the table is never handed out again. */
  lemma LostSessionNeverReturns(
    capacity: nat, ttlMs: nat, ops: seq<Op>, r: Run, i: nat, n: nat, m: nat, id: SessionId)
    requires IsRun(false, Initial(capacity, ttlMs), ops, r) && i < n <= m < |ops|
    requires Got(ops, r, i, id) && !Held(r.trace[n], id)
    ensures !Got(ops, r, m, id)
  {
    IssuedAt(capacity, ttlMs, ops, r, i, n, id);
    GoneForGood(Initial(capacity, ttlMs), ops, r, n, m, id);
  }

  /** The use at `i` is the last before request `n`, which comes when the TTL has run out on it. */
  predicate ExpiredBy(ops: seq<Op>, r: Run, i: nat, n: nat, id: SessionId)
    requires |r.trace| == |ops| + 1 && |r.outs| == |ops|
  {
    && i < n < |ops| && Got(ops, r, i, id) && UnusedBetween(ops, r, i, n, id) && ops[n].Request?
    && ops[n].now - ops[i].now >= r.trace[n].ttlMs * 1_000_000
  }

  /** No reload from `n` on raises the TTL above `ttlMs`. */
  predicate TtlAtMost(ops: seq<Op>, n: nat, ttlMs: nat) {
    forall k | n <= k < |ops| && ops[k].Limits? :: Max(ops[k].ttlMs, 1) <= ttlMs
  }

  function LatestCapacity(first: nat, ops: seq<Op>): nat {
    if ops == [] then first
    else if ops[|ops| - 1].Limits? then ops[|ops| - 1].capacity
    else LatestCapacity(first, ops[..|ops| - 1])
  }

  function LatestTtl(first: nat, ops: seq<Op>): nat {
    if ops == [] then first
    else if ops[|ops| - 1].Limits? then ops[|ops| - 1].ttlMs
    else LatestTtl(first, ops[..|ops| - 1])
  }

  /** The limits in force are those of the latest reload, each at least one. */
  lemma {:induction false} LimitsAreLatest(capacity: nat, ttlMs: nat, ops: seq<Op>, r: Run, n: nat)
    requires IsRun(false, Initial(capacity, ttlMs), ops, r) && n <= |ops|
    ensures r.trace[n].capacity == Max(LatestCapacity(capacity, ops[..n]), 1)
    ensures r.trace[n].ttlMs == Max(LatestTtl(ttlMs, ops[..n]), 1)
  {
    if n > 0 {
      LimitsAreLatest(capacity, ttlMs, ops, r, n - 1);
      LimitsAfter(Initial(capacity, ttlMs), ops, r, n - 1);
      LatestNext(capacity, ttlMs, ops, n - 1);
    }
  }

  lemma LatestNext(capacity: nat, ttlMs: nat, ops: seq<Op>, k: nat)
    requires k < |ops|
    ensures LatestCapacity(capacity, ops[..k + 1])
         == if ops[k].Limits? then ops[k].capacity else LatestCapacity(capacity, ops[..k])
    ensures LatestTtl(ttlMs, ops[..k + 1]) == if ops[k].Limits? then ops[k].ttlMs else LatestTtl(ttlMs, ops[..k])
  {
    assert ops[..k + 1][..k] == ops[..k];
  }

  lemma LimitsAfter(init: State, ops: seq<Op>, r: Run, k: nat)
    requires IsRun(false, init, ops, r) && k < |ops|
    ensures r.trace[k + 1].capacity == if ops[k].Limits? then Max(ops[k].capacity, 1) else r.trace[k].capacity
    ensures r.trace[k + 1].ttlMs == if ops[k].Limits? then Max(ops[k].ttlMs, 1) else r.trace[k].ttlMs
  {
    assert StepsAt(false, ops, r, k);
    StepLimits(r.trace[k], ops[k], r.trace[k + 1], r.outs[k]);
  }

  lemma {:induction false} TtlBounded(init: State, ops: seq<Op>, r: Run, n: nat, m: nat)
    requires IsRun(false, init, ops, r) && n <= m <= |ops| && TtlAtMost(ops, n, r.trace[n].ttlMs)
    ensures r.trace[m].ttlMs <= r.trace[n].ttlMs
    decreases m
  {
    if n < m {
      TtlBounded(init, ops, r, n, m - 1);
      LimitsAfter(init, ops, r, m - 1);
    }
  }

  /**
   A session whose TTL has run out is never returned again, whether its chain was swept, removed,
   evicted or still lies in the table.
   */
  lemma {:induction false} ExpiredSessionNeverReturns(
    capacity: nat, ttlMs: nat, ops: seq<Op>, r: Run, i: nat, n: nat, m: nat, id: SessionId)
    requires IsRun(false, Initial(capacity, ttlMs), ops, r) && Increasing(ops)
    requires ExpiredBy(ops, r, i, n, id) && TtlAtMost(ops, n, r.trace[n].ttlMs) && n <= m < |ops|
    ensures !Got(ops, r, m, id)
    decreases m
  {
    forall j | n <= j < m ensures !Got(ops, r, j, id) {
      ExpiredSessionNeverReturns(capacity, ttlMs, ops, r, i, n, j, id);
    }
    TtlBounded(Initial(capacity, ttlMs), ops, r, n, m);
    if Got(ops, r, m, id) {
      assert UnusedBetween(ops, r, i, m, id);
      SameSessionSameConversation(capacity, ttlMs, ops, r, i, m, id);
    }
  }

  /** A run of requests with one reload from TTL `t1` to `t2` in between. */
  ghost predicate ReloadedRun(capacity: nat, t1: nat, before: seq<Op>, c: nat, t2: nat, after: seq<Op>, r: Run) {
    var ops := before + [Limits(c, t2)] + after;
    AllRequests(before) && AllRequests(after) && Increasing(ops) && IsRun(false, Initial(capacity, t1), ops, r)
  }

  /** Some session is returned although its TTL had run out. */
  predicate Returns(ops: seq<Op>, r: Run, i: nat, n: nat, m: nat, id: SessionId) {
    && |r.trace| == |ops| + 1 && |r.outs| == |ops|
    && ExpiredBy(ops, r, i, n, id) && n <= m < |ops| && Got(ops, r, m, id)
  }

  lemma {:induction false} TtlOfReloadedRun(
    capacity: nat, t1: nat, before: seq<Op>, c: nat, t2: nat, after: seq<Op>, r: Run, n: nat)
    requires 1 <= t2 <= t1 && ReloadedRun(capacity, t1, before, c, t2, after, r)
    requires n <= |before| + 1 + |after|
    ensures r.trace[n].ttlMs >= t2
  {
    var ops := before + [Limits(c, t2)] + after;
    if n > 0 {
      TtlOfReloadedRun(capacity, t1, before, c, t2, after, r, n - 1);
      LimitsAfter(Initial(capacity, t1), ops, r, n - 1);
    }
  }

  /** In the run in which the reload revives a chain, the first session expires and comes back. */
  lemma RevivedReturns(t1: nat, t2: nat, r: Run)
    requires Revival(false, t1, t2, r)
    ensures Returns(RevivalOps(t1, t2), r, 0, 2, 4, FIRST)
  {
    var ops := RevivalOps(t1, t2);
    assert StepsAt(false, ops, r, 0) && StepsAt(false, ops, r, 1);
    FirstRequest(false, t1, r.trace[1], r.outs[0]);
    DifferentKeys();
    RequestEffect(r.trace[0], ops[0], r.trace[1], r.outs[0].value);
    RequestEffect(r.trace[1], ops[1], r.trace[2], r.outs[1].value);
    LazyAt2(t1, t2, r);
    LazyRevives(t1, t2, r);
  }

  /** Expired sessions stay lost in every run with one reload iff the reload does not raise the TTL. */
  lemma ExpiredStaysLostIff(t1: nat, t2: nat)
    requires t1 >= 1 && t2 >= 1
    ensures t2 <= t1 <==>
      forall capacity: nat, before: seq<Op>, c: nat, after: seq<Op>, r: Run, i: nat, n: nat, m: nat, id: SessionId |
        ReloadedRun(capacity, t1, before, c, t2, after, r) ::
          !Returns(before + [Limits(c, t2)] + after, r, i, n, m, id)
  {
    if t2 <= t1 {
      forall capacity: nat, before: seq<Op>, c: nat, after: seq<Op>, r: Run, i: nat, n: nat, m: nat, id: SessionId |
        ReloadedRun(capacity, t1, before, c, t2, after, r)
        ensures !Returns(before + [Limits(c, t2)] + after, r, i, n, m, id)
      {
        ReloadKeepsLost(capacity, t1, before, c, t2, after, r, i, n, m, id);
      }
    } else {
      var ops := RevivalOps(t1, t2);
      var r := RunExists(false, Initial(10, t1), ops);
      RevivedReturns(t1, t2, r);
      assert ops == ops[..3] + [Limits(10, t2)] + ops[4..];
      assert ReloadedRun(10, t1, ops[..3], 10, t2, ops[4..], r);
    }
  }

  lemma ReloadKeepsLost(
    capacity: nat, t1: nat, before: seq<Op>, c: nat, t2: nat, after: seq<Op>, r: Run,
    i: nat, n: nat, m: nat, id: SessionId)
    requires 1 <= t2 <= t1 && ReloadedRun(capacity, t1, before, c, t2, after, r)
    ensures !Returns(before + [Limits(c, t2)] + after, r, i, n, m, id)
  {
    var ops := before + [Limits(c, t2)] + after;
    if Returns(ops, r, i, n, m, id) {
      TtlOfReloadedRun(capacity, t1, before, c, t2, after, r, n);
      ExpiredSessionNeverReturns(capacity, t1, ops, r, i, n, m, id);
    }
  }

  /** A breakpoint is reported exactly when a live chain of the same head is not a prefix. */
  lemma BreakpointExactly(capacity: nat, ttlMs: nat, ops: seq<Op>, r: Run, n: nat)
    requires IsRun(false, Initial(capacity, ttlMs), ops, r) && n < |ops| && ops[n].Request?
    ensures var key := KeyOf(ops[n].scope, ops[n].messages);
            r.outs[n].Some?
            && (r.outs[n].value.breakpoint <==>
                  Reopens(r.trace[n], key, ops[n].now)
                  && !(r.trace[n].states[key].history <= ops[n].messages))
  {
    assert StepsAt(false, ops, r, n);
    RequestEffect(r.trace[n], ops[n], r.trace[n + 1], r.outs[n].value);
  }

  // ---------------------------------------------------------------------------------------------
  // Bounds and bookkeeping

  /** Every chain ever inserted is held or counted as gone; sweeps are paid for in elapsed time. */
  predicate Booked(s: State) {
    && s.inserts == |s.states| + s.expired + s.evicted + s.lookupRemovals
    && s.sweeps * 30_000 <= s.lastSweepMs
    && s.capacity >= 1
  }

  /** The chains whose TTL has run out at this time. */
  function ExpiredAt(s: State, now: nat): set<Key> {
    set k | k in s.states && now - s.states[k].lastUsed >= s.ttlMs * 1_000_000
  }

  /** What one request adds to each counter, and when the sweep is made. */
  lemma RequestCounts(s: State, op: Op, s': State, out: Option<Answer>)
    requires op.Request? && Steps(false, s, op, s', out) && s.ttlMs >= 1
    ensures var due := op.now / 1_000_000 - s.lastSweepMs >= 30_000;
            var key := KeyOf(op.scope, op.messages);
            && s'.expired == s.expired + (if due then |ExpiredAt(s, op.now)| else 0)
            && s'.sweeps == s.sweeps + (if due then 1 else 0)
            && s'.lastSweepMs == (if due then op.now / 1_000_000 else s.lastSweepMs)
            && (Reopens(s, key, op.now) ==> s'.evicted == s.evicted)
            && (due && !Reopens(s, key, op.now) ==>
                  s'.evicted - s.evicted
                  == Max(|s.states| - |ExpiredAt(s, op.now)| - Max(s.capacity - 1, 0), 0))
  {
    var key := KeyOf(op.scope, op.messages);
    var e := DropExpired(Sweep(s, op.now), key, op.now);
    SweepKeepsLive(s, key, op.now);
    ExpiredAndLive(s, op.now);
    if key !in e.states {
      var kept := FreshShape(e, key, op.messages, op.now, s', out.value);
    }
  }

  lemma ExpiredAndLive(s: State, now: nat)
    requires s.ttlMs >= 1
    ensures |LivePart(s.states, now, s.ttlMs)| + |ExpiredAt(s, now)| == |s.states|
  {
    var live := LivePart(s.states, now, s.ttlMs);
    assert live.Keys + ExpiredAt(s, now) == s.states.Keys && live.Keys !! ExpiredAt(s, now);
    assert |live.Keys + ExpiredAt(s, now)| == |live.Keys| + |ExpiredAt(s, now)|;
  }

  lemma ExpiryBooked(s: State, key: Key, now: nat)
    requires Booked(s)
    ensures Booked(DropExpired(Sweep(s, now), key, now))
    ensures |DropExpired(Sweep(s, now), key, now).states| <= |s.states|
  {
    var live := LivePart(s.states, now, s.ttlMs);
    SubsetSize(live.Keys, s.states.Keys);
    var swept := Sweep(s, now);
    if key in swept.states {
      assert (swept.states - {key}).Keys == swept.states.Keys - {key};
      assert |swept.states.Keys - {key}| == |swept.states.Keys| - 1;
    }
  }

  lemma StepBooked(s: State, op: Op, s': State, out: Option<Answer>)
    requires Booked(s) && Steps(false, s, op, s', out)
    ensures Booked(s')
    ensures op.Request? ==> s'.capacity == s.capacity
    ensures s'.inserts > s.inserts ==> |s'.states| <= s'.capacity
    ensures s'.inserts == s.inserts ==> |s'.states| <= |s.states|
  {
    if op.Request? {
      var key := KeyOf(op.scope, op.messages);
      var e := DropExpired(Sweep(s, op.now), key, op.now);
      ExpiryBooked(s, key, op.now);
      if key in e.states {
        assert s'.states.Keys == e.states.Keys;
      } else {
        var kept := FreshShape(e, key, op.messages, op.now, s', out.value);
      }
    }
  }

  /** Over every run the books balance and sweeping stays amortised. */
  lemma {:induction false} RunBooked(capacity: nat, ttlMs: nat, ops: seq<Op>, r: Run, n: nat)
    requires IsRun(false, Initial(capacity, ttlMs), ops, r) && n <= |ops|
    ensures Booked(r.trace[n])
  {
    if n > 0 {
      RunBooked(capacity, ttlMs, ops, r, n - 1);
      assert StepsAt(false, ops, r, n - 1);
      StepBooked(r.trace[n - 1], ops[n - 1], r.trace[n], r.outs[n - 1]);
    }
  }

  /** Without reloads the table never exceeds its capacity. */
  lemma {:induction false} TableBounded(capacity: nat, ttlMs: nat, ops: seq<Op>, r: Run, n: nat)
    requires IsRun(false, Initial(capacity, ttlMs), ops, r) && n <= |ops| && AllRequests(ops)
    ensures |r.trace[n].states| <= r.trace[n].capacity == Max(capacity, 1)
  {
    if n > 0 {
      TableBounded(capacity, ttlMs, ops, r, n - 1);
      RunBooked(capacity, ttlMs, ops, r, n - 1);
      assert StepsAt(false, ops, r, n - 1);
      StepBooked(r.trace[n - 1], ops[n - 1], r.trace[n], r.outs[n - 1]);
      InsertsGrow(r.trace[n - 1], ops[n - 1], r.trace[n], r.outs[n - 1]);
    }
  }

  lemma InsertsGrow(s: State, op: Op, s': State, out: Option<Answer>)
    requires Steps(false, s, op, s', out)
    ensures s.inserts <= s'.inserts
  {
  }

  /** After a reload shrinks the capacity, the next request that opens a chain trims the table to it. */
  lemma ShrunkCapacityHolds(capacity: nat, ttlMs: nat, ops: seq<Op>, r: Run, n: nat)
    requires IsRun(false, Initial(capacity, ttlMs), ops, r) && n < |ops| && ops[n].Request?
    requires !Reopens(r.trace[n], KeyOf(ops[n].scope, ops[n].messages), ops[n].now)
    ensures |r.trace[n + 1].states| <= r.trace[n + 1].capacity == r.trace[n].capacity
  {
    RunBooked(capacity, ttlMs, ops, r, n);
    assert StepsAt(false, ops, r, n);
    var s, key := r.trace[n], KeyOf(ops[n].scope, ops[n].messages);
    SweepKeepsLive(s, key, ops[n].now);
    StepBooked(s, ops[n], r.trace[n + 1], r.outs[n]);
    assert r.trace[n + 1].inserts == s.inserts + 1;
  }
}
