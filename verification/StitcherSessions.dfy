/** When a session is kept: the converse of what a shared session id says, and how long chains lie. */
module StitcherSessions {
  import opened Prelude
  import opened Stitcher
  import opened StitcherRuns
  import opened StitcherSafety

  // ---------------------------------------------------------------------------------------------
  // An extension within the TTL keeps its session

  /** A request of the same scope and head. */
  predicate Shares(a: Op, b: Op) {
    a.Request? && b.Request? && a.scope == b.scope && SameHead(a.messages, b.messages)
  }

  /** A live chain survives a request of another scope or head that evicts nothing. */
  lemma StepSpares(s: State, op: Op, s': State, out: Option<Answer>, k: Key)
    requires Steps(false, s, op, s', out) && k in s.states
    requires op.Request? ==> k != KeyOf(op.scope, op.messages) && Live(s.states[k], op.now, s.ttlMs)
    requires s'.evicted == s.evicted
    ensures k in s'.states && s'.states[k] == s.states[k]
  {
    if op.Request? {
      var key := KeyOf(op.scope, op.messages);
      var e := DropExpired(Sweep(s, op.now), key, op.now);
      SweepKeepsLive(s, key, op.now);
      if key !in e.states {
        var kept := FreshShape(e, key, op.messages, op.now, s', out.value);
        SubsetSize(kept.Keys, e.states.Keys);
      }
    }
  }

  lemma StepEvicts(s: State, op: Op, s': State, out: Option<Answer>)
    requires Steps(false, s, op, s', out)
    ensures s.evicted <= s'.evicted
  {
    if op.Request? {
      var key := KeyOf(op.scope, op.messages);
      var e := DropExpired(Sweep(s, op.now), key, op.now);
      if key !in e.states {
        var kept := FreshShape(e, key, op.messages, op.now, s', out.value);
        SubsetSize(kept.Keys, e.states.Keys);
      }
    }
  }

  lemma {:induction false} EvictedGrows(init: State, ops: seq<Op>, r: Run, m: nat, n: nat)
    requires IsRun(false, init, ops, r) && m <= n <= |ops|
    ensures r.trace[m].evicted <= r.trace[n].evicted
    decreases n
  {
    if m < n {
      EvictedGrows(init, ops, r, m, n - 1);
      assert StepsAt(false, ops, r, n - 1);
      StepEvicts(r.trace[n - 1], ops[n - 1], r.trace[n], r.outs[n - 1]);
    }
  }

  /** Nothing between the requests `i` and `j` touches the chain that `i` left. */
  predicate Undisturbed(ops: seq<Op>, r: Run, i: nat, j: nat)
    requires |r.trace| == |ops| + 1
  {
    && i < j < |ops| && ops[i].Request? && ops[j].Request?
    && (forall k | i < k < j :: !Shares(ops[i], ops[k]))
    && (forall k | i < k <= j && ops[k].Request? :: ops[k].now - ops[i].now < r.trace[k].ttlMs * 1_000_000)
    && r.trace[j].evicted == r.trace[i + 1].evicted
  }

  lemma {:induction false} TtlPositive(init: State, ops: seq<Op>, r: Run, n: nat)
    requires IsRun(false, init, ops, r) && init.ttlMs >= 1 && n <= |ops|
    ensures r.trace[n].ttlMs >= 1
  {
    if n > 0 {
      TtlPositive(init, ops, r, n - 1);
      LimitsAfter(init, ops, r, n - 1);
    }
  }

  /** The chain that `i` left is live at every request up to `j`. */
  lemma StaysLive(init: State, ops: seq<Op>, r: Run, i: nat, j: nat, k: nat, c: Chain)
    requires IsRun(false, init, ops, r) && init.ttlMs >= 1 && Undisturbed(ops, r, i, j)
    requires i < k <= j && ops[k].Request? && c.lastUsed == ops[i].now
    ensures Live(c, ops[k].now, r.trace[k].ttlMs)
  {
    TtlPositive(init, ops, r, k);
  }

  lemma NoEviction(init: State, ops: seq<Op>, r: Run, i: nat, j: nat, n: nat)
    requires IsRun(false, init, ops, r) && Undisturbed(ops, r, i, j) && i < n < j
    ensures r.trace[n + 1].evicted == r.trace[n].evicted
  {
    EvictedGrows(init, ops, r, i + 1, n);
    EvictedGrows(init, ops, r, n, n + 1);
    EvictedGrows(init, ops, r, n + 1, j);
  }

  lemma ChainSpared(init: State, ops: seq<Op>, r: Run, i: nat, j: nat, n: nat, key: Key)
    requires IsRun(false, init, ops, r) && init.ttlMs >= 1 && Undisturbed(ops, r, i, j) && i < n < j
    requires key == KeyOf(ops[i].scope, ops[i].messages)
    requires key in r.trace[n].states && r.trace[n].states[key].lastUsed == ops[i].now
    ensures key in r.trace[n + 1].states && r.trace[n + 1].states[key] == r.trace[n].states[key]
  {
    var op := ops[n];
    assert StepsAt(false, ops, r, n);
    NoEviction(init, ops, r, i, j, n);
    if op.Request? {
      KeyIsScopeAndHead(ops[i].scope, ops[i].messages, op.scope, op.messages);
      StaysLive(init, ops, r, i, j, n, r.trace[n].states[key]);
    }
    StepSpares(r.trace[n], op, r.trace[n + 1], r.outs[n], key);
  }

  lemma {:induction false} ChainWaits(init: State, ops: seq<Op>, r: Run, i: nat, j: nat, n: nat)
    requires IsRun(false, init, ops, r) && init.ttlMs >= 1 && Undisturbed(ops, r, i, j) && i < n <= j
    ensures r.outs[i].Some?
    ensures var key := KeyOf(ops[i].scope, ops[i].messages);
            key in r.trace[n].states
            && r.trace[n].states[key] == Chain(ops[i].messages, r.outs[i].value.session, ops[i].now)
    decreases n
  {
    if n == i + 1 {
      assert StepsAt(false, ops, r, i);
      RequestEffect(r.trace[i], ops[i], r.trace[n], r.outs[i].value);
    } else {
      ChainWaits(init, ops, r, i, j, n - 1);
      ChainSpared(init, ops, r, i, j, n - 1, KeyOf(ops[i].scope, ops[i].messages));
    }
  }

  /**
   A request of the same scope and head, within the TTL, with none of that scope and head in between
   and nothing evicted, is given the session of the earlier one iff it extends its messages; if it
   does not, it is a breakpoint and is given a new one.
   */
  lemma ExtensionKeepsSession(capacity: nat, ttlMs: nat, ops: seq<Op>, r: Run, i: nat, j: nat)
    requires IsRun(false, Initial(capacity, ttlMs), ops, r) && Undisturbed(ops, r, i, j) && Shares(ops[i], ops[j])
    ensures r.outs[i].Some? && r.outs[j].Some?
    ensures r.outs[j].value
         == if ops[i].messages <= ops[j].messages then Answer(r.outs[i].value.session, false)
            else Answer(SessionId(ops[j].messages, r.trace[j].nextNonce), true)
  {
    ChainWaits(Initial(capacity, ttlMs), ops, r, i, j, j);
    assert StepsAt(false, ops, r, j);
    KeyIsScopeAndHead(ops[i].scope, ops[i].messages, ops[j].scope, ops[j].messages);
    var key := KeyOf(ops[j].scope, ops[j].messages);
    StaysLive(Initial(capacity, ttlMs), ops, r, i, j, j, r.trace[j].states[key]);
    Reopened(r.trace[j], ops[j], r.trace[j + 1], r.outs[j].value, key);
  }

  lemma Reopened(s: State, op: Op, s': State, out: Answer, key: Key)
    requires op.Request? && Assigns(s, op.scope, op.messages, op.now, s', out)
    requires key == KeyOf(op.scope, op.messages) && Reopens(s, key, op.now)
    ensures out == if s.states[key].history <= op.messages then Answer(s.states[key].session, false)
                   else Answer(SessionId(op.messages, s.nextNonce), true)
  {
    RequestEffect(s, op, s', out);
  }

  /** Requests of different scopes, or with different heads, are never given one session. */
  lemma OthersNeverShare(capacity: nat, ttlMs: nat, ops: seq<Op>, r: Run, i: nat, j: nat)
    requires IsRun(false, Initial(capacity, ttlMs), ops, r) && i < j < |ops|
    requires ops[i].Request? && ops[j].Request? && !Shares(ops[i], ops[j])
    ensures r.outs[i].Some? && r.outs[j].Some? && r.outs[i].value.session != r.outs[j].value.session
  {
    assert StepsAt(false, ops, r, i) && StepsAt(false, ops, r, j);
    if r.outs[i].value.session == r.outs[j].value.session {
      SameSessionSameConversation(capacity, ttlMs, ops, r, i, j, r.outs[i].value.session);
    }
  }

  // ---------------------------------------------------------------------------------------------
  // How long an expired chain can lie

  /** Chains lived at the last sweep or were used since; the next sweep is less than 30 s away. */
  predicate Fresh(s: State, now: nat) {
    && s.lastSweepMs * 1_000_000 <= now < (s.lastSweepMs + 30_000) * 1_000_000
    && forall k | k in s.states :: s.lastSweepMs * 1_000_000 < s.states[k].lastUsed + s.ttlMs * 1_000_000
  }

  lemma StepStaysFresh(s: State, op: Op, s': State, out: Option<Answer>, before: nat)
    requires Steps(false, s, op, s', out) && op.Request? && before <= op.now && s.ttlMs >= 1
    requires Fresh(s, before)
    ensures Fresh(s', op.now) && s'.ttlMs == s.ttlMs
  {
    var key := KeyOf(op.scope, op.messages);
    SweptFresh(s, op.now, before, key);
    SweepKeepsLive(s, key, op.now);
    ResolvedFresh(DropExpired(Sweep(s, op.now), key, op.now), key, op.messages, op.now, s', out.value);
  }

  lemma ResolvedFresh(s: State, key: Key, messages: seq<Message>, now: nat, s': State, out: Answer)
    requires Resolves(s, key, messages, now, s', out) && Fresh(s, now) && s.ttlMs >= 1
    ensures Fresh(s', now) && s'.ttlMs == s.ttlMs
  {
    if key !in s.states { var kept := FreshShape(s, key, messages, now, s', out); }
  }

  lemma SweptFresh(s: State, now: nat, before: nat, key: Key)
    requires Fresh(s, before) && before <= now && s.ttlMs >= 1
    ensures Fresh(DropExpired(Sweep(s, now), key, now), now)
  {
    assert now / 1_000_000 * 1_000_000 <= now < (now / 1_000_000 + 1) * 1_000_000;
  }

  predicate InOrder(ops: seq<Op>) {
    forall i, j | 0 <= i < j < |ops| && ops[i].Request? && ops[j].Request? :: ops[i].now <= ops[j].now
  }

  function LastTime(ops: seq<Op>, n: nat): nat
    requires n <= |ops| && AllRequests(ops)
  {
    if n == 0 then 0 else ops[n - 1].now
  }

  lemma {:induction false} RunStaysFresh(capacity: nat, ttlMs: nat, ops: seq<Op>, r: Run, n: nat)
    requires IsRun(false, Initial(capacity, ttlMs), ops, r) && n <= |ops| && AllRequests(ops) && InOrder(ops)
    ensures Fresh(r.trace[n], LastTime(ops, n)) && r.trace[n].ttlMs == Max(ttlMs, 1)
  {
    if n > 0 {
      RunStaysFresh(capacity, ttlMs, ops, r, n - 1);
      assert StepsAt(false, ops, r, n - 1);
      NextStaysFresh(r.trace[n - 1], ops[n - 1], r.trace[n], r.outs[n - 1], LastTime(ops, n - 1), ttlMs);
    }
  }

  lemma NextStaysFresh(s: State, op: Op, s': State, out: Option<Answer>, before: nat, ttlMs: nat)
    requires Steps(false, s, op, s', out) && op.Request? && before <= op.now
    requires Fresh(s, before) && s.ttlMs == Max(ttlMs, 1)
    ensures Fresh(s', op.now) && s'.ttlMs == Max(ttlMs, 1)
  {
    StepStaysFresh(s, op, s', out, before);
  }

  /**
   The sweep does come: without reloads and with times in order, no chain lies in the table for the
   TTL and 30 seconds after its last use.
   */
  lemma ExpiredChainsAreSwept(capacity: nat, ttlMs: nat, ops: seq<Op>, r: Run, n: nat, k: Key)
    requires IsRun(false, Initial(capacity, ttlMs), ops, r) && n < |ops| && AllRequests(ops) && InOrder(ops)
    requires k in r.trace[n + 1].states
    ensures ops[n].now - r.trace[n + 1].states[k].lastUsed < (Max(ttlMs, 1) + 30_000) * 1_000_000
  {
    RunStaysFresh(capacity, ttlMs, ops, r, n + 1);
  }
}
