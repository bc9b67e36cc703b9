/**
 Prefix stitching: fingerprint chains keyed by credential scope and conversation head, bounded by a
 TTL and an LRU capacity. Hashes are modelled as injective: a fingerprint is the message text, a
 head is the first two messages, a synthetic session id is its seed together with its nonce.
 Instants are nanoseconds since the stitcher's clock anchor.
 */
module Stitcher {
  import opened Prelude

  const SWEEP_INTERVAL_MS := 30_000
  const NS_PER_MS := 1_000_000

  type Message = string

  datatype Key = Key(scope: string, head: seq<Message>)

  datatype SessionId = SessionId(seed: seq<Message>, nonce: nat)

  datatype Chain = Chain(history: seq<Message>, session: SessionId, lastUsed: nat)

  type Table = map<Key, Chain>

  /** `inserts` and `lookupRemovals` are bookkeeping of the model; the gateway does not count them. */
  datatype State = State(
    states: Table, capacity: nat, ttlMs: nat, nextNonce: nat, expired: nat, evicted: nat,
    lastSweepMs: nat, sweeps: nat, inserts: nat, lookupRemovals: nat)

  datatype Answer = Answer(session: SessionId, breakpoint: bool)

  function KeyOf(scope: string, messages: seq<Message>): Key {
    Key(scope, messages[..Min(2, |messages|)])
  }

  /** `now.duration_since(last_used) < ttl`; the difference saturates at zero. */
  predicate Live(c: Chain, now: nat, ttlMs: nat) {
    Max(now - c.lastUsed, 0) < ttlMs * NS_PER_MS
  }

  function LivePart(m: Table, now: nat, ttlMs: nat): Table {
    map k | k in m && Live(m[k], now, ttlMs) :: m[k]
  }

  function Initial(capacity: nat, ttlMs: nat): State {
    State(map[], Max(capacity, 1), Max(ttlMs, 1), 0, 0, 0, 0, 0, 0, 0)
  }

  function SetLimitsOf(s: State, capacity: nat, ttlMs: nat): State {
    s.(capacity := Max(capacity, 1), ttlMs := Max(ttlMs, 1))
  }

  // ---------------------------------------------------------------------------------------------
  // One request

  /** The table-wide expiry pass. */
  function Purge(s: State, now: nat): State {
    var live := LivePart(s.states, now, s.ttlMs);
    s.(states := live, expired := s.expired + Max(|s.states| - |live|, 0))
  }

  predicate SweepDue(s: State, now: nat) {
    now / NS_PER_MS - s.lastSweepMs >= SWEEP_INTERVAL_MS
  }

  /** Amortised: the pass runs at most once an interval. */
  function Sweep(s: State, now: nat): State {
    if SweepDue(s, now) then
      Purge(s, now).(lastSweepMs := now / NS_PER_MS, sweeps := s.sweeps + 1)
    else s
  }

  /** The per-entry check on lookup: an expired chain under this key is removed. */
  function DropExpired(s: State, key: Key, now: nat): State {
    if key in s.states && !Live(s.states[key], now, s.ttlMs) then
      s.(states := s.states - {key}, lookupRemovals := s.lookupRemovals + 1)
    else s
  }

  /** LRU eviction below the capacity: whatever goes is no younger than whatever stays. */
  ghost predicate Trimmed(before: Table, after: Table, capacity: nat) {
    && after.Keys <= before.Keys
    && (forall k | k in after :: after[k] == before[k])
    && |after| == Min(|before|, Max(capacity - 1, 0))
    && (forall gone, kept | gone in before && gone !in after && kept in after ::
          before[gone].lastUsed <= before[kept].lastUsed)
  }

  /** Lookup, extension, breakpoint or insertion, once expiry has been dealt with. */
  ghost predicate Resolves(s: State, key: Key, messages: seq<Message>, now: nat, s': State, out: Answer) {
    var fresh_ := SessionId(messages, s.nextNonce);
    if key in s.states then
      var c := s.states[key];
      if c.history <= messages then
        out == Answer(c.session, false)
        && s' == s.(states := s.states[key := Chain(messages, c.session, now)])
      else
        out == Answer(fresh_, true)
        && s' == s.(states := s.states[key := Chain(messages, fresh_, now)], nextNonce := s.nextNonce + 1)
    else
      && out == Answer(fresh_, false)
      && key in s'.states && s'.states[key] == Chain(messages, fresh_, now)
      && var kept := s'.states - {key};
         && Trimmed(s.states, kept, s.capacity)
         && s' == s.(states := s'.states, nextNonce := s.nextNonce + 1, inserts := s.inserts + 1,
                     evicted := s.evicted + (|s.states| - |kept|))
  }

  /** The stitcher as written (amortised sweep, check on lookup). */
  ghost predicate Assigns(s: State, scope: string, messages: seq<Message>, now: nat, s': State, out: Answer) {
    var key := KeyOf(scope, messages);
    Resolves(DropExpired(Sweep(s, now), key, now), key, messages, now, s', out)
  }

  /** The stitcher that purges every expired chain on every request. */
  ghost predicate EagerlyAssigns(s: State, scope: string, messages: seq<Message>, now: nat, s': State, out: Answer) {
    Resolves(Purge(s, now), KeyOf(scope, messages), messages, now, s', out)
  }

  // ---------------------------------------------------------------------------------------------
  // The stitcher in place

  lemma OldestExists(m: Table) returns (k: Key)
    requires |m| > 0
    ensures k in m && forall j | j in m :: m[k].lastUsed <= m[j].lastUsed
    decreases |m|
  {
    k :| k in m;
    var rest := m - {k};
    assert rest.Keys == m.Keys - {k};
    if |rest| > 0 {
      var first := k;
      var r := OldestExists(rest);
      if m[r].lastUsed < m[k].lastUsed { k := r; }
      assert forall j | j in m :: j == first || (j in rest && rest[j] == m[j]);
    } else {
      assert m.Keys == {k};
    }
  }

  class PrefixStitcher {
    var states: Table
    var capacity: nat
    var ttlMs: nat
    var nextNonce: nat
    var expired: nat
    var evicted: nat
    var lastSweepMs: nat
    var sweeps: nat
    ghost var inserts: nat
    ghost var lookupRemovals: nat

    ghost function View(): State
      reads this
    {
      State(states, capacity, ttlMs, nextNonce, expired, evicted, lastSweepMs, sweeps, inserts, lookupRemovals)
    }

    constructor WithLimits(capacity: nat, ttlMs: nat)
      ensures View() == Initial(capacity, ttlMs)
    {
      states, this.capacity, this.ttlMs := map[], Max(capacity, 1), Max(ttlMs, 1);
      nextNonce, expired, evicted, lastSweepMs, sweeps := 0, 0, 0, 0, 0;
      inserts, lookupRemovals := 0, 0;
    }

    method SetLimits(capacity: nat, ttlMs: nat)
      modifies this
      ensures View() == SetLimitsOf(old(View()), capacity, ttlMs)
    {
      this.capacity, this.ttlMs := Max(capacity, 1), Max(ttlMs, 1);
    }

    /** Evict least recently used chains until one more fits. */
    method EvictToFit()
      requires capacity >= 1
      modifies `states, `evicted
      ensures Trimmed(old(states), states, capacity)
      ensures evicted == old(evicted) + (|old(states)| - |states|)
    {
      ghost var before := states;
      while |states| >= capacity
        invariant states.Keys <= before.Keys && (forall k | k in states :: states[k] == before[k])
        invariant forall gone, kept | gone in before && gone !in states && kept in states ::
                    before[gone].lastUsed <= before[kept].lastUsed
        invariant |states| == |before| || capacity - 1 <= |states| <= |before|
        invariant |states| <= |before| && evicted == old(evicted) + (|before| - |states|)
        decreases |states|
      {
        var oldest := OldestExists(states);
        var k :| k in states && forall j | j in states :: states[k].lastUsed <= states[j].lastUsed;
        assert (states - {k}).Keys == states.Keys - {k};
        states := states - {k};
        evicted := evicted + 1;
      }
    }

    /** The TTL work of one request: the amortised sweep when due, then the looked-up entry. */
    method Expire(key: Key, now: nat)
      modifies this
      ensures View() == DropExpired(Sweep(old(View()), now), key, now)
    {
      var nowMs := now / NS_PER_MS;
      if nowMs - lastSweepMs >= SWEEP_INTERVAL_MS {
        var before := |states|;
        states := LivePart(states, now, ttlMs);
        expired := expired + Max(before - |states|, 0);
        lastSweepMs := nowMs;
        sweeps := sweeps + 1;
      }
      if key in states && !Live(states[key], now, ttlMs) {
        states := states - {key};
        lookupRemovals := lookupRemovals + 1;
      }
    }

    /** `assign_locked`. */
    method Assign(scope: string, messages: seq<Message>, now: nat) returns (session: SessionId, breakpoint: bool)
      requires capacity >= 1
      modifies this
      ensures Assigns(old(View()), scope, messages, now, View(), Answer(session, breakpoint))
    {
      var key := KeyOf(scope, messages);
      Expire(key, now);
      if key in states {
        var entry := states[key];
        if entry.history <= messages {
          states := states[key := Chain(messages, entry.session, now)];
          return entry.session, false;
        }
        session := NewSessionId(messages);
        states := states[key := Chain(messages, session, now)];
        return session, true;
      }
      session := OpenChain(key, messages, now);
      breakpoint := false;
    }

    /** The tail of `assign_locked`: no chain is held under the key, so room is made for a new one. */
    method OpenChain(key: Key, messages: seq<Message>, now: nat) returns (session: SessionId)
      requires capacity >= 1 && key !in states
      modifies this
      ensures Resolves(old(View()), key, messages, now, View(), Answer(session, false))
    {
      EvictToFit();
      ghost var kept := states;
      session := NewSessionId(messages);
      states := states[key := Chain(messages, session, now)];
      inserts := inserts + 1;
      assert states - {key} == kept;
    }

    method NewSessionId(seed: seq<Message>) returns (id: SessionId)
      modifies `nextNonce
      ensures id == SessionId(seed, old(nextNonce)) && nextNonce == old(nextNonce) + 1
    {
      id := SessionId(seed, nextNonce);
      nextNonce := nextNonce + 1;
    }
  }
}
