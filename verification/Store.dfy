/**
 The in-process record store (src/trace/store.rs): a deque bounded by a record budget and a byte
 budget, from which the oldest records fall when a new one does not fit.
 */
module Store {
  import opened Prelude

  const USIZE_MAX: nat := 0xFFFF_FFFF_FFFF_FFFF

  /** The four text fields the byte budget counts, as bytes, and whatever else a record carries. */
  datatype TurnRecord = TurnRecord(
    rawRequest: seq<byte>, rawResponse: seq<byte>, userInput: seq<byte>, finalOutput: seq<byte>,
    others: seq<byte>)

  function Estimate(r: TurnRecord): nat {
    |r.rawRequest| + |r.rawResponse| + |r.userInput| + |r.finalOutput|
  }

  function Total(s: seq<TurnRecord>): nat {
    if s == [] then 0 else Estimate(s[0]) + Total(s[1..])
  }

  /** The budget counts the request, the response, the input and the output, each byte once. */
  lemma EstimateCountsTexts(r: TurnRecord, others: seq<byte>)
    ensures Estimate(r) == |r.rawRequest + r.rawResponse + r.userInput + r.finalOutput|
    ensures Estimate(r.(others := others)) == Estimate(r)
  {
  }

  datatype Caps = Caps(maxRecords: nat, maxBytes: nat)

  predicate Fits(s: seq<TurnRecord>, caps: Caps) {
    |s| <= caps.maxRecords && Total(s) <= caps.maxBytes
  }

  function SaturatingAdd(x: nat, y: nat): nat {
    Min(x + y, USIZE_MAX)
  }

  function SaturatingSub(x: nat, y: nat): nat {
    if x < y then 0 else x - y
  }

  // ---------------------------------------------------------------------------------------------
  // What a store should hold of a history

  /** The longest suffix of the history that meets both budgets, or its newest record alone. */
  function Window(history: seq<TurnRecord>, caps: Caps): seq<TurnRecord> {
    if |history| <= 1 || Fits(history, caps) then history else Window(history[1..], caps)
  }

  predicate TooLong(history: seq<TurnRecord>, caps: Caps, k: nat) {
    |history| - k > 1 && !Fits(history[k..], caps)
  }

  /** `k` is where the longest affordable suffix of the history starts. */
  predicate StartsWindow(history: seq<TurnRecord>, caps: Caps, k: nat) {
    k <= |history| && !TooLong(history, caps, k) && forall j: nat :: j < k ==> TooLong(history, caps, j)
  }

  lemma {:induction false} TotalSnoc(s: seq<TurnRecord>, x: TurnRecord)
    ensures Total(s + [x]) == Total(s) + Estimate(x)
  {
    if s == [] {
      assert s + [x] == [x];
    } else {
      assert (s + [x])[1..] == s[1..] + [x];
      TotalSnoc(s[1..], x);
    }
  }

  lemma TooLongShifts(history: seq<TurnRecord>, caps: Caps, k: nat)
    requires history != []
    ensures TooLong(history[1..], caps, k) == TooLong(history, caps, k + 1)
  {
    if |history| - k > 2 {
      assert history[1..][k..] == history[k + 1..];
    }
  }

  lemma StartShifts(history: seq<TurnRecord>, caps: Caps, k: nat)
    requires TooLong(history, caps, 0)
    ensures StartsWindow(history[1..], caps, k) == StartsWindow(history, caps, k + 1)
  {
    forall j: nat ensures TooLong(history[1..], caps, j) == TooLong(history, caps, j + 1) {
      TooLongShifts(history, caps, j);
    }
    if StartsWindow(history[1..], caps, k) {
      forall j: nat | j < k + 1 ensures TooLong(history, caps, j) {
        assert j > 0 ==> TooLong(history[1..], caps, j - 1);
      }
    }
    if StartsWindow(history, caps, k + 1) {
      forall j: nat | j < k ensures TooLong(history[1..], caps, j) {
        assert TooLong(history, caps, j + 1);
      }
    }
  }

  lemma {:induction false} WindowStarts(history: seq<TurnRecord>, caps: Caps) returns (k: nat)
    ensures StartsWindow(history, caps, k) && history[k..] == Window(history, caps)
    decreases |history|
  {
    if TooLong(history, caps, 0) {
      assert history[0..] == history;
      k := WindowStarts(history[1..], caps);
      StartShifts(history, caps, k);
      assert history[1..][k..] == history[k + 1..];
      k := k + 1;
    } else {
      k := 0;
      assert history[0..] == history;
    }
  }

  lemma OneStart(history: seq<TurnRecord>, caps: Caps, k: nat, m: nat)
    requires StartsWindow(history, caps, k) && StartsWindow(history, caps, m)
    ensures k == m
  {
  }

  /** The window is the one suffix that fits and cannot be made longer. */
  lemma {:induction false} WindowIsLongestSuffix(history: seq<TurnRecord>, caps: Caps, kept: seq<TurnRecord>)
    ensures Window(history, caps) == kept
            <==> exists k: nat :: StartsWindow(history, caps, k) && history[k..] == kept
  {
    var m := WindowStarts(history, caps);
    forall k: nat | StartsWindow(history, caps, k) ensures k == m {
      OneStart(history, caps, k, m);
    }
  }

  /** Trimming after every arrival leaves what trimming once at the end would have left. */
  lemma {:induction false} WindowStep(history: seq<TurnRecord>, x: TurnRecord, caps: Caps)
    ensures Window(Window(history, caps) + [x], caps) == Window(history + [x], caps)
    decreases |history|
  {
    if |history| > 1 && !Fits(history, caps) {
      WindowStep(history[1..], x, caps);
      TotalSnoc(history, x);
      assert (history + [x])[1..] == history[1..] + [x];
    }
  }

  lemma {:induction false} WindowIsSuffix(history: seq<TurnRecord>, caps: Caps)
    ensures |Window(history, caps)| <= |history|
    ensures Window(history, caps) == history[|history| - |Window(history, caps)|..]
    ensures history != [] ==> Window(history, caps) != []
    decreases |history|
  {
    if |history| > 1 && !Fits(history, caps) {
      WindowIsSuffix(history[1..], caps);
    }
  }

  // ---------------------------------------------------------------------------------------------
  // The store over a run of pushes and cap reloads

  datatype Event = Pushed(record: TurnRecord) | CapsSet(caps: Caps)

  datatype Shelf = Shelf(held: seq<TurnRecord>, dropped: nat, caps: Caps)

  function AtLeastOne(caps: Caps): Caps {
    Caps(Max(caps.maxRecords, 1), Max(caps.maxBytes, 1))
  }

  function Step(s: Shelf, e: Event): Shelf {
    match e
    case Pushed(r) =>
      WindowIsSuffix(s.held + [r], s.caps);
      var kept := Window(s.held + [r], s.caps);
      Shelf(kept, s.dropped + |s.held| + 1 - |kept|, s.caps)
    case CapsSet(caps) => s.(caps := AtLeastOne(caps))
  }

  function Run(s: Shelf, events: seq<Event>): Shelf
    decreases |events|
  {
    if events == [] then s else Run(Step(s, events[0]), events[1..])
  }

  function Arrival(e: Event): seq<TurnRecord> {
    if e.Pushed? then [e.record] else []
  }

  function PushedIn(events: seq<Event>): seq<TurnRecord> {
    if events == [] then []
    else Arrival(events[0]) + PushedIn(events[1..])
  }

  /** While the caps stand, a store is the window of everything it held and was given. */
  lemma {:induction false} HoldsTheWindow(s: Shelf, events: seq<Event>)
    requires forall i :: 0 <= i < |events| ==> events[i].Pushed?
    requires s.held == Window(s.held, s.caps) || events != []
    ensures Run(s, events).held == Window(s.held + PushedIn(events), s.caps)
    decreases |events|
  {
    if events == [] {
      assert s.held + PushedIn(events) == s.held;
    } else {
      var x, rest := events[0].record, events[1..];
      WindowOfWindow(s.held + [x], s.caps);
      HoldsTheWindow(Step(s, events[0]), rest);
      WindowSteps(s.held + [x], PushedIn(rest), s.caps);
      Assoc(s.held, [x], PushedIn(rest));
    }
  }

  lemma {:induction false} WindowOfWindow(history: seq<TurnRecord>, caps: Caps)
    ensures Window(Window(history, caps), caps) == Window(history, caps)
    decreases |history|
  {
    if |history| > 1 && !Fits(history, caps) {
      WindowOfWindow(history[1..], caps);
    }
  }

  lemma {:induction false} WindowSteps(history: seq<TurnRecord>, more: seq<TurnRecord>, caps: Caps)
    ensures Window(Window(history, caps) + more, caps) == Window(history + more, caps)
    decreases |more|
  {
    if more == [] {
      assert history + more == history && Window(history, caps) + more == Window(history, caps);
      WindowOfWindow(history, caps);
    } else {
      var n := |more| - 1;
      var init, x := more[..n], more[n];
      WindowSteps(history, init, caps);
      assert Window(history, caps) + more == Window(history, caps) + init + [x];
      assert history + more == history + init + [x];
      WindowStep(Window(history, caps) + init, x, caps);
      WindowStep(history + init, x, caps);
    }
  }

  lemma StepIsSuffix(s: Shelf, e: Event, later: seq<TurnRecord>)
    ensures var t := Step(s, e);
            && t.dropped >= s.dropped
            && t.dropped - s.dropped + |t.held| == |s.held| + |Arrival(e)|
            && t.held + later == (s.held + Arrival(e) + later)[t.dropped - s.dropped..]
  {
    if e.Pushed? {
      WindowIsSuffix(s.held + [e.record], s.caps);
    }
  }

  lemma SuffixOfSuffix<T>(a: seq<T>, b: seq<T>, c: seq<T>, m: nat, n: nat)
    requires m <= |a| && b == a[m..] && n <= |b| && c == b[n..]
    ensures c == a[m + n..]
  {
  }

  /** Under any reloads: nothing but the oldest goes, and every record is held or counted dropped. */
  lemma {:induction false} PushedIsHeldPlusDropped(s: Shelf, events: seq<Event>)
    ensures var t := Run(s, events);
            && t.dropped >= s.dropped
            && t.dropped - s.dropped + |t.held| == |s.held| + |PushedIn(events)|
            && t.held == (s.held + PushedIn(events))[t.dropped - s.dropped..]
    decreases |events|
  {
    if events == [] {
      assert s.held + PushedIn(events) == s.held;
    } else {
      var next, rest := Step(s, events[0]), events[1..];
      PushedIsHeldPlusDropped(next, rest);
      StepIsSuffix(s, events[0], PushedIn(rest));
      Assoc(s.held, Arrival(events[0]), PushedIn(rest));
      SuffixOfSuffix(s.held + PushedIn(events), next.held + PushedIn(rest), Run(s, events).held,
                     next.dropped - s.dropped, Run(s, events).dropped - next.dropped);
    }
  }

  // ---------------------------------------------------------------------------------------------
  // The deque

  class TraceStore {
    var deque: seq<TurnRecord>
    var estimatedBytes: nat
    var dropped: nat
    var caps: Caps

    /** The byte estimate is exact and the caps are positive. */
    ghost predicate Valid() reads this {
      && estimatedBytes == Total(deque)
      && 1 <= caps.maxRecords <= USIZE_MAX && 1 <= caps.maxBytes <= USIZE_MAX
    }

    ghost function Contents(): Shelf reads this {
      Shelf(deque, dropped, caps)
    }

    constructor (maxRecords: nat, maxBytes: nat)
      requires maxRecords <= USIZE_MAX && maxBytes <= USIZE_MAX
      ensures Valid()
      ensures Contents() == Shelf([], 0, AtLeastOne(Caps(maxRecords, maxBytes)))
    {
      deque, estimatedBytes, dropped := [], 0, 0;
      caps := Caps(Max(maxRecords, 1), Max(maxBytes, 1));
    }

    method SetCaps(maxRecords: nat, maxBytes: nat)
      requires Valid() && maxRecords <= USIZE_MAX && maxBytes <= USIZE_MAX
      modifies this
      ensures Valid() && Contents() == Step(old(Contents()), CapsSet(Caps(maxRecords, maxBytes)))
    {
      caps := Caps(Max(maxRecords, 1), Max(maxBytes, 1));
    }

    /** The held records and the new one are in memory together, so their sizes add up in a usize. */
    method Push(record: TurnRecord)
      requires Valid() && Total(deque) + Estimate(record) <= USIZE_MAX
      modifies this
      ensures Valid() && Contents() == Step(old(Contents()), Pushed(record))
    {
      var size := Estimate(record);
      TotalSnoc(deque, record);
      ghost var all := deque + [record];
      while |deque| >= caps.maxRecords || SaturatingAdd(estimatedBytes, size) > caps.maxBytes
        invariant Valid() && caps == old(caps) && size == Estimate(record)
        invariant Total(deque) + size <= USIZE_MAX
        invariant Total(deque + [record]) == Total(deque) + size
        invariant Window(deque + [record], caps) == Window(all, caps)
        invariant dropped + |deque| == old(dropped) + old(|deque|)
        decreases |deque|
      {
        if deque == [] { break; }
        var oldest := deque[0];
        assert (deque + [record])[1..] == deque[1..] + [record];
        deque := deque[1..];
        estimatedBytes := SaturatingSub(estimatedBytes, Estimate(oldest));
        dropped := dropped + 1;
        TotalSnoc(deque, record);
      }
      estimatedBytes := SaturatingAdd(estimatedBytes, size);
      deque := deque + [record];
      assert deque == Window(deque, caps);
      WindowIsSuffix(all, caps);
    }

    method SnapshotBounded(limit: nat, offset: nat) returns (page: seq<TurnRecord>)
      ensures page == Page(deque, limit, offset)
    {
      var total := |deque|;
      var end := SaturatingSub(total, offset);
      var start := SaturatingSub(end, if limit == 0 then total else limit);
      var count := SaturatingSub(end, start);
      page := deque[start..][..count];
    }
  }

  // ---------------------------------------------------------------------------------------------
  // Paging

  /** What is left of the records after the newest `n` are put aside. */
  function Older(held: seq<TurnRecord>, n: nat): seq<TurnRecord> {
    held[..|held| - Min(n, |held|)]
  }

  /** The newest `n` of the records, oldest first. */
  function Newest(held: seq<TurnRecord>, n: nat): seq<TurnRecord> {
    held[|held| - Min(n, |held|)..]
  }

  function Page(held: seq<TurnRecord>, limit: nat, offset: nat): seq<TurnRecord> {
    var older := Older(held, offset);
    if limit == 0 then older else Newest(older, limit)
  }

  /** A page is a slice counted from the newest end; limit 0 takes everything that is left. */
  lemma PageIsSlice(held: seq<TurnRecord>, limit: nat, offset: nat)
    ensures var end := Max(|held| - offset, 0);
            Page(held, limit, offset) == held[if limit == 0 then 0 else Max(end - limit, 0)..end]
    ensures offset <= |held| ==> Page(held, 0, offset) + held[|held| - offset..] == held
  {
  }

  /** A reader who asks for page after page of `limit` records until one comes back empty. */
  function PagesFrom(held: seq<TurnRecord>, limit: nat, offset: nat): seq<TurnRecord>
    requires limit >= 1
    decreases |held| - offset
  {
    if Page(held, limit, offset) == [] then []
    else PagesFrom(held, limit, offset + limit) + Page(held, limit, offset)
  }

  lemma NextPage(held: seq<TurnRecord>, limit: nat, offset: nat)
    requires limit >= 1
    ensures Page(held, limit, offset) == [] <==> offset >= |held|
    ensures Older(held, offset + limit) + Page(held, limit, offset) == Older(held, offset)
  {
    assert |Older(held, offset)| == |held| - Min(offset, |held|);
  }

  /** The pages meet without gap or overlap: put together, older before newer, they are the store. */
  lemma {:induction false} PagesRestoreTheStore(held: seq<TurnRecord>, limit: nat, offset: nat)
    requires limit >= 1
    ensures PagesFrom(held, limit, offset) == Older(held, offset)
    ensures offset == 0 ==> PagesFrom(held, limit, offset) == held
    decreases |held| - offset
  {
    NextPage(held, limit, offset);
    if offset < |held| {
      PagesRestoreTheStore(held, limit, offset + limit);
    }
  }
}
