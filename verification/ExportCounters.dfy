/** What the export counters and the configuration read after a run, told from its events. */
module ExportCounters {
  import opened Prelude
  import opened ExportPool
  import opened ExportRuns

  /** Sums a share of each event, taken in the state in which the event happens. */
  function Sum(s: State, events: seq<Event>, share: (State, Event) -> nat): nat
    requires Legal(s, events)
    decreases events
  {
    if events == [] then 0 else share(s, events[0]) + Sum(Next(s, events[0]), events[1..], share)
  }

  /** Size of the batch on which the event acts, if it is this event of a flush task. */
  function OnTask(t: TaskEvent): (State, Event) -> nat {
    (s: State, e: Event) => if e.Task? && e.t == t && e.i < |s.flights| then |s.flights[e.i].batch| else 0
  }

  function Panics(): (State, Event) -> nat {
    (s: State, e: Event) => if e.Task? && e.t == BookPanic then 1 else 0
  }

  /** Offers that meet a queue of 1024 records. */
  function Overflows(): (State, Event) -> nat {
    (s: State, e: Event) => if e.TrySend? && |s.intake.queue| >= 1024 then 1 else 0
  }

  /** Flush tasks started, and flush tasks that lowered the gauge on either way out. */
  function Starts(): (State, Event) -> nat {
    (s: State, e: Event) => if e == Batcher(StartFlush) then 1 else 0
  }

  function Ends(): (State, Event) -> nat {
    (s: State, e: Event) => if e.Task? && (e.t == Complete || e.t == LowerGauge) then 1 else 0
  }

  function HandledBy(s: State, e: Event): seq<Handled> {
    if e == Batcher(StartFlush) && s.pc.Spawn? then [Handled(s.pc.batch, true)]
    else if e == Batcher(LoadTarget) && s.pc.Choose? && s.target.None? then [Handled(s.pc.batch, false)]
    else []
  }

  /** The decisions of the batcher, in order: a batch goes unshipped exactly when no target is loaded. */
  function HandledIn(s: State, events: seq<Event>): seq<Handled>
    requires Legal(s, events)
    decreases events
  {
    if events == [] then [] else HandledBy(s, events[0]) + HandledIn(Next(s, events[0]), events[1..])
  }

  function UnshippedSize(handled: seq<Handled>): nat {
    if handled == [] then 0
    else (if handled[0].shipped then 0 else |handled[0].batch|) + UnshippedSize(handled[1..])
  }

  function AcceptedBy(s: State, e: Event): multiset<Record> {
    if e.Submit? && s.target.Some? then multiset{e.r} else multiset{}
  }

  function EnteredBy(s: State, e: Event): seq<Record> {
    if e.TrySend? && |s.intake.queue| < 1024 then [e.r] else []
  }

  /** Records submitted while a target is configured. */
  function AcceptedIn(s: State, events: seq<Event>): multiset<Record>
    requires Legal(s, events)
    decreases events
  {
    if events == [] then multiset{} else AcceptedBy(s, events[0]) + AcceptedIn(Next(s, events[0]), events[1..])
  }

  /** Records offered to a queue with room, in order. */
  function EnteredIn(s: State, events: seq<Event>): seq<Record>
    requires Legal(s, events)
    decreases events
  {
    if events == [] then [] else EnteredBy(s, events[0]) + EnteredIn(Next(s, events[0]), events[1..])
  }

  function LatestTarget(first: Option<string>, events: seq<Event>): Option<string> {
    if events == [] then first
    else if events[|events| - 1].Reload? then events[|events| - 1].target
    else LatestTarget(first, events[..|events| - 1])
  }

  function LatestWidth(first: nat, events: seq<Event>): nat {
    if events == [] then first
    else if events[|events| - 1].Reload? then events[|events| - 1].width
    else LatestWidth(first, events[..|events| - 1])
  }

  // ---------------------------------------------------------------------------------------------
  // Counters

  lemma StepBooks(s: State, e: Event)
    requires Enabled(s, e)
    ensures var h, t := s.health, Next(s, e).health;
            && t.exported == h.exported + OnTask(Book(true))(s, e)
            && t.failed == h.failed + OnTask(Book(false))(s, e) + OnTask(BookPanic)(s, e)
            && t.panicked == h.panicked + Panics()(s, e)
            && t.dropped == h.dropped + Overflows()(s, e) + UnshippedSize(HandledBy(s, e))
            && t.inflight == h.inflight + Starts()(s, e) - Ends()(s, e)
  {
    if e.Task? { TaskBooks(s, e.i, e.t); }
  }

  lemma TaskBooks(s: State, i: nat, t: TaskEvent)
    requires i < |s.flights| && TaskEnabled(s.flights[i].phase, t)
    ensures var h, u, e := s.health, NextTask(s, i, t).health, Task(i, t);
            && u.exported == h.exported + OnTask(Book(true))(s, e)
            && u.failed == h.failed + OnTask(Book(false))(s, e) + OnTask(BookPanic)(s, e)
            && u.panicked == h.panicked + Panics()(s, e) && u.dropped == h.dropped
            && u.inflight == h.inflight - Ends()(s, e)
  {
  }

  lemma {:induction false} UnshippedConcat(a: seq<Handled>, b: seq<Handled>)
    ensures UnshippedSize(a + b) == UnshippedSize(a) + UnshippedSize(b)
  {
    if a == [] {
      assert a + b == b;
    } else {
      assert (a + b)[1..] == a[1..] + b;
      UnshippedConcat(a[1..], b);
    }
  }

  lemma {:induction false} RunBooks(s: State, events: seq<Event>)
    requires Legal(s, events)
    ensures var h, t := s.health, After(s, events).health;
            && t.exported == h.exported + Sum(s, events, OnTask(Book(true)))
            && t.failed == h.failed + Sum(s, events, OnTask(Book(false))) + Sum(s, events, OnTask(BookPanic))
            && t.panicked == h.panicked + Sum(s, events, Panics())
            && t.dropped == h.dropped + Sum(s, events, Overflows()) + UnshippedSize(HandledIn(s, events))
            && t.inflight == h.inflight + Sum(s, events, Starts()) - Sum(s, events, Ends())
    decreases |events|
  {
    if events != [] {
      var e, rest := events[0], events[1..];
      StepBooks(s, e);
      RunBooks(Next(s, e), rest);
      UnshippedConcat(HandledBy(s, e), HandledIn(Next(s, e), rest));
    }
  }

  lemma IntakeRecords(s: State, e: Event)
    requires IntakeEnabled(s.intake, e) && s.intake.enabled == s.target.Some?
    ensures NextIntake(s.intake, e).accepted == s.intake.accepted + AcceptedBy(s, e)
    ensures NextIntake(s.intake, e).entered == s.intake.entered + EnteredBy(s, e)
    ensures NextIntake(s.intake, e).enabled == s.intake.enabled
  {
  }

  lemma BatcherRecords(s: State, b: BatcherEvent)
    requires BatcherEnabled(s, b)
    ensures var t := NextBatcher(s, b);
            && t.handled == s.handled + HandledBy(s, Batcher(b))
            && t.intake.accepted == s.intake.accepted && t.intake.entered == s.intake.entered
            && t.intake.enabled == s.intake.enabled && t.target == s.target
  {
  }

  lemma StepRecords(s: State, e: Event)
    requires Enabled(s, e) && s.intake.enabled == s.target.Some?
    ensures var t := Next(s, e);
            && t.handled == s.handled + HandledBy(s, e)
            && t.intake.accepted == s.intake.accepted + AcceptedBy(s, e)
            && t.intake.entered == s.intake.entered + EnteredBy(s, e)
            && t.intake.enabled == t.target.Some?
  {
    match e
    case Batcher(b) => BatcherRecords(s, b);
    case Task(_, _) =>
    case Reload(_, _) =>
    case _ => IntakeRecords(s, e);
  }

  lemma {:induction false} RunRecords(s: State, events: seq<Event>)
    requires Legal(s, events) && s.intake.enabled == s.target.Some?
    ensures var t := After(s, events);
            && t.handled == s.handled + HandledIn(s, events)
            && t.intake.accepted == s.intake.accepted + AcceptedIn(s, events)
            && t.intake.entered == s.intake.entered + EnteredIn(s, events)
    decreases |events|
  {
    if events != [] {
      var e, rest := events[0], events[1..];
      StepRecords(s, e);
      RunRecords(Next(s, e), rest);
      Assoc(s.handled, HandledBy(s, e), HandledIn(Next(s, e), rest));
      Assoc(s.intake.entered, EnteredBy(s, e), EnteredIn(Next(s, e), rest));
    }
  }

  /**
   Every counter, read off the run: `exported` is the size of the batches whose flush succeeded,
   `failed` of those whose flush failed and of those booked while unwinding, `dropped` counts the
   offers that met a full queue and the batches for which no target was loaded.
   */
  lemma CountersTellTheRun(target: Option<string>, maxInflight: nat, events: seq<Event>)
    requires Legal(Initial(target, maxInflight), events)
    ensures var s0 := Initial(target, maxInflight);
            var h := After(s0, events).health;
            && h.exported == Sum(s0, events, OnTask(Book(true)))
            && h.failed == Sum(s0, events, OnTask(Book(false))) + Sum(s0, events, OnTask(BookPanic))
            && h.panicked == Sum(s0, events, Panics())
            && h.dropped == Sum(s0, events, Overflows()) + UnshippedSize(HandledIn(s0, events))
            && h.inflight == Sum(s0, events, Starts()) - Sum(s0, events, Ends())
  {
    RunBooks(Initial(target, maxInflight), events);
  }

  /** What was accepted, what entered the queue, and what became of each batch, read off the run. */
  lemma HistoryTellsTheRun(target: Option<string>, maxInflight: nat, events: seq<Event>)
    requires Legal(Initial(target, maxInflight), events)
    ensures var s0 := Initial(target, maxInflight);
            var s := After(s0, events);
            && s.intake.accepted == AcceptedIn(s0, events)
            && s.intake.entered == EnteredIn(s0, events)
            && s.handled == HandledIn(s0, events)
  {
    RunRecords(Initial(target, maxInflight), events);
  }

  // ---------------------------------------------------------------------------------------------
  // Configuration

  lemma {:induction false} Snoc(s: State, events: seq<Event>)
    requires Legal(s, events) && events != []
    ensures var n := |events| - 1;
            Legal(s, events[..n]) && Enabled(After(s, events[..n]), events[n])
            && After(s, events) == Next(After(s, events[..n]), events[n])
    decreases |events|
  {
    var n := |events| - 1;
    if n > 0 {
      Snoc(Next(s, events[0]), events[1..]);
      assert events[1..][..n - 1] == events[..n][1..];
    } else {
      assert events[..0] == [] && events[1..] == [];
    }
  }

  /** The target and the width in force are those of the latest reload, the width at least one. */
  lemma {:induction false} LatestReloadRules(target: Option<string>, maxInflight: nat, events: seq<Event>)
    requires Legal(Initial(target, maxInflight), events)
    ensures var s := After(Initial(target, maxInflight), events);
            && s.target == LatestTarget(target, events)
            && s.intake.enabled == s.target.Some?
            && s.sema.maxInflight == Max(LatestWidth(maxInflight, events), 1)
    decreases |events|
  {
    if events != [] {
      var n := |events| - 1;
      Snoc(Initial(target, maxInflight), events);
      LatestReloadRules(target, maxInflight, events[..n]);
      NextRules(After(Initial(target, maxInflight), events[..n]), events[n]);
    }
  }

  lemma NextRules(s: State, e: Event)
    requires Enabled(s, e)
    ensures var t := Next(s, e);
            && t.target == (if e.Reload? then e.target else s.target)
            && t.intake.enabled == (if e.Reload? then e.target.Some? else s.intake.enabled)
            && t.sema.maxInflight == (if e.Reload? then Max(e.width, 1) else s.sema.maxInflight)
  {
  }
}
