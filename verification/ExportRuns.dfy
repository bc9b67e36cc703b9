/** What holds over every interleaving of the export pool, and how its shutdown ends. */
module ExportRuns {
  import opened Prelude
  import opened ExportPool

  predicate Legal(s: State, events: seq<Event>)
    decreases events
  {
    events == [] || (Enabled(s, events[0]) && Legal(Next(s, events[0]), events[1..]))
  }

  function After(s: State, events: seq<Event>): State
    requires Legal(s, events)
    decreases events
  {
    if events == [] then s else After(Next(s, events[0]), events[1..])
  }

  lemma {:induction false} InvFrom(s: State, events: seq<Event>)
    requires Inv(s) && Legal(s, events)
    ensures Inv(After(s, events))
    decreases |events|
  {
    if events != [] {
      KeepsInv(s, events[0]);
      InvFrom(Next(s, events[0]), events[1..]);
    }
  }

  lemma RunKeepsInv(target: Option<string>, maxInflight: nat, events: seq<Event>)
    requires Legal(Initial(target, maxInflight), events)
    ensures Inv(After(Initial(target, maxInflight), events))
  {
    InitialInv(target, maxInflight);
    InvFrom(Initial(target, maxInflight), events);
  }

  // ---------------------------------------------------------------------------------------------
  // Records

  /** On every interleaving each accepted record is queued, buffered, in flight or counted: once. */
  lemma RecordsConserved(target: Option<string>, maxInflight: nat, events: seq<Event>, r: Record)
    requires Legal(Initial(target, maxInflight), events)
    ensures var s := After(Initial(target, maxInflight), events);
            && s.intake.accepted[r] ==
                 s.intake.sending[r] + multiset(s.intake.queue)[r] + multiset(s.buf)[r]
                 + multiset(InHand(s.pc))[r] + Total(CopiesOf(r), s.flights) + s.health.settled[r]
            && s.health.exported + s.health.failed + s.health.dropped
                 == |s.health.settled| + s.health.overcount
  {
    RunKeepsInv(target, maxInflight, events);
    var s := After(Initial(target, maxInflight), events);
    assert PlacedOnce(s, r);
  }

  /** When the batcher has finished, everything accepted is counted and nothing is in flight. */
  lemma DrainedIsCounted(target: Option<string>, maxInflight: nat, events: seq<Event>)
    requires Legal(Initial(target, maxInflight), events)
    requires After(Initial(target, maxInflight), events).pc == Done
    ensures var s := After(Initial(target, maxInflight), events);
            && s.health.settled == s.intake.accepted && s.health.inflight == 0
            && s.health.exported + s.health.failed + s.health.dropped
                 == |s.intake.accepted| + s.health.overcount
            && s.intake.entered == Flatten(BatchesOf(s.handled))
  {
    RunKeepsInv(target, maxInflight, events);
    var s := After(Initial(target, maxInflight), events);
    forall r: Record ensures s.intake.accepted[r] == s.health.settled[r] {
      assert PlacedOnce(s, r);
    }
    assert s.intake.accepted == s.health.settled;
    var gone := Flatten(BatchesOf(s.handled));
    assert gone + [] + [] + [] == gone;
  }

  predicate IsLatePanic(e: Event) {
    e.Task? && e.t == LatePanic
  }

  /** A flight on its way to being counted a second time. */
  function Twice(f: Flight): nat {
    if f.phase == Unwinding(true) || f.phase == Lowered(true) then 1 else 0
  }

  predicate DoubleBooked(s: State) {
    s.health.overcount + Total(Twice, s.flights) > 0
  }

  lemma TaskDoubleBooks(s: State, i: nat, t: TaskEvent)
    requires FlightsSized(s.flights) && i < |s.flights| && TaskEnabled(s.flights[i].phase, t)
    ensures DoubleBooked(NextTask(s, i, t)) <==> DoubleBooked(s) || t == LatePanic
  {
    var f := s.flights[i];
    assert f in s.flights && SizeOk(f.batch);
    TotalSplit(Twice, s.flights, i);
    if t.Release? {
      TotalRemove(Twice, s.flights, i);
    } else {
      TotalUpdate(Twice, s.flights, i, Flight(f.batch, NextPhase(f.phase, t)));
    }
  }

  lemma BatcherDoubleBooks(s: State, b: BatcherEvent)
    requires BatcherEnabled(s, b)
    ensures DoubleBooked(NextBatcher(s, b)) <==> DoubleBooked(s)
  {
    if b.StartFlush? {
      TotalSnoc(Twice, s.flights, Flight(s.pc.batch, Flying));
    }
  }

  lemma StepDoubleBooks(s: State, e: Event)
    requires FlightsSized(s.flights) && Enabled(s, e)
    ensures DoubleBooked(Next(s, e)) <==> DoubleBooked(s) || IsLatePanic(e)
  {
    if e.Task? { TaskDoubleBooks(s, e.i, e.t); }
    else if e.Batcher? { BatcherDoubleBooks(s, e.b); }
  }

  lemma {:induction false} RunDoubleBooks(s: State, events: seq<Event>)
    requires Inv(s) && Legal(s, events)
    ensures DoubleBooked(After(s, events)) <==> DoubleBooked(s) || exists e :: e in events && IsLatePanic(e)
    decreases |events|
  {
    if events != [] {
      var e, rest := events[0], events[1..];
      StepDoubleBooks(s, e);
      KeepsInv(s, e);
      RunDoubleBooks(Next(s, e), rest);
      assert forall x :: x in events <==> x == e || x in rest;
    }
  }

  /**
   The three counters add up to the records accepted iff no flush task panicked after booking its
   batch as failed (while reporting the failure): such a panic books the batch again.
   */
  lemma CountersExactIff(target: Option<string>, maxInflight: nat, events: seq<Event>)
    requires Legal(Initial(target, maxInflight), events)
    requires After(Initial(target, maxInflight), events).pc == Done
    ensures var s := After(Initial(target, maxInflight), events);
            s.health.exported + s.health.failed + s.health.dropped == |s.intake.accepted|
            <==> (forall e | e in events :: !IsLatePanic(e))
  {
    InitialInv(target, maxInflight);
    RunKeepsInv(target, maxInflight, events);
    DrainedIsCounted(target, maxInflight, events);
    RunDoubleBooks(Initial(target, maxInflight), events);
  }

  lemma {:induction false} Extend(s: State, events: seq<Event>, e: Event)
    requires Legal(s, events) && Enabled(After(s, events), e)
    ensures Legal(s, events + [e]) && After(s, events + [e]) == Next(After(s, events), e)
    decreases |events|
  {
    if events == [] {
      assert [e][1..] == [];
      assert events + [e] == [e];
    } else {
      assert (events + [e])[1..] == events[1..] + [e];
      Extend(Next(s, events[0]), events[1..], e);
    }
  }

  const START := Initial(Some("sink"), 1)

  ghost predicate Reaches(events: seq<Event>, s: State) {
    Legal(START, events) && After(START, events) == s
  }

  lemma Follow(events: seq<Event>, s: State, e: Event) returns (longer: seq<Event>)
    requires Reaches(events, s) && Enabled(s, e)
    ensures Reaches(longer, Next(s, e))
  {
    Extend(START, events, e);
    longer := events + [e];
  }

  lemma OneBuffered() returns (events: seq<Event>, s: State)
    ensures Reaches(events, s) && s.pc == Swap && s.buf == ["r"] && s.intake.accepted == multiset{"r"}
    ensures s.sema == START.sema && s.flights == [] && s.health == START.health && s.target.Some?
  {
    events, s := [], START;
    events := Follow(events, s, Submit("r"));
    s := Next(s, Submit("r"));
    events := Follow(events, s, TrySend("r"));
    s := Next(s, TrySend("r"));
    events := Follow(events, s, Batcher(TakeOne));
    s := Next(s, Batcher(TakeOne));
  }

  lemma OneChosen() returns (events: seq<Event>, s: State)
    ensures Reaches(events, s) && s.pc == Choose(["r"]) && s.intake.accepted == multiset{"r"}
    ensures s.sema == START.sema && s.flights == [] && s.health == START.health && s.target.Some?
  {
    events, s := OneBuffered();
    events := Follow(events, s, Batcher(TakeDelta));
    s := Next(s, Batcher(TakeDelta));
    events := Follow(events, s, Batcher(ApplyDelta));
    s := Next(s, Batcher(ApplyDelta));
    events := Follow(events, s, Batcher(ForgetFree));
    s := Next(s, Batcher(ForgetFree));
    events := Follow(events, s, Batcher(TakeBatch));
    s := Next(s, Batcher(TakeBatch));
  }

  lemma OneFlying() returns (events: seq<Event>, s: State)
    ensures Reaches(events, s) && s.flights == [Flight(["r"], Flying)]
    ensures s.health.failed == 0 && s.intake.accepted == multiset{"r"}
  {
    events, s := OneChosen();
    events := Follow(events, s, Batcher(LoadTarget));
    s := Next(s, Batcher(LoadTarget));
    events := Follow(events, s, Batcher(GetPermit));
    s := Next(s, Batcher(GetPermit));
    events := Follow(events, s, Batcher(StartFlush));
    s := Next(s, Batcher(StartFlush));
  }

  /** One record, one failed flush, a panic while reporting it: `failed` reads 2 for 1 record. */
  lemma DoubleBooking() returns (events: seq<Event>, s: State)
    ensures Reaches(events, s) && s.health.failed == 2 && |s.intake.accepted| == 1
  {
    events, s := OneFlying();
    events := Follow(events, s, Task(0, Book(false)));
    s := Next(s, Task(0, Book(false)));
    events := Follow(events, s, Task(0, LatePanic));
    s := Next(s, Task(0, LatePanic));
    events := Follow(events, s, Task(0, LowerGauge));
    s := Next(s, Task(0, LowerGauge));
    events := Follow(events, s, Task(0, BookPanic));
    s := Next(s, Task(0, BookPanic));
  }

  // ---------------------------------------------------------------------------------------------
  // Order and size of batches

  /**
   The batches dispatched and those dropped for want of a target, in the batcher's order, followed by
   the batch in hand, the buffer and the queue, are the records in the order they entered the queue.
   Each batch has 1 to 32 records, and every flush task carries one as it was dispatched.
   */
  lemma ExportOrder(target: Option<string>, maxInflight: nat, events: seq<Event>)
    requires Legal(Initial(target, maxInflight), events)
    ensures var s := After(Initial(target, maxInflight), events);
            && s.intake.entered == Flatten(BatchesOf(s.handled)) + InHand(s.pc) + s.buf + s.intake.queue
            && (forall h | h in s.handled :: 1 <= |h.batch| <= 32)
            && (InHand(s.pc) != [] ==> |InHand(s.pc)| <= 32)
            && (forall f | f in s.flights :: Handled(f.batch, true) in s.handled)
            && |s.intake.queue| <= 1024
  {
    RunKeepsInv(target, maxInflight, events);
  }

  // ---------------------------------------------------------------------------------------------
  // Permits

  lemma {:induction false} GaugeAtMost(flights: seq<Flight>)
    ensures Total(HoldsGauge, flights) <= |flights|
    decreases |flights|
  {
    if flights != [] { GaugeAtMost(flights[1..]); }
  }

  /**
   Under any mix of reloads: the width equation, at least one permit in existence, a gauge bounded
   by the permits held, and the exact width once no change is outstanding.
   */
  lemma WidthUnderReloads(target: Option<string>, maxInflight: nat, events: seq<Event>)
    requires Legal(Initial(target, maxInflight), events)
    ensures var s := After(Initial(target, maxInflight), events);
            && s.sema.available + Held(s) - s.sema.pendingForget + DeltaInHand(s.pc) + s.sema.delta
                 == s.sema.maxInflight
            && s.sema.available + Held(s) >= 1
            && 0 <= s.health.inflight <= Held(s)
            && (s.sema.delta == 0 && s.sema.pendingForget == 0 && !s.pc.Resize? ==>
                  Held(s) <= s.sema.maxInflight)
  {
    RunKeepsInv(target, maxInflight, events);
    GaugeAtMost(After(Initial(target, maxInflight), events).flights);
  }

  /** A shrink takes every permit that is free: after the batcher's pass none is, or nothing is owed. */
  lemma ForgetsWhatIsFree(s: State)
    requires BatcherEnabled(s, ForgetFree)
    ensures var t := NextBatcher(s, ForgetFree).sema;
            && (t.pendingForget == 0 || t.available == 0)
            && s.sema.pendingForget - t.pendingForget == s.sema.available - t.available >= 0
  {
  }

  /** A step open to a flush task, whatever its phase. */
  function SomeStep(p: Phase): (t: TaskEvent)
    ensures TaskEnabled(p, t)
  {
    match p
    case Flying => Book(true)
    case Exported => Complete
    case Failed => Complete
    case Unwinding(_) => LowerGauge
    case Lowered(_) => BookPanic
    case Releasing => Release
  }

  function TaskSteps(events: seq<Event>): nat {
    if events == [] then 0 else (if events[0].Task? then 1 else 0) + TaskSteps(events[1..])
  }

  /** Whatever the others do, flush tasks take boundedly many steps while the batcher is parked. */
  lemma {:induction false} ParkedRun(s: State, events: seq<Event>)
    requires Inv(s) && s.pc.Acquire? && Legal(s, events)
    requires forall e | e in events :: !e.Batcher?
    ensures var t := After(s, events);
            Inv(t) && t.pc == s.pc
            && TaskSteps(events) + Total(PhaseWeight, t.flights) <= Total(PhaseWeight, s.flights)
    decreases |events|
  {
    if events != [] {
      var e, rest := events[0], events[1..];
      KeepsInv(s, e);
      if e.Task? { TaskLightens(s, e.i, e.t); }
      assert e in events && forall x | x in rest :: x in events;
      ParkedRun(Next(s, e), rest);
    }
  }

  /**
   A batcher parked on `acquire` is always freed. If there is no permit to take, a flush is in flight.
   However the wait continues (flushes that succeed, fail or panic, in any order, among submits and
   reloads), the flush tasks take only boundedly many steps, and when none of them can take another
   a permit is there for the batcher.
   */
  lemma ParkedBatcherIsFreed(target: Option<string>, maxInflight: nat, events: seq<Event>, wait: seq<Event>)
    requires Legal(Initial(target, maxInflight), events)
    requires var s := After(Initial(target, maxInflight), events);
             s.pc.Acquire? && Legal(s, wait) && forall e | e in wait :: !e.Batcher?
    ensures var s := After(Initial(target, maxInflight), events);
            var t := After(s, wait);
            && t.pc == s.pc
            && (s.sema.available == 0 ==> s.flights != [])
            && TaskSteps(wait) <= Total(PhaseWeight, s.flights)
            && (BatcherEnabled(t, GetPermit) || exists e: Event :: e.Task? && Enabled(t, e))
  {
    RunKeepsInv(target, maxInflight, events);
    var s := After(Initial(target, maxInflight), events);
    ParkedRun(s, wait);
    var t := After(s, wait);
    if t.flights != [] {
      assert Enabled(t, Task(0, SomeStep(t.flights[0].phase)));
    }
  }

  // ---------------------------------------------------------------------------------------------
  // Shutdown terminates

  function PhaseWeight(f: Flight): nat {
    match f.phase
    case Flying => 6
    case Exported => 5
    case Failed => 5
    case Unwinding(_) => 4
    case Lowered(_) => 3
    case Releasing => 1
  }

  function PcWeight(pc: Pc): nat {
    match pc
    case Receive => 0
    case Swap => 4
    case Resize(_) => 3
    case Forget => 2
    case Decide => 1
    case Choose(_) => 10
    case Acquire(_) => 9
    case Spawn(_) => 8
    case Joining => 1
    case Done => 0
  }

  function WorkLeft(s: State): nat {
    15 * |s.intake.queue| + 10 * |s.buf| + PcWeight(s.pc) + (if s.draining then 0 else 20)
      + Total(PhaseWeight, s.flights)
  }

  predicate OwnStep(e: Event) {
    e.Batcher? || e.Task?
  }

  lemma TaskLightens(s: State, i: nat, t: TaskEvent)
    requires i < |s.flights| && TaskEnabled(s.flights[i].phase, t)
    ensures Total(PhaseWeight, NextTask(s, i, t).flights) < Total(PhaseWeight, s.flights)
  {
    var f := s.flights[i];
    if t.Release? {
      TotalRemove(PhaseWeight, s.flights, i);
    } else {
      TotalUpdate(PhaseWeight, s.flights, i, Flight(f.batch, NextPhase(f.phase, t)));
    }
  }

  lemma BatcherProgress(s: State, b: BatcherEvent)
    requires s.intake.closed && Staged(s) && BatcherEnabled(s, b)
    ensures WorkLeft(NextBatcher(s, b)) < WorkLeft(s)
  {
    match b
    case StartFlush => StartProgress(s);
    case TakeBatch => CutProgress(s, s);
    case SeeClosed => if s.buf != [] { CutProgress(s, s.(draining := true)); }
    case _ =>
  }

  lemma StartProgress(s: State)
    requires s.intake.closed && Staged(s) && BatcherEnabled(s, StartFlush)
    ensures WorkLeft(NextBatcher(s, StartFlush)) < WorkLeft(s)
  {
    TotalSnoc(PhaseWeight, s.flights, Flight(s.pc.batch, Flying));
  }

  lemma CutProgress(s: State, d: State)
    requires s.buf != []
    requires (d == s && s.pc == Decide) || (d == s.(draining := true) && !s.draining)
    ensures WorkLeft(CutBatch(d)) < WorkLeft(s)
  {
  }

  /** After the channel closes every step of the batcher or of a flush task uses work up ... */
  lemma ShutdownProgress(s: State, e: Event)
    requires s.intake.closed && Staged(s) && OwnStep(e) && Enabled(s, e)
    ensures WorkLeft(Next(s, e)) < WorkLeft(s) && Next(s, e).intake.closed
  {
    if e.Task? { TaskLightens(s, e.i, e.t); } else { BatcherProgress(s, e.b); }
  }

  /** ... and unless the batcher is done, some such step is possible. */
  lemma ShutdownNeverStuck(s: State)
    requires Inv(s) && s.intake.closed && s.pc != Done
    ensures exists e :: OwnStep(e) && Enabled(s, e)
  {
    if s.flights != [] && (s.pc == Joining || (s.pc.Acquire? && s.sema.available == 0)) {
      assert Enabled(s, Task(0, SomeStep(s.flights[0].phase)));
    } else {
      var b := match s.pc
        case Receive => if s.intake.queue != [] then TakeOne else SeeClosed
        case Swap => TakeDelta
        case Resize(_) => ApplyDelta
        case Forget => ForgetFree
        case Decide => if s.buf != [] then TakeBatch else KeepBuffering
        case Choose(_) => LoadTarget
        case Acquire(_) => GetPermit
        case Spawn(_) => StartFlush
        case Joining => Finish
        case Done => Finish;
      assert Enabled(s, Batcher(b));
    }
  }

  function OwnSteps(events: seq<Event>): nat {
    if events == [] then 0 else (if OwnStep(events[0]) then 1 else 0) + OwnSteps(events[1..])
  }

  /**
   ... so after the close, among any number of reloads, batcher and flush tasks take boundedly many
   steps, and a run in which they can take no more has reached `Done`. Nothing else can happen then.
   */
  lemma {:induction false} ShutdownEnds(s: State, events: seq<Event>)
    requires Inv(s) && s.intake.closed && Legal(s, events)
    ensures OwnSteps(events) + WorkLeft(After(s, events)) <= WorkLeft(s)
    ensures After(s, events).pc == Done || exists e :: OwnStep(e) && Enabled(After(s, events), e)
    decreases |events|
  {
    if events == [] {
      if s.pc != Done { ShutdownNeverStuck(s); }
    } else {
      var e := events[0];
      if OwnStep(e) { ShutdownProgress(s, e); } else { ClosedIntake(s, e); }
      KeepsInv(s, e);
      ShutdownEnds(Next(s, e), events[1..]);
    }
  }

  /** Once the channel is closed no submitter is left; a reload leaves the work as it is. */
  lemma ClosedIntake(s: State, e: Event)
    requires Staged(s) && s.intake.closed && Enabled(s, e) && !OwnStep(e)
    ensures e.Reload? && Next(s, e).intake.closed && WorkLeft(Next(s, e)) == WorkLeft(s)
  {
  }
}
