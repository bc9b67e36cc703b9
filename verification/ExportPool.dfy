/**
 The export flush pool as a transition system. Actors: submitters, the batcher task, the flush tasks
 and the reload path; each event below is one atomic access to shared state. Time enters only as the
 free choice of ticks and of early flushes. A reload is one event (reloads come from one signal loop).
 */
module ExportPool {
  import opened Prelude

  const QUEUE_CAPACITY := 1024
  const BATCH_MAX := 32

  type Record = string
  type Batch = seq<Record>

  // ---------------------------------------------------------------------------------------------
  // State

  /**
   The submitting side. `sending` are records past the enabled check and not yet offered to the
   queue; `accepted` is everything that ever passed the check, `entered` the order of entry.
   */
  datatype Intake = Intake(
    sending: multiset<Record>, queue: seq<Record>, closed: bool, enabled: bool,
    accepted: multiset<Record>, entered: seq<Record>)

  /**
   The health counters. History: `settled` are the records counted, each at its first booking;
   `overcount` are the records that a panic after booking counted a second time.
   */
  datatype Health = Health(
    exported: nat, failed: nat, dropped: nat, panicked: nat, inflight: int,
    settled: multiset<Record>, overcount: nat)

  /** The resizable semaphore. `width` is the configured width as of the batcher's last swap. */
  datatype Sema = Sema(maxInflight: nat, delta: int, width: nat, pendingForget: nat, available: nat)

  /** Life of a flush task; `again` tells whether the batch was booked before the panic. */
  datatype Phase =
    | Flying
    | Exported
    | Failed                  // booked, the failure still being reported
    | Unwinding(again: bool)
    | Lowered(again: bool)    // unwinding, gauge already lowered
    | Releasing               // only the permit is left to give back

  datatype Flight = Flight(batch: Batch, phase: Phase)

  /** Where the batcher is. */
  datatype Pc =
    | Receive
    | Swap
    | Resize(delta: int)
    | Forget
    | Decide
    | Choose(batch: Batch)    // batch in hand, target not loaded yet
    | Acquire(batch: Batch)   // parked on a pool permit
    | Spawn(batch: Batch)     // holds a permit
    | Joining
    | Done

  /** A batch the batcher is through with: shipped to a flush task, or dropped for want of a target. */
  datatype Handled = Handled(batch: Batch, shipped: bool)

  /** `handled` is the batcher's history, in the order of its decisions. */
  datatype State = State(
    intake: Intake, target: Option<string>, sema: Sema, pc: Pc, draining: bool,
    buf: Batch, handled: seq<Handled>, flights: seq<Flight>, health: Health)

  datatype BatcherEvent =
    | TakeOne | Tick | SeeClosed // outcomes of the receive
    | TakeDelta | ApplyDelta | ForgetFree
    | KeepBuffering | TakeBatch
    | LoadTarget | GetPermit | StartFlush | Finish

  datatype TaskEvent = Book(ok: bool) | Panic | LatePanic | Complete | LowerGauge | BookPanic | Release

  datatype Event =
    | Submit(r: Record)          // the enabled check of `submit`
    | TrySend(r: Record)         // its `try_send`
    | Close                      // the last sender is gone
    | Reload(target: Option<string>, width: nat)
    | Batcher(b: BatcherEvent)
    | Task(i: nat, t: TaskEvent)

  function Initial(target: Option<string>, maxInflight: nat): State {
    var w := Max(maxInflight, 1);
    State(
      Intake(multiset{}, [], false, target.Some?, multiset{}, []), target, Sema(w, 0, w, 0, w),
      Receive, false, [], [], [], Health(0, 0, 0, 0, 0, multiset{}, 0))
  }

  // ---------------------------------------------------------------------------------------------
  // Submitters

  predicate IntakeEnabled(k: Intake, e: Event) {
    match e
    case Submit(_) => !k.closed
    case TrySend(r) => r in k.sending
    case Close => !k.closed && k.sending == multiset{}
    case _ => false
  }

  function NextIntake(k: Intake, e: Event): Intake {
    match e
    case Submit(r) =>
      if k.enabled then k.(sending := k.sending + multiset{r}, accepted := k.accepted + multiset{r}) else k
    case TrySend(r) =>
      var left := k.(sending := k.sending - multiset{r});
      if |k.queue| < QUEUE_CAPACITY then left.(queue := k.queue + [r], entered := k.entered + [r]) else left
    case Close => k.(closed := true)
    case _ => k
  }

  function DropRecords(h: Health, batch: Batch): Health {
    h.(dropped := h.dropped + |batch|, settled := h.settled + multiset(batch))
  }

  function IntakeHealth(s: State, e: Event): Health {
    if e.TrySend? && |s.intake.queue| >= QUEUE_CAPACITY then DropRecords(s.health, [e.r]) else s.health
  }

  // ---------------------------------------------------------------------------------------------
  // Reload: `apply_target`

  function NextReload(s: State, target: Option<string>, width: nat): State {
    var w := Max(width, 1);
    s.(target := target, intake := s.intake.(enabled := target.Some?),
       sema := s.sema.(maxInflight := w, delta := s.sema.delta + (w - s.sema.maxInflight)))
  }

  // ---------------------------------------------------------------------------------------------
  // The batcher: `export_loop` and `dispatch_batch`

  predicate BatcherEnabled(s: State, b: BatcherEvent) {
    match b
    case TakeOne => s.pc == Receive && s.intake.queue != []
    case Tick => s.pc == Receive && s.intake.queue == [] && !s.intake.closed
    case SeeClosed => s.pc == Receive && s.intake.queue == [] && s.intake.closed
    case TakeDelta => s.pc == Swap
    case ApplyDelta => s.pc.Resize?
    case ForgetFree => s.pc == Forget
    case KeepBuffering => s.pc == Decide && |s.buf| < BATCH_MAX
    case TakeBatch => s.pc == Decide && s.buf != []
    case LoadTarget => s.pc.Choose?
    case GetPermit => s.pc.Acquire? && s.sema.available > 0
    case StartFlush => s.pc.Spawn?
    case Finish => s.pc == Joining && s.flights == []
  }

  function AfterDispatch(s: State): Pc {
    if s.draining then Joining else Receive
  }

  function CutBatch(s: State): State {
    s.(buf := [], pc := Choose(s.buf))
  }

  function NextBatcher(s: State, b: BatcherEvent): State
    requires BatcherEnabled(s, b)
  {
    match b
    case TakeOne =>
      s.(intake := s.intake.(queue := s.intake.queue[1..]), buf := s.buf + [s.intake.queue[0]], pc := Swap)
    case Tick => s.(pc := Swap)
    case SeeClosed =>
      var d := s.(draining := true);
      if s.buf == [] then d.(pc := Joining) else CutBatch(d)
    case TakeDelta => s.(sema := s.sema.(delta := 0, width := s.sema.maxInflight), pc := Resize(s.sema.delta))
    case ApplyDelta =>
      if s.pc.delta > 0 then s.(sema := s.sema.(available := s.sema.available + s.pc.delta), pc := Forget)
      else s.(sema := s.sema.(pendingForget := s.sema.pendingForget - s.pc.delta), pc := Forget)
    case ForgetFree =>
      var n := Min(s.sema.pendingForget, s.sema.available);
      s.(sema := s.sema.(available := s.sema.available - n, pendingForget := s.sema.pendingForget - n), pc := Decide)
    case KeepBuffering => s.(pc := Receive)
    case TakeBatch => CutBatch(s)
    case LoadTarget =>
      if s.target.Some? then s.(pc := Acquire(s.pc.batch))
      else s.(health := DropRecords(s.health, s.pc.batch),
              handled := s.handled + [Handled(s.pc.batch, false)], pc := AfterDispatch(s))
    case GetPermit => s.(sema := s.sema.(available := s.sema.available - 1), pc := Spawn(s.pc.batch))
    case StartFlush =>
      s.(health := s.health.(inflight := s.health.inflight + 1),
         flights := s.flights + [Flight(s.pc.batch, Flying)],
         handled := s.handled + [Handled(s.pc.batch, true)], pc := AfterDispatch(s))
    case Finish => s.(pc := Done)
  }

  // ---------------------------------------------------------------------------------------------
  // Flush tasks: `flush_batch` inside its `FlushBooking`

  predicate TaskEnabled(p: Phase, t: TaskEvent) {
    match t
    case Book(_) => p == Flying
    case Panic => p == Flying
    case LatePanic => p == Failed
    case Complete => p == Exported || p == Failed
    case LowerGauge => p.Unwinding?
    case BookPanic => p.Lowered?
    case Release => p == Releasing
  }

  function NextPhase(p: Phase, t: TaskEvent): Phase
    requires TaskEnabled(p, t)
  {
    match t
    case Book(ok) => if ok then Exported else Failed
    case Panic => Unwinding(false)
    case LatePanic => Unwinding(true)
    case LowerGauge => Lowered(p.again)
    case _ => Releasing
  }

  function TaskHealth(h: Health, f: Flight, t: TaskEvent): Health
    requires TaskEnabled(f.phase, t)
  {
    var n := |f.batch|;
    match t
    case Book(ok) =>
      var once := h.(settled := h.settled + multiset(f.batch));
      if ok then once.(exported := h.exported + n) else once.(failed := h.failed + n)
    case Complete => h.(inflight := h.inflight - 1)
    case LowerGauge => h.(inflight := h.inflight - 1)
    case BookPanic =>
      var counted := h.(failed := h.failed + n, panicked := h.panicked + 1);
      if f.phase.again then counted.(overcount := h.overcount + n)
      else counted.(settled := h.settled + multiset(f.batch))
    case _ => h
  }

  function NextTask(s: State, i: nat, t: TaskEvent): State
    requires i < |s.flights| && TaskEnabled(s.flights[i].phase, t)
  {
    var f := s.flights[i];
    if t.Release? then
      s.(flights := s.flights[..i] + s.flights[i + 1..], sema := s.sema.(available := s.sema.available + 1))
    else
      s.(flights := s.flights[i := Flight(f.batch, NextPhase(f.phase, t))], health := TaskHealth(s.health, f, t))
  }

  predicate Enabled(s: State, e: Event) {
    match e
    case Reload(_, _) => true
    case Batcher(b) => BatcherEnabled(s, b)
    case Task(i, t) => i < |s.flights| && TaskEnabled(s.flights[i].phase, t)
    case _ => IntakeEnabled(s.intake, e)
  }

  function Next(s: State, e: Event): State
    requires Enabled(s, e)
  {
    match e
    case Reload(target, width) => NextReload(s, target, width)
    case Batcher(b) => NextBatcher(s, b)
    case Task(i, t) => NextTask(s, i, t)
    case _ => s.(intake := NextIntake(s.intake, e), health := IntakeHealth(s, e))
  }

  // ---------------------------------------------------------------------------------------------
  // Sums over the flights

  function Total(weight: Flight -> nat, flights: seq<Flight>): nat {
    if flights == [] then 0 else weight(flights[0]) + Total(weight, flights[1..])
  }

  lemma {:induction false} TotalConcat(weight: Flight -> nat, a: seq<Flight>, b: seq<Flight>)
    ensures Total(weight, a + b) == Total(weight, a) + Total(weight, b)
    decreases |a|
  {
    if a == [] {
      assert a + b == b;
    } else {
      assert (a + b)[1..] == a[1..] + b;
      TotalConcat(weight, a[1..], b);
    }
  }

  lemma TotalSnoc(weight: Flight -> nat, flights: seq<Flight>, f: Flight)
    ensures Total(weight, flights + [f]) == Total(weight, flights) + weight(f)
  {
    TotalConcat(weight, flights, [f]);
    assert Total(weight, [f]) == weight(f) + Total(weight, []);
  }

  lemma TotalSplit(weight: Flight -> nat, flights: seq<Flight>, i: nat)
    requires i < |flights|
    ensures Total(weight, flights)
         == Total(weight, flights[..i]) + weight(flights[i]) + Total(weight, flights[i + 1..])
  {
    assert flights == flights[..i] + flights[i..];
    TotalConcat(weight, flights[..i], flights[i..]);
  }

  lemma TotalUpdate(weight: Flight -> nat, flights: seq<Flight>, i: nat, f: Flight)
    requires i < |flights|
    ensures Total(weight, flights[i := f]) == Total(weight, flights) - weight(flights[i]) + weight(f)
  {
    var r := flights[i := f];
    TotalSplit(weight, flights, i);
    TotalSplit(weight, r, i);
    assert r[..i] == flights[..i] && r[i + 1..] == flights[i + 1..];
  }

  lemma TotalRemove(weight: Flight -> nat, flights: seq<Flight>, i: nat)
    requires i < |flights|
    ensures Total(weight, flights[..i] + flights[i + 1..]) == Total(weight, flights) - weight(flights[i])
  {
    TotalSplit(weight, flights, i);
    TotalConcat(weight, flights[..i], flights[i + 1..]);
  }

  function HoldsGauge(f: Flight): nat {
    if f.phase.Lowered? || f.phase.Releasing? then 0 else 1
  }

  predicate Uncounted(p: Phase) {
    p == Flying || p == Unwinding(false) || p == Lowered(false)
  }

  /** Copies of one record in a batch in flight that is not counted yet. */
  function Copies(r: Record, f: Flight): nat {
    if Uncounted(f.phase) then multiset(f.batch)[r] else 0
  }

  function CopiesOf(r: Record): Flight -> nat {
    (f: Flight) => Copies(r, f)
  }

  // ---------------------------------------------------------------------------------------------
  // The invariant

  function InHand(pc: Pc): Batch {
    if pc.Choose? || pc.Acquire? || pc.Spawn? then pc.batch else []
  }

  function Held(s: State): nat {
    |s.flights| + (if s.pc.Spawn? then 1 else 0)
  }

  function DeltaInHand(pc: Pc): int {
    if pc.Resize? then pc.delta else 0
  }

  /** Permit arithmetic under hot resizing. */
  predicate Permits(q: Sema, pc: Pc, flights: nat) {
    && q.maxInflight >= 1 && q.maxInflight - q.delta == q.width
    && q.width >= 1 && q.width - DeltaInHand(pc) >= 1
    && q.available + flights + (if pc.Spawn? then 1 else 0) + DeltaInHand(pc) == q.width + q.pendingForget
  }

  predicate Gauged(s: State) {
    s.health.inflight == Total(HoldsGauge, s.flights)
  }

  /** Each copy of an accepted record is in exactly one place. */
  predicate PlacedOnce(s: State, r: Record) {
    s.intake.accepted[r] ==
      s.intake.sending[r] + multiset(s.intake.queue)[r] + multiset(s.buf)[r]
      + multiset(InHand(s.pc))[r] + Total(CopiesOf(r), s.flights) + s.health.settled[r]
  }

  ghost predicate Placed(s: State) {
    forall r: Record :: PlacedOnce(s, r)
  }

  predicate Counted(h: Health) {
    h.exported + h.failed + h.dropped == |h.settled| + h.overcount
  }

  predicate SizeOk(batch: Batch) {
    1 <= |batch| <= BATCH_MAX
  }

  predicate Sized(s: State) {
    && |s.buf| <= (if s.pc == Receive then BATCH_MAX - 1 else BATCH_MAX)
    && (forall h | h in s.handled :: SizeOk(h.batch))
    && (s.pc.Choose? || s.pc.Acquire? || s.pc.Spawn? ==> SizeOk(s.pc.batch) && s.buf == [])
    && |s.intake.queue| <= QUEUE_CAPACITY
  }

  predicate FlightsSized(flights: seq<Flight>) {
    forall f | f in flights :: SizeOk(f.batch)
  }

  /** Every flush task carries a batch that was shipped, as it was shipped. */
  predicate Shipped(s: State) {
    forall f | f in s.flights :: Handled(f.batch, true) in s.handled
  }

  function BatchesOf(handled: seq<Handled>): seq<Batch> {
    if handled == [] then []
    else BatchesOf(handled[..|handled| - 1]) + [handled[|handled| - 1].batch]
  }

  /** Batches shipped or dropped, the one in hand, the buffer and the queue: the order of entry. */
  predicate Ordered(s: State) {
    s.intake.entered == Flatten(BatchesOf(s.handled)) + InHand(s.pc) + s.buf + s.intake.queue
  }

  predicate Staged(s: State) {
    && (s.intake.closed ==> s.intake.sending == multiset{})
    && (s.draining ==> s.intake.closed && s.intake.queue == [] && s.buf == [])
    && (s.draining <==> (s.pc == Joining || s.pc == Done || (s.draining && InHand(s.pc) != [])))
    && (s.pc == Done ==> s.flights == [])
  }

  ghost predicate Inv(s: State) {
    && Permits(s.sema, s.pc, |s.flights|) && Gauged(s) && Placed(s) && Counted(s.health)
    && Sized(s) && FlightsSized(s.flights) && Shipped(s) && Ordered(s) && Staged(s)
  }

  lemma InitialInv(target: Option<string>, maxInflight: nat)
    ensures Inv(Initial(target, maxInflight))
  {
  }

  // Each actor keeps each conjunct ---------------------------------------------------------------

  lemma BatcherKeepsPermits(s: State, b: BatcherEvent)
    requires Permits(s.sema, s.pc, |s.flights|) && BatcherEnabled(s, b)
    ensures var t := NextBatcher(s, b); Permits(t.sema, t.pc, |t.flights|)
  {
  }

  lemma KeepsPermits(s: State, e: Event)
    requires Permits(s.sema, s.pc, |s.flights|) && Enabled(s, e)
    ensures var t := Next(s, e); Permits(t.sema, t.pc, |t.flights|)
  {
    if e.Batcher? { BatcherKeepsPermits(s, e.b); }
  }

  /** A task event changes the gauge as it changes the task's hold on it. */
  lemma TaskGauge(h: Health, f: Flight, t: TaskEvent)
    requires TaskEnabled(f.phase, t)
    ensures TaskHealth(h, f, t).inflight - h.inflight
         == (if t.Release? then 0 else HoldsGauge(Flight(f.batch, NextPhase(f.phase, t)))) - HoldsGauge(f)
  {
  }

  lemma TaskKeepsGauged(s: State, i: nat, t: TaskEvent)
    requires Gauged(s) && i < |s.flights| && TaskEnabled(s.flights[i].phase, t)
    ensures Gauged(NextTask(s, i, t))
  {
    var f := s.flights[i];
    TaskGauge(s.health, f, t);
    if t.Release? {
      TotalRemove(HoldsGauge, s.flights, i);
    } else {
      TotalUpdate(HoldsGauge, s.flights, i, Flight(f.batch, NextPhase(f.phase, t)));
    }
  }

  lemma BatcherKeepsGauged(s: State, b: BatcherEvent)
    requires Gauged(s) && BatcherEnabled(s, b)
    ensures Gauged(NextBatcher(s, b))
  {
    if b.StartFlush? {
      TotalSnoc(HoldsGauge, s.flights, Flight(s.pc.batch, Flying));
    }
  }

  lemma KeepsGauged(s: State, e: Event)
    requires Gauged(s) && Enabled(s, e)
    ensures Gauged(Next(s, e))
  {
    if e.Batcher? {
      BatcherKeepsGauged(s, e.b);
    } else if e.Task? {
      TaskKeepsGauged(s, e.i, e.t);
    }
  }

  lemma IntakeKeepsPlaced(s: State, e: Event, r: Record)
    requires PlacedOnce(s, r) && IntakeEnabled(s.intake, e)
    ensures PlacedOnce(s.(intake := NextIntake(s.intake, e), health := IntakeHealth(s, e)), r)
  {
    if e.TrySend? { SendPlaced(s.intake, s.health, e.r, r); }
  }

  /** An offered record moves from its submitter to the queue, or to the dropped. */
  lemma SendPlaced(k: Intake, h: Health, x: Record, r: Record)
    requires x in k.sending
    ensures var t := NextIntake(k, TrySend(x));
            t.accepted == k.accepted
            && t.sending[r] + multiset(t.queue)[r] + (if |k.queue| >= QUEUE_CAPACITY && r == x then 1 else 0)
               == k.sending[r] + multiset(k.queue)[r]
  {
  }

  lemma TakePlaced(s: State, r: Record)
    requires PlacedOnce(s, r) && BatcherEnabled(s, TakeOne)
    ensures PlacedOnce(NextBatcher(s, TakeOne), r)
  {
    assert s.intake.queue == [s.intake.queue[0]] + s.intake.queue[1..];
  }

  lemma CutPlaced(s: State, r: Record)
    requires PlacedOnce(s, r) && InHand(s.pc) == []
    ensures PlacedOnce(CutBatch(s), r)
  {
  }

  lemma LoadPlaced(s: State, r: Record)
    requires PlacedOnce(s, r) && BatcherEnabled(s, LoadTarget)
    ensures PlacedOnce(NextBatcher(s, LoadTarget), r)
  {
  }

  lemma StartPlaced(s: State, r: Record)
    requires PlacedOnce(s, r) && BatcherEnabled(s, StartFlush)
    ensures PlacedOnce(NextBatcher(s, StartFlush), r)
  {
    TotalSnoc(CopiesOf(r), s.flights, Flight(s.pc.batch, Flying));
  }

  lemma BatcherKeepsPlaced(s: State, b: BatcherEvent, r: Record)
    requires PlacedOnce(s, r) && BatcherEnabled(s, b)
    ensures PlacedOnce(NextBatcher(s, b), r)
  {
    match b
    case TakeOne => TakePlaced(s, r);
    case LoadTarget => LoadPlaced(s, r);
    case StartFlush => StartPlaced(s, r);
    case TakeBatch => CutPlaced(s, r);
    case SeeClosed => CutPlaced(s.(draining := true), r);
    case _ =>
  }

  /** A task event leaves a record in its flight or settles it, never both. */
  lemma TaskSettles(h: Health, f: Flight, t: TaskEvent, r: Record)
    requires TaskEnabled(f.phase, t)
    ensures t.Release? ==> CopiesOf(r)(f) == 0
    ensures !t.Release? ==>
              CopiesOf(r)(f) + h.settled[r]
              == CopiesOf(r)(Flight(f.batch, NextPhase(f.phase, t))) + TaskHealth(h, f, t).settled[r]
  {
  }

  lemma TaskKeepsPlaced(s: State, i: nat, t: TaskEvent, r: Record)
    requires PlacedOnce(s, r) && i < |s.flights| && TaskEnabled(s.flights[i].phase, t)
    ensures PlacedOnce(NextTask(s, i, t), r)
  {
    var f := s.flights[i];
    TaskSettles(s.health, f, t, r);
    if t.Release? {
      TotalRemove(CopiesOf(r), s.flights, i);
    } else {
      TotalUpdate(CopiesOf(r), s.flights, i, Flight(f.batch, NextPhase(f.phase, t)));
    }
  }

  lemma KeepsPlacedOnce(s: State, e: Event, r: Record)
    requires PlacedOnce(s, r) && Enabled(s, e)
    ensures PlacedOnce(Next(s, e), r)
  {
    match e
    case Reload(_, _) =>
    case Batcher(b) => BatcherKeepsPlaced(s, b, r);
    case Task(i, t) => TaskKeepsPlaced(s, i, t, r);
    case _ => IntakeKeepsPlaced(s, e, r);
  }

  lemma KeepsCounted(s: State, e: Event)
    requires Counted(s.health) && Enabled(s, e)
    ensures Counted(Next(s, e).health)
  {
  }

  lemma BatcherKeepsSized(s: State, b: BatcherEvent)
    requires Sized(s) && BatcherEnabled(s, b)
    ensures Sized(NextBatcher(s, b))
  {
  }

  lemma KeepsSized(s: State, e: Event)
    requires Sized(s) && Enabled(s, e)
    ensures Sized(Next(s, e))
  {
    if e.Batcher? { BatcherKeepsSized(s, e.b); }
  }

  lemma KeepsFlightsSized(s: State, e: Event)
    requires Sized(s) && FlightsSized(s.flights) && Enabled(s, e)
    ensures FlightsSized(Next(s, e).flights)
  {
  }

  lemma TakeKeepsOrdered(s: State)
    requires Ordered(s) && BatcherEnabled(s, TakeOne)
    ensures Ordered(NextBatcher(s, TakeOne))
  {
    var gone, queue := Flatten(BatchesOf(s.handled)), s.intake.queue;
    assert gone + [] + s.buf + queue == gone + [] + (s.buf + [queue[0]]) + queue[1..];
  }

  lemma CutKeepsOrdered(s: State)
    requires Ordered(s) && InHand(s.pc) == []
    ensures Ordered(CutBatch(s))
  {
    var gone, queue := Flatten(BatchesOf(s.handled)), s.intake.queue;
    assert gone + [] + s.buf + queue == gone + s.buf + [] + queue;
  }

  /** The batch in hand joins the history. */
  lemma HandleKeepsOrdered(s: State, shipped: bool, pc: Pc)
    requires Ordered(s) && InHand(pc) == []
    ensures Ordered(s.(handled := s.handled + [Handled(InHand(s.pc), shipped)], pc := pc))
  {
    var gone := Flatten(BatchesOf(s.handled));
    HandledSnoc(s.handled, InHand(s.pc), shipped);
    assert gone + InHand(s.pc) + [] == gone + InHand(s.pc);
  }

  lemma BatcherKeepsOrdered(s: State, b: BatcherEvent)
    requires Ordered(s) && BatcherEnabled(s, b)
    ensures Ordered(NextBatcher(s, b))
  {
    match b
    case TakeOne => TakeKeepsOrdered(s);
    case TakeBatch => CutKeepsOrdered(s);
    case SeeClosed => CutKeepsOrdered(s.(draining := true));
    case LoadTarget => HandleKeepsOrdered(s, false, AfterDispatch(s));
    case StartFlush => HandleKeepsOrdered(s, true, AfterDispatch(s));
    case _ =>
  }

  lemma HandledSnoc(handled: seq<Handled>, batch: Batch, shipped: bool)
    ensures Flatten(BatchesOf(handled + [Handled(batch, shipped)])) == Flatten(BatchesOf(handled)) + batch
  {
    var all := handled + [Handled(batch, shipped)];
    assert all[..|handled|] == handled;
    FlattenSnoc(BatchesOf(handled), batch);
  }

  lemma KeepsShipped(s: State, e: Event)
    requires Shipped(s) && Enabled(s, e)
    ensures Shipped(Next(s, e))
  {
    if e.Task? { assert s.flights[e.i] in s.flights; }
  }

  lemma KeepsOrdered(s: State, e: Event)
    requires Ordered(s) && Enabled(s, e)
    ensures Ordered(Next(s, e))
  {
    if e.Batcher? {
      BatcherKeepsOrdered(s, e.b);
    } else if e.TrySend? {
      Assoc(Flatten(BatchesOf(s.handled)) + InHand(s.pc) + s.buf, s.intake.queue, [e.r]);
    }
  }

  lemma BatcherKeepsStaged(s: State, b: BatcherEvent)
    requires Staged(s) && Sized(s) && BatcherEnabled(s, b)
    ensures Staged(NextBatcher(s, b))
  {
    if b.SeeClosed? { CloseKeepsStaged(s); }
  }

  lemma CloseKeepsStaged(s: State)
    requires Staged(s) && BatcherEnabled(s, SeeClosed)
    ensures Staged(NextBatcher(s, SeeClosed))
  {
  }

  lemma KeepsStaged(s: State, e: Event)
    requires Staged(s) && Sized(s) && Enabled(s, e)
    ensures Staged(Next(s, e))
  {
    if e.Batcher? { BatcherKeepsStaged(s, e.b); }
  }

  lemma KeepsInv(s: State, e: Event)
    requires Inv(s) && Enabled(s, e)
    ensures Inv(Next(s, e))
  {
    KeepsPermits(s, e);
    KeepsGauged(s, e);
    forall r: Record ensures PlacedOnce(Next(s, e), r) { KeepsPlacedOnce(s, e, r); }
    KeepsCounted(s, e);
    KeepsSized(s, e);
    KeepsFlightsSized(s, e);
    KeepsShipped(s, e);
    KeepsOrdered(s, e);
    KeepsStaged(s, e);
  }
}
