/** What the events of a run say about its requests, which steps are open in a
    state, and that the machine can always finish what it has begun. */
module TaskTrace {
  import opened Sums
  import opened Tasks
  import opened TaskLifecycle
  import LeaseTrace

  // ------------------------------------------------------------ reading the events

  function Admissions(events: seq<Event>): nat {
    if events == [] then 0
    else Admissions(events[..|events| - 1]) + if events[|events| - 1] == Admit then 1 else 0
  }

  function OrdersTaken(events: seq<Event>): nat {
    if events == [] then 0
    else
      var e := events[|events| - 1];
      OrdersTaken(events[..|events| - 1]) + if e.Do? && e.step == TakeOrder then 1 else 0
  }

  /** Where the steps of a request have taken it. Its submit order is the number of
      orders taken up to then; whether it succeeds is what its parser returned. */
  function PhaseAfter(events: seq<Event>, id: nat): Phase {
    if events == [] then Admitted
    else
      var earlier := events[..|events| - 1];
      var before, e := PhaseAfter(earlier, id), events[|events| - 1];
      if !(e.Do? && e.id == id) then before
      else
        match e.step
        case Reject => Rejected
        case TakeOrder => Ordered(OrdersTaken(earlier) + 1)
        case Insert(_, _) => Submitted
        case AcquireRequest => Permitted
        case RefuseRequest => Refused
        case StartProcessing(_) => Parsing
        case ReturnFromParser(ok) => Parsed(ok)
        case ReleaseRequest => Released(ParserSaid(earlier, id))
        case Settle(_, _, _) => Settled(before.Released? && ParserSaid(earlier, id))
        case Leave => Gone(before.Settled? && before.ok)
  }

  /** What the parser of the request returned last. */
  function ParserSaid(events: seq<Event>, id: nat): bool {
    if events == [] then false
    else
      var e := events[|events| - 1];
      if e.Do? && e.id == id && e.step.ReturnFromParser? then e.step.ok else ParserSaid(events[..|events| - 1], id)
  }

  ghost predicate Traced(events: seq<Event>, s: State) {
    && |s.procs| == Admissions(events) && s.nextOrder == 1 + OrdersTaken(events)
    && forall id: nat :: RequestTraced(events, s, id)
  }

  ghost predicate RequestTraced(events: seq<Event>, s: State, id: nat) {
    var phase := PhaseAfter(events, id);
    && phase == (if id < |s.procs| then s.procs[id] else Admitted)
    && (phase.Parsed? || phase.Released? ==> ParserSaid(events, id) == phase.ok)
  }

  lemma StepTraced(c: Config, events: seq<Event>, s: State, e: Event)
    requires Traced(events, s) && Enabled(c, s, e)
    ensures Traced(events + [e], Apply(c, s, e))
  {
    hide NextTable, Expired, ApplyClean;
    assert (events + [e])[..|events|] == events;
    if e.Clean? {
      CleanKeepsEntries(c, s, e.clean);
    }
    forall id: nat
      ensures RequestTraced(events + [e], Apply(c, s, e), id)
    {
      assert RequestTraced(events, s, id);
    }
  }

  /** In every reachable state every request is where its own steps took it, orders
      are handed out one by one, and a request succeeds as its parser said. */
  lemma {:induction false} RunIsTraced(c: Config, events: seq<Event>, s: State)
    requires Reaches(c, events, s)
    ensures Traced(events, s)
    decreases |events|
  {
    hide Enabled, Apply, Traced;
    if events == [] {
      NothingTraced(c);
    } else {
      var n := |events| - 1;
      var mid := LeaseTrace.LastStep(c, Init(c), events, s);
      RunIsTraced(c, events[..n], mid);
      StepTraced(c, events[..n], mid, events[n]);
      assert events == events[..n] + [events[n]];
    }
  }

  lemma NothingTraced(c: Config)
    ensures Traced([], Init(c))
  {
  }

  // ------------------------------------------------------------------ open steps

  /** While the cleaner scans or removes, only its own steps change the table. */
  lemma TableIsLocked(c: Config, s: State, e: Event)
    requires Enabled(c, s, e) && !e.Clean? && (s.cleaner.Scanning? || s.cleaner.Removing?)
    ensures Apply(c, s, e).tasks == s.tasks && (Apply(c, s, e).readers == s.readers || e.DropLease?)
  {
  }

  /** A request may fail before it is submitted, and when it waits for its permit; the
      cleaner starts only when idle, and never without a retention time. */
  lemma OpenSteps(c: Config, s: State, id: nat, now: int)
    ensures Enabled(c, s, Do(id, Reject)) <==> id < |s.procs| && s.procs[id] == Admitted
    ensures Enabled(c, s, Do(id, RefuseRequest)) <==> id < |s.procs| && s.procs[id] == Submitted
    ensures Enabled(c, s, Clean(LockTable(now))) <==> s.cleaner == Idle && c.retention > 0
    ensures Enabled(c, s, Admit) <==> s.admission >= 1
  {
    hide Expired;
  }

  // -------------------------------------------------------------------- progress

  /** Steps that finish what has begun: of requests, and of a cleanup. */
  predicate Internal(e: Event) {
    e.Do? || (e.Clean? && !e.clean.LockTable? && !e.clean.Mark?)
  }

  /** Internal steps that are not failures. */
  predicate Regular(e: Event) {
    Internal(e) && (e.Do? ==> !e.step.Reject? && !e.step.RefuseRequest?)
  }

  predicate Quiet(s: State) {
    s.cleaner.Idle? && forall id :: 0 <= id < |s.procs| ==> s.procs[id].Rejected? || s.procs[id].Gone?
  }

  lemma CleanerMoves(c: Config, s: State) returns (e: Event)
    requires !s.cleaner.Idle?
    ensures Regular(e) && Enabled(c, s, e)
  {
    hide Expired;
    match s.cleaner
    case Scanning(_, _) => e := Clean(EndScan);
    case Removing(marked, _) => e := if marked != [] then Clean(RemoveFirst) else Clean(UnlockTable);
    case Deleting(doomed) => e := if doomed != [] then Clean(DeleteFirst) else Clean(EndCleanup);
  }

  lemma HolderMoves(c: Config, s: State, id: nat) returns (e: Event)
    requires s.cleaner.Idle? && id < |s.procs| && HoldsRequest(s.procs[id]) > 0
    ensures Regular(e) && Enabled(c, s, e)
  {
    match s.procs[id]
    case Permitted => e := Do(id, StartProcessing(0));
    case Parsing => e := Do(id, ReturnFromParser(true));
    case Parsed(_) => e := Do(id, ReleaseRequest);
  }

  lemma RequestMoves(c: Config, s: State, id: nat) returns (e: Event)
    requires c.concurrent >= 1 && PermitsBalance(c, s) && s.cleaner.Idle?
    requires id < |s.procs| && !s.procs[id].Rejected? && !s.procs[id].Gone?
    ensures Regular(e) && Enabled(c, s, e)
  {
    match s.procs[id]
    case Admitted => e := Do(id, TakeOrder);
    case Ordered(_) => e := Do(id, Insert([], ""));
    case Submitted =>
      if s.request > 0 {
        e := Do(id, AcquireRequest);
      } else {
        var other := SumWitness(s.procs, HoldsRequest);
        e := HolderMoves(c, s, other);
      }
    case Refused => e := Do(id, Settle([], "", 0));
    case Released(_) => e := Do(id, Settle([], "", 0));
    case Settled(_) => e := Do(id, Leave);
    case _ => e := HolderMoves(c, s, id);
  }

  /** While a request is under way or the cleaner is, some step that takes one of
      them further, and is no failure, is enabled. */
  lemma NeverStuck(c: Config, s: State) returns (e: Event)
    requires c.concurrent >= 1 && Inv(c, s) && !Quiet(s)
    ensures Regular(e) && Enabled(c, s, e)
  {
    hide TasksOk, OrdersOk, LeasesOk, CleanerOk, Enabled, Regular;
    if !s.cleaner.Idle? {
      e := CleanerMoves(c, s);
    } else {
      var id :| 0 <= id < |s.procs| && !(s.procs[id].Rejected? || s.procs[id].Gone?);
      e := RequestMoves(c, s, id);
    }
  }

  function PhaseWork(phase: Phase): nat {
    match phase
    case Admitted => 8 case Ordered(_) => 7 case Submitted => 6 case Permitted => 5 case Parsing => 4
    case Parsed(_) => 3 case Released(_) => 2 case Refused => 2 case Settled(_) => 1
    case Gone(_) => 0 case Rejected => 0
  }

  function CleanWork(cleaner: Cleaner): nat {
    match cleaner
    case Idle => 0
    case Scanning(_, marked) => 3 + 2 * |marked|
    case Removing(marked, doomed) => 2 + 2 * |marked| + |doomed|
    case Deleting(doomed) => 1 + |doomed|
  }

  function Work(s: State): nat {
    Sum(s.procs, PhaseWork) + CleanWork(s.cleaner)
  }

  lemma PhaseShrinks(phase: Phase, step: Step, order: nat)
    requires StepFits(phase, step)
    ensures PhaseWork(NextPhase(phase, step, order)) < PhaseWork(phase)
  {
  }

  lemma RequestShrinks(c: Config, s: State, id: nat, step: Step)
    requires Enabled(c, s, Do(id, step))
    ensures Work(Apply(c, s, Do(id, step))) < Work(s)
  {
    hide NextTable, NextPhase, PhaseWork, StepFits;
    PhaseShrinks(s.procs[id], step, s.nextOrder);
    SumUpdate(s.procs, id, NextPhase(s.procs[id], step, s.nextOrder), PhaseWork);
  }

  lemma CleanerShrinks(c: Config, s: State, step: CleanStep)
    requires CleanEnabled(c, s, step) && !step.LockTable? && !step.Mark?
    ensures CleanWork(ApplyClean(c, s, step).cleaner) < CleanWork(s.cleaner)
    ensures ApplyClean(c, s, step).procs == s.procs
  {
    hide Expired;
  }

  lemma WorkShrinks(c: Config, s: State, e: Event)
    requires Enabled(c, s, e) && Internal(e)
    ensures Work(Apply(c, s, e)) < Work(s)
  {
    hide ApplyStep, ApplyClean, CleanEnabled, StepFits, PhaseWork, CleanWork;
    if e.Do? {
      RequestShrinks(c, s, e.id, e.step);
    } else {
      CleanerShrinks(c, s, e.clean);
    }
  }

  lemma {:induction false} WorkBounds(c: Config, s: State, events: seq<Event>, last: State)
    requires Follows(c, s, events, last) && forall i :: 0 <= i < |events| ==> Internal(events[i])
    ensures |events| + Work(last) <= Work(s)
    decreases |events|
  {
    hide Enabled, Apply, Work, Internal;
    if events != [] {
      WorkShrinks(c, s, events[0]);
      WorkBounds(c, Apply(c, s, events[0]), events[1..], last);
    }
  }

  lemma QuietBalance(c: Config, s: State)
    requires Inv(c, s) && Quiet(s)
    ensures s.admission == c.inFlight && s.request == c.concurrent
    ensures forall id :: id in s.tasks ==> s.tasks[id].status == Completed || s.tasks[id].status == Failed
    ensures IsListing(s.deleted, s.removed.Keys)
  {
    hide OrdersOk, LeasesOk, EntryOk, IsListing;
    SumZero(s.procs, HoldsAdmission);
    SumZero(s.procs, HoldsRequest);
    assert s.deleted + [] == s.deleted;
    forall id | id in s.tasks
      ensures s.tasks[id].status == Completed || s.tasks[id].status == Failed
    {
      TaskOkAt(s, id);
    }
  }

  /** Draining: without new requests and cleanups the steps left are bounded; when
      none is left every request is over with a final status, both semaphores have
      all their permits, and every removed task's directory is deleted, once. */
  lemma {:induction false} Drains(c: Config, events: seq<Event>, s: State, more: seq<Event>, last: State)
    requires c.concurrent >= 1 && Reaches(c, events, s) && Follows(c, s, more, last)
    requires forall i :: 0 <= i < |more| ==> Internal(more[i])
    ensures |more| <= Work(s)
    ensures (forall e :: Regular(e) ==> !Enabled(c, last, e)) ==> Quiet(last)
    ensures Quiet(last) ==> last.admission == c.inFlight && last.request == c.concurrent
    ensures Quiet(last) ==>
              forall id :: id in last.tasks ==> last.tasks[id].status == Completed || last.tasks[id].status == Failed
    ensures Quiet(last) ==> IsListing(last.deleted, last.removed.Keys)
  {
    hide Inv, Enabled, Apply, Work, Internal, Regular, Quiet, IsListing;
    InitInv(c);
    RunInv(c, Init(c), events, s);
    RunInv(c, s, more, last);
    WorkBounds(c, s, more, last);
    if !Quiet(last) {
      var e := NeverStuck(c, last);
    } else {
      QuietBalance(c, last);
    }
  }
}
