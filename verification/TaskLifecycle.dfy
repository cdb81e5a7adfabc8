/** Requests, task processors, result readers and the cleaner, as a state
    machine whose steps are their atomic actions. Any interleaving is a run.
    A task is named by the number of its request. */
module TaskLifecycle {
  import opened Options
  import opened Sums
  import opened Tasks

  // ------------------------------------------------------------------- state

  /** Where the request of a task and the processor spawned for it are. */
  datatype Phase =
    | Admitted             // holds an admission permit, uploads still being read
    | Rejected             // the request failed before it was submitted
    | Ordered(order: nat)  // has its submit order, not yet in the table
    | Submitted            // in the table, waiting for a request permit
    | Refused              // could not get a request permit
    | Permitted            // holds a request permit
    | Parsing              // the parser runs
    | Parsed(ok: bool)     // the parser has returned, the request permit is still held
    | Released(ok: bool)   // the request permit is dropped, the status not yet final
    | Settled(ok: bool)    // the status is final, the admission permit still held
    | Gone(ok: bool)       // the admission permit is dropped

  /** The cleaner holds the table lock while it scans and removes, not while it deletes. */
  datatype Cleaner =
    | Idle
    | Scanning(now: int, marked: seq<nat>)
    | Removing(marked: seq<nat>, doomed: seq<nat>)
    | Deleting(doomed: seq<nat>)
  {
    predicate HoldsLock() {
      Scanning? || Removing?
    }

    function Doomed(): seq<nat> {
      if Removing? || Deleting? then doomed else []
    }

    function Marked(): seq<nat> {
      if HoldsLock() then marked else []
    }
  }

  datatype Config = Config(inFlight: nat, concurrent: nat, retention: nat)

  datatype State = State(
    procs: seq<Phase>,
    tasks: Table,
    nextOrder: nat,
    admission: nat,             // free permits of the two semaphores
    request: nat,
    readers: map<nat, int>,     // the reader count of each task ever submitted
    leases: multiset<nat>,      // the live leases
    cleaner: Cleaner,
    removed: map<nat, Entry>,   // history: entries taken out of the table, directories deleted
    deleted: seq<nat>)

  function Init(c: Config): State {
    State([], map[], 1, c.inFlight, c.concurrent, map[], multiset{}, Idle, map[], [])
  }

  // ------------------------------------------------------------------- steps

  datatype Step =
    | Reject
    | TakeOrder
    | Insert(fileNames: seq<string>, outputDir: string)
    | AcquireRequest
    | RefuseRequest
    | StartProcessing(now: int)
    | ReturnFromParser(ok: bool)
    | ReleaseRequest
    | Settle(fileNames: seq<string>, error: string, now: int)
    | Leave

  datatype CleanStep = LockTable(now: int) | Mark(id: nat) | EndScan | RemoveFirst | UnlockTable | DeleteFirst | EndCleanup

  datatype Event =
    | Admit
    | Do(id: nat, step: Step)
    | AcquireLease(id: nat)
    | DropLease(id: nat)
    | Clean(clean: CleanStep)

  predicate StepFits(phase: Phase, step: Step) {
    match step
    case Reject => phase.Admitted?
    case TakeOrder => phase.Admitted?
    case Insert(_, _) => phase.Ordered?
    case AcquireRequest => phase.Submitted?
    case RefuseRequest => phase.Submitted?
    case StartProcessing(_) => phase.Permitted?
    case ReturnFromParser(_) => phase.Parsing?
    case ReleaseRequest => phase.Parsed?
    case Settle(_, _, _) => phase.Released? || phase.Refused?
    case Leave => phase.Settled?
  }

  predicate NeedsTable(step: Step) {
    step.Insert? || step.StartProcessing? || step.Settle?
  }

  predicate CleanEnabled(c: Config, s: State, step: CleanStep) {
    match step
    case LockTable(_) => s.cleaner.Idle? && c.retention > 0
    case Mark(id) =>
      s.cleaner.Scanning? && id !in s.cleaner.marked && id in Expired(s.tasks, s.readers, c.retention, s.cleaner.now)
    case EndScan => s.cleaner.Scanning?
    case RemoveFirst => s.cleaner.Removing? && s.cleaner.marked != []
    case UnlockTable => s.cleaner.Removing? && s.cleaner.marked == []
    case DeleteFirst => s.cleaner.Deleting? && s.cleaner.doomed != []
    case EndCleanup => s.cleaner.Deleting? && s.cleaner.doomed == []
  }

  predicate Enabled(c: Config, s: State, e: Event) {
    match e
    case Admit => s.admission > 0
    case Do(id, step) =>
      && id < |s.procs| && StepFits(s.procs[id], step)
      && (NeedsTable(step) ==> !s.cleaner.HoldsLock())
      && (step.AcquireRequest? ==> s.request > 0)
    case AcquireLease(id) => id in s.tasks && id in s.readers && !s.cleaner.HoldsLock()
    case DropLease(id) => id in s.leases && id in s.readers
    case Clean(step) => CleanEnabled(c, s, step)
  }

  function NextPhase(phase: Phase, step: Step, order: nat): Phase
    requires StepFits(phase, step)
  {
    match step
    case Reject => Rejected
    case TakeOrder => Ordered(order)
    case Insert(_, _) => Submitted
    case AcquireRequest => Permitted
    case RefuseRequest => Refused
    case StartProcessing(_) => Parsing
    case ReturnFromParser(ok) => Parsed(ok)
    case ReleaseRequest => Released(phase.ok)
    case Settle(_, _, _) => Settled(phase.Released? && phase.ok)
    case Leave => Gone(phase.ok)
  }

  function NextTable(tasks: Table, id: nat, phase: Phase, step: Step): Table
    requires StepFits(phase, step)
  {
    match step
    case Insert(fileNames, outputDir) => tasks[id := NewEntry(phase.order, fileNames, outputDir)]
    case StartProcessing(now) => WithProcessing(tasks, id, now)
    case Settle(fileNames, error, now) =>
      if phase.Released? && phase.ok then WithCompleted(tasks, id, fileNames, now) else WithFailed(tasks, id, error, now)
    case _ => tasks
  }

  function ApplyStep(s: State, id: nat, step: Step): State
    requires id < |s.procs| && StepFits(s.procs[id], step) && (step.AcquireRequest? ==> s.request > 0)
  {
    s.(procs := s.procs[id := NextPhase(s.procs[id], step, s.nextOrder)],
       tasks := NextTable(s.tasks, id, s.procs[id], step),
       nextOrder := if step.TakeOrder? then s.nextOrder + 1 else s.nextOrder,
       admission := if step.Reject? || step.Leave? then s.admission + 1 else s.admission,
       request := if step.AcquireRequest? then s.request - 1 else if step.ReleaseRequest? then s.request + 1 else s.request,
       readers := if step.Insert? then s.readers[id := 0] else s.readers)
  }

  function ApplyClean(c: Config, s: State, step: CleanStep): State
    requires CleanEnabled(c, s, step)
  {
    match step
    case LockTable(now) => s.(cleaner := Scanning(now, []))
    case Mark(id) => s.(cleaner := Scanning(s.cleaner.now, s.cleaner.marked + [id]))
    case EndScan => s.(cleaner := Removing(s.cleaner.marked, []))
    case RemoveFirst =>
      var id, left := s.cleaner.marked[0], s.cleaner.marked[1..];
      if id in s.tasks
      then s.(cleaner := Removing(left, s.cleaner.doomed + [id]), tasks := s.tasks - {id},
              removed := s.removed[id := s.tasks[id]])
      else s.(cleaner := Removing(left, s.cleaner.doomed))
    case UnlockTable => s.(cleaner := Deleting(s.cleaner.doomed))
    case DeleteFirst =>
      s.(cleaner := Deleting(s.cleaner.doomed[1..]), deleted := s.deleted + [s.cleaner.doomed[0]])
    case EndCleanup => s.(cleaner := Idle)
  }

  function Apply(c: Config, s: State, e: Event): State
    requires Enabled(c, s, e)
  {
    match e
    case Admit => s.(procs := s.procs + [Admitted], admission := s.admission - 1)
    case Do(id, step) => ApplyStep(s, id, step)
    case AcquireLease(id) => s.(readers := s.readers[id := s.readers[id] + 1], leases := s.leases + multiset{id})
    case DropLease(id) => s.(readers := s.readers[id := s.readers[id] - 1], leases := s.leases - multiset{id})
    case Clean(step) => ApplyClean(c, s, step)
  }

  ghost predicate Follows(c: Config, s: State, events: seq<Event>, last: State)
    decreases |events|
  {
    if events == [] then last == s
    else Enabled(c, s, events[0]) && Follows(c, Apply(c, s, events[0]), events[1..], last)
  }

  ghost predicate Reaches(c: Config, events: seq<Event>, s: State) {
    Follows(c, Init(c), events, s)
  }

  lemma FollowsNil(c: Config, s: State)
    ensures Follows(c, s, [], s)
  {
  }

  lemma {:induction false} FollowsJoin(c: Config, s: State, first: seq<Event>, mid: State, second: seq<Event>, last: State)
    requires Follows(c, s, first, mid) && Follows(c, mid, second, last)
    ensures Follows(c, s, first + second, last)
    decreases |first|
  {
    hide Enabled, Apply;
    if first == [] {
      assert first + second == second;
    } else {
      FollowsJoin(c, Apply(c, s, first[0]), first[1..], mid, second, last);
      assert (first + second)[1..] == first[1..] + second;
    }
  }

  lemma {:induction false} FollowsSnoc(c: Config, s: State, events: seq<Event>, mid: State, e: Event)
    requires Follows(c, s, events, mid) && Enabled(c, mid, e)
    ensures Follows(c, s, events + [e], Apply(c, mid, e))
  {
    hide Enabled, Apply;
    assert [e][1..] == [];
    FollowsJoin(c, s, events, mid, [e], Apply(c, mid, e));
  }

  // -------------------------------------------------------------- invariants

  function HoldsAdmission(phase: Phase): nat {
    if phase.Rejected? || phase.Gone? then 0 else 1
  }

  function HoldsRequest(phase: Phase): nat {
    if phase.Permitted? || phase.Parsing? || phase.Parsed? then 1 else 0
  }

  function IsParsing(phase: Phase): nat {
    if phase.Parsing? then 1 else 0
  }

  /** The phases in which the task's status is Processing. */
  function IsProcessing(phase: Phase): nat {
    if phase.Parsing? || phase.Parsed? || phase.Released? then 1 else 0
  }

  ghost predicate PermitsBalance(c: Config, s: State) {
    && s.admission + Sum(s.procs, HoldsAdmission) == c.inFlight
    && s.request + Sum(s.procs, HoldsRequest) == c.concurrent
  }

  function StatusIn(phase: Phase): Option<Status> {
    match phase
    case Admitted => None
    case Rejected => None
    case Ordered(_) => None
    case Submitted => Some(Pending)
    case Refused => Some(Pending)
    case Permitted => Some(Pending)
    case Parsing => Some(Processing)
    case Parsed(_) => Some(Processing)
    case Released(_) => Some(Processing)
    case Settled(ok) => Some(if ok then Completed else Failed)
    case Gone(ok) => Some(if ok then Completed else Failed)
  }

  /** A completion time exactly when terminal, an error exactly when failed. */
  predicate EntryOk(entry: Entry) {
    && (entry.completedAt.Some? <==> entry.status.IsTerminal())
    && (entry.error.Some? <==> entry.status.Failed?)
  }

  /** A task has an entry, in the table or removed from it, exactly when it was
      submitted; the entry shows the status its phase calls for; and only
      terminal entries are removed. */
  ghost predicate TaskOk(s: State, id: nat) {
    if id >= |s.procs| || StatusIn(s.procs[id]).None? then id !in s.tasks && id !in s.removed && id !in s.readers
    else
      var status := StatusIn(s.procs[id]).value;
      && id in s.readers && (id in s.tasks <==> id !in s.removed)
      && (id in s.tasks ==> s.tasks[id].status == status && EntryOk(s.tasks[id]))
      && (id in s.removed ==> s.removed[id].status == status && EntryOk(s.removed[id]) && status.IsTerminal())
  }

  ghost predicate TasksOk(s: State) {
    forall id: nat :: TaskOk(s, id)
  }

  /** The submit order of a task, from the moment it is assigned. */
  function OrderOf(s: State, id: nat): Option<nat> {
    if id < |s.procs| && s.procs[id].Ordered? then Some(s.procs[id].order)
    else if id in s.tasks then Some(s.tasks[id].submitOrder)
    else None
  }

  ghost predicate OrdersOk(s: State) {
    && s.nextOrder > 0
    && (forall id: nat :: OrderOf(s, id).Some? ==> 0 < OrderOf(s, id).value < s.nextOrder)
    && (forall a: nat, b: nat :: OrderOf(s, a).Some? && a != b ==> OrderOf(s, a) != OrderOf(s, b))
  }

  /** Every reader count is the number of live leases. */
  ghost predicate LeasesOk(s: State) {
    && (forall id :: id in s.readers ==> s.readers[id] == s.leases[id])
    && (forall id :: id in s.leases ==> id in s.readers)
  }

  /** Marked tasks are terminal and have no reader; removed ones have none
      either, and each is listed once among those deleted or about to be. */
  ghost predicate CleanerOk(s: State) {
    && (forall id :: id in s.cleaner.Marked() ==>
          id in s.tasks && s.tasks[id].status.IsTerminal() && id !in s.leases)
    && (forall i, j :: 0 <= i < j < |s.cleaner.Marked()| ==> s.cleaner.Marked()[i] != s.cleaner.Marked()[j])
    && IsListing(s.deleted + s.cleaner.Doomed(), s.removed.Keys)
    && (forall id :: id in s.removed ==> id !in s.leases)
  }

  ghost predicate Inv(c: Config, s: State) {
    PermitsBalance(c, s) && TasksOk(s) && OrdersOk(s) && LeasesOk(s) && CleanerOk(s)
  }

  lemma InitInv(c: Config)
    ensures Inv(c, Init(c))
  {
  }

  lemma KeepPermitsStep(c: Config, s: State, id: nat, step: Step)
    requires PermitsBalance(c, s)
    requires id < |s.procs| && StepFits(s.procs[id], step) && (step.AcquireRequest? ==> s.request > 0)
    ensures PermitsBalance(c, ApplyStep(s, id, step))
  {
    hide NextTable;
    var phase := NextPhase(s.procs[id], step, s.nextOrder);
    SumUpdate(s.procs, id, phase, HoldsAdmission);
    SumUpdate(s.procs, id, phase, HoldsRequest);
  }

  lemma KeepPermits(c: Config, s: State, e: Event)
    requires PermitsBalance(c, s) && Enabled(c, s, e)
    ensures PermitsBalance(c, Apply(c, s, e))
  {
    hide ApplyStep, StepFits, Expired;
    match e
    case Admit =>
      SumSnoc(s.procs, Admitted, HoldsAdmission);
      SumSnoc(s.procs, Admitted, HoldsRequest);
    case Do(id, step) => KeepPermitsStep(c, s, id, step);
    case _ =>
  }

  lemma KeepTasksStep(s: State, id: nat, step: Step)
    requires TasksOk(s) && id < |s.procs| && StepFits(s.procs[id], step) && (step.AcquireRequest? ==> s.request > 0)
    ensures TasksOk(ApplyStep(s, id, step))
  {
    var s' := ApplyStep(s, id, step);
    assert TaskOk(s, id);
    forall other: nat
      ensures TaskOk(s', other)
    {
      assert TaskOk(s, other);
    }
  }

  lemma KeepTasksClean(c: Config, s: State, step: CleanStep)
    requires TasksOk(s) && CleanerOk(s) && CleanEnabled(c, s, step)
    ensures TasksOk(ApplyClean(c, s, step))
  {
    hide IsListing, Expired, EntryOk;
    var s' := ApplyClean(c, s, step);
    if step.RemoveFirst? {
      var first := s.cleaner.marked[0];
      assert first in s.cleaner.Marked();
      forall id: nat
        ensures TaskOk(s', id)
      {
        assert TaskOk(s, id);
      }
    } else {
      SameTasks(s, s');
    }
  }

  lemma SameTasks(s: State, s': State)
    requires TasksOk(s) && s'.procs == s.procs && s'.tasks == s.tasks && s'.removed == s.removed
    requires s'.readers.Keys == s.readers.Keys
    ensures TasksOk(s')
  {
    hide EntryOk, StatusIn;
    forall id: nat
      ensures TaskOk(s', id)
    {
      assert TaskOk(s, id);
      assert id in s'.readers.Keys <==> id in s.readers.Keys;
    }
  }

  lemma KeepTasks(c: Config, s: State, e: Event)
    requires TasksOk(s) && CleanerOk(s) && Enabled(c, s, e)
    ensures TasksOk(Apply(c, s, e))
  {
    hide IsListing, Expired, EntryOk, StatusIn, ApplyStep, ApplyClean, CleanEnabled, CleanerOk;
    var s' := Apply(c, s, e);
    match e
    case Admit =>
      KeepTasksAdmit(s, s');
    case Do(id, step) => KeepTasksStep(s, id, step);
    case Clean(step) => KeepTasksClean(c, s, step);
    case AcquireLease(id) => assert s'.readers.Keys == s.readers.Keys; SameTasks(s, s');
    case DropLease(id) => assert s'.readers.Keys == s.readers.Keys; SameTasks(s, s');
  }

  lemma KeepTasksAdmit(s: State, s': State)
    requires TasksOk(s) && s'.procs == s.procs + [Admitted] && s'.tasks == s.tasks && s'.removed == s.removed
    requires s'.readers == s.readers
    ensures TasksOk(s')
  {
    hide EntryOk;
    forall id: nat
      ensures TaskOk(s', id)
    {
      assert TaskOk(s, id);
    }
  }

  lemma KeepOrdersStep(s: State, id: nat, step: Step)
    requires OrdersOk(s) && TasksOk(s) && id < |s.procs| && StepFits(s.procs[id], step)
    requires step.AcquireRequest? ==> s.request > 0
    ensures OrdersOk(ApplyStep(s, id, step))
  {
    hide EntryOk, TasksOk;
    var s' := ApplyStep(s, id, step);
    assert TaskOk(s, id) by { TaskOkAt(s, id); }
    assert step.TakeOrder? ==> OrderOf(s', id) == Some(s.nextOrder);
    forall a: nat | a != id || !step.TakeOrder?
      ensures OrderOf(s', a) == OrderOf(s, a)
    {
    }
  }

  lemma TaskOkAt(s: State, id: nat)
    requires TasksOk(s)
    ensures TaskOk(s, id)
  {
  }

  lemma FewerOrders(s: State, s': State)
    requires OrdersOk(s) && s'.nextOrder == s.nextOrder
    requires forall id: nat :: OrderOf(s', id) == OrderOf(s, id) || OrderOf(s', id) == None
    ensures OrdersOk(s')
  {
    hide OrderOf;
    assert forall id: nat :: OrderOf(s', id).Some? ==> OrderOf(s', id) == OrderOf(s, id);
  }

  lemma OrdersAfterAdmit(s: State, s': State)
    requires TaskOk(s, |s.procs|) && s'.procs == s.procs + [Admitted] && s'.tasks == s.tasks
    ensures forall id: nat :: OrderOf(s', id) == OrderOf(s, id)
  {
    BeyondUnsubmitted(s);
  }

  lemma OrdersOfFewer(s: State, s': State)
    requires s'.procs == s.procs
    requires forall id :: id in s'.tasks ==> id in s.tasks && s'.tasks[id] == s.tasks[id]
    ensures forall id: nat :: OrderOf(s', id) == OrderOf(s, id) || OrderOf(s', id) == None
  {
  }

  /** The cleaner takes tasks out of the table and changes none. */
  lemma CleanKeepsEntries(c: Config, s: State, step: CleanStep)
    requires CleanEnabled(c, s, step)
    ensures var s' := ApplyClean(c, s, step);
            && s'.procs == s.procs && s'.nextOrder == s.nextOrder
            && forall id :: id in s'.tasks ==> id in s.tasks && s'.tasks[id] == s.tasks[id]
  {
    hide Expired;
  }

  lemma KeepOrders(c: Config, s: State, e: Event)
    requires OrdersOk(s) && TasksOk(s) && Enabled(c, s, e)
    ensures OrdersOk(Apply(c, s, e))
  {
    hide ApplyStep, ApplyClean, CleanEnabled, OrdersOk, TasksOk, TaskOk, OrderOf, StepFits;
    var s' := Apply(c, s, e);
    match e
    case Do(id, step) => KeepOrdersStep(s, id, step);
    case Admit =>
      TaskOkAt(s, |s.procs|);
      OrdersAfterAdmit(s, s');
      FewerOrders(s, s');
    case Clean(step) =>
      CleanKeepsEntries(c, s, step);
      OrdersOfFewer(s, s');
      FewerOrders(s, s');
    case AcquireLease(_) =>
      OrdersOfFewer(s, s');
      FewerOrders(s, s');
    case DropLease(_) =>
      OrdersOfFewer(s, s');
      FewerOrders(s, s');
  }

  lemma BeyondUnsubmitted(s: State)
    requires TaskOk(s, |s.procs|)
    ensures |s.procs| !in s.tasks
  {
  }

  lemma KeepLeasesClean(c: Config, s: State, step: CleanStep)
    requires CleanEnabled(c, s, step)
    ensures ApplyClean(c, s, step).readers == s.readers && ApplyClean(c, s, step).leases == s.leases
  {
  }

  lemma KeepLeasesStep(s: State, id: nat, step: Step)
    requires LeasesOk(s) && TasksOk(s) && id < |s.procs| && StepFits(s.procs[id], step)
    requires step.AcquireRequest? ==> s.request > 0
    ensures LeasesOk(ApplyStep(s, id, step))
  {
    hide TasksOk, EntryOk, NextTable, NextPhase;
    TaskOkAt(s, id);
  }

  lemma SameLeases(s: State, s': State)
    requires LeasesOk(s) && s'.readers == s.readers && s'.leases == s.leases
    ensures LeasesOk(s')
  {
  }

  lemma OneMoreLease(s: State, s': State, id: nat)
    requires LeasesOk(s) && id in s.readers
    requires s'.readers == s.readers[id := s.readers[id] + 1] && s'.leases == s.leases + multiset{id}
    ensures LeasesOk(s')
  {
  }

  lemma OneLeaseLess(s: State, s': State, id: nat)
    requires LeasesOk(s) && id in s.readers && id in s.leases
    requires s'.readers == s.readers[id := s.readers[id] - 1] && s'.leases == s.leases - multiset{id}
    ensures LeasesOk(s')
  {
  }

  lemma KeepLeases(c: Config, s: State, e: Event)
    requires LeasesOk(s) && TasksOk(s) && Enabled(c, s, e)
    ensures LeasesOk(Apply(c, s, e))
  {
    hide ApplyStep, ApplyClean, CleanEnabled, TasksOk, StepFits, LeasesOk;
    var s' := Apply(c, s, e);
    match e
    case Admit => SameLeases(s, s');
    case Do(id, step) => KeepLeasesStep(s, id, step);
    case Clean(step) =>
      KeepLeasesClean(c, s, step);
      SameLeases(s, s');
    case AcquireLease(id) => OneMoreLease(s, s', id);
    case DropLease(id) => OneLeaseLess(s, s', id);
  }

  lemma KeepCleanerStep(s: State, id: nat, step: Step)
    requires CleanerOk(s) && TasksOk(s)
    requires id < |s.procs| && StepFits(s.procs[id], step) && (NeedsTable(step) ==> !s.cleaner.HoldsLock())
    requires step.AcquireRequest? ==> s.request > 0
    ensures CleanerOk(ApplyStep(s, id, step))
  {
    hide IsListing, EntryOk;
    assert TaskOk(s, id);
  }

  lemma KeepCleanerLease(c: Config, s: State, e: Event)
    requires CleanerOk(s) && TasksOk(s) && Enabled(c, s, e) && (e.AcquireLease? || e.DropLease?)
    ensures CleanerOk(Apply(c, s, e))
  {
    hide IsListing, EntryOk;
    assert TaskOk(s, e.id);
  }

  lemma KeepCleanerRemove(c: Config, s: State)
    requires CleanerOk(s) && TasksOk(s) && CleanEnabled(c, s, RemoveFirst)
    ensures CleanerOk(ApplyClean(c, s, RemoveFirst))
  {
    hide IsListing, EntryOk;
    var id, doomed := s.cleaner.marked[0], s.cleaner.doomed;
    assert id in s.cleaner.Marked() && TaskOk(s, id);
    ListingGrows(s.deleted + doomed, s.removed.Keys, id);
    assert s.deleted + doomed + [id] == s.deleted + (doomed + [id]);
    assert s.removed[id := s.tasks[id]].Keys == s.removed.Keys + {id};
  }

  lemma KeepCleanerMark(c: Config, s: State, id: nat)
    requires CleanerOk(s) && LeasesOk(s) && CleanEnabled(c, s, Mark(id))
    ensures CleanerOk(ApplyClean(c, s, Mark(id)))
  {
    hide IsListing, EntryOk, Expired;
    ExpiredMeans(s.tasks, s.readers, c.retention, s.cleaner.now, id);
    MarkedUnread(s, id);
  }

  lemma MarkedUnread(s: State, id: nat)
    requires LeasesOk(s) && !(id in s.readers && s.readers[id] > 0)
    ensures id !in s.leases
  {
  }

  lemma KeepCleanerDelete(c: Config, s: State)
    requires CleanerOk(s) && CleanEnabled(c, s, DeleteFirst)
    ensures CleanerOk(ApplyClean(c, s, DeleteFirst))
  {
    hide IsListing;
    var doomed := s.cleaner.doomed;
    assert s.deleted + [doomed[0]] + doomed[1..] == s.deleted + doomed;
  }

  lemma KeepCleanerClean(c: Config, s: State, step: CleanStep)
    requires CleanerOk(s) && TasksOk(s) && LeasesOk(s) && CleanEnabled(c, s, step)
    ensures CleanerOk(ApplyClean(c, s, step))
  {
    hide CleanerOk, TasksOk, LeasesOk, ApplyClean, CleanEnabled;
    match step
    case Mark(id) => KeepCleanerMark(c, s, id);
    case RemoveFirst => KeepCleanerRemove(c, s);
    case DeleteFirst => KeepCleanerDelete(c, s);
    case _ => KeepCleanerPhase(c, s, step);
  }

  lemma KeepCleanerPhase(c: Config, s: State, step: CleanStep)
    requires CleanerOk(s) && CleanEnabled(c, s, step)
    requires step.LockTable? || step.EndScan? || step.UnlockTable? || step.EndCleanup?
    ensures CleanerOk(ApplyClean(c, s, step))
  {
    hide IsListing;
    var s' := ApplyClean(c, s, step);
    assert s'.cleaner.Doomed() == s.cleaner.Doomed();
    assert s'.cleaner.Marked() == [] || s'.cleaner.Marked() == s.cleaner.Marked();
  }

  lemma KeepCleaner(c: Config, s: State, e: Event)
    requires CleanerOk(s) && TasksOk(s) && LeasesOk(s) && Enabled(c, s, e)
    ensures CleanerOk(Apply(c, s, e))
  {
    hide IsListing, EntryOk, ApplyClean, ApplyStep, CleanEnabled, StepFits;
    match e
    case Admit =>
    case Do(id, step) => KeepCleanerStep(s, id, step);
    case AcquireLease(_) => KeepCleanerLease(c, s, e);
    case DropLease(_) => KeepCleanerLease(c, s, e);
    case Clean(step) => KeepCleanerClean(c, s, step);
  }

  lemma StepInv(c: Config, s: State, e: Event)
    requires Inv(c, s) && Enabled(c, s, e)
    ensures Inv(c, Apply(c, s, e))
  {
    hide PermitsBalance, TasksOk, OrdersOk, LeasesOk, CleanerOk, Enabled, Apply;
    KeepPermits(c, s, e);
    KeepTasks(c, s, e);
    KeepOrders(c, s, e);
    KeepLeases(c, s, e);
    KeepCleaner(c, s, e);
  }

  lemma {:induction false} RunInv(c: Config, s: State, events: seq<Event>, last: State)
    requires Inv(c, s) && Follows(c, s, events, last)
    ensures Inv(c, last)
    decreases |events|
  {
    hide Inv, Enabled, Apply;
    if events != [] {
      StepInv(c, s, events[0]);
      RunInv(c, Apply(c, s, events[0]), events[1..], last);
    }
  }
}
