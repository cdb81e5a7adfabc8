/** The VLM request scheduler with its per-task limiter, as a state machine
    whose steps are the atomic actions of callers and workers. Any interleaving
    of the steps is a run. */
module VlmScheduler {
  import opened Options
  import opened Sums

  // ------------------------------------------------------------------- state

  /** Where the caller of one request is. */
  datatype Phase =
    | AwaitLimiter   // waiting for a permit of its task
    | AwaitSlot      // holds the permit, waiting in `reserve`
    | SlotHeld       // holds a channel slot
    | Counted        // has incremented `queue_depth`, about to send
    | AwaitReply     // sent, waiting for the response
    | Returned       // got its answer and released the permit
    | Dropped        // cancelled by fail-fast

  datatype Job = Unsent | Queued | AtWorker | Answered

  datatype Call = Call(task: nat, phase: Phase, job: Job)

  datatype Worker =
    | Waiting              // wants the receiver lock
    | Receiving            // holds the lock, waiting in `recv`
    | Fetched(id: nat)     // has the job, `queue_depth` not yet decremented
    | Uncounted(id: nat)   // decremented `queue_depth`
    | Running(id: nat)     // between the two updates of `active_requests`
    | Finished(id: nat)    // about to send the response
  {
    predicate Busy() {
      Fetched? || Uncounted? || Running? || Finished?
    }
  }

  /** Worker count, queue capacity and per-task limit; each is at least one. */
  datatype Config = Config(workers: nat, capacity: nat, perTask: nat) {
    predicate Valid() {
      workers >= 1 && capacity >= 1 && perTask >= 1
    }
  }

  datatype State = State(
    calls: seq<Call>,
    failed: set<nat>,         // tasks that have seen an error
    permits: map<nat, nat>,   // free permits of each limiter in use
    slots: nat,               // free channel slots
    queue: seq<nat>,
    lock: Option<nat>,        // the worker that holds the receiver
    workers: seq<Worker>,
    queueDepth: int,
    activeRequests: int,
    sent: seq<nat>,           // history: ids in the order sent, received and answered
    received: seq<nat>,
    answered: seq<nat>)

  function Init(c: Config): State {
    State([], {}, map[], c.capacity, [], None, seq(c.workers, _ => Waiting), 0, 0, [], [], [])
  }

  function Permits(c: Config, s: State, task: nat): nat {
    if task in s.permits then s.permits[task] else c.perTask
  }

  // ------------------------------------------------------------------- steps

  datatype Event =
    | Start(task: nat)
    | AcquirePermit(id: nat) | ReserveSlot(id: nat) | IncDepth(id: nat) | Send(id: nat) | Return(id: nat)
    | Lock(w: nat) | Receive(w: nat) | DecDepth(w: nat) | IncActive(w: nat) | DecActive(w: nat) | Reply(w: nat)
    | Fail(task: nat) | Cancel(id: nat) | NextUpload(task: nat)

  predicate Live(s: State, id: nat, phase: Phase) {
    id < |s.calls| && s.calls[id].phase == phase
  }

  /** A caller whose task has failed takes no further step of its own. */
  predicate Going(s: State, id: nat, phase: Phase) {
    Live(s, id, phase) && s.calls[id].task !in s.failed
  }

  predicate Enabled(c: Config, s: State, e: Event) {
    match e
    case Start(t) => t !in s.failed
    case AcquirePermit(id) => Going(s, id, AwaitLimiter) && Permits(c, s, s.calls[id].task) > 0
    case ReserveSlot(id) => Going(s, id, AwaitSlot) && s.slots > 0
    case IncDepth(id) => Going(s, id, SlotHeld)
    case Send(id) => Live(s, id, Counted)
    case Return(id) => Going(s, id, AwaitReply) && s.calls[id].job == Answered
    case Lock(w) => w < |s.workers| && s.workers[w].Waiting? && s.lock == None
    case Receive(w) => w < |s.workers| && s.workers[w].Receiving? && s.queue != []
    case DecDepth(w) => w < |s.workers| && s.workers[w].Fetched?
    case IncActive(w) => w < |s.workers| && s.workers[w].Uncounted?
    case DecActive(w) => w < |s.workers| && s.workers[w].Running?
    case Reply(w) => w < |s.workers| && s.workers[w].Finished? && s.workers[w].id < |s.calls|
    case Fail(t) => t !in s.failed
    case Cancel(id) =>
      && id < |s.calls| && s.calls[id].task in s.failed
      && s.calls[id].phase in {AwaitLimiter, AwaitSlot, SlotHeld, AwaitReply}
    case NextUpload(t) =>
      t !in s.failed && forall id :: 0 <= id < |s.calls| && s.calls[id].task == t ==> s.calls[id].phase == Returned
  }

  function SetPhase(s: State, id: nat, phase: Phase): State
    requires id < |s.calls|
  {
    s.(calls := s.calls[id := s.calls[id].(phase := phase)])
  }

  function SetJob(s: State, id: nat, job: Job): State {
    if id < |s.calls| then s.(calls := s.calls[id := s.calls[id].(job := job)]) else s
  }

  function SetWorker(s: State, w: nat, worker: Worker): State
    requires w < |s.workers|
  {
    s.(workers := s.workers[w := worker])
  }

  function AddPermit(c: Config, s: State, task: nat): State {
    s.(permits := s.permits[task := Permits(c, s, task) + 1])
  }

  function Apply(c: Config, s: State, e: Event): State
    requires Enabled(c, s, e)
  {
    match e
    case Start(t) => s.(calls := s.calls + [Call(t, AwaitLimiter, Unsent)])
    case AcquirePermit(id) =>
      var t := s.calls[id].task;
      SetPhase(s, id, AwaitSlot).(permits := s.permits[t := Permits(c, s, t) - 1])
    case ReserveSlot(id) => SetPhase(s, id, SlotHeld).(slots := s.slots - 1)
    case IncDepth(id) => SetPhase(s, id, Counted).(queueDepth := s.queueDepth + 1)
    case Send(id) =>
      s.(calls := s.calls[id := s.calls[id].(phase := AwaitReply, job := Queued)],
         queue := s.queue + [id], sent := s.sent + [id])
    case Return(id) => AddPermit(c, SetPhase(s, id, Returned), s.calls[id].task)
    case Lock(w) => SetWorker(s, w, Receiving).(lock := Some(w))
    case Receive(w) =>
      SetJob(SetWorker(s, w, Fetched(s.queue[0])), s.queue[0], AtWorker).(
        queue := s.queue[1..], slots := s.slots + 1, lock := None, received := s.received + [s.queue[0]])
    case DecDepth(w) => SetWorker(s, w, Uncounted(s.workers[w].id)).(queueDepth := s.queueDepth - 1)
    case IncActive(w) => SetWorker(s, w, Running(s.workers[w].id)).(activeRequests := s.activeRequests + 1)
    case DecActive(w) => SetWorker(s, w, Finished(s.workers[w].id)).(activeRequests := s.activeRequests - 1)
    case Reply(w) =>
      SetJob(SetWorker(s, w, Waiting), s.workers[w].id, Answered).(answered := s.answered + [s.workers[w].id])
    case Fail(t) => s.(failed := s.failed + {t})
    case Cancel(id) =>
      var phase, t := s.calls[id].phase, s.calls[id].task;
      var d := SetPhase(s, id, Dropped).(slots := if phase == SlotHeld then s.slots + 1 else s.slots);
      if phase == AwaitLimiter then d else AddPermit(c, d, t)
    case NextUpload(t) => s.(permits := s.permits[t := c.perTask])
  }

  /** The events, applied one after the other, lead from `s` to `last`. */
  ghost predicate Follows(c: Config, s: State, events: seq<Event>, last: State)
    decreases |events|
  {
    if events == [] then last == s
    else Enabled(c, s, events[0]) && Follows(c, Apply(c, s, events[0]), events[1..], last)
  }

  /** A run from the initial state. */
  ghost predicate Reaches(c: Config, events: seq<Event>, s: State) {
    Follows(c, Init(c), events, s)
  }

  // -------------------------------------------------------------- invariants

  function UsesSlot(c: Call): nat {
    if c.phase == SlotHeld || c.phase == Counted then 1 else 0
  }

  function IsCounted(c: Call): nat {
    if c.phase == Counted then 1 else 0
  }

  function IsFetched(w: Worker): nat {
    if w.Fetched? then 1 else 0
  }

  function IsRunning(w: Worker): nat {
    if w.Running? then 1 else 0
  }

  function HoldsPermit(task: nat): Call -> nat {
    (c: Call) => if c.task == task && c.phase in {AwaitSlot, SlotHeld, Counted, AwaitReply} then 1 else 0
  }

  /** A request of the task that is reserved, queued or at a worker, whether or
      not its caller is still there. */
  function Loads(task: nat): Call -> nat {
    (c: Call) => if c.task == task && (c.phase == SlotHeld || c.phase == Counted || c.job == Queued || c.job == AtWorker)
                 then 1 else 0
  }

  ghost predicate SlotsBalance(c: Config, s: State) {
    s.slots + Sum(s.calls, UsesSlot) + |s.queue| == c.capacity
  }

  ghost predicate DepthExact(s: State) {
    s.queueDepth == Sum(s.calls, IsCounted) + |s.queue| + Sum(s.workers, IsFetched)
  }

  ghost predicate ActiveExact(c: Config, s: State) {
    |s.workers| == c.workers && s.activeRequests == Sum(s.workers, IsRunning)
  }

  ghost predicate PermitsBalance(c: Config, s: State) {
    forall t: nat :: Permits(c, s, t) + Sum(s.calls, HoldsPermit(t)) == c.perTask
  }

  ghost predicate LoadBounded(c: Config, s: State) {
    forall t: nat :: Sum(s.calls, Loads(t)) <= c.perTask
  }

  ghost predicate CallOk(s: State, call: Call) {
    && (call.phase in {AwaitLimiter, AwaitSlot, SlotHeld, Counted} ==> call.job == Unsent)
    && (call.phase == AwaitReply ==> call.job != Unsent)
    && (call.phase == Returned ==> call.job == Answered)
    && (call.phase == Dropped ==> call.task in s.failed)
  }

  ghost predicate CallsOk(s: State) {
    forall id :: 0 <= id < |s.calls| ==> CallOk(s, s.calls[id])
  }

  ghost predicate NoDuplicates(ids: seq<nat>) {
    forall i, j :: 0 <= i < j < |ids| ==> ids[i] != ids[j]
  }

  /** The queue holds exactly the queued jobs, in the order sent; sent, received
      and answered are each listed once. */
  ghost predicate JobsOk(s: State) {
    && s.sent == s.received + s.queue
    && NoDuplicates(s.sent) && NoDuplicates(s.answered)
    && (forall id :: id in s.sent ==> id < |s.calls|)
    && (forall id :: id in s.answered ==> id < |s.calls|)
    && (forall id :: 0 <= id < |s.calls| ==> (id in s.sent <==> s.calls[id].job != Unsent))
    && (forall id :: 0 <= id < |s.calls| ==> (id in s.queue <==> s.calls[id].job == Queued))
    && (forall id :: 0 <= id < |s.calls| ==> (id in s.answered <==> s.calls[id].job == Answered))
  }

  /** Each job at a worker is at exactly one worker. */
  ghost predicate WorkersOk(s: State) {
    && (forall w :: 0 <= w < |s.workers| && s.workers[w].Busy() ==>
          s.workers[w].id < |s.calls| && s.calls[s.workers[w].id].job == AtWorker)
    && (forall v, w :: 0 <= v < w < |s.workers| && s.workers[v].Busy() && s.workers[w].Busy() ==>
          s.workers[v].id != s.workers[w].id)
    && (forall id :: 0 <= id < |s.calls| && s.calls[id].job == AtWorker ==>
          exists w :: 0 <= w < |s.workers| && s.workers[w].Busy() && s.workers[w].id == id)
  }

  ghost predicate LockOk(s: State) {
    && (s.lock.Some? ==> s.lock.value < |s.workers|)
    && forall w :: 0 <= w < |s.workers| ==> (s.workers[w].Receiving? <==> s.lock == Some(w))
  }

  ghost predicate Inv(c: Config, s: State) {
    && SlotsBalance(c, s) && DepthExact(s) && ActiveExact(c, s) && PermitsBalance(c, s) && LoadBounded(c, s)
    && CallsOk(s) && JobsOk(s) && WorkersOk(s) && LockOk(s)
  }

  lemma InitInv(c: Config)
    requires c.Valid()
    ensures Inv(c, Init(c))
  {
    SumZero(Init(c).workers, IsFetched);
    SumZero(Init(c).workers, IsRunning);
  }

  /** How one step changes the calls: at most one call changes or is added. */
  lemma CallsChange(c: Config, s: State, e: Event, f: Call -> nat)
    requires Enabled(c, s, e)
    ensures var s' := Apply(c, s, e);
            match e
            case Start(t) => Sum(s'.calls, f) == Sum(s.calls, f) + f(Call(t, AwaitLimiter, Unsent))
            case AcquirePermit(id) => Sum(s'.calls, f) + f(s.calls[id]) == Sum(s.calls, f) + f(s'.calls[id])
            case ReserveSlot(id) => Sum(s'.calls, f) + f(s.calls[id]) == Sum(s.calls, f) + f(s'.calls[id])
            case IncDepth(id) => Sum(s'.calls, f) + f(s.calls[id]) == Sum(s.calls, f) + f(s'.calls[id])
            case Send(id) => Sum(s'.calls, f) + f(s.calls[id]) == Sum(s.calls, f) + f(s'.calls[id])
            case Return(id) => Sum(s'.calls, f) + f(s.calls[id]) == Sum(s.calls, f) + f(s'.calls[id])
            case Cancel(id) => Sum(s'.calls, f) + f(s.calls[id]) == Sum(s.calls, f) + f(s'.calls[id])
            case Receive(w) =>
              var id := s.queue[0];
              id < |s.calls| ==> Sum(s'.calls, f) + f(s.calls[id]) == Sum(s.calls, f) + f(s'.calls[id])
            case Reply(w) =>
              var id := s.workers[w].id;
              Sum(s'.calls, f) + f(s.calls[id]) == Sum(s.calls, f) + f(s'.calls[id])
            case _ => s'.calls == s.calls
  {
    var s' := Apply(c, s, e);
    match e
    case Start(t) => SumSnoc(s.calls, Call(t, AwaitLimiter, Unsent), f);
    case AcquirePermit(id) => SumUpdate(s.calls, id, s'.calls[id], f);
    case ReserveSlot(id) => SumUpdate(s.calls, id, s'.calls[id], f);
    case IncDepth(id) => SumUpdate(s.calls, id, s'.calls[id], f);
    case Send(id) => SumUpdate(s.calls, id, s'.calls[id], f);
    case Return(id) => SumUpdate(s.calls, id, s'.calls[id], f);
    case Cancel(id) => SumUpdate(s.calls, id, s'.calls[id], f);
    case Receive(w) =>
      if s.queue[0] < |s.calls| {
        SumUpdate(s.calls, s.queue[0], s'.calls[s.queue[0]], f);
      }
    case Reply(w) => SumUpdate(s.calls, s.workers[w].id, s'.calls[s.workers[w].id], f);
    case _ =>
  }

  lemma WorkersChange(c: Config, s: State, e: Event, f: Worker -> nat)
    requires Enabled(c, s, e)
    ensures var s' := Apply(c, s, e);
            match e
            case Lock(w) => Sum(s'.workers, f) + f(s.workers[w]) == Sum(s.workers, f) + f(s'.workers[w])
            case Receive(w) => Sum(s'.workers, f) + f(s.workers[w]) == Sum(s.workers, f) + f(s'.workers[w])
            case DecDepth(w) => Sum(s'.workers, f) + f(s.workers[w]) == Sum(s.workers, f) + f(s'.workers[w])
            case IncActive(w) => Sum(s'.workers, f) + f(s.workers[w]) == Sum(s.workers, f) + f(s'.workers[w])
            case DecActive(w) => Sum(s'.workers, f) + f(s.workers[w]) == Sum(s.workers, f) + f(s'.workers[w])
            case Reply(w) => Sum(s'.workers, f) + f(s.workers[w]) == Sum(s.workers, f) + f(s'.workers[w])
            case _ => s'.workers == s.workers
  {
    var s' := Apply(c, s, e);
    match e
    case Lock(w) => SumUpdate(s.workers, w, s'.workers[w], f);
    case Receive(w) => SumUpdate(s.workers, w, s'.workers[w], f);
    case DecDepth(w) => SumUpdate(s.workers, w, s'.workers[w], f);
    case IncActive(w) => SumUpdate(s.workers, w, s'.workers[w], f);
    case DecActive(w) => SumUpdate(s.workers, w, s'.workers[w], f);
    case Reply(w) => SumUpdate(s.workers, w, s'.workers[w], f);
    case _ =>
  }

  /** Steps that a caller takes with its own request. */
  predicate CallerStep(e: Event) {
    e.AcquirePermit? || e.ReserveSlot? || e.IncDepth? || e.Send? || e.Return? || e.Cancel?
  }

  lemma KeepSlotsCaller(c: Config, s: State, e: Event)
    requires SlotsBalance(c, s) && CallsOk(s) && Enabled(c, s, e) && CallerStep(e)
    ensures SlotsBalance(c, Apply(c, s, e))
  {
    CallsChange(c, s, e, UsesSlot);
  }

  lemma KeepSlotsOther(c: Config, s: State, e: Event)
    requires SlotsBalance(c, s) && JobsOk(s) && Enabled(c, s, e) && !CallerStep(e)
    ensures SlotsBalance(c, Apply(c, s, e))
  {
    hide NoDuplicates;
    CallsChange(c, s, e, UsesSlot);
    if e.Receive? {
      assert s.queue[0] in s.queue && s.queue[0] in s.sent;
    }
  }

  lemma KeepSlots(c: Config, s: State, e: Event)
    requires Inv(c, s) && Enabled(c, s, e)
    ensures SlotsBalance(c, Apply(c, s, e))
  {
    hide PermitsBalance, LoadBounded, SlotsBalance, ActiveExact, LockOk, CallsOk, JobsOk, WorkersOk, DepthExact,
         Enabled, Apply;
    if CallerStep(e) {
      KeepSlotsCaller(c, s, e);
    } else {
      KeepSlotsOther(c, s, e);
    }
  }

  lemma KeepDepthCaller(c: Config, s: State, e: Event)
    requires DepthExact(s) && CallsOk(s) && Enabled(c, s, e) && CallerStep(e)
    ensures DepthExact(Apply(c, s, e))
  {
    hide CallsOk;
    CallsChange(c, s, e, IsCounted);
    WorkersChange(c, s, e, IsFetched);
  }

  lemma KeepDepthOther(c: Config, s: State, e: Event)
    requires DepthExact(s) && JobsOk(s) && Enabled(c, s, e) && !CallerStep(e)
    ensures DepthExact(Apply(c, s, e))
  {
    hide NoDuplicates;
    CallsChange(c, s, e, IsCounted);
    WorkersChange(c, s, e, IsFetched);
    if e.Receive? {
      assert s.queue[0] in s.queue && s.queue[0] in s.sent;
    }
  }

  lemma KeepDepth(c: Config, s: State, e: Event)
    requires Inv(c, s) && Enabled(c, s, e)
    ensures DepthExact(Apply(c, s, e))
  {
    hide PermitsBalance, LoadBounded, SlotsBalance, ActiveExact, LockOk, CallsOk, JobsOk, WorkersOk, DepthExact,
         Enabled, Apply;
    if CallerStep(e) {
      KeepDepthCaller(c, s, e);
    } else {
      KeepDepthOther(c, s, e);
    }
  }

  lemma KeepActive(c: Config, s: State, e: Event)
    requires Inv(c, s) && Enabled(c, s, e)
    ensures ActiveExact(c, Apply(c, s, e))
  {
    hide PermitsBalance, LoadBounded, SlotsBalance, DepthExact, LockOk, CallsOk, JobsOk, WorkersOk;
    WorkersChange(c, s, e, IsRunning);
  }

  lemma KeepPermitsCaller(c: Config, s: State, e: Event, t: nat)
    requires Enabled(c, s, e) && CallerStep(e)
    requires Permits(c, s, t) + Sum(s.calls, HoldsPermit(t)) == c.perTask
    ensures Permits(c, Apply(c, s, e), t) + Sum(Apply(c, s, e).calls, HoldsPermit(t)) == c.perTask
  {
    CallsChange(c, s, e, HoldsPermit(t));
  }

  lemma KeepPermitsOf(c: Config, s: State, e: Event, t: nat)
    requires Enabled(c, s, e) && JobsOk(s)
    requires Permits(c, s, t) + Sum(s.calls, HoldsPermit(t)) == c.perTask
    ensures Permits(c, Apply(c, s, e), t) + Sum(Apply(c, s, e).calls, HoldsPermit(t)) == c.perTask
  {
    hide Apply, Enabled, Permits, HoldsPermit, JobsOk;
    if CallerStep(e) {
      KeepPermitsCaller(c, s, e, t);
    } else {
      KeepPermitsOther(c, s, e, t);
    }
  }

  lemma KeepPermitsOther(c: Config, s: State, e: Event, t: nat)
    requires Enabled(c, s, e) && JobsOk(s) && !CallerStep(e)
    requires Permits(c, s, t) + Sum(s.calls, HoldsPermit(t)) == c.perTask
    ensures Permits(c, Apply(c, s, e), t) + Sum(Apply(c, s, e).calls, HoldsPermit(t)) == c.perTask
  {
    hide NoDuplicates;
    CallsChange(c, s, e, HoldsPermit(t));
    if e.NextUpload? && e.task == t {
      SumZero(s.calls, HoldsPermit(t));
    }
  }

  lemma KeepPermits(c: Config, s: State, e: Event)
    requires Inv(c, s) && Enabled(c, s, e)
    ensures PermitsBalance(c, Apply(c, s, e))
  {
    hide Apply, Enabled, Permits, HoldsPermit, JobsOk, CallsOk, WorkersOk, SlotsBalance, DepthExact, ActiveExact, LockOk;
    forall t: nat
      ensures Permits(c, Apply(c, s, e), t) + Sum(Apply(c, s, e).calls, HoldsPermit(t)) == c.perTask
    {
      KeepPermitsOf(c, s, e, t);
    }
  }

  lemma KeepCalls(c: Config, s: State, e: Event)
    requires Inv(c, s) && Enabled(c, s, e)
    ensures CallsOk(Apply(c, s, e))
  {
    hide LoadBounded, SlotsBalance, DepthExact, ActiveExact, LockOk, PermitsBalance;
  }

  lemma QueueHead(s: State)
    requires JobsOk(s) && s.queue != []
    ensures s.queue[0] < |s.calls| && s.calls[s.queue[0]].job == Queued
    ensures s.queue[0] !in s.queue[1..]
  {
    var q := s.queue;
    assert q[0] in s.queue && q[0] in s.sent;
    assert s.sent[|s.received|] == q[0];
    assert forall i :: 1 <= i < |q| ==> s.sent[|s.received| + i] == q[i];
  }

  lemma CountedUnsent(s: State, id: nat)
    requires CallsOk(s) && id < |s.calls| && s.calls[id].phase == Counted
    ensures s.calls[id].job == Unsent
  {
    assert CallOk(s, s.calls[id]);
  }

  /** Most steps leave every job where it is. */
  lemma QuietJobs(c: Config, s: State, e: Event)
    requires Enabled(c, s, e) && !e.Start? && !e.Send? && !e.Receive? && !e.Reply?
    ensures var s' := Apply(c, s, e);
            && |s'.calls| == |s.calls| && s'.queue == s.queue && s'.sent == s.sent
            && s'.received == s.received && s'.answered == s.answered
            && forall id :: 0 <= id < |s.calls| ==> s'.calls[id].job == s.calls[id].job
  {
  }

  lemma KeepJobs(c: Config, s: State, e: Event)
    requires Inv(c, s) && Enabled(c, s, e)
    ensures JobsOk(Apply(c, s, e))
  {
    hide LoadBounded, SlotsBalance, DepthExact, ActiveExact, LockOk, PermitsBalance, CallsOk;
    if e.Start? {
      KeepJobsStart(c, s, e);
    } else if e.Send? {
      CountedUnsent(s, e.id);
      KeepJobsSend(c, s, e);
    } else if e.Receive? {
      KeepJobsReceive(c, s, e);
    } else if e.Reply? {
      KeepJobsReply(c, s, e);
    } else {
      hide Apply;
      QuietJobs(c, s, e);
    }
  }

  lemma KeepJobsStart(c: Config, s: State, e: Event)
    requires JobsOk(s) && Enabled(c, s, e) && e.Start?
    ensures JobsOk(Apply(c, s, e))
  {
    assert forall id :: id in s.queue ==> id in s.sent;
    assert |s.calls| !in s.sent && |s.calls| !in s.answered;
  }

  lemma KeepJobsSend(c: Config, s: State, e: Event)
    requires JobsOk(s) && Enabled(c, s, e) && e.Send? && s.calls[e.id].job == Unsent
    ensures JobsOk(Apply(c, s, e))
  {
    var s' := Apply(c, s, e);
    assert s'.sent == s'.received + s'.queue;
  }

  lemma KeepJobsReceive(c: Config, s: State, e: Event)
    requires JobsOk(s) && Enabled(c, s, e) && e.Receive?
    ensures JobsOk(Apply(c, s, e))
  {
    var s' := Apply(c, s, e);
    QueueHead(s);
    assert s.queue == [s.queue[0]] + s.queue[1..];
    assert s'.sent == s'.received + s'.queue;
  }

  lemma KeepJobsReply(c: Config, s: State, e: Event)
    requires JobsOk(s) && WorkersOk(s) && Enabled(c, s, e) && e.Reply?
    ensures JobsOk(Apply(c, s, e))
  {
    assert s.calls[s.workers[e.w].id].job == AtWorker;
  }

  /** Only receiving and replying change which jobs the workers have. */
  lemma QuietWorkers(c: Config, s: State, e: Event)
    requires Enabled(c, s, e) && !e.Receive? && !e.Reply?
    ensures var s' := Apply(c, s, e);
            && |s'.workers| == |s.workers|
            && (forall w :: 0 <= w < |s.workers| ==> s'.workers[w].Busy() == s.workers[w].Busy())
            && (forall w :: 0 <= w < |s.workers| && s.workers[w].Busy() && s'.workers[w].Busy() ==>
                  s'.workers[w].id == s.workers[w].id)
  {
  }

  lemma SameAssignments(s: State, s': State)
    requires WorkersOk(s) && |s.calls| <= |s'.calls| && |s.workers| == |s'.workers|
    requires forall w :: 0 <= w < |s.workers| ==> s'.workers[w].Busy() == s.workers[w].Busy()
    requires forall w :: 0 <= w < |s.workers| && s.workers[w].Busy() && s'.workers[w].Busy() ==>
               s'.workers[w].id == s.workers[w].id
    requires forall id :: 0 <= id < |s.calls| ==> (s'.calls[id].job == AtWorker <==> s.calls[id].job == AtWorker)
    requires forall id :: |s.calls| <= id < |s'.calls| ==> s'.calls[id].job != AtWorker
    ensures WorkersOk(s')
  {
    forall id | 0 <= id < |s'.calls| && s'.calls[id].job == AtWorker
      ensures exists w :: 0 <= w < |s'.workers| && s'.workers[w].Busy() && s'.workers[w].id == id
    {
      var w :| 0 <= w < |s.workers| && s.workers[w].Busy() && s.workers[w].id == id;
      assert s'.workers[w].Busy() && s'.workers[w].id == id;
    }
  }

  lemma KeepWorkers(c: Config, s: State, e: Event)
    requires Inv(c, s) && Enabled(c, s, e)
    ensures WorkersOk(Apply(c, s, e))
  {
    hide LoadBounded, SlotsBalance, DepthExact, ActiveExact, LockOk, PermitsBalance, CallsOk, JobsOk, WorkersOk;
    if e.Receive? {
      QueueHead(s);
      KeepWorkersReceive(c, s, e);
    } else if e.Reply? {
      KeepWorkersReply(c, s, e);
    } else {
      QuietWorkers(c, s, e);
      if e.Send? {
        CountedUnsent(s, e.id);
      } else if !e.Start? {
        QuietJobs(c, s, e);
        hide Apply;
      }
      SameAssignments(s, Apply(c, s, e));
    }
  }

  lemma KeepWorkersReceive(c: Config, s: State, e: Event)
    requires WorkersOk(s) && Enabled(c, s, e) && e.Receive?
    requires s.queue[0] < |s.calls| && s.calls[s.queue[0]].job == Queued
    ensures WorkersOk(Apply(c, s, e))
  {
    var s' := Apply(c, s, e);
    forall id | 0 <= id < |s'.calls| && s'.calls[id].job == AtWorker
      ensures exists w :: 0 <= w < |s'.workers| && s'.workers[w].Busy() && s'.workers[w].id == id
    {
      if id == s.queue[0] {
        assert s'.workers[e.w].Busy() && s'.workers[e.w].id == id;
      } else {
        var w :| 0 <= w < |s.workers| && s.workers[w].Busy() && s.workers[w].id == id;
        assert s'.workers[w].Busy() && s'.workers[w].id == id;
      }
    }
  }

  lemma KeepWorkersReply(c: Config, s: State, e: Event)
    requires WorkersOk(s) && Enabled(c, s, e) && e.Reply?
    ensures WorkersOk(Apply(c, s, e))
  {
    var s' := Apply(c, s, e);
    forall id | 0 <= id < |s'.calls| && s'.calls[id].job == AtWorker
      ensures exists w :: 0 <= w < |s'.workers| && s'.workers[w].Busy() && s'.workers[w].id == id
    {
      var w :| 0 <= w < |s.workers| && s.workers[w].Busy() && s.workers[w].id == id;
      assert s'.workers[w].Busy() && s'.workers[w].id == id;
    }
  }

  lemma KeepLock(c: Config, s: State, e: Event)
    requires Inv(c, s) && Enabled(c, s, e)
    ensures LockOk(Apply(c, s, e))
  {
    hide LoadBounded, SlotsBalance, DepthExact, ActiveExact, PermitsBalance, CallsOk;
  }

  /** While a task has not failed, every request that loads the scheduler has a
      caller holding a permit; after it has failed, none is added. */
  lemma KeepLoadOf(c: Config, s: State, e: Event, t: nat)
    requires Enabled(c, s, e) && JobsOk(s) && CallsOk(s) && WorkersOk(s)
    requires Sum(s.calls, Loads(t)) <= c.perTask && CallsOk(Apply(c, s, e))
    requires Permits(c, Apply(c, s, e), t) + Sum(Apply(c, s, e).calls, HoldsPermit(t)) == c.perTask
    ensures Sum(Apply(c, s, e).calls, Loads(t)) <= c.perTask
  {
    if t !in Apply(c, s, e).failed {
      LoadHasPermit(c, Apply(c, s, e), t);
    } else {
      LoadShrinks(c, s, e, t);
    }
  }

  lemma LoadHasPermit(c: Config, s: State, t: nat)
    requires CallsOk(s) && t !in s.failed
    ensures Sum(s.calls, Loads(t)) <= Sum(s.calls, HoldsPermit(t))
  {
    forall i | 0 <= i < |s.calls|
      ensures Loads(t)(s.calls[i]) <= HoldsPermit(t)(s.calls[i])
    {
      assert CallOk(s, s.calls[i]);
    }
    SumLe(s.calls, Loads(t), HoldsPermit(t));
  }

  lemma LoadShrinks(c: Config, s: State, e: Event, t: nat)
    requires Enabled(c, s, e) && JobsOk(s) && CallsOk(s) && WorkersOk(s)
    requires t in Apply(c, s, e).failed
    ensures Sum(Apply(c, s, e).calls, Loads(t)) <= Sum(s.calls, Loads(t))
  {
    hide NoDuplicates;
    CallsChange(c, s, e, Loads(t));
    if e.Receive? {
      assert s.queue[0] in s.queue && s.queue[0] in s.sent;
    }
  }

  lemma KeepLoad(c: Config, s: State, e: Event)
    requires Inv(c, s) && Enabled(c, s, e)
    ensures LoadBounded(c, Apply(c, s, e))
  {
    hide Apply, Enabled, Permits, Loads, HoldsPermit, JobsOk, CallsOk, WorkersOk, SlotsBalance, DepthExact,
         ActiveExact, LockOk;
    KeepCalls(c, s, e);
    KeepPermits(c, s, e);
    forall t: nat
      ensures Sum(Apply(c, s, e).calls, Loads(t)) <= c.perTask
    {
      KeepLoadOf(c, s, e, t);
    }
  }

  lemma StepInv(c: Config, s: State, e: Event)
    requires Inv(c, s) && Enabled(c, s, e)
    ensures Inv(c, Apply(c, s, e))
  {
    KeepSlots(c, s, e);
    KeepDepth(c, s, e);
    KeepActive(c, s, e);
    KeepPermits(c, s, e);
    KeepCalls(c, s, e);
    KeepJobs(c, s, e);
    KeepWorkers(c, s, e);
    KeepLock(c, s, e);
    KeepLoad(c, s, e);
    hide *;
    InvParts(c, Apply(c, s, e));
  }

  lemma InvParts(c: Config, s: State)
    requires SlotsBalance(c, s) && DepthExact(s) && ActiveExact(c, s) && PermitsBalance(c, s) && LoadBounded(c, s)
    requires CallsOk(s) && JobsOk(s) && WorkersOk(s) && LockOk(s)
    ensures Inv(c, s)
  {
  }

  lemma {:induction false} FollowInv(c: Config, s: State, events: seq<Event>, last: State)
    requires Inv(c, s) && Follows(c, s, events, last)
    ensures Inv(c, last)
    decreases |events|
  {
    hide Inv, Enabled, Apply;
    if events != [] {
      StepInv(c, s, events[0]);
      FollowInv(c, Apply(c, s, events[0]), events[1..], last);
    }
  }

  lemma {:induction false} RunInv(c: Config, events: seq<Event>, s: State)
    requires c.Valid() && Reaches(c, events, s)
    ensures Inv(c, s)
  {
    hide Inv, Follows, Init;
    InitInv(c);
    FollowInv(c, Init(c), events, s);
  }

  // ---------------------------------------------------- what every run keeps

  /** The two counters that `/health` reports: exact, never negative, bounded. */
  lemma {:induction false} Counters(c: Config, events: seq<Event>, s: State)
    requires c.Valid() && Reaches(c, events, s)
    ensures s.queueDepth == Sum(s.calls, IsCounted) + |s.queue| + Sum(s.workers, IsFetched)
    ensures s.queueDepth >= 0 && 0 <= s.activeRequests <= c.workers
    ensures s.queueDepth + s.activeRequests <= c.capacity + c.workers
  {
    RunInv(c, events, s);
    hide PermitsBalance, Follows, LoadBounded, CallsOk, JobsOk, WorkersOk, LockOk;
    SumLe(s.calls, IsCounted, UsesSlot);
    SumTwo(s.workers, IsFetched, IsRunning);
  }

  lemma {:induction false} LoadWithin(c: Config, events: seq<Event>, s: State, task: nat)
    requires c.Valid() && Reaches(c, events, s)
    ensures Sum(s.calls, Loads(task)) <= c.perTask
  {
    RunInv(c, events, s);
    hide PermitsBalance, Follows, CallsOk, JobsOk, WorkersOk, LockOk, SlotsBalance, DepthExact, ActiveExact;
  }

  /** Jobs are received in the order sent, each by one worker and once, and
      answered at most once; a received job not yet answered is at a worker. */
  lemma {:induction false} JobHistory(c: Config, events: seq<Event>, s: State)
    requires c.Valid() && Reaches(c, events, s)
    ensures s.received <= s.sent && NoDuplicates(s.sent) && NoDuplicates(s.received) && NoDuplicates(s.answered)
    ensures forall id :: id in s.answered ==> id in s.received
    ensures forall id :: id in s.received && id !in s.answered ==>
              exists w :: 0 <= w < |s.workers| && s.workers[w].Busy() && s.workers[w].id == id
    ensures forall v, w :: 0 <= v < w < |s.workers| && s.workers[v].Busy() && s.workers[w].Busy() ==>
              s.workers[v].id != s.workers[w].id
  {
    RunInv(c, events, s);
    hide PermitsBalance, Follows, CallsOk, LoadBounded, LockOk, SlotsBalance, DepthExact, ActiveExact;
    assert forall i :: 0 <= i < |s.received| ==> s.received[i] == s.sent[i];
    forall id | id in s.received
      ensures id in s.sent && id !in s.queue
    {
      var i :| 0 <= i < |s.received| && s.received[i] == id;
      assert s.sent[i] == id;
      assert forall j :: 0 <= j < |s.queue| ==> s.sent[|s.received| + j] == s.queue[j];
    }
    assert forall id :: id in s.sent && id !in s.received ==> id in s.queue;
  }

  /** A task that has failed loads the scheduler with nothing new: from `s` to
      `later` it gets no further request, none starts to load, and none is sent
      that was not about to be. */
  ghost predicate IssuesNothing(s: State, later: State, task: nat) {
    && task in later.failed
    && (forall id :: 0 <= id < |later.calls| && later.calls[id].task == task ==>
          id < |s.calls| && s.calls[id].task == task
          && Loads(task)(later.calls[id]) <= Loads(task)(s.calls[id])
          && (later.calls[id].phase == Counted ==> s.calls[id].phase == Counted))
    && (forall id :: id in later.sent && id < |later.calls| && later.calls[id].task == task ==>
          id in s.sent || (id < |s.calls| && s.calls[id].phase == Counted))
  }

  lemma CallerIssuesNothing(c: Config, s: State, e: Event, task: nat)
    requires Enabled(c, s, e) && CallerStep(e) && task in s.failed
    requires forall id :: id in s.sent ==> id < |s.calls|
    ensures IssuesNothing(s, Apply(c, s, e), task)
  {
  }

  lemma OtherIssuesNothing(c: Config, s: State, e: Event, task: nat)
    requires JobsOk(s) && WorkersOk(s) && Enabled(c, s, e) && !CallerStep(e) && task in s.failed
    ensures IssuesNothing(s, Apply(c, s, e), task)
  {
    hide NoDuplicates;
    if e.Receive? {
      assert s.queue[0] in s.queue && s.queue[0] in s.sent;
    }
  }

  lemma StepIssuesNothing(c: Config, s: State, e: Event, task: nat)
    requires JobsOk(s) && WorkersOk(s) && Enabled(c, s, e) && task in s.failed
    ensures IssuesNothing(s, Apply(c, s, e), task)
  {
    hide Enabled, Apply, IssuesNothing, NoDuplicates, WorkersOk;
    if CallerStep(e) {
      CallerIssuesNothing(c, s, e, task);
    } else {
      OtherIssuesNothing(c, s, e, task);
    }
  }

  lemma SameIssuesNothing(s: State, task: nat)
    requires task in s.failed
    ensures IssuesNothing(s, s, task)
  {
  }

  lemma IssuesNothingJoin(a: State, b: State, last: State, task: nat)
    requires IssuesNothing(a, b, task) && IssuesNothing(b, last, task)
    requires forall id :: id in b.sent ==> id < |b.calls|
    ensures IssuesNothing(a, last, task)
  {
    hide Loads;
  }

  /** A failed task issues no request, on any run. */
  lemma {:induction false} FailedIssuesNothing(c: Config, s: State, events: seq<Event>, last: State, task: nat)
    requires Inv(c, s) && Follows(c, s, events, last) && task in s.failed
    ensures IssuesNothing(s, last, task)
    decreases |events|
  {
    hide Inv, Enabled, Apply, IssuesNothing;
    if events == [] {
      SameIssuesNothing(s, task);
    } else {
      var next := Apply(c, s, events[0]);
      OfInv(c, s);
      StepIssuesNothing(c, s, events[0], task);
      StaysFailed(s, next, task);
      StepInv(c, s, events[0]);
      OfInv(c, next);
      FailedIssuesNothing(c, next, events[1..], last, task);
      SentAreCalls(next);
      IssuesNothingJoin(s, next, last, task);
    }
  }

  lemma OfInv(c: Config, s: State)
    requires Inv(c, s)
    ensures JobsOk(s) && WorkersOk(s)
  {
  }

  lemma SentAreCalls(s: State)
    requires JobsOk(s)
    ensures forall id :: id in s.sent ==> id < |s.calls|
  {
  }

  lemma StaysFailed(s: State, later: State, task: nat)
    requires IssuesNothing(s, later, task)
    ensures task in later.failed
  {
  }

  // ---------------------------------------------------------------- progress

  /** Steps that finish existing work: everything but new calls, errors and uploads. */
  predicate Internal(e: Event) {
    !e.Start? && !e.Fail? && !e.NextUpload?
  }

  predicate Done(call: Call) {
    call.phase == Returned || call.phase == Dropped
  }

  /** Nothing is outstanding. */
  predicate Quiet(s: State) {
    && (forall id :: 0 <= id < |s.calls| ==> Done(s.calls[id]))
    && s.queue == []
    && forall w :: 0 <= w < |s.workers| ==> !s.workers[w].Busy()
  }

  lemma WorkerMoves(c: Config, s: State, w: nat) returns (e: Event)
    requires Inv(c, s) && w < |s.workers| && s.workers[w].Busy()
    ensures Internal(e) && Enabled(c, s, e)
  {
    hide PermitsBalance, CallsOk, LoadBounded, SlotsBalance, DepthExact, ActiveExact, JobsOk;
    match s.workers[w]
    case Fetched(_) => e := DecDepth(w);
    case Uncounted(_) => e := IncActive(w);
    case Running(_) => e := DecActive(w);
    case Finished(_) => e := Reply(w);
  }

  lemma QueueMoves(c: Config, s: State) returns (e: Event)
    requires c.Valid() && Inv(c, s) && s.queue != []
    ensures Internal(e) && Enabled(c, s, e)
  {
    hide PermitsBalance, CallsOk, LoadBounded, SlotsBalance, DepthExact, JobsOk;
    if s.lock.Some? {
      e := Receive(s.lock.value);
    } else if s.workers[0].Busy() {
      e := WorkerMoves(c, s, 0);
    } else {
      e := Lock(0);
    }
  }

  /** A call that holds a slot can always move. */
  lemma SlotMoves(c: Config, s: State, id: nat) returns (e: Event)
    requires Inv(c, s) && id < |s.calls| && s.calls[id].phase in {SlotHeld, Counted}
    ensures Internal(e) && Enabled(c, s, e)
  {
    if s.calls[id].phase == Counted {
      e := Send(id);
    } else if s.calls[id].task in s.failed {
      e := Cancel(id);
    } else {
      e := IncDepth(id);
    }
  }

  /** A call that holds a permit can move, or something it waits for can. */
  lemma PermitMoves(c: Config, s: State, id: nat) returns (e: Event)
    requires c.Valid() && Inv(c, s)
    requires id < |s.calls| && s.calls[id].phase in {AwaitSlot, SlotHeld, Counted, AwaitReply}
    ensures Internal(e) && Enabled(c, s, e)
  {
    hide PermitsBalance, LoadBounded, DepthExact, NoDuplicates, LockOk;
    var call := s.calls[id];
    if call.phase == SlotHeld || call.phase == Counted {
      e := SlotMoves(c, s, id);
    } else if call.task in s.failed {
      e := Cancel(id);
    } else if call.phase == AwaitSlot {
      if s.slots > 0 {
        e := ReserveSlot(id);
      } else if s.queue != [] {
        e := QueueMoves(c, s);
      } else {
        var other := SumWitness(s.calls, UsesSlot);
        e := SlotMoves(c, s, other);
      }
    } else {
      assert CallOk(s, call);
      match call.job
      case Queued => assert id in s.queue; e := QueueMoves(c, s);
      case AtWorker =>
        var w :| 0 <= w < |s.workers| && s.workers[w].Busy() && s.workers[w].id == id;
        e := WorkerMoves(c, s, w);
      case Answered => e := Return(id);
    }
  }

  /** No reachable state is stuck: while anything is outstanding, some step that
      finishes work is enabled. */
  lemma {:induction false} NeverStuck(c: Config, s: State) returns (e: Event)
    requires c.Valid() && Inv(c, s) && !Quiet(s)
    ensures Internal(e) && Enabled(c, s, e)
  {
    hide LoadBounded, DepthExact, LockOk, JobsOk, WorkersOk, SlotsBalance, ActiveExact, CallsOk;
    if s.queue != [] {
      e := QueueMoves(c, s);
    } else if w :| 0 <= w < |s.workers| && s.workers[w].Busy() {
      e := WorkerMoves(c, s, w);
    } else {
      var id :| 0 <= id < |s.calls| && !Done(s.calls[id]);
      var t := s.calls[id].task;
      if s.calls[id].phase != AwaitLimiter {
        e := PermitMoves(c, s, id);
      } else if t in s.failed {
        e := Cancel(id);
      } else if Permits(c, s, t) > 0 {
        e := AcquirePermit(id);
      } else {
        assert Permits(c, s, t) + Sum(s.calls, HoldsPermit(t)) == c.perTask;
        var other := SumWitness(s.calls, HoldsPermit(t));
        e := PermitMoves(c, s, other);
      }
    }
  }

  /** Steps a call still has to make, counting the worker's share. */
  function CallWork(call: Call): nat {
    (match call.phase
     case AwaitLimiter => 11 case AwaitSlot => 10 case SlotHeld => 9 case Counted => 8 case AwaitReply => 1
     case Returned => 0 case Dropped => 0)
    + (match call.job case Unsent => 0 case Queued => 6 case AtWorker => 2 case Answered => 0)
  }

  function WorkerWork(w: Worker): nat {
    match w
    case Waiting => 1 case Receiving => 0 case Fetched(_) => 3 case Uncounted(_) => 2 case Running(_) => 1
    case Finished(_) => 0
  }

  function Work(s: State): nat {
    Sum(s.calls, CallWork) + Sum(s.workers, WorkerWork)
  }

  lemma CallerWorkShrinks(c: Config, s: State, e: Event)
    requires Enabled(c, s, e) && CallerStep(e)
    requires e.Send? ==> s.calls[e.id].job == Unsent
    ensures Work(Apply(c, s, e)) < Work(s)
  {
    CallsChange(c, s, e, CallWork);
  }

  lemma WorkerWorkShrinks(c: Config, s: State, e: Event)
    requires Enabled(c, s, e) && Internal(e) && !CallerStep(e)
    requires e.Receive? ==> s.queue[0] < |s.calls| && s.calls[s.queue[0]].job == Queued
    requires e.Reply? ==> s.calls[s.workers[e.w].id].job == AtWorker
    ensures Work(Apply(c, s, e)) < Work(s)
  {
    CallsChange(c, s, e, CallWork);
    WorkersChange(c, s, e, WorkerWork);
  }

  lemma WorkShrinks(c: Config, s: State, e: Event)
    requires Inv(c, s) && Enabled(c, s, e) && Internal(e)
    ensures Work(Apply(c, s, e)) < Work(s)
  {
    hide PermitsBalance, LoadBounded, DepthExact, LockOk, SlotsBalance, ActiveExact, CallsOk, JobsOk, Work, Apply;
    if CallerStep(e) {
      if e.Send? {
        CountedUnsent(s, e.id);
      }
      CallerWorkShrinks(c, s, e);
    } else {
      if e.Receive? {
        QueueHead(s);
      }
      WorkerWorkShrinks(c, s, e);
    }
  }

  lemma {:induction false} WorkBounds(c: Config, s: State, events: seq<Event>, last: State)
    requires Inv(c, s) && Follows(c, s, events, last)
    requires forall i :: 0 <= i < |events| ==> Internal(events[i])
    ensures Inv(c, last) && |events| + Work(last) <= Work(s)
    decreases |events|
  {
    hide Inv, Enabled, Apply, Work;
    if events != [] {
      StepInv(c, s, events[0]);
      WorkShrinks(c, s, events[0]);
      WorkBounds(c, Apply(c, s, events[0]), events[1..], last);
    }
  }

  /** Draining: with no new calls or errors, at most `Work(s)` more steps are
      possible; and when none is left, every caller has returned or been
      dropped, both counters are zero, and every slot and permit is back. */
  lemma {:induction false} Drains(c: Config, events: seq<Event>, s: State, more: seq<Event>, last: State)
    requires c.Valid() && Reaches(c, events, s) && Follows(c, s, more, last)
    requires forall i :: 0 <= i < |more| ==> Internal(more[i])
    ensures |more| <= Work(s)
    ensures (forall e :: Internal(e) ==> !Enabled(c, last, e)) ==> Quiet(last)
    ensures Quiet(last) ==> last.queueDepth == 0 && last.activeRequests == 0 && last.slots == c.capacity
    ensures Quiet(last) ==> forall t: nat :: Permits(c, last, t) == c.perTask
  {
    RunInv(c, events, s);
    WorkBounds(c, s, more, last);
    if !Quiet(last) {
      var e := NeverStuck(c, last);
    } else {
      QuietBalance(c, last);
    }
  }

  lemma {:induction false} QuietBalance(c: Config, s: State)
    requires Inv(c, s) && Quiet(s)
    ensures s.queueDepth == 0 && s.activeRequests == 0 && s.slots == c.capacity
    ensures forall t: nat :: Permits(c, s, t) == c.perTask
  {
    hide LoadBounded, LockOk, JobsOk, WorkersOk, CallsOk;
    assert forall id :: 0 <= id < |s.calls| ==> Done(s.calls[id]);
    SumZero(s.calls, IsCounted);
    SumZero(s.calls, UsesSlot);
    assert forall w :: 0 <= w < |s.workers| ==> !s.workers[w].Busy();
    SumZero(s.workers, IsFetched);
    SumZero(s.workers, IsRunning);
    forall t: nat
      ensures Permits(c, s, t) == c.perTask
    {
      assert Permits(c, s, t) + Sum(s.calls, HoldsPermit(t)) == c.perTask;
      SumZero(s.calls, HoldsPermit(t));
    }
  }
}
