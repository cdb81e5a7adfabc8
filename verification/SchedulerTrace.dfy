/** What the events of a run, on their own, say about the state it leads to, and
    what a failed task can no longer do. */
module SchedulerTrace {
  import opened Sums
  import opened VlmScheduler

  // ------------------------------------------------------------ reading the events

  /** The task of each request, in the order they were started. */
  function Started(events: seq<Event>): seq<nat> {
    if events == [] then []
    else
      var before, e := Started(events[..|events| - 1]), events[|events| - 1];
      if e.Start? then before + [e.task] else before
  }

  function SentBy(events: seq<Event>): seq<nat> {
    if events == [] then []
    else
      var before, e := SentBy(events[..|events| - 1]), events[|events| - 1];
      if e.Send? then before + [e.id] else before
  }

  function Count(events: seq<Event>, kind: Event -> bool): nat {
    if events == [] then 0
    else Count(events[..|events| - 1], kind) + if kind(events[|events| - 1]) then 1 else 0
  }

  /** Where a step takes a request. */
  function Moved(e: Event, id: nat, phase: Phase): Phase {
    match e
    case AcquirePermit(i) => if i == id then AwaitSlot else phase
    case ReserveSlot(i) => if i == id then SlotHeld else phase
    case IncDepth(i) => if i == id then Counted else phase
    case Send(i) => if i == id then AwaitReply else phase
    case Return(i) => if i == id then Returned else phase
    case Cancel(i) => if i == id then Dropped else phase
    case _ => phase
  }

  /** Where the last step of its caller took the request. */
  function PhaseAfter(events: seq<Event>, id: nat): Phase {
    if events == [] then AwaitLimiter
    else Moved(events[|events| - 1], id, PhaseAfter(events[..|events| - 1], id))
  }

  ghost predicate CallsTraced(events: seq<Event>, s: State) {
    |s.calls| == |Started(events)| && forall id: nat :: CallTraced(events, s, id)
  }

  ghost predicate CallTraced(events: seq<Event>, s: State, id: nat) {
    && (id < |s.calls| ==> id < |Started(events)| && s.calls[id].task == Started(events)[id])
    && PhaseAfter(events, id) == if id < |s.calls| then s.calls[id].phase else AwaitLimiter
  }

  ghost predicate CountsTraced(events: seq<Event>, s: State) {
    && s.sent == SentBy(events)
    && s.queueDepth == Count(events, (e: Event) => e.IncDepth?) - Count(events, (e: Event) => e.DecDepth?)
    && s.activeRequests == Count(events, (e: Event) => e.IncActive?) - Count(events, (e: Event) => e.DecActive?)
    && |s.received| == Count(events, (e: Event) => e.Receive?)
    && |s.answered| == Count(events, (e: Event) => e.Reply?)
  }

  ghost predicate FailuresTraced(events: seq<Event>, s: State) {
    forall t: nat :: t in s.failed <==> Fail(t) in events
  }

  // -------------------------------------------------------------------- the proof

  /** The last step of a run. */
  lemma {:induction false} LastStep(c: Config, s: State, events: seq<Event>, last: State) returns (mid: State)
    requires events != [] && Follows(c, s, events, last)
    ensures var n := |events| - 1;
            Follows(c, s, events[..n], mid) && Enabled(c, mid, events[n]) && last == Apply(c, mid, events[n])
    decreases |events|
  {
    hide Enabled, Apply;
    var n := |events| - 1;
    if n == 0 {
      mid := s;
      assert events[..0] == [];
    } else {
      var next := Apply(c, s, events[0]);
      mid := LastStep(c, next, events[1..], last);
      assert events[1..][..n - 1] == events[..n][1..] && events[1..][n - 1] == events[n];
    }
  }

  lemma CallsStep(c: Config, events: seq<Event>, s: State, e: Event)
    requires CallsTraced(events, s) && Enabled(c, s, e)
    ensures CallsTraced(events + [e], Apply(c, s, e))
  {
    hide CallTraced, Enabled, Apply;
    StartedStep(c, events, s, e);
    forall id: nat
      ensures CallTraced(events + [e], Apply(c, s, e), id)
    {
      assert CallTraced(events, s, id);
      CallStep(c, events, s, e, id);
    }
  }

  lemma StartedStep(c: Config, events: seq<Event>, s: State, e: Event)
    requires |s.calls| == |Started(events)| && Enabled(c, s, e)
    ensures |Apply(c, s, e).calls| == |Started(events + [e])|
  {
    assert (events + [e])[..|events|] == events;
  }

  lemma CallStep(c: Config, events: seq<Event>, s: State, e: Event, id: nat)
    requires |s.calls| == |Started(events)| && CallTraced(events, s, id) && Enabled(c, s, e)
    ensures CallTraced(events + [e], Apply(c, s, e), id)
  {
    hide Enabled, Apply, Moved;
    assert (events + [e])[..|events|] == events;
    CallMoves(c, s, e, id);
  }

  lemma CallMoves(c: Config, s: State, e: Event, id: nat)
    requires Enabled(c, s, e)
    ensures var after := Apply(c, s, e).calls;
            && |after| == (if e.Start? then |s.calls| + 1 else |s.calls|)
            && (id < |s.calls| ==>
                  after[id].task == s.calls[id].task && after[id].phase == Moved(e, id, s.calls[id].phase))
            && (id >= |s.calls| ==> Moved(e, id, AwaitLimiter) == AwaitLimiter)
            && (e.Start? && id == |s.calls| ==> after[id].task == e.task && after[id].phase == AwaitLimiter)
  {
    hide Permits;
  }

  lemma CountsStep(c: Config, events: seq<Event>, s: State, e: Event)
    requires CountsTraced(events, s) && Enabled(c, s, e)
    ensures CountsTraced(events + [e], Apply(c, s, e))
  {
    assert (events + [e])[..|events|] == events;
  }

  lemma FailuresStep(c: Config, events: seq<Event>, s: State, e: Event)
    requires FailuresTraced(events, s) && Enabled(c, s, e)
    ensures FailuresTraced(events + [e], Apply(c, s, e))
  {
  }

  /** In every reachable state each request is where its own last step took it, the
      counters count the steps that change them, and the tasks known to have failed
      are those whose failure occurred. */
  lemma {:induction false} RunIsTraced(c: Config, events: seq<Event>, s: State)
    requires Reaches(c, events, s)
    ensures CallsTraced(events, s) && CountsTraced(events, s) && FailuresTraced(events, s)
    decreases |events|
  {
    hide Enabled, Apply, CallsTraced, CountsTraced, FailuresTraced;
    if events == [] {
      NothingTraced(c);
    } else {
      var n := |events| - 1;
      var mid := LastStep(c, Init(c), events, s);
      RunIsTraced(c, events[..n], mid);
      CallsStep(c, events[..n], mid, events[n]);
      CountsStep(c, events[..n], mid, events[n]);
      FailuresStep(c, events[..n], mid, events[n]);
      assert events == events[..n] + [events[n]];
    }
  }

  lemma NothingTraced(c: Config)
    ensures CallsTraced([], Init(c)) && CountsTraced([], Init(c)) && FailuresTraced([], Init(c))
  {
  }

  /** Every request the task started has returned. */
  ghost predicate AllBack(events: seq<Event>, t: nat) {
    forall id :: 0 <= id < |Started(events)| && Started(events)[id] == t ==> PhaseAfter(events, id) == Returned
  }

  /** A task can start requests, and can fail, exactly as long as it has not failed,
      and it goes on to its next upload when every request has returned. */
  lemma OpenUntilFailure(c: Config, events: seq<Event>, s: State, t: nat)
    requires Reaches(c, events, s)
    ensures Enabled(c, s, Start(t)) <==> Fail(t) !in events
    ensures Enabled(c, s, Fail(t)) <==> Fail(t) !in events
    ensures Enabled(c, s, NextUpload(t)) <==> Fail(t) !in events && AllBack(events, t)
  {
    hide Follows, Init, CountsTraced, CallsTraced, AllBack;
    RunIsTraced(c, events, s);
    AllReturned(events, s, t);
  }

  lemma AllReturned(events: seq<Event>, s: State, t: nat)
    requires CallsTraced(events, s)
    ensures (forall id :: 0 <= id < |s.calls| && s.calls[id].task == t ==> s.calls[id].phase == Returned)
       <==> AllBack(events, t)
  {
    if forall id :: 0 <= id < |s.calls| && s.calls[id].task == t ==> s.calls[id].phase == Returned {
      forall id | 0 <= id < |Started(events)| && Started(events)[id] == t
        ensures PhaseAfter(events, id) == Returned
      {
        assert CallTraced(events, s, id);
      }
    }
    if AllBack(events, t) {
      forall id | 0 <= id < |s.calls| && s.calls[id].task == t
        ensures s.calls[id].phase == Returned
      {
        assert CallTraced(events, s, id);
        assert Started(events)[id] == t && PhaseAfter(events, id) == Returned;
      }
    }
  }

  // --------------------------------------------------------------------- fairness

  /** The requests of a task that are reserved, counted, queued or at a worker. */
  function LoadOf(s: State, t: nat): set<nat> {
    LoadAmong(s, t, |s.calls|)
  }

  function LoadAmong(s: State, t: nat, n: nat): set<nat>
    requires n <= |s.calls|
  {
    set id: nat | id < n && s.calls[id].task == t
                  && (s.calls[id].phase == SlotHeld || s.calls[id].phase == Counted
                      || s.calls[id].job == Queued || s.calls[id].job == AtWorker)
  }

  lemma {:induction false} LoadCount(s: State, t: nat, n: nat)
    requires n <= |s.calls|
    ensures |LoadAmong(s, t, n)| == Sum(s.calls[..n], Loads(t))
  {
    if n > 0 {
      LoadCount(s, t, n - 1);
      assert s.calls[..n][..n - 1] == s.calls[..n - 1];
      assert LoadAmong(s, t, n) == LoadAmong(s, t, n - 1) + if Loads(t)(s.calls[n - 1]) == 1 then {n - 1} else {};
    }
  }

  lemma LoadIsSum(s: State, t: nat)
    ensures |LoadOf(s, t)| == Sum(s.calls, Loads(t))
  {
    LoadCount(s, t, |s.calls|);
    assert s.calls[..|s.calls|] == s.calls;
  }

  /** Per-task fairness: never more requests of a task are reserved, queued or at a
      worker than its limit, those of cancelled callers included. */
  lemma {:induction false} Fairness(c: Config, events: seq<Event>, s: State, t: nat)
    requires c.Valid() && Reaches(c, events, s)
    ensures |LoadOf(s, t)| <= c.perTask
  {
    hide LoadOf, Loads, Follows;
    LoadIsSum(s, t);
    LoadWithin(c, events, s, t);
  }

  // -------------------------------------------------------------- after a failure

  /** The step starts a request of the task or takes one further. */
  predicate Issues(e: Event, calls: seq<Call>, t: nat) {
    match e
    case Start(u) => u == t
    case AcquirePermit(id) => id < |calls| && calls[id].task == t
    case ReserveSlot(id) => id < |calls| && calls[id].task == t
    case IncDepth(id) => id < |calls| && calls[id].task == t
    case Return(id) => id < |calls| && calls[id].task == t
    case NextUpload(u) => u == t
    case _ => false
  }

  /** Requests stay with their tasks. */
  ghost predicate Extends(a: seq<Call>, b: seq<Call>) {
    |a| <= |b| && forall id :: 0 <= id < |a| ==> b[id].task == a[id].task
  }

  lemma StepExtends(c: Config, s: State, e: Event)
    requires Enabled(c, s, e)
    ensures Extends(s.calls, Apply(c, s, e).calls)
  {
  }

  lemma {:induction false} RunExtends(c: Config, s: State, more: seq<Event>, last: State)
    requires Follows(c, s, more, last)
    ensures Extends(s.calls, last.calls)
    decreases |more|
  {
    hide Enabled, Apply;
    if more != [] {
      StepExtends(c, s, more[0]);
      RunExtends(c, Apply(c, s, more[0]), more[1..], last);
    }
  }

  lemma FailedStays(c: Config, s: State, e: Event, t: nat)
    requires Enabled(c, s, e) && t in s.failed
    ensures t in Apply(c, s, e).failed
  {
  }

  lemma FailedStepIssuesNot(c: Config, s: State, e: Event, t: nat, calls: seq<Call>)
    requires Enabled(c, s, e) && t in s.failed && Extends(s.calls, calls)
    ensures !Issues(e, calls, t)
  {
  }

  lemma {:induction false} FailedRun(c: Config, s: State, more: seq<Event>, last: State, t: nat)
    requires Inv(c, s) && Follows(c, s, more, last) && t in s.failed
    ensures forall i :: 0 <= i < |more| ==> !Issues(more[i], last.calls, t)
    ensures Sum(last.calls, Loads(t)) <= Sum(s.calls, Loads(t))
    decreases |more|
  {
    hide Inv, Enabled, Apply, Issues, Extends, Loads;
    if more != [] {
      var next := Apply(c, s, more[0]);
      RunExtends(c, s, more, last);
      FailedStepIssuesNot(c, s, more[0], t, last.calls);
      FailedStays(c, s, more[0], t);
      StepInv(c, s, more[0]);
      StepLoadShrinks(c, s, more[0], t);
      FailedRun(c, next, more[1..], last, t);
      assert forall i :: 1 <= i < |more| ==> more[i] == more[1..][i - 1];
    }
  }

  lemma StepLoadShrinks(c: Config, s: State, e: Event, t: nat)
    requires Inv(c, s) && Enabled(c, s, e) && t in Apply(c, s, e).failed
    ensures Sum(Apply(c, s, e).calls, Loads(t)) <= Sum(s.calls, Loads(t))
  {
    hide Enabled, Apply, Loads, PermitsBalance, LoadBounded, LockOk, SlotsBalance, DepthExact, ActiveExact, JobsOk,
         CallsOk, WorkersOk;
    LoadShrinks(c, s, e, t);
  }

  lemma FailMeans(c: Config, s: State, t: nat)
    requires Enabled(c, s, Fail(t))
    ensures var after := Apply(c, s, Fail(t));
            t in after.failed && after.calls == s.calls && after.sent == s.sent
  {
  }

  lemma SentMeans(s: State, last: State, t: nat)
    requires IssuesNothing(s, last, t)
    ensures forall id :: id in last.sent && id < |last.calls| && last.calls[id].task == t ==>
              id in s.sent || (id < |s.calls| && s.calls[id].phase == Counted)
  {
    hide Loads;
  }

  /** On every run after the first error of a task no request of it is started or
      taken further, none is sent that was not about to be, and its load on the
      scheduler never passes what it was when the error came. */
  lemma {:induction false} NothingIssuedAfterFailure(c: Config, events: seq<Event>, s: State, t: nat,
                                                     more: seq<Event>, last: State)
    requires c.Valid() && Reaches(c, events, s)
    requires Enabled(c, s, Fail(t)) && Follows(c, Apply(c, s, Fail(t)), more, last)
    ensures forall i :: 0 <= i < |more| ==> !Issues(more[i], last.calls, t)
    ensures forall id :: id in last.sent && id < |last.calls| && last.calls[id].task == t ==>
              id in s.sent || (id < |s.calls| && s.calls[id].phase == Counted)
    ensures |LoadOf(last, t)| <= |LoadOf(s, t)|
  {
    hide Inv, Enabled, Apply, Issues, IssuesNothing, Loads, Follows, LoadOf;
    RunInv(c, events, s);
    LoadIsSum(s, t);
    LoadIsSum(last, t);
    StepInv(c, s, Fail(t));
    FailMeans(c, s, t);
    FailedRun(c, Apply(c, s, Fail(t)), more, last, t);
    FailedIssuesNothing(c, Apply(c, s, Fail(t)), more, last, t);
    SentMeans(Apply(c, s, Fail(t)), last, t);
  }

  /** Right after the error every request of the task that waits, or holds a slot it
      has not counted, can be dropped; dropping it gives back exactly what it held. */
  lemma FailureFreesCallers(c: Config, s: State, t: nat, id: nat)
    requires Enabled(c, s, Fail(t)) && id < |s.calls| && s.calls[id].task == t
    requires s.calls[id].phase in {AwaitLimiter, AwaitSlot, SlotHeld, AwaitReply}
    ensures var after := Apply(c, s, Fail(t));
            && Enabled(c, after, Cancel(id))
            && var dropped := Apply(c, after, Cancel(id));
               && dropped.calls == s.calls[id := s.calls[id].(phase := Dropped)]
               && dropped.slots == s.slots + (if s.calls[id].phase == SlotHeld then 1 else 0)
               && Permits(c, dropped, t) == Permits(c, s, t) + (if s.calls[id].phase == AwaitLimiter then 0 else 1)
               && dropped.queue == s.queue && dropped.queueDepth == s.queueDepth
               && dropped.activeRequests == s.activeRequests
  {
  }
}
