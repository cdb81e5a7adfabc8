/** Queue ranks and what the two semaphores bound. */
module TaskPermits {
  import opened Options
  import opened Sums
  import opened Tasks
  import opened TaskLifecycle

  /** In every reachable state, however order assignment and insertion of
      concurrent requests interleave, the queue ranks of the pending tasks are
      0 up to their number less one. */
  lemma {:induction false} QueueRanks(c: Config, events: seq<Event>, s: State)
    requires Reaches(c, events, s)
    ensures RanksBijective(s.tasks)
  {
    InitInv(c);
    RunInv(c, Init(c), events, s);
    TableOrders(c, s);
    hide *;
    QueueRankBijection(s.tasks);
  }

  lemma {:induction false} TableOrders(c: Config, s: State)
    requires Inv(c, s)
    ensures OrdersDistinct(s.tasks)
  {
    hide PermitsBalance, LeasesOk, CleanerOk, EntryOk;
    forall id | id in s.tasks
      ensures OrderOf(s, id) == Some(s.tasks[id].submitOrder)
    {
      assert TaskOk(s, id);
    }
  }

  function ProcessingTasks(tasks: Table): set<nat> {
    set id | id in tasks && tasks[id].status == Processing
  }

  /** The first `n` requests whose task shows Processing. */
  function ShownProcessing(procs: seq<Phase>, n: nat): set<nat>
    requires n <= |procs|
  {
    set id: nat | id < n && IsProcessing(procs[id]) == 1
  }

  lemma {:induction false} ShownCount(procs: seq<Phase>, n: nat)
    requires n <= |procs|
    ensures |ShownProcessing(procs, n)| == Sum(procs[..n], IsProcessing)
  {
    if n > 0 {
      ShownCount(procs, n - 1);
      assert procs[..n][..n - 1] == procs[..n - 1];
      assert ShownProcessing(procs, n)
          == ShownProcessing(procs, n - 1) + if IsProcessing(procs[n - 1]) == 1 then {n - 1} else {};
    }
  }

  lemma {:induction false} ProcessingCount(c: Config, s: State)
    requires Inv(c, s)
    ensures |ProcessingTasks(s.tasks)| == Sum(s.procs, IsProcessing)
  {
    hide PermitsBalance, OrdersOk, LeasesOk, CleanerOk, EntryOk;
    forall id: nat
      ensures id in ProcessingTasks(s.tasks) <==> id in ShownProcessing(s.procs, |s.procs|)
    {
      assert TaskOk(s, id);
    }
    assert ProcessingTasks(s.tasks) == ShownProcessing(s.procs, |s.procs|);
    ShownCount(s.procs, |s.procs|);
    assert s.procs[..|s.procs|] == s.procs;
  }

  /** Running parsers are bounded by the request permits, live processors and
      tasks shown as Processing by the admission permits. */
  lemma {:induction false} Bounds(c: Config, events: seq<Event>, s: State)
    requires Reaches(c, events, s)
    ensures Sum(s.procs, IsParsing) <= c.concurrent
    ensures Sum(s.procs, HoldsAdmission) <= c.inFlight
    ensures |ProcessingTasks(s.tasks)| <= c.inFlight
  {
    InitInv(c);
    RunInv(c, Init(c), events, s);
    ProcessingCount(c, s);
    hide TasksOk, OrdersOk, LeasesOk, CleanerOk;
    SumLe(s.procs, IsParsing, HoldsRequest);
    SumLe(s.procs, IsProcessing, HoldsAdmission);
  }

  // ---------------------------------------- request permits do not bound Processing

  /** All requests are past their parser, none has its status settled. */
  predicate Backlog(c: Config, s: State, n: nat) {
    && s.procs == seq(n, _ => Released(true)) && s.cleaner == Idle
    && s.request == c.concurrent && s.admission + n == c.inFlight
  }

  /** One more request goes through its parser before any status is settled. */
  lemma {:induction false} GrowBacklog(c: Config, s: State, n: nat) returns (events: seq<Event>, last: State)
    requires Backlog(c, s, n) && n < c.inFlight && c.concurrent >= 1
    ensures Follows(c, s, events, last) && Backlog(c, last, n + 1)
  {
    hide NextTable, Follows;
    events, last := [], s;
    assert Follows(c, s, [], s) by { FollowsNil(c, s); }
    var steps := [TakeOrder, Insert([], ""), AcquireRequest, StartProcessing(0), ReturnFromParser(true), ReleaseRequest];
    FollowsSnoc(c, s, events, last, Admit);
    events, last := events + [Admit], Apply(c, last, Admit);
    for i := 0 to 6
      invariant Follows(c, s, events, last)
      invariant |last.procs| == n + 1 && last.procs[..n] == s.procs && last.cleaner == Idle
      invariant last.admission + n + 1 == c.inFlight
      invariant last.request == if i == 3 || i == 4 || i == 5 then c.concurrent - 1 else c.concurrent
      invariant match last.procs[n]
                case Admitted => i == 0
                case Ordered(_) => i == 1
                case Submitted => i == 2
                case Permitted => i == 3
                case Parsing => i == 4
                case Parsed(ok) => i == 5 && ok
                case Released(ok) => i == 6 && ok
                case _ => false
    {
      FollowsSnoc(c, s, events, last, Do(n, steps[i]));
      events, last := events + [Do(n, steps[i])], Apply(c, last, Do(n, steps[i]));
    }
    assert last.procs == s.procs + [Released(true)];
  }

  lemma {:induction false} BuildBacklog(c: Config, n: nat) returns (events: seq<Event>, s: State)
    requires n <= c.inFlight && c.concurrent >= 1
    ensures Reaches(c, events, s) && Backlog(c, s, n)
  {
    hide Enabled, Apply;
    if n == 0 {
      events, s := [], Init(c);
    } else {
      var before, mid := BuildBacklog(c, n - 1);
      var more, last := GrowBacklog(c, mid, n - 1);
      FollowsJoin(c, Init(c), before, mid, more, last);
      events, s := before + more, last;
    }
  }

  ghost predicate ProcessingWithin(c: Config, limit: nat) {
    forall events, s :: Reaches(c, events, s) ==> |ProcessingTasks(s.tasks)| <= limit
  }

  /** Because the request permit is dropped before the status changes, the
      number of tasks in status Processing stays within the number of request
      permits on every run exactly when the admission permits already see to it. */
  lemma {:induction false} ProcessingExceedsRequests(c: Config)
    requires c.concurrent >= 1
    ensures ProcessingWithin(c, c.concurrent) <==> c.inFlight <= c.concurrent
  {
    hide Follows;
    if c.inFlight <= c.concurrent {
      forall events, s | Reaches(c, events, s)
        ensures |ProcessingTasks(s.tasks)| <= c.concurrent
      {
        Bounds(c, events, s);
      }
    } else {
      var events, s := BuildBacklog(c, c.inFlight);
      InitInv(c);
      RunInv(c, Init(c), events, s);
      ProcessingCount(c, s);
      AllProcessing(c.inFlight);
    }
  }

  lemma {:induction false} AllProcessing(n: nat)
    ensures Sum(seq(n, _ => Released(true)), IsProcessing) == n
  {
    if n > 0 {
      AllProcessing(n - 1);
      SumSnoc(seq(n - 1, _ => Released(true)), Released(true), IsProcessing);
      assert seq(n, _ => Released(true)) == seq(n - 1, _ => Released(true)) + [Released(true)];
    }
  }
}
