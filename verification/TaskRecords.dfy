/** What the record of a task shows over every run. */
module TaskRecords {
  import opened Options
  import opened Tasks
  import opened TaskLifecycle

  /** The entry of a task, also after it was taken out of the table. */
  function Record(s: State, id: nat): Option<Entry> {
    if id in s.tasks then Some(s.tasks[id]) else if id in s.removed then Some(s.removed[id]) else None
  }

  /** From Pending to Processing to a terminal status, or from Pending to Failed. */
  predicate Advances(a: Status, b: Status) {
    || (a == Pending && (b == Processing || b == Failed))
    || (a == Processing && b.IsTerminal())
  }

  predicate NotBefore(a: Status, b: Status) {
    match a
    case Pending => true
    case Processing => b != Pending
    case Completed => b == a
    case Failed => b == a
  }

  /** One step leaves a task's record alone or advances its status; a terminal
      record is never changed, and never lost. */
  lemma {:induction false} RecordStep(c: Config, s: State, e: Event, id: nat)
    requires Inv(c, s) && Enabled(c, s, e) && Record(s, id).Some?
    ensures var was, now := Record(s, id), Record(Apply(c, s, e), id);
            now.Some? && (now == was || Advances(was.value.status, now.value.status))
  {
    hide PermitsBalance, OrdersOk, LeasesOk, CleanerOk, Expired, EntryOk;
    assert TaskOk(s, id);
  }

  /** Over any number of steps a task never goes back, and once its status is
      terminal its record stays as it is. */
  lemma {:induction false} RecordRun(c: Config, s: State, events: seq<Event>, last: State, id: nat)
    requires Inv(c, s) && Follows(c, s, events, last) && Record(s, id).Some?
    ensures var was, now := Record(s, id), Record(last, id);
            && now.Some? && NotBefore(was.value.status, now.value.status)
            && (was.value.status.IsTerminal() ==> now == was)
    decreases |events|
  {
    hide Inv, Enabled, Apply, Record;
    if events != [] {
      RecordStep(c, s, events[0], id);
      StepInv(c, s, events[0]);
      RecordRun(c, Apply(c, s, events[0]), events[1..], last, id);
    }
  }

  /** What a task's record shows in every reachable state. */
  lemma {:induction false} Lifecycle(c: Config, events: seq<Event>, s: State, id: nat)
    requires Reaches(c, events, s)
    ensures Record(s, id).Some? <==> id < |s.procs| && StatusIn(s.procs[id]).Some?
    ensures Record(s, id).Some? ==>
              var entry := Record(s, id).value;
              && StatusIn(s.procs[id]) == Some(entry.status)
              && (entry.completedAt.Some? <==> entry.status.IsTerminal())
              && (entry.error.Some? <==> entry.status == Failed)
  {
    InitInv(c);
    RunInv(c, Init(c), events, s);
    hide PermitsBalance, OrdersOk, LeasesOk, CleanerOk, Follows;
    assert TaskOk(s, id);
  }
}
