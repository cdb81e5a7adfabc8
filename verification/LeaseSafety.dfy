/** Directories are deleted only when nothing can read them any more. */
module LeaseSafety {
  import opened Tasks
  import opened TaskLifecycle

  /** The task is over: final status, parser returned, no reader, not in the table. */
  ghost predicate Buried(s: State, id: nat) {
    && id < |s.procs| && (s.procs[id].Settled? || s.procs[id].Gone?)
    && id in s.removed && s.removed[id].status.IsTerminal()
    && id !in s.tasks && id !in s.leases && id in s.readers && s.readers[id] == 0
  }

  lemma RemovedIsBuried(c: Config, s: State, id: nat)
    requires Inv(c, s) && id in s.removed
    ensures Buried(s, id)
  {
    hide PermitsBalance, OrdersOk;
    assert TaskOk(s, id);
  }

  lemma DoomedRemoved(s: State)
    requires CleanerOk(s) && s.cleaner.Deleting? && s.cleaner.doomed != []
    ensures s.cleaner.doomed[0] in s.removed
  {
    assert (s.deleted + s.cleaner.Doomed())[|s.deleted|] == s.cleaner.doomed[0];
  }

  lemma RemovedStays(c: Config, s: State, e: Event, id: nat)
    requires Enabled(c, s, e) && id in s.removed
    ensures id in Apply(c, s, e).removed
  {
  }

  lemma {:induction false} BuriedForGood(c: Config, s: State, events: seq<Event>, last: State, id: nat)
    requires Inv(c, s) && id in s.removed && Follows(c, s, events, last)
    ensures Buried(last, id) && !Enabled(c, last, AcquireLease(id))
    decreases |events|
  {
    hide Inv, Apply;
    if events == [] {
      RemovedIsBuried(c, s, id);
    } else {
      StepInv(c, s, events[0]);
      RemovedStays(c, s, events[0], id);
      BuriedForGood(c, Apply(c, s, events[0]), events[1..], last, id);
    }
  }

  /** A directory is deleted only when its task is terminal, its parser has
      returned and no reader is live; from then on none can be acquired. */
  lemma {:induction false} DeleteIsSafe(c: Config, events: seq<Event>, s: State, more: seq<Event>, last: State)
    requires Reaches(c, events, s) && Enabled(c, s, Clean(DeleteFirst)) && Follows(c, s, more, last)
    ensures Buried(s, s.cleaner.doomed[0])
    ensures Buried(last, s.cleaner.doomed[0]) && !Enabled(c, last, AcquireLease(s.cleaner.doomed[0]))
  {
    InitInv(c);
    RunInv(c, Init(c), events, s);
    assert CleanerOk(s) && s.cleaner.Deleting? && s.cleaner.doomed != [];
    DoomedRemoved(s);
    hide *;
    var id := s.cleaner.doomed[0];
    RemovedIsBuried(c, s, id);
    BuriedForGood(c, s, more, last, id);
  }

  /** The reader count is the number of live leases, so it never underflows; and
      every removed task has its directory deleted or waiting, exactly once. */
  lemma {:induction false} LeasesAndDirectories(c: Config, events: seq<Event>, s: State)
    requires Reaches(c, events, s)
    ensures forall id :: id in s.readers ==> s.readers[id] == s.leases[id] && s.readers[id] >= 0
    ensures forall id :: id in s.leases ==> id in s.tasks && id in s.readers && s.readers[id] > 0
    ensures IsListing(s.deleted + s.cleaner.Doomed(), s.removed.Keys)
  {
    InitInv(c);
    RunInv(c, Init(c), events, s);
    hide PermitsBalance, OrdersOk, IsListing, EntryOk, Follows;
    forall id | id in s.leases
      ensures id in s.tasks
    {
      assert TaskOk(s, id);
    }
  }
}
