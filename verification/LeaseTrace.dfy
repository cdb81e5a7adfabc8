/** Leases counted over the events of a run: what readers really took and gave back. */
module LeaseTrace {
  import opened Options
  import opened Tasks
  import opened TaskLifecycle
  import opened LeaseSafety

  /** How many leases on the task were taken, and how many dropped. */
  function LeasesTaken(events: seq<Event>, id: nat): nat {
    if events == [] then 0
    else LeasesTaken(events[..|events| - 1], id) + if events[|events| - 1] == AcquireLease(id) then 1 else 0
  }

  function LeasesDropped(events: seq<Event>, id: nat): nat {
    if events == [] then 0
    else LeasesDropped(events[..|events| - 1], id) + if events[|events| - 1] == DropLease(id) then 1 else 0
  }

  function ReadersOf(s: State, id: nat): int {
    if id in s.readers then s.readers[id] else 0
  }

  /** The last step of a run. */
  lemma {:induction false} LastStep(c: Config, s: State, events: seq<Event>, last: State) returns (mid: State)
    requires events != [] && Follows(c, s, events, last)
    ensures var n := |events| - 1;
            Follows(c, s, events[..n], mid) && Enabled(c, mid, events[n]) && last == Apply(c, mid, events[n])
    decreases |events|
  {
    hide Enabled, Apply;
    var n := |events| - 1;
    if n == 0 {
      mid := s;
      assert events[..0] == [];
    } else {
      var next := Apply(c, s, events[0]);
      mid := LastStep(c, next, events[1..], last);
      assert events[1..][..n - 1] == events[..n][1..] && events[1..][n - 1] == events[n];
    }
  }

  /** Only taking and dropping a lease change a reader count; inserting a task starts it. */
  lemma ReadersStep(c: Config, s: State, e: Event, id: nat)
    requires Inv(c, s) && Enabled(c, s, e)
    ensures ReadersOf(Apply(c, s, e), id)
         == ReadersOf(s, id) + (if e == AcquireLease(id) then 1 else 0) - (if e == DropLease(id) then 1 else 0)
  {
    hide PermitsBalance, OrdersOk, LeasesOk, CleanerOk, Expired, NextTable, NextPhase, EntryOk;
    if e.Do? {
      TaskOkAt(s, e.id);
    }
  }

  /** In every reachable state the reader count of a task is the number of leases
      taken on it less those dropped, nothing when there is no count. */
  lemma {:induction false} ReadersAreLeases(c: Config, events: seq<Event>, s: State, id: nat)
    requires Reaches(c, events, s)
    ensures ReadersOf(s, id) == LeasesTaken(events, id) - LeasesDropped(events, id)
    decreases |events|
  {
    hide Inv, Enabled, Apply, ReadersOf;
    if events == [] {
      NoReaders(c, id);
    } else {
      var n := |events| - 1;
      var mid := LastStep(c, Init(c), events, s);
      ReadersAreLeases(c, events[..n], mid, id);
      InitInv(c);
      RunInv(c, Init(c), events[..n], mid);
      ReadersStep(c, mid, events[n], id);
    }
  }

  lemma NoReaders(c: Config, id: nat)
    ensures ReadersOf(Init(c), id) == 0
  {
  }

  lemma {:induction false} NoneLater(c: Config, s: State, more: seq<Event>, last: State, id: nat)
    requires Inv(c, s) && id in s.removed && Follows(c, s, more, last)
    ensures AcquireLease(id) !in more
    decreases |more|
  {
    hide Inv, Apply, Enabled;
    if more != [] {
      assert more == [more[0]] + more[1..];
      assert Follows(c, s, [], s);
      BuriedForGood(c, s, [], s, id);
      StepInv(c, s, more[0]);
      RemovedStays(c, s, more[0], id);
      NoneLater(c, Apply(c, s, more[0]), more[1..], last, id);
    }
  }

  lemma BuriedHasNone(s: State, id: nat)
    requires Buried(s, id)
    ensures ReadersOf(s, id) == 0 && id in s.removed
  {
  }

  /** When a directory is deleted, as many leases on its task were dropped as were
      taken, and none is taken on any run from then on. */
  lemma {:induction false} DeletedUnread(c: Config, events: seq<Event>, s: State, more: seq<Event>, last: State)
    requires Reaches(c, events, s) && Enabled(c, s, Clean(DeleteFirst)) && Follows(c, s, more, last)
    ensures s.cleaner.Deleting? && s.cleaner.doomed != []
    ensures var id := s.cleaner.doomed[0];
            LeasesTaken(events, id) == LeasesDropped(events, id) && AcquireLease(id) !in more
  {
    hide Inv, Apply, ReadersOf, Buried;
    var id := s.cleaner.doomed[0];
    DeleteIsSafe(c, events, s, more, last);
    BuriedHasNone(s, id);
    ReadersAreLeases(c, events, s, id);
    InitInv(c);
    RunInv(c, Init(c), events, s);
    NoneLater(c, s, more, last, id);
  }

  /** A lease can be taken on every task in the table while the cleaner does not hold
      it, and a live one can be dropped at any time. */
  lemma LeasesAreFree(c: Config, events: seq<Event>, s: State, id: nat)
    requires Reaches(c, events, s)
    ensures Enabled(c, s, AcquireLease(id)) <==> id in s.tasks && !s.cleaner.Scanning? && !s.cleaner.Removing?
    ensures Enabled(c, s, DropLease(id)) <==> LeasesTaken(events, id) > LeasesDropped(events, id)
  {
    hide Follows, PermitsBalance, OrdersOk, CleanerOk, Expired, EntryOk;
    InitInv(c);
    RunInv(c, Init(c), events, s);
    TaskOkAt(s, id);
    ReadersAreLeases(c, events, s, id);
  }
}
