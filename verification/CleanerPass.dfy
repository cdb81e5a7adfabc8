/** A full pass of the cleaner, step by step, does what the locked cleanup of
    the task manager does in one call. */
module CleanerPass {
  import opened Tasks
  import opened TaskLifecycle

  /** The ids as a set. */
  function Members(ids: seq<nat>): set<nat> {
    set id | id in ids
  }

  function Entries(tasks: Table, ids: set<nat>): Table {
    map id | id in ids && id in tasks :: tasks[id]
  }

  function MarkAll(ids: seq<nat>): seq<Event> {
    if ids == [] then [] else MarkAll(ids[..|ids| - 1]) + [Clean(Mark(ids[|ids| - 1]))]
  }

  function RemoveAll(n: nat): seq<Event> {
    if n == 0 then [] else RemoveAll(n - 1) + [Clean(RemoveFirst)]
  }

  /** Lock the table, mark the tasks in the given order, take them out, unlock. */
  function Pass(now: int, ids: seq<nat>): seq<Event> {
    [Clean(LockTable(now))] + MarkAll(ids) + [Clean(EndScan)] + RemoveAll(|ids|) + [Clean(UnlockTable)]
  }

  ghost predicate NoneTwice(ids: seq<nat>) {
    forall i, j :: 0 <= i < j < |ids| ==> ids[i] != ids[j]
  }

  lemma {:induction false} Marks(c: Config, s: State, now: int, ids: seq<nat>)
    requires s.cleaner == Scanning(now, []) && NoneTwice(ids)
    requires forall id :: id in ids ==> id in Expired(s.tasks, s.readers, c.retention, now)
    ensures Follows(c, s, MarkAll(ids), s.(cleaner := Scanning(now, ids)))
  {
    hide Expired, Follows;
    if ids == [] {
      FollowsNil(c, s);
    } else {
      var n := |ids| - 1;
      var before := s.(cleaner := Scanning(now, ids[..n]));
      Marks(c, s, now, ids[..n]);
      assert ids[n] in ids && ids[n] !in ids[..n];
      assert ids == ids[..n] + [ids[n]];
      FollowsSnoc(c, s, MarkAll(ids[..n]), before, Clean(Mark(ids[n])));
    }
  }

  /** The state once the first `n` of the marked tasks are out of the table. */
  function Taken(s: State, ids: seq<nat>, n: nat): State
    requires n <= |ids| && Members(ids) <= s.tasks.Keys
  {
    s.(cleaner := Removing(ids[n..], ids[..n]),
       tasks := s.tasks - Members(ids[..n]),
       removed := s.removed + Entries(s.tasks, Members(ids[..n])))
  }

  lemma OneMoreOut(tasks: Table, removed: Table, out: set<nat>, id: nat)
    requires id in tasks
    ensures tasks - out - {id} == tasks - (out + {id})
    ensures (removed + Entries(tasks, out))[id := tasks[id]] == removed + Entries(tasks, out + {id})
  {
  }

  lemma NextMember(ids: seq<nat>, n: nat)
    requires n < |ids| && NoneTwice(ids)
    ensures Members(ids[..n + 1]) == Members(ids[..n]) + {ids[n]} && ids[n] !in Members(ids[..n]) && ids[n] in Members(ids)
    ensures ids[..n + 1] == ids[..n] + [ids[n]] && ids[n..][0] == ids[n] && ids[n..][1..] == ids[n + 1..]
  {
    assert ids[..n + 1] == ids[..n] + [ids[n]];
  }

  lemma TakeNext(c: Config, s: State, ids: seq<nat>, n: nat)
    requires n < |ids| && Members(ids) <= s.tasks.Keys && NoneTwice(ids)
    ensures CleanEnabled(c, Taken(s, ids, n), RemoveFirst)
    ensures Apply(c, Taken(s, ids, n), Clean(RemoveFirst)) == Taken(s, ids, n + 1)
  {
    hide Members, Entries, NoneTwice, Expired;
    NextMember(ids, n);
    OneMoreOut(s.tasks, s.removed, Members(ids[..n]), ids[n]);
  }

  lemma {:induction false} Removes(c: Config, s: State, ids: seq<nat>, n: nat)
    requires n <= |ids| && Members(ids) <= s.tasks.Keys && NoneTwice(ids)
    ensures Follows(c, Taken(s, ids, 0), RemoveAll(n), Taken(s, ids, n))
  {
    hide Follows, Taken, Apply, CleanEnabled;
    if n == 0 {
      FollowsNil(c, Taken(s, ids, 0));
    } else {
      Removes(c, s, ids, n - 1);
      TakeNext(c, s, ids, n - 1);
      FollowsSnoc(c, Taken(s, ids, 0), RemoveAll(n - 1), Taken(s, ids, n - 1), Clean(RemoveFirst));
    }
  }

  lemma NothingTaken(s: State, ids: seq<nat>)
    requires Members(ids) <= s.tasks.Keys
    ensures Taken(s, ids, 0) == s.(cleaner := Removing(ids, []))
  {
    assert ids[..0] == [] && ids[0..] == ids;
    assert s.tasks - Members([]) == s.tasks;
    assert s.removed + Entries(s.tasks, Members([])) == s.removed;
  }

  lemma AllTaken(s: State, ids: seq<nat>)
    requires Members(ids) <= s.tasks.Keys
    ensures Taken(s, ids, |ids|) == s.(cleaner := Removing([], ids), tasks := s.tasks - Members(ids),
                                       removed := s.removed + Entries(s.tasks, Members(ids)))
  {
    assert ids[..|ids|] == ids && ids[|ids|..] == [];
  }

  /** Whatever the order in which the expired tasks are visited, the pass leaves
      the table without exactly them, and only their directories to delete. */
  lemma PassIsCleanup(c: Config, s: State, now: int, ids: seq<nat>)
    requires s.cleaner.Idle? && c.retention > 0
    requires IsListing(ids, Expired(s.tasks, s.readers, c.retention, now))
    ensures var expired := Expired(s.tasks, s.readers, c.retention, now);
            && expired <= s.tasks.Keys
            && Follows(c, s, Pass(now, ids),
                       s.(cleaner := Deleting(ids), tasks := s.tasks - expired,
                          removed := s.removed + Entries(s.tasks, expired)))
  {
    hide Follows, Expired, MarkAll, RemoveAll, Taken;
    var expired := Expired(s.tasks, s.readers, c.retention, now);
    ExpiredInTable(s.tasks, s.readers, c.retention, now);
    assert Members(ids) == expired;
    var locked, marked := s.(cleaner := Scanning(now, [])), s.(cleaner := Scanning(now, ids));
    FollowsNil(c, s);
    FollowsSnoc(c, s, [], s, Clean(LockTable(now)));
    assert [] + [Clean(LockTable(now))] == [Clean(LockTable(now))];
    Marks(c, locked, now, ids);
    FollowsJoin(c, s, [Clean(LockTable(now))], locked, MarkAll(ids), marked);
    FollowsSnoc(c, s, [Clean(LockTable(now))] + MarkAll(ids), marked, Clean(EndScan));
    NothingTaken(s, ids);
    AllTaken(s, ids);
    Removes(c, s, ids, |ids|);
    var scanned := [Clean(LockTable(now))] + MarkAll(ids) + [Clean(EndScan)];
    FollowsJoin(c, s, scanned, Taken(s, ids, 0), RemoveAll(|ids|), Taken(s, ids, |ids|));
    FollowsSnoc(c, s, scanned + RemoveAll(|ids|), Taken(s, ids, |ids|), Clean(UnlockTable));
  }
}
