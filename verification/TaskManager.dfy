/** The task manager object: one method per locked operation on the table. */
module TaskManager {
  import opened Options
  import opened Tasks

  class TaskManager {
    var tasks: Table
    var nextSubmitOrder: nat
    const retention: nat
    var readers: map<nat, int>   // the reader count of each task; it outlives the entry

    constructor (retention: nat)
      ensures tasks == map[] && readers == map[] && nextSubmitOrder == 1 && this.retention == retention
      ensures Valid()
    {
      tasks, readers, nextSubmitOrder := map[], map[], 1;
      this.retention := retention;
    }

    ghost predicate Valid()
      reads this
    {
      && OrdersDistinct(tasks)
      && (forall id :: id in tasks ==> tasks[id].submitOrder < nextSubmitOrder && id in readers)
      && nextSubmitOrder > 0
    }

    method Submit(id: nat, fileNames: seq<string>, outputDir: string) returns (order: nat)
      requires Valid() && id !in readers
      modifies this
      ensures Valid() && order == old(nextSubmitOrder)
      ensures tasks == old(tasks)[id := Entry(Pending, fileNames, outputDir, order, None, None, None)]
      ensures readers == old(readers)[id := 0] && nextSubmitOrder == old(nextSubmitOrder) + 1
    {
      order := nextSubmitOrder;
      nextSubmitOrder := nextSubmitOrder + 1;
      tasks := tasks[id := NewEntry(order, fileNames, outputDir)];
      readers := readers[id := 0];
    }

    method SetProcessing(id: nat, now: int)
      requires Valid()
      modifies this`tasks
      ensures Valid() && tasks == WithProcessing(old(tasks), id, now)
    {
      hide OrdersDistinct;
      if id in tasks {
        var entry := tasks[id];
        entry := entry.(status := Processing);
        entry := entry.(startedAt := Some(now));
        entry := entry.(error := None);
        OrdersKept(tasks, id, entry);
        tasks := tasks[id := entry];
      }
    }

    method SetCompleted(id: nat, fileNames: seq<string>, now: int)
      requires Valid()
      modifies this`tasks
      ensures Valid() && tasks == WithCompleted(old(tasks), id, fileNames, now)
    {
      hide OrdersDistinct;
      if id in tasks {
        var entry := tasks[id];
        entry := entry.(status := Completed);
        entry := entry.(fileNames := fileNames);
        entry := entry.(completedAt := Some(now));
        OrdersKept(tasks, id, entry);
        tasks := tasks[id := entry];
      }
    }

    method SetFailed(id: nat, error: string, now: int)
      requires Valid()
      modifies this`tasks
      ensures Valid() && tasks == WithFailed(old(tasks), id, error, now)
    {
      hide OrdersDistinct;
      if id in tasks {
        var entry := tasks[id];
        entry := entry.(status := Failed);
        entry := entry.(error := Some(error));
        entry := entry.(completedAt := Some(now));
        OrdersKept(tasks, id, entry);
        tasks := tasks[id := entry];
      }
    }

    /** Counts the pending tasks before this one, visiting the table in any order. */
    method CountAhead(id: nat) returns (ahead: Option<nat>)
      ensures ahead == QueuedAhead(tasks, id)
    {
      if id !in tasks {
        return None;
      }
      if tasks[id].status != Pending {
        return Some(0);
      }
      var submitOrder := tasks[id].submitOrder;
      ghost var before := Ahead(tasks, id);
      var left, count := tasks.Keys, 0;
      ghost var seen: set<nat> := {};
      assert |before * seen| == 0;
      while left != {}
        invariant seen !! left && seen + left == tasks.Keys
        invariant count == |before * seen|
        decreases left
      {
        var other :| other in left;
        CountOneMore(before, seen, other);
        var entry := tasks[other];
        if other != id && entry.status == Pending && entry.submitOrder > 0 && entry.submitOrder < submitOrder {
          count := count + 1;
        }
        left, seen := left - {other}, seen + {other};
      }
      assert before * seen == before;
      ahead := Some(count);
    }

    method AcquireResultLease(id: nat) returns (leased: bool)
      requires Valid()
      modifies this`readers
      ensures Valid() && leased == (id in tasks)
      ensures readers == if leased then old(readers)[id := old(readers)[id] + 1] else old(readers)
    {
      leased := id in tasks;
      if leased {
        readers := readers[id := readers[id] + 1];
      }
    }

    /** A lease is dropped without the lock and whether or not the entry still exists. */
    method DropLease(id: nat)
      requires Valid() && id in readers
      modifies this`readers
      ensures Valid() && readers == old(readers)[id := old(readers)[id] - 1]
    {
      readers := readers[id := readers[id] - 1];
    }

    /** Takes every expired task out of the table and returns their directories. */
    method CleanupExpired(now: int) returns (expired: seq<string>, ghost ids: seq<nat>)
      requires Valid()
      modifies this`tasks
      ensures Valid()
      ensures tasks == old(tasks) - Expired(old(tasks), readers, retention, now)
      ensures forall id :: id in old(tasks) ==>
                (id !in tasks <==>
                   && retention > 0 && (old(tasks)[id].status == Completed || old(tasks)[id].status == Failed)
                   && (id in readers ==> readers[id] <= 0)
                   && old(tasks)[id].completedAt.Some? && old(tasks)[id].completedAt.value + retention <= now)
      ensures IsListing(ids, Expired(old(tasks), readers, retention, now))
      ensures |ids| == |expired|
      ensures forall i :: 0 <= i < |ids| ==> ids[i] in old(tasks) && expired[i] == old(tasks)[ids[i]].outputDir
    {
      hide Expired, OrdersDistinct;
      expired, ids := [], [];
      var expiredIds := Expired(tasks, readers, retention, now);
      ExpiredInTable(tasks, readers, retention, now);
      var left := expiredIds;
      while left != {}
        invariant left <= expiredIds && tasks == old(tasks) - (expiredIds - left)
        invariant IsListing(ids, expiredIds - left) && |ids| == |expired|
        invariant forall i :: 0 <= i < |ids| ==> ids[i] in old(tasks) && expired[i] == old(tasks)[ids[i]].outputDir
        decreases left
      {
        var id :| id in left;
        ListingGrows(ids, expiredIds - left, id);
        expired := expired + [tasks[id].outputDir];
        ids := ids + [id];
        assert expiredIds - (left - {id}) == expiredIds - left + {id};
        tasks := tasks - {id};
        left := left - {id};
      }
      assert expiredIds - left == expiredIds;
      forall id
        ensures id in expiredIds <==>
                  && retention > 0 && id in old(tasks)
                  && (old(tasks)[id].status == Completed || old(tasks)[id].status == Failed)
                  && (id in readers ==> readers[id] <= 0)
                  && old(tasks)[id].completedAt.Some? && old(tasks)[id].completedAt.value + retention <= now
      {
        ExpiredMeans(old(tasks), readers, retention, now, id);
      }
      OrdersOfRest(old(tasks), expiredIds);
    }
  }
}
