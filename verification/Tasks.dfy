/** The task table: entries, their status changes, queue ranks and expiry. */
module Tasks {
  import opened Options
  import opened Sums

  datatype Status = Pending | Processing | Completed | Failed {
    predicate IsTerminal() {
      Completed? || Failed?
    }
  }

  /** What the table keeps of a task. Times are in arbitrary ticks. */
  datatype Entry = Entry(
    status: Status, fileNames: seq<string>, outputDir: string, submitOrder: nat,
    startedAt: Option<int>, completedAt: Option<int>, error: Option<string>)

  type Table = map<nat, Entry>

  function NewEntry(order: nat, fileNames: seq<string>, outputDir: string): Entry {
    Entry(Pending, fileNames, outputDir, order, None, None, None)
  }

  function WithProcessing(tasks: Table, id: nat, now: int): Table {
    if id in tasks then tasks[id := tasks[id].(status := Processing, startedAt := Some(now), error := None)] else tasks
  }

  function WithCompleted(tasks: Table, id: nat, fileNames: seq<string>, now: int): Table {
    if id in tasks
    then tasks[id := tasks[id].(status := Completed, fileNames := fileNames, completedAt := Some(now))]
    else tasks
  }

  function WithFailed(tasks: Table, id: nat, error: string, now: int): Table {
    if id in tasks
    then tasks[id := tasks[id].(status := Failed, error := Some(error), completedAt := Some(now))]
    else tasks
  }

  /** The tasks a cleanup at time `now` takes out of the table. */
  function Expired(tasks: Table, readers: map<nat, int>, retention: nat, now: int): set<nat> {
    if retention == 0 then {}
    else set id | id in tasks && tasks[id].status.IsTerminal() && !(id in readers && readers[id] > 0)
                  && tasks[id].completedAt.Some? && now - tasks[id].completedAt.value >= retention
  }

  lemma ExpiredInTable(tasks: Table, readers: map<nat, int>, retention: nat, now: int)
    ensures Expired(tasks, readers, retention, now) <= tasks.Keys
  {
  }

  /** Exactly the completed or failed tasks that nobody reads and that have been so
      for the retention time, if there is one. */
  lemma ExpiredMeans(tasks: Table, readers: map<nat, int>, retention: nat, now: int, id: nat)
    ensures id in Expired(tasks, readers, retention, now)
       <==> && retention > 0 && id in tasks && (tasks[id].status == Completed || tasks[id].status == Failed)
            && (id in readers ==> readers[id] <= 0)
            && tasks[id].completedAt.Some? && tasks[id].completedAt.value + retention <= now
  {
  }

  /** The sequence lists each member of the set once. */
  ghost predicate IsListing(ids: seq<nat>, members: set<nat>) {
    && (forall i, j :: 0 <= i < j < |ids| ==> ids[i] != ids[j])
    && (forall id :: id in ids <==> id in members)
  }

  lemma ListingGrows(ids: seq<nat>, members: set<nat>, id: nat)
    requires IsListing(ids, members) && id !in members
    ensures IsListing(ids + [id], members + {id})
  {
    assert forall i :: 0 <= i < |ids| ==> ids[i] in ids;
  }

  // -------------------------------------------------------------- queue rank

  function PendingTasks(tasks: Table): set<nat> {
    set id | id in tasks && tasks[id].status == Pending
  }

  /** How many pending tasks were submitted before this one. */
  function QueuedAhead(tasks: Table, id: nat): Option<nat> {
    if id !in tasks then None
    else if tasks[id].status != Pending then Some(0)
    else Some(|Ahead(tasks, id)|)
  }

  function Ahead(tasks: Table, id: nat): set<nat>
    requires id in tasks
  {
    set other | other in tasks && other != id && tasks[other].status == Pending
                && 0 < tasks[other].submitOrder < tasks[id].submitOrder
  }

  lemma CountOneMore(ids: set<nat>, seen: set<nat>, id: nat)
    requires id !in seen
    ensures |ids * (seen + {id})| == |ids * seen| + if id in ids then 1 else 0
  {
    assert ids * (seen + {id}) == ids * seen + if id in ids then {id} else {};
  }

  /** Orders are assigned from one and are never shared. */
  ghost predicate OrdersDistinct(tasks: Table) {
    && (forall id :: id in tasks ==> tasks[id].submitOrder > 0)
    && forall a, b :: a in tasks && b in tasks && a != b ==> tasks[a].submitOrder != tasks[b].submitOrder
  }

  lemma OrdersKept(tasks: Table, id: nat, entry: Entry)
    requires OrdersDistinct(tasks) && id in tasks && entry.submitOrder == tasks[id].submitOrder
    ensures OrdersDistinct(tasks[id := entry])
  {
  }

  lemma OrdersOfRest(tasks: Table, ids: set<nat>)
    requires OrdersDistinct(tasks)
    ensures OrdersDistinct(tasks - ids)
  {
  }

  function Orders(tasks: Table): map<nat, nat> {
    map id | id in tasks :: tasks[id].submitOrder
  }

  /** The members of `ids` with a smaller order than `id`. */
  function Below(ids: set<nat>, order: map<nat, nat>, id: nat): set<nat>
    requires ids <= order.Keys && id in order
  {
    set other | other in ids && order[other] < order[id]
  }

  ghost predicate Injective(ids: set<nat>, order: map<nat, nat>)
    requires ids <= order.Keys
  {
    forall a, b :: a in ids && b in ids && a != b ==> order[a] != order[b]
  }

  lemma {:induction false} Last(ids: set<nat>, order: map<nat, nat>) returns (top: nat)
    requires ids != {} && ids <= order.Keys
    ensures top in ids && forall id :: id in ids ==> order[id] <= order[top]
  {
    var x :| x in ids;
    if ids == {x} {
      top := x;
    } else {
      var y := Last(ids - {x}, order);
      top := if order[y] < order[x] then x else y;
    }
  }

  lemma {:induction false} RankOnto(ids: set<nat>, order: map<nat, nat>, k: nat) returns (id: nat)
    requires ids <= order.Keys && Injective(ids, order) && k < |ids|
    ensures id in ids && |Below(ids, order, id)| == k
    decreases |ids|
  {
    var top := Last(ids, order);
    var rest := ids - {top};
    if k == |ids| - 1 {
      id := top;
      assert Below(ids, order, top) == rest;
    } else {
      id := RankOnto(rest, order, k);
      assert Below(ids, order, id) == Below(rest, order, id);
    }
  }

  lemma RankStrict(ids: set<nat>, order: map<nat, nat>, a: nat, b: nat)
    requires ids <= order.Keys && a in ids && b in ids && order[a] < order[b]
    ensures |Below(ids, order, a)| < |Below(ids, order, b)| < |ids|
  {
    assert a in Below(ids, order, b) && a !in Below(ids, order, a);
    assert b in ids && b !in Below(ids, order, b);
    SubsetSize(Below(ids, order, a), Below(ids, order, b));
    SubsetSize(Below(ids, order, b), ids);
  }

  lemma AheadIsBelow(tasks: Table, id: nat)
    requires OrdersDistinct(tasks) && id in PendingTasks(tasks)
    ensures QueuedAhead(tasks, id) == Some(|Below(PendingTasks(tasks), Orders(tasks), id)|)
  {
    assert Ahead(tasks, id) == Below(PendingTasks(tasks), Orders(tasks), id);
  }

  /** With `p` tasks pending, `queued_ahead` is a bijection between them and 0..p-1. */
  ghost predicate RanksBijective(tasks: Table) {
    var pending := PendingTasks(tasks);
    && (forall id :: id in pending ==> QueuedAhead(tasks, id).Some? && QueuedAhead(tasks, id).value < |pending|)
    && (forall a, b :: a in pending && b in pending && a != b ==> QueuedAhead(tasks, a) != QueuedAhead(tasks, b))
    && (forall k: nat :: k < |pending| ==> exists id :: id in pending && QueuedAhead(tasks, id) == Some(k))
  }

  lemma QueueRankBijection(tasks: Table)
    requires OrdersDistinct(tasks)
    ensures RanksBijective(tasks)
  {
    var pending, order := PendingTasks(tasks), Orders(tasks);
    forall id | id in pending
      ensures QueuedAhead(tasks, id).Some? && QueuedAhead(tasks, id).value < |pending|
    {
      AheadIsBelow(tasks, id);
      assert id !in Below(pending, order, id);
      SubsetSize(Below(pending, order, id), pending);
    }
    forall a, b | a in pending && b in pending && a != b
      ensures QueuedAhead(tasks, a) != QueuedAhead(tasks, b)
    {
      AheadIsBelow(tasks, a);
      AheadIsBelow(tasks, b);
      if order[a] < order[b] {
        RankStrict(pending, order, a, b);
      } else {
        RankStrict(pending, order, b, a);
      }
    }
    forall k: nat | k < |pending|
      ensures exists id :: id in pending && QueuedAhead(tasks, id) == Some(k)
    {
      var id := RankOnto(pending, order, k);
      AheadIsBelow(tasks, id);
    }
  }
}
