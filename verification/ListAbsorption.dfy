/** Lists absorb the text and reference blocks that lie in them. */
module ListAbsorption {
  import opened Options
  import opened Sorting
  import opened Blocks

  /** The blocks that lie in the box, or those that do not. */
  function Lying(blocks: seq<Block>, box: Box, inside: bool): seq<Block> {
    if blocks == [] then []
    else
      var before, last := Lying(blocks[..|blocks| - 1], box, inside), blocks[|blocks| - 1];
      if LiesIn(last.bbox, box) == inside then before + [last] else before
  }

  lemma {:induction false} LyingAppend(a: seq<Block>, b: seq<Block>, box: Box, inside: bool)
    ensures Lying(a + b, box, inside) == Lying(a, box, inside) + Lying(b, box, inside)
  {
    hide LiesIn;
    if b == [] {
      assert a + b == a;
    } else {
      var n := |b| - 1;
      LyingAppend(a, b[..n], box, inside);
      assert (a + b)[..|a + b| - 1] == a + b[..n];
    }
  }

  lemma {:induction false} NoneInside(blocks: seq<Block>, box: Box)
    requires forall i :: 0 <= i < |blocks| ==> !LiesIn(blocks[i].bbox, box)
    ensures Lying(blocks, box, false) == blocks
  {
    hide LiesIn;
    if blocks != [] {
      NoneInside(blocks[..|blocks| - 1], box);
    }
  }

  // ------------------------------------------------------- removal in place

  ghost predicate Positions(blocks: seq<Block>, box: Box, positions: seq<nat>, n: nat)
    requires n <= |blocks|
  {
    && (forall j, k :: 0 <= j < k < |positions| ==> positions[j] < positions[k])
    && (forall j :: 0 <= j < |positions| ==> positions[j] < n)
    && (forall i :: 0 <= i < n ==> (LiesIn(blocks[i].bbox, box) <==> i in positions))
  }

  /** Dropping the block at a matching position, when the blocks from `mid` on
      have been dealt with and none between matches. */
  lemma RemoveOne(blocks: seq<Block>, box: Box, at: nat, mid: nat)
    requires at < mid <= |blocks| && LiesIn(blocks[at].bbox, box)
    requires forall i :: at < i < mid ==> !LiesIn(blocks[i].bbox, box)
    ensures blocks[at + 1..mid] + Lying(blocks[mid..], box, false) == Lying(blocks[at..], box, false)
  {
    hide LiesIn;
    assert blocks[at..] == [blocks[at]] + (blocks[at + 1..mid] + blocks[mid..]);
    LyingAppend([blocks[at]], blocks[at + 1..mid] + blocks[mid..], box, false);
    LyingAppend(blocks[at + 1..mid], blocks[mid..], box, false);
    NoneInside(blocks[at + 1..mid], box);
  }

  /** Where the matching positions from the `k`-th on begin. */
  function Mark(positions: seq<nat>, k: nat, length: nat): nat
    requires k <= |positions|
  {
    if k == |positions| then length else positions[k]
  }

  lemma NoneBetween(blocks: seq<Block>, box: Box, positions: seq<nat>, k: nat)
    requires Positions(blocks, box, positions, |blocks|) && k <= |positions|
    ensures forall i :: (if k == 0 then 0 else positions[k - 1] + 1) <= i < Mark(positions, k, |blocks|) ==>
              !LiesIn(blocks[i].bbox, box)
  {
    hide LiesIn;
    forall i | (if k == 0 then 0 else positions[k - 1] + 1) <= i < Mark(positions, k, |blocks|)
      ensures i !in positions
    {
      forall j | 0 <= j < |positions|
        ensures positions[j] != i
      {
        assert j < k ==> positions[j] <= positions[k - 1];
        assert j >= k ==> positions[j] >= positions[k];
      }
    }
  }

  /** Collects the blocks lying in the box and removes them, last one first. */
  method Absorb(blocks: seq<Block>, box: Box) returns (taken: seq<Block>, left: seq<Block>)
    ensures taken == Lying(blocks, box, true) && left == Lying(blocks, box, false)
  {
    hide LiesIn, Lying;
    var remove: seq<nat> := [];
    taken := [];
    assert Lying(blocks[..0], box, true) == [] by { LyingNone(blocks[..0], box); }
    for i: nat := 0 to |blocks|
      invariant Positions(blocks, box, remove, i) && taken == Lying(blocks[..i], box, true)
    {
      LyingNext(blocks, box, i);
      if LiesIn(blocks[i].bbox, box) {
        taken := taken + [blocks[i]];
        remove := remove + [i];
      }
    }
    assert blocks[..|blocks|] == blocks;
    left := RemovePositions(blocks, box, remove);
  }

  method RemovePositions(blocks: seq<Block>, ghost box: Box, positions: seq<nat>) returns (left: seq<Block>)
    requires Positions(blocks, box, positions, |blocks|)
    ensures left == Lying(blocks, box, false)
  {
    hide LiesIn, Lying;
    left := blocks;
    LyingNone(blocks[|blocks|..], box);
    var k := |positions|;
    while k > 0
      invariant 0 <= k <= |positions|
      invariant left == blocks[..Mark(positions, k, |blocks|)] + Lying(blocks[Mark(positions, k, |blocks|)..], box, false)
    {
      k := k - 1;
      NoneBetween(blocks, box, positions, k + 1);
      RemoveOne(blocks, box, positions[k], Mark(positions, k + 1, |blocks|));
      assert positions[k] in positions;
      left := left[..positions[k]] + left[positions[k] + 1..];
    }
    NoneBetween(blocks, box, positions, 0);
    LyingTail(blocks, box, Mark(positions, 0, |blocks|));
  }

  lemma LyingTail(blocks: seq<Block>, box: Box, m: nat)
    requires m <= |blocks| && forall i :: 0 <= i < m ==> !LiesIn(blocks[i].bbox, box)
    ensures blocks[..m] + Lying(blocks[m..], box, false) == Lying(blocks, box, false)
  {
    hide LiesIn;
    NoneInside(blocks[..m], box);
    LyingAppend(blocks[..m], blocks[m..], box, false);
    assert blocks == blocks[..m] + blocks[m..];
  }

  lemma LyingNone(blocks: seq<Block>, box: Box)
    requires blocks == []
    ensures Lying(blocks, box, true) == [] && Lying(blocks, box, false) == []
  {
  }

  lemma LyingNext(blocks: seq<Block>, box: Box, i: nat)
    requires i < |blocks|
    ensures Lying(blocks[..i + 1], box, true)
         == Lying(blocks[..i], box, true) + if LiesIn(blocks[i].bbox, box) then [blocks[i]] else []
  {
    hide LiesIn;
    assert blocks[..i + 1][..i] == blocks[..i];
  }

  // ------------------------------------------------------- which list absorbs

  /** The first list the box lies in. */
  function Absorber(lists: seq<Block>, box: Box): (list: Option<nat>)
    ensures list.Some? ==> list.value < |lists| && LiesIn(box, lists[list.value].bbox)
    ensures list.None? ==> forall i :: 0 <= i < |lists| ==> !LiesIn(box, lists[i].bbox)
    ensures list.Some? ==> forall i :: 0 <= i < list.value ==> !LiesIn(box, lists[i].bbox)
  {
    if lists == [] then None
    else
      var n := |lists| - 1;
      var earlier := Absorber(lists[..n], box);
      if earlier.Some? then earlier else if LiesIn(box, lists[n].bbox) then Some(n) else None
  }

  /** The blocks absorbed by the given list, or by none. */
  function Taken(lists: seq<Block>, blocks: seq<Block>, list: Option<nat>): seq<Block> {
    if blocks == [] then []
    else
      var before, last := Taken(lists, blocks[..|blocks| - 1], list), blocks[|blocks| - 1];
      if Absorber(lists, last.bbox) == list then before + [last] else before
  }

  lemma AbsorberPrefix(lists: seq<Block>, i: nat, box: Box)
    requires i < |lists|
    ensures Absorber(lists, box) == Some(i) <==> Absorber(lists[..i], box).None? && LiesIn(box, lists[i].bbox)
    ensures Absorber(lists[..i + 1], box).None? <==> Absorber(lists[..i], box).None? && !LiesIn(box, lists[i].bbox)
  {
    hide LiesIn, Absorber;
    assert forall j :: 0 <= j < i ==> lists[..i][j] == lists[j];
    assert forall j :: 0 <= j <= i ==> lists[..i + 1][j] == lists[j];
  }

  lemma {:induction false} TakenStep(lists: seq<Block>, i: nat, blocks: seq<Block>)
    requires i < |lists|
    ensures Lying(Taken(lists[..i], blocks, None), lists[i].bbox, true) == Taken(lists, blocks, Some(i))
    ensures Lying(Taken(lists[..i], blocks, None), lists[i].bbox, false) == Taken(lists[..i + 1], blocks, None)
  {
    hide LiesIn, Absorber, Lying;
    if blocks == [] {
      LyingNone([], lists[i].bbox);
    } else {
      var n := |blocks| - 1;
      TakenStep(lists, i, blocks[..n]);
      AbsorberPrefix(lists, i, blocks[n].bbox);
      LyingSnoc(Taken(lists[..i], blocks[..n], None), blocks[n], lists[i].bbox);
      TakenSnoc(lists[..i], blocks, None);
      TakenSnoc(lists, blocks, Some(i));
      TakenSnoc(lists[..i + 1], blocks, None);
    }
  }

  lemma TakenSnoc(lists: seq<Block>, blocks: seq<Block>, list: Option<nat>)
    requires blocks != []
    ensures var n := |blocks| - 1;
            Taken(lists, blocks, list) == if Absorber(lists, blocks[n].bbox) == list
                                          then Taken(lists, blocks[..n], list) + [blocks[n]]
                                          else Taken(lists, blocks[..n], list)
  {
  }

  lemma LyingSnoc(blocks: seq<Block>, block: Block, box: Box)
    ensures Lying(blocks + [block], box, true)
         == if LiesIn(block.bbox, box) then Lying(blocks, box, true) + [block] else Lying(blocks, box, true)
    ensures Lying(blocks + [block], box, false)
         == if LiesIn(block.bbox, box) then Lying(blocks, box, false) else Lying(blocks, box, false) + [block]
  {
    hide LiesIn;
    assert (blocks + [block])[..|blocks|] == blocks;
  }

  lemma {:induction false} TakenByNone(blocks: seq<Block>)
    ensures Taken([], blocks, None) == blocks
  {
    if blocks != [] {
      TakenByNone(blocks[..|blocks| - 1]);
    }
  }

  /** A list with the blocks it absorbs, in index order; its own lines are dropped. */
  function Filled(lists: seq<Block>, i: nat, texts: seq<Block>, refs: seq<Block>): Block
    requires i < |lists|
  {
    var members := lists[i].blocks + Taken(lists, texts, Some(i)) + Taken(lists, refs, Some(i));
    lists[i].(lines := [], blocks := Sort(members, IndexOf))
  }

  /** The lists among the first `n` that hold something. */
  function Surviving(lists: seq<Block>, n: nat, texts: seq<Block>, refs: seq<Block>): seq<Block>
    requires n <= |lists|
  {
    if n == 0 then []
    else
      var before, list := Surviving(lists, n - 1, texts, refs), Filled(lists, n - 1, texts, refs);
      if list.blocks == [] then before else before + [list]
  }

  /** Every block goes to the first list it lies in; the others stay. */
  method FixListBlocks(lists: seq<Block>, texts: seq<Block>, refs: seq<Block>)
    returns (lists': seq<Block>, texts': seq<Block>, refs': seq<Block>)
    ensures lists' == Surviving(lists, |lists|, texts, refs)
    ensures texts' == Taken(lists, texts, None) && refs' == Taken(lists, refs, None)
  {
    hide LiesIn, Lying, Taken, Sort;
    TakenByNone(texts);
    TakenByNone(refs);
    texts', refs' := texts, refs;
    var filled := lists;
    assert lists[..0] == [];
    for i := 0 to |lists|
      invariant texts' == Taken(lists[..i], texts, None) && refs' == Taken(lists[..i], refs, None)
      invariant |filled| == |lists|
      invariant forall j :: 0 <= j < i ==> filled[j] == Filled(lists, j, texts, refs)
      invariant forall j :: i <= j < |lists| ==> filled[j] == lists[j]
    {
      TakenStep(lists, i, texts);
      TakenStep(lists, i, refs);
      var list := filled[i].(lines := []);
      var taken, left := Absorb(texts', list.bbox);
      list := list.(blocks := list.blocks + taken);
      texts' := left;
      taken, left := Absorb(refs', list.bbox);
      list := list.(blocks := list.blocks + taken);
      refs' := left;
      filled := filled[i := list.(blocks := Sort(list.blocks, IndexOf))];
    }
    assert lists[..|lists|] == lists;
    lists' := [];
    for i := 0 to |lists|
      invariant lists' == Surviving(lists, i, texts, refs)
    {
      if filled[i].blocks != [] {
        lists' := lists' + [filled[i]];
      }
    }
  }
}
