/** The parts of a page: what its groups, lists and remaining blocks hold. */
module PageParts {
  import opened Options
  import opened Sorting
  import opened Blocks
  import opened Attachment
  import opened Regroup
  import opened ListAbsorption
  import opened PagePieces

  ghost predicate AllFlat(blocks: seq<Block>) {
    forall i :: 0 <= i < |blocks| ==> blocks[i].blocks == []
  }

  // ------------------------------------------------------ blocks left as they are

  /** Only main blocks and children change their type, and only lists their lines. */
  lemma PieceKept(blocks: seq<Block>, pos: nat)
    requires pos < |blocks| && CategoryOf(blocks[pos].kind) !in {Main, Child, Listing}
    ensures FinalPiece(blocks, pos) == One(FinalPlace(blocks, pos), blocks[pos])
  {
    hide FinalPlace, One, Absorbs;
    assert FinalKind(blocks, pos) == blocks[pos].kind;
    assert blocks[pos].(kind := blocks[pos].kind) == blocks[pos];
  }

  lemma {:induction false} PlainPart(blocks: seq<Block>, category: Category, place: Place, n: nat)
    requires n <= |blocks|
    requires (category in {TitleLike, Sound, Formula} && place == TopLevel) || (category == Margin && place == Discarded)
    ensures Flat(place, OfCategory(blocks, category, n)) == Part(blocks, category, n)
  {
    hide One, PlaceBy, FinalPiece, CategoryOf;
    if n > 0 {
      PlainPart(blocks, category, place, n - 1);
      if CategoryOf(blocks[n - 1].kind) == category {
        FlatSnoc(place, OfCategory(blocks, category, n - 1), blocks[n - 1]);
        PieceKept(blocks, n - 1);
      }
    }
  }

  // ------------------------------------------------------ blocks lists may absorb

  /** The pieces of blocks each at the list that absorbs it, or at the top. */
  function Placed(lists: seq<Block>, blocks: seq<Block>): multiset<Piece> {
    if blocks == [] then multiset{}
    else
      var last := blocks[|blocks| - 1];
      Placed(lists, blocks[..|blocks| - 1]) + One(PlaceBy(lists, last), last)
  }

  lemma PlacedSnoc(lists: seq<Block>, blocks: seq<Block>, block: Block)
    ensures Placed(lists, blocks + [block]) == Placed(lists, blocks) + One(PlaceBy(lists, block), block)
  {
    hide One, PlaceBy;
    assert (blocks + [block])[..|blocks|] == blocks;
  }

  lemma {:induction false} PlacedAppend(lists: seq<Block>, a: seq<Block>, b: seq<Block>)
    ensures Placed(lists, a + b) == Placed(lists, a) + Placed(lists, b)
  {
    hide One, PlaceBy;
    if b == [] {
      assert a + b == a;
    } else {
      var n := |b| - 1;
      PlacedAppend(lists, a, b[..n]);
      PlacedSnoc(lists, a + b[..n], b[n]);
      assert a + b == a + b[..n] + [b[n]];
    }
  }

  lemma {:induction false} PlacedPart(blocks: seq<Block>, category: Category, n: nat)
    requires n <= |blocks| && (category == Plain || category == Reference)
    ensures Placed(ListsOf(blocks), OfCategory(blocks, category, n)) == Part(blocks, category, n)
  {
    hide One, PlaceBy, ListsOf, FinalPiece, CategoryOf;
    if n > 0 {
      PlacedPart(blocks, category, n - 1);
      if CategoryOf(blocks[n - 1].kind) == category {
        PlacedSnoc(ListsOf(blocks), OfCategory(blocks, category, n - 1), blocks[n - 1]);
        PieceKept(blocks, n - 1);
      }
    }
  }

  /** The pieces of the blocks absorbed by the first `n` lists. */
  function TakenSum(lists: seq<Block>, blocks: seq<Block>, n: nat): multiset<Piece>
    requires n <= |lists|
  {
    if n == 0 then multiset{}
    else TakenSum(lists, blocks, n - 1) + Flat(In(lists[n - 1].index), Taken(lists, blocks, Some(n - 1)))
  }

  lemma {:induction false} TakenSumSnoc(lists: seq<Block>, blocks: seq<Block>, n: nat)
    requires n <= |lists| && blocks != []
    ensures var last := blocks[|blocks| - 1];
            var list := Absorber(lists, last.bbox);
            TakenSum(lists, blocks, n) == TakenSum(lists, blocks[..|blocks| - 1], n)
              + if list.Some? && list.value < n then One(In(lists[list.value].index), last) else multiset{}
  {
    hide One, Absorber, LiesIn, Taken, Flat;
    if n > 0 {
      TakenSumSnoc(lists, blocks, n - 1);
      TakenSnoc(lists, blocks, Some(n - 1));
      FlatSnoc(In(lists[n - 1].index), Taken(lists, blocks[..|blocks| - 1], Some(n - 1)), blocks[|blocks| - 1]);
    }
  }

  /** Every block is absorbed by one list or stays. */
  lemma {:induction false} PlacedSplit(lists: seq<Block>, blocks: seq<Block>)
    ensures Placed(lists, blocks) == Flat(TopLevel, Taken(lists, blocks, None)) + TakenSum(lists, blocks, |lists|)
  {
    hide One, LiesIn;
    if blocks == [] {
      NothingTaken(lists, |lists|);
    } else {
      var n := |blocks| - 1;
      PlacedSplit(lists, blocks[..n]);
      TakenSumSnoc(lists, blocks, |lists|);
      TakenSnoc(lists, blocks, None);
      FlatSnoc(TopLevel, Taken(lists, blocks[..n], None), blocks[n]);
    }
  }

  lemma {:induction false} NothingTaken(lists: seq<Block>, n: nat)
    requires n <= |lists|
    ensures TakenSum(lists, [], n) == multiset{}
  {
    if n > 0 {
      NothingTaken(lists, n - 1);
    }
  }

  // ----------------------------------------------------------------- children

  function RetextAll(blocks: seq<Block>): seq<Block> {
    if blocks == [] then [] else RetextAll(blocks[..|blocks| - 1]) + [blocks[|blocks| - 1].(kind := Text)]
  }

  lemma RetextSnoc(blocks: seq<Block>, block: Block)
    ensures RetextAll(blocks + [block]) == RetextAll(blocks) + [block.(kind := Text)]
  {
    assert (blocks + [block])[..|blocks|] == blocks;
  }

  lemma AttachSnoc(visual: Visual, blocks: seq<Block>, block: Block)
    ensures AttachAll(visual, blocks + [block]) == AttachAll(visual, blocks) + [Attach(visual, block)]
  {
    assert (blocks + [block])[..|blocks|] == blocks;
  }

  /** The pieces of the children, among the first `m` blocks, of one main block. */
  function MatchedAt(blocks: seq<Block>, main: nat, m: nat): multiset<Piece>
    requires m <= |blocks| && main < |blocks|
  {
    if blocks[main].kind.IsMain()
    then Flat(In(blocks[main].index), AttachAll(blocks[main].kind.GroupVisual(), ChildrenOf(blocks, Some(main), m)))
    else multiset{}
  }

  function Matched(blocks: seq<Block>, m: nat, n: nat): multiset<Piece>
    requires m <= |blocks| && n <= |blocks|
  {
    if n == 0 then multiset{} else Matched(blocks, m, n - 1) + MatchedAt(blocks, n - 1, m)
  }

  lemma MatchedAtStep(blocks: seq<Block>, main: nat, m: nat)
    requires 0 < m <= |blocks| && main < |blocks|
    ensures MatchedAt(blocks, main, m) == MatchedAt(blocks, main, m - 1)
              + if ChildOf(blocks, m - 1, Some(main)) then FinalPiece(blocks, m - 1) else multiset{}
  {
    hide One, Candidate, ParentOf, ListsOf, PlaceBy;
    if ChildOf(blocks, m - 1, Some(main)) {
      ParentIsMain(blocks, m - 1, main);
      var visual, before := blocks[main].kind.GroupVisual(), ChildrenOf(blocks, Some(main), m - 1);
      AttachSnoc(visual, before, blocks[m - 1]);
      FlatSnoc(In(blocks[main].index), AttachAll(visual, before), Attach(visual, blocks[m - 1]));
    }
  }

  lemma ParentIsMain(blocks: seq<Block>, child: nat, main: nat)
    requires child < |blocks| && ParentOf(blocks, child) == Some(main)
    ensures main < |blocks| && blocks[main].kind.IsMain()
  {
  }

  lemma {:induction false} MatchedStep(blocks: seq<Block>, m: nat, n: nat)
    requires 0 < m <= |blocks| && n <= |blocks|
    ensures Matched(blocks, m, n) == Matched(blocks, m - 1, n)
              + if blocks[m - 1].kind.IsChild() && ParentOf(blocks, m - 1).Some? && ParentOf(blocks, m - 1).value < n
                then FinalPiece(blocks, m - 1) else multiset{}
  {
    hide MatchedAt, FinalPiece, Candidate, ParentOf;
    if n > 0 {
      MatchedStep(blocks, m, n - 1);
      MatchedAtStep(blocks, n - 1, m);
    }
  }

  lemma LoneChildPiece(blocks: seq<Block>, pos: nat)
    requires pos < |blocks| && ChildOf(blocks, pos, None)
    ensures var child := blocks[pos].(kind := Text);
            FinalPiece(blocks, pos) == One(PlaceBy(ListsOf(blocks), child), child)
  {
    hide Candidate, ParentOf, One, ListsOf, PlaceBy;
    SamePlace(ListsOf(blocks), blocks[pos], Text);
  }

  lemma LoneStep(blocks: seq<Block>, m: nat)
    requires 0 < m <= |blocks|
    ensures Placed(ListsOf(blocks), RetextAll(ChildrenOf(blocks, None, m)))
         == Placed(ListsOf(blocks), RetextAll(ChildrenOf(blocks, None, m - 1)))
              + if ChildOf(blocks, m - 1, None) then FinalPiece(blocks, m - 1) else multiset{}
  {
    hide ChildOf, One, ListsOf, PlaceBy, FinalPiece, RetextAll, Placed;
    if ChildOf(blocks, m - 1, None) {
      var before := ChildrenOf(blocks, None, m - 1);
      LoneChildPiece(blocks, m - 1);
      RetextSnoc(before, blocks[m - 1]);
      PlacedSnoc(ListsOf(blocks), RetextAll(before), blocks[m - 1].(kind := Text));
    }
  }

  lemma LoneOrMatched(blocks: seq<Block>, pos: nat)
    requires pos < |blocks|
    ensures CategoryOf(blocks[pos].kind) == Child <==> blocks[pos].kind.IsChild()
    ensures ParentOf(blocks, pos).Some? ==> ParentOf(blocks, pos).value < |blocks|
    ensures ChildOf(blocks, pos, None) <==> blocks[pos].kind.IsChild() && ParentOf(blocks, pos).None?
  {
  }

  /** Every child is with its parent, or among the text blocks. */
  lemma {:induction false} ChildPart(blocks: seq<Block>, m: nat, p: Piece)
    requires m <= |blocks|
    ensures Part(blocks, Child, m)[p]
         == Matched(blocks, m, |blocks|)[p] + Placed(ListsOf(blocks), RetextAll(ChildrenOf(blocks, None, m)))[p]
  {
    hide *;
    if m == 0 {
      NoChildren(blocks, p);
    } else {
      ChildPart(blocks, m - 1, p);
      PartStep(blocks, Child, m, p);
      MatchedStep(blocks, m, |blocks|);
      LoneStep(blocks, m);
      LoneOrMatched(blocks, m - 1);
    }
  }

  lemma NoChildren(blocks: seq<Block>, p: Piece)
    ensures Part(blocks, Child, 0)[p] == 0 && Matched(blocks, 0, |blocks|)[p] == 0
    ensures Placed(ListsOf(blocks), RetextAll(ChildrenOf(blocks, None, 0)))[p] == 0
  {
    NothingMatched(blocks, |blocks|);
  }

  lemma SamePlace(lists: seq<Block>, block: Block, kind: Kind)
    ensures PlaceBy(lists, block.(kind := kind)) == PlaceBy(lists, block)
  {
  }

  lemma {:induction false} NothingMatched(blocks: seq<Block>, n: nat)
    requires n <= |blocks|
    ensures Matched(blocks, 0, n) == multiset{}
  {
    if n > 0 {
      NothingMatched(blocks, n - 1);
    }
  }

  // ------------------------------------------------------------------- groups

  lemma {:induction false} ChildrenSorted(blocks: seq<Block>, parent: Option<nat>, n: nat)
    requires Numbered(blocks) && n <= |blocks|
    ensures Increasing(ChildrenOf(blocks, parent, n), IndexOf)
    ensures forall i :: 0 <= i < |ChildrenOf(blocks, parent, n)| ==>
              n > 0 && ChildrenOf(blocks, parent, n)[i].index <= blocks[n - 1].index
  {
    hide ChildOf;
    if n > 0 {
      ChildrenSorted(blocks, parent, n - 1);
      assert n > 1 ==> IndexOf(blocks[n - 2]) < IndexOf(blocks[n - 1]);
    }
  }

  lemma GroupPieces(blocks: seq<Block>, main: nat)
    requires Numbered(blocks) && main < |blocks| && blocks[main].kind.IsMain()
    ensures Pieces(TopLevel, GroupAt(blocks, main)) == FinalPiece(blocks, main) + MatchedAt(blocks, main, |blocks|)
  {
    hide One, ChildrenOf, Flat, Sort, AttachAll;
    var visual, children := blocks[main].kind.GroupVisual(), ChildrenOf(blocks, Some(main), |blocks|);
    ChildrenSorted(blocks, Some(main), |blocks|);
    SortOfSorted(children, IndexOf);
    var body, place := blocks[main].(kind := Body(visual)), In(blocks[main].index);
    FlatSort(place, [body] + AttachAll(visual, children));
    FlatAppend(place, [body], AttachAll(visual, children));
    FlatOne(place, body);
    SortOrders([body] + AttachAll(visual, children), IndexOf);
  }

  lemma FlatOne(place: Place, block: Block)
    ensures Flat(place, [block]) == One(place, block)
  {
    FlatSnoc(place, [], block);
    assert [] + [block] == [block];
  }

  /** All groups together hold the main blocks and the children with a parent. */
  lemma {:induction false} GroupsPart(blocks: seq<Block>, n: nat, p: Piece)
    requires Numbered(blocks) && n <= |blocks|
    ensures Bag(TopLevel, Groups(blocks, Image, n))[p] + Bag(TopLevel, Groups(blocks, Table, n))[p]
            + Bag(TopLevel, Groups(blocks, Chart, n))[p] + Bag(TopLevel, Groups(blocks, Code, n))[p]
         == Part(blocks, Main, n)[p] + Matched(blocks, |blocks|, n)[p]
  {
    hide Pieces, GroupAt, FinalPiece, MatchedAt, Bag;
    if n == 0 {
      NoGroups(TopLevel);
    } else {
      GroupsPart(blocks, n - 1, p);
      GroupsStep(blocks, Image, n);
      GroupsStep(blocks, Table, n);
      GroupsStep(blocks, Chart, n);
      GroupsStep(blocks, Code, n);
      if blocks[n - 1].kind.IsMain() {
        GroupPieces(blocks, n - 1);
      } else {
        NotMatched(blocks, n - 1, |blocks|);
      }
    }
  }

  lemma NotMatched(blocks: seq<Block>, main: nat, m: nat)
    requires m <= |blocks| && main < |blocks| && !blocks[main].kind.IsMain()
    ensures MatchedAt(blocks, main, m) == multiset{}
  {
  }

  lemma NoGroups(place: Place)
    ensures Bag(place, []) == multiset{}
  {
  }

  lemma GroupsStep(blocks: seq<Block>, visual: Visual, n: nat)
    requires 0 < n <= |blocks|
    ensures Bag(TopLevel, Groups(blocks, visual, n)) == Bag(TopLevel, Groups(blocks, visual, n - 1))
              + if Heads(blocks, n - 1, visual) then Pieces(TopLevel, GroupAt(blocks, n - 1)) else multiset{}
  {
    hide Pieces, GroupAt;
    if Heads(blocks, n - 1, visual) {
      BagSnoc(TopLevel, Groups(blocks, visual, n - 1), GroupAt(blocks, n - 1));
    }
  }

  // -------------------------------------------------------------------- lists

  /** The pieces of the lists, among the first `n`, that hold something. */
  function ListPieces(lists: seq<Block>, n: nat, texts: seq<Block>, refs: seq<Block>): multiset<Piece>
    requires n <= |lists|
  {
    if n == 0 then multiset{}
    else
      var before := ListPieces(lists, n - 1, texts, refs);
      if Filled(lists, n - 1, texts, refs).blocks == [] then before
      else before + One(TopLevel, lists[n - 1].(lines := []))
  }

  lemma FilledPieces(lists: seq<Block>, i: nat, texts: seq<Block>, refs: seq<Block>)
    requires i < |lists| && lists[i].blocks == [] && lists[i].kind.List?
    ensures var list, place := Filled(lists, i, texts, refs), In(lists[i].index);
            && (list.blocks != [] ==>
                  Pieces(TopLevel, list) == One(TopLevel, lists[i].(lines := []))
                    + (Flat(place, Taken(lists, texts, Some(i))) + Flat(place, Taken(lists, refs, Some(i)))))
            && (list.blocks == [] ==> Taken(lists, texts, Some(i)) == [] && Taken(lists, refs, Some(i)) == [])
  {
    hide Flat, Sort, Taken;
    var place, t, r := In(lists[i].index), Taken(lists, texts, Some(i)), Taken(lists, refs, Some(i));
    assert [] + t + r == t + r;
    FlatAppend(place, t, r);
    FlatSort(place, t + r);
    SortOrders(t + r, IndexOf);
  }

  lemma ListsStep(lists: seq<Block>, n: nat, texts: seq<Block>, refs: seq<Block>)
    requires 0 < n <= |lists| && lists[n - 1].blocks == [] && lists[n - 1].kind.List?
    ensures var list, place := Filled(lists, n - 1, texts, refs), In(lists[n - 1].index);
            Bag(TopLevel, Surviving(lists, n, texts, refs)) == Bag(TopLevel, Surviving(lists, n - 1, texts, refs))
              + ((if list.blocks == [] then multiset{} else One(TopLevel, lists[n - 1].(lines := [])))
                 + (Flat(place, Taken(lists, texts, Some(n - 1))) + Flat(place, Taken(lists, refs, Some(n - 1)))))
  {
    hide Pieces, Filled, Flat, Taken, One;
    FilledPieces(lists, n - 1, texts, refs);
    var list := Filled(lists, n - 1, texts, refs);
    if list.blocks == [] {
      FlatNone(In(lists[n - 1].index));
    } else {
      BagSnoc(TopLevel, Surviving(lists, n - 1, texts, refs), list);
    }
  }

  lemma {:induction false} ListsPart(lists: seq<Block>, n: nat, texts: seq<Block>, refs: seq<Block>, p: Piece)
    requires n <= |lists| && forall i :: 0 <= i < |lists| ==> lists[i].blocks == [] && lists[i].kind.List?
    ensures Bag(TopLevel, Surviving(lists, n, texts, refs))[p]
         == ListPieces(lists, n, texts, refs)[p] + TakenSum(lists, texts, n)[p] + TakenSum(lists, refs, n)[p]
  {
    hide Pieces, Filled, Flat, Taken, Bag, One, Surviving;
    if n == 0 {
      NoLists(lists, texts, refs);
    } else {
      ListsPart(lists, n - 1, texts, refs, p);
      ListsStep(lists, n, texts, refs);
    }
  }

  lemma NoLists(lists: seq<Block>, texts: seq<Block>, refs: seq<Block>)
    ensures Bag(TopLevel, Surviving(lists, 0, texts, refs)) == multiset{}
  {
  }

  lemma FlatNone(place: Place)
    ensures Flat(place, []) == multiset{}
  {
  }
}
