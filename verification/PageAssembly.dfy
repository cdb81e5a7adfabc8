/** Assembles the blocks of one page: groups, lists, text and margins. */
module PageAssembly {
  import opened Numbers
  import opened Options
  import opened Sorting
  import opened Blocks
  import opened Attachment
  import opened Regroup
  import opened ListAbsorption
  import opened PagePieces
  import opened PageParts

  // -------------------------------------------------------- which lists survive

  function Texts(blocks: seq<Block>): seq<Block> {
    OfCategory(blocks, Plain, |blocks|) + RetextAll(ChildrenOf(blocks, None, |blocks|))
  }

  function Refs(blocks: seq<Block>): seq<Block> {
    OfCategory(blocks, Reference, |blocks|)
  }

  /** Blocks that a list may absorb. */
  predicate Absorbable(blocks: seq<Block>, pos: nat)
    requires pos < |blocks|
  {
    CategoryOf(blocks[pos].kind) == Plain || CategoryOf(blocks[pos].kind) == Reference || ChildOf(blocks, pos, None)
  }

  ghost predicate HasBox(blocks: seq<Block>, box: Box) {
    exists i :: 0 <= i < |blocks| && blocks[i].bbox == box
  }

  lemma {:induction false} CategoryMember(blocks: seq<Block>, category: Category, n: nat, i: nat) returns (pos: nat)
    requires n <= |blocks| && i < |OfCategory(blocks, category, n)|
    ensures pos < n && CategoryOf(blocks[pos].kind) == category && blocks[pos] == OfCategory(blocks, category, n)[i]
  {
    hide CategoryOf;
    if i < |OfCategory(blocks, category, n - 1)| {
      pos := CategoryMember(blocks, category, n - 1, i);
    } else {
      pos := n - 1;
    }
  }

  lemma {:induction false} CategoryHolds(blocks: seq<Block>, category: Category, n: nat, pos: nat) returns (i: nat)
    requires n <= |blocks| && pos < n && CategoryOf(blocks[pos].kind) == category
    ensures i < |OfCategory(blocks, category, n)| && OfCategory(blocks, category, n)[i] == blocks[pos]
  {
    hide CategoryOf;
    if pos < n - 1 {
      i := CategoryHolds(blocks, category, n - 1, pos);
    } else {
      i := |OfCategory(blocks, category, n)| - 1;
    }
  }

  lemma {:induction false} LoneMember(blocks: seq<Block>, n: nat, i: nat) returns (pos: nat)
    requires n <= |blocks| && i < |RetextAll(ChildrenOf(blocks, None, n))|
    ensures pos < n && ChildOf(blocks, pos, None) && blocks[pos].bbox == RetextAll(ChildrenOf(blocks, None, n))[i].bbox
  {
    hide ChildOf;
    if ChildOf(blocks, n - 1, None) && i == |RetextAll(ChildrenOf(blocks, None, n))| - 1 {
      RetextSnoc(ChildrenOf(blocks, None, n - 1), blocks[n - 1]);
      pos := n - 1;
    } else {
      if ChildOf(blocks, n - 1, None) {
        RetextSnoc(ChildrenOf(blocks, None, n - 1), blocks[n - 1]);
      }
      pos := LoneMember(blocks, n - 1, i);
    }
  }

  lemma {:induction false} LoneHolds(blocks: seq<Block>, n: nat, pos: nat)
    requires n <= |blocks| && pos < n && ChildOf(blocks, pos, None)
    ensures HasBox(RetextAll(ChildrenOf(blocks, None, n)), blocks[pos].bbox)
  {
    hide ChildOf;
    var r := RetextAll(ChildrenOf(blocks, None, n));
    if ChildOf(blocks, n - 1, None) {
      var before := RetextAll(ChildrenOf(blocks, None, n - 1));
      RetextSnoc(ChildrenOf(blocks, None, n - 1), blocks[n - 1]);
      if pos < n - 1 {
        LoneHolds(blocks, n - 1, pos);
        var i :| 0 <= i < |before| && before[i].bbox == blocks[pos].bbox;
        assert r[i].bbox == blocks[pos].bbox;
      } else {
        assert r[|before|].bbox == blocks[pos].bbox;
      }
    } else {
      LoneHolds(blocks, n - 1, pos);
    }
  }

  /** The text and reference blocks have the boxes of the absorbable blocks. */
  lemma BoxesOut(blocks: seq<Block>, pos: nat)
    requires pos < |blocks| && Absorbable(blocks, pos)
    ensures HasBox(Texts(blocks), blocks[pos].bbox) || HasBox(Refs(blocks), blocks[pos].bbox)
  {
    hide CategoryOf, ChildOf, OfCategory, RetextAll, ChildrenOf;
    if CategoryOf(blocks[pos].kind) == Plain {
      var i := CategoryHolds(blocks, Plain, |blocks|, pos);
      assert Texts(blocks)[i].bbox == blocks[pos].bbox;
    } else if CategoryOf(blocks[pos].kind) == Reference {
      var i := CategoryHolds(blocks, Reference, |blocks|, pos);
      assert Refs(blocks)[i].bbox == blocks[pos].bbox;
    } else {
      LoneHolds(blocks, |blocks|, pos);
      var lone := RetextAll(ChildrenOf(blocks, None, |blocks|));
      var i :| 0 <= i < |lone| && lone[i].bbox == blocks[pos].bbox;
      assert Texts(blocks)[|OfCategory(blocks, Plain, |blocks|)| + i].bbox == blocks[pos].bbox;
    }
  }

  lemma BoxesIn(blocks: seq<Block>, box: Box) returns (pos: nat)
    requires HasBox(Texts(blocks), box) || HasBox(Refs(blocks), box)
    ensures pos < |blocks| && Absorbable(blocks, pos) && blocks[pos].bbox == box
  {
    hide CategoryOf, ChildOf, OfCategory, RetextAll, ChildrenOf;
    if HasBox(Refs(blocks), box) {
      var i :| 0 <= i < |Refs(blocks)| && Refs(blocks)[i].bbox == box;
      pos := CategoryMember(blocks, Reference, |blocks|, i);
    } else {
      var i :| 0 <= i < |Texts(blocks)| && Texts(blocks)[i].bbox == box;
      var plain := OfCategory(blocks, Plain, |blocks|);
      if i < |plain| {
        pos := CategoryMember(blocks, Plain, |blocks|, i);
      } else {
        pos := LoneMember(blocks, |blocks|, i - |plain|);
      }
    }
  }

  lemma {:induction false} TakenHolds(lists: seq<Block>, blocks: seq<Block>, list: nat)
    ensures Taken(lists, blocks, Some(list)) != []
       <==> exists i :: 0 <= i < |blocks| && Absorber(lists, blocks[i].bbox) == Some(list)
  {
    hide Absorber, LiesIn;
    if blocks != [] {
      var n := |blocks| - 1;
      TakenHolds(lists, blocks[..n], list);
      if i :| 0 <= i < |blocks| && Absorber(lists, blocks[i].bbox) == Some(list) {
        assert i < n ==> blocks[..n][i] == blocks[i];
      }
    }
  }

  lemma FilledHolds(lists: seq<Block>, i: nat, texts: seq<Block>, refs: seq<Block>)
    requires i < |lists| && lists[i].blocks == []
    ensures Filled(lists, i, texts, refs).blocks != []
       <==> Taken(lists, texts, Some(i)) != [] || Taken(lists, refs, Some(i)) != []
  {
    hide Sort, Taken;
    SortOrders(lists[i].blocks + Taken(lists, texts, Some(i)) + Taken(lists, refs, Some(i)), IndexOf);
  }

  ghost predicate Tells(lists: seq<Block>, blocks: seq<Block>, i: nat, pos: nat)
    requires pos < |blocks| && i < |lists|
  {
    Absorbable(blocks, pos) && Absorber(lists, blocks[pos].bbox) == Some(i)
  }

  /** A list holds something exactly when an absorbable block lies in it first. */
  lemma FilledTells(blocks: seq<Block>, i: nat)
    requires i < |ListsOf(blocks)| && ListsOf(blocks)[i].blocks == []
    ensures Filled(ListsOf(blocks), i, Texts(blocks), Refs(blocks)).blocks != []
       <==> exists pos: nat :: pos < |blocks| && Tells(ListsOf(blocks), blocks, i, pos)
  {
    hide Absorber, Absorbable, LiesIn, Texts, Refs, ListsOf, Filled, Taken;
    var lists, texts, refs := ListsOf(blocks), Texts(blocks), Refs(blocks);
    FilledHolds(lists, i, texts, refs);
    TakenHolds(lists, texts, i);
    TakenHolds(lists, refs, i);
    if j :| 0 <= j < |texts| && Absorber(lists, texts[j].bbox) == Some(i) {
      var pos := BoxesIn(blocks, texts[j].bbox);
      assert Tells(lists, blocks, i, pos);
    }
    if j :| 0 <= j < |refs| && Absorber(lists, refs[j].bbox) == Some(i) {
      var pos := BoxesIn(blocks, refs[j].bbox);
      assert Tells(lists, blocks, i, pos);
    }
    if pos: nat :| pos < |blocks| && Tells(lists, blocks, i, pos) {
      BoxesOut(blocks, pos);
    }
  }

  lemma AbsorbablePlace(blocks: seq<Block>, pos: nat)
    requires pos < |blocks| && Absorbable(blocks, pos)
    ensures FinalPlace(blocks, pos) == PlaceBy(ListsOf(blocks), blocks[pos])
  {
    hide ListsOf, PlaceBy, Candidate;
  }

  lemma OtherPlace(blocks: seq<Block>, pos: nat, list: nat)
    requires Numbered(blocks) && pos < |blocks| && list < |blocks| && blocks[list].kind.List? && !Absorbable(blocks, pos)
    ensures FinalPlace(blocks, pos) != In(blocks[list].index)
  {
    hide ListsOf, PlaceBy;
    assert forall q :: 0 <= q < list ==> IndexOf(blocks[q]) < IndexOf(blocks[list]);
    assert forall q :: list < q < |blocks| ==> IndexOf(blocks[list]) < IndexOf(blocks[q]);
  }

  lemma {:induction false} CategoryIncreasing(blocks: seq<Block>, category: Category, n: nat)
    requires Numbered(blocks) && n <= |blocks|
    ensures Increasing(OfCategory(blocks, category, n), IndexOf)
    ensures forall i :: 0 <= i < |OfCategory(blocks, category, n)| ==>
              n > 0 && OfCategory(blocks, category, n)[i].index <= blocks[n - 1].index
  {
    hide CategoryOf;
    if n > 0 {
      CategoryIncreasing(blocks, category, n - 1);
      assert n > 1 ==> IndexOf(blocks[n - 2]) < IndexOf(blocks[n - 1]);
    }
  }

  lemma PlaceOfList(lists: seq<Block>, block: Block, i: nat)
    requires Increasing(lists, IndexOf) && i < |lists|
    ensures PlaceBy(lists, block) == In(lists[i].index) <==> Absorber(lists, block.bbox) == Some(i)
  {
    hide LiesIn;
    match Absorber(lists, block.bbox)
    case None =>
    case Some(j) =>
      if j != i {
        assert IndexOf(lists[Min(i, j)]) < IndexOf(lists[Max(i, j)]);
      }
  }

  /** The declared meaning of absorbing agrees with the lists' contents. */
  lemma AbsorbsFilled(blocks: seq<Block>, pos: nat, i: nat)
    requires Numbered(blocks) && AllFlat(blocks) && pos < |blocks| && blocks[pos].kind.List?
    requires i < |ListsOf(blocks)| && ListsOf(blocks)[i] == blocks[pos]
    ensures Absorbs(blocks, pos) <==> Filled(ListsOf(blocks), i, Texts(blocks), Refs(blocks)).blocks != []
  {
    hide ListsOf, Texts, Refs, Filled, PlaceBy, FinalPlace, Absorbable, Absorber;
    var lists := ListsOf(blocks);
    FilledTells(blocks, i);
    ListsIncreasing(blocks);
    forall q: nat | q < |blocks|
      ensures FinalPlace(blocks, q) == In(blocks[pos].index) <==> Tells(lists, blocks, i, q)
    {
      if Absorbable(blocks, q) {
        AbsorbablePlace(blocks, q);
        PlaceOfList(lists, blocks[q], i);
      } else {
        OtherPlace(blocks, q, pos);
      }
    }
  }

  lemma ListsIncreasing(blocks: seq<Block>)
    requires Numbered(blocks)
    ensures Increasing(ListsOf(blocks), IndexOf)
  {
    CategoryIncreasing(blocks, Listing, |blocks|);
  }

  lemma {:induction false} CategoryPrefix(blocks: seq<Block>, category: Category, n: nat, m: nat)
    requires n <= m <= |blocks|
    ensures OfCategory(blocks, category, n) <= OfCategory(blocks, category, m)
  {
    hide CategoryOf;
    if n < m {
      CategoryPrefix(blocks, category, n, m - 1);
    }
  }

  lemma ListPieceStep(blocks: seq<Block>, n: nat)
    requires Numbered(blocks) && AllFlat(blocks) && 0 < n <= |blocks| && CategoryOf(blocks[n - 1].kind) == Listing
    ensures var k := |OfCategory(blocks, Listing, n)|;
            && 0 < k <= |ListsOf(blocks)|
            && ListPieces(ListsOf(blocks), k, Texts(blocks), Refs(blocks))
            == ListPieces(ListsOf(blocks), k - 1, Texts(blocks), Refs(blocks)) + FinalPiece(blocks, n - 1)
  {
    hide Filled, Texts, Refs, One, Absorbs;
    CategoryPrefix(blocks, Listing, n, |blocks|);
    var k := |OfCategory(blocks, Listing, n)|;
    assert ListsOf(blocks)[k - 1] == blocks[n - 1];
    AbsorbsFilled(blocks, n - 1, k - 1);
  }

  /** The surviving lists are the listing part of the page. */
  lemma {:induction false} ListingPart(blocks: seq<Block>, n: nat)
    requires Numbered(blocks) && AllFlat(blocks) && n <= |blocks|
    ensures |OfCategory(blocks, Listing, n)| <= |ListsOf(blocks)|
    ensures ListPieces(ListsOf(blocks), |OfCategory(blocks, Listing, n)|, Texts(blocks), Refs(blocks))
         == Part(blocks, Listing, n)
  {
    hide Filled, Texts, Refs, One, FinalPiece, CategoryOf;
    CategoryPrefix(blocks, Listing, n, |blocks|);
    if n > 0 {
      ListingPart(blocks, n - 1);
      if CategoryOf(blocks[n - 1].kind) == Listing {
        ListPieceStep(blocks, n);
      }
    }
  }
}
