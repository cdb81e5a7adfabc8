/** The blocks of a page in order, and what every page keeps of its blocks. */
module PageOrder {
  import opened Options
  import opened Sorting
  import opened Blocks
  import opened Attachment
  import opened Regroup
  import opened ListAbsorption
  import opened PagePieces
  import opened PageParts
  import opened PageAssembly

  /** All blocks of the page body, before they are put in order. */
  function PageBody(blocks: seq<Block>): seq<Block> {
    var n, lists := |blocks|, ListsOf(blocks);
    Sort(Groups(blocks, Image, n), IndexOf) + Sort(Groups(blocks, Table, n), IndexOf)
    + Sort(Groups(blocks, Chart, n), IndexOf) + Sort(Groups(blocks, Code, n), IndexOf)
    + Taken(lists, Refs(blocks), None) + OfCategory(blocks, Sound, n) + OfCategory(blocks, TitleLike, n)
    + Taken(lists, Texts(blocks), None) + OfCategory(blocks, Formula, n)
    + Surviving(lists, |lists|, Texts(blocks), Refs(blocks))
  }

  function Margins(blocks: seq<Block>): seq<Block> {
    OfCategory(blocks, Margin, |blocks|)
  }

  // ------------------------------------------------------------- conservation

  lemma BagOfSum(a: seq<Block>, b: seq<Block>, p: Piece)
    ensures Bag(TopLevel, a + b)[p] == Bag(TopLevel, a)[p] + Bag(TopLevel, b)[p]
  {
    hide Bag;
    BagAppend(TopLevel, a, b);
  }

  lemma BagOfBody(blocks: seq<Block>, p: Piece)
    ensures var n, lists := |blocks|, ListsOf(blocks);
            Bag(TopLevel, PageBody(blocks))[p] ==
            Bag(TopLevel, Groups(blocks, Image, n))[p] + Bag(TopLevel, Groups(blocks, Table, n))[p]
            + Bag(TopLevel, Groups(blocks, Chart, n))[p] + Bag(TopLevel, Groups(blocks, Code, n))[p]
            + Bag(TopLevel, Taken(lists, Refs(blocks), None))[p] + Bag(TopLevel, OfCategory(blocks, Sound, n))[p]
            + Bag(TopLevel, OfCategory(blocks, TitleLike, n))[p] + Bag(TopLevel, Taken(lists, Texts(blocks), None))[p]
            + Bag(TopLevel, OfCategory(blocks, Formula, n))[p]
            + Bag(TopLevel, Surviving(lists, |lists|, Texts(blocks), Refs(blocks)))[p]
  {
    hide Bag, Groups, Taken, OfCategory, Surviving, ListsOf, Texts, Refs, Sort;
    var n, lists := |blocks|, ListsOf(blocks);
    BagSort(TopLevel, Groups(blocks, Image, n));
    BagSort(TopLevel, Groups(blocks, Table, n));
    BagSort(TopLevel, Groups(blocks, Chart, n));
    BagSort(TopLevel, Groups(blocks, Code, n));
    var a := Sort(Groups(blocks, Image, n), IndexOf);
    BagOfSum(a, Sort(Groups(blocks, Table, n), IndexOf), p);
    var b := a + Sort(Groups(blocks, Table, n), IndexOf);
    BagOfSum(b, Sort(Groups(blocks, Chart, n), IndexOf), p);
    var c := b + Sort(Groups(blocks, Chart, n), IndexOf);
    BagOfSum(c, Sort(Groups(blocks, Code, n), IndexOf), p);
    var d := c + Sort(Groups(blocks, Code, n), IndexOf);
    BagOfSum(d, Taken(lists, Refs(blocks), None), p);
    var e := d + Taken(lists, Refs(blocks), None);
    BagOfSum(e, OfCategory(blocks, Sound, n), p);
    var f := e + OfCategory(blocks, Sound, n);
    BagOfSum(f, OfCategory(blocks, TitleLike, n), p);
    var g := f + OfCategory(blocks, TitleLike, n);
    BagOfSum(g, Taken(lists, Texts(blocks), None), p);
    var h := g + Taken(lists, Texts(blocks), None);
    BagOfSum(h, OfCategory(blocks, Formula, n), p);
    BagOfSum(h + OfCategory(blocks, Formula, n), Surviving(lists, |lists|, Texts(blocks), Refs(blocks)), p);
  }

  lemma {:induction false} CategoryFlat(blocks: seq<Block>, category: Category, n: nat)
    requires AllFlat(blocks) && n <= |blocks|
    ensures AllFlat(OfCategory(blocks, category, n))
    ensures forall i :: 0 <= i < |OfCategory(blocks, category, n)| ==>
              CategoryOf(OfCategory(blocks, category, n)[i].kind) == category
  {
    hide CategoryOf;
    if n > 0 {
      CategoryFlat(blocks, category, n - 1);
    }
  }

  lemma {:induction false} LoneFlat(blocks: seq<Block>, n: nat)
    requires AllFlat(blocks) && n <= |blocks|
    ensures AllFlat(RetextAll(ChildrenOf(blocks, None, n)))
  {
    hide ChildOf;
    if n > 0 {
      LoneFlat(blocks, n - 1);
      RetextSnoc(ChildrenOf(blocks, None, n - 1), blocks[n - 1]);
    }
  }

  lemma {:induction false} TakenFlat(lists: seq<Block>, blocks: seq<Block>, list: Option<nat>)
    requires AllFlat(blocks)
    ensures AllFlat(Taken(lists, blocks, list))
  {
    hide Absorber;
    if blocks != [] {
      TakenFlat(lists, blocks[..|blocks| - 1], list);
    }
  }

  lemma SourcesFlat(blocks: seq<Block>)
    requires AllFlat(blocks)
    ensures AllFlat(Texts(blocks)) && AllFlat(Refs(blocks)) && AllFlat(ListsOf(blocks))
    ensures forall i :: 0 <= i < |ListsOf(blocks)| ==> ListsOf(blocks)[i].kind.List?
  {
    hide RetextAll, ChildrenOf, OfCategory;
    CategoryFlat(blocks, Plain, |blocks|);
    CategoryFlat(blocks, Reference, |blocks|);
    CategoryFlat(blocks, Listing, |blocks|);
    LoneFlat(blocks, |blocks|);
  }

  /** What stays at the top and what lists hold, taken together. */
  lemma AbsorbedPart(blocks: seq<Block>, p: Piece)
    requires Numbered(blocks) && AllFlat(blocks)
    ensures var lists, texts, refs := ListsOf(blocks), Texts(blocks), Refs(blocks);
            Flat(TopLevel, Taken(lists, texts, None))[p] + Flat(TopLevel, Taken(lists, refs, None))[p]
            + Bag(TopLevel, Surviving(lists, |lists|, texts, refs))[p] ==
            Part(blocks, Plain, |blocks|)[p] + Part(blocks, Reference, |blocks|)[p] + Part(blocks, Listing, |blocks|)[p]
            + Placed(lists, RetextAll(ChildrenOf(blocks, None, |blocks|)))[p]
  {
    hide Flat, Taken, Bag, Surviving, Part, Placed, RetextAll, ChildrenOf, TakenSum, ListPieces, OfCategory;
    var lists, texts, refs := ListsOf(blocks), Texts(blocks), Refs(blocks);
    SourcesFlat(blocks);
    ListsPart(lists, |lists|, texts, refs, p);
    ListingPart(blocks, |blocks|);
    PlacedSplit(lists, texts);
    PlacedSplit(lists, refs);
    PlacedAppend(lists, OfCategory(blocks, Plain, |blocks|), RetextAll(ChildrenOf(blocks, None, |blocks|)));
    PlacedPart(blocks, Plain, |blocks|);
    PlacedPart(blocks, Reference, |blocks|);
    assert ListPieces(lists, |lists|, texts, refs) == Part(blocks, Listing, |blocks|);
    assert Placed(lists, texts)[p]
        == Part(blocks, Plain, |blocks|)[p] + Placed(lists, RetextAll(ChildrenOf(blocks, None, |blocks|)))[p];
    assert Placed(lists, refs)[p] == Part(blocks, Reference, |blocks|)[p];
  }

  lemma FlatBags(blocks: seq<Block>)
    requires AllFlat(blocks)
    ensures var lists, n := ListsOf(blocks), |blocks|;
            && Bag(TopLevel, Taken(lists, Refs(blocks), None)) == Flat(TopLevel, Taken(lists, Refs(blocks), None))
            && Bag(TopLevel, Taken(lists, Texts(blocks), None)) == Flat(TopLevel, Taken(lists, Texts(blocks), None))
            && Bag(TopLevel, OfCategory(blocks, Sound, n)) == Part(blocks, Sound, n)
            && Bag(TopLevel, OfCategory(blocks, TitleLike, n)) == Part(blocks, TitleLike, n)
            && Bag(TopLevel, OfCategory(blocks, Formula, n)) == Part(blocks, Formula, n)
            && Bag(Discarded, OfCategory(blocks, Margin, n)) == Part(blocks, Margin, n)
  {
    hide Flat, Taken, Bag, Part, RetextAll, ChildrenOf, OfCategory, ListsOf, Texts, Refs;
    var lists, n := ListsOf(blocks), |blocks|;
    SourcesFlat(blocks);
    TakenFlat(lists, Refs(blocks), None);
    TakenFlat(lists, Texts(blocks), None);
    BagOfFlat(TopLevel, Taken(lists, Refs(blocks), None));
    BagOfFlat(TopLevel, Taken(lists, Texts(blocks), None));
    CategoryFlat(blocks, Sound, n);
    CategoryFlat(blocks, TitleLike, n);
    CategoryFlat(blocks, Formula, n);
    CategoryFlat(blocks, Margin, n);
    BagOfFlat(TopLevel, OfCategory(blocks, Sound, n));
    BagOfFlat(TopLevel, OfCategory(blocks, TitleLike, n));
    BagOfFlat(TopLevel, OfCategory(blocks, Formula, n));
    BagOfFlat(Discarded, OfCategory(blocks, Margin, n));
    PlainPart(blocks, Sound, TopLevel, n);
    PlainPart(blocks, TitleLike, TopLevel, n);
    PlainPart(blocks, Formula, TopLevel, n);
    PlainPart(blocks, Margin, Discarded, n);
  }

  /** Every block is on the page exactly once and at its place, except lists
      that absorbed nothing, which are gone. */
  lemma Conservation(blocks: seq<Block>)
    requires Numbered(blocks) && AllFlat(blocks)
    ensures Bag(TopLevel, PageBody(blocks)) + Bag(Discarded, Margins(blocks)) == Expected(blocks, |blocks|)
  {
    hide Bag, PageBody, Margins, Expected;
    forall p
      ensures (Bag(TopLevel, PageBody(blocks)) + Bag(Discarded, Margins(blocks)))[p] == Expected(blocks, |blocks|)[p]
    {
      ConservationOf(blocks, p);
    }
  }

  lemma ConservationOf(blocks: seq<Block>, p: Piece)
    requires Numbered(blocks) && AllFlat(blocks)
    ensures Bag(TopLevel, PageBody(blocks))[p] + Bag(Discarded, Margins(blocks))[p] == Expected(blocks, |blocks|)[p]
  {
    hide Flat, Taken, Bag, Part, RetextAll, ChildrenOf, OfCategory, ListsOf, Texts, Refs, PageBody, Groups, Surviving,
         Matched, Placed, Expected;
    BagOfBody(blocks, p);
    FlatBags(blocks);
    AbsorbedPart(blocks, p);
    GroupsPart(blocks, |blocks|, p);
    ChildPart(blocks, |blocks|, p);
    PartsOf(blocks, |blocks|, p);
  }

  // -------------------------------------------------------------------- order

  /** A block of the page: its members are in order and have none themselves. */
  ghost predicate Tidy(block: Block) {
    Owns(TopLevel, block) && Sorted(block.blocks, IndexOf) && AllFlat(block.blocks)
  }

  ghost predicate AllTidy(blocks: seq<Block>) {
    forall i :: 0 <= i < |blocks| ==> Tidy(blocks[i])
  }

  lemma FlatTidy(blocks: seq<Block>)
    requires AllFlat(blocks)
    ensures AllTidy(blocks)
  {
    forall i | 0 <= i < |blocks|
      ensures Tidy(blocks[i])
    {
      assert PieceOf(TopLevel, blocks[i]) in Pieces(TopLevel, blocks[i]);
    }
  }

  lemma SortKeepsFlat(blocks: seq<Block>)
    requires AllFlat(blocks)
    ensures AllFlat(Sort(blocks, IndexOf))
  {
    SortOrders(blocks, IndexOf);
    forall i | 0 <= i < |Sort(blocks, IndexOf)|
      ensures Sort(blocks, IndexOf)[i].blocks == []
    {
      assert Sort(blocks, IndexOf)[i] in multiset(blocks);
    }
  }

  lemma SortKeepsTidy(blocks: seq<Block>)
    requires AllTidy(blocks)
    ensures AllTidy(Sort(blocks, IndexOf))
  {
    hide Tidy;
    SortOrders(blocks, IndexOf);
    forall i | 0 <= i < |Sort(blocks, IndexOf)|
      ensures Tidy(Sort(blocks, IndexOf)[i])
    {
      assert Sort(blocks, IndexOf)[i] in multiset(blocks);
    }
  }

  lemma {:induction false} AttachFlat(visual: Visual, blocks: seq<Block>)
    requires AllFlat(blocks)
    ensures AllFlat(AttachAll(visual, blocks))
  {
    if blocks != [] {
      AttachFlat(visual, blocks[..|blocks| - 1]);
    }
  }

  lemma {:induction false} ChildrenFlat(blocks: seq<Block>, parent: Option<nat>, n: nat)
    requires AllFlat(blocks) && n <= |blocks|
    ensures AllFlat(ChildrenOf(blocks, parent, n))
  {
    hide ChildOf;
    if n > 0 {
      ChildrenFlat(blocks, parent, n - 1);
    }
  }

  lemma GroupTidy(blocks: seq<Block>, main: nat)
    requires AllFlat(blocks) && main < |blocks| && blocks[main].kind.IsMain()
    ensures Tidy(GroupAt(blocks, main))
  {
    hide ChildrenOf, Flat, Sort, AttachAll, One;
    var visual, children := blocks[main].kind.GroupVisual(), ChildrenOf(blocks, Some(main), |blocks|);
    ChildrenFlat(blocks, Some(main), |blocks|);
    SortKeepsFlat(children);
    AttachFlat(visual, Sort(children, IndexOf));
    var body := blocks[main].(kind := Kind.Body(visual));
    var members := [body] + AttachAll(visual, Sort(children, IndexOf));
    SortKeepsFlat(members);
    SortOrders(members, IndexOf);
    FlatSort(In(blocks[main].index), members);
    FlatHolds(In(blocks[main].index), members, 0);
    assert PieceOf(In(blocks[main].index), body) in Pieces(TopLevel, GroupAt(blocks, main));
  }

  lemma {:induction false} GroupsTidy(blocks: seq<Block>, visual: Visual, n: nat)
    requires AllFlat(blocks) && n <= |blocks|
    ensures AllTidy(Groups(blocks, visual, n))
  {
    hide Tidy, GroupAt;
    if n > 0 {
      GroupsTidy(blocks, visual, n - 1);
      if Heads(blocks, n - 1, visual) {
        GroupTidy(blocks, n - 1);
      }
    }
  }

  lemma {:induction false} ListsTidy(lists: seq<Block>, n: nat, texts: seq<Block>, refs: seq<Block>)
    requires n <= |lists| && AllFlat(lists) && AllFlat(texts) && AllFlat(refs)
    requires forall i :: 0 <= i < |lists| ==> lists[i].kind.List?
    ensures AllTidy(Surviving(lists, n, texts, refs))
  {
    hide Tidy, Filled;
    if n > 0 {
      ListsTidy(lists, n - 1, texts, refs);
      if Filled(lists, n - 1, texts, refs).blocks != [] {
        ListTidy(lists, n - 1, texts, refs);
      }
    }
  }

  lemma ListTidy(lists: seq<Block>, i: nat, texts: seq<Block>, refs: seq<Block>)
    requires i < |lists| && AllFlat(lists) && AllFlat(texts) && AllFlat(refs) && lists[i].kind.List?
    requires Filled(lists, i, texts, refs).blocks != []
    ensures Tidy(Filled(lists, i, texts, refs))
  {
    hide Sort, Taken, Flat;
    TakenFlat(lists, texts, Some(i));
    TakenFlat(lists, refs, Some(i));
    var members := lists[i].blocks + Taken(lists, texts, Some(i)) + Taken(lists, refs, Some(i));
    SortKeepsFlat(members);
    SortOrders(members, IndexOf);
    var list := Filled(lists, i, texts, refs);
    assert PieceOf(TopLevel, list) in Pieces(TopLevel, list);
  }

  lemma BodyTidy(blocks: seq<Block>)
    requires AllFlat(blocks)
    ensures AllTidy(PageBody(blocks)) && AllFlat(Margins(blocks))
  {
    hide Tidy, Flat, Taken, RetextAll, ChildrenOf, OfCategory, ListsOf, Texts, Refs, Groups, Surviving, Sort;
    var lists, n := ListsOf(blocks), |blocks|;
    SourcesFlat(blocks);
    TakenFlat(lists, Refs(blocks), None);
    TakenFlat(lists, Texts(blocks), None);
    FlatTidy(Taken(lists, Refs(blocks), None));
    FlatTidy(Taken(lists, Texts(blocks), None));
    CategoryFlat(blocks, Sound, n);
    CategoryFlat(blocks, TitleLike, n);
    CategoryFlat(blocks, Formula, n);
    CategoryFlat(blocks, Margin, n);
    FlatTidy(OfCategory(blocks, Sound, n));
    FlatTidy(OfCategory(blocks, TitleLike, n));
    FlatTidy(OfCategory(blocks, Formula, n));
    forall visual
      ensures AllTidy(Sort(Groups(blocks, visual, n), IndexOf))
    {
      GroupsTidy(blocks, visual, n);
      SortKeepsTidy(Groups(blocks, visual, n));
    }
    ListsTidy(lists, |lists|, Texts(blocks), Refs(blocks));
  }

  lemma DistinctParts(a: multiset<Piece>, b: multiset<Piece>)
    requires Distinct(a + b)
    ensures Distinct(a) && Distinct(b)
  {
    forall p
      ensures (a + b)[p] == a[p] + b[p] && (p in a || p in b ==> p in a + b)
    {
    }
  }

  /** What every page is: each block once, at its place; blocks and members of
      blocks in strictly increasing index order. */
  ghost predicate IsPageOf(blocks: seq<Block>, preproc: seq<Block>, discarded: seq<Block>) {
    && Bag(TopLevel, preproc) + Bag(Discarded, discarded) == Expected(blocks, |blocks|)
    && Increasing(preproc, IndexOf) && Increasing(discarded, IndexOf)
    && AllFlat(discarded)
    && forall i :: 0 <= i < |preproc| ==> Increasing(preproc[i].blocks, IndexOf) && AllFlat(preproc[i].blocks)
  }

  lemma PageIsComplete(blocks: seq<Block>)
    requires Numbered(blocks) && AllFlat(blocks)
    ensures IsPageOf(blocks, Sort(PageBody(blocks), IndexOf), Sort(Margins(blocks), IndexOf))
  {
    hide PageBody, Margins, Bag, Expected, Sort, Distinct, Pieces, Flat, Owns;
    var preproc, discarded := Sort(PageBody(blocks), IndexOf), Sort(Margins(blocks), IndexOf);
    Conservation(blocks);
    BagSort(TopLevel, PageBody(blocks));
    BagSort(Discarded, Margins(blocks));
    ExpectedDistinct(blocks, |blocks|);
    DistinctParts(Bag(TopLevel, preproc), Bag(Discarded, discarded));
    SortOrders(PageBody(blocks), IndexOf);
    SortOrders(Margins(blocks), IndexOf);
    BodyTidy(blocks);
    SortKeepsTidy(PageBody(blocks));
    SortKeepsFlat(Margins(blocks));
    MarginsOwn(discarded);
    TopIncreasing(TopLevel, preproc);
    TopIncreasing(Discarded, discarded);
    forall i | 0 <= i < |preproc|
      ensures Increasing(preproc[i].blocks, IndexOf) && AllFlat(preproc[i].blocks)
    {
      MembersInOrder(preproc, i);
    }
  }

  lemma MarginsOwn(discarded: seq<Block>)
    requires AllFlat(discarded)
    ensures forall i :: 0 <= i < |discarded| ==> Owns(Discarded, discarded[i])
  {
    forall i | 0 <= i < |discarded|
      ensures Owns(Discarded, discarded[i])
    {
      assert PieceOf(Discarded, discarded[i]) in Pieces(Discarded, discarded[i]);
    }
  }

  lemma MembersInOrder(preproc: seq<Block>, i: nat)
    requires i < |preproc| && AllTidy(preproc) && Distinct(Bag(TopLevel, preproc))
    ensures Increasing(preproc[i].blocks, IndexOf) && AllFlat(preproc[i].blocks)
  {
    hide Bag, Distinct, Flat, Owns, One;
    assert Tidy(preproc[i]);
    if preproc[i].blocks != [] {
      BagHolds(TopLevel, preproc, i);
      MembersIncreasing(In(preproc[i].index), preproc[i].blocks, Bag(TopLevel, preproc));
    }
  }
}
