/** Which group of a page holds a caption or footnote, told from the types, the
    positions and the boxes of the blocks alone. */
module PageGroups {
  import opened Numbers
  import opened Options
  import opened Sorting
  import opened Blocks
  import opened Attachment
  import opened Regroup
  import opened ListAbsorption
  import opened PagePieces
  import opened PageParts
  import opened PageAssembly
  import opened PageOrder

  ghost predicate Between(k: nat, a: nat, b: nat) {
    a < k < b || b < k < a
  }

  /** A body with only captions between, or for a footnote captions and footnotes;
      a footnote does not go to a body with a larger index. */
  ghost predicate CanHold(blocks: seq<Block>, child: nat, p: nat)
    requires child < |blocks|
  {
    && p < |blocks| && (blocks[p].kind.Body? || blocks[p].kind.ImageBlockBody?)
    && (blocks[child].kind.Footnote? ==> blocks[p].index <= blocks[child].index)
    && forall k: nat :: k < |blocks| && Between(k, child, p) ==>
         blocks[k].kind.Caption? || (blocks[k].kind.Footnote? && blocks[child].kind.Footnote?)
  }

  /** The first block is fewer positions away from the child, or as many and its box
      as near or nearer, and when it is as near its index is not larger. */
  ghost predicate AsNear(blocks: seq<Block>, child: nat, p: nat, q: nat)
    requires child < |blocks| && p < |blocks| && q < |blocks|
  {
    var apart, other := Abs(p - child), Abs(q - child);
    var near := BoxDistance(blocks[child].bbox, blocks[p].bbox);
    var far := BoxDistance(blocks[child].bbox, blocks[q].bbox);
    && apart <= other
    && (apart == other ==> near <= far)
    && (apart == other && near == far ==> blocks[p].index <= blocks[q].index)
  }

  /** No candidate is fewer positions away; of those as many positions away none has
      a nearer box; of those with as near a box none has a smaller index. */
  ghost predicate IsParent(blocks: seq<Block>, child: nat, p: nat)
    requires child < |blocks|
  {
    && (blocks[child].kind.Caption? || blocks[child].kind.Footnote?) && CanHold(blocks, child, p)
    && forall q: nat :: CanHold(blocks, child, q) ==> AsNear(blocks, child, p, q)
  }

  lemma CandidateMeans(blocks: seq<Block>, child: nat, p: nat)
    requires child < |blocks| && (blocks[child].kind.Caption? || blocks[child].kind.Footnote?)
    ensures Candidate(blocks, child, p) <==> CanHold(blocks, child, p)
  {
    if p < |blocks| {
      assert forall k: nat :: Between(k, child, p) <==> Min(child, p) < k < Max(child, p);
    }
  }

  lemma CloserMeans(blocks: seq<Block>, child: nat, p: nat, q: nat)
    requires child < |blocks| && p < |blocks| && q < |blocks| && !Closer(blocks, child, q, p)
    ensures AsNear(blocks, child, p, q)
  {
    hide BoxDistance;
  }

  /** The parent that the fold over the bodies finds is that one, and there is none
      exactly when no body can hold the child. */
  lemma ParentMeans(blocks: seq<Block>, child: nat)
    requires Numbered(blocks) && child < |blocks| && (blocks[child].kind.Caption? || blocks[child].kind.Footnote?)
    ensures forall p: nat :: ParentOf(blocks, child) == Some(p) <==> IsParent(blocks, child, p)
    ensures ParentOf(blocks, child) == None <==> forall p: nat :: !CanHold(blocks, child, p)
  {
    hide Candidate, CanHold, Closer, Nearest, Numbered, BoxDistance;
    forall p: nat
      ensures Candidate(blocks, child, p) <==> CanHold(blocks, child, p)
    {
      CandidateMeans(blocks, child, p);
    }
    forall q: nat | CanHold(blocks, child, q)
      ensures q < |blocks| && ParentOf(blocks, child).Some? && !Closer(blocks, child, q, ParentOf(blocks, child).value)
    {
      CandidateInside(blocks, child, q);
      NearestIsBest(blocks, child, |blocks|, q);
    }
    var parent := ParentOf(blocks, child);
    if parent.Some? {
      var p := parent.value;
      CandidateInside(blocks, child, p);
      forall q: nat | CanHold(blocks, child, q)
        ensures q < |blocks| && !Closer(blocks, child, q, p)
      {
        CandidateInside(blocks, child, q);
      }
      BestIsParent(blocks, child, p);
      forall q: nat | IsParent(blocks, child, q)
        ensures q == p
      {
        OneParent(blocks, child, p, q);
      }
    }
  }

  lemma CandidateInside(blocks: seq<Block>, child: nat, p: nat)
    requires child < |blocks| && Candidate(blocks, child, p)
    ensures p < |blocks|
  {
  }

  lemma BestIsParent(blocks: seq<Block>, child: nat, p: nat)
    requires child < |blocks| && (blocks[child].kind.Caption? || blocks[child].kind.Footnote?)
    requires CanHold(blocks, child, p)
    requires forall q: nat :: CanHold(blocks, child, q) ==> q < |blocks| && !Closer(blocks, child, q, p)
    ensures IsParent(blocks, child, p)
  {
    hide CanHold, Closer, BoxDistance;
    assert p < |blocks|;
    forall q: nat | CanHold(blocks, child, q)
      ensures q < |blocks| && AsNear(blocks, child, p, q)
    {
      CloserMeans(blocks, child, p, q);
    }
  }

  lemma OneParent(blocks: seq<Block>, child: nat, p: nat, q: nat)
    requires Numbered(blocks) && child < |blocks| && IsParent(blocks, child, p) && IsParent(blocks, child, q)
    ensures p == q
  {
    hide BoxDistance;
    assert p < q ==> IndexOf(blocks[p]) < IndexOf(blocks[q]);
    assert q < p ==> IndexOf(blocks[q]) < IndexOf(blocks[p]);
  }

  // -------------------------------------------------------------- what groups hold

  ghost predicate IsBodyOf(kind: Kind, visual: Visual) {
    kind == Kind.Body(visual) || (kind == ImageBlockBody && visual == Image)
  }

  /** The block is the body, or a child whose parent the body is, in its new type. */
  ghost predicate Belongs(blocks: seq<Block>, pos: nat, visual: Visual, m: Block)
    requires pos < |blocks|
  {
    || m == blocks[pos].(kind := Kind.Body(visual))
    || exists child: nat :: child < |blocks| && IsParent(blocks, child, pos)
         && m == blocks[child].(kind := if blocks[child].kind.Footnote? then FootnoteOf(visual) else CaptionOf(visual))
  }

  /** The group of a body: of its visual, at its place, with the body and exactly
      the captions and footnotes whose parent it is. */
  ghost predicate IsGroupOf(blocks: seq<Block>, pos: nat, g: Block)
    requires pos < |blocks|
  {
    && g.kind.Group? && IsBodyOf(blocks[pos].kind, g.kind.visual)
    && g.index == blocks[pos].index && g.bbox == blocks[pos].bbox && g.lines == [] && g.mergePrev == None
    && forall m :: m in g.blocks <==> Belongs(blocks, pos, g.kind.visual, m)
  }

  /** Every body heads a group, and nothing else on the page has members but lists. */
  ghost predicate GroupsMean(blocks: seq<Block>, preproc: seq<Block>) {
    && (forall pos: nat :: pos < |blocks| && (blocks[pos].kind.Body? || blocks[pos].kind.ImageBlockBody?) ==>
          exists g :: g in preproc && IsGroupOf(blocks, pos, g))
    && (forall g :: g in preproc && g.blocks != [] && !g.kind.List? ==>
          exists pos: nat :: pos < |blocks| && IsGroupOf(blocks, pos, g))
  }

  lemma {:induction false} AttachMembers(visual: Visual, children: seq<Block>, m: Block)
    ensures m in AttachAll(visual, children) <==> exists i :: 0 <= i < |children| && m == Attach(visual, children[i])
  {
    hide Attach;
    if children != [] {
      var n := |children| - 1;
      AttachMembers(visual, children[..n], m);
      if i :| 0 <= i < |children| && m == Attach(visual, children[i]) {
        assert i < n ==> children[..n][i] == children[i];
      }
      if i :| 0 <= i < n && m == Attach(visual, children[..n][i]) {
        assert children[i] == children[..n][i];
      }
    }
  }

  lemma {:induction false} ChildrenMembers(blocks: seq<Block>, parent: Option<nat>, n: nat, m: Block)
    requires n <= |blocks|
    ensures m in ChildrenOf(blocks, parent, n)
       <==> exists k: nat :: k < n && ChildOf(blocks, k, parent) && m == blocks[k]
  {
    hide ChildOf;
    if n > 0 {
      ChildrenMembers(blocks, parent, n - 1, m);
    }
  }

  lemma SortMembers(s: seq<Block>, m: Block)
    ensures m in Sort(s, IndexOf) <==> m in s
  {
    hide Sort;
    SortOrders(s, IndexOf);
    assert m in Sort(s, IndexOf) <==> m in multiset(Sort(s, IndexOf));
    assert m in s <==> m in multiset(s);
  }

  lemma ChildMeans(blocks: seq<Block>, child: nat, main: nat)
    requires Numbered(blocks) && child < |blocks|
    ensures ChildOf(blocks, child, Some(main)) <==> IsParent(blocks, child, main)
  {
    hide Numbered, CanHold, BoxDistance, ParentOf;
    if blocks[child].kind.Caption? || blocks[child].kind.Footnote? {
      ParentMeans(blocks, child);
    }
  }

  lemma GroupMembers(blocks: seq<Block>, main: nat, m: Block)
    requires Numbered(blocks) && main < |blocks| && blocks[main].kind.IsMain()
    ensures m in Members(blocks, main) <==> Belongs(blocks, main, blocks[main].kind.GroupVisual(), m)
  {
    hide Numbered, ChildOf, IsParent, Sort, ChildrenOf, AttachAll;
    var visual, children := blocks[main].kind.GroupVisual(), ChildrenOf(blocks, Some(main), |blocks|);
    var body, sorted := blocks[main].(kind := Kind.Body(visual)), Sort(children, IndexOf);
    SortMembers([body] + AttachAll(visual, sorted), m);
    AttachMembers(visual, sorted, m);
    if i :| 0 <= i < |sorted| && m == Attach(visual, sorted[i]) {
      SortMembers(children, sorted[i]);
      ChildrenMembers(blocks, Some(main), |blocks|, sorted[i]);
      var k: nat :| k < |blocks| && ChildOf(blocks, k, Some(main)) && sorted[i] == blocks[k];
      ChildMeans(blocks, k, main);
      assert Belongs(blocks, main, visual, m);
    }
    if k: nat :| k < |blocks| && IsParent(blocks, k, main) && m == Attach(visual, blocks[k]) {
      ChildMeans(blocks, k, main);
      ChildrenMembers(blocks, Some(main), |blocks|, blocks[k]);
      SortMembers(children, blocks[k]);
      var i :| 0 <= i < |sorted| && sorted[i] == blocks[k];
      assert m == Attach(visual, sorted[i]);
    }
  }

  lemma GroupIs(blocks: seq<Block>, main: nat)
    requires Numbered(blocks) && main < |blocks| && blocks[main].kind.IsMain()
    ensures IsGroupOf(blocks, main, GroupAt(blocks, main))
  {
    hide Numbered, Members, Belongs;
    forall m
      ensures m in Members(blocks, main) <==> Belongs(blocks, main, blocks[main].kind.GroupVisual(), m)
    {
      GroupMembers(blocks, main, m);
    }
  }

  lemma {:induction false} GroupsHold(blocks: seq<Block>, visual: Visual, n: nat, g: Block)
    requires n <= |blocks|
    ensures g in Groups(blocks, visual, n)
       <==> exists main: nat :: main < n && Heads(blocks, main, visual) && g == GroupAt(blocks, main)
  {
    hide Heads, GroupAt;
    if n > 0 {
      GroupsHold(blocks, visual, n - 1, g);
    }
  }

  lemma BodyHasGroups(blocks: seq<Block>, visual: Visual, g: Block)
    requires g in Groups(blocks, visual, |blocks|)
    ensures g in PageBody(blocks)
  {
    hide Sort, Groups, Taken, OfCategory, Surviving, ListsOf, Texts, Refs;
    SortMembers(Groups(blocks, visual, |blocks|), g);
    match visual
    case Image =>
    case Table =>
    case Chart =>
    case Code =>
  }

  lemma {:induction false} SurvivingAreLists(lists: seq<Block>, n: nat, texts: seq<Block>, refs: seq<Block>, g: Block)
    requires n <= |lists| && forall i :: 0 <= i < |lists| ==> lists[i].kind.List?
    requires g in Surviving(lists, n, texts, refs)
    ensures g.kind.List?
  {
    hide Taken, Sort;
    if g !in Surviving(lists, n - 1, texts, refs) {
      assert g == Filled(lists, n - 1, texts, refs);
    } else {
      SurvivingAreLists(lists, n - 1, texts, refs, g);
    }
  }

  /** The text and reference blocks that stay, phonetics, titles and equations. */
  lemma RestMember(blocks: seq<Block>, g: Block)
    requires AllFlat(blocks)
    requires g in Taken(ListsOf(blocks), Refs(blocks), None) || g in Taken(ListsOf(blocks), Texts(blocks), None)
          || g in OfCategory(blocks, Sound, |blocks|) || g in OfCategory(blocks, TitleLike, |blocks|)
          || g in OfCategory(blocks, Formula, |blocks|)
    ensures g.blocks == []
  {
    hide Taken, OfCategory, ListsOf, Texts, Refs, CategoryOf;
    var n, lists := |blocks|, ListsOf(blocks);
    SourcesFlat(blocks);
    TakenFlat(lists, Refs(blocks), None);
    TakenFlat(lists, Texts(blocks), None);
    CategoryFlat(blocks, Sound, n);
    CategoryFlat(blocks, TitleLike, n);
    CategoryFlat(blocks, Formula, n);
  }

  function SortedGroups(blocks: seq<Block>, visual: Visual): seq<Block> {
    Sort(Groups(blocks, visual, |blocks|), IndexOf)
  }

  lemma GroupMember(blocks: seq<Block>, g: Block)
    requires g in SortedGroups(blocks, Image) + SortedGroups(blocks, Table) + SortedGroups(blocks, Chart)
                  + SortedGroups(blocks, Code)
    ensures exists visual :: g in Groups(blocks, visual, |blocks|)
  {
    hide Groups, Sort;
    SortMembers(Groups(blocks, Image, |blocks|), g);
    SortMembers(Groups(blocks, Table, |blocks|), g);
    SortMembers(Groups(blocks, Chart, |blocks|), g);
    SortMembers(Groups(blocks, Code, |blocks|), g);
  }

  lemma BodyIs(blocks: seq<Block>)
    ensures var n, lists := |blocks|, ListsOf(blocks);
            PageBody(blocks) ==
            SortedGroups(blocks, Image) + SortedGroups(blocks, Table) + SortedGroups(blocks, Chart)
            + SortedGroups(blocks, Code)
            + Taken(lists, Refs(blocks), None) + OfCategory(blocks, Sound, n) + OfCategory(blocks, TitleLike, n)
            + Taken(lists, Texts(blocks), None) + OfCategory(blocks, Formula, n)
            + Surviving(lists, |lists|, Texts(blocks), Refs(blocks))
  {
    hide Groups, Sort, Taken, OfCategory, Surviving, ListsOf, Texts, Refs;
  }

  lemma SumMember(a: seq<Block>, b: seq<Block>, c: seq<Block>, d: seq<Block>, e: seq<Block>, f: seq<Block>,
                  g: seq<Block>, m: Block)
    requires m in a + b + c + d + e + f + g
    ensures m in a || m in b || m in c || m in d || m in e || m in f || m in g
  {
  }

  /** What is on the page is a group, has no members, or is a list. */
  lemma BodyMember(blocks: seq<Block>, g: Block)
    requires AllFlat(blocks) && g in PageBody(blocks)
    ensures g.kind.List? || g.blocks == [] || exists visual :: g in Groups(blocks, visual, |blocks|)
  {
    hide Groups, Taken, OfCategory, Surviving, ListsOf, Texts, Refs, AllFlat, SortedGroups, PageBody;
    var n, lists := |blocks|, ListsOf(blocks);
    BodyIs(blocks);
    var groups := SortedGroups(blocks, Image) + SortedGroups(blocks, Table) + SortedGroups(blocks, Chart)
                  + SortedGroups(blocks, Code);
    SumMember(groups, Taken(lists, Refs(blocks), None), OfCategory(blocks, Sound, n), OfCategory(blocks, TitleLike, n),
              Taken(lists, Texts(blocks), None), OfCategory(blocks, Formula, n),
              Surviving(lists, |lists|, Texts(blocks), Refs(blocks)), g);
    if g in groups {
      GroupMember(blocks, g);
    } else if g in Surviving(lists, |lists|, Texts(blocks), Refs(blocks)) {
      SourcesFlat(blocks);
      SurvivingAreLists(lists, |lists|, Texts(blocks), Refs(blocks), g);
    } else {
      RestMember(blocks, g);
    }
  }

  lemma MainMeans(kind: Kind)
    ensures kind.IsMain() <==> kind.Body? || kind.ImageBlockBody?
  {
  }

  /** The groups of the page are those of its bodies. */
  lemma PageHasGroups(blocks: seq<Block>)
    requires Numbered(blocks) && AllFlat(blocks)
    ensures GroupsMean(blocks, Sort(PageBody(blocks), IndexOf))
  {
    hide Sort, Groups, PageBody, IsGroupOf, GroupAt, Numbered, AllFlat, Kind.IsMain;
    var preproc := Sort(PageBody(blocks), IndexOf);
    forall pos: nat | pos < |blocks| && (blocks[pos].kind.Body? || blocks[pos].kind.ImageBlockBody?)
      ensures exists g :: g in preproc && IsGroupOf(blocks, pos, g)
    {
      MainMeans(blocks[pos].kind);
      var visual, g := blocks[pos].kind.GroupVisual(), GroupAt(blocks, pos);
      GroupsHold(blocks, visual, |blocks|, g);
      BodyHasGroups(blocks, visual, g);
      SortMembers(PageBody(blocks), g);
      GroupIs(blocks, pos);
    }
    forall g | g in preproc && g.blocks != [] && !g.kind.List?
      ensures exists pos: nat :: pos < |blocks| && IsGroupOf(blocks, pos, g)
    {
      SortMembers(PageBody(blocks), g);
      BodyMember(blocks, g);
      var visual :| g in Groups(blocks, visual, |blocks|);
      GroupsHold(blocks, visual, |blocks|, g);
      var pos: nat :| pos < |blocks| && Heads(blocks, pos, visual) && g == GroupAt(blocks, pos);
      GroupIs(blocks, pos);
    }
  }
}
