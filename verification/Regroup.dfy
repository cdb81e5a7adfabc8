/** Gathers main blocks and their captions and footnotes into visual groups. */
module Regroup {
  import opened Options
  import opened Sorting
  import opened Blocks
  import opened Attachment

  datatype VisualGroups = VisualGroups(image: seq<Block>, table: seq<Block>, chart: seq<Block>, code: seq<Block>) {
    function Of(visual: Visual): seq<Block> {
      match visual
      case Image => image
      case Table => table
      case Chart => chart
      case Code => code
    }
  }

  function AttachedKind(visual: Visual, child: Kind): Kind {
    if child.Footnote? then FootnoteOf(visual) else CaptionOf(visual)
  }

  function Attach(visual: Visual, child: Block): Block {
    child.(kind := AttachedKind(visual, child.kind))
  }

  predicate ChildOf(blocks: seq<Block>, child: nat, parent: Option<nat>)
    requires child < |blocks|
  {
    blocks[child].kind.IsChild() && ParentOf(blocks, child) == parent
  }

  /** The children of `parent`, or those without a parent, among the first `n` blocks. */
  function ChildrenOf(blocks: seq<Block>, parent: Option<nat>, n: nat): seq<Block>
    requires n <= |blocks|
  {
    if n == 0 then []
    else
      var before := ChildrenOf(blocks, parent, n - 1);
      if ChildOf(blocks, n - 1, parent) then before + [blocks[n - 1]] else before
  }

  function AttachAll(visual: Visual, children: seq<Block>): (r: seq<Block>)
  {
    if children == [] then []
    else AttachAll(visual, children[..|children| - 1]) + [Attach(visual, children[|children| - 1])]
  }

  /** A group holds its body and its children, in index order. */
  function Members(blocks: seq<Block>, main: nat): seq<Block>
    requires main < |blocks| && blocks[main].kind.IsMain()
  {
    var visual := blocks[main].kind.GroupVisual();
    Sort([blocks[main].(kind := Body(visual))]
         + AttachAll(visual, Sort(ChildrenOf(blocks, Some(main), |blocks|), IndexOf)), IndexOf)
  }

  function GroupAt(blocks: seq<Block>, main: nat): Block
    requires main < |blocks| && blocks[main].kind.IsMain()
  {
    Block(Group(blocks[main].kind.GroupVisual()), blocks[main].bbox, [], Members(blocks, main), blocks[main].index, None)
  }

  predicate Heads(blocks: seq<Block>, main: nat, visual: Visual)
    requires main < |blocks|
  {
    blocks[main].kind.IsMain() && blocks[main].kind.GroupVisual() == visual
  }

  /** The groups of one kind whose main block is among the first `n`. */
  function Groups(blocks: seq<Block>, visual: Visual, n: nat): seq<Block>
    requires n <= |blocks|
  {
    if n == 0 then []
    else
      var before := Groups(blocks, visual, n - 1);
      if Heads(blocks, n - 1, visual) then before + [GroupAt(blocks, n - 1)] else before
  }

  function Lookup(children: map<nat, seq<Block>>, parent: nat): seq<Block> {
    if parent in children then children[parent] else []
  }

  /** The map holds the children, among the first `n` blocks, of every parent. */
  ghost predicate Holds(children: map<nat, seq<Block>>, blocks: seq<Block>, n: nat)
    requires n <= |blocks|
  {
    forall p: nat :: Lookup(children, p) == ChildrenOf(blocks, Some(p), n)
  }

  lemma HoldsNext(children: map<nat, seq<Block>>, blocks: seq<Block>, n: nat)
    requires n < |blocks| && Holds(children, blocks, n)
    ensures ChildOf(blocks, n, ParentOf(blocks, n)) && ParentOf(blocks, n).Some? ==>
              var p := ParentOf(blocks, n).value;
              Holds(children[p := Lookup(children, p) + [blocks[n]]], blocks, n + 1)
    ensures !blocks[n].kind.IsChild() || ParentOf(blocks, n).None? ==> Holds(children, blocks, n + 1)
  {
    hide Candidate, ParentOf;
    assert forall p: nat :: Lookup(children, p) == ChildrenOf(blocks, Some(p), n);
  }

  lemma HoldsAtStart(blocks: seq<Block>)
    ensures Holds(map[], blocks, 0)
  {
  }

  method MatchChildren(blocks: seq<Block>) returns (children: map<nat, seq<Block>>, unmatched: seq<Block>)
    ensures unmatched == ChildrenOf(blocks, None, |blocks|)
    ensures Holds(children, blocks, |blocks|)
  {
    hide ParentOf, Candidate, Holds;
    HoldsAtStart(blocks);
    children, unmatched := map[], [];
    for i := 0 to |blocks|
      invariant unmatched == ChildrenOf(blocks, None, i)
      invariant Holds(children, blocks, i)
    {
      HoldsNext(children, blocks, i);
      if blocks[i].kind.IsChild() {
        var parent := ParentOf(blocks, i);
        if parent.Some? {
          children := children[parent.value := Lookup(children, parent.value) + [blocks[i]]];
        } else {
          unmatched := unmatched + [blocks[i]];
        }
      }
    }
  }

  method BuildGroup(main: Block, children: seq<Block>) returns (group: Block)
    requires main.kind.IsMain()
    ensures var visual := main.kind.GroupVisual();
            group == Block(Group(visual), main.bbox, [],
                           Sort([main.(kind := Body(visual))] + AttachAll(visual, Sort(children, IndexOf)), IndexOf),
                           main.index, None)
  {
    var visual := main.kind.GroupVisual();
    var members := [main.(kind := Body(visual))];
    var sorted := Sort(children, IndexOf);
    for i := 0 to |sorted|
      invariant members == [main.(kind := Body(visual))] + AttachAll(visual, sorted[..i])
    {
      var child := sorted[i];
      assert sorted[..i + 1][..i] == sorted[..i];
      members := members + [if child.kind.Footnote? then child.(kind := FootnoteOf(visual))
                            else child.(kind := CaptionOf(visual))];
    }
    assert sorted[..|sorted|] == sorted;
    group := Block(Group(visual), main.bbox, [], Sort(members, IndexOf), main.index, None);
  }

  /** Every main block becomes a group of its body and the children attached to
      it; children without a parent are returned apart. */
  method RegroupVisualBlocks(blocks: seq<Block>) returns (groups: VisualGroups, unmatched: seq<Block>)
    ensures forall v :: groups.Of(v) == Sort(Groups(blocks, v, |blocks|), IndexOf)
    ensures unmatched == ChildrenOf(blocks, None, |blocks|)
  {
    hide ParentOf, Sort, Candidate, ChildOf, ChildrenOf;
    var childrenByParent;
    childrenByParent, unmatched := MatchChildren(blocks);
    groups := VisualGroups([], [], [], []);
    for i := 0 to |blocks|
      invariant forall v :: groups.Of(v) == Groups(blocks, v, i)
      invariant forall p: nat :: p >= i ==> Lookup(childrenByParent, p) == ChildrenOf(blocks, Some(p), |blocks|)
    {
      if blocks[i].kind.IsMain() {
        var group := BuildGroup(blocks[i], Lookup(childrenByParent, i));
        childrenByParent := childrenByParent - {i};
        match blocks[i].kind.GroupVisual() {
          case Image => groups := groups.(image := groups.image + [group]);
          case Table => groups := groups.(table := groups.table + [group]);
          case Chart => groups := groups.(chart := groups.chart + [group]);
          case Code => groups := groups.(code := groups.code + [group]);
        }
      }
    }
    groups := VisualGroups(
      Sort(groups.image, IndexOf), Sort(groups.table, IndexOf), Sort(groups.chart, IndexOf), Sort(groups.code, IndexOf));
  }
}
