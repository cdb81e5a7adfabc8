/** Which main block a caption or footnote is attached to. */
module Attachment {
  import opened Numbers
  import opened Options
  import opened Sorting
  import opened Blocks

  /** Types that may stand between a child and its parent. */
  predicate Allowed(child: Kind, between: Kind) {
    between.Caption? || (between.Footnote? && !child.Caption?)
  }

  predicate Neighbor(blocks: seq<Block>, child: nat, parent: nat)
    requires child < |blocks| && parent < |blocks|
  {
    && !(blocks[child].kind.Footnote? && blocks[child].index < blocks[parent].index)
    && forall k :: Min(child, parent) < k < Max(child, parent) ==> Allowed(blocks[child].kind, blocks[k].kind)
  }

  predicate Candidate(blocks: seq<Block>, child: nat, parent: nat)
    requires child < |blocks|
  {
    parent < |blocks| && blocks[parent].kind.IsMain() && Neighbor(blocks, child, parent)
  }

  function PositionDistance(a: nat, b: nat): nat {
    if a < b then b - a else a - b
  }

  /** Lexicographic order on position distance, box distance and index. */
  predicate Closer(blocks: seq<Block>, child: nat, p: nat, q: nat)
    requires child < |blocks| && p < |blocks| && q < |blocks|
  {
    var dp, dq := PositionDistance(p, child), PositionDistance(q, child);
    var bp, bq := BoxDistance(blocks[child].bbox, blocks[p].bbox), BoxDistance(blocks[child].bbox, blocks[q].bbox);
    dp < dq || (dp == dq && (bp < bq || (bp == bq && blocks[p].index < blocks[q].index)))
  }

  /** The first closest candidate among the first `n` blocks. */
  function Nearest(blocks: seq<Block>, child: nat, n: nat): (parent: Option<nat>)
    requires child < |blocks| && n <= |blocks|
    ensures parent.Some? ==> parent.value < n && Candidate(blocks, child, parent.value)
  {
    if n == 0 then None
    else
      var best := Nearest(blocks, child, n - 1);
      if Candidate(blocks, child, n - 1) && (best.None? || Closer(blocks, child, n - 1, best.value)) then Some(n - 1)
      else best
  }

  function ParentOf(blocks: seq<Block>, child: nat): (parent: Option<nat>)
    requires child < |blocks|
    ensures parent.Some? ==> Candidate(blocks, child, parent.value)
  {
    Nearest(blocks, child, |blocks|)
  }

  lemma {:induction false} NearestIsBest(blocks: seq<Block>, child: nat, n: nat, q: nat)
    requires child < |blocks| && n <= |blocks| && q < n && Candidate(blocks, child, q)
    ensures Nearest(blocks, child, n).Some? && !Closer(blocks, child, q, Nearest(blocks, child, n).value)
  {
    hide Candidate, BoxDistance;
    if q < n - 1 {
      NearestIsBest(blocks, child, n - 1, q);
    }
  }

  /** Indices increase with positions, as they come from the raw block list. */
  ghost predicate Numbered(blocks: seq<Block>) {
    Increasing(blocks, IndexOf)
  }

  lemma NoMainBetween(blocks: seq<Block>, child: nat, parent: nat, k: nat)
    requires child < |blocks| && Candidate(blocks, child, parent) && k < |blocks| && blocks[k].kind.IsMain()
    ensures k <= Min(child, parent) || Max(child, parent) <= k
  {
  }

  /** A child has at most one candidate on each side, and a footnote none after it. */
  lemma OneEachSide(blocks: seq<Block>, child: nat, p: nat, q: nat)
    requires Numbered(blocks) && child < |blocks| && blocks[child].kind.IsChild()
    requires Candidate(blocks, child, p) && Candidate(blocks, child, q)
    ensures (p < child && q < child) || (child < p && child < q) ==> p == q
    ensures blocks[child].kind.Footnote? ==> p < child
  {
    NoMainBetween(blocks, child, p, q);
    NoMainBetween(blocks, child, q, p);
    assert child < p ==> IndexOf(blocks[child]) < IndexOf(blocks[p]);
  }

  /** The parent is a main block with nothing but captions and footnotes
      between, and no candidate is nearer; without one there is no candidate. */
  lemma ParentIsNearest(blocks: seq<Block>, child: nat, q: nat)
    requires child < |blocks| && Candidate(blocks, child, q)
    ensures ParentOf(blocks, child).Some?
    ensures var parent := ParentOf(blocks, child).value;
            && PositionDistance(parent, child) <= PositionDistance(q, child)
            && forall k :: Min(child, parent) < k < Max(child, parent) ==> blocks[k].kind.IsChild()
  {
    NearestIsBest(blocks, child, |blocks|, q);
  }

  /** Attachment never crosses: of two children the left one never has the
      parent further right. */
  lemma NeverCrosses(blocks: seq<Block>, left: nat, right: nat)
    requires Numbered(blocks) && left < right < |blocks|
    requires blocks[left].kind.IsChild() && blocks[right].kind.IsChild()
    requires ParentOf(blocks, left).Some? && ParentOf(blocks, right).Some?
    ensures ParentOf(blocks, left).value <= ParentOf(blocks, right).value
  {
    var p, q := ParentOf(blocks, left).value, ParentOf(blocks, right).value;
    if q < p {
      NoMainBetween(blocks, right, q, p);
      NoMainBetween(blocks, left, p, q);
      OneEachSide(blocks, left, p, p);
      assert blocks[left].kind.Caption? && Allowed(blocks[left].kind, blocks[right].kind);
      assert Candidate(blocks, left, q) && Candidate(blocks, right, p);
      ParentIsNearest(blocks, left, q);
      ParentIsNearest(blocks, right, p);
    }
  }
}
