/** Text blocks that continue the one before them give it their lines. */
module ParagraphMerge {
  import opened Options
  import opened Blocks

  /** The last text block before position `i`. */
  function PreviousText(blocks: seq<Block>, i: nat): (previous: Option<nat>)
    requires i <= |blocks|
    ensures previous.Some? ==> previous.value < i && blocks[previous.value].kind.Text?
    ensures previous.Some? ==> forall k :: previous.value < k < i ==> !blocks[k].kind.Text?
    ensures previous.None? ==> forall k :: 0 <= k < i ==> !blocks[k].kind.Text?
  {
    if i == 0 then None else if blocks[i - 1].kind.Text? then Some(i - 1) else PreviousText(blocks, i - 1)
  }

  /** A text block marked as a continuation, with a text block before it. */
  predicate Follows(blocks: seq<Block>, i: nat)
    requires i < |blocks|
  {
    blocks[i].kind.Text? && blocks[i].mergePrev == Some(true) && PreviousText(blocks, i).Some?
  }

  /** The lines of the followers from position `i` up to the next leading text block. */
  function FollowLines(blocks: seq<Block>, i: nat): seq<Line>
    requires i <= |blocks|
    decreases |blocks| - i
  {
    if i == |blocks| then []
    else if !blocks[i].kind.Text? then FollowLines(blocks, i + 1)
    else if Follows(blocks, i) then blocks[i].lines + FollowLines(blocks, i + 1)
    else []
  }

  /** A leading text block ends with the lines of its followers, a follower with
      none; other blocks are left alone. */
  function MergedLines(blocks: seq<Block>, i: nat): seq<Line>
    requires i < |blocks|
  {
    if !blocks[i].kind.Text? then blocks[i].lines
    else if Follows(blocks, i) then []
    else blocks[i].lines + FollowLines(blocks, i + 1)
  }

  function Merged(blocks: seq<Block>): (r: seq<Block>)
    ensures |r| == |blocks|
  {
    seq(|blocks|, i requires 0 <= i < |blocks| => blocks[i].(lines := MergedLines(blocks, i)))
  }

  /** The lines of block `k` once the blocks from `c` on have been visited. */
  function Visited(blocks: seq<Block>, c: nat, k: nat): seq<Line>
    requires c <= |blocks| && k < |blocks|
  {
    if k >= c then MergedLines(blocks, k)
    else if PreviousText(blocks, c) == Some(k) then blocks[k].lines + FollowLines(blocks, c)
    else blocks[k].lines
  }

  /** Visiting a block that is not moved changes nothing. */
  lemma VisitInPlace(blocks: seq<Block>, c: nat, k: nat)
    requires c < |blocks| && k < |blocks|
    requires !Follows(blocks, c) || Visited(blocks, c + 1, c) == []
    ensures Visited(blocks, c, k) == Visited(blocks, c + 1, k)
  {
  }

  /** Visiting a follower moves its lines to the text block before it. */
  lemma VisitMoves(blocks: seq<Block>, c: nat, k: nat)
    requires c < |blocks| && k < |blocks| && Follows(blocks, c)
    ensures Visited(blocks, c, k)
         == if k == c then []
            else if PreviousText(blocks, c) == Some(k) then Visited(blocks, c + 1, k) + Visited(blocks, c + 1, c)
            else Visited(blocks, c + 1, k)
  {
  }

  /** The state once the blocks from `c` on have been visited. */
  ghost predicate At(blocks: seq<Block>, was: seq<Block>, c: nat)
    requires c <= |was|
  {
    |blocks| == |was| && forall k :: 0 <= k < |was| ==> blocks[k] == was[k].(lines := Visited(was, c, k))
  }

  lemma StayStep(blocks: seq<Block>, was: seq<Block>, c: nat)
    requires c < |was| && At(blocks, was, c + 1)
    requires !Follows(was, c) || blocks[c].lines == []
    ensures At(blocks, was, c)
  {
    hide Visited, Follows;
    forall k | 0 <= k < |was|
      ensures Visited(was, c, k) == Visited(was, c + 1, k)
    {
      VisitInPlace(was, c, k);
    }
  }

  lemma MoveStep(blocks: seq<Block>, was: seq<Block>, c: nat, p: nat)
    requires c < |was| && At(blocks, was, c + 1) && Follows(was, c) && PreviousText(was, c) == Some(p)
    ensures At(blocks[c := blocks[c].(lines := [])][p := blocks[p].(lines := blocks[p].lines + blocks[c].lines)], was, c)
  {
    hide Visited, Follows;
    forall k | 0 <= k < |was|
      ensures Visited(was, c, k)
           == if k == c then []
              else if k == p then Visited(was, c + 1, k) + Visited(was, c + 1, c)
              else Visited(was, c + 1, k)
    {
      VisitMoves(was, c, k);
    }
  }

  lemma StartAndEnd(blocks: seq<Block>)
    ensures At(blocks, blocks, |blocks|)
    ensures forall s :: At(s, blocks, 0) ==> s == Merged(blocks)
  {
    hide MergedLines;
    forall s | At(s, blocks, 0)
      ensures s == Merged(blocks)
    {
      assert forall k :: 0 <= k < |blocks| ==> s[k] == Merged(blocks)[k];
    }
  }

  lemma SamePrevious(blocks: seq<Block>, was: seq<Block>, c: nat, found: Option<nat>)
    requires c < |was| && At(blocks, was, c + 1)
    requires match found
             case Some(p) => p < c && blocks[p].kind.Text? && forall k :: p < k < c ==> !blocks[k].kind.Text?
             case None => forall k :: 0 <= k < c ==> !blocks[k].kind.Text?
    ensures PreviousText(was, c) == found
    ensures blocks[c].kind == was[c].kind && blocks[c].mergePrev == was[c].mergePrev
  {
    hide Visited, PreviousText;
    assert forall k :: 0 <= k < |was| ==> blocks[k].kind == was[k].kind;
  }

  /** Visits the blocks from the last to the first and moves lines in place. */
  method MergeParaTextBlocks(blocks: array<Block>)
    modifies blocks
    ensures blocks[..] == Merged(old(blocks[..]))
  {
    ghost var was := blocks[..];
    hide At, Merged, PreviousText;
    StartAndEnd(was);
    var c := blocks.Length;
    while c > 0
      invariant 0 <= c <= blocks.Length && At(blocks[..], was, c)
    {
      c := c - 1;
      ghost var before := blocks[..];
      var previous := FindText(blocks, c);
      SamePrevious(before, was, c, previous);
      if blocks[c].kind != Text || blocks[c].mergePrev != Some(true) || blocks[c].lines == [] {
        StayStep(before, was, c);
        continue;
      }
      if previous.Some? {
        MoveStep(before, was, c, previous.value);
        var lines := blocks[c].lines;
        blocks[c] := blocks[c].(lines := []);
        blocks[previous.value] := blocks[previous.value].(lines := blocks[previous.value].lines + lines);
        assert blocks[..] == before[c := before[c].(lines := [])]
          [previous.value := before[previous.value].(lines := before[previous.value].lines + before[c].lines)];
      } else {
        StayStep(before, was, c);
      }
    }
  }

  method FindText(blocks: array<Block>, end: nat) returns (found: Option<nat>)
    requires end <= blocks.Length
    ensures found.Some? ==> found.value < end && blocks[found.value].kind.Text?
    ensures found.Some? ==> forall k :: found.value < k < end ==> !blocks[k].kind.Text?
    ensures found.None? ==> forall k :: 0 <= k < end ==> !blocks[k].kind.Text?
  {
    var i := end;
    while i > 0
      invariant 0 <= i <= end
      invariant forall k :: i <= k < end ==> !blocks[k].kind.Text?
    {
      i := i - 1;
      if blocks[i].kind.Text? {
        return Some(i);
      }
    }
    found := None;
  }

  // ------------------------------------------------------------- what it keeps

  /** The lines of all text blocks from position `i` on, in order. */
  function TextLines(blocks: seq<Block>, i: nat): seq<Line>
    requires i <= |blocks|
    decreases |blocks| - i
  {
    if i == |blocks| then []
    else (if blocks[i].kind.Text? then blocks[i].lines else []) + TextLines(blocks, i + 1)
  }

  lemma MergedAt(blocks: seq<Block>, i: nat)
    requires i < |blocks|
    ensures Merged(blocks)[i] == blocks[i].(lines := MergedLines(blocks, i))
  {
  }

  lemma {:induction false} SuffixLines(blocks: seq<Block>, i: nat)
    requires i <= |blocks|
    ensures FollowLines(blocks, i) + TextLines(Merged(blocks), i) == TextLines(blocks, i)
    decreases |blocks| - i
  {
    hide Merged, PreviousText;
    if i < |blocks| {
      SuffixLines(blocks, i + 1);
      MergedAt(blocks, i);
      var follow, rest := FollowLines(blocks, i + 1), TextLines(Merged(blocks), i + 1);
      assert blocks[i].lines + follow + rest == blocks[i].lines + (follow + rest);
    }
  }

  lemma {:induction false} NoLeader(blocks: seq<Block>, i: nat)
    requires i <= |blocks| && PreviousText(blocks, i).None?
    ensures FollowLines(blocks, i) == []
    decreases |blocks| - i
  {
    if i < |blocks| && !blocks[i].kind.Text? {
      NoLeader(blocks, i + 1);
    }
  }

  /** Merging moves lines between text blocks and neither loses nor reorders one. */
  lemma MergeKeepsLines(blocks: seq<Block>)
    ensures TextLines(Merged(blocks), 0) == TextLines(blocks, 0)
  {
    SuffixLines(blocks, 0);
    NoLeader(blocks, 0);
  }

  lemma {:induction false} MergedPrevious(blocks: seq<Block>, i: nat)
    requires i <= |blocks|
    ensures PreviousText(Merged(blocks), i) == PreviousText(blocks, i)
  {
    if i > 0 {
      MergedPrevious(blocks, i - 1);
    }
  }

  lemma {:induction false} NothingFollows(blocks: seq<Block>, i: nat)
    requires i <= |blocks|
    ensures FollowLines(Merged(blocks), i) == []
    decreases |blocks| - i
  {
    if i < |blocks| {
      NothingFollows(blocks, i + 1);
      MergedPrevious(blocks, i);
    }
  }

  /** Merging again changes nothing more. */
  lemma MergeIsIdempotent(blocks: seq<Block>)
    ensures Merged(Merged(blocks)) == Merged(blocks)
  {
    forall i | 0 <= i < |blocks|
      ensures Merged(Merged(blocks))[i] == Merged(blocks)[i]
    {
      NothingFollows(blocks, i + 1);
      MergedPrevious(blocks, i);
    }
  }

  lemma {:induction false} HasPrevious(blocks: seq<Block>, i: nat, k: nat)
    requires k < i <= |blocks| && blocks[k].kind.Text?
    ensures PreviousText(blocks, i).Some?
  {
  }

  /** A text block that is not marked as a continuation, or has no text before it,
      keeps its own lines and may gain more; a marked one behind another text block
      ends empty; and nothing but the lines of text blocks changes. */
  lemma MergeMoves(blocks: seq<Block>, i: nat)
    requires i < |blocks|
    ensures Merged(blocks)[i] == blocks[i].(lines := Merged(blocks)[i].lines)
    ensures !blocks[i].kind.Text? ==> Merged(blocks)[i] == blocks[i]
    ensures blocks[i].kind.Text? && blocks[i].mergePrev != Some(true) ==> blocks[i].lines <= Merged(blocks)[i].lines
    ensures (forall k :: 0 <= k < i ==> !blocks[k].kind.Text?) ==> blocks[i].lines <= Merged(blocks)[i].lines
    ensures (exists k :: 0 <= k < i && blocks[k].kind.Text?) ==>
              blocks[i].kind.Text? && blocks[i].mergePrev == Some(true) ==> Merged(blocks)[i].lines == []
  {
    hide Merged, PreviousText;
    MergedAt(blocks, i);
    if k :| 0 <= k < i && blocks[k].kind.Text? {
      HasPrevious(blocks, i, k);
    }
  }
}
