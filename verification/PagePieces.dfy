/** Where every block of a page ends up, and multisets of such pieces. */
module PagePieces {
  import opened Options
  import opened Sorting
  import opened Blocks
  import opened Attachment
  import opened ListAbsorption

  datatype Place = TopLevel | Discarded | In(index: nat)

  /** A block without members, together with the place it is found at. */
  datatype Piece = Piece(place: Place, kind: Kind, index: nat, bbox: Box, lines: seq<Line>, mergePrev: Option<bool>)

  function PieceOf(place: Place, block: Block): Piece {
    Piece(place, block.kind, block.index, block.bbox, block.lines, block.mergePrev)
  }

  function One(place: Place, block: Block): multiset<Piece> {
    multiset{PieceOf(place, block)}
  }

  /** The pieces of blocks that have no members. */
  function Flat(place: Place, blocks: seq<Block>): multiset<Piece> {
    if blocks == [] then multiset{}
    else Flat(place, blocks[..|blocks| - 1]) + One(place, blocks[|blocks| - 1])
  }

  /** The pieces of a top-level block: itself, or its members. A list that has
      members is a piece as well. */
  function Pieces(place: Place, block: Block): multiset<Piece> {
    if block.blocks == [] then One(place, block)
    else Flat(In(block.index), block.blocks) + if block.kind.List? then One(place, block) else multiset{}
  }

  function Bag(place: Place, blocks: seq<Block>): multiset<Piece> {
    if blocks == [] then multiset{}
    else Bag(place, blocks[..|blocks| - 1]) + Pieces(place, blocks[|blocks| - 1])
  }

  lemma {:induction false} FlatAppend(place: Place, a: seq<Block>, b: seq<Block>)
    ensures Flat(place, a + b) == Flat(place, a) + Flat(place, b)
  {
    hide One;
    if b == [] {
      assert a + b == a;
    } else {
      var n := |b| - 1;
      FlatAppend(place, a, b[..n]);
      FlatSnoc(place, a + b[..n], b[n]);
      assert a + b == a + b[..n] + [b[n]];
    }
  }

  lemma {:induction false} BagAppend(place: Place, a: seq<Block>, b: seq<Block>)
    ensures Bag(place, a + b) == Bag(place, a) + Bag(place, b)
  {
    hide Pieces;
    if b == [] {
      assert a + b == a;
    } else {
      var n := |b| - 1;
      BagAppend(place, a, b[..n]);
      BagSnoc(place, a + b[..n], b[n]);
      assert a + b == a + b[..n] + [b[n]];
    }
  }

  lemma FlatSnoc(place: Place, blocks: seq<Block>, block: Block)
    ensures Flat(place, blocks + [block]) == Flat(place, blocks) + One(place, block)
  {
    hide One;
    assert (blocks + [block])[..|blocks|] == blocks;
  }

  lemma BagSnoc(place: Place, blocks: seq<Block>, block: Block)
    ensures Bag(place, blocks + [block]) == Bag(place, blocks) + Pieces(place, block)
  {
    hide Pieces;
    assert (blocks + [block])[..|blocks|] == blocks;
  }

  lemma {:induction false} FlatInsert(place: Place, block: Block, blocks: seq<Block>)
    ensures Flat(place, Insert(block, blocks, IndexOf)) == Flat(place, blocks) + One(place, block)
  {
    hide One;
    if blocks == [] || IndexOf(blocks[|blocks| - 1]) <= IndexOf(block) {
      FlatSnoc(place, blocks, block);
    } else {
      var rest := blocks[..|blocks| - 1];
      FlatInsert(place, block, rest);
      FlatSnoc(place, Insert(block, rest, IndexOf), blocks[|blocks| - 1]);
    }
  }

  lemma {:induction false} FlatSort(place: Place, blocks: seq<Block>)
    ensures Flat(place, Sort(blocks, IndexOf)) == Flat(place, blocks)
  {
    if blocks != [] {
      FlatSort(place, blocks[..|blocks| - 1]);
      FlatInsert(place, blocks[|blocks| - 1], Sort(blocks[..|blocks| - 1], IndexOf));
    }
  }

  lemma {:induction false} BagInsert(place: Place, block: Block, blocks: seq<Block>)
    ensures Bag(place, Insert(block, blocks, IndexOf)) == Bag(place, blocks) + Pieces(place, block)
  {
    hide Pieces;
    if blocks == [] || IndexOf(blocks[|blocks| - 1]) <= IndexOf(block) {
      BagSnoc(place, blocks, block);
    } else {
      var rest := blocks[..|blocks| - 1];
      BagInsert(place, block, rest);
      BagSnoc(place, Insert(block, rest, IndexOf), blocks[|blocks| - 1]);
    }
  }

  lemma {:induction false} BagSort(place: Place, blocks: seq<Block>)
    ensures Bag(place, Sort(blocks, IndexOf)) == Bag(place, blocks)
  {
    hide Pieces;
    if blocks != [] {
      BagSort(place, blocks[..|blocks| - 1]);
      BagInsert(place, blocks[|blocks| - 1], Sort(blocks[..|blocks| - 1], IndexOf));
    }
  }

  /** Blocks without members are their own pieces. */
  lemma {:induction false} BagOfFlat(place: Place, blocks: seq<Block>)
    requires forall i :: 0 <= i < |blocks| ==> blocks[i].blocks == []
    ensures Bag(place, blocks) == Flat(place, blocks)
  {
    if blocks != [] {
      BagOfFlat(place, blocks[..|blocks| - 1]);
    }
  }

  lemma {:induction false} BagHolds(place: Place, blocks: seq<Block>, i: nat)
    requires i < |blocks|
    ensures Pieces(place, blocks[i]) <= Bag(place, blocks)
  {
    hide Pieces;
    if i < |blocks| - 1 {
      BagHolds(place, blocks[..|blocks| - 1], i);
    }
  }

  lemma {:induction false} BagHoldsTwo(place: Place, blocks: seq<Block>, i: nat, j: nat)
    requires i < j < |blocks|
    ensures Pieces(place, blocks[i]) + Pieces(place, blocks[j]) <= Bag(place, blocks)
  {
    hide Pieces;
    if j < |blocks| - 1 {
      BagHoldsTwo(place, blocks[..|blocks| - 1], i, j);
    } else {
      BagHolds(place, blocks[..|blocks| - 1], i);
    }
  }

  lemma {:induction false} FlatHolds(place: Place, blocks: seq<Block>, i: nat)
    requires i < |blocks|
    ensures PieceOf(place, blocks[i]) in Flat(place, blocks)
  {
    if i < |blocks| - 1 {
      FlatHolds(place, blocks[..|blocks| - 1], i);
    }
  }

  lemma {:induction false} FlatHoldsTwo(place: Place, blocks: seq<Block>, i: nat, j: nat)
    requires i < j < |blocks|
    ensures multiset{PieceOf(place, blocks[i]), PieceOf(place, blocks[j])} <= Flat(place, blocks)
  {
    if j < |blocks| - 1 {
      FlatHoldsTwo(place, blocks[..|blocks| - 1], i, j);
    } else {
      FlatHolds(place, blocks[..|blocks| - 1], i);
    }
  }

  // ---------------------------------------------------- where a block belongs

  datatype Category = Main | Child | Plain | TitleLike | Reference | Sound | Listing | Formula | Margin

  /** How the page builder sorts a block by its type. */
  function CategoryOf(kind: Kind): Category {
    if kind.IsMain() then Main
    else if kind.IsChild() then Child
    else if kind.IsDiscarded() then Margin
    else match kind
         case InterlineEquation => Formula
         case Title => TitleLike
         case RefText => Reference
         case Phonetic => Sound
         case List => Listing
         case _ => Plain
  }

  /** The blocks of a category among the first `n`. */
  function OfCategory(blocks: seq<Block>, category: Category, n: nat): seq<Block>
    requires n <= |blocks|
  {
    if n == 0 then []
    else
      var before := OfCategory(blocks, category, n - 1);
      if CategoryOf(blocks[n - 1].kind) == category then before + [blocks[n - 1]] else before
  }

  function ListsOf(blocks: seq<Block>): seq<Block> {
    OfCategory(blocks, Listing, |blocks|)
  }

  /** The place of a block that lists may absorb. */
  function PlaceBy(lists: seq<Block>, block: Block): Place {
    match Absorber(lists, block.bbox)
    case Some(i) => In(lists[i].index)
    case None => TopLevel
  }

  function FinalPlace(blocks: seq<Block>, pos: nat): Place
    requires pos < |blocks|
  {
    match CategoryOf(blocks[pos].kind)
    case Main => In(blocks[pos].index)
    case Child =>
      (match ParentOf(blocks, pos)
       case Some(parent) => In(blocks[parent].index)
       case None => PlaceBy(ListsOf(blocks), blocks[pos]))
    case Plain => PlaceBy(ListsOf(blocks), blocks[pos])
    case Reference => PlaceBy(ListsOf(blocks), blocks[pos])
    case Margin => Discarded
    case _ => TopLevel
  }

  function FinalKind(blocks: seq<Block>, pos: nat): Kind
    requires pos < |blocks|
  {
    var kind := blocks[pos].kind;
    if kind.IsMain() then Body(kind.GroupVisual())
    else if kind.IsChild() then
      match ParentOf(blocks, pos)
      case Some(parent) =>
        var visual := blocks[parent].kind.GroupVisual();
        if kind.Footnote? then FootnoteOf(visual) else CaptionOf(visual)
      case None => Text
    else kind
  }

  predicate Absorbs(blocks: seq<Block>, pos: nat)
    requires pos < |blocks|
  {
    exists q: nat :: q < |blocks| && FinalPlace(blocks, q) == In(blocks[pos].index)
  }

  /** What the page holds of the block at `pos`: a list only if it absorbed
      something, and then without its lines; any other block once, at its place. */
  function FinalPiece(blocks: seq<Block>, pos: nat): multiset<Piece>
    requires pos < |blocks|
  {
    if blocks[pos].kind.List?
    then if Absorbs(blocks, pos) then One(TopLevel, blocks[pos].(lines := [])) else multiset{}
    else One(FinalPlace(blocks, pos), blocks[pos].(kind := FinalKind(blocks, pos)))
  }

  /** The pieces of the first `n` blocks. */
  function Expected(blocks: seq<Block>, n: nat): multiset<Piece>
    requires n <= |blocks|
  {
    if n == 0 then multiset{} else Expected(blocks, n - 1) + FinalPiece(blocks, n - 1)
  }

  /** The pieces of those of the first `n` blocks that are of a category. */
  function Part(blocks: seq<Block>, category: Category, n: nat): multiset<Piece>
    requires n <= |blocks|
  {
    if n == 0 then multiset{}
    else
      var before := Part(blocks, category, n - 1);
      if CategoryOf(blocks[n - 1].kind) == category then before + FinalPiece(blocks, n - 1) else before
  }

  lemma PartStep(blocks: seq<Block>, category: Category, n: nat, p: Piece)
    requires 0 < n <= |blocks|
    ensures Part(blocks, category, n)[p] == Part(blocks, category, n - 1)[p]
            + if CategoryOf(blocks[n - 1].kind) == category then FinalPiece(blocks, n - 1)[p] else 0
  {
    hide FinalPiece, CategoryOf;
  }

  lemma ExpectedStep(blocks: seq<Block>, n: nat, p: Piece)
    requires 0 < n <= |blocks|
    ensures Expected(blocks, n)[p] == Expected(blocks, n - 1)[p] + FinalPiece(blocks, n - 1)[p]
  {
    hide FinalPiece;
  }

  /** How often a piece occurs among the parts of all categories. */
  function InParts(blocks: seq<Block>, n: nat, p: Piece): nat
    requires n <= |blocks|
  {
    Part(blocks, Main, n)[p] + Part(blocks, Child, n)[p] + Part(blocks, Plain, n)[p] + Part(blocks, TitleLike, n)[p]
    + Part(blocks, Reference, n)[p] + Part(blocks, Sound, n)[p] + Part(blocks, Listing, n)[p]
    + Part(blocks, Formula, n)[p] + Part(blocks, Margin, n)[p]
  }

  lemma InPartsStep(blocks: seq<Block>, n: nat, p: Piece)
    requires 0 < n <= |blocks|
    ensures InParts(blocks, n, p) == InParts(blocks, n - 1, p) + FinalPiece(blocks, n - 1)[p]
  {
    hide Part, CategoryOf, FinalPiece;
    PartStep(blocks, Main, n, p);
    PartStep(blocks, Child, n, p);
    PartStep(blocks, Plain, n, p);
    PartStep(blocks, TitleLike, n, p);
    PartStep(blocks, Reference, n, p);
    PartStep(blocks, Sound, n, p);
    PartStep(blocks, Listing, n, p);
    PartStep(blocks, Formula, n, p);
    PartStep(blocks, Margin, n, p);
  }

  lemma NoParts(blocks: seq<Block>, p: Piece)
    ensures Expected(blocks, 0)[p] == 0 && InParts(blocks, 0, p) == 0
  {
  }

  lemma {:induction false} PartsOf(blocks: seq<Block>, n: nat, p: Piece)
    requires n <= |blocks|
    ensures Expected(blocks, n)[p] == InParts(blocks, n, p)
  {
    hide *;
    if n == 0 {
      NoParts(blocks, p);
    } else {
      PartsOf(blocks, n - 1, p);
      InPartsStep(blocks, n, p);
      ExpectedStep(blocks, n, p);
    }
  }

  // ------------------------------------------------------- distinct positions

  /** No index occurs twice. */
  ghost predicate Distinct(pieces: multiset<Piece>) {
    && (forall p :: p in pieces ==> pieces[p] == 1)
    && (forall p, q :: p in pieces && q in pieces && p.index == q.index ==> p == q)
  }

  lemma FinalPieceAt(blocks: seq<Block>, pos: nat, p: Piece)
    requires pos < |blocks|
    ensures p in FinalPiece(blocks, pos) ==> p.index == blocks[pos].index && FinalPiece(blocks, pos) == multiset{p}
  {
    hide FinalKind, FinalPlace, Absorbs;
  }

  lemma DistinctGrows(pieces: multiset<Piece>, more: multiset<Piece>, index: nat)
    requires Distinct(pieces) && (forall p :: p in pieces ==> p.index < index)
    requires forall p :: p in more ==> p.index == index && more == multiset{p}
    ensures Distinct(pieces + more)
  {
    forall p | p in pieces + more
      ensures (pieces + more)[p] == 1
    {
      if p in more {
        assert p !in pieces && more[p] == 1;
      } else {
        assert more[p] == 0;
      }
    }
  }

  lemma {:induction false} ExpectedDistinct(blocks: seq<Block>, n: nat)
    requires Numbered(blocks) && n <= |blocks|
    ensures Distinct(Expected(blocks, n))
    ensures n > 0 ==> forall p :: p in Expected(blocks, n) ==> p.index <= blocks[n - 1].index
  {
    hide FinalPiece;
    if n > 0 {
      ExpectedDistinct(blocks, n - 1);
      assert n > 1 ==> IndexOf(blocks[n - 2]) < IndexOf(blocks[n - 1]);
      forall p
        ensures p in FinalPiece(blocks, n - 1) ==> p.index == blocks[n - 1].index && FinalPiece(blocks, n - 1) == multiset{p}
      {
        FinalPieceAt(blocks, n - 1, p);
      }
      DistinctGrows(Expected(blocks, n - 1), FinalPiece(blocks, n - 1), blocks[n - 1].index);
    }
  }

  /** The block's own index is that of one of its pieces. */
  ghost predicate Owns(place: Place, block: Block) {
    exists p :: p in Pieces(place, block) && p.index == block.index
  }

  lemma TopIncreasing(place: Place, blocks: seq<Block>)
    requires Distinct(Bag(place, blocks)) && Sorted(blocks, IndexOf)
    requires forall i :: 0 <= i < |blocks| ==> Owns(place, blocks[i])
    ensures Increasing(blocks, IndexOf)
  {
    hide Bag, Pieces;
    forall i, j | 0 <= i < j < |blocks|
      ensures IndexOf(blocks[i]) < IndexOf(blocks[j])
    {
      BagHoldsTwo(place, blocks, i, j);
      var p :| p in Pieces(place, blocks[i]) && p.index == blocks[i].index;
      var q :| q in Pieces(place, blocks[j]) && q.index == blocks[j].index;
      assert (Pieces(place, blocks[i]) + Pieces(place, blocks[j]))[p] <= Bag(place, blocks)[p];
      assert (Pieces(place, blocks[i]) + Pieces(place, blocks[j]))[q] <= Bag(place, blocks)[q];
    }
  }

  lemma MembersIncreasing(place: Place, members: seq<Block>, all: multiset<Piece>)
    requires Distinct(all) && Flat(place, members) <= all && Sorted(members, IndexOf)
    ensures Increasing(members, IndexOf)
  {
    hide Flat;
    forall i, j | 0 <= i < j < |members|
      ensures IndexOf(members[i]) < IndexOf(members[j])
    {
      FlatHoldsTwo(place, members, i, j);
      var p, q := PieceOf(place, members[i]), PieceOf(place, members[j]);
      assert multiset{p, q}[p] <= all[p] && multiset{p, q}[q] <= all[q];
    }
  }
}
