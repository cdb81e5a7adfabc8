/** Where the page holds every block that heads no group and joins none, told from
    its type and the boxes of the lists alone. */
module PagePlaces {
  import opened Options
  import opened Sorting
  import opened Blocks
  import opened Attachment
  import opened ListAbsorption
  import opened PagePieces
  import opened PageParts
  import opened PageOrder
  import opened PageGroups

  /** The first list of the page that the block lies in. */
  ghost predicate FirstList(blocks: seq<Block>, block: Block, q: nat) {
    && q < |blocks| && blocks[q].kind.List? && LiesIn(block.bbox, blocks[q].bbox)
    && forall r: nat :: r < q && blocks[r].kind.List? ==> !LiesIn(block.bbox, blocks[r].bbox)
  }

  /** The block is in the first list it lies in, and at the top when it lies in none. */
  ghost predicate Listed(blocks: seq<Block>, preproc: seq<Block>, block: Block) {
    && (forall q: nat :: FirstList(blocks, block, q) ==>
          exists g :: g in preproc && g.kind.List? && g.index == blocks[q].index && block in g.blocks)
    && ((forall q: nat :: q < |blocks| && blocks[q].kind.List? ==> !LiesIn(block.bbox, blocks[q].bbox)) ==>
          block in preproc)
  }

  /** A child that no body can hold is listed as text. */
  ghost predicate LoneListed(blocks: seq<Block>, preproc: seq<Block>, pos: nat)
    requires pos < |blocks|
  {
    (forall p: nat :: !CanHold(blocks, pos, p)) ==> Listed(blocks, preproc, blocks[pos].(kind := Text))
  }

  /** Margins are set apart; titles, phonetics and equations stay as they are; and
      text, references, blocks of other types and children that no body can hold go
      to lists or stay, the children as text. */
  ghost predicate PlacesMean(blocks: seq<Block>, preproc: seq<Block>, discarded: seq<Block>) {
    forall pos: nat :: pos < |blocks| ==>
      match blocks[pos].kind
      case Header => blocks[pos] in discarded
      case Footer => blocks[pos] in discarded
      case PageNumber => blocks[pos] in discarded
      case AsideText => blocks[pos] in discarded
      case PageFootnote => blocks[pos] in discarded
      case Title => blocks[pos] in preproc
      case Phonetic => blocks[pos] in preproc
      case InterlineEquation => blocks[pos] in preproc
      case Caption => LoneListed(blocks, preproc, pos)
      case Footnote => LoneListed(blocks, preproc, pos)
      case Body(_) => true
      case ImageBlockBody => true
      case List => true
      case _ => Listed(blocks, preproc, blocks[pos])
  }

  // ------------------------------------------------------------ pieces are blocks

  lemma SamePiece(place: Place, a: Block, b: Block)
    requires PieceOf(place, a) == PieceOf(place, b) && a.blocks == b.blocks
    ensures a == b
  {
  }

  lemma {:induction false} FlatMember(place: Place, members: seq<Block>, p: Piece)
    requires p in Flat(place, members)
    ensures p.place == place && exists m :: m in members && p == PieceOf(place, m)
  {
    if p !in Flat(place, members[..|members| - 1]) {
      assert p == PieceOf(place, members[|members| - 1]);
    } else {
      FlatMember(place, members[..|members| - 1], p);
    }
  }

  /** A piece of the page is a block at the top or a member of one. */
  lemma {:induction false} BagMember(place: Place, blocks: seq<Block>, p: Piece)
    requires p in Bag(place, blocks)
    ensures (exists b :: b in blocks && p == PieceOf(place, b) && (b.blocks == [] || b.kind.List?))
         || (exists b, m :: b in blocks && m in b.blocks && p == PieceOf(In(b.index), m))
  {
    hide Flat;
    var n := |blocks| - 1;
    if p in Bag(place, blocks[..n]) {
      BagMember(place, blocks[..n], p);
    } else {
      assert p in Pieces(place, blocks[n]);
      if p in Flat(In(blocks[n].index), blocks[n].blocks) {
        FlatMember(In(blocks[n].index), blocks[n].blocks, p);
      }
    }
  }

  lemma {:induction false} ExpectedHolds(blocks: seq<Block>, n: nat, pos: nat)
    requires pos < n <= |blocks|
    ensures FinalPiece(blocks, pos) <= Expected(blocks, n)
  {
    hide FinalPiece;
    if pos < n - 1 {
      ExpectedHolds(blocks, n - 1, pos);
    }
  }

  // --------------------------------------------------------------- the first list

  lemma {:induction false} AbsorberMeans(blocks: seq<Block>, block: Block, n: nat)
    requires n <= |blocks|
    ensures var lists := OfCategory(blocks, Listing, n);
            match Absorber(lists, block.bbox)
            case None => forall q: nat :: q < n && blocks[q].kind.List? ==> !LiesIn(block.bbox, blocks[q].bbox)
            case Some(i) => exists q: nat :: q < n && FirstList(blocks, block, q) && lists[i] == blocks[q]
  {
    hide LiesIn;
    if n > 0 {
      var before := OfCategory(blocks, Listing, n - 1);
      AbsorberMeans(blocks, block, n - 1);
      if blocks[n - 1].kind.List? {
        assert (before + [blocks[n - 1]])[..|before|] == before;
        if Absorber(before, block.bbox).None? && LiesIn(block.bbox, blocks[n - 1].bbox) {
          assert FirstList(blocks, block, n - 1);
        }
      }
    }
  }

  lemma OneFirstList(blocks: seq<Block>, block: Block, q: nat, r: nat)
    requires FirstList(blocks, block, q) && FirstList(blocks, block, r)
    ensures q == r
  {
    hide LiesIn;
  }

  lemma PlaceMeans(blocks: seq<Block>, block: Block)
    ensures forall q: nat :: FirstList(blocks, block, q) ==> PlaceBy(ListsOf(blocks), block) == In(blocks[q].index)
    ensures (forall q: nat :: q < |blocks| && blocks[q].kind.List? ==> !LiesIn(block.bbox, blocks[q].bbox)) ==>
              PlaceBy(ListsOf(blocks), block) == TopLevel
  {
    hide LiesIn, OfCategory, FirstList, Absorber;
    AbsorberMeans(blocks, block, |blocks|);
    forall q: nat | FirstList(blocks, block, q)
      ensures q < |blocks| && PlaceBy(ListsOf(blocks), block) == In(blocks[q].index)
    {
      FirstLies(blocks, block, q);
      var i := Absorber(ListsOf(blocks), block.bbox).value;
      var r: nat :| r < |blocks| && FirstList(blocks, block, r) && ListsOf(blocks)[i] == blocks[r];
      OneFirstList(blocks, block, q, r);
    }
    match Absorber(ListsOf(blocks), block.bbox)
    case None =>
    case Some(i) =>
      var r: nat :| r < |blocks| && FirstList(blocks, block, r) && ListsOf(blocks)[i] == blocks[r];
      FirstLies(blocks, block, r);
  }

  lemma FirstLies(blocks: seq<Block>, block: Block, q: nat)
    requires FirstList(blocks, block, q)
    ensures q < |blocks| && blocks[q].kind.List? && LiesIn(block.bbox, blocks[q].bbox)
  {
  }

  // ------------------------------------------------------------------- the places

  /** A block whose final piece is itself at the place is found there. */
  lemma FoundOnPage(blocks: seq<Block>, preproc: seq<Block>, discarded: seq<Block>, pos: nat, place: Place,
                    block: Block)
    requires pos < |blocks| && IsPageOf(blocks, preproc, discarded)
    requires FinalPiece(blocks, pos) == One(place, block) && block.blocks == [] && !block.kind.List?
    ensures place == TopLevel ==> block in preproc
    ensures place == Discarded ==> block in discarded
    ensures place.In? ==> exists g :: g in preproc && g.index == place.index && block in g.blocks
  {
    hide FinalPiece, Bag, Expected;
    var p := PieceOf(place, block);
    ExpectedHolds(blocks, |blocks|, pos);
    assert p in FinalPiece(blocks, pos);
    assert p in Expected(blocks, |blocks|);
    if p in Bag(TopLevel, preproc) {
      BagMember(TopLevel, preproc, p);
      TopOrMember(preproc, place, block);
    } else {
      BagMember(Discarded, discarded, p);
      MarginFound(discarded, place, block);
    }
  }

  lemma TopOrMember(preproc: seq<Block>, place: Place, block: Block)
    requires forall i :: 0 <= i < |preproc| ==> AllFlat(preproc[i].blocks)
    requires block.blocks == [] && !block.kind.List?
    requires (exists b :: b in preproc && PieceOf(place, block) == PieceOf(TopLevel, b)
                && (b.blocks == [] || b.kind.List?))
          || (exists b, m :: b in preproc && m in b.blocks && PieceOf(place, block) == PieceOf(In(b.index), m))
    ensures place == TopLevel ==> block in preproc
    ensures place != Discarded
    ensures place.In? ==> exists g :: g in preproc && g.index == place.index && block in g.blocks
  {
    if b :| b in preproc && PieceOf(place, block) == PieceOf(TopLevel, b) && (b.blocks == [] || b.kind.List?) {
      SamePiece(TopLevel, block, b);
    } else {
      var b, m :| b in preproc && m in b.blocks && PieceOf(place, block) == PieceOf(In(b.index), m);
      assert m.blocks == [];
      SamePiece(place, block, m);
    }
  }

  lemma MarginFound(discarded: seq<Block>, place: Place, block: Block)
    requires AllFlat(discarded) && block.blocks == []
    requires (exists b :: b in discarded && PieceOf(place, block) == PieceOf(Discarded, b)
                && (b.blocks == [] || b.kind.List?))
          || (exists b, m :: b in discarded && m in b.blocks && PieceOf(place, block) == PieceOf(In(b.index), m))
    ensures place == Discarded && block in discarded
  {
    assert forall b :: b in discarded ==> b.blocks == [];
    var b :| b in discarded && PieceOf(place, block) == PieceOf(Discarded, b);
    SamePiece(Discarded, block, b);
  }

  lemma DistinctIndex(blocks: seq<Block>, p: nat, q: nat)
    requires Numbered(blocks) && p < |blocks| && q < |blocks| && blocks[p].index == blocks[q].index
    ensures p == q
  {
    assert p < q ==> IndexOf(blocks[p]) < IndexOf(blocks[q]);
    assert q < p ==> IndexOf(blocks[q]) < IndexOf(blocks[p]);
  }

  /** What holds members at the index of a list is that list. */
  lemma HolderIsList(blocks: seq<Block>, preproc: seq<Block>, q: nat, g: Block)
    requires Numbered(blocks) && GroupsMean(blocks, preproc) && q < |blocks| && blocks[q].kind.List?
    requires g in preproc && g.blocks != [] && g.index == blocks[q].index
    ensures g.kind.List?
  {
    hide Belongs, Numbered;
    if !g.kind.List? {
      var pos: nat :| pos < |blocks| && IsGroupOf(blocks, pos, g);
      DistinctIndex(blocks, pos, q);
    }
  }

  lemma ListedAt(blocks: seq<Block>, preproc: seq<Block>, discarded: seq<Block>, pos: nat, block: Block)
    requires Numbered(blocks) && GroupsMean(blocks, preproc) && IsPageOf(blocks, preproc, discarded) && pos < |blocks|
    requires FinalPiece(blocks, pos) == One(PlaceBy(ListsOf(blocks), block), block)
    requires block.blocks == [] && !block.kind.List?
    ensures Listed(blocks, preproc, block)
  {
    hide Numbered, GroupsMean, IsPageOf, FinalPiece, One, ListsOf, PlaceBy, LiesIn, FirstList;
    var place := PlaceBy(ListsOf(blocks), block);
    FoundOnPage(blocks, preproc, discarded, pos, place, block);
    PlaceMeans(blocks, block);
    forall q: nat | FirstList(blocks, block, q)
      ensures q < |blocks|
      ensures exists g :: g in preproc && g.kind.List? && g.index == blocks[q].index && block in g.blocks
    {
      FirstLies(blocks, block, q);
      var g :| g in preproc && g.index == place.index && block in g.blocks;
      HolderIsList(blocks, preproc, q, g);
    }
  }

  ghost predicate PlacedAsText(blocks: seq<Block>, pos: nat)
    requires pos < |blocks|
  {
    var text := blocks[pos].(kind := Text);
    FinalPiece(blocks, pos) == One(PlaceBy(ListsOf(blocks), text), text)
  }

  /** The final place and type of each kind of block, from its type alone. */
  lemma KindPlaces(blocks: seq<Block>, pos: nat)
    requires pos < |blocks|
    ensures var b := blocks[pos];
            match b.kind
            case Header => FinalPiece(blocks, pos) == One(Discarded, b)
            case Footer => FinalPiece(blocks, pos) == One(Discarded, b)
            case PageNumber => FinalPiece(blocks, pos) == One(Discarded, b)
            case AsideText => FinalPiece(blocks, pos) == One(Discarded, b)
            case PageFootnote => FinalPiece(blocks, pos) == One(Discarded, b)
            case Title => FinalPiece(blocks, pos) == One(TopLevel, b)
            case Phonetic => FinalPiece(blocks, pos) == One(TopLevel, b)
            case InterlineEquation => FinalPiece(blocks, pos) == One(TopLevel, b)
            case Caption => ParentOf(blocks, pos).None? ==> PlacedAsText(blocks, pos)
            case Footnote => ParentOf(blocks, pos).None? ==> PlacedAsText(blocks, pos)
            case Body(_) => true
            case ImageBlockBody => true
            case List => true
            case _ => FinalPiece(blocks, pos) == One(PlaceBy(ListsOf(blocks), b), b)
  {
    hide One, ListsOf, PlaceBy, ParentOf;
    SamePlace(ListsOf(blocks), blocks[pos], Text);
    assert blocks[pos].(kind := blocks[pos].kind) == blocks[pos];
  }

  /** Every page holds its blocks at these places. */
  lemma PageHasPlaces(blocks: seq<Block>, preproc: seq<Block>, discarded: seq<Block>)
    requires Numbered(blocks) && AllFlat(blocks) && GroupsMean(blocks, preproc) && IsPageOf(blocks, preproc, discarded)
    ensures PlacesMean(blocks, preproc, discarded)
  {
    hide Numbered, GroupsMean, IsPageOf, FinalPiece, One, ListsOf, PlaceBy, Listed, CanHold, ParentOf;
    forall pos: nat | pos < |blocks|
      ensures match blocks[pos].kind
              case Header => blocks[pos] in discarded
              case Footer => blocks[pos] in discarded
              case PageNumber => blocks[pos] in discarded
              case AsideText => blocks[pos] in discarded
              case PageFootnote => blocks[pos] in discarded
              case Title => blocks[pos] in preproc
              case Phonetic => blocks[pos] in preproc
              case InterlineEquation => blocks[pos] in preproc
              case Caption => LoneListed(blocks, preproc, pos)
              case Footnote => LoneListed(blocks, preproc, pos)
              case Body(_) => true
              case ImageBlockBody => true
              case List => true
              case _ => Listed(blocks, preproc, blocks[pos])
    {
      KindPlaces(blocks, pos);
      var b := blocks[pos];
      match b.kind
      case Header => FoundOnPage(blocks, preproc, discarded, pos, Discarded, b);
      case Footer => FoundOnPage(blocks, preproc, discarded, pos, Discarded, b);
      case PageNumber => FoundOnPage(blocks, preproc, discarded, pos, Discarded, b);
      case AsideText => FoundOnPage(blocks, preproc, discarded, pos, Discarded, b);
      case PageFootnote => FoundOnPage(blocks, preproc, discarded, pos, Discarded, b);
      case Title => FoundOnPage(blocks, preproc, discarded, pos, TopLevel, b);
      case Phonetic => FoundOnPage(blocks, preproc, discarded, pos, TopLevel, b);
      case InterlineEquation => FoundOnPage(blocks, preproc, discarded, pos, TopLevel, b);
      case Caption => LoneChildListed(blocks, preproc, discarded, pos);
      case Footnote => LoneChildListed(blocks, preproc, discarded, pos);
      case Body(_) =>
      case ImageBlockBody =>
      case List =>
      case _ => ListedAt(blocks, preproc, discarded, pos, b);
    }
  }

  lemma LoneChildListed(blocks: seq<Block>, preproc: seq<Block>, discarded: seq<Block>, pos: nat)
    requires Numbered(blocks) && AllFlat(blocks) && GroupsMean(blocks, preproc) && IsPageOf(blocks, preproc, discarded)
    requires pos < |blocks| && (blocks[pos].kind.Caption? || blocks[pos].kind.Footnote?)
    ensures LoneListed(blocks, preproc, pos)
  {
    hide Numbered, GroupsMean, IsPageOf, FinalPiece, One, ListsOf, PlaceBy, Listed, CanHold, ParentOf;
    KindPlaces(blocks, pos);
    ParentMeans(blocks, pos);
    if forall p: nat :: !CanHold(blocks, pos, p) {
      ListedAt(blocks, preproc, discarded, pos, blocks[pos].(kind := Text));
    }
  }
}
