/** The page builder and what it guarantees of every page. */
module PageBuilder {
  import opened Options
  import opened Sorting
  import opened Blocks
  import opened Attachment
  import opened Regroup
  import opened ListAbsorption
  import opened PagePieces
  import opened PageParts
  import opened PageAssembly
  import opened PageOrder
  import opened PageGroups
  import opened PagePlaces

  // --------------------------------------------------------------- the builder

  /** The blocks by type; main blocks and children are not among them. */
  datatype ByType = ByType(
    texts: seq<Block>, titles: seq<Block>, refs: seq<Block>, phonetics: seq<Block>, lists: seq<Block>,
    equations: seq<Block>, discarded: seq<Block>)

  ghost predicate IsByType(s: ByType, blocks: seq<Block>, n: nat)
    requires n <= |blocks|
  {
    && s.texts == OfCategory(blocks, Plain, n) && s.titles == OfCategory(blocks, TitleLike, n)
    && s.refs == OfCategory(blocks, Reference, n) && s.phonetics == OfCategory(blocks, Sound, n)
    && s.lists == OfCategory(blocks, Listing, n) && s.equations == OfCategory(blocks, Formula, n)
    && s.discarded == OfCategory(blocks, Margin, n)
  }

  method SortByType(blocks: seq<Block>) returns (s: ByType)
    ensures IsByType(s, blocks, |blocks|)
  {
    s := ByType([], [], [], [], [], [], []);
    for i := 0 to |blocks|
      invariant IsByType(s, blocks, i)
    {
      var block := blocks[i];
      if block.kind.IsMain() || block.kind.IsChild() {
        continue;
      }
      match block.kind {
        case InterlineEquation => s := s.(equations := s.equations + [block]);
        case Title => s := s.(titles := s.titles + [block]);
        case RefText => s := s.(refs := s.refs + [block]);
        case Phonetic => s := s.(phonetics := s.phonetics + [block]);
        case Header => s := s.(discarded := s.discarded + [block]);
        case Footer => s := s.(discarded := s.discarded + [block]);
        case PageNumber => s := s.(discarded := s.discarded + [block]);
        case AsideText => s := s.(discarded := s.discarded + [block]);
        case PageFootnote => s := s.(discarded := s.discarded + [block]);
        case List => s := s.(lists := s.lists + [block]);
        case _ => s := s.(texts := s.texts + [block]);
      }
    }
  }

  /** The page builder: what it returns is a complete page of the blocks. */
  method BuildPage(blocks: seq<Block>) returns (preproc: seq<Block>, discarded: seq<Block>)
    requires Numbered(blocks) && AllFlat(blocks)
    ensures preproc == Sort(PageBody(blocks), IndexOf) && discarded == Sort(Margins(blocks), IndexOf)
    ensures IsPageOf(blocks, preproc, discarded)
    ensures GroupsMean(blocks, preproc) && PlacesMean(blocks, preproc, discarded)
  {
    hide Sort, Taken, Surviving, Groups, ChildrenOf, IsPageOf, OfCategory, GroupsMean, PlacesMean, Numbered, AllFlat;
    var groups, unmatched := RegroupVisualBlocks(blocks);
    var sorted := SortByType(blocks);
    var texts := sorted.texts;
    for i := 0 to |unmatched|
      invariant texts == sorted.texts + RetextAll(unmatched[..i])
    {
      RetextSnoc(unmatched[..i], unmatched[i]);
      assert unmatched[..i + 1] == unmatched[..i] + [unmatched[i]];
      texts := texts + [unmatched[i].(kind := Text)];
    }
    assert unmatched[..|unmatched|] == unmatched;
    var lists, refs;
    lists, texts, refs := FixListBlocks(sorted.lists, texts, sorted.refs);
    preproc := groups.image + groups.table + groups.chart + groups.code
               + refs + sorted.phonetics + sorted.titles + texts + sorted.equations + lists;
    assert groups.Of(Image) == groups.image && groups.Of(Table) == groups.table
        && groups.Of(Chart) == groups.chart && groups.Of(Code) == groups.code;
    assert preproc == PageBody(blocks);
    preproc := Sort(preproc, IndexOf);
    discarded := Sort(sorted.discarded, IndexOf);
    PageIsComplete(blocks);
    PageHasGroups(blocks);
    PageHasPlaces(blocks, preproc, discarded);
  }
}
