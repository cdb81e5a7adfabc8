/** Resolving a paragraph style through the styles it is based on. */
module StyleMap {
  import opened Options
  import opened Sums

  datatype StyleInfo = StyleInfo(name: Option<string>, basedOn: Option<string>, level: Option<nat>, isList: bool)

  /** Styles by lower-case id. */
  type Styles = map<string, StyleInfo>

  function LowerChar(c: char): char {
    if 'A' <= c <= 'Z' then ((c as int) - ('A' as int) + ('a' as int)) as char else c
  }

  function AsciiLower(text: string): string {
    seq(|text|, i requires 0 <= i < |text| => LowerChar(text[i]))
  }

  /** The characters are the same but for the case of ASCII letters. */
  predicate SameLetter(a: char, b: char) {
    || a == b
    || ('A' <= a <= 'Z' && b as int == a as int + 32)
    || ('A' <= b <= 'Z' && a as int == b as int + 32)
  }

  predicate SameButCase(a: string, b: string) {
    |a| == |b| && forall i :: 0 <= i < |a| ==> SameLetter(a[i], b[i])
  }

  /** Two ids are looked up alike exactly when they differ only in ASCII case; what is
      looked up has no upper-case letter and differs from the id only in case. */
  lemma AnyCase(a: string, b: string)
    ensures AsciiLower(a) == AsciiLower(b) <==> SameButCase(a, b)
    ensures SameButCase(AsciiLower(a), a)
    ensures forall i :: 0 <= i < |AsciiLower(a)| ==> !('A' <= AsciiLower(a)[i] <= 'Z')
  {
    if AsciiLower(a) == AsciiLower(b) {
      forall i | 0 <= i < |a|
        ensures |a| == |b| && SameLetter(a[i], b[i])
      {
        assert |AsciiLower(a)| == |a| && AsciiLower(a)[i] == AsciiLower(b)[i];
      }
      assert |AsciiLower(a)| == |a| && |AsciiLower(b)| == |b|;
    }
    if SameButCase(a, b) {
      assert forall i :: 0 <= i < |a| ==> AsciiLower(a)[i] == AsciiLower(b)[i];
    }
  }

  /** The id of the style a style is based on. */
  function BasedOn(styles: Styles, id: string): Option<string> {
    if id in styles && styles[id].basedOn.Some? then Some(AsciiLower(styles[id].basedOn.value)) else None
  }

  /** The styles visited from `id` on: up to the first that is missing or was seen. */
  function Chain(styles: Styles, id: Option<string>, seen: set<string>): seq<string>
    decreases styles.Keys - seen
  {
    if id.None? || id.value in seen || id.value !in styles then []
    else [id.value] + Chain(styles, BasedOn(styles, id.value), seen + {id.value})
  }

  /** The style reached after `n` steps along `basedOn`. */
  function Ancestor(styles: Styles, id: string, n: nat): Option<string> {
    if n == 0 then Some(id)
    else match Ancestor(styles, id, n - 1)
         case Some(before) => BasedOn(styles, before)
         case None => None
  }

  lemma {:induction false} AncestorShift(styles: Styles, id: string, n: nat)
    ensures Ancestor(styles, id, n + 1)
         == match BasedOn(styles, id) case Some(next) => Ancestor(styles, next, n) case None => None
  {
    if n > 0 {
      AncestorShift(styles, id, n - 1);
    }
  }

  /** The chain lists ancestors in order, each a style not seen before, and none twice. */
  ghost predicate IsAncestry(styles: Styles, id: string, seen: set<string>, chain: seq<string>) {
    && (forall i :: 0 <= i < |chain| ==> chain[i] in styles && chain[i] !in seen && Ancestor(styles, id, i) == Some(chain[i]))
    && (forall i, j :: 0 <= i < j < |chain| ==> chain[i] != chain[j])
  }

  /** The next ancestor is missing or was seen. */
  ghost predicate EndsAt(styles: Styles, id: string, seen: set<string>, chain: seq<string>) {
    var end := Ancestor(styles, id, |chain|);
    end.None? || end.value !in styles || end.value in seen || end.value in chain
  }

  lemma AncestryGrows(styles: Styles, id: string, next: string, seen: set<string>, rest: seq<string>)
    requires id in styles && id !in seen && BasedOn(styles, id) == Some(next)
    requires IsAncestry(styles, next, seen + {id}, rest) && EndsAt(styles, next, seen + {id}, rest)
    ensures IsAncestry(styles, id, seen, [id] + rest) && EndsAt(styles, id, seen, [id] + rest)
  {
    hide BasedOn;
    var chain := [id] + rest;
    forall i | 0 <= i < |chain|
      ensures chain[i] in styles && chain[i] !in seen && Ancestor(styles, id, i) == Some(chain[i])
    {
      if i > 0 {
        AncestorShift(styles, id, i - 1);
      }
    }
    AncestorShift(styles, id, |rest|);
  }

  lemma {:induction false} ChainSteps(styles: Styles, id: string, seen: set<string>)
    ensures IsAncestry(styles, id, seen, Chain(styles, Some(id), seen))
    ensures EndsAt(styles, id, seen, Chain(styles, Some(id), seen))
    decreases styles.Keys - seen
  {
    hide BasedOn;
    if id in styles && id !in seen {
      if BasedOn(styles, id).Some? {
        ChainSteps(styles, BasedOn(styles, id).value, seen + {id});
        AncestryGrows(styles, id, BasedOn(styles, id).value, seen,
                      Chain(styles, BasedOn(styles, id), seen + {id}));
      } else {
        assert Chain(styles, Some(id), seen) == [id];
        AncestorShift(styles, id, 0);
      }
    }
  }

  lemma SetOfStyles(styles: Styles, chain: seq<string>, n: nat)
    requires n <= |chain| && forall i :: 0 <= i < |chain| ==> chain[i] in styles
    requires forall i, j :: 0 <= i < j < |chain| ==> chain[i] != chain[j]
    ensures |set i | 0 <= i < n :: chain[i]| == n
  {
    if n > 0 {
      SetOfStyles(styles, chain, n - 1);
      assert (set i | 0 <= i < n :: chain[i]) == (set i | 0 <= i < n - 1 :: chain[i]) + {chain[n - 1]};
    }
  }

  /** What resolving visits: the ancestors of the style, each once, until the
      next one is missing or comes round again; at most as many as there are. */
  lemma ChainIsAncestry(styles: Styles, id: string)
    ensures var chain := Chain(styles, Some(id), {});
            |chain| <= |styles| && IsAncestry(styles, id, {}, chain) && EndsAt(styles, id, {}, chain)
  {
    var chain := Chain(styles, Some(id), {});
    ChainSteps(styles, id, {});
    SetOfStyles(styles, chain, |chain|);
    SubsetSize(set i | 0 <= i < |chain| :: chain[i], styles.Keys);
  }

  // ----------------------------------------------------------------- resolving

  /** The first of the styles that has a level. */
  ghost predicate NearestLevel(styles: Styles, chain: seq<string>, level: Option<nat>)
    requires forall i :: 0 <= i < |chain| ==> chain[i] in styles
  {
    match level
    case None => forall i :: 0 <= i < |chain| ==> styles[chain[i]].level.None?
    case Some(_) => exists i :: 0 <= i < |chain| && styles[chain[i]].level == level
                             && forall j :: 0 <= j < i ==> styles[chain[j]].level.None?
  }

  ghost predicate NearestName(styles: Styles, chain: seq<string>, name: Option<string>)
    requires forall i :: 0 <= i < |chain| ==> chain[i] in styles
  {
    match name
    case None => forall i :: 0 <= i < |chain| ==> styles[chain[i]].name.None?
    case Some(_) => exists i :: 0 <= i < |chain| && styles[chain[i]].name == name
                             && forall j :: 0 <= j < i ==> styles[chain[j]].name.None?
  }

  ghost predicate SomeList(styles: Styles, chain: seq<string>)
    requires forall i :: 0 <= i < |chain| ==> chain[i] in styles
  {
    exists i :: 0 <= i < |chain| && styles[chain[i]].isList
  }

  /** What the visited styles say together. */
  ghost predicate Gathers(styles: Styles, chain: seq<string>, info: StyleInfo) {
    && (forall i :: 0 <= i < |chain| ==> chain[i] in styles)
    && NearestLevel(styles, chain, info.level) && NearestName(styles, chain, info.name)
    && (info.isList <==> SomeList(styles, chain)) && info.basedOn == None
  }

  lemma GathersNext(styles: Styles, chain: seq<string>, info: StyleInfo, id: string)
    requires Gathers(styles, chain, info) && id in styles
    ensures Gathers(styles, chain + [id], StyleInfo(
                      if info.name.None? then styles[id].name else info.name, None,
                      if info.level.None? then styles[id].level else info.level, info.isList || styles[id].isList))
  {
    var more := chain + [id];
    assert more[|chain|] == id && forall i :: 0 <= i < |chain| ==> more[i] == chain[i];
  }

  /** Walks up the chain, also when it is cyclic. The level and the name are
      those of the nearest style that has one, it is a list when some style on
      the chain is, and there is no result exactly when no style says anything. */
  method Resolve(styles: Styles, styleId: string) returns (r: Option<StyleInfo>)
    ensures var chain := Chain(styles, Some(AsciiLower(styleId)), {});
            match r
            case Some(info) => Gathers(styles, chain, info) && (info.level.Some? || info.isList || info.name.Some?)
            case None => Gathers(styles, chain, StyleInfo(None, None, None, false))
  {
    hide Gathers, AsciiLower;
    var resolved := StyleInfo(None, None, None, false);
    var current := Some(AsciiLower(styleId));
    var seen: seq<string> := [];
    ghost var chain: seq<string>, visited: set<string> := [], {};
    GathersNothing(styles);
    while current.Some?
      invariant chain + Chain(styles, current, visited) == Chain(styles, Some(AsciiLower(styleId)), {})
      invariant seen == chain && Gathers(styles, chain, resolved) && resolved.basedOn == None
      invariant forall id :: id in seen <==> id in visited
      invariant visited <= styles.Keys
      decreases styles.Keys - visited
    {
      var id := current.value;
      if id in seen {
        break;
      }
      seen := seen + [id];
      if id !in styles {
        break;
      }
      var info := styles[id];
      GathersNext(styles, chain, resolved, id);
      if resolved.level.None? {
        resolved := resolved.(level := info.level);
      }
      resolved := resolved.(isList := resolved.isList || info.isList);
      if resolved.name.None? {
        resolved := resolved.(name := info.name);
      }
      current := if info.basedOn.Some? then Some(AsciiLower(info.basedOn.value)) else None;
      ChainMoves(styles, chain, id, visited);
      chain, visited := chain + [id], visited + {id};
    }
    assert Chain(styles, current, visited) == [] && chain + [] == chain;
    if resolved.level.Some? || resolved.isList || resolved.name.Some? {
      r := Some(resolved);
    } else {
      assert resolved == StyleInfo(None, None, None, false);
      r := None;
    }
  }

  lemma GathersNothing(styles: Styles)
    ensures Gathers(styles, [], StyleInfo(None, None, None, false))
  {
  }

  lemma ChainMoves(styles: Styles, chain: seq<string>, id: string, seen: set<string>)
    requires id in styles && id !in seen
    ensures chain + Chain(styles, Some(id), seen) == chain + [id] + Chain(styles, BasedOn(styles, id), seen + {id})
  {
    hide BasedOn;
  }
}
