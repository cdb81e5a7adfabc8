/** Unique, byte-limited stems for the uploads of one request. */
module UploadStems {
  import opened Numbers
  import opened Sums
  import opened Utf8

  const MAX_STEM_BYTES: nat := 200

  datatype StoredUpload = StoredUpload(stem: string, path: string, suffix: string)

  function Suffix(n: nat): string {
    "_" + Digits(n)
  }

  ghost predicate EndsWith(text: string, end: string) {
    |end| <= |text| && text[|text| - |end|..] == end
  }

  /** Lowercasing leaves a numeric suffix alone. */
  ghost predicate KeepsSuffix(lower: string -> string) {
    forall stem: string, n: nat :: EndsWith(lower(stem + Suffix(n)), Suffix(n))
  }

  /** The suffix after as much of the stem as fits before it. */
  ghost predicate IsCandidate(candidate: string, stem: string, suffix: string) {
    && EndsWith(candidate, suffix) && Bytes(suffix) < 200
    && IsLongestPrefix(candidate[..|candidate| - |suffix|], stem, 200 - Bytes(suffix))
  }

  function Candidate(stem: string, suffix: string): (candidate: string)
    ensures Bytes(candidate) <= 200
    ensures Bytes(suffix) < 200 ==> IsCandidate(candidate, stem, suffix)
  {
    BytesAppend(stem, suffix);
    if Bytes(stem + suffix) <= MAX_STEM_BYTES then
      assert (stem + suffix)[..|stem|] == stem && (stem + suffix)[|stem|..] == suffix;
      stem + suffix
    else if Bytes(suffix) >= MAX_STEM_BYTES then Truncated(suffix, MAX_STEM_BYTES)
    else
      var cut := Truncated(stem, MAX_STEM_BYTES - Bytes(suffix));
      BytesAppend(cut, suffix);
      assert (cut + suffix)[..|cut|] == cut && (cut + suffix)[|cut|..] == suffix;
      cut + suffix
  }

  lemma SuffixBytes(n: nat)
    requires n <= 4 * USIZE_MAX
    ensures Bytes(Suffix(n)) < MAX_STEM_BYTES
  {
    assert Pow10(7) == 10_000_000;
    assert Pow10(14) == 100_000_000_000_000;
    assert Pow10(21) == 1_000_000_000_000_000_000_000;
    DigitsShort(n, 21);
    DigitsPlain(n);
    BytesAppend("_", Digits(n));
    assert "_"[..0] == "";
  }

  /** A text that ends in a numeral and its underscore does not end in a longer one. */
  lemma NoLongerSuffix(text: string, m: nat, n: nat)
    requires EndsWith(text, Suffix(m)) && |Digits(m)| < |Digits(n)|
    ensures !EndsWith(text, Suffix(n))
  {
    DigitsPlain(n);
    var a, b := |Digits(m)|, |Digits(n)|;
    if |Suffix(n)| <= |text| {
      assert text[|text| - a - 1..][0] == Suffix(m)[0];
      assert text[|text| - b - 1..][b - a] == '_' && Suffix(n)[b - a] == Digits(n)[b - a - 1];
    }
  }

  lemma SameSuffix(text: string, m: nat, n: nat)
    requires EndsWith(text, Suffix(m)) && EndsWith(text, Suffix(n))
    ensures m == n
  {
    if |Digits(m)| == |Digits(n)| {
      assert Digits(m) == Suffix(m)[1..] && Digits(n) == Suffix(n)[1..];
      DigitsInjective(m, n);
    } else if |Digits(m)| < |Digits(n)| {
      NoLongerSuffix(text, m, n);
    } else {
      NoLongerSuffix(text, n, m);
    }
  }

  /** Candidates with different numbers have different keys, truncated or not. */
  lemma CandidatesDiffer(lower: string -> string, stem: string, m: nat, n: nat)
    requires KeepsSuffix(lower) && m != n && m <= 4 * USIZE_MAX && n <= 4 * USIZE_MAX
    ensures lower(Candidate(stem, Suffix(m))) != lower(Candidate(stem, Suffix(n)))
  {
    KeyEnds(lower, stem, m);
    KeyEnds(lower, stem, n);
    if lower(Candidate(stem, Suffix(m))) == lower(Candidate(stem, Suffix(n))) {
      SameSuffix(lower(Candidate(stem, Suffix(m))), m, n);
    }
  }

  lemma KeyEnds(lower: string -> string, stem: string, n: nat)
    requires KeepsSuffix(lower) && n <= 4 * USIZE_MAX
    ensures EndsWith(lower(Candidate(stem, Suffix(n))), Suffix(n))
  {
    hide Suffix, Candidate;
    SuffixBytes(n);
    var candidate, suffix := Candidate(stem, Suffix(n)), Suffix(n);
    var front := candidate[..|candidate| - |suffix|];
    assert candidate == front + suffix;
    assert EndsWith(lower(front + Suffix(n)), Suffix(n));
  }

  // --------------------------------------------------------- what is assigned

  function Keys(lower: string -> string, stems: seq<string>): set<string> {
    set i | 0 <= i < |stems| :: lower(stems[i])
  }

  /** How many of the stems have the key. */
  function CountKey(lower: string -> string, stems: seq<string>, key: string): (count: nat)
    ensures count <= |stems| && (count == 0 <==> key !in Keys(lower, stems))
  {
    if stems == [] then 0
    else
      var before, last := stems[..|stems| - 1], stems[|stems| - 1];
      assert Keys(lower, stems) == Keys(lower, before) + {lower(last)} by { KeysSnoc(lower, before, last); }
      CountKey(lower, before, key) + if lower(last) == key then 1 else 0
  }

  lemma KeysSnoc(lower: string -> string, stems: seq<string>, stem: string)
    ensures Keys(lower, stems + [stem]) == Keys(lower, stems) + {lower(stem)}
    ensures stems + [stem] != [] && (stems + [stem])[..|stems|] == stems
  {
    var more := stems + [stem];
    forall key | key in Keys(lower, stems) + {lower(stem)}
      ensures key in Keys(lower, more)
    {
      if key == lower(stem) {
        assert lower(more[|stems|]) == key;
      } else {
        var i :| 0 <= i < |stems| && lower(stems[i]) == key;
        assert lower(more[i]) == key;
      }
    }
  }

  /** The keys no candidate may take. */
  function Taken(lower: string -> string, bases: seq<string>, earlier: seq<string>): set<string> {
    Keys(lower, bases) + Keys(lower, earlier)
  }

  /** The candidate with the least free number from the occurrence number on. */
  ghost predicate LeastFree(lower: string -> string, base: string, first: nat, taken: set<string>, n: nat) {
    && first <= n && lower(Candidate(base, Suffix(n))) !in taken
    && forall m: nat :: first <= m < n ==> lower(Candidate(base, Suffix(m))) in taken
  }

  /** The stem of upload `i`: its own when its key is new, else a numbered candidate. */
  ghost predicate StemOk(lower: string -> string, bases: seq<string>, i: nat, earlier: seq<string>, stem: string)
    requires i < |bases|
  {
    var seen := CountKey(lower, bases[..i], lower(bases[i]));
    if seen == 0 then stem == bases[i]
    else exists n: nat ::
           && LeastFree(lower, bases[i], seen + 1, Taken(lower, bases, earlier), n)
           && n <= seen + 1 + |Taken(lower, bases, earlier)|
           && stem == Candidate(bases[i], Suffix(n))
  }

  ghost predicate StemsOk(lower: string -> string, bases: seq<string>, stems: seq<string>) {
    |stems| <= |bases| && forall i :: 0 <= i < |stems| ==> StemOk(lower, bases, i, stems[..i], stems[i])
  }

  lemma StemsGrow(lower: string -> string, bases: seq<string>, stems: seq<string>, stem: string)
    requires StemsOk(lower, bases, stems) && |stems| < |bases| && StemOk(lower, bases, |stems|, stems, stem)
    ensures StemsOk(lower, bases, stems + [stem])
  {
    hide StemOk;
    forall i | 0 <= i <= |stems|
      ensures StemOk(lower, bases, i, (stems + [stem])[..i], (stems + [stem])[i])
    {
      assert (stems + [stem])[..i] == stems[..i];
      assert stems[..|stems|] == stems;
    }
  }

  // ----------------------------------------------------- what the stems promise

  lemma KeyIn(lower: string -> string, stems: seq<string>, i: nat)
    requires i < |stems|
    ensures lower(stems[i]) in Keys(lower, stems)
  {
  }

  /** A stem is either the base of its upload, whose key is new among the bases,
      or its key is not that of any base. */
  lemma BaseOrFresh(lower: string -> string, bases: seq<string>, stems: seq<string>, i: nat)
    requires StemsOk(lower, bases, stems) && i < |stems|
    ensures (stems[i] == bases[i] && lower(bases[i]) !in Keys(lower, bases[..i]))
         || (lower(stems[i]) !in Keys(lower, bases) && lower(stems[i]) !in Keys(lower, stems[..i]))
  {
    hide Keys, Candidate, Suffix;
    assert StemOk(lower, bases, i, stems[..i], stems[i]);
  }

  /** No two uploads of a request share a key. */
  lemma {:induction false} StemsDistinct(lower: string -> string, bases: seq<string>, stems: seq<string>, i: nat, j: nat)
    requires StemsOk(lower, bases, stems) && i < j < |stems|
    ensures lower(stems[i]) != lower(stems[j])
  {
    hide StemOk, Keys;
    BaseOrFresh(lower, bases, stems, i);
    BaseOrFresh(lower, bases, stems, j);
    assert lower(stems[..j][i]) in Keys(lower, stems[..j]) by { KeyIn(lower, stems[..j], i); }
    assert lower(bases[..j][i]) in Keys(lower, bases[..j]) by { KeyIn(lower, bases[..j], i); }
    KeyIn(lower, bases, j);
  }

  lemma {:induction false} StemsFit(lower: string -> string, bases: seq<string>, stems: seq<string>, i: nat)
    requires StemsOk(lower, bases, stems) && i < |stems| && Bytes(bases[i]) <= MAX_STEM_BYTES
    ensures Bytes(stems[i]) <= MAX_STEM_BYTES
    ensures lower(bases[i]) !in Keys(lower, bases[..i]) ==> stems[i] == bases[i]
  {
    hide Keys, Suffix;
    assert StemOk(lower, bases, i, stems[..i], stems[i]);
  }

  predicate IsNumeral(text: string) {
    text != "" && forall i :: 0 <= i < |text| ==> '0' <= text[i] <= '9'
  }

  lemma {:induction false} DigitsAreNumeral(n: nat)
    ensures IsNumeral(Digits(n))
  {
    if n >= 10 {
      DigitsAreNumeral(n / 10);
    }
  }

  /** What is left of the base, an underscore and a numeral. */
  ghost predicate Numbered(stem: string, base: string, front: string, numeral: string) {
    stem == front + "_" + numeral && front <= base && IsNumeral(numeral)
  }

  /** The stem of an upload whose key came before is a prefix of its base, an
      underscore, and a numeral greater than the number of earlier uploads with it. */
  lemma LaterStemsAreNumbered(lower: string -> string, bases: seq<string>, stems: seq<string>, i: nat)
    returns (front: string, numeral: string)
    requires StemsOk(lower, bases, stems) && i < |stems| && |stems| <= |bases| <= USIZE_MAX
    requires CountKey(lower, bases[..i], lower(bases[i])) > 0
    ensures Numbered(stems[i], bases[i], front, numeral)
    ensures Number(numeral) > CountKey(lower, bases[..i], lower(bases[i]))
  {
    hide Keys, Candidate, CountKey, Digits;
    assert StemOk(lower, bases, i, stems[..i], stems[i]);
    var seen, taken := CountKey(lower, bases[..i], lower(bases[i])), Taken(lower, bases, stems[..i]);
    var n: nat :| LeastFree(lower, bases[i], seen + 1, taken, n) && n <= seen + 1 + |taken|
                  && stems[i] == Candidate(bases[i], Suffix(n));
    TakenSize(lower, bases, stems[..i]);
    SuffixBytes(n);
    DigitsAreNumeral(n);
    NumberOfDigits(n);
    front, numeral := stems[i][..|stems[i]| - |Suffix(n)|], Digits(n);
    assert stems[i] == front + Suffix(n);
    assert front + ("_" + numeral) == front + "_" + numeral;
  }

  lemma TwoHasOneDigit()
    ensures Digits(2) == "2" && Suffix(2) == "_2"
  {
  }

  lemma ShortFits()
    ensures Candidate("A", "_2") == "A_2"
  {
    BytesAppend("A", "_2");
    assert "A" + "_2" == "A_2";
    assert "A"[..0] == "" && "_2"[..1] == "_" && "_"[..0] == "";
  }

  /** Uploads `a` and `A` get the stems `a` and `A_2`. */
  lemma TwoCases(lower: string -> string, stems: seq<string>)
    requires KeepsSuffix(lower) && lower("a") == "a" && lower("A") == "a"
    requires StemsOk(lower, ["a", "A"], stems) && |stems| == 2
    ensures stems == ["a", "A_2"]
  {
    hide Digits, Candidate;
    var bases := ["a", "A"];
    assert StemOk(lower, bases, 0, stems[..0], stems[0]) && StemOk(lower, bases, 1, stems[..1], stems[1]);
    assert bases[..0] == [] && bases[..1] == ["a"] && bases[..1][..0] == [] && stems[..1] == ["a"];
    TwoHasOneDigit();
    ShortFits();
    assert CountKey(lower, ["a"], "a") == 1;
    assert EndsWith(lower("A" + Suffix(2)), Suffix(2));
    assert "A" + "_2" == "A_2";
    assert |lower("A_2")| >= 2;
    assert lower(Candidate("A", Suffix(2))) !in Taken(lower, bases, ["a"]);
    var n: nat :| LeastFree(lower, "A", 2, Taken(lower, bases, ["a"]), n) && stems[1] == Candidate("A", Suffix(n));
  }

  // -------------------------------------------------------------- the search

  lemma {:induction false} KeysSize(lower: string -> string, stems: seq<string>)
    ensures |Keys(lower, stems)| <= |stems|
  {
    if stems != [] {
      KeysSize(lower, stems[..|stems| - 1]);
      KeysSnoc(lower, stems[..|stems| - 1], stems[|stems| - 1]);
      assert stems == stems[..|stems| - 1] + [stems[|stems| - 1]];
    }
  }

  /** Tries the numbers from `first` on; stops because there are only so many
      taken keys and every number tries a different one. */
  method FindFree(lower: string -> string, base: string, first: nat, taken: set<string>) returns (n: nat)
    requires KeepsSuffix(lower) && first + |taken| <= 4 * USIZE_MAX
    ensures LeastFree(lower, base, first, taken, n) && n <= first + |taken|
  {
    hide Candidate, Suffix, KeepsSuffix;
    n := first;
    ghost var tried: set<string> := {};
    while true
      invariant first <= n && tried <= taken && |tried| == n - first
      invariant forall m: nat :: first <= m < n ==> lower(Candidate(base, Suffix(m))) in taken
      invariant forall key :: key in tried ==> exists m: nat :: first <= m < n && key == lower(Candidate(base, Suffix(m)))
      decreases |taken| - |tried|
    {
      SubsetSize(tried, taken);
      var key := lower(Candidate(base, Suffix(n)));
      if key !in taken {
        break;
      }
      if key in tried {
        ghost var m: nat :| first <= m < n && key == lower(Candidate(base, Suffix(m)));
        CandidatesDiffer(lower, base, m, n);
        assert false;
      }
      SubsetSize(tried + {key}, taken);
      tried := tried + {key};
      n := n + 1;
    }
  }

  function Bases(uploads: seq<StoredUpload>): (bases: seq<string>)
    ensures |bases| == |uploads|
  {
    seq(|uploads|, i requires 0 <= i < |uploads| => Truncated(uploads[i].stem, MAX_STEM_BYTES))
  }

  function Stems(uploads: seq<StoredUpload>): (stems: seq<string>)
    ensures |stems| == |uploads|
  {
    seq(|uploads|, i requires 0 <= i < |uploads| => uploads[i].stem)
  }

  /** The first upload with a key finds it free. */
  lemma FirstIsFree(lower: string -> string, bases: seq<string>, stems: seq<string>)
    requires StemsOk(lower, bases, stems) && |stems| < |bases|
    requires lower(bases[|stems|]) !in Keys(lower, bases[..|stems|])
    ensures lower(bases[|stems|]) !in Keys(lower, stems)
  {
    hide StemOk;
    forall j | 0 <= j < |stems|
      ensures lower(stems[j]) != lower(bases[|stems|])
    {
      BaseOrFresh(lower, bases, stems, j);
      assert lower(bases[..|stems|][j]) in Keys(lower, bases[..|stems|]);
      assert lower(bases[|stems|]) in Keys(lower, bases);
    }
  }

  lemma StemOkFirst(lower: string -> string, bases: seq<string>, stems: seq<string>)
    requires |stems| < |bases| && CountKey(lower, bases[..|stems|], lower(bases[|stems|])) == 0
    ensures StemOk(lower, bases, |stems|, stems, bases[|stems|])
  {
  }

  lemma StemOkLater(lower: string -> string, bases: seq<string>, stems: seq<string>, seen: nat, n: nat)
    requires |stems| < |bases| && CountKey(lower, bases[..|stems|], lower(bases[|stems|])) == seen > 0
    requires LeastFree(lower, bases[|stems|], seen + 1, Taken(lower, bases, stems), n)
    requires n <= seen + 1 + |Taken(lower, bases, stems)|
    ensures StemOk(lower, bases, |stems|, stems, Candidate(bases[|stems|], Suffix(n)))
  {
    hide LeastFree, Candidate, Suffix;
  }

  lemma CountSnoc(lower: string -> string, bases: seq<string>, i: nat, key: string)
    requires i < |bases|
    ensures CountKey(lower, bases[..i + 1], key)
         == CountKey(lower, bases[..i], key) + if lower(bases[i]) == key then 1 else 0
  {
    hide Keys;
    assert bases[..i + 1][..i] == bases[..i];
  }

  lemma TakenSize(lower: string -> string, bases: seq<string>, stems: seq<string>)
    ensures |Taken(lower, bases, stems)| <= |bases| + |stems|
  {
    KeysSize(lower, bases);
    KeysSize(lower, stems);
    UnionSize(Keys(lower, bases), Keys(lower, stems));
  }

  lemma UnionSize(a: set<string>, b: set<string>)
    ensures |a + b| <= |a| + |b|
  {
    assert a + b == a + (b - a);
    SubsetSize(b - a, b);
  }

  method Normalize(uploads: array<StoredUpload>, lower: string -> string)
    returns (normalized: seq<string>, rawKeys: set<string>)
    ensures normalized == Bases(uploads[..]) && rawKeys == Keys(lower, normalized)
  {
    normalized, rawKeys := [], {};
    for i := 0 to uploads.Length
      invariant normalized == Bases(uploads[..i]) && rawKeys == Keys(lower, normalized)
    {
      var stem := TruncateToUtf8Bytes(uploads[i].stem, MAX_STEM_BYTES);
      KeysSnoc(lower, normalized, stem);
      normalized := normalized + [stem];
      rawKeys := rawKeys + {lower(stem)};
    }
    assert uploads[..uploads.Length] == uploads[..];
  }

  function Lookup(counts: map<string, nat>, key: string): nat {
    if key in counts then counts[key] else 0
  }

  ghost predicate CountsOk(counts: map<string, nat>, lower: string -> string, bases: seq<string>, i: nat)
    requires i <= |bases|
  {
    forall key :: Lookup(counts, key) == CountKey(lower, bases[..i], key)
  }

  lemma NextCounts(counts: map<string, nat>, lower: string -> string, bases: seq<string>, i: nat)
    requires i < |bases| && CountsOk(counts, lower, bases, i)
    ensures Lookup(counts, lower(bases[i])) == CountKey(lower, bases[..i], lower(bases[i])) <= i
    ensures CountsOk(counts[lower(bases[i]) := Lookup(counts, lower(bases[i])) + 1], lower, bases, i + 1)
  {
    hide CountKey, Keys;
    var more := counts[lower(bases[i]) := Lookup(counts, lower(bases[i])) + 1];
    forall key
      ensures Lookup(more, key) == CountKey(lower, bases[..i + 1], key)
    {
      CountSnoc(lower, bases, i, key);
      assert Lookup(counts, key) == CountKey(lower, bases[..i], key);
    }
  }

  /** The stem of the next upload, given the keys of all bases and those used. */
  method ChooseStem(lower: string -> string, ghost bases: seq<string>, ghost stems: seq<string>,
                    base: string, seen: nat, rawKeys: set<string>, used: set<string>) returns (stem: string)
    requires KeepsSuffix(lower) && |bases| <= USIZE_MAX && StemsOk(lower, bases, stems) && |stems| < |bases|
    requires base == bases[|stems|] && seen == CountKey(lower, bases[..|stems|], lower(base)) <= |stems|
    requires rawKeys == Keys(lower, bases) && used == Keys(lower, stems)
    ensures StemOk(lower, bases, |stems|, stems, stem)
  {
    hide StemOk, StemsOk, Candidate, Suffix, KeepsSuffix, Keys, LeastFree, CountKey;
    NextKey(lower, bases, stems);
    if seen == 0 && lower(base) !in used {
      StemOkFirst(lower, bases, stems);
      return base;
    }
    TakenSize(lower, bases, stems);
    var n := FindFree(lower, base, seen + 1, rawKeys + used);
    StemOkLater(lower, bases, stems, seen, n);
    stem := Candidate(base, Suffix(n));
  }

  /** Gives every upload a stem of its own, in place and in order. */
  method UniquifyUploadStems(uploads: array<StoredUpload>, lower: string -> string)
    requires KeepsSuffix(lower) && uploads.Length <= USIZE_MAX
    modifies uploads
    ensures StemsOk(lower, Bases(old(uploads[..])), Stems(uploads[..]))
    ensures forall i :: 0 <= i < uploads.Length ==>
              uploads[i].path == old(uploads[i].path) && uploads[i].suffix == old(uploads[i].suffix)
    ensures forall i, j :: 0 <= i < j < uploads.Length ==> lower(uploads[i].stem) != lower(uploads[j].stem)
    ensures forall i :: 0 <= i < uploads.Length ==> Bytes(uploads[i].stem) <= 200
    ensures forall i :: 0 <= i < uploads.Length ==>
              IsLongestPrefix(Bases(old(uploads[..]))[i], old(uploads[i].stem), 200)
  {
    hide StemOk, StemsOk, Candidate, Suffix, KeepsSuffix, Keys, LeastFree, CountKey, CountsOk, Truncated;
    ghost var given := uploads[..];
    var bases, rawKeys := Normalize(uploads, lower);
    var counts: map<string, nat> := map[];
    var used: set<string> := {};
    ghost var stems: seq<string> := [];
    StartStems(lower, bases);
    for i := 0 to uploads.Length
      invariant |stems| == i && StemsOk(lower, bases, stems) && used == Keys(lower, stems)
      invariant CountsOk(counts, lower, bases, i)
      invariant forall j :: 0 <= j < i ==> uploads[j] == given[j].(stem := stems[j])
      invariant forall j :: i <= j < uploads.Length ==> uploads[j] == given[j]
    {
      BaseOfEmpty(given, i);
      var base := if bases[i] == "" then uploads[i].stem else bases[i];
      var seen := Lookup(counts, lower(base));
      NextCounts(counts, lower, bases, i);
      counts := counts[lower(base) := seen + 1];
      var stem := ChooseStem(lower, bases, stems, base, seen, rawKeys, used);
      KeysSnoc(lower, stems, stem);
      StemsGrow(lower, bases, stems, stem);
      used := used + {lower(stem)};
      uploads[i] := uploads[i].(stem := stem);
      stems := stems + [stem];
    }
    assert stems == Stems(uploads[..]);
    BasesFit(given);
    AllDistinct(lower, bases, stems);
  }

  lemma BaseOfEmpty(uploads: seq<StoredUpload>, i: nat)
    requires i < |uploads|
    ensures Bases(uploads)[i] == "" ==> uploads[i].stem == ""
  {
    if uploads[i].stem != "" {
      TruncatedNonempty(uploads[i].stem, MAX_STEM_BYTES);
    }
  }

  lemma BasesFit(uploads: seq<StoredUpload>)
    ensures forall i :: 0 <= i < |uploads| ==> IsLongestPrefix(Bases(uploads)[i], uploads[i].stem, 200)
  {
  }

  lemma StartStems(lower: string -> string, bases: seq<string>)
    ensures StemsOk(lower, bases, []) && Keys(lower, []) == {}
    ensures CountsOk(map[], lower, bases, 0)
  {
  }

  lemma NextKey(lower: string -> string, bases: seq<string>, stems: seq<string>)
    requires StemsOk(lower, bases, stems) && |stems| < |bases|
    ensures CountKey(lower, bases[..|stems|], lower(bases[|stems|])) == 0 ==> lower(bases[|stems|]) !in Keys(lower, stems)
    ensures CountKey(lower, bases[..|stems|], lower(bases[|stems|])) <= |stems|
  {
    hide StemsOk;
    if CountKey(lower, bases[..|stems|], lower(bases[|stems|])) == 0 {
      FirstIsFree(lower, bases, stems);
    }
  }

  lemma AllDistinct(lower: string -> string, bases: seq<string>, stems: seq<string>)
    requires StemsOk(lower, bases, stems) && |stems| == |bases|
    requires forall i :: 0 <= i < |bases| ==> Bytes(bases[i]) <= MAX_STEM_BYTES
    ensures forall i, j :: 0 <= i < j < |stems| ==> lower(stems[i]) != lower(stems[j])
    ensures forall i :: 0 <= i < |stems| ==> Bytes(stems[i]) <= MAX_STEM_BYTES
  {
    hide StemsOk;
    forall i, j | 0 <= i < j < |stems|
      ensures lower(stems[i]) != lower(stems[j])
    {
      StemsDistinct(lower, bases, stems, i, j);
    }
    forall i | 0 <= i < |stems|
      ensures Bytes(stems[i]) <= MAX_STEM_BYTES
    {
      StemsFit(lower, bases, stems, i);
    }
  }
}
