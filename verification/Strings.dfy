/** Substring search, replacement and trimming. */
module Strings {
  import opened Options

  /** The first position of `pat` in `s`. */
  function Find(s: string, pat: string): (r: Option<nat>)
    requires pat != []
    ensures r.Some? ==> r.value + |pat| <= |s|
  {
    if |s| < |pat| then None
    else if pat <= s then Some(0)
    else
      match Find(s[1..], pat)
      case None => None
      case Some(i) => Some(i + 1)
  }

  /** What is found is the first occurrence; nothing is found only when there is none. */
  lemma {:induction false} FindIsFirst(s: string, pat: string)
    requires pat != []
    ensures match Find(s, pat)
            case Some(i) => pat <= s[i..] && forall k :: 0 <= k < i ==> !(pat <= s[k..])
            case None => forall k :: 0 <= k <= |s| ==> !(pat <= s[k..])
  {
    if |s| >= |pat| && !(pat <= s) {
      FindIsFirst(s[1..], pat);
      assert s[0..] == s;
      assert forall k :: 0 < k <= |s| ==> s[k..] == s[1..][k - 1..];
    } else if |s| >= |pat| {
      assert s[0..] == s;
    }
  }

  /** Every non-overlapping occurrence of `pat`, found from the left, becomes `to`. */
  function Replace(s: string, pat: string, with: string): string
    requires pat != []
  {
    if |s| < |pat| then s
    else if pat <= s then with + Replace(s[|pat|..], pat, with)
    else [s[0]] + Replace(s[1..], pat, with)
  }

  /** `w` differs from `pat` at every start position, within `w` itself: no
      occurrence of `pat` starts inside `w`, whatever follows it. */
  ghost predicate Dead(w: string, pat: string) {
    forall i :: 0 <= i < |w| ==> DeadAt(w, pat, i)
  }

  ghost predicate DeadAt(w: string, pat: string, i: nat) {
    exists k :: 0 <= k < |pat| && i + k < |w| && w[i + k] != pat[k]
  }

  lemma DeadByFirst(w: string, pat: string)
    requires pat != [] && pat[0] !in w
    ensures Dead(w, pat)
  {
    forall i | 0 <= i < |w|
      ensures DeadAt(w, pat, i)
    {
      assert w[i + 0] != pat[0];
    }
  }

  lemma DeadAppend(v: string, w: string, pat: string)
    requires Dead(v, pat) && Dead(w, pat)
    ensures Dead(v + w, pat)
  {
    forall i | 0 <= i < |v + w|
      ensures DeadAt(v + w, pat, i)
    {
      if i < |v| {
        assert DeadAt(v, pat, i);
        var k :| 0 <= k < |pat| && i + k < |v| && v[i + k] != pat[k];
        assert (v + w)[i + k] != pat[k];
      } else {
        assert DeadAt(w, pat, i - |v|);
        var k :| 0 <= k < |pat| && i - |v| + k < |w| && w[i - |v| + k] != pat[k];
        assert (v + w)[i + k] != pat[k];
      }
    }
  }

  lemma DeadTail(w: string, pat: string)
    requires w != [] && Dead(w, pat)
    ensures Dead(w[1..], pat)
  {
    forall i | 0 <= i < |w[1..]|
      ensures DeadAt(w[1..], pat, i)
    {
      assert DeadAt(w, pat, i + 1);
      var k :| 0 <= k < |pat| && i + 1 + k < |w| && w[i + 1 + k] != pat[k];
      assert w[1..][i + k] != pat[k];
    }
  }

  lemma DeadPrefix(w: string, rest: string, pat: string)
    requires w != [] && Dead(w, pat)
    ensures !(pat <= w + rest)
  {
    assert DeadAt(w, pat, 0);
    var k :| 0 <= k < |pat| && 0 + k < |w| && w[0 + k] != pat[k];
    assert (w + rest)[k] != pat[k];
  }

  function Shift(r: Option<nat>, n: nat): Option<nat> {
    match r
    case None => None
    case Some(i) => Some(i + n)
  }

  /** The search passes over a dead prefix. */
  lemma {:induction false} FindSkip(w: string, rest: string, pat: string)
    requires pat != [] && Dead(w, pat)
    ensures Find(w + rest, pat) == Shift(Find(rest, pat), |w|)
  {
    if w == [] {
      assert w + rest == rest;
    } else {
      DeadPrefix(w, rest, pat);
      DeadTail(w, pat);
      assert (w + rest)[1..] == w[1..] + rest;
      FindSkip(w[1..], rest, pat);
    }
  }

  /** So the first occurrence is the one right after a dead prefix. */
  lemma FindAfter(w: string, pat: string, rest: string)
    requires pat != [] && Dead(w, pat)
    ensures Find(w + pat + rest, pat) == Some(|w|)
  {
    assert w + pat + rest == w + (pat + rest);
    FindSkip(w, pat + rest, pat);
  }

  /** What closes a text is found right after it when its first character is not in the text. */
  lemma FindClosing(u: string, pat: string, rest: string)
    requires pat != [] && pat[0] !in u
    ensures Find(u + pat + rest, pat) == Some(|u|)
  {
    hide Find, Dead;
    DeadByFirst(u, pat);
    FindAfter(u, pat, rest);
  }

  lemma FindNone(w: string, pat: string)
    requires pat != [] && Dead(w, pat)
    ensures Find(w, pat) == None
  {
    assert w + [] == w;
    FindSkip(w, [], pat);
  }

  lemma {:induction false} ReplaceSkip(w: string, rest: string, pat: string, with: string)
    requires pat != [] && Dead(w, pat)
    ensures Replace(w + rest, pat, with) == w + Replace(rest, pat, with)
  {
    if w == [] {
      assert w + rest == rest;
    } else if |w + rest| < |pat| {
      ReplaceShort(rest, pat, with);
    } else {
      DeadPrefix(w, rest, pat);
      DeadTail(w, pat);
      assert (w + rest)[1..] == w[1..] + rest;
      ReplaceSkip(w[1..], rest, pat, with);
      ReplaceMiss(w + rest, pat, with);
      assert [w[0]] + (w[1..] + Replace(rest, pat, with)) == w + Replace(rest, pat, with);
    }
  }

  lemma ReplaceMiss(s: string, pat: string, with: string)
    requires pat != [] && |s| >= |pat| && !(pat <= s)
    ensures Replace(s, pat, with) == [s[0]] + Replace(s[1..], pat, with)
  {
  }

  lemma ReplaceShort(s: string, pat: string, with: string)
    requires pat != [] && |s| < |pat|
    ensures Replace(s, pat, with) == s
  {
  }

  lemma ReplaceHit(rest: string, pat: string, with: string)
    requires pat != []
    ensures Replace(pat + rest, pat, with) == with + Replace(rest, pat, with)
  {
    assert (pat + rest)[|pat|..] == rest;
  }

  // -------------------------------------------------------------------- trim

  /** The White_Space characters of Unicode. */
  predicate IsWhitespace(c: char) {
    || '\t' <= c <= '\r' || c == ' ' || c == '\U{85}' || c == '\U{A0}' || c == '\U{1680}'
    || '\U{2000}' <= c <= '\U{200A}' || c == '\U{2028}' || c == '\U{2029}' || c == '\U{202F}'
    || c == '\U{205F}' || c == '\U{3000}'
  }

  /** They are these 25. */
  lemma WhiteCharacters(c: char)
    ensures IsWhitespace(c) <==>
              c in ['\t', '\n', '\U{B}', '\U{C}', '\r', ' ', '\U{85}', '\U{A0}', '\U{1680}', '\U{2000}', '\U{2001}',
                    '\U{2002}', '\U{2003}', '\U{2004}', '\U{2005}', '\U{2006}', '\U{2007}', '\U{2008}', '\U{2009}',
                    '\U{200A}', '\U{2028}', '\U{2029}', '\U{202F}', '\U{205F}', '\U{3000}']
  {
  }

  function TrimStart(s: string): string {
    if s != [] && IsWhitespace(s[0]) then TrimStart(s[1..]) else s
  }

  function TrimEnd(s: string): string {
    if s != [] && IsWhitespace(s[|s| - 1]) then TrimEnd(s[..|s| - 1]) else s
  }

  function Trim(s: string): string {
    TrimEnd(TrimStart(s))
  }

  ghost predicate Trimmed(s: string) {
    s != [] ==> !IsWhitespace(s[0]) && !IsWhitespace(s[|s| - 1])
  }

  lemma {:induction false} TrimEndTrims(s: string)
    ensures var t := TrimEnd(s); t <= s && (t != [] ==> !IsWhitespace(t[|t| - 1]))
  {
    if s != [] && IsWhitespace(s[|s| - 1]) {
      TrimEndTrims(s[..|s| - 1]);
    }
  }

  lemma {:induction false} TrimStartTrims(s: string)
    ensures var t := TrimStart(s); t != [] ==> !IsWhitespace(t[0])
  {
    if s != [] && IsWhitespace(s[0]) {
      TrimStartTrims(s[1..]);
    }
  }

  lemma TrimTrims(s: string)
    ensures Trimmed(Trim(s))
  {
    TrimStartTrims(s);
    TrimEndTrims(TrimStart(s));
  }

  lemma TrimOfTrimmed(s: string)
    requires Trimmed(s)
    ensures Trim(s) == s
  {
  }

  /** Nothing is left of a text exactly when it is all white space. */
  lemma {:induction false} TrimmedAway(s: string)
    ensures Trim(s) == "" <==> forall i :: 0 <= i < |s| ==> IsWhitespace(s[i])
  {
    hide IsWhitespace;
    if s != [] && IsWhitespace(s[0]) {
      TrimmedAway(s[1..]);
      assert forall i :: 0 < i < |s| ==> s[i] == s[1..][i - 1];
    } else if s != [] {
      TrimEndKeeps(s, 0);
    }
  }

  lemma {:induction false} TrimEndKeeps(s: string, i: nat)
    requires i < |s| && !IsWhitespace(s[i])
    ensures TrimEnd(s) != []
  {
    if IsWhitespace(s[|s| - 1]) {
      TrimEndKeeps(s[..|s| - 1], i);
    }
  }
}
