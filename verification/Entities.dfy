/** The four-pass HTML escape of the Office writer and the four-pass decode of
    the inline parser. */
module Entities {
  import opened Strings

  /** `str::replace` with a single character pattern. */
  function ReplaceChar(s: string, c: char, with: string): string {
    if s == [] then [] else (if s[0] == c then with else [s[0]]) + ReplaceChar(s[1..], c, with)
  }

  function HtmlEscape(value: string): string {
    ReplaceChar(ReplaceChar(ReplaceChar(ReplaceChar(value,
      '&', "&amp;"),
      '<', "&lt;"),
      '>', "&gt;"),
      '"', "&quot;")
  }

  function DecodeBasicEntities(value: string): string {
    Replace(Replace(Replace(Replace(value,
      "&quot;", "\""),
      "&gt;", ">"),
      "&lt;", "<"),
      "&amp;", "&")
  }

  // --------------------------------------- the text between any two passes

  /** Decoding pass `k` turns `Entity(k)` into `Special(k)`; the escape makes its
      passes in the opposite order. */
  function Special(k: nat): char
    requires k < 4
  {
    match k case 0 => '"' case 1 => '>' case 2 => '<' case _ => '&'
  }

  function Entity(k: nat): string
    requires k < 4
  {
    match k case 0 => "&quot;" case 1 => "&gt;" case 2 => "&lt;" case _ => "&amp;"
  }

  /** The encoding of one character after `k` decoding passes. */
  function Enc(k: nat, c: char): string {
    if c == '&' && k < 4 then "&amp;"
    else if c == '<' && k < 3 then "&lt;"
    else if c == '>' && k < 2 then "&gt;"
    else if c == '"' && k < 1 then "&quot;"
    else [c]
  }

  function EncAll(k: nat, s: string): string {
    if s == [] then [] else Enc(k, s[0]) + EncAll(k, s[1..])
  }

  lemma {:induction false} ReplaceCharAppend(a: string, b: string, c: char, with: string)
    ensures ReplaceChar(a + b, c, with) == ReplaceChar(a, c, with) + ReplaceChar(b, c, with)
  {
    if a == [] {
      assert a + b == b;
    } else {
      assert (a + b)[1..] == a[1..] + b;
      ReplaceCharAppend(a[1..], b, c, with);
    }
  }

  lemma EscapeChar(k: nat, c: char)
    requires k < 4
    ensures ReplaceChar(Enc(k + 1, c), Special(k), Entity(k)) == Enc(k, c)
  {
    var w := Enc(k + 1, c);
    if c == Special(k) {
      assert ReplaceChar([c], c, Entity(k)) == Entity(k) + [];
    } else {
      NoSpecial(w, Special(k), Entity(k));
    }
  }

  lemma {:induction false} NoSpecial(w: string, c: char, with: string)
    requires c !in w
    ensures ReplaceChar(w, c, with) == w
  {
    if w != [] {
      NoSpecial(w[1..], c, with);
    }
  }

  lemma {:induction false} EscapePass(k: nat, s: string)
    requires k < 4
    ensures ReplaceChar(EncAll(k + 1, s), Special(k), Entity(k)) == EncAll(k, s)
  {
    if s != [] {
      EscapeChar(k, s[0]);
      EscapePass(k, s[1..]);
      ReplaceCharAppend(Enc(k + 1, s[0]), EncAll(k + 1, s[1..]), Special(k), Entity(k));
    }
  }

  lemma EntityDead(k: nat, c: char)
    requires k < 4 && c != Special(k)
    ensures Dead(Enc(k, c), Entity(k))
  {
    var w, pat := Enc(k, c), Entity(k);
    forall i | 0 <= i < |w|
      ensures DeadAt(w, pat, i)
    {
      if w[i] != '&' {
        assert w[i + 0] != pat[0];
      } else {
        assert i == 0 && w[i + 1] != pat[1];
      }
    }
  }

  lemma {:induction false} DecodePass(k: nat, s: string)
    requires k < 4
    ensures Replace(EncAll(k, s), Entity(k), [Special(k)]) == EncAll(k + 1, s)
  {
    if s != [] {
      var c, rest := s[0], EncAll(k, s[1..]);
      DecodePass(k, s[1..]);
      if c == Special(k) {
        ReplaceHit(rest, Entity(k), [Special(k)]);
      } else {
        EntityDead(k, c);
        ReplaceSkip(Enc(k, c), rest, Entity(k), [Special(k)]);
      }
    }
  }

  lemma {:induction false} EncAll4(s: string)
    ensures EncAll(4, s) == s
  {
    if s != [] {
      EncAll4(s[1..]);
    }
  }

  /** The escape encodes each character on its own. */
  lemma EscapeIsCharwise(s: string)
    ensures HtmlEscape(s) == EncAll(0, s)
  {
    hide Enc, EncAll, ReplaceChar;
    EncAll4(s);
    EscapePass(3, s);
    EscapePass(2, s);
    EscapePass(1, s);
    EscapePass(0, s);
  }

  /** Decoding undoes escaping on every string, whatever entities it already contains. */
  lemma DecodeUndoesEscape(s: string)
    ensures DecodeBasicEntities(HtmlEscape(s)) == s
  {
    hide Enc, EncAll, Replace, HtmlEscape;
    EscapeIsCharwise(s);
    DecodePass(0, s);
    DecodePass(1, s);
    DecodePass(2, s);
    DecodePass(3, s);
    EncAll4(s);
  }

  /** Escaped text contains none of the characters that tags are made of. */
  lemma {:induction false} EscapeLeavesNoMarkup(s: string)
    ensures '<' !in HtmlEscape(s) && '>' !in HtmlEscape(s) && '"' !in HtmlEscape(s)
    ensures HtmlEscape(s) == [] <==> s == []
  {
    EscapeIsCharwise(s);
    EncLeavesNoMarkup(s);
  }

  lemma {:induction false} EncLeavesNoMarkup(s: string)
    ensures '<' !in EncAll(0, s) && '>' !in EncAll(0, s) && '"' !in EncAll(0, s)
  {
    if s != [] {
      EncLeavesNoMarkup(s[1..]);
    }
  }

  lemma {:induction false} EncAllAppend(k: nat, a: string, b: string)
    ensures EncAll(k, a + b) == EncAll(k, a) + EncAll(k, b)
  {
    if a == [] {
      assert a + b == b;
    } else {
      assert (a + b)[1..] == a[1..] + b;
      EncAllAppend(k, a[1..], b);
    }
  }

  lemma EscapeAppend(a: string, b: string)
    ensures HtmlEscape(a + b) == HtmlEscape(a) + HtmlEscape(b)
  {
    EscapeIsCharwise(a);
    EscapeIsCharwise(b);
    EscapeIsCharwise(a + b);
    EncAllAppend(0, a, b);
  }

  lemma EncEnds(c: char)
    requires !IsWhitespace(c)
    ensures var e := Enc(0, c); e != [] && !IsWhitespace(e[0]) && !IsWhitespace(e[|e| - 1])
  {
  }

  /** Escaping never turns an end into white space. */
  lemma EscapeTrimmed(s: string)
    requires Trimmed(s)
    ensures Trimmed(HtmlEscape(s))
  {
    EscapeIsCharwise(s);
    hide HtmlEscape, Enc, IsWhitespace;
    if s != [] {
      var n := |s| - 1;
      EncEnds(s[0]);
      EncEnds(s[n]);
      assert s == s[..n] + [s[n]];
      EncAllAppend(0, s[..n], [s[n]]);
      assert EncAll(0, [s[n]]) == Enc(0, s[n]) + [];
    }
  }
}
