/** Conservative escaping of Markdown markup characters. */
module MarkdownEscape {
  predicate IsSpecial(c: char) {
    c == '*' || c == '_' || c == '`' || c == '~' || c == '$'
  }

  /** The length of the run of backslashes that ends the text. */
  function Run(text: string): nat {
    if text == [] || text[|text| - 1] != '\\' then 0 else 1 + Run(text[..|text| - 1])
  }

  /** A backslash goes before every special character after an even run of backslashes. */
  function Escaped(text: string): string {
    if text == [] then []
    else
      var before, c := text[..|text| - 1], text[|text| - 1];
      Escaped(before) + if IsSpecial(c) && Run(before) % 2 == 0 then ['\\', c] else [c]
  }

  method EscapeMarkdown(content: string) returns (escaped: string)
    ensures escaped == Escaped(content)
  {
    escaped := [];
    var precedingBackslashes := 0;
    for i := 0 to |content|
      invariant escaped == Escaped(content[..i]) && precedingBackslashes == Run(content[..i])
    {
      var c := content[i];
      assert content[..i + 1][..i] == content[..i];
      if c == '\\' {
        escaped := escaped + [c];
        precedingBackslashes := precedingBackslashes + 1;
        continue;
      }
      ghost var before := escaped;
      if IsSpecial(c) && precedingBackslashes % 2 == 0 {
        escaped := escaped + ['\\'];
      }
      escaped := escaped + [c];
      precedingBackslashes := 0;
      assert before + ['\\'] + [c] == before + ['\\', c];
    }
    assert content[..|content|] == content;
  }

  /** Every special character stands after an odd run of backslashes. */
  ghost predicate Guarded(text: string) {
    forall i :: 0 <= i < |text| && IsSpecial(text[i]) ==> Run(text[..i]) % 2 == 1
  }

  lemma RunSnoc(text: string, c: char)
    ensures Run(text + [c]) == if c == '\\' then 1 + Run(text) else 0
  {
    assert (text + [c])[..|text|] == text;
  }

  lemma GuardedSnoc(text: string, c: char)
    requires Guarded(text) && (IsSpecial(c) ==> Run(text) % 2 == 1)
    ensures Guarded(text + [c])
  {
    forall i | 0 <= i <= |text| && IsSpecial((text + [c])[i])
      ensures Run((text + [c])[..i]) % 2 == 1
    {
      assert (text + [c])[..i] == text[..i];
      assert text[..|text|] == text;
    }
  }

  lemma {:induction false} RunEscaped(text: string)
    ensures Run(Escaped(text)) == Run(text)
  {
    if text != [] {
      var before, c := text[..|text| - 1], text[|text| - 1];
      RunEscaped(before);
      if IsSpecial(c) && Run(before) % 2 == 0 {
        RunSnoc(Escaped(before) + ['\\'], c);
        assert Escaped(before) + ['\\', c] == Escaped(before) + ['\\'] + [c];
      } else {
        RunSnoc(Escaped(before), c);
      }
    }
  }

  /** In the output every special character is guarded. */
  lemma {:induction false} EscapedIsGuarded(text: string)
    ensures Guarded(Escaped(text))
  {
    if text != [] {
      var before, c := text[..|text| - 1], text[|text| - 1];
      EscapedIsGuarded(before);
      RunEscaped(before);
      if IsSpecial(c) && Run(before) % 2 == 0 {
        RunSnoc(Escaped(before), '\\');
        GuardedSnoc(Escaped(before), '\\');
        GuardedSnoc(Escaped(before) + ['\\'], c);
        assert Escaped(before) + ['\\', c] == Escaped(before) + ['\\'] + [c];
      } else {
        GuardedSnoc(Escaped(before), c);
      }
    }
  }

  lemma {:induction false} GuardedIsKept(text: string)
    requires Guarded(text)
    ensures Escaped(text) == text
  {
    hide Run;
    if text != [] {
      var before, c := text[..|text| - 1], text[|text| - 1];
      assert IsSpecial(c) ==> Run(before) % 2 == 1;
      assert text == before + [c];
      forall i | 0 <= i < |before| && IsSpecial(before[i])
        ensures Run(before[..i]) % 2 == 1
      {
        assert before[..i] == text[..i];
      }
      GuardedIsKept(before);
    }
  }

  /** Text is left alone exactly when it is guarded already; so escaping twice
      is escaping once. */
  lemma EscapingIsIdempotent(text: string)
    ensures Escaped(text) == text <==> Guarded(text)
    ensures Escaped(Escaped(text)) == Escaped(text)
  {
    EscapedIsGuarded(text);
    GuardedIsKept(Escaped(text));
    if Guarded(text) {
      GuardedIsKept(text);
    }
  }

  /** Character for character: a star, underscore, backtick, tilde or dollar sign
      after an even run of backslashes gains a backslash, nothing else gains one; and
      in the output each of the five stands after an odd run. */
  lemma FiveCharacters(text: string, c: char)
    ensures Escaped("") == ""
    ensures c in "*_`~$" && Run(text) % 2 == 0 ==> Escaped(text + [c]) == Escaped(text) + ['\\', c]
    ensures c !in "*_`~$" || Run(text) % 2 == 1 ==> Escaped(text + [c]) == Escaped(text) + [c]
    ensures var out := Escaped(text);
            forall i :: 0 <= i < |out| && out[i] in "*_`~$" ==> Run(out[..i]) % 2 == 1
  {
    assert (text + [c])[..|text|] == text;
    EscapedIsGuarded(text);
  }

  // --------------------------------------------------------------- what shows

  /** What a reader of the Markdown sees so far, and whether a backslash waits
      for the character it escapes. */
  function Scan(text: string): (string, bool) {
    if text == [] then ([], false)
    else
      var (shown, waiting) := Scan(text[..|text| - 1]);
      var c := text[|text| - 1];
      if waiting then (if c == '\\' || IsSpecial(c) then (shown + [c], false) else (shown + ['\\', c], false))
      else if c == '\\' then (shown, true)
      else (shown + [c], false)
  }

  function Shown(text: string): string {
    var (shown, waiting) := Scan(text);
    if waiting then shown + ['\\'] else shown
  }

  lemma ScanSnoc(text: string, c: char)
    ensures Scan(text + [c]) ==
            var (shown, waiting) := Scan(text);
            if waiting then (if c == '\\' || IsSpecial(c) then (shown + [c], false) else (shown + ['\\', c], false))
            else if c == '\\' then (shown, true)
            else (shown + [c], false)
  {
    assert (text + [c])[..|text|] == text;
  }

  lemma {:induction false} WaitingIsOdd(text: string)
    ensures Scan(text).1 <==> Run(text) % 2 == 1
  {
    if text != [] {
      WaitingIsOdd(text[..|text| - 1]);
    }
  }

  lemma {:induction false} ScanEscaped(text: string)
    ensures Scan(Escaped(text)) == Scan(text)
  {
    if text != [] {
      var before, c := text[..|text| - 1], text[|text| - 1];
      ScanEscaped(before);
      WaitingIsOdd(before);
      if IsSpecial(c) && Run(before) % 2 == 0 {
        ScanSnoc(Escaped(before), '\\');
        ScanSnoc(Escaped(before) + ['\\'], c);
        assert Escaped(before) + ['\\', c] == Escaped(before) + ['\\'] + [c];
      } else {
        ScanSnoc(Escaped(before), c);
      }
    }
  }

  /** Escaping shows the same text and leaves no active markup character. */
  lemma EscapingShowsTheSame(text: string)
    ensures Shown(Escaped(text)) == Shown(text)
    ensures forall i :: 0 <= i < |Escaped(text)| && IsSpecial(Escaped(text)[i]) ==> Scan(Escaped(text)[..i]).1
  {
    ScanEscaped(text);
    EscapedIsGuarded(text);
    forall i | 0 <= i < |Escaped(text)| && IsSpecial(Escaped(text)[i])
      ensures Scan(Escaped(text)[..i]).1
    {
      WaitingIsOdd(Escaped(text)[..i]);
    }
  }
}
