/** UTF-8 lengths and cutting text at a byte limit; decimal numerals. */
module Utf8 {
  import opened Options

  function CharBytes(c: char): nat {
    var code := c as int;
    if code < 0x80 then 1 else if code < 0x800 then 2 else if code < 0x1_0000 then 3 else 4
  }

  /** The encoding of a character number (section 3 of RFC 3629): six bits a byte
      from the end on, and a lead byte that announces the length. */
  function Encode(code: nat): seq<nat> {
    if code <= 0x7F then [code]
    else if code <= 0x7FF then [0xC0 + code / 64, 0x80 + code % 64]
    else if code <= 0xFFFF then [0xE0 + code / 64 / 64, 0x80 + code / 64 % 64, 0x80 + code % 64]
    else [0xF0 + code / 64 / 64 / 64, 0x80 + code / 64 / 64 % 64, 0x80 + code / 64 % 64, 0x80 + code % 64]
  }

  /** The length that a lead byte announces. */
  function Announced(lead: nat): nat {
    if lead < 0x80 then 1 else if lead < 0xE0 then 2 else if lead < 0xF0 then 3 else 4
  }

  function Decode(e: seq<nat>): int
    requires e != []
  {
    if |e| == 1 then e[0] else 64 * Decode(e[..|e| - 1]) + e[|e| - 1] as int - 0x80
  }

  /** What the marker of the lead byte adds to the number. */
  function Marker(length: nat): int {
    match length case 1 => 0 case 2 => 0xC0 * 64 case 3 => 0xE0 * 64 * 64 case _ => 0xF0 * 64 * 64 * 64
  }

  lemma DecodeSnoc(e: seq<nat>, last: nat)
    requires e != []
    ensures Decode(e + [last]) == 64 * Decode(e) + last as int - 0x80
  {
    assert (e + [last])[..|e|] == e;
  }

  lemma DecodesTo(code: nat)
    requires code <= 0x10FFFF
    ensures Decode(Encode(code)) == Marker(|Encode(code)|) + code
  {
    hide Decode;
    var p, q, r := code / 64 / 64 / 64, code / 64 / 64, code / 64;
    DecodeOne(code);
    DecodeOne(0xC0 + r);
    DecodeOne(0xE0 + q);
    DecodeOne(0xF0 + p);
    DecodeSnoc([0xC0 + r], 0x80 + code % 64);
    DecodeSnoc([0xE0 + q], 0x80 + r % 64);
    DecodeSnoc([0xE0 + q, 0x80 + r % 64], 0x80 + code % 64);
    DecodeSnoc([0xF0 + p], 0x80 + q % 64);
    DecodeSnoc([0xF0 + p, 0x80 + q % 64], 0x80 + r % 64);
    DecodeSnoc([0xF0 + p, 0x80 + q % 64, 0x80 + r % 64], 0x80 + code % 64);
    assert Encode(code) == if code <= 0x7F then [code]
                           else if code <= 0x7FF then [0xC0 + r] + [0x80 + code % 64]
                           else if code <= 0xFFFF then [0xE0 + q, 0x80 + r % 64] + [0x80 + code % 64]
                           else [0xF0 + p, 0x80 + q % 64, 0x80 + r % 64] + [0x80 + code % 64];
    assert [0xE0 + q, 0x80 + r % 64] == [0xE0 + q] + [0x80 + r % 64];
    assert [0xF0 + p, 0x80 + q % 64, 0x80 + r % 64] == [0xF0 + p, 0x80 + q % 64] + [0x80 + r % 64];
    assert [0xF0 + p, 0x80 + q % 64] == [0xF0 + p] + [0x80 + q % 64];
  }

  lemma DecodeOne(lead: nat)
    ensures Decode([lead]) == lead
  {
  }

  lemma AnnouncesLength(code: nat)
    requires code <= 0x10FFFF
    ensures var e := Encode(code);
            Announced(e[0]) == |e| && e[0] < 0x100 && forall i :: 1 <= i < |e| ==> 0x80 <= e[i] < 0xC0
  {
  }

  /** A character takes as many bytes as its encoding has, which its lead byte
      announces; without the marker of that byte they are its number. */
  lemma CharBytesIsLength(c: char)
    ensures var e := Encode(c as int);
            && |e| == CharBytes(c) && Announced(e[0]) == |e| && Decode(e) == Marker(|e|) + c as int
            && e[0] < 0x100 && forall i :: 1 <= i < |e| ==> 0x80 <= e[i] < 0xC0
  {
    hide Decode, Marker, Announced;
    AnnouncesLength(c as int);
    DecodesTo(c as int);
  }

  function Bytes(text: string): nat {
    if text == [] then 0 else Bytes(text[..|text| - 1]) + CharBytes(text[|text| - 1])
  }

  lemma {:induction false} BytesAppend(a: string, b: string)
    ensures Bytes(a + b) == Bytes(a) + Bytes(b)
  {
    if b == [] {
      assert a + b == a;
    } else {
      BytesAppend(a, b[..|b| - 1]);
      assert (a + b)[..|a + b| - 1] == a + b[..|b| - 1];
    }
  }

  lemma PrefixBytes(text: string, i: nat, j: nat)
    requires i <= j <= |text|
    ensures Bytes(text[..i]) + (j - i) <= Bytes(text[..j])
    decreases j - i
  {
    if i < j {
      PrefixBytes(text, i, j - 1);
      assert text[..j][..j - 1] == text[..j - 1];
    }
  }

  /** How many characters take up the first `bytes` bytes, if that is a boundary. */
  function BoundaryAt(text: string, bytes: nat): (chars: Option<nat>)
    ensures chars.Some? ==> chars.value <= |text| && Bytes(text[..chars.value]) == bytes
    ensures chars.None? ==> forall k :: 0 <= k <= |text| ==> Bytes(text[..k]) != bytes
  {
    if Bytes(text) == bytes then
      assert text[..|text|] == text;
      Some(|text|)
    else if text == [] then
      assert text[..0] == text;
      None
    else
      var before := text[..|text| - 1];
      assert text[..|text|] == text;
      assert forall k :: 0 <= k < |text| ==> before[..k] == text[..k];
      BoundaryAt(before, bytes)
  }

  /** The longest prefix within the limit. */
  ghost predicate IsLongestPrefix(r: string, text: string, limit: nat) {
    && r <= text && Bytes(r) <= limit
    && forall k :: |r| < k <= |text| ==> Bytes(text[..k]) > limit
  }

  function Truncated(text: string, limit: nat): (r: string)
    ensures IsLongestPrefix(r, text, limit)
  {
    if Bytes(text) <= limit then
      text
    else
      var before := text[..|text| - 1];
      assert text[..|text|] == text;
      assert forall k :: 0 <= k < |text| ==> before[..k] == text[..k];
      Truncated(before, limit)
  }

  lemma LongestIsUnique(a: string, b: string, text: string, limit: nat)
    requires IsLongestPrefix(a, text, limit) && IsLongestPrefix(b, text, limit)
    ensures a == b
  {
    assert a == text[..|a|] && b == text[..|b|];
  }

  /** Backs up from the limit to the nearest character boundary. */
  method TruncateToUtf8Bytes(value: string, maxBytes: nat) returns (r: string)
    ensures r == Truncated(value, maxBytes)
  {
    if Bytes(value) <= maxBytes {
      return value;
    }
    var end := maxBytes;
    assert Bytes(value[..0]) == 0;
    while BoundaryAt(value, end).None?
      invariant 0 <= end <= maxBytes
      invariant forall k :: 0 <= k <= |value| && Bytes(value[..k]) <= maxBytes ==> Bytes(value[..k]) <= end
      decreases end
    {
      end := end - 1;
    }
    var chars := BoundaryAt(value, end).value;
    r := value[..chars];
    forall k | chars < k <= |value|
      ensures Bytes(value[..k]) > maxBytes
    {
      PrefixBytes(value, chars, k);
    }
    LongestIsUnique(r, Truncated(value, maxBytes), value, maxBytes);
  }

  lemma TruncatedNonempty(text: string, limit: nat)
    requires limit >= 4 && text != ""
    ensures Truncated(text, limit) != ""
  {
    assert Bytes(text[..1]) <= 4 by {
      assert text[..1] == [text[0]] && text[..1][..0] == [];
    }
  }

  // ---------------------------------------------------------------- numerals

  function Digit(d: nat): char
    requires d < 10
  {
    '0' + d as char
  }

  function Digits(n: nat): string {
    if n < 10 then [Digit(n)] else Digits(n / 10) + [Digit(n % 10)]
  }

  lemma {:induction false} DigitsInjective(m: nat, n: nat)
    requires Digits(m) == Digits(n)
    ensures m == n
  {
    var last := |Digits(m)| - 1;
    assert Digits(m)[last] == Digit(m % 10) && Digits(n)[last] == Digit(n % 10);
    if m < 10 || n < 10 {
      DigitsNonempty(m / 10);
      DigitsNonempty(n / 10);
    } else {
      assert Digits(m / 10) == Digits(m)[..last] && Digits(n / 10) == Digits(n)[..last];
      DigitsInjective(m / 10, n / 10);
    }
  }

  lemma DigitsNonempty(n: nat)
    ensures Digits(n) != []
  {
  }

  /** Numerals are made of one-byte digits, none of them an underscore. */
  lemma {:induction false} DigitsPlain(n: nat)
    ensures Bytes(Digits(n)) == |Digits(n)|
    ensures forall i :: 0 <= i < |Digits(n)| ==> Digits(n)[i] != '_'
  {
    if n >= 10 {
      DigitsPlain(n / 10);
      assert Digits(n)[..|Digits(n)| - 1] == Digits(n / 10);
    } else {
      assert [Digit(n)][..0] == [];
    }
  }

  function Pow10(k: nat): nat {
    if k == 0 then 1 else 10 * Pow10(k - 1)
  }

  lemma {:induction false} DigitsShort(n: nat, k: nat)
    requires k >= 1 && n < Pow10(k)
    ensures |Digits(n)| <= k
  {
    if n >= 10 {
      DigitsShort(n / 10, k - 1);
    }
  }

  function DigitValue(c: char): nat {
    if '0' <= c <= '9' then (c as int) - ('0' as int) else 0
  }

  function Number(text: string): nat {
    if text == [] then 0 else 10 * Number(text[..|text| - 1]) + DigitValue(text[|text| - 1])
  }

  /** Reading a numeral gives its number. */
  lemma {:induction false} NumberOfDigits(n: nat)
    ensures Number(Digits(n)) == n
  {
    if n < 10 {
      assert [Digit(n)][..0] == [];
    } else {
      NumberOfDigits(n / 10);
      assert Digits(n)[..|Digits(n)| - 1] == Digits(n / 10);
    }
  }
}
