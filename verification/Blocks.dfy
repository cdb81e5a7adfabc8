/** The blocks of a page and their types. */
module Blocks {
  import opened Numbers
  import opened Options

  /** Kinds of visual groups. */
  datatype Visual = Image | Table | Chart | Code

  datatype Kind =
    | Text | Title | RefText | Phonetic | List | InterlineEquation
    | Header | Footer | PageNumber | AsideText | PageFootnote
    | ImageBlockBody | Body(visual: Visual)
    | Caption | Footnote                       // not yet attached to a group
    | Group(visual: Visual) | CaptionOf(visual: Visual) | FootnoteOf(visual: Visual)
    | Other(name: string)
  {
    predicate IsMain() {
      ImageBlockBody? || Body?
    }

    predicate IsChild() {
      Caption? || Footnote?
    }

    predicate IsDiscarded() {
      Header? || Footer? || PageNumber? || AsideText? || PageFootnote?
    }

    /** Text, and whatever has no list of its own. */
    predicate IsPlain() {
      !IsMain() && !IsChild() && !IsDiscarded()
      && !InterlineEquation? && !Title? && !RefText? && !Phonetic? && !List?
    }

    function GroupVisual(): Visual
      requires IsMain()
    {
      if ImageBlockBody? then Image else visual
    }
  }

  datatype Box = Box(left: int, top: int, right: int, bottom: int)

  type Line = string

  datatype Block = Block(
    kind: Kind, bbox: Box, lines: seq<Line>, blocks: seq<Block>, index: nat, mergePrev: Option<bool>)

  function IndexOf(block: Block): int {
    block.index
  }

  /** Distance between two boxes: the horizontal gap plus the vertical gap. */
  function BoxDistance(a: Box, b: Box): int {
    (if a.right < b.left then b.left - a.right else if b.right < a.left then a.left - b.right else 0)
    + (if a.bottom < b.top then b.top - a.bottom else if b.bottom < a.top then a.top - b.bottom else 0)
  }

  function Abs(x: int): int {
    if x < 0 then -x else x
  }

  ghost predicate InBox(box: Box, x: int, y: int) {
    box.left <= x <= box.right && box.top <= y <= box.bottom
  }

  lemma BoxDistanceIsLeast(a: Box, b: Box, x: int, y: int, u: int, v: int)
    requires InBox(a, x, y) && InBox(b, u, v)
    ensures 0 <= BoxDistance(a, b) == BoxDistance(b, a) <= Abs(x - u) + Abs(y - v)
  {
  }

  lemma BoxDistanceIsReached(a: Box, b: Box) returns (x: int, y: int, u: int, v: int)
    requires a.left <= a.right && a.top <= a.bottom && b.left <= b.right && b.top <= b.bottom
    ensures InBox(a, x, y) && InBox(b, u, v) && BoxDistance(a, b) == Abs(x - u) + Abs(y - v)
  {
    x := if a.right < b.left then a.right else Max(a.left, b.left);
    y := if a.bottom < b.top then a.bottom else Max(a.top, b.top);
    u := if a.right < b.left then b.left else Min(x, b.right);
    v := if a.bottom < b.top then b.top else Min(y, b.bottom);
    x := if b.right < a.left then a.left else x;
    y := if b.bottom < a.top then a.top else y;
  }

  /** The distance is the least number of unit steps from a point of one box to
      a point of the other: some two points are that far apart, and no two are
      nearer. */
  lemma BoxDistanceIsMinimum(a: Box, b: Box)
    requires a.left <= a.right && a.top <= a.bottom && b.left <= b.right && b.top <= b.bottom
    ensures exists x, y, u, v :: InBox(a, x, y) && InBox(b, u, v) && BoxDistance(a, b) == Abs(x - u) + Abs(y - v)
    ensures forall x, y, u, v :: InBox(a, x, y) && InBox(b, u, v) ==> BoxDistance(a, b) <= Abs(x - u) + Abs(y - v)
  {
    hide BoxDistance, InBox;
    var x, y, u, v := BoxDistanceIsReached(a, b);
    forall x, y, u, v | InBox(a, x, y) && InBox(b, u, v)
      ensures BoxDistance(a, b) <= Abs(x - u) + Abs(y - v)
    {
      BoxDistanceIsLeast(a, b, x, y, u, v);
    }
  }

  /** The part of the first box that lies in the second, as a fraction of its area. */
  function OverlapRatio(first: Box, second: Box): real {
    var left, top := Max(first.left, second.left), Max(first.top, second.top);
    var right, bottom := Min(first.right, second.right), Min(first.bottom, second.bottom);
    if right <= left || bottom <= top then 0.0
    else
      var width, height := Max(first.right - first.left, 1), Max(first.bottom - first.top, 1);
      assert width * height >= 1 * height;
      (((right - left) * (bottom - top)) as real) / ((width * height) as real)
  }

  /** A degenerate side counts as one. */
  function Area(box: Box): (area: int)
    ensures area >= 1
  {
    var width, height := Max(box.right - box.left, 1), Max(box.bottom - box.top, 1);
    assert width * height >= 1 * height;
    width * height
  }

  /** At least four fifths of `inner` lie in `outer`. */
  predicate LiesIn(inner: Box, outer: Box) {
    var left, top := Max(inner.left, outer.left), Max(inner.top, outer.top);
    var right, bottom := Min(inner.right, outer.right), Min(inner.bottom, outer.bottom);
    left < right && top < bottom && 5 * ((right - left) * (bottom - top)) >= 4 * Area(inner)
  }

  lemma RatioAtLeast(part: int, whole: int)
    requires whole >= 1
    ensures (part as real) / (whole as real) >= 0.8 <==> 5 * part >= 4 * whole
  {
    var ratio := (part as real) / (whole as real);
    assert ratio * (whole as real) == part as real;
    if ratio >= 0.8 {
      assert ratio * (whole as real) >= 0.8 * (whole as real);
    } else {
      assert ratio * (whole as real) < 0.8 * (whole as real);
    }
  }

  /** The integer test is the comparison of the ratio with four fifths. */
  lemma LiesInIsRatio(inner: Box, outer: Box)
    ensures LiesIn(inner, outer) <==> OverlapRatio(inner, outer) >= 0.8
  {
    var left, top := Max(inner.left, outer.left), Max(inner.top, outer.top);
    var right, bottom := Min(inner.right, outer.right), Min(inner.bottom, outer.bottom);
    RatioAtLeast((right - left) * (bottom - top), Area(inner));
  }
}
