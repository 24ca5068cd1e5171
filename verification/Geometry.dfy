/** Scaling and placement of the captured picture (platform/windows/gsr_utils_win32.c), with
    doubles as real numbers. */
module Geometry {
  import opened Arithmetic

  datatype Vec2 = Vec2(x: int, y: int)

  datatype Align = AlignStart | AlignCenter | AlignEnd

  /** Division of C ints by two. */
  function Half(n: int): int { if n >= 0 then n / 2 else -(-n / 2) }

  /** Products and quotients behind a name keep the arithmetic of the proofs linear. */
  function Product(a: int, b: int): int { a * b }

  function Scaled(n: int, over: int, under: int): int
    requires under != 0
  {
    Truncate(n as real * (over as real / under as real))
  }

  /** The scaled length is the quotient rounded down. */
  lemma ScaledRoundsDown(n: nat, over: nat, under: nat)
    requires under > 0
    ensures var r := Scaled(n, over, under);
      0 <= Product(r, under) <= Product(n, over) < Product(r, under) + under && r >= 0
  {
    var q := n as real * (over as real / under as real);
    QuotientTimes(n as real, over as real, under as real);
    RealProduct(n, over);
    QuotientFloor(q, under, Product(n, over));
  }

  lemma QuotientTimes(n: real, o: real, u: real)
    requires u != 0.0
    ensures Times(n * (o / u), u) == Times(n, o)
  {
  }

  lemma RealProduct(a: int, b: int)
    ensures Product(a, b) as real == Times(a as real, b as real)
  {
  }

  lemma RealOrder(a: real, b: real, c: real)
    requires c > 0.0
    ensures a < b <==> Times(a, c) < Times(b, c)
  {
  }

  lemma QuotientFloor(q: real, under: nat, product: nat)
    requires under > 0 && Times(q, under as real) == product as real
    ensures var r := Truncate(q); r >= 0 && 0 <= Product(r, under) <= product < Product(r, under) + under
  {
    var u := under as real;
    RealOrder(q, 0.0, u);
    assert Times(0.0, u) == 0.0;
    var r := q.Floor;
    assert Product(r + 1, under) == Product(r, under) + under && Product(r, under) >= 0;
    RealOrder(q, r as real, u);
    RealOrder(q, (r + 1) as real, u);
    RealProduct(r, under);
    RealProduct(r + 1, under);
    hide Product, Times;
  }

  /** The size the source reaches step by step, before each side is raised to at least one. */
  function Fitted(from: Vec2, to: Vec2): Vec2
    requires from.x != 0 && from.y != 0 && to.x > 0 && to.y > 0
  {
    var y := Scaled(to.x, from.y, from.x);
    if y > to.y then Vec2(Scaled(to.y, to.x, y), to.y) else Vec2(to.x, y)
  }

  function AtLeastOne(n: int): int { if n < 1 then 1 else n }

  /** A side times the ratio of two others, as a double cut to an int. */
  method TimesRatio(side: int, over: int, under: int) returns (r: int)
    requires under != 0
    ensures r == Scaled(side, over, under)
  {
    var ratio := over as real / under as real;
    r := Truncate(side as real * ratio);
  }

  method ScaleKeepAspectRatio(original: Vec2, to: Vec2) returns (from: Vec2)
    requires to.x > 0 && to.y > 0
    ensures original.x == 0 || original.y == 0 ==> from == Vec2(0, 0)
    ensures original.x != 0 && original.y != 0 ==>
              1 <= from.x <= to.x && 1 <= from.y <= to.y && (from.x == to.x || from.y == to.y)
    ensures original.x > 0 && original.y > 0 ==> KeepsRatio(original, from)
  {
    hide Scaled, Product, KeepsRatio;
    from := original;
    if from.x == 0 || from.y == 0 { return Vec2(0, 0); }
    var height := TimesRatio(to.x, from.y, from.x);
    from := Vec2(to.x, height);
    if from.y > to.y {
      var width := TimesRatio(to.y, from.x, from.y);
      from := Vec2(width, to.y);
    }
    assert from == Fitted(original, to);
    hide Fitted;
    FittedFits(original, to);
    if original.x > 0 && original.y > 0 { FittedKeepsRatio(original, to); }
    if from.x < 1 { from := from.(x := 1); }
    if from.y < 1 { from := from.(y := 1); }
  }

  /** The sides are those of the original up to one step: neither cross product exceeds the other
      by more than the longer side of the original. */
  predicate KeepsRatio(original: Vec2, r: Vec2) {
    var wide, high := Product(r.x, original.y), Product(r.y, original.x);
    && wide - high <= (if original.x > original.y then original.x else original.y)
    && high - wide <= (if original.x > original.y then original.x else original.y)
  }

  /** The result lies in the box and touches one of its sides, whatever the original. */
  lemma FittedFits(from: Vec2, to: Vec2)
    requires from.x != 0 && from.y != 0 && to.x > 0 && to.y > 0
    ensures var r := Fitted(from, to); r.x <= to.x && r.y <= to.y && (r.x == to.x || r.y == to.y)
  {
  }

  /** The whole width is used exactly when the height that goes with it, cut to a whole number, fits. */
  lemma WidthIsUsedExactly(from: Vec2, to: Vec2)
    requires from.x > 0 && from.y > 0 && to.x > 0 && to.y > 0
    ensures Fitted(from, to).x == to.x <==> Product(to.x, from.y) < Product(to.y + 1, from.x)
  {
    var y := Scaled(to.x, from.y, from.x);
    ScaledRoundsDown(to.x, from.y, from.x);
    if y <= to.y {
      MulMono(y + 1, to.y + 1, from.x);
    } else {
      ScaledRoundsDown(to.y, to.x, y);
      MulMono(to.y + 1, y, from.x);
      MulStrict(to.y, y, to.x);
      if Scaled(to.y, to.x, y) >= to.x { MulMono(to.x, Scaled(to.y, to.x, y), y); }
    }
    hide Scaled;
  }

  /** The ratio is kept, also where a side has to be raised to one. */
  lemma FittedKeepsRatio(from: Vec2, to: Vec2)
    requires from.x > 0 && from.y > 0 && to.x > 0 && to.y > 0
    ensures var r := Fitted(from, to); KeepsRatio(from, Vec2(AtLeastOne(r.x), AtLeastOne(r.y)))
  {
    var y := Scaled(to.x, from.y, from.x);
    ScaledRoundsDown(to.x, from.y, from.x);
    if y <= to.y {
      assert Product(0, from.x) == 0 && Product(1, from.x) == from.x;
    } else {
      ScaledRoundsDown(to.y, to.x, y);
      WidthKeepsRatio(from.x, from.y, to.x, to.y, y, Scaled(to.y, to.x, y));
    }
  }

  lemma WidthKeepsRatio(fx: nat, fy: nat, tx: nat, ty: nat, y: nat, x: nat)
    requires fx > 0 && fy > 0 && tx > 0 && 0 < ty < y
    requires Product(y, fx) <= Product(tx, fy) < Product(y, fx) + fx
    requires Product(x, y) <= Product(ty, tx) < Product(x, y) + y
    ensures var r := AtLeastOne(x);
      && Product(r, fy) - Product(ty, fx) <= (if fx > fy then fx else fy)
      && Product(ty, fx) - Product(r, fy) <= (if fx > fy then fx else fy)
  {
    // below: x + 1 > ty * tx / y, and tx * fy >= y * fx, so (x + 1) * fy > ty * fx
    calc {
      (x * y + y) * fy;
      > { MulStrict(ty * tx, x * y + y, fy); }
      (ty * tx) * fy;
      == { Rearrange(ty, tx, fy); }
      ty * (tx * fy);
      >= { MulMono(y * fx, tx * fy, ty); }
      ty * (y * fx);
    }
    assert ((x + 1) * fy) * y == (x * y + y) * fy by { Regroup(x, y, fy); }
    assert (ty * fx) * y == ty * (y * fx) by { Rearrange(ty, fx, y); }
    CancelStrict(ty * fx, (x + 1) * fy, y);
    assert (x + 1) * fy == Product(x, fy) + fy;
    // above: x * y <= ty * tx and tx * fy < (y + 1) * fx, with ty < y
    calc {
      (x * fy) * y;
      == { Rearrange3(x, fy, y); }
      (x * y) * fy;
      <= { MulMono(x * y, ty * tx, fy); }
      (ty * tx) * fy;
      == { Rearrange(ty, tx, fy); }
      ty * (tx * fy);
      <= { MulMono(tx * fy, y * fx + fx, ty); }
      ty * (y * fx + fx);
      == { Spread(ty, y, fx); }
      (ty * fx) * y + ty * fx;
      <= { MulMono(ty, y, fx); }
      (ty * fx) * y + y * fx;
      == { Spread2(ty * fx, fx, y); }
      (ty * fx + fx) * y;
    }
    Cancel(x * fy, ty * fx + fx, y);
    if x == 0 { assert Product(1, fy) == fy && Product(0, fy) == 0; }
  }

  lemma MulStrict(a: int, b: int, c: nat)
    requires a < b && c > 0
    ensures a * c < b * c
  {
  }

  lemma MulMono(a: int, b: int, c: nat)
    requires a <= b
    ensures a * c <= b * c && c * a <= c * b
  {
  }

  lemma Rearrange(a: int, b: int, c: int)
    ensures (a * b) * c == a * (b * c) == a * (c * b)
  {
  }

  lemma Rearrange3(a: int, b: int, c: int)
    ensures (a * b) * c == (a * c) * b
  {
  }

  lemma Regroup(x: int, y: int, f: int)
    ensures ((x + 1) * f) * y == (x * y + y) * f
  {
  }

  lemma Spread(t: int, y: int, f: int)
    ensures t * (y * f + f) == (t * f) * y + t * f
  {
  }

  lemma Spread2(a: int, f: int, y: int)
    ensures a * y + y * f == (a + f) * y
  {
  }

  lemma Cancel(a: int, b: int, c: nat)
    requires c > 0 && a * c <= b * c
    ensures a <= b
  {
    if a > b { MulStrict(b, a, c); }
  }

  lemma CancelStrict(a: int, b: int, c: nat)
    requires c > 0 && a * c < b * c
    ensures a < b
  {
  }

  // ---- placement ------------------------------------------------------------------------------

  function Placed(align: Align, video: int, output: int): int {
    match align
    case AlignStart => 0
    case AlignCenter => Half(video) - Half(output)
    case AlignEnd => video - output
  }

  method GetTargetPosition(output: Vec2, video: Vec2, halign: Align, valign: Align, position: Vec2)
      returns (target: Vec2)
    ensures target == Vec2(Placed(halign, video.x, output.x) + position.x,
      Placed(valign, video.y, output.y) + position.y)
  {
    target := Vec2(0, 0);
    match halign {
      case AlignStart =>
      case AlignCenter => target := target.(x := Half(video.x) - Half(output.x));
      case AlignEnd => target := target.(x := video.x - output.x);
    }
    match valign {
      case AlignStart =>
      case AlignCenter => target := target.(y := Half(video.y) - Half(output.y));
      case AlignEnd => target := target.(y := video.y - output.y);
    }
    target := target.(x := target.x + position.x);
    target := target.(y := target.y + position.y);
  }

  /** Without an offset an output lies wholly inside the video exactly when it fits, for each
      alignment. There is no margin in front at the start and none behind at the end, and the
      centre leaves equal margins up to one pixel. */
  lemma PlacedInsideExactly(align: Align, video: nat, output: nat)
    ensures var at := Placed(align, video, output); 0 <= at && at + output <= video <==> output <= video
    ensures var front := Placed(align, video, output); var behind := video - (front + output);
      match align
      case AlignStart => front == 0
      case AlignCenter => behind - front == video % 2 - output % 2
      case AlignEnd => behind == 0
  {
  }
}
