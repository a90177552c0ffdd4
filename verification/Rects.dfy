// The rectangle arithmetic of the region-of-interest detector (src/ImageProcessing/ROI_Detector.cpp)
// on integer rectangles: a rectangle stands for the cells (px, py) it contains.
module Rects {

  datatype Rect = Rect(x: int, y: int, width: int, height: int)

  predicate Positive(r: Rect) {
    r.width > 0 && r.height > 0
  }

  function Area(r: Rect): int {
    r.width * r.height
  }

  predicate Contains(r: Rect, px: int, py: int) {
    r.x <= px < r.x + r.width && r.y <= py < r.y + r.height
  }

  function Min(a: int, b: int): int {
    if a < b then a else b
  }

  function Max(a: int, b: int): int {
    if a < b then b else a
  }

  // compare_rect_size_
  predicate SmallerArea(a: Rect, b: Rect) {
    Area(a) < Area(b)
  }

  // is_inside_
  predicate IsInside(small: Rect, large: Rect) {
    !(small.x < large.x || small.y < large.y
      || small.x + small.width > large.x + large.width
      || small.y + small.height > large.y + large.height)
  }

  // operator& of the rectangle type
  function Intersection(a: Rect, b: Rect): Rect {
    var x := Max(a.x, b.x);
    var y := Max(a.y, b.y);
    var w := Min(a.x + a.width, b.x + b.width) - x;
    var h := Min(a.y + a.height, b.y + b.height) - y;
    if w <= 0 || h <= 0 then Rect(0, 0, 0, 0) else Rect(x, y, w, h)
  }

  // overlap_percentage_, with the exact quotient in place of the double
  function OverlapPercentage(small: Rect, large: Rect): int
    requires Positive(small)
  {
    assert Area(small) > 0;
    100 * Area(Intersection(small, large)) / Area(small)
  }

  // The enlargement statements of consolidate_rectangles, in their order.
  function Enlarge(large: Rect, small: Rect): Rect {
    var r := large.(width := large.width + Max(0, large.x - small.x));
    var r := r.(x := Min(r.x, small.x));
    var r := r.(height := r.height + Max(0, r.y - small.y));
    var r := r.(y := Min(r.y, small.y));
    var r := r.(width := r.width + Max(0, small.x + small.width - (r.x + r.width)));
    r.(height := r.height + Max(0, small.y + small.height - (r.y + r.height)))
  }

  // ---- What these mean ----

  lemma IntersectionCells(a: Rect, b: Rect)
    ensures forall px, py :: Contains(Intersection(a, b), px, py) <==> Contains(a, px, py) && Contains(b, px, py)
  {
  }

  lemma InsideMeansCovered(small: Rect, large: Rect)
    requires Positive(small)
    ensures IsInside(small, large) <==>
            forall px, py :: Contains(small, px, py) ==> Contains(large, px, py)
  {
    if forall px, py :: Contains(small, px, py) ==> Contains(large, px, py) {
      assert Contains(small, small.x, small.y);
      assert Contains(small, small.x + small.width - 1, small.y + small.height - 1);
    }
  }

  lemma MulLessEq(a: int, b: int, c: int, d: int)
    requires 0 <= a <= c && 0 <= b <= d
    ensures a * b <= c * d
  {
    assert a * b <= c * b;
    assert c * b <= c * d;
  }

  lemma MulStrict(a: int, b: int, c: int, d: int)
    requires 0 < a <= c && 0 < b <= d
    ensures (a == c && b == d) || a * b < c * d
  {
    if a < c {
      assert a * b < c * b <= c * d;
    } else if b < d {
      assert a * b < a * d;
    }
  }

  lemma MulOrder(k: int, a: int, b: int)
    requires k > 0
    ensures k * a < k * b <==> a < b
  {
  }

  lemma QuotientAtLeast(n: int, d: int, p: int)
    requires d > 0
    ensures n / d >= p <==> n >= p * d
  {
    var q, r := n / d, n % d;
    assert n == q * d + r && 0 <= r < d;
    if q >= p {
      assert q * d >= p * d;
    } else {
      assert (q + 1) * d <= p * d;
    }
  }

  lemma IntersectionFits(small: Rect, large: Rect)
    requires Positive(small) && Positive(large)
    ensures var i := Intersection(small, large);
            0 <= i.width <= small.width && 0 <= i.height <= small.height && 0 <= Area(i) <= Area(small)
  {
    var i := Intersection(small, large);
    MulLessEq(i.width, i.height, small.width, small.height);
  }

  // The quotient tests of the detector, as inequalities on areas.
  lemma PercentageIs(small: Rect, large: Rect, p: int)
    requires Positive(small)
    ensures OverlapPercentage(small, large) >= p <==> 100 * Area(Intersection(small, large)) >= p * Area(small)
  {
    assert Area(small) > 0;
    QuotientAtLeast(100 * Area(Intersection(small, large)), Area(small), p);
  }

  // An overlap of 100 is the same thing as lying inside, although one is tested on areas
  // and the other on the four sides.
  lemma FullOverlapIffInside(small: Rect, large: Rect)
    requires Positive(small) && Positive(large)
    ensures 0 <= OverlapPercentage(small, large) <= 100
    ensures OverlapPercentage(small, large) == 100 <==> IsInside(small, large)
  {
    var i := Intersection(small, large);
    IntersectionFits(small, large);
    PercentageIs(small, large, 0);
    PercentageIs(small, large, 100);
    PercentageIs(small, large, 101);
    if i != Rect(0, 0, 0, 0) {
      MulStrict(i.width, i.height, small.width, small.height);
    }
  }

  // Enlarging gives the least rectangle that holds both.
  lemma EnlargeIsLeastBound(large: Rect, small: Rect)
    ensures IsInside(large, Enlarge(large, small)) && IsInside(small, Enlarge(large, small))
    ensures forall r :: IsInside(large, r) && IsInside(small, r) ==> IsInside(Enlarge(large, small), r)
    ensures IsInside(small, large) ==> Enlarge(large, small) == large
  {
  }

  // Along one axis: overlapping spans of lengths a and b share i and together reach h = a + b - i.
  lemma SpanProduct(a: int, b: int, h: int, i: int)
    requires h >= a && h >= b && i == a + b - h
    ensures h * i <= a * b
  {
    assert a * b - h * i == (h - a) * (h - b) by {
      assert h * i == h * a + h * b - h * h;
      assert (h - a) * (h - b) == h * h - h * b - a * h + a * b;
    }
    assert (h - a) * (h - b) >= 0;
  }

  lemma FourFactors(w: int, h: int, v: int, g: int)
    ensures (w * h) * (v * g) == (w * v) * (h * g)
  {
    assert (w * h) * (v * g) == w * (h * (v * g));
    assert h * (v * g) == (h * v) * g == (v * h) * g == v * (h * g);
    assert w * (v * (h * g)) == (w * v) * (h * g);
  }

  lemma HullTimesIntersection(large: Rect, small: Rect)
    requires Positive(small) && Positive(large)
    ensures Area(Enlarge(large, small)) * Area(Intersection(small, large)) <= Area(large) * Area(small)
  {
    var e, i := Enlarge(large, small), Intersection(small, large);
    if i == Rect(0, 0, 0, 0) {
      assert Area(i) == 0;
      MulLessEq(0, 0, Area(large), Area(small));
    } else {
      SpanProduct(large.width, small.width, e.width, i.width);
      SpanProduct(large.height, small.height, e.height, i.height);
      ProductOfSpans(e.width, i.width, e.height, i.height, large.width, small.width, large.height, small.height);
    }
  }

  lemma ProductOfSpans(ew: int, iw: int, eh: int, ih: int, lw: int, sw: int, lh: int, sh: int)
    requires ew > 0 && iw > 0 && eh > 0 && ih > 0
    requires ew * iw <= lw * sw && eh * ih <= lh * sh
    ensures (ew * eh) * (iw * ih) <= (lw * lh) * (sw * sh)
  {
    assert 0 <= ew * iw && 0 <= eh * ih;
    MulLessEq(ew * iw, eh * ih, lw * sw, lh * sh);
    FourFactors(ew, eh, iw, ih);
    FourFactors(lw, lh, sw, sh);
  }

  lemma GrowthBound(e: int, i: int, s: int, l: int)
    requires e > 0 && s > 0 && e * i <= l * s && 100 * i >= 86 * s
    ensures 86 * e <= 100 * l
  {
    var i', s' := 100 * i, 86 * s;
    assert s' * e <= i' * e;
    assert s' * e == s * (86 * e);
    assert i' * e == 100 * (e * i);
    assert 100 * (l * s) == s * (100 * l);
    MulOrder(s, 100 * l, 86 * e);
  }

  // A merge is only made above 85 percent, so it enlarges the kept rectangle to at most 100/86 of its area.
  lemma MergeGrowth(large: Rect, small: Rect)
    requires Positive(small) && Positive(large) && OverlapPercentage(small, large) > 85
    ensures 86 * Area(Enlarge(large, small)) <= 100 * Area(large)
  {
    PercentageIs(small, large, 86);
    HullTimesIntersection(large, small);
    var e := Enlarge(large, small);
    MulLessEq(1, 1, small.width, small.height);
    MulLessEq(1, 1, e.width, e.height);
    GrowthBound(Area(e), Area(Intersection(small, large)), Area(small), Area(large));
  }
}
