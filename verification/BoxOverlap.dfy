/**
  IoU is intersection over union.  A box is taken as the set of points strictly
  inside it; the common part of two boxes is a rectangle, its corners are decided by
  the points in it, and IoU is its area over the area of the two boxes together.
*/
module BoxOverlap {
  import opened Association
  import opened Reals
  import opened TrackerFilter

  /** The point `(x, y)` lies strictly inside the box. */
  predicate Within(b: BBox, x: real, y: real) {
    b.cx - b.w / 2.0 < x < b.cx + b.w / 2.0 && b.cy - b.h / 2.0 < y < b.cy + b.h / 2.0
  }

  datatype Rect = Rect(left: real, right: real, low: real, high: real) {
    predicate Has(x: real, y: real) { left < x < right && low < y < high }
  }

  /** The points of `r`, of which there are some, are those that lie in both boxes. */
  ghost predicate IsCommonPart(r: Rect, a: BBox, b: BBox) {
    && r.left < r.right && r.low < r.high
    && forall x, y :: r.Has(x, y) <==> Within(a, x, y) && Within(b, x, y)
  }

  ghost predicate Apart(a: BBox, b: BBox) {
    forall x, y :: !(Within(a, x, y) && Within(b, x, y))
  }

  /** Where the two boxes' sides would put the common part. */
  function Crossing(a: BBox, b: BBox): Rect {
    Rect(Max(a.cx - a.w / 2.0, b.cx - b.w / 2.0), Min(a.cx + a.w / 2.0, b.cx + b.w / 2.0),
         Max(a.cy - a.h / 2.0, b.cy - b.h / 2.0), Min(a.cy + a.h / 2.0, b.cy + b.h / 2.0))
  }

  lemma CrossingHas(a: BBox, b: BBox, x: real, y: real)
    ensures Crossing(a, b).Has(x, y) <==> Within(a, x, y) && Within(b, x, y)
  {}

  function Mid(x: real, y: real): real { (x + y) / 2.0 }

  /** Two boxes with a common point have a common part. */
  lemma CommonPart(a: BBox, b: BBox, x: real, y: real) returns (r: Rect)
    requires Within(a, x, y) && Within(b, x, y)
    ensures IsCommonPart(r, a, b)
  {
    r := Crossing(a, b);
    CrossingHas(a, b, x, y);
    forall x, y ensures r.Has(x, y) <==> Within(a, x, y) && Within(b, x, y) { CrossingHas(a, b, x, y); }
  }

  /** An open rectangle's left and lower sides are no further out than those of one that contains it. */
  lemma Contained(r: Rect, s: Rect)
    requires r.left < r.right && r.low < r.high && forall x, y :: r.Has(x, y) ==> s.Has(x, y)
    ensures s.left <= r.left && r.right <= s.right && s.low <= r.low && r.high <= s.high
  {
    var x, y := Mid(r.left, r.right), Mid(r.low, r.high);
    assert r.Has(x, y);
    if r.left < s.left { assert r.Has(Mid(r.left, Min(x, s.left)), y); }
    if s.right < r.right { assert r.Has(Mid(Max(x, s.right), r.right), y); }
    if r.low < s.low { assert r.Has(x, Mid(r.low, Min(y, s.low))); }
    if s.high < r.high { assert r.Has(x, Mid(Max(y, s.high), r.high)); }
  }

  /** The points decide the corners. */
  lemma CommonPartIs(r: Rect, a: BBox, b: BBox)
    requires IsCommonPart(r, a, b)
    ensures r == Crossing(a, b)
  {
    var s := Crossing(a, b);
    forall x, y ensures r.Has(x, y) <==> s.Has(x, y) { CrossingHas(a, b, x, y); }
    assert r.Has(Mid(r.left, r.right), Mid(r.low, r.high));
    Contained(r, s);
    Contained(s, r);
  }

  /** IoU times the union is the intersection, each measured by the corners of the common part. */
  lemma IouIs(a: BBox, b: BBox, r: Rect, area: real, union: real)
    requires IsCommonPart(r, a, b)
    requires area == (r.right - r.left) * (r.high - r.low) && union == a.w * a.h + b.w * b.h - area
    ensures 0.0 < area <= union && Iou(a, b) * union == area
  {
    CommonArea(a, b, r, area);
    OverUnion(a, b, area, union);
  }

  lemma CommonArea(a: BBox, b: BBox, r: Rect, area: real)
    requires IsCommonPart(r, a, b) && area == (r.right - r.left) * (r.high - r.low)
    ensures InterArea(a, b) == area > 0.0 && area <= Area(a) && area <= Area(b)
  {
    CommonPartIs(r, a, b);
    InterIs(a, b, area, r.right - r.left, r.high - r.low);
  }

  lemma InterIs(a: BBox, b: BBox, area: real, w: real, h: real)
    requires var s := Crossing(a, b);
      w == s.right - s.left > 0.0 && h == s.high - s.low > 0.0
    requires area == w * h
    ensures InterArea(a, b) == area > 0.0 && area <= Area(a) && area <= Area(b)
  {
    CrossingSizes(a, b);
    ProductIs(Overlap(a.cx, a.w, b.cx, b.w), Overlap(a.cy, a.h, b.cy, b.h), w, h, a, b, InterArea(a, b), area);
  }

  lemma ProductIs(x: real, y: real, w: real, h: real, a: BBox, b: BBox, inter: real, area: real)
    requires inter == x * y && area == w * h && x == w > 0.0 && y == h > 0.0
    requires w <= a.w && w <= b.w && h <= a.h && h <= b.h
    ensures inter == area > 0.0 && area <= Area(a) && area <= Area(b)
  {
    PositiveProduct(w, h, area);
    MulMonotone(w, h, a.w, a.h, area, Area(a));
    MulMonotone(w, h, b.w, b.h, area, Area(b));
  }

  lemma CrossingSizes(a: BBox, b: BBox)
    requires var s := Crossing(a, b);
      s.left < s.right && s.low < s.high
    ensures var s := Crossing(a, b);
      && Overlap(a.cx, a.w, b.cx, b.w) == s.right - s.left && Overlap(a.cy, a.h, b.cy, b.h) == s.high - s.low
      && s.right - s.left <= a.w && s.right - s.left <= b.w && s.high - s.low <= a.h && s.high - s.low <= b.h
  {}

  lemma OverUnion(a: BBox, b: BBox, area: real, union: real)
    requires area == InterArea(a, b) > 0.0 && area <= Area(a) && area <= Area(b) && union == Area(a) + Area(b) - area
    ensures area <= union && Iou(a, b) * union == area
  {
    Divided(area, union, Iou(a, b));
  }

  lemma PositiveProduct(x: real, y: real, p: real)
    requires x > 0.0 && y > 0.0 && p == x * y
    ensures p > 0.0
  {}

  lemma Divided(n: real, d: real, q: real)
    requires d > 0.0 && q == n / d
    ensures q * d == n
  {}

  /** It is zero exactly when the boxes have no interior point in common. */
  lemma IouZero(a: BBox, b: BBox)
    ensures Iou(a, b) == 0.0 <==> Apart(a, b)
  {
    var s := Crossing(a, b);
    var x, y := Mid(s.left, s.right), Mid(s.low, s.high);
    CrossingHas(a, b, x, y);
    if s.Has(x, y) {
      var r := CommonPart(a, b, x, y);
      var area := (r.right - r.left) * (r.high - r.low);
      IouIs(a, b, r, area, a.w * a.h + b.w * b.h - area);
      NotZero(Iou(a, b), a.w * a.h + b.w * b.h - area, area);
    } else {
      assert InterArea(a, b) == 0.0;
      forall x, y ensures !(Within(a, x, y) && Within(b, x, y)) { CrossingHas(a, b, x, y); }
      ZeroOver(Area(a) + Area(b));
    }
  }

  lemma NotZero(q: real, union: real, area: real)
    requires q * union == area > 0.0
    ensures q != 0.0
  {}

  lemma ZeroOver(d: real)
    ensures d > 0.0 ==> 0.0 / d == 0.0
  {}

  /** It is one exactly for a box with an interior and itself. */
  lemma IouOne(a: BBox, b: BBox)
    ensures Iou(a, b) == 1.0 <==> a == b && a.w > 0.0 && a.h > 0.0
  {
    if !Apart(a, b) {
      var x, y :| Within(a, x, y) && Within(b, x, y);
      var r := CommonPart(a, b, x, y);
      OneOfCommon(a, b, r, Iou(a, b));
    } else {
      IouZero(a, b);
      if a == b && a.w > 0.0 && a.h > 0.0 { assert Within(a, a.cx, a.cy); }
    }
  }

  lemma OneOfCommon(a: BBox, b: BBox, r: Rect, q: real)
    requires IsCommonPart(r, a, b) && q == Iou(a, b)
    ensures q == 1.0 <==> a == b && a.w > 0.0 && a.h > 0.0
  {
    var area := (r.right - r.left) * (r.high - r.low);
    var union := a.w * a.h + b.w * b.h - area;
    IouIs(a, b, r, area, union);
    OneOfRatio(a, b, r, q, area, union);
  }

  lemma OneOfRatio(a: BBox, b: BBox, r: Rect, q: real, area: real, union: real)
    requires IsCommonPart(r, a, b) && area == (r.right - r.left) * (r.high - r.low)
    requires union == a.w * a.h + b.w * b.h - area && q * union == area
    ensures q == 1.0 <==> a == b && a.w > 0.0 && a.h > 0.0
  {
    SidesOfCommon(a, b, r);
    OneMeansSameSides(a.w, a.h, b.w, b.h, r.right - r.left, r.high - r.low, q, area, union);
  }

  lemma SidesOfCommon(a: BBox, b: BBox, r: Rect)
    requires IsCommonPart(r, a, b)
    ensures var w, h := r.right - r.left, r.high - r.low;
      && 0.0 < w <= a.w && w <= b.w && 0.0 < h <= a.h && h <= b.h
      && (w == a.w == b.w && h == a.h == b.h <==> a == b && a.w > 0.0 && a.h > 0.0)
  {
    CommonPartIs(r, a, b);
    CrossingSizes(a, b);
    SameSides(a, b, r);
  }

  lemma OneMeansSameSides(aw: real, ah: real, bw: real, bh: real, w: real, h: real, q: real, c: real, union: real)
    requires 0.0 < w <= aw && 0.0 < h <= ah && w <= bw && h <= bh && c == w * h
    requires union == aw * ah + bw * bh - c && q * union == c
    ensures q == 1.0 <==> w == aw == bw && h == ah == bh
  {
    var a, b := aw * ah, bw * bh;
    PositiveProduct(w, h, c);
    ProductBelow(w, h, aw, ah, c, a);
    ProductBelow(w, h, bw, bh, c, b);
    OneMeansEqual(a, b, c, q, union);
  }

  /** The common part is as large as both boxes exactly when they are one box. */
  lemma SameSides(a: BBox, b: BBox, r: Rect)
    requires r == Crossing(a, b) && r.left < r.right && r.low < r.high
    ensures r.right - r.left == a.w == b.w && r.high - r.low == a.h == b.h <==> a == b && a.w > 0.0 && a.h > 0.0
  {}

  lemma OneMeansEqual(area: real, area': real, common: real, q: real, union: real)
    requires 0.0 < common <= area && common <= area' && union == area + area' - common && q * union == common
    ensures q == 1.0 <==> area == area' == common
  {
    assert area == area' == common ==> (q - 1.0) * common == 0.0;
  }

  lemma ProductBelow(w: real, h: real, w': real, h': real, p: real, p': real)
    requires 0.0 < w <= w' && 0.0 < h <= h' && p == w * h && p' == w' * h'
    ensures p <= p' && (p == p' <==> w == w' && h == h')
  {
    MulMonotone(w, h, w', h, p, w' * h);
    MulMonotone(w', h, w', h', w' * h, p');
    if w < w' { PositiveProduct(w' - w, h, (w' - w) * h); }
    if h < h' { PositiveProduct(w', h' - h, w' * (h' - h)); }
  }
}
