/**
  The integer size arithmetic of src/image.cpp. Sizes are those of QSize: a size is valid
  when neither dimension is negative, and zero asks for the image's own dimension.
 */
module Scaling {
  import opened Common

  datatype Size = Size(width: int, height: int)

  predicate IsValid(s: Size) {
    s.width >= 0 && s.height >= 0
  }

  /** The size of an image: at least one pixel each way. */
  predicate IsImage(s: Size) {
    s.width >= 1 && s.height >= 1
  }

  predicate Fits(s: Size, box: Size) {
    s.width <= box.width && s.height <= box.height
  }

  function Transpose(s: Size): Size {
    Size(s.height, s.width)
  }

  /** a * n / d, truncated. */
  function Ratio(a: int, n: int, d: int): int
    requires d > 0
  {
    a * n / d
  }

  /** QSize::scale(box, Qt::KeepAspectRatio), with its truncating 64-bit division. */
  function KeepAspect(s: Size, box: Size): Size
    requires IsImage(s) && IsValid(box)
  {
    var rw := Ratio(box.height, s.width, s.height);
    if rw <= box.width then Size(rw, box.height)
    else Size(box.width, Ratio(box.width, s.height, s.width))
  }

  /** Zero dimensions of a requested size are filled in from the image. */
  function Fill(requested: Size, s: Size): Size {
    Size(if requested.width == 0 then s.width else requested.width,
         if requested.height == 0 then s.height else requested.height)
  }

  function ClampToOne(s: Size): Size {
    Size(if s.width == 0 then 1 else s.width, if s.height == 0 then 1 else s.height)
  }

  /** The size of Image::scale(requested) for an image of size `s`. */
  function Scale(s: Size, requested: Size): (r: Size)
    requires IsImage(s)
    ensures IsImage(r)
  {
    if !IsValid(requested) then s
    else
      var box := Fill(requested, s);
      KeepAspectFits(s, box);
      if Fits(s, box) then s else ClampToOne(KeepAspect(s, box))
  }

  /** The size at which load_image with maybe_scale_image decodes; a size of zero makes the decoder fail. */
  function Decode(s: Size, requested: Size): Option<Size>
    requires IsImage(s)
  {
    if !IsValid(requested) then Some(s)
    else
      var box := Fill(requested, s);
      if Fits(s, box) then Some(s)
      else
        var scaled := KeepAspect(s, box);
        if scaled.width == 0 || scaled.height == 0 then None else Some(scaled)
  }

  /** The size at which maybe_scale_thumbnail decodes an embedded thumbnail, if it is large enough. */
  function DecodeThumbnail(t: Size, requested: Size): Option<Size>
    requires IsImage(t) && IsValid(requested)
  {
    if (requested.width == 0 || t.width < requested.width) && (requested.height == 0 || t.height < requested.height) then
      None
    else
      var scaled := KeepAspect(t, Fill(requested, t));
      if scaled.width == 0 || scaled.height == 0 then None else Some(scaled)
  }

  // ---- Division ----

  /** The truncated quotient is the greatest q with q * d <= a * n. */
  lemma RatioBounds(a: int, n: int, d: int)
    requires d > 0
    ensures Ratio(a, n, d) * d <= a * n < (Ratio(a, n, d) + 1) * d
  {
  }

  lemma RatioAtLeast(a: int, n: int, d: int, q: int)
    requires d > 0
    ensures q <= Ratio(a, n, d) <==> q * d <= a * n
  {
    var r := Ratio(a, n, d);
    RatioBounds(a, n, d);
    if q <= r {
      MulMonotone(q, r, d);
    } else {
      MulMonotone(r + 1, q, d);
    }
  }

  lemma MulMonotone(a: int, b: int, k: int)
    requires a <= b && k >= 0
    ensures a * k <= b * k && k * a <= k * b
  {
  }

  lemma MulCancel(a: int, b: int, k: int)
    requires k > 0
    ensures a * k <= b * k ==> a <= b
    ensures a * k < b * k ==> a < b
  {
    if a >= b {
      MulMonotone(b, a, k);
    }
  }

  lemma RatioOrder(a: int, n: int, d: int)
    requires a >= 0 && n >= 0 && d > 0
    ensures Ratio(a, n, d) >= 0
    ensures a <= d ==> Ratio(a, n, d) <= n
    ensures a >= d ==> Ratio(a, n, d) >= n
    ensures n <= d ==> Ratio(a, n, d) <= a
    ensures n < d && a > 0 ==> Ratio(a, n, d) < a
    ensures n >= d ==> Ratio(a, n, d) >= a
  {
    MulMonotone(0, a, n);
    RatioAtLeast(a, n, d, 0);
    RatioAtLeast(a, n, d, n + 1);
    RatioAtLeast(a, n, d, n);
    if a <= d {
      MulMonotone(a, d, n);
      assert (n + 1) * d == n * d + d;
    }
    if a >= d {
      MulMonotone(d, a, n);
    }
    RatioAtLeast(a, n, d, a);
    RatioAtLeast(a, n, d, a + 1);
    if n <= d {
      MulMonotone(n, d, a);
      assert (a + 1) * d == a * d + d;
    }
    if n < d && a > 0 {
      MulStrict(n, d, a);
    }
    if n >= d {
      MulMonotone(d, n, a);
    }
  }

  lemma MulStrict(a: int, b: int, k: int)
    requires a < b && k > 0
    ensures k * a < k * b && a * k < b * k
  {
  }

  /** When the width for the box's height is too much, the height for its width is not. */
  lemma RatioSwap(width: int, height: int, w: int, h: int)
    requires width >= 0 && height >= 0 && w > 0 && h > 0
    requires Ratio(height, w, h) > width
    ensures Ratio(width, h, w) <= height
    ensures (width + 1) * h <= height * w
  {
    RatioAtLeast(height, w, h, width + 1);
    RatioAtLeast(width, h, w, height + 1);
    assert (width + 1) * h == width * h + h && (height + 1) * w == height * w + w;
  }

  // ---- What scaling promises ----

  /** The scaled size fits the box and touches it; it does not exceed an image that does not fit. */
  lemma KeepAspectFits(s: Size, box: Size)
    requires IsImage(s) && IsValid(box)
    ensures var r := KeepAspect(s, box);
            && IsValid(r) && Fits(r, box)
            && (r.width == box.width || r.height == box.height)
            && (!Fits(s, box) ==> Fits(r, s))
  {
    hide Ratio;
    RatioOrder(box.height, s.width, s.height);
    RatioOrder(box.width, s.height, s.width);
    if Ratio(box.height, s.width, s.height) > box.width {
      RatioSwap(box.width, box.height, s.width, s.height);
    }
  }

  /** The exact width (or height) for the other dimension is less than one pixel away. */
  lemma KeepAspectRatio(s: Size, box: Size)
    requires IsImage(s) && IsValid(box)
    ensures var r := KeepAspect(s, box);
            -s.height < r.width * s.height - r.height * s.width < s.width
  {
    RatioBounds(box.height, s.width, s.height);
    RatioBounds(box.width, s.height, s.width);
  }

  /** All that Image::scale promises: for every image and every valid request. */
  lemma ScalePromises(s: Size, requested: Size)
    requires IsImage(s) && IsValid(requested)
    ensures var box, r := Fill(requested, s), Scale(s, requested);
            && IsImage(r)
            && Fits(r, box) && Fits(r, s)
            && (Fits(s, box) <==> r == s)
            && (r == s || r.width == box.width || r.height == box.height)
            && (r != s && r == KeepAspect(s, box) ==>
                  -s.height < r.width * s.height - r.height * s.width < s.width)
            && (r != s && r != KeepAspect(s, box) ==> r.width == 1 || r.height == 1)
  {
    KeepAspectFits(s, Fill(requested, s));
    KeepAspectRatio(s, Fill(requested, s));
  }

  /** Scaling again to the same request changes nothing. */
  lemma ScaleIdempotent(s: Size, requested: Size)
    requires IsImage(s) && IsValid(requested)
    ensures IsImage(Scale(s, requested))
    ensures Scale(Scale(s, requested), requested) == Scale(s, requested)
  {
    ScalePromises(s, requested);
  }

  /** A dimension of the scaled size would be zero. */
  predicate Truncates(s: Size, requested: Size)
    requires IsImage(s)
  {
    && IsValid(requested)
    && var box := Fill(requested, s);
       && !Fits(s, box)
       && (box.height * s.width < s.height ||
           ((box.width + 1) * s.height <= box.height * s.width && box.width * s.height < s.width))
  }

  /**
    Decoding at a size and scaling to it agree, except that decoding fails exactly where
    scaling has to clamp: Image::scale makes up for a zero, maybe_scale_image does not.
   */
  lemma DecodeIsScale(s: Size, requested: Size)
    requires IsImage(s)
    ensures Decode(s, requested) == if Truncates(s, requested) then None else Some(Scale(s, requested))
    ensures Truncates(s, requested) ==> Scale(s, requested) != KeepAspect(s, Fill(requested, s))
  {
    if IsValid(requested) {
      var box := Fill(requested, s);
      KeepAspectFits(s, box);
      RatioAtLeast(box.height, s.width, s.height, 1);
      RatioAtLeast(box.height, s.width, s.height, box.width + 1);
      RatioAtLeast(box.width, s.height, s.width, 1);
      hide Ratio;
    }
  }

  /** The truncating arithmetic fits 64 bits for any sizes that fit 31, so unbounded integers model it. */
  lemma NoOverflow(a: int, n: int, d: int)
    requires 0 <= a < 0x8000_0000 && 0 <= n < 0x8000_0000 && 0 < d < 0x8000_0000
    ensures 0 <= a * n < 0x8000_0000_0000_0000
    ensures 0 <= Ratio(a, n, d) <= a * n
  {
    MulMonotone(0, a, n);
    MulMonotone(a, 0x8000_0000, n);
    RatioAtLeast(a, n, d, 0);
    RatioAtLeast(a, n, d, a * n + 1);
    MulMonotone(1, d, a * n + 1);
  }

  // ---- Scaling twice ----

  /** Truncating twice loses at most one more than truncating once. */
  lemma NestedRatio(a: int, b: int, m: int, t: int)
    requires a >= 0 && b > 0 && 1 <= t <= m
    ensures Ratio(t, Ratio(m, a, b), m) <= Ratio(t, a, b) <= Ratio(t, Ratio(m, a, b), m) + 1
  {
    hide Ratio;
    var inner := Ratio(m, a, b);
    var twice := Ratio(t, inner, m);
    RatioBounds(m, a, b);
    RatioBounds(t, inner, m);
    NestedUpper(a, b, m, t, inner, twice);
    NestedLower(a, b, m, t, inner, twice);
    RatioAtLeast(t, a, b, twice);
    RatioAtLeast(t, a, b, twice + 2);
  }

  lemma NestedUpper(a: int, b: int, m: int, t: int, inner: int, twice: int)
    requires b > 0 && 1 <= t <= m
    requires inner * b <= m * a && twice * m <= t * inner
    ensures twice * b <= t * a
  {
    calc {
      (twice * b) * m;
      (twice * m) * b;
    <= { MulMonotone(twice * m, t * inner, b); }
      (t * inner) * b;
      t * (inner * b);
    <= { MulMonotone(inner * b, m * a, t); }
      t * (m * a);
      (t * a) * m;
    }
    MulCancel(twice * b, t * a, m);
  }

  lemma NestedLower(a: int, b: int, m: int, t: int, inner: int, twice: int)
    requires b > 0 && 1 <= t <= m
    requires m * a < (inner + 1) * b && t * inner < (twice + 1) * m
    ensures t * a < (twice + 2) * b
  {
    calc {
      (t * a) * m;
      t * (m * a);
    <  { MulStrict(m * a, (inner + 1) * b, t); }
      t * ((inner + 1) * b);
      (t * inner + t) * b;
    <= { assert t * inner + t <= (twice + 2) * m by { assert (twice + 2) * m == (twice + 1) * m + m; }
         MulMonotone(t * inner + t, (twice + 2) * m, b); }
      ((twice + 2) * m) * b;
      ((twice + 2) * b) * m;
    }
    MulCancel(t * a, (twice + 2) * b, m);
  }


  function Square(side: int): Size {
    Size(side, side)
  }

  function AtLeastOne(n: int): int {
    if n == 0 then 1 else n
  }

  /** Scaling a too large image to a square box, case by case. A tie fills the box although w > h. */
  lemma SquareCases(s: Size, b: int)
    requires IsImage(s) && b >= 1 && !Fits(s, Square(b))
    ensures s.width <= s.height ==> Scale(s, Square(b)) == Size(AtLeastOne(Ratio(b, s.width, s.height)), b)
    ensures s.width > s.height && b * (s.width - s.height) < s.height ==> Scale(s, Square(b)) == Square(b)
    ensures s.width > s.height && b * (s.width - s.height) >= s.height ==>
              Scale(s, Square(b)) == Size(b, AtLeastOne(Ratio(b, s.height, s.width)))
  {
    var w, h := s.width, s.height;
    RatioAtLeast(b, w, h, b);
    RatioAtLeast(b, w, h, b + 1);
    assert b * (w - h) == b * w - b * h && (b + 1) * h == b * h + h;
    if w <= h {
      MulMonotone(w, h, b);
    } else {
      MulMonotone(h, w, b);
    }
    hide Ratio;
  }

  /** Where the larger box is filled, so is the smaller one. */
  lemma TieDown(w: int, h: int, m: int, t: int)
    requires w > h > 0 && 1 <= t <= m && m * (w - h) < h
    ensures t * (w - h) < h
  {
    MulMonotone(t, m, w - h);
  }

  /** If the twice scaled image fills the box, the image scaled once does. */
  lemma TieBack(w: int, h: int, m: int, inner: int, t: int)
    requires w > h > 0 && 1 <= t && inner > 0
    requires inner * w <= m * h && t * (m - inner) < inner
    ensures t * (w - h) < h
  {
    calc {
      (t * (w - h)) * inner;
      t * (inner * w - inner * h);
    <= { MulMonotone(inner * w - inner * h, m * h - inner * h, t); }
      t * (m * h - inner * h);
      (t * (m - inner)) * h;
    <  { MulStrict(t * (m - inner), inner, h); }
      inner * h;
      h * inner;
    }
    MulCancel(t * (w - h), h, inner);
  }

  /** If only the image scaled once fills the box, scaling twice falls short by at most two pixels. */
  lemma TieLost(w: int, h: int, m: int, inner: int, t: int)
    requires w > h > 0 && 1 <= t <= m
    requires (inner + 1) * w > m * h && t * (w - h) < h
    ensures (t - 2) * m <= t * inner
  {
    var gap, excess := m - inner, w - h;
    TieGap(w, h, m, inner);
    TieLeft(t, gap, w, m, excess);
    TieRight(t, w, h, m, excess);
    MulCancel(t * gap, 2 * m, w);
    TieDifference(t, m, inner);
  }

  lemma TieLeft(t: int, gap: int, w: int, m: int, excess: int)
    requires t >= 1 && gap * w < m * excess + w
    ensures (t * gap) * w < m * (t * excess) + t * w
  {
    MulStrict(gap * w, m * excess + w, t);
    TimesOverSum(t, gap, w, m, excess);
  }

  lemma TieRight(t: int, w: int, h: int, m: int, excess: int)
    requires w > h > 0 && 1 <= t <= m && t * excess < h
    ensures m * (t * excess) + t * w < (2 * m) * w
  {
    MulStrict(t * excess, h, m);
    MulMonotone(h, w, m);
    MulMonotone(t, m, w);
    assert (2 * m) * w == m * w + m * w;
  }

  lemma TieDifference(t: int, m: int, inner: int)
    requires t * (m - inner) < 2 * m
    ensures (t - 2) * m <= t * inner
  {
    assert t * (m - inner) == t * m - t * inner && (t - 2) * m == t * m - 2 * m;
  }

  lemma TimesOverSum(t: int, gap: int, w: int, m: int, excess: int)
    ensures t * (gap * w) == (t * gap) * w
    ensures t * (m * excess + w) == m * (t * excess) + t * w
  {
  }

  lemma TieGap(w: int, h: int, m: int, inner: int)
    requires (inner + 1) * w > m * h
    ensures (m - inner) * w < m * (w - h) + w
  {
    assert (inner + 1) * w == inner * w + w;
    assert (m - inner) * w == m * w - inner * w;
    assert m * (w - h) == m * w - m * h;
  }

  /**
    Scaling to a square box and then to a smaller one, as thumbnail() does for large images,
    against scaling once: the long side is the same, and the short side is never longer and
    at most one pixel shorter - two when the image is wide and scaling once fills the box.
   */
  lemma ScaleTwice(s: Size, m: int, t: int)
    requires IsImage(s) && 1 <= t <= m
    ensures var once, twice := Scale(s, Square(t)), Scale(Scale(s, Square(m)), Square(t));
            if s.width <= s.height then
              twice.height == once.height && twice.width <= once.width <= twice.width + 1
            else
              && twice.width == once.width && twice.height <= once.height <= twice.height + 2
              && (once.height == twice.height + 2 ==> once == Square(t))
  {
    ScalePromises(s, Square(m));
    if Fits(s, Square(m)) {
    } else if t == m {
      ScaleIdempotent(s, Square(m));
    } else if s.width <= s.height {
      TallTwice(s, m, t);
    } else {
      WideTwice(s, m, t);
    }
  }

  lemma TallTwice(s: Size, m: int, t: int)
    requires IsImage(s) && 1 <= t < m && s.width <= s.height && s.height > m
    ensures var once, twice := Scale(s, Square(t)), Scale(Scale(s, Square(m)), Square(t));
            twice.height == once.height == t && twice.width <= once.width <= twice.width + 1
  {
    hide Ratio;
    var inner := Ratio(m, s.width, s.height);
    RatioOrder(m, s.width, s.height);
    RatioOrder(t, inner, m);
    NestedRatio(s.width, s.height, m, t);
    SmallRatio(m, t);
    hide Scale;
    SquareCases(s, t);
    SquareCases(s, m);
    SquareCases(Size(AtLeastOne(inner), m), t);
  }

  /** One pixel out of m shrinks to nothing in a smaller box. */
  lemma SmallRatio(m: int, t: int)
    requires 1 <= t < m
    ensures Ratio(t, 1, m) == 0
  {
  }

  lemma WideTwice(s: Size, m: int, t: int)
    requires IsImage(s) && 1 <= t < m && s.width > s.height && s.width > m
    ensures var once, twice := Scale(s, Square(t)), Scale(Scale(s, Square(m)), Square(t));
            && twice.width == once.width == t && twice.height <= once.height <= twice.height + 2
            && (once.height == twice.height + 2 ==> once == Square(t))
  {
    var w, h := s.width, s.height;
    SquareCases(s, t);
    SquareCases(s, m);
    if m * (w - h) < h {
      TieDown(w, h, m, t);
      SquareCases(Square(m), t);
      RatioAtLeast(t, m, m, t);
      RatioAtLeast(t, m, m, t + 1);
    } else {
      RatioOrder(m, h, w);
      WideInner(w, h, m, t, Ratio(m, h, w));
    }
  }

  lemma WideInner(w: int, h: int, m: int, t: int, inner: int)
    requires 1 <= h < w && m < w && 1 <= t < m && m * (w - h) >= h
    requires inner == Ratio(m, h, w) && 0 <= inner < m
    ensures var once, twice := Scale(Size(w, h), Square(t)), Scale(Size(m, AtLeastOne(inner)), Square(t));
            && twice.width == once.width == t && twice.height <= once.height <= twice.height + 2
            && (once.height == twice.height + 2 ==> once == Square(t))
  {
    hide Ratio;
    RatioOrder(t, inner, m);
    NestedRatio(h, w, m, t);
    SmallRatio(m, t);
    InnerTies(w, h, m, t, inner);
    hide Scale;
    SquareCases(Size(w, h), t);
    SquareCases(Size(m, AtLeastOne(inner)), t);
  }

  /** How the two ways of filling the smaller box are related, and the loss when only one does. */
  lemma InnerTies(w: int, h: int, m: int, t: int, inner: int)
    requires 1 <= h < w && 1 <= t < m && inner == Ratio(m, h, w) && 0 <= inner < m
    ensures var d := AtLeastOne(inner);
            && (t * (m - d) < d ==> t * (w - h) < h)
            && (t * (w - h) < h ==> t - 2 <= Ratio(t, inner, m) && t <= 2 + Ratio(t, inner, m))
  {
    RatioBounds(m, h, w);
    if inner == 0 {
      MulMonotone(1, t, m - 1);
    } else if t * (m - inner) < inner {
      TieBack(w, h, m, inner, t);
    }
    if t * (w - h) < h {
      TieLost(w, h, m, inner, t);
      RatioAtLeast(t, inner, m, t - 2);
    }
  }

  /** The two pixels do occur. */
  lemma TwoPixelsLost()
    ensures Scale(Size(9, 7), Square(3)) == Size(3, 3)
    ensures Scale(Scale(Size(9, 7), Square(5)), Square(3)) == Size(3, 1)
  {
  }

  // ---- Scaling twice with any target box ----

  lemma RatioOfItself(a: int, n: int)
    requires a > 0
    ensures Ratio(a, n, a) == n
  {
    RatioAtLeast(a, n, a, n);
    RatioAtLeast(a, n, a, n + 1);
    assert n * a == a * n && (n + 1) * a == a * n + a;
  }

  lemma RatioOfMore(b: int, n: int, d: int)
    requires 1 <= d <= n && d < b
    ensures Ratio(b, n, d) > n
  {
    RatioAtLeast(b, n, d, n + 1);
    MulMonotone(d + 1, b, n);
    assert (n + 1) * d == n * d + d && (d + 1) * n == d * n + n;
  }

  /** An image that touches the square behaves as if it were too large, even when it fits the box. */
  lemma TouchingScale(s: Size, m: int, box: Size)
    requires IsImage(s) && IsImage(box) && Fits(s, Square(m)) && Fits(box, Square(m))
    requires s.width == m || s.height == m
    ensures Scale(s, box) == ClampToOne(KeepAspect(s, box))
  {
    hide Ratio;
    if Fits(s, box) {
      RatioOfItself(s.height, s.width);
      RatioOfItself(s.width, s.height);
      if s.width == m && s.height < box.height {
        RatioOfMore(box.height, m, s.height);
      }
    }
  }

  /** The dimensions of the image scaled to the square, as thumbnail() computes them. */
  function Inner(s: Size, m: int): Size
    requires IsImage(s)
  {
    if s.width <= s.height then Size(AtLeastOne(Ratio(m, s.width, s.height)), m)
    else if m * (s.width - s.height) < s.height then Square(m)
    else Size(m, AtLeastOne(Ratio(m, s.height, s.width)))
  }

  lemma InnerIsScaled(s: Size, m: int)
    requires IsImage(s) && m >= 1 && !Fits(s, Square(m))
    ensures Inner(s, m) == Scale(s, Square(m))
    ensures IsImage(Inner(s, m)) && Fits(Inner(s, m), Square(m)) && (Inner(s, m).width == m || Inner(s, m).height == m)
  {
    SquareCases(s, m);
    RatioOrder(m, s.width, s.height);
    RatioOrder(m, s.height, s.width);
    hide Ratio;
  }

  lemma WideRatios(w: int, h: int, m: int, inner: int, a: int, b: int)
    requires w > h >= 1 && inner >= 1 && inner * w <= m * h < (inner + 1) * w && 1 <= a <= m && 1 <= b <= m
    ensures Ratio(b, w, h) <= Ratio(b, m, inner)
    ensures var once, twice := Min(Ratio(b, w, h), a), Min(Ratio(b, m, inner), a);
            (twice - once - 1) * (inner + 1) < a
  {
    RatioBounds(b, w, h);
    RatioBounds(b, m, inner);
    hide Ratio;
    WideSteps(w, h, m, inner, a, b, Ratio(b, w, h), Ratio(b, m, inner));
  }

  lemma WideSteps(w: int, h: int, m: int, inner: int, a: int, b: int, rw: int, rw': int)
    requires w > h >= 1 && inner >= 1 && inner * w <= m * h < (inner + 1) * w && 1 <= a <= m && 1 <= b <= m
    requires rw * h <= b * w < (rw + 1) * h && rw' * inner <= b * m < (rw' + 1) * inner
    ensures rw <= rw' && (Min(rw', a) - Min(rw, a) - 1) * (inner + 1) < a
  {
    WideLower(w, h, m, inner, b, rw);
    RatioAtLeastAgain(b, m, inner, rw, rw');
    WideUpper(w, h, m, inner, b, rw);
    WideGrowth(m, inner, a, b, rw, rw', Min(rw, a), Min(rw', a));
  }

  lemma WideGrowth(m: int, inner: int, a: int, b: int, rw: int, rw': int, once: int, twice: int)
    requires inner >= 1 && 1 <= a && rw <= rw' && once == Min(rw, a) && twice == Min(rw', a)
    requires rw' * inner <= b * m < (rw + 1) * (inner + 1)
    ensures (twice - once - 1) * (inner + 1) < a
  {
    if twice - once <= 1 {
      MulMonotone(twice - once - 1, 0, inner + 1);
    } else {
      MulMonotone(twice, rw', inner);
      assert (twice - once - 1) * (inner + 1) == twice * inner + twice - (once + 1) * (inner + 1);
    }
  }

  lemma WideLower(w: int, h: int, m: int, inner: int, b: int, rw: int)
    requires h >= 1 && b >= 1 && inner >= 1 && inner * w <= m * h && rw * h <= b * w
    ensures rw * inner <= b * m
  {
    MulMonotone(rw * h, b * w, inner);
    MulMonotone(inner * w, m * h, b);
    assert (rw * inner) * h == (rw * h) * inner && (b * w) * inner == (inner * w) * b && (m * h) * b == (b * m) * h;
    MulCancel(rw * inner, b * m, h);
  }

  lemma RatioAtLeastAgain(b: int, m: int, inner: int, rw: int, rw': int)
    requires inner >= 1 && rw * inner <= b * m < (rw' + 1) * inner
    ensures rw <= rw'
  {
    MulCancel(rw, rw' + 1, inner);
  }

  lemma WideUpper(w: int, h: int, m: int, inner: int, b: int, rw: int)
    requires w >= 1 && h >= 1 && b >= 1 && inner >= 1 && m * h < (inner + 1) * w && b * w < (rw + 1) * h
    ensures b * m < (rw + 1) * (inner + 1)
  {
    MulStrict(b * w, (rw + 1) * h, inner + 1);
    MulStrict(m * h, (inner + 1) * w, b);
    Regroup(b, w, inner + 1);
    Regroup(b, m, h);
    Regroup(rw + 1, h, inner + 1);
    MulCancel(b * m, (rw + 1) * (inner + 1), h);
  }

  lemma Regroup(x: int, y: int, z: int)
    ensures (x * y) * z == x * (y * z) == x * (z * y) == (x * z) * y
  {
  }

  /** The short side of a wide image loses at most two pixels. */
  lemma WideShortSide(w: int, h: int, m: int, inner: int, a: int, b: int)
    requires w > h >= 1 && inner == Ratio(m, h, w) && 1 <= inner <= m && 1 <= a <= m && 1 <= b <= m
    requires Ratio(b, w, h) <= Ratio(b, m, inner)
    ensures var once := if Ratio(b, w, h) <= a then b else Ratio(a, h, w);
            var twice := if Ratio(b, m, inner) <= a then b else Ratio(a, inner, m);
            twice <= once <= twice + 2
  {
    RatioBounds(m, h, w);
    RatioBounds(b, w, h);
    NestedRatio(h, w, m, a);
    hide Ratio;
    if Ratio(b, m, inner) > a {
      RatioSwap(a, b, m, inner);
      if Ratio(b, w, h) <= a {
        MulMonotone(Ratio(b, w, h) + 1, a + 1, h);
        WideUpper(w, h, m, inner, b, a);
        ShortSideLoss(m, inner, a, b);
        RatioAtLeast(a, inner, m, b - 2);
      }
    }
  }

  lemma ShortSideLoss(m: int, inner: int, a: int, b: int)
    requires 1 <= inner <= m && 1 <= a <= m && b * m < (a + 1) * (inner + 1)
    ensures (b - 2) * m <= a * inner
  {
    assert (a + 1) * (inner + 1) == a * inner + a + inner + 1;
    assert (b - 2) * m == b * m - m - m;
  }

  lemma TallRatios(w: int, h: int, m: int, inner: int, a: int, b: int)
    requires 1 <= w <= h && inner >= 1 && inner == Ratio(m, w, h) && 1 <= a <= m && 1 <= b <= m && Ratio(b, w, h) > a
    ensures Ratio(b, inner, m) <= Ratio(b, w, h) <= Ratio(b, inner, m) + 1
    ensures var once := Ratio(a, h, w);
            var twice := if Ratio(b, inner, m) <= a then b else Ratio(a, m, inner);
            once <= twice && (twice - once - 1) * (inner + 1) < b + m
  {
    NestedRatio(w, h, m, b);
    RatioBounds(m, w, h);
    RatioBounds(a, h, w);
    RatioBounds(a, m, inner);
    RatioBounds(b, inner, m);
    RatioSwap(a, b, w, h);
    if Ratio(b, inner, m) > a {
      RatioSwap(a, b, inner, m);
    }
    hide Ratio;
    TallSteps(w, h, m, inner, a, b, Ratio(a, h, w), if Ratio(b, inner, m) <= a then b else Ratio(a, m, inner));
  }

  lemma TallSteps(w: int, h: int, m: int, inner: int, a: int, b: int, once: int, twice: int)
    requires 1 <= w <= h && inner >= 1 && inner * h <= m * w < (inner + 1) * h && 1 <= a <= m && 1 <= b <= m
    requires once * w <= a * h < (once + 1) * w && once <= b
    requires (twice == b && b * inner < (a + 1) * m) || (twice <= b && twice * inner <= a * m < (twice + 1) * inner)
    ensures once <= twice && (twice - once - 1) * (inner + 1) < b + m
  {
    WideLower(h, w, m, inner, a, once);
    WideUpper(h, w, m, inner, a, once);
    assert (twice - once - 1) * (inner + 1) == twice * inner + twice - (once + 1) * (inner + 1);
    if twice == b && b * inner < (a + 1) * m {
      assert (a + 1) * m == a * m + m;
    } else {
      RatioAtLeastAgain(a, m, inner, once, twice);
    }
  }

  /** The two results in plain arithmetic: scaled once, and scaled through the square. */
  function Once(s: Size, box: Size): Size
    requires IsImage(s)
  {
    if Ratio(box.height, s.width, s.height) <= box.width then
      Size(AtLeastOne(Ratio(box.height, s.width, s.height)), box.height)
    else Size(box.width, AtLeastOne(Ratio(box.width, s.height, s.width)))
  }

  lemma OnceIsScaled(s: Size, m: int, box: Size)
    requires IsImage(s) && IsImage(box) && Fits(box, Square(m)) && !Fits(s, Square(m))
    ensures Scale(s, box) == Once(s, box)
    ensures IsImage(Inner(s, m)) && Scale(Scale(s, Square(m)), box) == Once(Inner(s, m), box)
  {
    InnerIsScaled(s, m);
    TouchingScale(Inner(s, m), m, box);
    hide Ratio, Inner;
  }

  lemma OblongWide(s: Size, m: int, box: Size)
    requires IsImage(s) && IsImage(box) && Fits(box, Square(m)) && s.width > m && s.width > s.height
    ensures IsImage(Inner(s, m))
    ensures var once, twice := Once(s, box), Once(Inner(s, m), box);
            && once.width <= twice.width && (twice.width - once.width - 1) * (Inner(s, m).height + 1) < box.width
            && once.height - 2 <= twice.height <= once.height + 1
  {
    hide Ratio;
    var w, h, a, b := s.width, s.height, box.width, box.height;
    RatioOrder(m, h, w);
    if m * (w - h) < h {
      OblongTie(w, h, m, a, b);
      MulMonotone(-1, 0, m + 1);
    } else if Ratio(m, h, w) == 0 {
      StripIsThin(w, h, m);
      OblongStrip(w, h, m, a, b);
    } else {
      OblongBand(w, h, m, Ratio(m, h, w), a, b);
    }
  }

  lemma StripIsThin(w: int, h: int, m: int)
    requires w > 0 && Ratio(m, h, w) == 0
    ensures m * h < w
  {
    RatioBounds(m, h, w);
  }

  lemma OblongBand(w: int, h: int, m: int, inner: int, a: int, b: int)
    requires w > h >= 1 && inner == Ratio(m, h, w) && 1 <= inner <= m && 1 <= a <= m && 1 <= b <= m
    ensures var once, twice := Once(Size(w, h), Size(a, b)), Once(Size(m, inner), Size(a, b));
            && once.width <= twice.width && (twice.width - once.width - 1) * (inner + 1) < a
            && once.height - 2 <= twice.height <= once.height
  {
    RatioBounds(m, h, w);
    hide Ratio;
    WideRatios(w, h, m, inner, a, b);
    WideShortSide(w, h, m, inner, a, b);
    RatioOrder(b, w, h);
    RatioOrder(b, m, inner);
    RatioOrder(a, h, w);
    RatioOrder(a, inner, m);
    BandSizes(Ratio(b, w, h), Ratio(b, m, inner), a, inner);
  }

  /** The widths are those of WideRatios. */
  lemma BandSizes(rw: int, rw': int, a: int, inner: int)
    requires 1 <= rw <= rw' && a >= 1
    ensures Min(rw, a) == (if rw <= a then AtLeastOne(rw) else a)
    ensures Min(rw', a) == (if rw' <= a then AtLeastOne(rw') else a)
  {
  }

  /** Where the square is filled, the two results differ at most by one pixel in height. */
  lemma OblongTie(w: int, h: int, m: int, a: int, b: int)
    requires w > h >= 1 && m * (w - h) < h && 1 <= a <= m && 1 <= b <= m
    ensures var once, twice := Once(Size(w, h), Size(a, b)), Once(Square(m), Size(a, b));
            once.width == twice.width && once.height <= twice.height <= once.height + 1
  {
    hide Ratio;
    TieRatios(w, h, m, a);
    TieRatios(w, h, m, b);
  }

  lemma TieRatios(w: int, h: int, m: int, b: int)
    requires w > h >= 1 && m * (w - h) < h && 1 <= b <= m
    ensures Ratio(b, w, h) == b == Ratio(b, m, m)
    ensures b - 1 <= Ratio(b, h, w) <= b
  {
    MulMonotone(b, m, w - h);
    assert b * (w - h) == b * w - b * h;
    RatioAtLeast(b, w, h, b);
    RatioAtLeast(b, w, h, b + 1);
    RatioAtLeast(b, m, m, b);
    RatioAtLeast(b, m, m, b + 1);
    RatioAtLeast(b, h, w, b - 1);
    RatioAtLeast(b, h, w, b + 1);
    hide Ratio;
    MulMonotone(h, w, b);
    assert (b + 1) * h == b * h + h && (b - 1) * w == b * w - w && (b + 1) * w == b * w + w;
  }

  /** A strip that is one pixel high in the square is so in the box. */
  lemma OblongStrip(w: int, h: int, m: int, a: int, b: int)
    requires w > h >= 1 && m * h < w && 1 <= a <= m && 1 <= b <= m
    ensures Once(Size(w, h), Size(a, b)) == Once(Size(m, 1), Size(a, b))
  {
    StripRatios(w, h, m, a);
    StripRows(w, h, m, a, b);
    hide Ratio;
  }

  /** In width, unless the box is the square and one pixel high. */
  lemma StripRatios(w: int, h: int, m: int, a: int)
    requires w > h >= 1 && m * h < w && 1 <= a <= m
    ensures Ratio(a, h, w) == 0
    ensures Ratio(a, 1, m) <= 1
    ensures AtLeastOne(Ratio(a, 1, m)) == 1
  {
    RatioAtLeast(a, h, w, 1);
    RatioAtLeast(a, h, w, 0);
    RatioAtLeast(a, 1, m, 2);
    RatioAtLeast(a, 1, m, 0);
    hide Ratio;
    MulMonotone(a, m, h);
    MulMonotone(0, a, h);
  }

  lemma StripRows(w: int, h: int, m: int, a: int, b: int)
    requires w > h >= 1 && m * h < w && 1 <= a <= m && 1 <= b <= m
    ensures Ratio(b, w, h) >= Ratio(b, m, 1) == b * m
    ensures Ratio(b, m, 1) <= a ==> b == 1 && a == m && Ratio(b, m, 1) == m
    ensures Ratio(b, w, h) <= a ==> Ratio(b, w, h) == Ratio(b, m, 1)
  {
    hide Ratio;
    StripProducts(w, h, m, b);
    RatioAtLeast(b, m, 1, b * m);
    RatioAtLeast(b, m, 1, b * m + 1);
    RatioAtLeast(b, w, h, b * m);
  }

  lemma StripProducts(w: int, h: int, m: int, b: int)
    requires h >= 1 && m >= 1 && m * h < w && b >= 1
    ensures (b * m) * h <= b * w
    ensures b * m >= m && (b > 1 ==> b * m > m)
  {
    MulMonotone(m * h, w, b);
    assert b * (m * h) == (b * m) * h;
    MulMonotone(1, b, m);
    if b > 1 {
      MulMonotone(2, b, m);
    }
  }

  lemma OblongTall(s: Size, m: int, box: Size)
    requires IsImage(s) && IsImage(box) && Fits(box, Square(m)) && s.height > m && s.width <= s.height
    ensures IsImage(Inner(s, m))
    ensures var once, twice := Once(s, box), Once(Inner(s, m), box);
            && twice.width <= once.width <= twice.width + 1
            && once.height <= twice.height && (twice.height - once.height - 1) * (Inner(s, m).width + 1) < box.height + m
  {
    hide Ratio;
    var w, h, a, b := s.width, s.height, box.width, box.height;
    RatioOrder(m, w, h);
    var inner := Ratio(m, w, h);
    if inner == 0 {
      StripIsThin(h, w, m);
      Needle(w, h, m, a, b);
      MulMonotone(-1, 0, 2);
    } else {
      OblongColumn(w, h, m, inner, a, b);
    }
  }

  /** A needle that is one pixel wide in the square is so in the box. */
  lemma Needle(w: int, h: int, m: int, a: int, b: int)
    requires 1 <= w <= h && m * w < h && 1 <= a <= m && 1 <= b <= m
    ensures Once(Size(w, h), Size(a, b)) == Size(1, b) == Once(Size(1, m), Size(a, b))
  {
    RatioAtLeast(b, w, h, 1);
    RatioAtLeast(b, w, h, 0);
    RatioAtLeast(b, 1, m, 2);
    RatioAtLeast(b, 1, m, 0);
    hide Ratio;
    MulMonotone(b, m, w);
    MulMonotone(0, b, w);
  }

  lemma OblongColumn(w: int, h: int, m: int, inner: int, a: int, b: int)
    requires 1 <= w <= h && inner == Ratio(m, w, h) && 1 <= inner <= m && 1 <= a <= m && 1 <= b <= m
    ensures var once, twice := Once(Size(w, h), Size(a, b)), Once(Size(inner, m), Size(a, b));
            && twice.width <= once.width <= twice.width + 1
            && once.height <= twice.height && (twice.height - once.height - 1) * (inner + 1) < b + m
  {
    hide Ratio;
    NestedRatio(w, h, m, b);
    RatioOrder(b, w, h);
    RatioOrder(b, inner, m);
    RatioOrder(a, h, w);
    RatioOrder(a, m, inner);
    if Ratio(b, w, h) > a {
      TallRatios(w, h, m, inner, a, b);
    } else {
      MulMonotone(-1, 0, inner + 1);
    }
  }

  /**
    Scaling to the square and then to any smaller box, against scaling once. The short side of
    the image is off by at most two pixels (one, if the image is tall). The long side is never
    shorter; how much longer it can be is bounded by what the intermediate image keeps of the
    short side.
   */
  lemma ScaleTwiceOblong(s: Size, m: int, box: Size)
    requires IsImage(s) && IsImage(box) && Fits(box, Square(m))
    ensures var inner := Scale(s, Square(m));
            var once, twice := Scale(s, box), Scale(inner, box);
            if Fits(s, Square(m)) then twice == once
            else if s.width > s.height then
              && once.height - 2 <= twice.height <= once.height + 1
              && once.width <= twice.width && (twice.width - once.width - 1) * (inner.height + 1) < box.width
            else
              && twice.width <= once.width <= twice.width + 1
              && once.height <= twice.height && (twice.height - once.height - 1) * (inner.width + 1) < box.height + m
  {
    if !Fits(s, Square(m)) {
      OnceIsScaled(s, m, box);
      InnerIsScaled(s, m);
      hide Scale, Once, Inner;
      if s.width > s.height {
        OblongWide(s, m, box);
      } else {
        OblongTall(s, m, box);
      }
    }
  }

  predicate WithinTwo(r: Size, s: Size) {
    -2 <= r.width - s.width <= 2 && -2 <= r.height - s.height <= 2
  }

  /**
    In plain arithmetic on the image, the maximum and the box: a wide image comes within two
    pixels of filling the box's width, or its width for the box's height grows by at most two;
    a tall image fills the box's height in any case, or its height for the box's width so grows.
   */
  predicate StaysClose(s: Size, m: int, box: Size)
    requires IsImage(s) && IsImage(Inner(s, m))
  {
    var inner := Inner(s, m);
    var width, height := Ratio(box.height, s.width, s.height), Ratio(box.width, s.height, s.width);
    if s.width > s.height then
      box.width <= width + 2 || Ratio(box.height, inner.width, inner.height) <= width + 2
    else
      width <= box.width
      || (if Ratio(box.height, inner.width, inner.height) <= box.width then box.height
          else Ratio(box.width, inner.height, inner.width)) <= height + 2
  }

  /** Exactly when scaling twice stays within two pixels of scaling once. */
  lemma WithinTwoIff(s: Size, m: int, box: Size)
    requires IsImage(s) && IsImage(box) && Fits(box, Square(m)) && !Fits(s, Square(m))
    ensures IsImage(Inner(s, m))
    ensures WithinTwo(Scale(Scale(s, Square(m)), box), Scale(s, box)) <==> StaysClose(s, m, box)
  {
    OnceIsScaled(s, m, box);
    var inner, a, b := Inner(s, m), box.width, box.height;
    RatioOrder(b, s.width, s.height);
    RatioOrder(a, s.height, s.width);
    InnerIsScaled(s, m);
    RatioOrder(b, inner.width, inner.height);
    RatioOrder(a, inner.height, inner.width);
    if s.width > s.height {
      OblongWide(s, m, box);
    } else {
      OblongTall(s, m, box);
      if Ratio(b, s.width, s.height) <= a {
        OblongTallLow(s, m, box);
      }
      InnerIsTall(s, m);
    }
    hide Ratio, Scale, Inner;
  }

  lemma InnerIsTall(s: Size, m: int)
    requires IsImage(s) && m >= 1 && s.width <= s.height
    ensures 0 < Inner(s, m).width <= Inner(s, m).height == m
  {
    RatioOrder(m, s.width, s.height);
  }

  lemma OblongTallLow(s: Size, m: int, box: Size)
    requires IsImage(s) && IsImage(box) && Fits(box, Square(m)) && s.width <= s.height
    requires Ratio(box.height, s.width, s.height) <= box.width
    ensures IsImage(Inner(s, m)) && Ratio(box.height, Inner(s, m).width, m) <= box.width
  {
    var b, inner := box.height, Ratio(m, s.width, s.height);
    RatioOrder(m, s.width, s.height);
    NestedRatio(s.width, s.height, m, b);
    RatioAtLeast(b, 1, m, 2);
  }

  /** The long side can grow by any amount: 4k pixels become 6k. */
  lemma OblongUnbounded(k: int)
    requires k >= 1
    ensures Scale(Size(12 * k, 3), Size(6 * k, 1)) == Size(4 * k, 1)
    ensures Scale(Scale(Size(12 * k, 3), Square(6 * k)), Size(6 * k, 1)) == Size(6 * k, 1)
  {
    var s, m, box := Size(12 * k, 3), 6 * k, Size(6 * k, 1);
    OnceIsScaled(s, m, box);
    RatioAtLeast(1, 12 * k, 3, 4 * k);
    RatioAtLeast(1, 12 * k, 3, 4 * k + 1);
    RatioAtLeast(m, 3, 12 * k, 1);
    RatioAtLeast(m, 3, 12 * k, 2);
    RatioAtLeast(1, m, 1, m);
    RatioAtLeast(1, m, 1, m + 1);
    MulMonotone(1, 12 * k - 3, m);
    hide Ratio, Scale;
  }

  // ---- The embedded thumbnail, and the target size of thumbnail() ----

  /**
    A decoded embedded thumbnail fits the requested box. It is never smaller than stored if it
    already fitted, and never larger if it did not: this path, unlike Scale, can enlarge.
   */
  lemma ThumbnailFits(t: Size, requested: Size)
    requires IsImage(t) && IsValid(requested)
    ensures match DecodeThumbnail(t, requested)
            case None => true
            case Some(r) =>
              var box := Fill(requested, t);
              && IsImage(r) && Fits(r, box)
              && (if Fits(t, box) then Fits(t, r) else Fits(r, t))
  {
    var box := Fill(requested, t);
    KeepAspectFits(t, box);
    RatioOrder(box.height, t.width, t.height);
    RatioOrder(box.width, t.height, t.width);
    hide Ratio;
  }

  /** Exactly when the embedded thumbnail is enlarged: it is as wide as the box, lower, and keeps its width for the height. */
  lemma ThumbnailGrowsIff(t: Size, requested: Size)
    requires IsImage(t) && IsValid(requested)
    ensures match DecodeThumbnail(t, requested)
            case None => true
            case Some(r) =>
              var box := Fill(requested, t);
              !Fits(r, t) <==> t.width == box.width && t.height < box.height && box.height * t.width < (t.width + 1) * t.height
  {
    hide Ratio;
    var box := Fill(requested, t);
    RatioOrder(box.height, t.width, t.height);
    RatioOrder(box.width, t.height, t.width);
    RatioAtLeast(box.height, t.width, t.height, box.width + 1);
    RatioOfItself(t.width, t.height);
  }

  /** For instance, a 10x25 thumbnail grows when 10x26 is requested. */
  lemma ThumbnailEnlarged()
    ensures DecodeThumbnail(Size(10, 25), Size(10, 26)) == Some(Size(10, 26))
  {
  }

  /**
    The embedded thumbnail is used exactly if it is as large as the request in at least one of
    the dimensions that are given, and no dimension truncates to zero.
   */
  lemma ThumbnailServes(t: Size, requested: Size)
    requires IsImage(t) && IsValid(requested)
    ensures DecodeThumbnail(t, requested).Some? <==>
              && ((requested.width > 0 && requested.width <= t.width) || (requested.height > 0 && requested.height <= t.height))
              && !Truncates(t, requested)
  {
    var box := Fill(requested, t);
    DecodeIsScale(t, requested);
    if Fits(t, box) {
      FittingIsNotShrunk(t, box);
    }
    hide KeepAspect, Scale;
  }

  lemma FittingIsNotShrunk(t: Size, box: Size)
    requires IsImage(t) && IsValid(box) && Fits(t, box)
    ensures Fits(t, KeepAspect(t, box))
  {
    RatioOrder(box.height, t.width, t.height);
    RatioOrder(box.width, t.height, t.width);
    hide Ratio;
  }

  /** The size that thumbnail() works with: the request, limited to the configured maximum. */
  function TargetSize(requested: Size, maxSize: int): Size {
    Size(if requested.width != 0 then Min(requested.width, maxSize) else maxSize,
         if requested.height != 0 then Min(requested.height, maxSize) else maxSize)
  }

  /** A box fits the target exactly if it fits the maximum and, where the request gives a dimension, the request. */
  lemma TargetIsLargest(box: Size, requested: Size, maxSize: int)
    requires IsValid(requested)
    ensures Fits(box, TargetSize(requested, maxSize)) <==>
              && Fits(box, Square(maxSize))
              && (requested.width > 0 ==> box.width <= requested.width)
              && (requested.height > 0 ==> box.height <= requested.height)
  {
  }

  /** No thumbnail exceeds the maximum, the request, or the image. */
  lemma TargetLimits(s: Size, requested: Size, maxSize: int)
    requires IsImage(s) && IsValid(requested) && maxSize >= 1
    ensures IsImage(TargetSize(requested, maxSize))
    ensures var r := Scale(s, TargetSize(requested, maxSize));
            && r.width <= maxSize && r.height <= maxSize && Fits(r, s)
            && (requested.width != 0 ==> r.width <= requested.width)
            && (requested.height != 0 ==> r.height <= requested.height)
  {
    ScalePromises(s, TargetSize(requested, maxSize));
  }
}
