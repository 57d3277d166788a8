/**
 * The pointer geometry of the controlled stream. The video is shown "cover":
 * scaled until it fills the element, the overflowing axis cropped evenly on
 * both sides. A position inside the element (in element pixels) is sent as a
 * position in native video pixels, and a received video position is brought
 * back into element pixels, clamped on the cropped axis.
 */
module PointerGeometry {
  import opened StreamVideo

  datatype Point = Point(left: real, top: real)

  /**
   * How the video covers the element: whether it is cropped left and right
   * (`widthCropped`) or top and bottom, video pixels per element pixel on the
   * axis it fills (`factor`), and half the cropped length in element pixels
   * (`offset`). Both pointer handlers compute these the same way.
   */
  datatype Cover = Cover(widthCropped: bool, factor: real, offset: real)

  /** No size is zero, so every ratio below is defined. */
  predicate NonDegenerate(info: VideoInfo)
  {
    info.element.width != 0.0 && info.element.height != 0.0 &&
    info.video.width != 0.0 && info.video.height != 0.0
  }

  /**
   * An element no wider than the video (aspect ratios compared) is filled on
   * its height and crops the video's width; otherwise the video fills the width
   * and is cropped top and bottom.
   */
  function CoverOf(info: VideoInfo): (c: Cover)
    requires NonDegenerate(info)
    ensures c.widthCropped <==> info.element.aspectRatio <= info.video.aspectRatio
    ensures c.factor != 0.0
  {
    var e, v := info.element, info.video;
    if e.aspectRatio <= v.aspectRatio then
      var factor := v.height / e.height;
      Cover(true, factor, (v.width / factor - e.width) / 2.0)
    else
      var factor := v.width / e.width;
      Cover(false, factor, (v.height / factor - e.height) / 2.0)
  }

  /** `Math.min(Math.max(0, x), hi)`: never above `hi`, and `x` itself when it lies in `[0, hi]`. */
  function Clamp(x: real, hi: real): (r: real)
    ensures r <= hi
    ensures 0.0 <= x <= hi ==> r == x
    ensures x < 0.0 <= hi ==> r == 0.0
    ensures hi < x || hi < 0.0 ==> r == hi
  {
    var lo := if 0.0 < x then x else 0.0;
    if lo < hi then lo else hi
  }

  function ForwardBy(c: Cover, p: Point): Point
  {
    if c.widthCropped then Point((p.left + c.offset) * c.factor, p.top * c.factor)
    else Point(p.left * c.factor, (p.top + c.offset) * c.factor)
  }

  function ReverseBy(c: Cover, element: Box, v: Point): Point
    requires c.factor != 0.0
  {
    if c.widthCropped then Point(Clamp(v.left / c.factor - c.offset, element.width), v.top / c.factor)
    else Point(v.left / c.factor, Clamp(v.top / c.factor - c.offset, element.height))
  }

  /**
   * `onPointerMove`: a position in element pixels to one in video pixels. The
   * cover keeps the centres of the element and of the video aligned and scales
   * both axes by the ratio of the filled lengths: on the filled axis a
   * coordinate is scaled, on the cropped one its distance from the centre is.
   */
  function Forward(info: VideoInfo, p: Point): (r: Point)
    requires NonDegenerate(info)
    ensures var e, v := info.element, info.video;
            if e.aspectRatio <= v.aspectRatio then
              r.top == p.top * (v.height / e.height) &&
              r.left - v.width / 2.0 == (p.left - e.width / 2.0) * (v.height / e.height)
            else
              r.left == p.left * (v.width / e.width) &&
              r.top - v.height / 2.0 == (p.top - e.height / 2.0) * (v.width / e.width)
  {
    var c := CoverOf(info);
    var e, v := info.element, info.video;
    if c.widthCropped then
      CentredAxis(p.left, e.width, v.width, c.factor, c.offset);
      ForwardBy(c, p)
    else
      CentredAxis(p.top, e.height, v.height, c.factor, c.offset);
      ForwardBy(c, p)
  }

  /** On the cropped axis, shifting by the offset and scaling is scaling the distance from the centre. */
  lemma CentredAxis(x: real, e: real, v: real, f: real, o: real)
    requires f != 0.0 && o == (v / f - e) / 2.0
    ensures (x + o) * f - v / 2.0 == (x - e / 2.0) * f
  {
    assert (v / f) * f == v;
  }

  /**
   * The `message` listener: video pixels back to element pixels. On the filled
   * axis the coordinate is scaled back by the element-to-video ratio; on the
   * cropped one its distance from the video's centre is scaled back around the
   * element's centre, then clamped into the element.
   */
  function Reverse(info: VideoInfo, v: Point): (r: Point)
    requires NonDegenerate(info)
    ensures var e, vb := info.element, info.video;
            if e.aspectRatio <= vb.aspectRatio then
              r.top * vb.height == v.top * e.height &&
              r.left == Clamp(Recentre(v.left, e.width, vb.width, e.height, vb.height), e.width)
            else
              r.left * vb.width == v.left * e.width &&
              r.top == Clamp(Recentre(v.top, e.height, vb.height, e.width, vb.width), e.height)
  {
    var c := CoverOf(info);
    if c.widthCropped then
      ReverseWidthCropped(info, v);
      ReverseBy(c, info.element, v)
    else
      ReverseHeightCropped(info, v);
      ReverseBy(c, info.element, v)
  }

  lemma ReverseWidthCropped(info: VideoInfo, v: Point)
    requires NonDegenerate(info) && CoverOf(info).widthCropped
    ensures var c, e, vb := CoverOf(info), info.element, info.video;
            var r := ReverseBy(c, e, v);
            r.top * vb.height == v.top * e.height &&
            r.left == Clamp(Recentre(v.left, e.width, vb.width, e.height, vb.height), e.width)
  {
    var c, e, vb := CoverOf(info), info.element, info.video;
    ScaleBack(v.top / c.factor, v.top, c.factor, e.height, vb.height);
    UncentredAxis(v.left, e.width, vb.width, c.factor, c.offset, e.height, vb.height);
  }

  lemma ReverseHeightCropped(info: VideoInfo, v: Point)
    requires NonDegenerate(info) && !CoverOf(info).widthCropped
    ensures var c, e, vb := CoverOf(info), info.element, info.video;
            var r := ReverseBy(c, e, v);
            r.left * vb.width == v.left * e.width &&
            r.top == Clamp(Recentre(v.top, e.height, vb.height, e.width, vb.width), e.height)
  {
    var c, e, vb := CoverOf(info), info.element, info.video;
    ScaleBack(v.left / c.factor, v.left, c.factor, e.width, vb.width);
    UncentredAxis(v.top, e.height, vb.height, c.factor, c.offset, e.width, vb.width);
  }

  /**
   * A video coordinate `x` on an axis of video length `vx`, carried to an
   * element axis of length `ex`: its distance from the video's centre, scaled
   * by `ey / vy`, measured from the element's centre.
   */
  function Recentre(x: real, ex: real, vx: real, ey: real, vy: real): real
    requires vy != 0.0
  {
    ex / 2.0 + (x - vx / 2.0) * (ey / vy)
  }

  /** Undoing the shift and the scale of the cropped axis, centred on the element. */
  lemma UncentredAxis(x: real, e: real, v: real, f: real, o: real, ey: real, vy: real)
    requires ey != 0.0 && vy != 0.0 && f == vy / ey && o == (v / f - e) / 2.0
    ensures x / f - o == Recentre(x, e, v, ey, vy)
  {
    assert f != 0.0;
    assert x / f - o == e / 2.0 + (x - v / 2.0) / f;
    assert 1.0 / f == ey / vy;
  }

  predicate InElement(info: VideoInfo, p: Point)
  {
    0.0 <= p.left <= info.element.width && 0.0 <= p.top <= info.element.height
  }

  predicate InVideo(info: VideoInfo, v: Point)
  {
    0.0 <= v.left <= info.video.width && 0.0 <= v.top <= info.video.height
  }

  /** An element 320x240 showing a 1280x720 video: the centre of the element is the centre of the video. */
  lemma ForwardCentre()
    ensures var info := VideoInfo(Box(320.0 / 240.0, 240.0, 320.0), Box(1280.0 / 720.0, 720.0, 1280.0));
            CoverOf(info) == Cover(true, 3.0, 160.0 / 3.0) &&
            Forward(info, Point(160.0, 120.0)) == Point(640.0, 360.0)
  {
  }

  /**
   * The video covers the element exactly: the scale factor is positive, the
   * crop offset never negative, the element's filled length scaled is the
   * video's, and its cropped length plus both crops, scaled, is the video's.
   */
  lemma {:induction false} CoverFits(info: VideoInfo)
    requires ConsistentInfo(info)
    ensures Fits(CoverOf(info), info.element, info.video)
  {
    var e, v := info.element, info.video;
    if e.aspectRatio <= v.aspectRatio {
      CoverFitsWidthCropped(CoverOf(info), e, v);
    } else {
      CoverFitsHeightCropped(CoverOf(info), e, v);
    }
  }

  lemma CoverFitsWidthCropped(c: Cover, e: Box, v: Box)
    requires Consistent(e) && Consistent(v) && e.aspectRatio <= v.aspectRatio
    requires c == Cover(true, v.height / e.height, (v.width / (v.height / e.height) - e.width) / 2.0)
    ensures Fits(c, e, v)
  {
    AxisFits(e.width, e.height, v.width, v.height, c.factor, c.offset);
  }

  lemma CoverFitsHeightCropped(c: Cover, e: Box, v: Box)
    requires Consistent(e) && Consistent(v) && !(e.aspectRatio <= v.aspectRatio)
    requires c == Cover(false, v.width / e.width, (v.height / (v.width / e.width) - e.height) / 2.0)
    ensures Fits(c, e, v)
  {
    RatioFlip(e.width, e.height, v.width, v.height);
    AxisFits(e.height, e.width, v.height, v.width, c.factor, c.offset);
  }

  /**
   * One crop case on plain lengths: `ex`/`vx` on the cropped axis, `ey`/`vy` on
   * the filled one, `ex/ey <= vx/vy`.
   */
  lemma AxisFits(ex: real, ey: real, vx: real, vy: real, f: real, o: real)
    requires ex > 0.0 && ey > 0.0 && vx > 0.0 && vy > 0.0 && ex / ey <= vx / vy
    requires f == vy / ey && o == (vx / f - ex) / 2.0
    ensures f > 0.0 && o >= 0.0 && ey * f == vy && (ex + 2.0 * o) * f == vx
  {
    assert ey * f == vy;
    assert (ex + 2.0 * o) * f == vx by {
      assert ex + 2.0 * o == vx / f;
    }
    assert ex * f <= vx by {
      assert ex * f == (ex / ey) * vy;
      MulLe(ex / ey, vx / vy, vy);
      assert (vx / vy) * vy == vx;
    }
    OffsetNonNegative(ex, vx, f, o);
  }

  /** `a/b > c/d` turns into `b/a < d/c` for positive lengths. */
  lemma RatioFlip(a: real, b: real, c: real, d: real)
    requires a > 0.0 && b > 0.0 && c > 0.0 && d > 0.0
    ensures !(a / b <= c / d) ==> b / a <= d / c
  {
    if !(a / b <= c / d) {
      assert c * b < a * d by {
        assert c * b == (c / d) * (b * d);
        assert a * d == (a / b) * (b * d);
      }
      assert b / a == (b * c) / (a * c);
      assert d / c == (d * a) / (a * c);
    }
  }

  lemma MulLe(x: real, y: real, f: real)
    requires x <= y && f > 0.0
    ensures x * f <= y * f
  {
  }

  lemma OffsetNonNegative(e: real, v: real, f: real, o: real)
    requires f > 0.0 && e * f <= v && o == (v / f - e) / 2.0
    ensures o >= 0.0
  {
    assert v / f >= (e * f) / f;
    assert (e * f) / f == e;
  }

  /** On the cropped axis, shifting by the offset and scaling lands inside the video length. */
  lemma CroppedAxisInRange(r: real, x: real, e: real, v: real, f: real, o: real)
    requires f > 0.0 && o >= 0.0 && (e + 2.0 * o) * f == v && 0.0 <= x <= e
    requires r == (x + o) * f
    ensures 0.0 <= r <= v
  {
    MulLe(x + o, e + 2.0 * o, f);
  }

  /** On the filled axis, scaling lands inside the video length. */
  lemma FilledAxisInRange(r: real, x: real, e: real, v: real, f: real)
    requires f > 0.0 && e * f == v && 0.0 <= x <= e
    requires r == x * f
    ensures 0.0 <= r <= v
  {
    MulLe(x, e, f);
  }

  /** The video a cover of the element with positive factor and no negative offset fits exactly. */
  predicate Fits(c: Cover, e: Box, v: Box)
  {
    c.factor > 0.0 && c.offset >= 0.0 &&
    (c.widthCropped ==> e.height * c.factor == v.height && (e.width + 2.0 * c.offset) * c.factor == v.width) &&
    (!c.widthCropped ==> e.width * c.factor == v.width && (e.height + 2.0 * c.offset) * c.factor == v.height)
  }

  /** A point of the element is sent as a point of the video frame. */
  lemma {:induction false} ForwardInRange(info: VideoInfo, p: Point)
    requires ConsistentInfo(info) && InElement(info, p)
    ensures InVideo(info, Forward(info, p))
  {
    CoverFits(info);
    ForwardInRangeBy(CoverOf(info), info.element, info.video, p);
  }

  lemma ForwardInRangeBy(c: Cover, e: Box, v: Box, p: Point)
    requires Fits(c, e, v)
    requires 0.0 <= p.left <= e.width && 0.0 <= p.top <= e.height
    ensures var q := ForwardBy(c, p); 0.0 <= q.left <= v.width && 0.0 <= q.top <= v.height
  {
    var q := ForwardBy(c, p);
    if c.widthCropped {
      CroppedAxisInRange(q.left, p.left, e.width, v.width, c.factor, c.offset);
      FilledAxisInRange(q.top, p.top, e.height, v.height, c.factor);
    } else {
      FilledAxisInRange(q.left, p.left, e.width, v.width, c.factor);
      CroppedAxisInRange(q.top, p.top, e.height, v.height, c.factor, c.offset);
    }
  }

  lemma Unscale(r: real, x: real, o: real, f: real)
    requires f != 0.0 && r == (x + o) * f
    ensures r / f - o == x
  {
  }

  lemma UnscaleFilled(r: real, x: real, f: real)
    requires f != 0.0 && r == x * f
    ensures r / f == x
  {
  }

  lemma ClampInRange(x: real, hi: real)
    requires 0.0 <= x <= hi
    ensures Clamp(x, hi) == x
  {
  }

  lemma ClampBounds(r: real, x: real, hi: real)
    requires hi >= 0.0 && r == Clamp(x, hi)
    ensures 0.0 <= r <= hi
  {
  }

  /** A point of the element sent and received with the same geometry comes back unchanged. */
  lemma {:induction false} RoundTrip(info: VideoInfo, p: Point)
    requires NonDegenerate(info) && InElement(info, p)
    ensures Reverse(info, Forward(info, p)) == p
  {
    RoundTripBy(CoverOf(info), info.element, p);
  }

  lemma RoundTripBy(c: Cover, e: Box, p: Point)
    requires c.factor != 0.0 && 0.0 <= p.left <= e.width && 0.0 <= p.top <= e.height
    ensures ReverseBy(c, e, ForwardBy(c, p)) == p
  {
    var q := ForwardBy(c, p);
    if c.widthCropped {
      Unscale(q.left, p.left, c.offset, c.factor);
      UnscaleFilled(q.top, p.top, c.factor);
      ClampInRange(p.left, e.width);
    } else {
      UnscaleFilled(q.left, p.left, c.factor);
      Unscale(q.top, p.top, c.offset, c.factor);
      ClampInRange(p.top, e.height);
    }
  }

  /** Scaling back by the factor `vy/ey` is scaling by the element-to-video ratio. */
  lemma ScaleBack(r: real, y: real, f: real, ey: real, vy: real)
    requires f != 0.0 && ey * f == vy && r == y / f
    ensures r * vy == y * ey
  {
    assert r * f == y;
    assert r * vy == (r * f) * ey;
  }

  /**
   * Only the cropped axis is clamped into the element: the other axis is the
   * received coordinate scaled back by the element-to-video ratio, whatever its value.
   */
  lemma {:induction false} ReverseClampsCroppedAxis(info: VideoInfo, v: Point)
    requires ConsistentInfo(info)
    ensures var r := Reverse(info, v);
            if info.element.aspectRatio <= info.video.aspectRatio then
              0.0 <= r.left <= info.element.width && r.top * info.video.height == v.top * info.element.height
            else
              0.0 <= r.top <= info.element.height && r.left * info.video.width == v.left * info.element.width
  {
    var e, vb := info.element, info.video;
    var r := Reverse(info, v);
    if e.aspectRatio <= vb.aspectRatio {
      ClampBounds(r.left, Recentre(v.left, e.width, vb.width, e.height, vb.height), e.width);
    } else {
      ClampBounds(r.top, Recentre(v.top, e.height, vb.height, e.width, vb.width), e.height);
    }
  }

  lemma Rescale(r: real, x: real, o: real, f: real)
    requires f != 0.0 && r == x / f - o
    ensures (r + o) * f == x
  {
  }

  lemma RescaleFilled(r: real, x: real, f: real)
    requires f != 0.0 && r == x / f
    ensures r * f == x
  {
  }

  /**
   * A received point whose cropped coordinate lands inside the element needs no
   * clamping: sending it again from here gives the received video position back.
   */
  lemma {:induction false} VisibleRoundTrip(info: VideoInfo, v: Point)
    requires NonDegenerate(info)
    requires var c := CoverOf(info);
             if c.widthCropped then 0.0 <= v.left / c.factor - c.offset <= info.element.width
             else 0.0 <= v.top / c.factor - c.offset <= info.element.height
    ensures Forward(info, Reverse(info, v)) == v
  {
    VisibleRoundTripBy(CoverOf(info), info.element, v);
  }

  lemma VisibleRoundTripBy(c: Cover, e: Box, v: Point)
    requires c.factor != 0.0
    requires if c.widthCropped then 0.0 <= v.left / c.factor - c.offset <= e.width
             else 0.0 <= v.top / c.factor - c.offset <= e.height
    ensures ForwardBy(c, ReverseBy(c, e, v)) == v
  {
    var r := ReverseBy(c, e, v);
    if c.widthCropped {
      ClampInRange(v.left / c.factor - c.offset, e.width);
      Rescale(r.left, v.left, c.offset, c.factor);
      RescaleFilled(r.top, v.top, c.factor);
    } else {
      ClampInRange(v.top / c.factor - c.offset, e.height);
      RescaleFilled(r.left, v.left, c.factor);
      Rescale(r.top, v.top, c.offset, c.factor);
    }
  }
}
