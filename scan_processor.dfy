/**
 * The correction worker of the scan pipeline (frontend/src/components/ScanProcessor.jsx):
 * the fail-fast quality gate, the selection of the document contour, the ordering of its
 * four corners, the size of the rectified image, the worker's start-up queue and the
 * main thread's dispatch of the worker's replies.
 *
 * The OpenCV analyses are foreign: a request carries what they would measure (the mean
 * brightness of the grey image, the standard deviation of its Laplacian, the contours found
 * with the polygon `approxPolyDP` made of each). The warp itself is described by its
 * corners and its size, not computed.
 */
module ScanProcessor {
  import opened Base
  import opened Js

  // The thresholds the component sends with every request.
  const MinWidth: int := 600
  const MinHeight: int := 800
  const BlurThreshold: real := 100.0
  const MinBrightness: real := 40.0
  const MaxBrightness: real := 215.0

  /** A pixel coordinate, as read from the approximation's `data32S`. */
  datatype Point = Point(x: int, y: int)

  /** One contour: its own points and the polygon that `approxPolyDP` made of it. */
  datatype Contour = Contour(points: seq<Point>, approx: seq<Point>)

  /** A worker request together with the results of the foreign measurements on its frame. */
  datatype Request = Request(
    width: int,
    height: int,
    minWidth: int,
    minHeight: int,
    blurThreshold: real,
    minBrightness: real,
    maxBrightness: real,
    meanBrightness: real,     // mean of the grey image
    laplacianStdDev: real,    // standard deviation of the Laplacian of the grey image
    contours: seq<Contour>,   // contours of the edge map, in the order findContours lists them
    encodes: bool)            // whether convertToBlob fulfils

  /** The request the component posts for an image of the given size. */
  function ComponentRequest(width: nat, height: nat, mean: real, stdDev: real,
                            contours: seq<Contour>, encodes: bool): (r: Request)
    ensures r.minWidth == 600 && r.minHeight == 800
    ensures r.blurThreshold == 100.0 && r.minBrightness == 40.0 && r.maxBrightness == 215.0
    ensures r.width == width && r.height == height
  {
    Request(width, height, MinWidth, MinHeight, BlurThreshold, MinBrightness, MaxBrightness,
            mean, stdDev, contours, encodes)
  }

  // ---------------------------------------------------------------------------
  // Quality gate
  // ---------------------------------------------------------------------------

  datatype Failure = FrameTooSmall | TooDark | TooBright | TooBlurry

  predicate TooSmall(req: Request)
  {
    req.width < req.minWidth || req.height < req.minHeight
  }

  /** The variance of the Laplacian: the square of its standard deviation. */
  function Variance(req: Request): real
  {
    req.laplacianStdDev * req.laplacianStdDev
  }

  /** The checks in the order the worker runs them; the first one violated is reported. */
  function QualityGate(req: Request): (r: Option<Failure>)
    ensures r == Some(FrameTooSmall) <==> TooSmall(req)
    ensures r == Some(TooDark) <==> !TooSmall(req) && req.meanBrightness < req.minBrightness
    ensures r == Some(TooBright) <==>
              !TooSmall(req) && req.minBrightness <= req.meanBrightness && req.meanBrightness > req.maxBrightness
    ensures r == Some(TooBlurry) <==>
              !TooSmall(req) && req.minBrightness <= req.meanBrightness <= req.maxBrightness
              && Variance(req) < req.blurThreshold
    ensures r.None? <==>
              !TooSmall(req) && req.minBrightness <= req.meanBrightness <= req.maxBrightness
              && Variance(req) >= req.blurThreshold
  {
    if TooSmall(req) then Some(FrameTooSmall)
    else if req.meanBrightness < req.minBrightness then Some(TooDark)
    else if req.meanBrightness > req.maxBrightness then Some(TooBright)
    else if Variance(req) < req.blurThreshold then Some(TooBlurry)
    else None
  }

  function FailureMessage(f: Failure, req: Request): string
  {
    match f
    case FrameTooSmall =>
      "Bildauflösung zu niedrig: benötigt " + IntToString(req.minWidth) + "×" + IntToString(req.minHeight)
      + ", hast " + IntToString(req.width) + "×" + IntToString(req.height)
    case TooDark => TooDarkMessage
    case TooBright => TooBrightMessage
    case TooBlurry => BlurryMessage
  }

  const TooDarkMessage: string := "Das Bild ist zu dunkel. Bitte erneut fotografieren."
  const TooBrightMessage: string := "Das Bild ist zu hell. Bitte erneut fotografieren."
  const BlurryMessage: string := "Bild ist unscharf. Bitte erneut scannen."

  const NoBoundaryMessage: string := "Dokumentenkanten nicht gefunden. Bitte manuell zuschneiden."

  /** The five rejections are told apart by their messages. */
  lemma MessagesDistinct(req: Request)
    ensures var m := FailureMessage(FrameTooSmall, req);
            m != FailureMessage(TooDark, req) && m != FailureMessage(TooBright, req)
            && m != FailureMessage(TooBlurry, req) && m != NoBoundaryMessage
    ensures FailureMessage(TooDark, req) != FailureMessage(TooBright, req)
    ensures FailureMessage(TooBlurry, req) != NoBoundaryMessage
  {
    var m := FailureMessage(FrameTooSmall, req);
    var h := IntToString(req.height);
    assert m[|m| - 1] == h[|h| - 1];
    assert TooDarkMessage[|TooDarkMessage| - 1] == '.' && TooBrightMessage[|TooBrightMessage| - 1] == '.';
    assert BlurryMessage[|BlurryMessage| - 1] == '.' && NoBoundaryMessage[|NoBoundaryMessage| - 1] == '.';
    assert |TooDarkMessage| == 51 && |TooBrightMessage| == 49;
    assert |BlurryMessage| == 40 && |NoBoundaryMessage| == 59;
  }

  // ---------------------------------------------------------------------------
  // Contour selection
  // ---------------------------------------------------------------------------

  function Cross(p: Point, q: Point): int
  {
    p.x * q.y - q.x * p.y
  }

  /** The shoelace sum of the edges of a closed polygon from vertex `i` on. */
  function ShoelaceFrom(poly: seq<Point>, i: nat): int
    decreases |poly| - i
  {
    if i >= |poly| then 0
    else Cross(poly[i], poly[(i + 1) % |poly|]) + ShoelaceFrom(poly, i + 1)
  }

  /** Twice the area `cv.contourArea` computes for a polygon (kept integral). */
  function Area2(poly: seq<Point>): nat
  {
    var s := ShoelaceFrom(poly, 0);
    if s < 0 then -s else s
  }

  /** Only a contour approximated by exactly four vertices is a document candidate. */
  predicate IsCandidate(c: Contour)
  {
    |c.approx| == 4
  }

  /**
   * One turn of the selection loop: contour `i` replaces the current choice when it is a
   * candidate and there is no choice yet or its own area is strictly larger than the area
   * of the chosen approximation.
   */
  function Step(cs: seq<Contour>, i: nat, doc: Option<nat>): Option<nat>
    requires i < |cs|
    requires doc.Some? ==> doc.value < |cs|
  {
    if IsCandidate(cs[i]) && (doc.None? || Area2(cs[i].points) > Area2(cs[doc.value].approx))
    then Some(i) else doc
  }

  /** The choice the loop holds after visiting contours `i..` starting from `doc`. */
  function SelectFrom(cs: seq<Contour>, i: nat, doc: Option<nat>): Option<nat>
    requires i <= |cs|
    requires doc.Some? ==> doc.value < |cs|
    decreases |cs| - i
  {
    if i == |cs| then doc else SelectFrom(cs, i + 1, Step(cs, i, doc))
  }

  /** The index of the contour whose approximation becomes `docCnt`, if any. */
  function SelectDocument(cs: seq<Contour>): (r: Option<nat>)
    ensures r.Some? ==> r.value < |cs| && IsCandidate(cs[r.value])
  {
    SelectFromCandidate(cs, 0, None);
    SelectFrom(cs, 0, None)
  }

  /** The selection loop of the worker. */
  method SelectContour(cs: seq<Contour>) returns (doc: Option<nat>)
    ensures doc == SelectDocument(cs)
  {
    doc := None;
    var i := 0;
    while i < |cs|
      invariant 0 <= i <= |cs|
      invariant doc.Some? ==> doc.value < i
      invariant SelectFrom(cs, i, doc) == SelectDocument(cs)
    {
      if IsCandidate(cs[i]) && (doc.None? || Area2(cs[i].points) > Area2(cs[doc.value].approx)) {
        doc := Some(i);
      }
      i := i + 1;
    }
  }

  /** No choice is made exactly when no contour is a candidate. */
  lemma {:induction false} SelectFromNone(cs: seq<Contour>, i: nat, doc: Option<nat>)
    requires i <= |cs|
    requires doc.Some? ==> doc.value < |cs|
    ensures SelectFrom(cs, i, doc).None? <==> doc.None? && forall j :: i <= j < |cs| ==> !IsCandidate(cs[j])
    decreases |cs| - i
  {
    if i < |cs| {
      SelectFromNone(cs, i + 1, Step(cs, i, doc));
    }
  }

  /** The chosen contour is always a candidate (its approximation has four vertices). */
  lemma {:induction false} SelectFromCandidate(cs: seq<Contour>, i: nat, doc: Option<nat>)
    requires i <= |cs|
    requires doc.Some? ==> doc.value < i && IsCandidate(cs[doc.value])
    ensures var r := SelectFrom(cs, i, doc); r.Some? ==> r.value < |cs| && IsCandidate(cs[r.value])
    decreases |cs| - i
  {
    if i < |cs| {
      SelectFromCandidate(cs, i + 1, Step(cs, i, doc));
    }
  }

  /**
   * No candidate after the chosen one has a larger own area than the chosen approximation:
   * otherwise it would have replaced it.
   */
  lemma {:induction false} SelectFromNotExceeded(cs: seq<Contour>, i: nat, doc: Option<nat>)
    requires i <= |cs|
    requires doc.Some? ==> doc.value < i
    requires doc.Some? ==> forall j :: doc.value < j < i && IsCandidate(cs[j]) ==>
                             Area2(cs[j].points) <= Area2(cs[doc.value].approx)
    ensures var r := SelectFrom(cs, i, doc);
            r.Some? ==> (r.value < |cs| &&
              forall j :: r.value < j < |cs| && IsCandidate(cs[j]) ==>
                Area2(cs[j].points) <= Area2(cs[r.value].approx))
    decreases |cs| - i
  {
    if i < |cs| {
      SelectFromNotExceeded(cs, i + 1, Step(cs, i, doc));
    }
  }

  /** Candidates whose approximation has the same area as the contour itself. */
  predicate ExactApproximations(cs: seq<Contour>)
  {
    forall j :: 0 <= j < |cs| && IsCandidate(cs[j]) ==> Area2(cs[j].approx) == Area2(cs[j].points)
  }

  /**
   * When every candidate's approximation keeps its area, the choice is the candidate of
   * largest area, and the earliest of those on a tie.
   */
  lemma {:induction false} SelectFromFirstLargest(cs: seq<Contour>, i: nat, doc: Option<nat>)
    requires i <= |cs|
    requires ExactApproximations(cs)
    requires doc.None? ==> forall j :: 0 <= j < i ==> !IsCandidate(cs[j])
    requires doc.Some? ==> doc.value < i && IsCandidate(cs[doc.value])
    requires doc.Some? ==> forall j :: 0 <= j < i && IsCandidate(cs[j]) ==>
                             Area2(cs[j].points) <= Area2(cs[doc.value].points)
    requires doc.Some? ==> forall j :: 0 <= j < doc.value && IsCandidate(cs[j]) ==>
                             Area2(cs[j].points) < Area2(cs[doc.value].points)
    ensures var r := SelectFrom(cs, i, doc);
            r.Some? ==> (r.value < |cs| && IsCandidate(cs[r.value]) &&
              (forall j :: 0 <= j < |cs| && IsCandidate(cs[j]) ==>
                 Area2(cs[j].points) <= Area2(cs[r.value].points)) &&
              (forall j :: 0 <= j < r.value && IsCandidate(cs[j]) ==>
                 Area2(cs[j].points) < Area2(cs[r.value].points)))
    decreases |cs| - i
  {
    if i < |cs| {
      SelectFromFirstLargest(cs, i + 1, Step(cs, i, doc));
    }
  }

  /** The properties of the document selection, from the start of the loop. */
  lemma SelectDocumentSpec(cs: seq<Contour>)
    ensures SelectDocument(cs).None? <==> forall j :: 0 <= j < |cs| ==> !IsCandidate(cs[j])
    ensures var r := SelectDocument(cs);
            r.Some? ==> (r.value < |cs| && IsCandidate(cs[r.value]) &&
              forall j :: r.value < j < |cs| && IsCandidate(cs[j]) ==>
                Area2(cs[j].points) <= Area2(cs[r.value].approx))
    ensures var r := SelectDocument(cs);
            r.Some? && ExactApproximations(cs) ==> (
              (forall j :: 0 <= j < |cs| && IsCandidate(cs[j]) ==>
                 Area2(cs[j].points) <= Area2(cs[r.value].points)) &&
              (forall j :: 0 <= j < r.value && IsCandidate(cs[j]) ==>
                 Area2(cs[j].points) < Area2(cs[r.value].points)))
  {
    SelectFromNone(cs, 0, None);
    SelectFromCandidate(cs, 0, None);
    SelectFromNotExceeded(cs, 0, None);
    if ExactApproximations(cs) {
      SelectFromFirstLargest(cs, 0, None);
    }
  }

  // ---------------------------------------------------------------------------
  // Corner ordering and output size
  // ---------------------------------------------------------------------------

  function SumOf(p: Point): int { p.x + p.y }

  function DiffOf(p: Point): int { p.y - p.x }

  function Sums(pts: seq<Point>): (r: seq<int>)
    ensures |r| == |pts| && forall i :: 0 <= i < |pts| ==> r[i] == SumOf(pts[i])
  {
    if pts == [] then [] else [SumOf(pts[0])] + Sums(pts[1..])
  }

  function Diffs(pts: seq<Point>): (r: seq<int>)
    ensures |r| == |pts| && forall i :: 0 <= i < |pts| ==> r[i] == DiffOf(pts[i])
  {
    if pts == [] then [] else [DiffOf(pts[0])] + Diffs(pts[1..])
  }

  /** `Math.min(...s)`. */
  function MinOf(s: seq<int>): (m: int)
    requires |s| > 0
    ensures m in s
    ensures forall i :: 0 <= i < |s| ==> m <= s[i]
  {
    if |s| == 1 then s[0]
    else
      var t := MinOf(s[1..]);
      if s[0] <= t then s[0] else t
  }

  /** `Math.max(...s)`. */
  function MaxOf(s: seq<int>): (m: int)
    requires |s| > 0
    ensures m in s
    ensures forall i :: 0 <= i < |s| ==> s[i] <= m
  {
    if |s| == 1 then s[0]
    else
      var t := MaxOf(s[1..]);
      if s[0] >= t then s[0] else t
  }

  /** `s.indexOf(v)`: the first position holding `v`. */
  function IndexOf(s: seq<int>, v: int): (k: nat)
    requires v in s
    ensures k < |s| && s[k] == v
    ensures forall j :: 0 <= j < k ==> s[j] != v
  {
    if s[0] == v then 0 else 1 + IndexOf(s[1..], v)
  }

  /** The first position of the least value: `s.indexOf(Math.min(...s))`. */
  function ArgMin(s: seq<int>): (k: nat)
    requires |s| > 0
    ensures k < |s|
    ensures forall i :: 0 <= i < |s| ==> s[k] <= s[i]
    ensures forall j :: 0 <= j < k ==> s[j] > s[k]
  {
    IndexOf(s, MinOf(s))
  }

  /** The first position of the greatest value: `s.indexOf(Math.max(...s))`. */
  function ArgMax(s: seq<int>): (k: nat)
    requires |s| > 0
    ensures k < |s|
    ensures forall i :: 0 <= i < |s| ==> s[i] <= s[k]
    ensures forall j :: 0 <= j < k ==> s[j] < s[k]
  {
    IndexOf(s, MaxOf(s))
  }

  /** The corners of the quadrilateral, labelled. */
  datatype Quad = Quad(tl: Point, tr: Point, br: Point, bl: Point)

  /**
   * The corner ordering: top-left has the least x+y, bottom-right the largest, top-right
   * the least y-x and bottom-left the largest; on a tie the earliest point is taken.
   */
  function OrderCorners(pts: seq<Point>): (q: Quad)
    requires |pts| == 4
    ensures q.tl in pts && q.tr in pts && q.br in pts && q.bl in pts
    ensures forall i :: 0 <= i < 4 ==> SumOf(q.tl) <= SumOf(pts[i]) <= SumOf(q.br)
    ensures forall i :: 0 <= i < 4 ==> DiffOf(q.tr) <= DiffOf(pts[i]) <= DiffOf(q.bl)
  {
    var sum := Sums(pts);
    var diff := Diffs(pts);
    Quad(pts[ArgMin(sum)], pts[ArgMin(diff)], pts[ArgMax(sum)], pts[ArgMax(diff)])
  }

  /** On a tie the label goes to the earliest of the points with the extreme key. */
  lemma OrderCornersEarliest(pts: seq<Point>)
    requires |pts| == 4
    ensures var q := OrderCorners(pts);
            exists k :: 0 <= k < 4 && q.tl == pts[k] && forall j :: 0 <= j < k ==> SumOf(pts[j]) > SumOf(pts[k])
    ensures var q := OrderCorners(pts);
            exists k :: 0 <= k < 4 && q.br == pts[k] && forall j :: 0 <= j < k ==> SumOf(pts[j]) < SumOf(pts[k])
    ensures var q := OrderCorners(pts);
            exists k :: 0 <= k < 4 && q.tr == pts[k] && forall j :: 0 <= j < k ==> DiffOf(pts[j]) > DiffOf(pts[k])
    ensures var q := OrderCorners(pts);
            exists k :: 0 <= k < 4 && q.bl == pts[k] && forall j :: 0 <= j < k ==> DiffOf(pts[j]) < DiffOf(pts[k])
  {
    var sum, diff := Sums(pts), Diffs(pts);
    var a, b, c, d := ArgMin(sum), ArgMax(sum), ArgMin(diff), ArgMax(diff);
    var q := OrderCorners(pts);
    assert q == Quad(pts[a], pts[c], pts[b], pts[d]);
    assert forall j :: 0 <= j < a ==> SumOf(pts[j]) > SumOf(pts[a]) by {
      forall j | 0 <= j < a ensures SumOf(pts[j]) > SumOf(pts[a]) { assert sum[j] > sum[a]; }
    }
    assert forall j :: 0 <= j < b ==> SumOf(pts[j]) < SumOf(pts[b]) by {
      forall j | 0 <= j < b ensures SumOf(pts[j]) < SumOf(pts[b]) { assert sum[j] < sum[b]; }
    }
    assert forall j :: 0 <= j < c ==> DiffOf(pts[j]) > DiffOf(pts[c]) by {
      forall j | 0 <= j < c ensures DiffOf(pts[j]) > DiffOf(pts[c]) { assert diff[j] > diff[c]; }
    }
    assert forall j :: 0 <= j < d ==> DiffOf(pts[j]) < DiffOf(pts[d]) by {
      forall j | 0 <= j < d ensures DiffOf(pts[j]) < DiffOf(pts[d]) { assert diff[j] < diff[d]; }
    }
  }

  /** Pairwise distinct values of x+y and of y-x: no tie has to be broken. */
  predicate DistinctKeys(pts: seq<Point>)
  {
    forall i, j :: 0 <= i < j < |pts| ==> SumOf(pts[i]) != SumOf(pts[j]) && DiffOf(pts[i]) != DiffOf(pts[j])
  }

  /** Two different points of a set with distinct keys differ in both keys. */
  lemma DistinctPointsDistinctKeys(pts: seq<Point>, p: Point, p': Point)
    requires DistinctKeys(pts) && p in pts && p' in pts
    ensures p != p' ==> SumOf(p) != SumOf(p') && DiffOf(p) != DiffOf(p')
  {
    var i :| 0 <= i < |pts| && pts[i] == p;
    var j :| 0 <= j < |pts| && pts[j] == p';
    if i < j {
      assert SumOf(pts[i]) != SumOf(pts[j]) && DiffOf(pts[i]) != DiffOf(pts[j]);
    } else if j < i {
      assert SumOf(pts[j]) != SumOf(pts[i]) && DiffOf(pts[j]) != DiffOf(pts[i]);
    }
  }

  /**
   * Where no tie has to be broken, the labelling does not depend on the order in which
   * the four points are given.
   */
  lemma OrderCornersPermutationInvariant(pts: seq<Point>, pts': seq<Point>)
    requires |pts| == 4 && multiset(pts') == multiset(pts)
    requires DistinctKeys(pts)
    ensures |pts'| == 4
    ensures OrderCorners(pts') == OrderCorners(pts)
  {
    SameMembers(pts', pts);
    var q, q' := OrderCorners(pts), OrderCorners(pts');
    MemberAttainsKeys(pts', q.tl);
    MemberAttainsKeys(pts', q.br);
    MemberAttainsKeys(pts', q.tr);
    MemberAttainsKeys(pts', q.bl);
    MemberAttainsKeys(pts, q'.tl);
    MemberAttainsKeys(pts, q'.br);
    MemberAttainsKeys(pts, q'.tr);
    MemberAttainsKeys(pts, q'.bl);
    DistinctPointsDistinctKeys(pts, q.tl, q'.tl);
    DistinctPointsDistinctKeys(pts, q.br, q'.br);
    DistinctPointsDistinctKeys(pts, q.tr, q'.tr);
    DistinctPointsDistinctKeys(pts, q.bl, q'.bl);
  }

  /** Sequences that are permutations of each other have the same length and members. */
  lemma SameMembers(a: seq<Point>, b: seq<Point>)
    requires multiset(a) == multiset(b)
    ensures |a| == |b|
    ensures forall p :: p in a <==> p in b
  {
    assert |a| == |multiset(a)| == |multiset(b)| == |b|;
    forall p ensures p in a <==> p in b {
      assert p in a <==> p in multiset(a);
      assert p in b <==> p in multiset(b);
    }
  }

  /** A point of a four-point sequence lies between the extremes of the labelling. */
  lemma MemberAttainsKeys(pts: seq<Point>, p: Point)
    requires |pts| == 4 && p in pts
    ensures var q := OrderCorners(pts);
            SumOf(q.tl) <= SumOf(p) <= SumOf(q.br) && DiffOf(q.tr) <= DiffOf(p) <= DiffOf(q.bl)
  {
    var i :| 0 <= i < 4 && pts[i] == p;
  }

  /** The squared distance between two points. */
  function Dist2(p: Point, q: Point): int
  {
    (p.x - q.x) * (p.x - q.x) + (p.y - q.y) * (p.y - q.y)
  }

  /** The squares of the rectified image's width and height. */
  datatype Size2 = Size2(widthSq: int, heightSq: int)

  /**
   * The output size: the longer of the bottom and top edges, and the longer of the right
   * and left edges (compared as squared lengths, which order lengths the same way).
   */
  function OutputSize(q: Quad): (s: Size2)
    ensures s.widthSq == Dist2(q.br, q.bl) || s.widthSq == Dist2(q.tr, q.tl)
    ensures s.widthSq >= Dist2(q.br, q.bl) && s.widthSq >= Dist2(q.tr, q.tl)
    ensures s.heightSq == Dist2(q.tr, q.br) || s.heightSq == Dist2(q.tl, q.bl)
    ensures s.heightSq >= Dist2(q.tr, q.br) && s.heightSq >= Dist2(q.tl, q.bl)
  {
    var wA, wB := Dist2(q.br, q.bl), Dist2(q.tr, q.tl);
    var hA, hB := Dist2(q.tr, q.br), Dist2(q.tl, q.bl);
    Size2(if wA >= wB then wA else wB, if hA >= hB then hA else hB)
  }

  /** The corners the warp maps the source corners onto, for an output of `maxW` x `maxH`. */
  function Destination(maxW: real, maxH: real): (d: seq<(real, real)>)
    ensures |d| == 4 && d[0] == (0.0, 0.0)
    ensures d[0].1 == d[1].1 && d[2].1 == d[3].1 && d[0].0 == d[3].0 && d[1].0 == d[2].0
    ensures d[1].0 - d[0].0 == maxW - 1.0 && d[3].1 - d[0].1 == maxH - 1.0
  {
    [(0.0, 0.0), (maxW - 1.0, 0.0), (maxW - 1.0, maxH - 1.0), (0.0, maxH - 1.0)]
  }

  /** The four corners of an axis-aligned rectangle with `x0 < x1` and `y0 < y1`. */
  function RectangleCorners(x0: int, y0: int, x1: int, y1: int): seq<Point>
  {
    [Point(x0, y0), Point(x1, y0), Point(x1, y1), Point(x0, y1)]
  }

  /**
   * For an axis-aligned rectangle, given in any order, the corners are labelled as the
   * rectangle's own and the output size is its side lengths.
   */
  lemma RectangleRectifiesToItsSides(x0: int, y0: int, x1: int, y1: int, pts: seq<Point>)
    requires x0 < x1 && y0 < y1
    requires multiset(pts) == multiset(RectangleCorners(x0, y0, x1, y1))
    ensures |pts| == 4
    ensures OrderCorners(pts) == Quad(Point(x0, y0), Point(x1, y0), Point(x1, y1), Point(x0, y1))
    ensures OutputSize(OrderCorners(pts)) == Size2((x1 - x0) * (x1 - x0), (y1 - y0) * (y1 - y0))
  {
    var r := RectangleCorners(x0, y0, x1, y1);
    SameMembers(pts, r);
    var q := OrderCorners(pts);
    MemberAttainsKeys(pts, r[0]);
    MemberAttainsKeys(pts, r[1]);
    MemberAttainsKeys(pts, r[2]);
    MemberAttainsKeys(pts, r[3]);
    RectangleExtremes(x0, y0, x1, y1, q);
    RectangleSize(x0, y0, x1, y1);
  }

  /** A corner moved by `(-x0, -y0)` and then `dx`, `dy` pixels further towards the origin. */
  function Moved(p: Point, x0: int, y0: int, dx: int, dy: int): (real, real)
  {
    ((p.x - x0 - dx) as real, (p.y - y0 - dy) as real)
  }

  /**
   * For an axis-aligned rectangle, given in any order, the output size's square roots are
   * its sides, and the warp sends each labelled corner to the destination corner of the
   * same label: the rectangle moved to the origin, with the right and bottom corners on
   * the output's last column and row.
   */
  lemma RectangleDestination(x0: int, y0: int, x1: int, y1: int, pts: seq<Point>)
    requires x0 < x1 && y0 < y1
    requires multiset(pts) == multiset(RectangleCorners(x0, y0, x1, y1))
    ensures |pts| == 4
    ensures var q, w, h := OrderCorners(pts), x1 - x0, y1 - y0;
            var d := Destination(w as real, h as real);
            OutputSize(q) == Size2(w * w, h * h)
            && d[0] == Moved(q.tl, x0, y0, 0, 0) && d[1] == Moved(q.tr, x0, y0, 1, 0)
            && d[2] == Moved(q.br, x0, y0, 1, 1) && d[3] == Moved(q.bl, x0, y0, 0, 1)
  {
    RectangleRectifiesToItsSides(x0, y0, x1, y1, pts);
    DestinationOfRectangle(x0, y0, x1, y1);
  }

  /** The destination corners of a rectangle's own sides are its corners moved to the origin. */
  lemma DestinationOfRectangle(x0: int, y0: int, x1: int, y1: int)
    ensures var d := Destination((x1 - x0) as real, (y1 - y0) as real);
            d[0] == Moved(Point(x0, y0), x0, y0, 0, 0) && d[1] == Moved(Point(x1, y0), x0, y0, 1, 0)
            && d[2] == Moved(Point(x1, y1), x0, y0, 1, 1) && d[3] == Moved(Point(x0, y1), x0, y0, 0, 1)
  {
  }

  /** The only corner of a rectangle extreme in a key is the one labelled by it. */
  lemma RectangleExtremes(x0: int, y0: int, x1: int, y1: int, q: Quad)
    requires x0 < x1 && y0 < y1
    requires var r := RectangleCorners(x0, y0, x1, y1);
             q.tl in r && q.tr in r && q.br in r && q.bl in r
    requires SumOf(q.tl) <= x0 + y0 && SumOf(q.br) >= x1 + y1
    requires DiffOf(q.tr) <= y0 - x1 && DiffOf(q.bl) >= y1 - x0
    ensures q == Quad(Point(x0, y0), Point(x1, y0), Point(x1, y1), Point(x0, y1))
  {
  }

  lemma RectangleSize(x0: int, y0: int, x1: int, y1: int)
    ensures OutputSize(Quad(Point(x0, y0), Point(x1, y0), Point(x1, y1), Point(x0, y1)))
            == Size2((x1 - x0) * (x1 - x0), (y1 - y0) * (y1 - y0))
  {
    assert Dist2(Point(x1, y1), Point(x0, y1)) == (x1 - x0) * (x1 - x0);
    assert Dist2(Point(x1, y0), Point(x0, y0)) == (x1 - x0) * (x1 - x0);
    assert Dist2(Point(x1, y0), Point(x1, y1)) == (y1 - y0) * (y1 - y0);
    assert Dist2(Point(x0, y0), Point(x0, y1)) == (y1 - y0) * (y1 - y0);
  }

  // ---------------------------------------------------------------------------
  // One request
  // ---------------------------------------------------------------------------

  /** The rectified image: the labelled source corners and the squared output size. */
  datatype Rectified = Rectified(corners: Quad, size: Size2)

  /** What the worker posts back: `{blob}` or `{error}`. */
  datatype Reply = ReplyBlob(image: Rectified) | ReplyError(error: string)

  function Rectify(pts: seq<Point>): (r: Rectified)
    requires |pts| == 4
  {
    var q := OrderCorners(pts);
    Rectified(q, OutputSize(q))
  }

  /**
   * The reply to one request: the quality gate first, then the contour selection, then the
   * rectification of the chosen approximation. A failed blob encoding posts nothing (the
   * rejection is thrown inside a promise callback and never reaches the `catch`).
   */
  function Analyse(req: Request): Option<Reply>
  {
    match QualityGate(req)
    case Some(f) => Some(ReplyError(FailureMessage(f, req)))
    case None =>
      match SelectDocument(req.contours)
      case None => Some(ReplyError(NoBoundaryMessage))
      case Some(k) =>
        if req.encodes then Some(ReplyBlob(Rectify(req.contours[k].approx))) else None
  }

  /**
   * The reply to a request: each rejection of the quality gate exactly when its check is
   * the first one violated, the missing document boundary exactly when no contour is a
   * candidate, and otherwise the rectification of a candidate's approximation, or nothing
   * when the encoding fails.
   */
  lemma AnalyseSpec(req: Request)
    ensures TooSmall(req) ==> Analyse(req) == Some(ReplyError(FailureMessage(FrameTooSmall, req)))
    ensures Analyse(req) == Some(ReplyError(TooDarkMessage)) <==>
              !TooSmall(req) && req.meanBrightness < req.minBrightness
    ensures Analyse(req) == Some(ReplyError(TooBrightMessage)) <==>
              !TooSmall(req) && req.minBrightness <= req.meanBrightness && req.meanBrightness > req.maxBrightness
    ensures Analyse(req) == Some(ReplyError(BlurryMessage)) <==> QualityGate(req) == Some(TooBlurry)
    ensures Analyse(req) == Some(ReplyError(NoBoundaryMessage)) <==>
              QualityGate(req).None? && forall j :: 0 <= j < |req.contours| ==> !IsCandidate(req.contours[j])
    ensures Analyse(req).Some? && Analyse(req).value.ReplyBlob? ==>
              QualityGate(req).None? && req.encodes &&
              exists j :: 0 <= j < |req.contours| && IsCandidate(req.contours[j]) &&
                          Analyse(req).value.image == Rectify(req.contours[j].approx)
    ensures Analyse(req).None? <==>
              QualityGate(req).None? && !req.encodes &&
              exists j :: 0 <= j < |req.contours| && IsCandidate(req.contours[j])
  {
    SelectDocumentSpec(req.contours);
    MessagesDistinct(req);
  }

  /** Every error the worker can post has a non-empty message. */
  lemma AnalyseErrorsNonEmpty(req: Request)
    ensures Analyse(req).Some? && Analyse(req).value.ReplyError? ==> Analyse(req).value.error != ""
  {
    assert |TooDarkMessage| > 0 && |TooBrightMessage| > 0;
    assert |BlurryMessage| > 0 && |NoBoundaryMessage| > 0;
  }

  /**
   * A frame below the resolution is rejected whatever its brightness, sharpness and
   * contours: none of those measurements influence the reply.
   */
  lemma ResolutionIgnoresMeasurements(req: Request, mean: real, stdDev: real,
                                      contours: seq<Contour>, encodes: bool)
    requires TooSmall(req)
    ensures Analyse(req.(meanBrightness := mean, laplacianStdDev := stdDev,
                         contours := contours, encodes := encodes)) == Analyse(req)
  {
  }

  /** `processMessage`: the same checks, with the selection loop run as a loop. */
  method ProcessMessage(req: Request) returns (reply: Option<Reply>)
    ensures reply == Analyse(req)
  {
    var gate := QualityGate(req);
    if gate.Some? {
      return Some(ReplyError(FailureMessage(gate.value, req)));
    }
    var doc := SelectContour(req.contours);
    if doc.None? {
      return Some(ReplyError(NoBoundaryMessage));
    }
    var rect := Rectify(req.contours[doc.value].approx);
    if req.encodes {
      reply := Some(ReplyBlob(rect));
    } else {
      reply := None;
    }
  }

  /** What is posted for one optional reply. */
  function Posted(r: Option<Reply>): seq<Reply>
  {
    if r.Some? then [r.value] else []
  }

  /** What is posted for a sequence of requests answered one by one, in order, by `answer`. */
  function RepliesBy(reqs: seq<Request>, answer: Request -> Option<Reply>): seq<Reply>
  {
    if reqs == [] then []
    else RepliesBy(reqs[..|reqs| - 1], answer) + Posted(answer(reqs[|reqs| - 1]))
  }

  /** The replies the worker posts for a sequence of requests processed in order. */
  function Replies(reqs: seq<Request>): seq<Reply>
  {
    RepliesBy(reqs, Analyse)
  }

  lemma RepliesBySnoc(reqs: seq<Request>, req: Request, answer: Request -> Option<Reply>)
    ensures RepliesBy(reqs + [req], answer) == RepliesBy(reqs, answer) + Posted(answer(req))
  {
    assert (reqs + [req])[..|reqs|] == reqs;
  }

  /** Answers every request of `pending` with `answer`, in order. */
  method Drain(pending: seq<Request>, answer: Request -> Option<Reply>) returns (out: seq<Reply>)
    ensures out == RepliesBy(pending, answer)
  {
    out := [];
    var i := 0;
    while i < |pending|
      invariant 0 <= i <= |pending|
      invariant out == RepliesBy(pending[..i], answer)
    {
      RepliesBySnoc(pending[..i], pending[i], answer);
      assert pending[..i + 1] == pending[..i] + [pending[i]];
      out := out + Posted(answer(pending[i]));
      i := i + 1;
    }
    assert pending[..i] == pending;
  }

  /** Requests of which every one gets an answer are answered one by one, in order. */
  lemma {:induction false} RepliesByInOrder(reqs: seq<Request>, answer: Request -> Option<Reply>)
    requires forall i :: 0 <= i < |reqs| ==> answer(reqs[i]).Some?
    ensures |RepliesBy(reqs, answer)| == |reqs|
    ensures forall i :: 0 <= i < |reqs| ==> RepliesBy(reqs, answer)[i] == answer(reqs[i]).value
  {
    if reqs != [] {
      var init := reqs[..|reqs| - 1];
      RepliesByInOrder(init, answer);
      assert RepliesBy(reqs, answer) == RepliesBy(init, answer) + [answer(reqs[|reqs| - 1]).value];
    }
  }

  /** Requests of which every one gets a reply are answered one by one, in order. */
  lemma RepliesInOrder(reqs: seq<Request>)
    requires forall i :: 0 <= i < |reqs| ==> Analyse(reqs[i]).Some?
    ensures |Replies(reqs)| == |reqs|
    ensures forall i :: 0 <= i < |reqs| ==> Replies(reqs)[i] == Analyse(reqs[i]).value
  {
    RepliesByInOrder(reqs, Analyse);
  }

  // ---------------------------------------------------------------------------
  // The worker's start-up queue
  // ---------------------------------------------------------------------------

  /**
   * The worker: messages that arrive before the OpenCV runtime is usable are queued and
   * processed, in arrival order, once it is; `posted` is everything sent back so far, in
   * processing order. Becoming usable and the resolution of `cvReady` are one event here.
   */
  class Worker {
    var runtimeReady: bool
    var queue: seq<Request>
    var posted: seq<Reply>

    constructor ()
      ensures !runtimeReady && queue == [] && posted == []
    {
      runtimeReady := false;
      queue := [];
      posted := [];
    }

    /** `self.onmessage`. */
    method OnMessage(data: Request)
      modifies this
      ensures runtimeReady == old(runtimeReady)
      ensures !old(runtimeReady) ==> queue == old(queue) + [data] && posted == old(posted)
      ensures old(runtimeReady) ==> queue == old(queue) && posted == old(posted) + Replies([data])
    {
      if !runtimeReady {
        queue := queue + [data];
      } else {
        var reply := ProcessMessage(data);
        RepliesBySnoc([], data, Analyse);
        posted := posted + Posted(reply);
      }
    }

    /** The continuation of the readiness promise: drain the queue in order, then empty it. */
    method OnRuntimeReady()
      modifies this
      ensures runtimeReady && queue == []
      ensures posted == old(posted) + Replies(old(queue))
    {
      runtimeReady := true;
      var out := Drain(queue, Analyse);
      posted := posted + out;
      queue := [];
    }
  }

  // ---------------------------------------------------------------------------
  // Main thread: dispatch of the worker's messages
  // ---------------------------------------------------------------------------

  /** `ev.data` as the main thread reads it: an optional blob and an optional error. */
  datatype WorkerData = WorkerData(blob: Option<Rectified>, error: Option<string>)

  function Encode(r: Reply): WorkerData
  {
    match r
    case ReplyBlob(img) => WorkerData(Some(img), None)
    case ReplyError(e) => WorkerData(None, Some(e))
  }

  /** Which callback of the component is invoked. */
  datatype Callback = CallError(message: string) | CallProcessed(image: Rectified) | NoCall

  /** The callback invoked and whether the component is still busy. */
  datatype Dispatch = Dispatch(callback: Callback, busy: bool)

  predicate ErrorTruthy(data: WorkerData)
  {
    data.error.Some? && data.error.value != ""
  }

  /**
   * `onWorkerMessage`: an error takes precedence over a blob; a blob is drawn on the
   * visible canvas (`drawError` is how `createImageBitmap` fails, if it does) and then
   * handed on. A message with neither calls nothing and leaves `busy` as it was.
   */
  function OnWorkerMessage(data: WorkerData, busy: bool, canvasPresent: bool, drawError: Option<string>)
    : (d: Dispatch)
    ensures ErrorTruthy(data) ==> d == Dispatch(CallError(data.error.value), false)
    ensures d.callback.CallProcessed? <==>
              !ErrorTruthy(data) && data.blob.Some? && canvasPresent && drawError.None?
    ensures d.callback.CallProcessed? ==> d.callback.image == data.blob.value
    ensures d.callback.NoCall? <==> !ErrorTruthy(data) && data.blob.None?
    ensures d.callback.NoCall? ==> d.busy == busy
    ensures !d.callback.NoCall? ==> !d.busy
  {
    if ErrorTruthy(data) then Dispatch(CallError(data.error.value), false)
    else if data.blob.Some? then
      if !canvasPresent then Dispatch(CallError("Canvas nicht verfügbar."), false)
      else if drawError.Some? then Dispatch(CallError("Fehler beim Zeichnen des Blobs: " + drawError.value), false)
      else Dispatch(CallProcessed(data.blob.value), false)
    else Dispatch(NoCall, busy)
  }

  /** `onWorkerError`. */
  function OnWorkerError(message: string): (d: Dispatch)
    ensures d.callback.CallError? && !d.busy
  {
    Dispatch(CallError("Worker-Fehler: " + message), false)
  }

  /**
   * Every reply the worker posts reaches exactly the matching callback: its error message
   * to `onError`, its image (when it can be drawn) to `onProcessed`.
   */
  lemma DispatchOfReply(req: Request, busy: bool, drawError: Option<string>)
    requires Analyse(req).Some?
    ensures var d := OnWorkerMessage(Encode(Analyse(req).value), busy, true, drawError);
            match Analyse(req).value
            case ReplyError(e) => d.callback == CallError(e)
            case ReplyBlob(img) => (drawError.None? ==> d.callback == CallProcessed(img))
                                   && (drawError.Some? ==> d.callback.CallError?)
  {
    AnalyseErrorsNonEmpty(req);
  }
}
