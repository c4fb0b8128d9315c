/**
 * The per-pair decision of the car-pairs tool: keep the matches whose
 * distance is below `rejection_threshold`, sort them by distance, call the two
 * photographs the same car when more than `similarity_threshold` matches
 * survive, and then call the photograph whose matched keypoints spread wider
 * the one showing the larger car. The batch driver writes one `same index`
 * line per pair of image paths.
 *
 * Keypoint detection (FAST), description (SIFT), matching (FLANN) and the PCA
 * eigenvalue are library calls; they come in as the functions of `Features`.
 */
module Pairs {
  import opened Optional
  import opened Text

  /** A keypoint location in pixels. */
  datatype Point = Point(x: nat, y: nat)

  /** FLT_MAX: a match distance is a float. */
  const FloatMax: real := 340282346638528859811704183484516925440.0

  /** A finite, non-negative descriptor distance. */
  type Distance = d: real | 0.0 <= d <= FloatMax witness 0.0

  /** cv::DMatch: a keypoint of image 1 (query), its nearest keypoint of image 2 (train) and their distance. */
  datatype Match = Match(queryIdx: nat, trainIdx: nat, distance: Distance)

  type Int32 = i: int | -0x8000_0000 <= i < 0x8000_0000

  /**
   * The feature pipeline compareImages drives: a detector at a sensitivity, an
   * extractor that returns the keypoints it kept (it takes them by reference)
   * with one descriptor row per kept keypoint, a matcher that finds the nearest
   * train descriptor for each query descriptor, and the largest eigenvalue of
   * the covariance of a point set.
   */
  datatype Features<!Img, !Desc> = Features(
    detect: (Img, int) -> seq<Point>,
    describe: (Img, seq<Point>) -> (seq<Point>, seq<Desc>),
    matcher: (seq<Desc>, seq<Desc>) -> seq<Match>,
    spread: seq<Point> -> real)

  // ---------------------------------------------------------------- filtering

  /** The matches whose distance is strictly below the threshold, in their original order. */
  function Filter(ms: seq<Match>, threshold: int): (r: seq<Match>)
    ensures |r| <= |ms|
  {
    if ms == [] then []
    else
      var init, last := ms[..|ms| - 1], ms[|ms| - 1];
      var rest := Filter(init, threshold);
      if last.distance < threshold as real then rest + [last] else rest
  }

  /**
   * The filter keeps exactly the matches below the threshold, each as often as
   * it occurs, and nothing else.
   */
  lemma {:induction false} FilterSpec(ms: seq<Match>, threshold: int)
    ensures forall k :: 0 <= k < |Filter(ms, threshold)| ==> Filter(ms, threshold)[k].distance < threshold as real
    ensures forall k :: 0 <= k < |ms| && ms[k].distance < threshold as real ==> ms[k] in Filter(ms, threshold)
    ensures forall m ::
      multiset(Filter(ms, threshold))[m] == if m.distance < threshold as real then multiset(ms)[m] else 0
  {
    if ms != [] {
      var init, last := ms[..|ms| - 1], ms[|ms| - 1];
      assert ms == init + [last];
      FilterSpec(init, threshold);
      forall k | 0 <= k < |ms| - 1 ensures ms[k] == init[k] { }
    }
  }

  /** The push_back loop over the first `rows` matches: those below the threshold, in order. */
  method FilterRows(matches: seq<Match>, rows: nat, threshold: int) returns (filtered: seq<Match>)
    requires rows <= |matches|
    ensures filtered == Filter(matches[..rows], threshold)
  {
    filtered := [];
    var i := 0;
    while i < rows
      invariant 0 <= i <= rows
      invariant filtered == Filter(matches[..i], threshold)
    {
      assert matches[..i + 1][..i] == matches[..i];
      if matches[i].distance < threshold as real {
        filtered := filtered + [matches[i]];
      }
      i := i + 1;
    }
  }

  /** Raising the rejection threshold never loses a good match. */
  lemma {:induction false} FilterMonotone(ms: seq<Match>, lower: int, higher: int)
    requires lower <= higher
    ensures |Filter(ms, lower)| <= |Filter(ms, higher)|
  {
    if ms != [] {
      FilterMonotone(ms[..|ms| - 1], lower, higher);
    }
  }

  // ------------------------------------------------------------------ sorting

  predicate SortedByDistance(s: seq<Match>)
  {
    forall i, j :: 0 <= i < j < |s| ==> s[i].distance <= s[j].distance
  }

  /** m placed after every element of s whose distance does not exceed its own. */
  function InsertByDistance(s: seq<Match>, m: Match): seq<Match>
  {
    if s == [] || s[|s| - 1].distance <= m.distance then s + [m]
    else InsertByDistance(s[..|s| - 1], m) + [s[|s| - 1]]
  }

  /** Matches in non-decreasing distance order (insertion sort: equal distances keep their order). */
  function SortByDistance(s: seq<Match>): seq<Match>
  {
    if s == [] then [] else InsertByDistance(SortByDistance(s[..|s| - 1]), s[|s| - 1])
  }

  lemma {:induction false} InsertByDistanceCount(s: seq<Match>, m: Match)
    ensures multiset(InsertByDistance(s, m)) == multiset(s) + multiset{m}
    ensures |InsertByDistance(s, m)| == |s| + 1
  {
    if s != [] && s[|s| - 1].distance > m.distance {
      var init, last := s[..|s| - 1], s[|s| - 1];
      assert s == init + [last];
      InsertByDistanceCount(init, m);
    }
  }

  /** Inserting m keeps every distance at most d when m's and s's are. */
  lemma {:induction false} InsertByDistanceBounded(s: seq<Match>, m: Match, d: real)
    requires forall k :: 0 <= k < |s| ==> s[k].distance <= d
    requires m.distance <= d
    ensures forall k :: 0 <= k < |InsertByDistance(s, m)| ==> InsertByDistance(s, m)[k].distance <= d
  {
    if s != [] && s[|s| - 1].distance > m.distance {
      InsertByDistanceBounded(s[..|s| - 1], m, d);
    }
  }

  lemma {:induction false} InsertByDistanceSorted(s: seq<Match>, m: Match)
    requires SortedByDistance(s)
    ensures SortedByDistance(InsertByDistance(s, m))
  {
    if s != [] && s[|s| - 1].distance > m.distance {
      var init, last := s[..|s| - 1], s[|s| - 1];
      InsertByDistanceSorted(init, m);
      InsertByDistanceBounded(init, m, last.distance);
    }
  }

  /** The sort orders by distance and loses or adds nothing. */
  lemma {:induction false} SortByDistanceSpec(s: seq<Match>)
    ensures SortedByDistance(SortByDistance(s))
    ensures multiset(SortByDistance(s)) == multiset(s)
    ensures |SortByDistance(s)| == |s|
  {
    if s != [] {
      var init, last := s[..|s| - 1], s[|s| - 1];
      assert s == init + [last];
      SortByDistanceSpec(init);
      InsertByDistanceSorted(SortByDistance(init), last);
      InsertByDistanceCount(SortByDistance(init), last);
    }
  }

  /** Where the insertion loop stops, InsertByDistance puts m. */
  lemma {:induction false} InsertAt(s: seq<Match>, m: Match, j: nat)
    requires j <= |s|
    requires forall k :: j <= k < |s| ==> s[k].distance > m.distance
    requires j > 0 ==> s[j - 1].distance <= m.distance
    ensures InsertByDistance(s, m) == s[..j] + [m] + s[j..]
  {
    if j < |s| {
      var init := s[..|s| - 1];
      InsertAt(init, m, j);
      assert init[..j] == s[..j];
      assert init[j..] + [s[|s| - 1]] == s[j..];
    } else {
      assert s[..j] == s;
    }
  }

  /** One step of the in-place insertion sort: a[i] moves down into the sorted a[..i]. */
  method InsertInPlace(a: array<Match>, i: nat)
    requires i < a.Length
    modifies a
    ensures a[..i + 1] == InsertByDistance(old(a[..i]), old(a[i]))
    ensures a[i + 1..] == old(a[i + 1..])
  {
    ghost var sorted := a[..i];
    var m := a[i];
    var j := i;
    while j > 0 && a[j - 1].distance > m.distance
      invariant 0 <= j <= i
      invariant forall k :: 0 <= k < j ==> a[k] == sorted[k]
      invariant forall k :: j < k <= i ==> a[k] == sorted[k - 1]
      invariant forall k :: j <= k < i ==> sorted[k].distance > m.distance
      invariant a[i + 1..] == old(a[i + 1..])
    {
      a[j] := a[j - 1];
      j := j - 1;
    }
    a[j] := m;
    InsertAt(sorted, m, j);
    assert a[..i + 1] == sorted[..j] + [m] + sorted[j..];
  }

  /** std::sort of good_matches by distance, done in place. */
  method SortMatches(a: array<Match>)
    modifies a
    ensures a[..] == SortByDistance(old(a[..]))
  {
    ghost var input := a[..];
    var i := 0;
    while i < a.Length
      invariant 0 <= i <= a.Length
      invariant a[..i] == SortByDistance(input[..i])
      invariant a[i..] == input[i..]
    {
      InsertInPlace(a, i);
      assert input[..i + 1][..i] == input[..i];
      i := i + 1;
    }
    assert input[..a.Length] == input;
  }

  // ---------------------------------------------------------- point gathering

  /** Every match indexes a keypoint of each image. */
  predicate InRange(keypoints1: seq<Point>, keypoints2: seq<Point>, ms: seq<Match>)
  {
    forall m :: m in ms ==> m.queryIdx < |keypoints1| && m.trainIdx < |keypoints2|
  }

  function QueryPoints(keypoints1: seq<Point>, ms: seq<Match>): seq<Point>
    requires forall m :: m in ms ==> m.queryIdx < |keypoints1|
  {
    seq(|ms|, i requires 0 <= i < |ms| => keypoints1[ms[i].queryIdx])
  }

  function TrainPoints(keypoints2: seq<Point>, ms: seq<Match>): seq<Point>
    requires forall m :: m in ms ==> m.trainIdx < |keypoints2|
  {
    seq(|ms|, i requires 0 <= i < |ms| => keypoints2[ms[i].trainIdx])
  }

  /** The two point lists of the matched keypoints: row i of each belongs to match i. */
  method GatherPoints(keypoints1: seq<Point>, keypoints2: seq<Point>, ms: seq<Match>)
    returns (points1: seq<Point>, points2: seq<Point>)
    requires InRange(keypoints1, keypoints2, ms)
    ensures |points1| == |ms| && |points2| == |ms|
    ensures forall i :: 0 <= i < |ms| ==>
      points1[i] == keypoints1[ms[i].queryIdx] && points2[i] == keypoints2[ms[i].trainIdx]
    ensures points1 == QueryPoints(keypoints1, ms) && points2 == TrainPoints(keypoints2, ms)
  {
    points1, points2 := [], [];
    var i := 0;
    while i < |ms|
      invariant 0 <= i <= |ms|
      invariant |points1| == i && |points2| == i
      invariant forall k :: 0 <= k < i ==>
        points1[k] == keypoints1[ms[k].queryIdx] && points2[k] == keypoints2[ms[k].trainIdx]
    {
      assert ms[i] in ms;
      points1 := points1 + [keypoints1[ms[i].queryIdx]];
      points2 := points2 + [keypoints2[ms[i].trainIdx]];
      i := i + 1;
    }
  }

  // -------------------------------------------------------------- good matches

  /** What the extractor and the matcher return for two keypoint lists. */
  datatype Correspondence = Correspondence(good: seq<Match>, keypoints1: seq<Point>, keypoints2: seq<Point>)

  /** good_matches: the matches below the threshold, sorted by distance. */
  function GoodMatches(ms: seq<Match>, threshold: int): seq<Match>
  {
    SortByDistance(Filter(ms, threshold))
  }

  /** The good matches are exactly the matches below the threshold, reordered by distance. */
  lemma GoodMatchesSpec(ms: seq<Match>, threshold: int)
    ensures SortedByDistance(GoodMatches(ms, threshold))
    ensures multiset(GoodMatches(ms, threshold)) == multiset(Filter(ms, threshold))
    ensures |GoodMatches(ms, threshold)| <= |ms|
    ensures forall m :: m in GoodMatches(ms, threshold) ==> m in ms && m.distance < threshold as real
  {
    var filtered := Filter(ms, threshold);
    var good := GoodMatches(ms, threshold);
    FilterSpec(ms, threshold);
    SortByDistanceSpec(filtered);
    forall m | m in good ensures m in ms && m.distance < threshold as real {
      assert m in multiset(good);
      assert m in multiset(filtered);
    }
  }

  /**
   * Whether computeGoodMatches is defined for two keypoint lists: the matcher
   * returned a match for every descriptor row of image 1, which the filtering
   * loop reads, and every good match indexes a kept keypoint of each image,
   * which the gathering loop reads. Otherwise the source reads past the end of
   * a vector.
   */
  predicate MatchingFits<Img, Desc>(fx: Features<Img, Desc>, image1: Img, image2: Img,
                                    keypoints1: seq<Point>, keypoints2: seq<Point>, threshold: int)
  {
    var described1 := fx.describe(image1, keypoints1);
    var described2 := fx.describe(image2, keypoints2);
    var ms := fx.matcher(described1.1, described2.1);
    |described1.1| <= |ms| && InRange(described1.0, described2.0, GoodMatches(ms[..|described1.1|], threshold))
  }

  /** The good matches, with the keypoint lists the extractor left; None where the source reads out of bounds. */
  function Correspond<Img, Desc>(fx: Features<Img, Desc>, image1: Img, image2: Img,
                                 keypoints1: seq<Point>, keypoints2: seq<Point>, threshold: int): (c: Option<Correspondence>)
    ensures c.Some? <==> MatchingFits(fx, image1, image2, keypoints1, keypoints2, threshold)
    ensures c.Some? ==> InRange(c.value.keypoints1, c.value.keypoints2, c.value.good)
    ensures c.Some? ==> c.value.keypoints1 == fx.describe(image1, keypoints1).0 &&
                        c.value.keypoints2 == fx.describe(image2, keypoints2).0
    ensures c.Some? ==> SortedByDistance(c.value.good) && |c.value.good| <= |fx.describe(image1, keypoints1).1|
    ensures c.Some? ==> forall m :: m in c.value.good ==> m.distance < threshold as real
  {
    var described1 := fx.describe(image1, keypoints1);
    var described2 := fx.describe(image2, keypoints2);
    var ms := fx.matcher(described1.1, described2.1);
    if |described1.1| <= |ms| && InRange(described1.0, described2.0, GoodMatches(ms[..|described1.1|], threshold)) then
      GoodMatchesSpec(ms[..|described1.1|], threshold);
      Some(Correspondence(GoodMatches(ms[..|described1.1|], threshold), described1.0, described2.0))
    else
      None
  }

  /** When the extractor keeps no descriptor of image 1, the loops read nothing: no good matches, whatever image 2 gives. */
  lemma NoDescriptorsNoMatches<Img, Desc>(fx: Features<Img, Desc>, image1: Img, image2: Img,
                                          keypoints1: seq<Point>, keypoints2: seq<Point>, threshold: int)
    requires fx.describe(image1, keypoints1).1 == []
    ensures Correspond(fx, image1, image2, keypoints1, keypoints2, threshold) ==
      Some(Correspondence([], fx.describe(image1, keypoints1).0, fx.describe(image2, keypoints2).0))
  {
    var ms := fx.matcher([], fx.describe(image2, keypoints2).1);
    assert ms[..0] == [];
    assert Filter([], threshold) == [];
  }

  /** When image 1 has descriptor rows but the matcher returns no match (image 2 kept none), the filtering loop reads out of bounds. */
  lemma NoMatchesUndefined<Img, Desc>(fx: Features<Img, Desc>, image1: Img, image2: Img,
                                      keypoints1: seq<Point>, keypoints2: seq<Point>, threshold: int)
    requires fx.describe(image1, keypoints1).1 != []
    requires fx.matcher(fx.describe(image1, keypoints1).1, fx.describe(image2, keypoints2).1) == []
    ensures Correspond(fx, image1, image2, keypoints1, keypoints2, threshold).None?
  {
  }

  /**
   * computeGoodMatches: describe both keypoint lists, match, keep the matches
   * among the first descriptor rows that are below the threshold, sort them,
   * and gather their keypoints (the gathered points are not used further).
   * Where the source would read past the end of the matches or of a keypoint
   * list, the result is None.
   */
  method ComputeGoodMatches<Img, Desc>(image1: Img, image2: Img, keypoints1: seq<Point>, keypoints2: seq<Point>,
                                       fx: Features<Img, Desc>, threshold: int)
    returns (c: Option<Correspondence>)
    ensures c == Correspond(fx, image1, image2, keypoints1, keypoints2, threshold)
  {
    var described1 := fx.describe(image1, keypoints1);
    var described2 := fx.describe(image2, keypoints2);
    var kept1, kept2 := described1.0, described2.0;
    var descriptors1, descriptors2 := described1.1, described2.1;
    var matches := fx.matcher(descriptors1, descriptors2);
    if |descriptors1| > |matches| {
      return None;
    }

    var filtered := FilterRows(matches, |descriptors1|, threshold);

    var buffer := new Match[|filtered|](k requires 0 <= k < |filtered| => filtered[k]);
    assert buffer[..] == filtered;
    SortMatches(buffer);
    var good := buffer[..];
    assert good == GoodMatches(matches[..|descriptors1|], threshold);
    if !InRange(kept1, kept2, good) {
      return None;
    }

    var points1, points2 := GatherPoints(kept1, kept2, good);
    return Some(Correspondence(good, kept1, kept2));
  }

  // ----------------------------------------------------------------- deciding

  /** `max1 > max2 ? 0 : 1`: image 0 is the larger only when its spread is strictly larger. */
  function LargerIndex(max1: real, max2: real): (index: int)
    ensures index == 0 || index == 1
    ensures index == 0 <==> max1 > max2
  {
    if max1 > max2 then 0 else 1
  }

  /** Swapping the two spreads flips the answer unless they tie; a tie gives 1 either way. */
  lemma LargerIndexSwap(max1: real, max2: real)
    ensures max1 != max2 ==> LargerIndex(max2, max1) == 1 - LargerIndex(max1, max2)
    ensures max1 == max2 ==> LargerIndex(max1, max2) == 1 && LargerIndex(max2, max1) == 1
  {
  }

  /** computeIndexLarge: gather the matched keypoints of each image and compare their spreads. */
  method ComputeIndexLarge(keypoints1: seq<Point>, keypoints2: seq<Point>, ms: seq<Match>, spread: seq<Point> -> real)
    returns (index: int)
    requires InRange(keypoints1, keypoints2, ms)
    ensures index == 0 || index == 1
    ensures index == 0 <==> spread(QueryPoints(keypoints1, ms)) > spread(TrainPoints(keypoints2, ms))
  {
    var points1, points2 := GatherPoints(keypoints1, keypoints2, ms);
    var max1 := spread(points1);
    var max2 := spread(points2);
    index := LargerIndex(max1, max2);
  }

  /** 2^64: `std::size_t` is 64 bits wide. */
  const SizeTModulus: int := 0x1_0000_0000_0000_0000

  /** An int converted to std::size_t. */
  function SizeT(i: Int32): nat
  {
    if i < 0 then i + SizeTModulus else i
  }

  /**
   * `good_matches.size() > similarity_threshold`, where the int threshold is
   * converted to size_t first: a negative threshold becomes huge.
   */
  function SameCar(count: nat, similarity: Int32): (same: bool)
    ensures similarity >= 0 ==> (same <==> count > similarity)
    ensures similarity < 0 && count < 0x8000_0000_0000_0000 ==> !same
  {
    count > SizeT(similarity)
  }

  /** A parameters-file node as `as<int>` and `as<bool>` see it. */
  datatype Node = IntNode(i: Int32) | BoolNode(b: bool) | OtherNode

  type Params = map<string, Node>

  /** `params[key].as<int>(fallback)`: the fallback unless the key holds an integer. */
  function AsInt(params: Params, key: string, fallback: Int32): (v: Int32)
    ensures key in params && params[key].IntNode? ==> v == params[key].i
    ensures !(key in params && params[key].IntNode?) ==> v == fallback
  {
    if key in params && params[key].IntNode? then params[key].i else fallback
  }

  /** `params[key].as<bool>(fallback)`. */
  function AsBool(params: Params, key: string, fallback: bool): (v: bool)
    ensures key in params && params[key].BoolNode? ==> v == params[key].b
    ensures !(key in params && params[key].BoolNode?) ==> v == fallback
  {
    if key in params && params[key].BoolNode? then params[key].b else fallback
  }

  datatype Settings = Settings(fastThreshold: Int32, rejectionThreshold: Int32, similarityThreshold: Int32, visualize: bool)

  /** The parameters compareImages and main read, each with its default. */
  function ReadSettings(params: Params): (s: Settings)
    ensures "fast_threshold" !in params ==> s.fastThreshold == 5
    ensures "rejection_threshold" !in params ==> s.rejectionThreshold == 300
    ensures "similarity_threshold" !in params ==> s.similarityThreshold == 30
    ensures "visualize" !in params ==> s.visualize
    ensures "similarity_threshold" in params && params["similarity_threshold"].IntNode? ==>
      s.similarityThreshold == params["similarity_threshold"].i
  {
    Settings(AsInt(params, "fast_threshold", 5), AsInt(params, "rejection_threshold", 300),
             AsInt(params, "similarity_threshold", 30), AsBool(params, "visualize", true))
  }

  /** DetectionResult: same_car, and index_large (0 or 1 for the same car, -1 otherwise). */
  datatype DetectionResult = DetectionResult(sameCar: bool, indexLarge: int)

  /** The decision taken once the good matches are known. */
  function Decide(c: Correspondence, similarity: Int32, spread: seq<Point> -> real): (r: DetectionResult)
    requires InRange(c.keypoints1, c.keypoints2, c.good)
    ensures r.sameCar <==> SameCar(|c.good|, similarity)
    ensures r.sameCar <==> (r.indexLarge == 0 || r.indexLarge == 1)
    ensures !r.sameCar ==> r.indexLarge == -1
    ensures r.sameCar ==>
      (r.indexLarge == 0 <==> spread(QueryPoints(c.keypoints1, c.good)) > spread(TrainPoints(c.keypoints2, c.good)))
  {
    if SameCar(|c.good|, similarity) then
      DetectionResult(true, LargerIndex(spread(QueryPoints(c.keypoints1, c.good)), spread(TrainPoints(c.keypoints2, c.good))))
    else
      DetectionResult(false, -1)
  }

  /** The result compareImages returns for one pair of images; None where computeGoodMatches is undefined. */
  function Judge<Img, Desc>(image1: Img, image2: Img, params: Params, fx: Features<Img, Desc>): Option<DetectionResult>
  {
    var s := ReadSettings(params);
    var c := Correspond(fx, image1, image2, fx.detect(image1, s.fastThreshold), fx.detect(image2, s.fastThreshold),
                        s.rejectionThreshold);
    if c.Some? then Some(Decide(c.value, s.similarityThreshold, fx.spread)) else None
  }

  /** compareImages: detect, find the good matches, and decide. */
  method CompareImages<Img, Desc>(image1: Img, image2: Img, params: Params, fx: Features<Img, Desc>)
    returns (r: Option<DetectionResult>)
    ensures r == Judge(image1, image2, params, fx)
    ensures var s := ReadSettings(params);
      r.None? <==> !MatchingFits(fx, image1, image2, fx.detect(image1, s.fastThreshold), fx.detect(image2, s.fastThreshold),
                                 s.rejectionThreshold)
    ensures r.Some? ==> (r.value.sameCar <==> (r.value.indexLarge == 0 || r.value.indexLarge == 1))
    ensures r.Some? && !r.value.sameCar ==> r.value.indexLarge == -1
  {
    var fastThreshold := AsInt(params, "fast_threshold", 5);
    var visualize := AsBool(params, "visualize", true);
    var keypoints1 := fx.detect(image1, fastThreshold);
    var keypoints2 := fx.detect(image2, fastThreshold);
    var rejectionThreshold := AsInt(params, "rejection_threshold", 300);
    var c := ComputeGoodMatches(image1, image2, keypoints1, keypoints2, fx, rejectionThreshold);
    if c.None? {
      return None;
    }
    if SameCar(|c.value.good|, AsInt(params, "similarity_threshold", 30)) {
      var indexLarge := ComputeIndexLarge(c.value.keypoints1, c.value.keypoints2, c.value.good, fx.spread);
      return Some(DetectionResult(true, indexLarge));
    }
    return Some(DetectionResult(false, -1));
  }

  /** The `visualize` parameter never changes a decision. */
  lemma VisualizeIgnored<Img, Desc>(image1: Img, image2: Img, params: Params, fx: Features<Img, Desc>, v: Node)
    ensures Judge(image1, image2, params["visualize" := v], fx) == Judge(image1, image2, params, fx)
  {
    var p := params["visualize" := v];
    assert ReadSettings(p).fastThreshold == ReadSettings(params).fastThreshold;
    assert ReadSettings(p).rejectionThreshold == ReadSettings(params).rejectionThreshold;
    assert ReadSettings(p).similarityThreshold == ReadSettings(params).similarityThreshold;
  }

  /** A parameters file that sets none of the thresholds decides as fast 5, rejection 300, similarity 30. */
  lemma MissingThresholdsDefault<Img, Desc>(image1: Img, image2: Img, params: Params, fx: Features<Img, Desc>)
    requires "fast_threshold" !in params && "rejection_threshold" !in params && "similarity_threshold" !in params
    ensures Judge(image1, image2, params, fx) == Judge(image1, image2, map[], fx)
    ensures var c := Correspond(fx, image1, image2, fx.detect(image1, 5), fx.detect(image2, 5), 300);
      (Judge(image1, image2, params, fx).Some? <==> c.Some?) &&
      (c.Some? ==> (Judge(image1, image2, params, fx).value.sameCar <==> |c.value.good| > 30))
  {
    assert ReadSettings(params).fastThreshold == 5 == ReadSettings(map[]).fastThreshold;
  }

  // ------------------------------------------------------------------- driver

  /** The line main writes for one result: `same_car index_large`, a bool printing as 0 or 1. */
  function ResultLine(r: DetectionResult): string
  {
    (if r.sameCar then "1" else "0") + " " + DecimalString(r.indexLarge) + "\n"
  }

  /** Every result compareImages can return is written as one of three lines. */
  lemma ResultLineForms(r: DetectionResult)
    requires r.sameCar <==> (r.indexLarge == 0 || r.indexLarge == 1)
    requires !r.sameCar ==> r.indexLarge == -1
    ensures ResultLine(r) == "1 0\n" || ResultLine(r) == "1 1\n" || ResultLine(r) == "0 -1\n"
  {
    assert NatDigits(0) == "0" && NatDigits(1) == "1";
  }

  /** Both images of pair k of the token list load. */
  predicate PairLoads<Img>(tokens: seq<string>, k: nat, load: string -> Option<Img>)
    requires 2 * k + 1 < |tokens|
  {
    load(tokens[2 * k]).Some? && load(tokens[2 * k + 1]).Some?
  }

  /** What compareImages returns for pair k of the token list, both of whose images load. */
  ghost function PairResult<Img, Desc>(tokens: seq<string>, k: nat, params: Params, load: string -> Option<Img>,
                                       fx: Features<Img, Desc>): Option<DetectionResult>
    requires 2 * k + 1 < |tokens| && PairLoads(tokens, k, load)
  {
    Judge(load(tokens[2 * k]).value, load(tokens[2 * k + 1]).value, params, fx)
  }

  /** Each line is the result line of the pair of the same number, both of whose images load and match. */
  ghost predicate LinesFor<Img, Desc>(tokens: seq<string>, lines: seq<string>, params: Params,
                                      load: string -> Option<Img>, fx: Features<Img, Desc>)
  {
    forall k: nat :: k < |lines| ==>
      2 * k + 1 < |tokens| && PairLoads(tokens, k, load) && PairResult(tokens, k, params, load, fx).Some? &&
      lines[k] == ResultLine(PairResult(tokens, k, params, load, fx).value)
  }

  /** Appending the line of the next pair keeps the lines in step with the pairs. */
  lemma AppendPairLine<Img, Desc>(tokens: seq<string>, lines: seq<string>, params: Params,
                                  load: string -> Option<Img>, fx: Features<Img, Desc>, line: string)
    requires 2 * |lines| + 1 < |tokens| && PairLoads(tokens, |lines|, load)
    requires LinesFor(tokens, lines, params, load, fx)
    requires PairResult(tokens, |lines|, params, load, fx).Some?
    requires line == ResultLine(PairResult(tokens, |lines|, params, load, fx).value)
    ensures LinesFor(tokens, lines + [line], params, load, fx)
  {
  }

  /**
   * How main's loop ends: after the last complete pair, at an image that does
   * not load, or at a pair for which computeGoodMatches reads out of bounds.
   */
  datatype Stop = Finished | MissingImage(path: string) | UndefinedMatches

  /**
   * main's loop: read two path tokens at a time, load both images (a missing
   * image throws, which ends the run), compare them and write one result line.
   * A pair whose matches cannot be read ends the run too. A trailing unpaired
   * token is never read as a pair.
   */
  method RunPairs<Img, Desc>(tokens: seq<string>, params: Params, load: string -> Option<Img>, fx: Features<Img, Desc>)
    returns (lines: seq<string>, stop: Stop)
    ensures 2 * |lines| <= |tokens|
    ensures LinesFor(tokens, lines, params, load, fx)
    ensures stop.Finished? <==> |tokens| < 2 * |lines| + 2
    ensures stop.MissingImage? ==>
      2 * |lines| + 1 < |tokens| && !PairLoads(tokens, |lines|, load) &&
      stop.path == (if load(tokens[2 * |lines|]).None? then tokens[2 * |lines|] else tokens[2 * |lines| + 1])
    ensures stop.UndefinedMatches? ==>
      2 * |lines| + 1 < |tokens| && PairLoads(tokens, |lines|, load) && PairResult(tokens, |lines|, params, load, fx).None?
  {
    lines := [];
    var i: nat := 0;
    while 2 * i + 1 < |tokens|
      invariant 2 * i <= |tokens|
      invariant |lines| == i
      invariant LinesFor(tokens, lines, params, load, fx)
    {
      var file1, file2 := tokens[2 * i], tokens[2 * i + 1];
      var image1 := load(file1);
      if image1.None? {
        return lines, MissingImage(file1);
      }
      var image2 := load(file2);
      if image2.None? {
        return lines, MissingImage(file2);
      }
      var visualize := AsBool(params, "visualize", true);
      assert PairLoads(tokens, i, load);
      var result := CompareImages(image1.value, image2.value, params, fx);
      if result.None? {
        return lines, UndefinedMatches;
      }
      AppendPairLine(tokens, lines, params, load, fx, ResultLine(result.value));
      lines := lines + [ResultLine(result.value)];
      i := i + 1;
    }
    return lines, Finished;
  }
}
