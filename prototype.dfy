/**
 * The first prototype of the car-pairs tool: for each pair of image paths it
 * matches SIFT descriptors by brute force, scans the match distances for their
 * minimum and maximum, keeps the matches closer than 350, and answers `true`
 * whatever it found. The answer is written with an operator-precedence slip,
 * so the results file receives the bare character `1` per pair.
 */
module Prototype {
  import opened Optional
  import opened Pairs

  /** std::numeric_limits<double>::max(). */
  const DoubleMax: real := 1.7976931348623157e308

  /**
   * std::numeric_limits<double>::min(): the smallest positive normal double
   * (2^-1022), not the most negative one, written as its 17-digit decimal; as
   * the start value of a maximum only its being a tiny positive number matters.
   */
  const DoubleMin: real := 2.2250738585072014e-308

  /** The fixed distance below which a match is kept. */
  const GoodDistance: int := 350

  /** What SIFT detection, description and brute-force matching leave for two images. */
  datatype Observation = Observation(rows: nat, matches: seq<Match>)

  /** The brute-force matcher returns at least one match per descriptor row of the first image. */
  type Observer<!Img(!new)> = observe: (Img, Img) -> Observation |
    forall image1, image2 :: observe(image1, image2).rows <= |observe(image1, image2).matches|
    witness (image1: Img, image2: Img) => Observation(0, [])

  /**
   * The min/max scan over the first `rows` distances, starting from the largest
   * double and the smallest positive double.
   */
  method ScanDistances(matches: seq<Match>, rows: nat) returns (minDist: real, maxDist: real)
    requires rows <= |matches|
    ensures forall i :: 0 <= i < rows ==> minDist <= matches[i].distance <= maxDist
    ensures minDist <= DoubleMax && DoubleMin <= maxDist
    ensures minDist == DoubleMax || exists i :: 0 <= i < rows && minDist == matches[i].distance
    ensures maxDist == DoubleMin || exists i :: 0 <= i < rows && maxDist == matches[i].distance
    ensures rows > 0 ==> exists i :: 0 <= i < rows && minDist == matches[i].distance
    ensures rows == 0 ==> minDist == DoubleMax && maxDist == DoubleMin
    ensures (forall i :: 0 <= i < rows ==> matches[i].distance <= DoubleMin) ==> maxDist == DoubleMin
  {
    maxDist, minDist := DoubleMin, DoubleMax;
    var i := 0;
    while i < rows
      invariant 0 <= i <= rows
      invariant forall k :: 0 <= k < i ==> minDist <= matches[k].distance <= maxDist
      invariant minDist <= DoubleMax && DoubleMin <= maxDist
      invariant minDist == DoubleMax || exists k :: 0 <= k < i && minDist == matches[k].distance
      invariant maxDist == DoubleMin || exists k :: 0 <= k < i && maxDist == matches[k].distance
      invariant i > 0 ==> exists k :: 0 <= k < i && minDist == matches[k].distance
    {
      var dist := matches[i].distance;
      if dist < minDist {
        minDist := dist;
      }
      if dist > maxDist {
        maxDist := dist;
      }
      i := i + 1;
    }
  }

  /** What one call of the prototype's compareImages computes. */
  datatype Comparison = Comparison(same: bool, minDist: real, maxDist: real, good: seq<Match>)

  /**
   * compareImages: scan the distances, keep the matches below 350, and return
   * true. The distances and the kept matches are only printed and drawn.
   */
  method CompareImages<Img(!new)>(image1: Img, image2: Img, observe: Observer<Img>) returns (c: Comparison)
    ensures c.same
    ensures c.good == Filter(observe(image1, image2).matches[..observe(image1, image2).rows], GoodDistance)
    ensures forall i :: 0 <= i < observe(image1, image2).rows ==>
      c.minDist <= observe(image1, image2).matches[i].distance <= c.maxDist
    ensures observe(image1, image2).rows == 0 ==> c.minDist == DoubleMax && c.maxDist == DoubleMin
  {
    var observation := observe(image1, image2);
    var minDist, maxDist := ScanDistances(observation.matches, observation.rows);
    var good := FilterRows(observation.matches, observation.rows, GoodDistance);
    return Comparison(true, minDist, maxDist, good);
  }

  /** `results_file << result ? "true" : "false"`: the stream receives the bool, printed as a digit; the string is discarded. */
  function WrittenFor(result: bool): (text: string)
    ensures |text| == 1
    ensures result ==> text == "1"
    ensures !result ==> text == "0"
  {
    if result then "1" else "0"
  }

  /**
   * What `data_file >> threshold` makes of the first token: the number its
   * longest numeric prefix spells, and the rest of the token, which stays in the
   * stream; None when no number begins the token.
   */
  datatype FloatRead = FloatRead(value: real, rest: string)

  /** A reader consumes a non-empty prefix of the token and leaves the rest. */
  type FloatReader = read: string -> Option<FloatRead> |
    forall t :: read(t).Some? ==> |read(t).value.rest| < |t| && read(t).value.rest == t[|t| - |read(t).value.rest|..]
    witness (t: string) => None

  /**
   * The strings the loop reads as image paths once a number was read from the
   * first token: what was left of that token, when anything was, then the
   * other tokens.
   */
  function Paths(tokens: seq<string>, readFloat: FloatReader): (paths: seq<string>)
    requires tokens != [] && readFloat(tokens[0]).Some?
    ensures var rest := readFloat(tokens[0]).value.rest;
      |tokens| - 1 <= |paths| <= |tokens| &&
      paths[|paths| - (|tokens| - 1)..] == tokens[1..] &&
      (|paths| == |tokens| <==> rest != []) &&
      (rest != [] ==> paths[0] == rest && rest == tokens[0][|tokens[0]| - |rest|..])
  {
    var rest := readFloat(tokens[0]).value.rest;
    var paths := (if rest == [] then [] else [rest]) + tokens[1..];
    assert paths[|paths| - (|tokens| - 1)..] == tokens[1..];
    paths
  }

  /** The loop of main over the image paths: one answer per pair of paths whose images both load. */
  method AnswerPairs<Img(!new)>(paths: seq<string>, load: string -> Option<Img>, observe: Observer<Img>)
    returns (output: string, failedPath: Option<string>)
    ensures forall k :: 0 <= k < |output| ==> output[k] == '1'
    ensures 2 * |output| <= |paths|
    ensures forall k: nat :: k < |output| ==> 2 * k + 1 < |paths| && PairLoads(paths, k, load)
    ensures failedPath.None? <==> |paths| < 2 * |output| + 2
    ensures failedPath.Some? ==>
      2 * |output| + 1 < |paths| && !PairLoads(paths, |output|, load) &&
      failedPath.value == if load(paths[2 * |output|]).None? then paths[2 * |output|] else paths[2 * |output| + 1]
  {
    output := [];
    var i: nat := 0;
    while 2 * i + 1 < |paths|
      invariant 2 * i <= |paths|
      invariant |output| == i
      invariant forall k :: 0 <= k < |output| ==> output[k] == '1'
      invariant forall k: nat :: k < i ==> 2 * k + 1 < |paths| && PairLoads(paths, k, load)
    {
      var file1, file2 := paths[2 * i], paths[2 * i + 1];
      var image1 := load(file1);
      if image1.None? {
        return output, Some(file1);
      }
      var image2 := load(file2);
      if image2.None? {
        return output, Some(file2);
      }
      assert PairLoads(paths, i, load);
      var result := CompareImages(image1.value, image2.value, observe);
      output := output + WrittenFor(result.same);
      i := i + 1;
    }
    return output, None;
  }

  /**
   * main: `>> threshold` reads a number from the front of the first token (0
   * and nothing else read when none begins it); what is left of that token and
   * the tokens after it are then taken two at a time as image paths, and each
   * pair's answer is written with no separator. An image that fails to load
   * throws and ends the run.
   */
  method RunPrototype<Img(!new)>(tokens: seq<string>, readFloat: FloatReader,
                                 load: string -> Option<Img>, observe: Observer<Img>)
    returns (threshold: real, output: string, failedPath: Option<string>)
    ensures threshold == if tokens != [] && readFloat(tokens[0]).Some? then readFloat(tokens[0]).value.value else 0.0
    ensures forall k :: 0 <= k < |output| ==> output[k] == '1'
    ensures (tokens == [] || readFloat(tokens[0]).None?) ==> output == [] && failedPath.None?
    ensures tokens != [] && readFloat(tokens[0]).Some? ==>
      var paths := Paths(tokens, readFloat);
      2 * |output| <= |paths| &&
      (forall k: nat :: k < |output| ==> 2 * k + 1 < |paths| && PairLoads(paths, k, load)) &&
      (failedPath.None? <==> |paths| < 2 * |output| + 2) &&
      (failedPath.Some? ==>
        2 * |output| + 1 < |paths| && !PairLoads(paths, |output|, load) &&
        failedPath.value == if load(paths[2 * |output|]).None? then paths[2 * |output|] else paths[2 * |output| + 1])
  {
    threshold, output, failedPath := 0.0, [], None;
    if tokens == [] || readFloat(tokens[0]).None? {
      return;
    }
    threshold := readFloat(tokens[0]).value.value;
    output, failedPath := AnswerPairs(Paths(tokens, readFloat), load, observe);
  }

  /**
   * A data file the generators write starts with a path, so `>> threshold`
   * either stops the run at once or eats a numeric prefix of the first path,
   * and the rest of that path becomes the first image of the first pair.
   */
  lemma FirstPathSplit(tokens: seq<string>, readFloat: FloatReader)
    requires |tokens| >= 2 && readFloat(tokens[0]).Some? && readFloat(tokens[0]).value.rest != []
    ensures var paths := Paths(tokens, readFloat);
      |paths| >= 2 && paths[0] != tokens[0] && paths[0] == readFloat(tokens[0]).value.rest && paths[1] == tokens[1]
  {
    var paths := Paths(tokens, readFloat);
    assert paths[1..] == paths[|paths| - (|tokens| - 1)..] == tokens[1..];
    assert paths[1] == paths[1..][0];
  }
}
