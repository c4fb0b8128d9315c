/**
 * The data generator at the top of the repository: group the image
 * directory's listing by car, shuffle the car list, check `samples` against
 * twice the number of cars, then write `samples // 2` same-car pairs, one per
 * car in shuffled order, followed by the remaining different-car pairs, each
 * of two cars drawn from the whole shuffled list. The shuffle's k-th call of
 * `randbelow(i + 1)` returns `shuffleDraw(k) % (i + 1)`; the k-th call of
 * `randint(0, len(keys) - 1)` returns `pickDraw(k) % len(keys)`.
 */
module GenerateShuffled {
  import opened Optional
  import opened Text
  import opened CarFiles

  datatype Error =
    | MalformedFileName(index: nat)
    | TooManySamples(limit: nat)

  // ------------------------------------------------------------- the shuffle

  /** The list with the elements at positions i and j exchanged. */
  function Swap(s: seq<string>, i: nat, j: nat): (r: seq<string>)
    requires i < |s| && j < |s|
    ensures |r| == |s| && r[i] == s[j] && r[j] == s[i]
    ensures forall k :: 0 <= k < |s| && k != i && k != j ==> r[k] == s[k]
  {
    s[i := s[j]][j := s[i]]
  }

  /** Exchanging two elements keeps the multiset of elements. */
  lemma SwapPermutes(s: seq<string>, i: nat, j: nat)
    requires i < |s| && j < |s|
    ensures multiset(Swap(s, i, j)) == multiset(s)
  {
    var t := s[i := s[j]];
    assert multiset(t) == multiset(s) - multiset{s[i]} + multiset{s[j]};
    assert multiset(t[j := s[i]]) == multiset(t) - multiset{t[j]} + multiset{s[i]};
  }

  /**
   * CPython's `random.shuffle` from position i down to position 1: step i
   * exchanges position i with position `randbelow(i + 1)`, which is the
   * shuffle's draw number `len(x) - 1 - i`.
   */
  function ShuffleSteps(s: seq<string>, shuffleDraw: nat -> nat, i: nat): seq<string>
    requires i < |s| || i == 0
    decreases i
  {
    if i == 0 then s
    else ShuffleSteps(Swap(s, i, shuffleDraw(|s| - 1 - i) % (i + 1)), shuffleDraw, i - 1)
  }

  /** Step i of the shuffle, taken first. */
  lemma ShuffleStep(s: seq<string>, shuffleDraw: nat -> nat, i: nat, j: nat)
    requires 0 < i < |s| && j == shuffleDraw(|s| - 1 - i) % (i + 1)
    ensures ShuffleSteps(s, shuffleDraw, i) == ShuffleSteps(Swap(s, i, j), shuffleDraw, i - 1)
  {
  }

  /** `random.shuffle(x)` applied to the list s. */
  function Shuffled(s: seq<string>, shuffleDraw: nat -> nat): seq<string>
  {
    if s == [] then s else ShuffleSteps(s, shuffleDraw, |s| - 1)
  }

  lemma {:induction false} ShuffleStepsPermutes(s: seq<string>, shuffleDraw: nat -> nat, i: nat)
    requires i < |s| || i == 0
    ensures |ShuffleSteps(s, shuffleDraw, i)| == |s|
    ensures multiset(ShuffleSteps(s, shuffleDraw, i)) == multiset(s)
    decreases i
  {
    if i > 0 {
      var j := shuffleDraw(|s| - 1 - i) % (i + 1);
      SwapPermutes(s, i, j);
      ShuffleStepsPermutes(Swap(s, i, j), shuffleDraw, i - 1);
    }
  }

  /** Whatever the draws, the shuffled list holds the same cars, each as often as before. */
  lemma ShuffledPermutes(s: seq<string>, shuffleDraw: nat -> nat)
    ensures |Shuffled(s, shuffleDraw)| == |s|
    ensures multiset(Shuffled(s, shuffleDraw)) == multiset(s)
    ensures forall c :: c in Shuffled(s, shuffleDraw) <==> c in s
    ensures Distinct(s) ==> Distinct(Shuffled(s, shuffleDraw))
  {
    if s != [] {
      ShuffleStepsPermutes(s, shuffleDraw, |s| - 1);
    }
    var r := Shuffled(s, shuffleDraw);
    forall c ensures c in r <==> c in s {
      assert c in r <==> c in multiset(r);
      assert c in s <==> c in multiset(s);
    }
    if Distinct(s) {
      PermutationDistinct(s, r);
    }
  }

  /** `rnd.shuffle(keys)`: the list is shuffled in place. */
  method Shuffle(a: array<string>, shuffleDraw: nat -> nat)
    modifies a
    ensures a[..] == Shuffled(old(a[..]), shuffleDraw)
  {
    if a.Length == 0 {
      return;
    }
    var i := a.Length - 1;
    while i > 0
      invariant 0 <= i < a.Length
      invariant ShuffleSteps(a[..], shuffleDraw, i) == Shuffled(old(a[..]), shuffleDraw)
    {
      var j := shuffleDraw(a.Length - 1 - i) % (i + 1);
      ghost var before := a[..];
      ShuffleStep(before, shuffleDraw, i, j);
      a[i], a[j] := a[j], a[i];
      assert a[..] == Swap(before, i, j);
      i := i - 1;
    }
  }

  // ------------------------------------------------------------------- lines

  /** `len(range(lo, hi))`. */
  function RangeLength(lo: int, hi: int): (n: nat)
    ensures lo <= hi ==> lo + n == hi
    ensures hi <= lo ==> n == 0
  {
    if hi <= lo then 0 else hi - lo
  }

  /** The number of same-car pairs requested, `len(range(samples // 2))`. */
  function SameCount(samples: int): nat
  {
    RangeLength(0, samples / 2)
  }

  /** The number of different-car pairs requested, `len(range(samples // 2, samples))`. */
  function DiffCount(samples: int): nat
  {
    RangeLength(samples / 2, samples)
  }

  /** A non-negative count splits into its half, rounded down, and the rest; a negative count writes nothing. */
  lemma SampleCounts(samples: int)
    ensures samples >= 0 ==> SameCount(samples) + DiffCount(samples) == samples
    ensures samples >= 0 ==> DiffCount(samples) - SameCount(samples) == samples % 2
    ensures samples < 0 ==> SameCount(samples) == 0 && DiffCount(samples) == 0
  {
    if samples < 0 {
      assert samples / 2 >= samples;
    }
  }

  /** Every car of the list has an entry in the dictionary. */
  ghost predicate Listed(g: Groups, order: seq<string>)
  {
    forall k :: 0 <= k < |order| ==> order[k] in g.sequences
  }

  /** Line k of both files holds same-car pair k: images 0 and 1 of car k of the shuffled list. */
  ghost predicate SameLinesFor(imgDir: string, g: Groups, order: seq<string>, data: seq<string>, truth: seq<string>)
  {
    |data| == |truth| && |data| <= |order| &&
    forall k :: 0 <= k < |data| ==> SamePairLines(imgDir, g.sequences, order[k], data[k], truth[k])
  }

  /** Line k of both files holds different-car pair k, of the cars drawn by pickDraw(2k) and pickDraw(2k + 1). */
  ghost predicate DiffLinesFor(imgDir: string, g: Groups, order: seq<string>, pickDraw: nat -> nat,
                               data: seq<string>, truth: seq<string>)
  {
    |data| == |truth| && (data != [] ==> order != []) &&
    forall k :: 0 <= k < |data| ==>
      order != [] &&
      DiffPairLines(imgDir, g.sequences, Pick(order, pickDraw(2 * k)), Pick(order, pickDraw(2 * k + 1)), data[k], truth[k])
  }

  /**
   * The first loop: for the first `count` cars of the shuffled list, write its
   * images 0 and 1 with the index of the one whose sequence id is the larger.
   * A car with a single image raises IndexError before its lines are written.
   */
  method SamePairs(imgDir: string, g: Groups, order: seq<string>, count: nat)
    returns (data: seq<string>, truth: seq<string>, crash: Option<string>)
    requires Listed(g, order) && count <= |order|
    ensures |data| <= count
    ensures SameLinesFor(imgDir, g, order, data, truth)
    ensures crash.None? <==> |data| == count
    ensures crash.Some? ==>
      |data| < count && crash.value == order[|data|] && |g.sequences[crash.value]| < 2
  {
    data, truth, crash := [], [], None;
    var i := 0;
    while i < count
      invariant i <= count && |data| == i
      invariant SameLinesFor(imgDir, g, order, data, truth)
    {
      var car := order[i];
      var ids := g.sequences[car];
      if |ids| < 2 {
        return data, truth, Some(car);
      }
      var line := DataLine(ImagePath(imgDir, car, ids[0]), ImagePath(imgDir, car, ids[1]));
      var truthLine := SameTruth(ids[0], ids[1]);
      data, truth := data + [line], truth + [truthLine];
      i := i + 1;
    }
  }

  /**
   * The second loop: `count` times, draw two cars from the whole list and
   * write image 0 of the first and image 1 of the second with the truth
   * `0 -1`. A second car with a single image raises IndexError before its
   * lines are written.
   */
  method DiffPairs(imgDir: string, g: Groups, order: seq<string>, count: nat, pickDraw: nat -> nat)
    returns (data: seq<string>, truth: seq<string>, crash: Option<string>)
    requires Consistent(g) && Listed(g, order) && (count > 0 ==> order != [])
    ensures |data| <= count
    ensures DiffLinesFor(imgDir, g, order, pickDraw, data, truth)
    ensures crash.None? <==> |data| == count
    ensures crash.Some? ==>
      |data| < count && order != [] && crash.value == Pick(order, pickDraw(2 * |data| + 1)) &&
      crash.value in g.sequences && |g.sequences[crash.value]| < 2
  {
    data, truth, crash := [], [], None;
    var i := 0;
    while i < count
      invariant i <= count && |data| == i
      invariant DiffLinesFor(imgDir, g, order, pickDraw, data, truth)
    {
      var car1 := Pick(order, pickDraw(2 * i));
      var car2 := Pick(order, pickDraw(2 * i + 1));
      var ids1, ids2 := g.sequences[car1], g.sequences[car2];
      if |ids2| < 2 {
        return data, truth, Some(car2);
      }
      var line := DataLine(ImagePath(imgDir, car1, ids1[0]), ImagePath(imgDir, car2, ids2[1]));
      var truthLine := DiffTruth();
      data, truth := data + [line], truth + [truthLine];
      i := i + 1;
    }
  }

  // -------------------------------------------------------------- the script

  /** The car list after `keys = list(sequences.keys())` and the shuffle. */
  ghost function Order(files: seq<string>, shuffleDraw: nat -> nat): seq<string>
    requires WellFormed(files)
  {
    Shuffled(Group(files).keys, shuffleDraw)
  }

  /** The shuffled list names every grouped car exactly once. */
  lemma OrderCars(files: seq<string>, shuffleDraw: nat -> nat)
    requires WellFormed(files)
    ensures |Order(files, shuffleDraw)| == |Group(files).keys|
    ensures Distinct(Order(files, shuffleDraw))
    ensures forall c :: c in Order(files, shuffleDraw) <==> c in Group(files).sequences
    ensures Listed(Group(files), Order(files, shuffleDraw))
  {
    var g := Group(files);
    GroupConsistent(files);
    ShuffledPermutes(g.keys, shuffleDraw);
    var order := Order(files, shuffleDraw);
    forall k | 0 <= k < |order| ensures order[k] in g.sequences {
      assert order[k] in order;
    }
  }

  /**
   * What a run that got past the check wrote: the same-car lines first, then,
   * when all of them were written, the different-car lines; the run stops at
   * the first car without a second image.
   */
  ghost predicate WrittenFor(imgDir: string, samples: int, g: Groups, order: seq<string>, pickDraw: nat -> nat,
                             data: seq<string>, truth: seq<string>, crash: Option<string>)
  {
    var same, diff := SameCount(samples), DiffCount(samples);
    |data| == |truth| && |data| <= same + diff &&
    (crash.None? <==> |data| == same + diff) &&
    if |data| < same then
      SameLinesFor(imgDir, g, order, data, truth) &&
      (crash.Some? ==>
        |data| < |order| && crash.value == order[|data|] &&
        crash.value in g.sequences && |g.sequences[crash.value]| < 2)
    else
      SameLinesFor(imgDir, g, order, data[..same], truth[..same]) &&
      DiffLinesFor(imgDir, g, order, pickDraw, data[same..], truth[same..]) &&
      (crash.Some? ==>
        order != [] && crash.value == Pick(order, pickDraw(2 * (|data| - same) + 1)) &&
        crash.value in g.sequences && |g.sequences[crash.value]| < 2)
  }

  /** Both loops of the script, over the shuffled list. */
  method WritePairs(imgDir: string, samples: int, g: Groups, order: seq<string>, pickDraw: nat -> nat)
    returns (data: seq<string>, truth: seq<string>, crash: Option<string>)
    requires Consistent(g) && Listed(g, order) && samples <= 2 * |order|
    ensures WrittenFor(imgDir, samples, g, order, pickDraw, data, truth, crash)
  {
    SampleCounts(samples);
    var same, diff := SameCount(samples), DiffCount(samples);
    var sameData, sameTruth, sameCrash := SamePairs(imgDir, g, order, same);
    if sameCrash.Some? {
      assert |sameData| < same;
      return sameData, sameTruth, sameCrash;
    }
    var diffData, diffTruth, diffCrash := DiffPairs(imgDir, g, order, diff, pickDraw);
    data, truth, crash := sameData + diffData, sameTruth + diffTruth, diffCrash;
    assert |data| >= same && |data| - same == |diffData|;
    assert data[..same] == sameData && data[same..] == diffData;
    assert truth[..same] == sameTruth && truth[same..] == diffTruth;
  }

  /**
   * The whole script after its arguments are read: group the listing, shuffle
   * the car list, refuse more than twice as many samples as cars, then write
   * the same-car pairs followed by the different-car pairs.
   */
  method GenerateData(imgDir: string, samples: int, files: seq<string>, shuffleDraw: nat -> nat, pickDraw: nat -> nat)
    returns (outcome: Outcome<Error>)
    ensures (outcome.Rejected? && outcome.error.MalformedFileName?) <==> !WellFormed(files)
    ensures outcome.Rejected? && outcome.error.MalformedFileName? ==>
      var i := outcome.error.index;
      i < |files| && '_' !in files[i] && WellFormed(files[..i])
    ensures WellFormed(files) ==>
      var limit := 2 * |Group(files).keys|;
      (outcome == Rejected(TooManySamples(limit)) <==> limit < samples) &&
      (outcome.Wrote? <==> samples <= limit)
    ensures outcome.Wrote? ==>
      WellFormed(files) &&
      WrittenFor(imgDir, samples, Group(files), Order(files, shuffleDraw), pickDraw,
                 outcome.data, outcome.truth, outcome.crash)
  {
    var grouping := GroupSequences(files);
    if grouping.MalformedName? {
      return Rejected(MalformedFileName(grouping.index));
    }
    var g := grouping.groups;
    GroupConsistent(files);
    OrderCars(files, shuffleDraw);
    var a := new string[|g.keys|](k requires 0 <= k < |g.keys| => g.keys[k]);
    assert a[..] == g.keys;
    Shuffle(a, shuffleDraw);
    var order := a[..];
    if 2 * |order| < samples {
      return Rejected(TooManySamples(2 * |order|));
    }
    var data, truth, crash := WritePairs(imgDir, samples, g, order, pickDraw);
    return Wrote(data, truth, crash);
  }
}
