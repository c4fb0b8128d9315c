/**
 * The data generator under scripts/: group the image directory's listing by
 * car, check the two requested sample counts against the number of cars, then
 * write `samples_same` pairs of two images of one car and `samples_diff` pairs
 * of images of two cars, retiring the cars of each different-car pair so that
 * no later pair uses them. Random choices come from `draw`: the k-th call of
 * `randint(0, len(keys) - 1)` returns `draw(k) % len(keys)`.
 */
module GenerateSplit {
  import opened Optional
  import opened Text
  import opened CarFiles

  datatype Error =
    | MalformedFileName(index: nat)
    | SamplesSameOutOfRange(limit: nat)
    | SamplesDiffOutOfRange(limit: nat)

  // ---------------------------------------------------------- same-car pairs

  /** Line k of both files holds same-car pair k: images 0 and 1 of the car drawn by draw(k). */
  ghost predicate SameWritten(imgDir: string, g: Groups, draw: nat -> nat, data: seq<string>, truth: seq<string>, k: nat)
    requires k < |data| && k < |truth|
  {
    g.keys != [] && SamePairLines(imgDir, g.sequences, Pick(g.keys, draw(k)), data[k], truth[k])
  }

  ghost predicate SameLinesFor(imgDir: string, g: Groups, draw: nat -> nat, data: seq<string>, truth: seq<string>)
  {
    |data| == |truth| && forall k: nat :: k < |data| ==> SameWritten(imgDir, g, draw, data, truth, k)
  }

  lemma SameLinesSnoc(imgDir: string, g: Groups, draw: nat -> nat, data: seq<string>, truth: seq<string>, line: string, truthLine: string)
    requires SameLinesFor(imgDir, g, draw, data, truth)
    requires SameWritten(imgDir, g, draw, data + [line], truth + [truthLine], |data|)
    ensures SameLinesFor(imgDir, g, draw, data + [line], truth + [truthLine])
  {
    forall k: nat | k < |data| + 1 ensures SameWritten(imgDir, g, draw, data + [line], truth + [truthLine], k) {
      if k < |data| {
        assert SameWritten(imgDir, g, draw, data, truth, k);
      }
    }
  }

  /**
   * The first loop: samples_same times, draw a car and write its images 0 and
   * 1 with the index of the one whose sequence id is the larger. A car with a
   * single image raises IndexError before its lines are written.
   */
  method SamePairs(imgDir: string, g: Groups, samplesSame: nat, draw: nat -> nat)
    returns (data: seq<string>, truth: seq<string>, crash: Option<string>)
    requires Consistent(g) && samplesSame <= |g.keys|
    ensures |data| <= samplesSame
    ensures SameLinesFor(imgDir, g, draw, data, truth)
    ensures crash.None? <==> |data| == samplesSame
    ensures crash.Some? ==>
      crash.value == Pick(g.keys, draw(|data|)) && |g.sequences[crash.value]| < 2
  {
    data, truth, crash := [], [], None;
    var i := 0;
    while i < samplesSame
      invariant i <= samplesSame && |data| == i
      invariant SameLinesFor(imgDir, g, draw, data, truth)
    {
      var car := Pick(g.keys, draw(i));
      var ids := g.sequences[car];
      if |ids| < 2 {
        return data, truth, Some(car);
      }
      var line := DataLine(ImagePath(imgDir, car, ids[0]), ImagePath(imgDir, car, ids[1]));
      var truthLine := SameTruth(ids[0], ids[1]);
      SameLinesSnoc(imgDir, g, draw, data, truth, line, truthLine);
      data, truth := data + [line], truth + [truthLine];
      i := i + 1;
    }
  }

  // ----------------------------------------------------- different-car pairs

  /**
   * The key list after popping two cars from the dictionary and rebuilding
   * the list from what is left: a dict keeps its insertion order, so this is
   * the old list without the two cars.
   */
  function Retire(keys: seq<string>, car1: string, car2: string): seq<string>
  {
    Remove(Remove(keys, car1), car2)
  }

  /** Retiring two listed cars removes both and no other, and leaves a distinct list distinct. */
  lemma RetireKeys(keys: seq<string>, car1: string, car2: string)
    requires Distinct(keys) && car1 in keys && car2 in keys
    ensures Distinct(Retire(keys, car1, car2))
    ensures |Retire(keys, car1, car2)| >= |keys| - 2
    ensures forall c :: c in Retire(keys, car1, car2) <==> c in keys && c != car1 && c != car2
  {
    RemoveSpec(keys, car1);
    RemoveSpec(Remove(keys, car1), car2);
  }

  /** A car left after retiring two was there before. */
  lemma RetireShrinks(keys: seq<string>, car1: string, car2: string, c: string)
    requires c in Retire(keys, car1, car2)
    ensures c in keys && c != car1 && c != car2
  {
    RemoveSpec(Remove(keys, car1), car2);
    RemoveSpec(keys, car1);
  }

  /** The dictionary entries of the listed keys. */
  function Restrict(sequences: map<string, seq<string>>, keys: seq<string>): map<string, seq<string>>
  {
    map c | c in keys && c in sequences :: sequences[c]
  }

  lemma RestrictLookup(sequences: map<string, seq<string>>, keys: seq<string>, c: string)
    requires c in keys && c in sequences
    ensures c in Restrict(sequences, keys) && Restrict(sequences, keys)[c] == sequences[c]
  {
  }

  /** Popping two cars from the dictionary leaves the entries of the retired key list. */
  lemma RestrictRetire(sequences: map<string, seq<string>>, keys: seq<string>, car1: string, car2: string)
    ensures Restrict(sequences, keys) - {car1, car2} == Restrict(sequences, Retire(keys, car1, car2))
  {
    RemoveSpec(keys, car1);
    RemoveSpec(Remove(keys, car1), car2);
  }

  /** The key list before different-car pair j, the first pair's draws being draw(start) and draw(start + 1). */
  ghost function DiffKeys(keys: seq<string>, draw: nat -> nat, start: nat, j: nat): seq<string>
  {
    if j == 0 then keys
    else
      var s := DiffKeys(keys, draw, start, j - 1);
      if s == [] then s
      else Retire(s, Pick(s, draw(start + 2 * (j - 1))), Pick(s, draw(start + 2 * (j - 1) + 1)))
  }

  lemma DiffKeysStep(keys: seq<string>, draw: nat -> nat, start: nat, j: nat)
    ensures var s := DiffKeys(keys, draw, start, j);
      DiffKeys(keys, draw, start, j + 1) ==
        if s == [] then s else Retire(s, Pick(s, draw(start + 2 * j)), Pick(s, draw(start + 2 * j + 1)))
  {
  }

  /** The pass before pair j has retired at most 2 * j cars and left a distinct list of listed cars. */
  lemma {:induction false} DiffKeysShrink(keys: seq<string>, draw: nat -> nat, start: nat, j: nat)
    requires Distinct(keys)
    ensures Distinct(DiffKeys(keys, draw, start, j))
    ensures |DiffKeys(keys, draw, start, j)| >= |keys| - 2 * j
    ensures forall c :: c in DiffKeys(keys, draw, start, j) ==> c in keys
  {
    if j > 0 {
      var i := j - 1;
      DiffKeysShrink(keys, draw, start, i);
      var s := DiffKeys(keys, draw, start, i);
      if s != [] {
        RetireKeys(s, Pick(s, draw(start + 2 * i)), Pick(s, draw(start + 2 * i + 1)));
        DiffKeysStep(keys, draw, start, i);
      }
    }
  }

  /** A car still listed after pass j was listed before it. */
  lemma DiffKeysNext(keys: seq<string>, draw: nat -> nat, start: nat, j: nat, c: string)
    requires c in DiffKeys(keys, draw, start, j + 1)
    ensures c in DiffKeys(keys, draw, start, j)
  {
    var s := DiffKeys(keys, draw, start, j);
    DiffKeysStep(keys, draw, start, j);
    if s != [] {
      RetireShrinks(s, Pick(s, draw(start + 2 * j)), Pick(s, draw(start + 2 * j + 1)), c);
    }
  }

  /** The key list only loses cars from pass to pass: a car listed before pass j2 was listed before every earlier pass. */
  lemma {:induction false} DiffKeysLater(keys: seq<string>, draw: nat -> nat, start: nat, j1: nat, j2: nat, c: string)
    requires j1 < j2 && c in DiffKeys(keys, draw, start, j2)
    ensures c in DiffKeys(keys, draw, start, j1 + 1)
    decreases j2 - j1
  {
    if j1 + 1 < j2 {
      DiffKeysLater(keys, draw, start, j1 + 1, j2, c);
      DiffKeysNext(keys, draw, start, j1 + 1, c);
    }
  }

  /** The two cars of different-car pair j. */
  ghost function DiffCars(keys: seq<string>, draw: nat -> nat, start: nat, j: nat): (cars: (string, string))
    requires DiffKeys(keys, draw, start, j) != []
  {
    var s := DiffKeys(keys, draw, start, j);
    (Pick(s, draw(start + 2 * j)), Pick(s, draw(start + 2 * j + 1)))
  }

  /** The cars of a different-car pair are never drawn again by a later pair. */
  lemma DiffPairsDisjoint(keys: seq<string>, draw: nat -> nat, start: nat, j1: nat, j2: nat)
    requires Distinct(keys) && j1 < j2
    requires DiffKeys(keys, draw, start, j1) != [] && DiffKeys(keys, draw, start, j2) != []
    ensures DiffCars(keys, draw, start, j2).0 != DiffCars(keys, draw, start, j1).0
    ensures DiffCars(keys, draw, start, j2).0 != DiffCars(keys, draw, start, j1).1
    ensures DiffCars(keys, draw, start, j2).1 != DiffCars(keys, draw, start, j1).0
    ensures DiffCars(keys, draw, start, j2).1 != DiffCars(keys, draw, start, j1).1
  {
    DiffKeysShrink(keys, draw, start, j1);
    var s := DiffKeys(keys, draw, start, j1);
    var cars := DiffCars(keys, draw, start, j1);
    var later := DiffKeys(keys, draw, start, j2);
    assert cars.0 !in later && cars.1 !in later by {
      RetireKeys(s, cars.0, cars.1);
      DiffKeysStep(keys, draw, start, j1);
      if cars.0 in later {
        DiffKeysLater(keys, draw, start, j1, j2, cars.0);
      }
      if cars.1 in later {
        DiffKeysLater(keys, draw, start, j1, j2, cars.1);
      }
    }
    assert DiffCars(keys, draw, start, j2).0 in later && DiffCars(keys, draw, start, j2).1 in later;
  }

  /**
   * Line k of both files holds different-car pair k: image 0 of the first
   * car drawn, image 1 of the second, and the truth `0 -1`.
   */
  ghost predicate DiffWritten(imgDir: string, g: Groups, draw: nat -> nat, start: nat,
                              data: seq<string>, truth: seq<string>, k: nat)
    requires k < |data| && k < |truth|
  {
    DiffKeys(g.keys, draw, start, k) != [] &&
    var (car1, car2) := DiffCars(g.keys, draw, start, k);
    DiffPairLines(imgDir, g.sequences, car1, car2, data[k], truth[k])
  }

  ghost predicate DiffLinesFor(imgDir: string, g: Groups, draw: nat -> nat, start: nat, data: seq<string>, truth: seq<string>)
  {
    |data| == |truth| && forall k: nat :: k < |data| ==> DiffWritten(imgDir, g, draw, start, data, truth, k)
  }

  lemma DiffLinesSnoc(imgDir: string, g: Groups, draw: nat -> nat, start: nat,
                      data: seq<string>, truth: seq<string>, line: string, truthLine: string)
    requires DiffLinesFor(imgDir, g, draw, start, data, truth)
    requires DiffWritten(imgDir, g, draw, start, data + [line], truth + [truthLine], |data|)
    ensures DiffLinesFor(imgDir, g, draw, start, data + [line], truth + [truthLine])
  {
    forall k: nat | k < |data| + 1 ensures DiffWritten(imgDir, g, draw, start, data + [line], truth + [truthLine], k) {
      if k < |data| {
        assert DiffWritten(imgDir, g, draw, start, data, truth, k);
      }
    }
  }

  /** What pass j of the loop relies on: both cars drawn are listed with at least one image, and retiring them gives the next key list. */
  lemma DiffPass(g: Groups, draw: nat -> nat, start: nat, j: nat)
    requires Consistent(g) && DiffKeys(g.keys, draw, start, j) != []
    ensures var keys := DiffKeys(g.keys, draw, start, j);
      var car1, car2 := Pick(keys, draw(start + 2 * j)), Pick(keys, draw(start + 2 * j + 1));
      (car1, car2) == DiffCars(g.keys, draw, start, j) &&
      car1 in g.sequences && car2 in g.sequences && |g.sequences[car1]| >= 1 &&
      DiffKeys(g.keys, draw, start, j + 1) == Retire(keys, car1, car2)
  {
    DiffKeysShrink(g.keys, draw, start, j);
    DiffKeysStep(g.keys, draw, start, j);
  }

  /** The crash of different-car pair j: its second car has a single image. */
  ghost predicate DiffCrash(g: Groups, draw: nat -> nat, start: nat, j: nat, car: string)
  {
    DiffKeys(g.keys, draw, start, j) != [] && car == DiffCars(g.keys, draw, start, j).1 &&
    car in g.sequences && |g.sequences[car]| < 2
  }

  /**
   * The second loop: samples_diff times, draw two cars from the remaining
   * keys, write image 0 of the first and image 1 of the second with the truth
   * `0 -1`, then pop both cars and rebuild the key list. A second car with a
   * single image raises IndexError before its lines are written.
   */
  method DiffPairs(imgDir: string, g: Groups, start: nat, samplesDiff: nat, draw: nat -> nat)
    returns (data: seq<string>, truth: seq<string>, crash: Option<string>)
    requires Consistent(g) && 2 * samplesDiff <= |g.keys|
    ensures |data| <= samplesDiff
    ensures DiffLinesFor(imgDir, g, draw, start, data, truth)
    ensures crash.None? <==> |data| == samplesDiff
    ensures crash.Some? ==> DiffCrash(g, draw, start, |data|, crash.value)
  {
    data, truth, crash := [], [], None;
    var keys, sequences := g.keys, g.sequences;
    var j := 0;
    while j < samplesDiff
      invariant j <= samplesDiff && |data| == j
      invariant keys == DiffKeys(g.keys, draw, start, j)
      invariant sequences == Restrict(g.sequences, keys)
      invariant DiffLinesFor(imgDir, g, draw, start, data, truth)
    {
      assert keys != [] by {
        DiffKeysShrink(g.keys, draw, start, j);
      }
      var car1 := Pick(keys, draw(start + 2 * j));
      var car2 := Pick(keys, draw(start + 2 * j + 1));
      DiffPass(g, draw, start, j);
      RestrictLookup(g.sequences, keys, car1);
      RestrictLookup(g.sequences, keys, car2);
      var ids1, ids2 := sequences[car1], sequences[car2];
      if |ids2| < 2 {
        return data, truth, Some(car2);
      }
      var line := DataLine(ImagePath(imgDir, car1, ids1[0]), ImagePath(imgDir, car2, ids2[1]));
      var truthLine := DiffTruth();
      DiffLinesSnoc(imgDir, g, draw, start, data, truth, line, truthLine);
      data, truth := data + [line], truth + [truthLine];
      RestrictRetire(g.sequences, keys, car1, car2);
      sequences := sequences - {car1, car2};
      keys := Retire(keys, car1, car2);
      j := j + 1;
    }
  }

  // -------------------------------------------------------------- the script

  /**
   * The whole script after its arguments are read: group the listing, check
   * `0 <= samples_same <= len(keys)` and `0 <= samples_diff <= floor(len(keys) / 2)`,
   * then write the same-car pairs followed by the different-car pairs, whose
   * draws follow the same-car draws.
   */
  method GenerateData(imgDir: string, samplesSame: int, samplesDiff: int, files: seq<string>, draw: nat -> nat)
    returns (outcome: Outcome<Error>)
    ensures (outcome.Rejected? && outcome.error.MalformedFileName?) <==> !WellFormed(files)
    ensures outcome.Rejected? && outcome.error.MalformedFileName? ==>
      var i := outcome.error.index;
      i < |files| && '_' !in files[i] && WellFormed(files[..i])
    ensures WellFormed(files) ==>
      var keys := Group(files).keys;
      (outcome == Rejected(SamplesSameOutOfRange(|keys|)) <==> samplesSame < 0 || samplesSame > |keys|) &&
      (outcome == Rejected(SamplesDiffOutOfRange(|keys| / 2)) <==>
        0 <= samplesSame <= |keys| && (samplesDiff < 0 || samplesDiff > |keys| / 2)) &&
      (outcome.Wrote? <==> 0 <= samplesSame <= |keys| && 0 <= samplesDiff <= |keys| / 2)
    ensures outcome.Wrote? ==>
      WellFormed(files) && 0 <= samplesSame && 0 <= samplesDiff &&
      WrittenFor(imgDir, samplesSame, samplesDiff, Group(files), draw, outcome.data, outcome.truth, outcome.crash)
  {
    var grouping := GroupSequences(files);
    if grouping.MalformedName? {
      return Rejected(MalformedFileName(grouping.index));
    }
    var g := grouping.groups;
    GroupConsistent(files);
    if samplesSame < 0 || samplesSame > |g.keys| {
      return Rejected(SamplesSameOutOfRange(|g.keys|));
    }
    if samplesDiff < 0 || samplesDiff > |g.keys| / 2 {
      return Rejected(SamplesDiffOutOfRange(|g.keys| / 2));
    }
    var sameData, sameTruth, crash := SamePairs(imgDir, g, samplesSame, draw);
    if crash.Some? {
      return Wrote(sameData, sameTruth, crash);
    }
    var diffData, diffTruth, diffCrash := DiffPairs(imgDir, g, samplesSame, samplesDiff, draw);
    return Wrote(sameData + diffData, sameTruth + diffTruth, diffCrash);
  }

  /**
   * What a run that got past the checks wrote: the same-car lines first, then,
   * when all of them were written, the different-car lines; the run stops at
   * the first car without a second image.
   */
  ghost predicate WrittenFor(imgDir: string, samplesSame: nat, samplesDiff: nat, g: Groups, draw: nat -> nat,
                             data: seq<string>, truth: seq<string>, crash: Option<string>)
  {
    |data| == |truth| && |data| <= samplesSame + samplesDiff &&
    (crash.None? <==> |data| == samplesSame + samplesDiff) &&
    if |data| < samplesSame then
      SameLinesFor(imgDir, g, draw, data, truth) &&
      (crash.Some? ==>
        g.keys != [] && crash.value == Pick(g.keys, draw(|data|)) &&
        crash.value in g.sequences && |g.sequences[crash.value]| < 2)
    else
      SameLinesFor(imgDir, g, draw, data[..samplesSame], truth[..samplesSame]) &&
      DiffLinesFor(imgDir, g, draw, samplesSame, data[samplesSame..], truth[samplesSame..]) &&
      (crash.Some? ==> DiffCrash(g, draw, samplesSame, |data| - samplesSame, crash.value))
  }
}
