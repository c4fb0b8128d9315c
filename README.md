# car-image-pairs, modelled in Dafny

car-image-pairs decides, for a pair of photographs, whether they show the same
car. If they do, it also says which photograph shows the car larger. The
repository has three parts:

- **Data generators.** Two scripts turn a directory of images named
  `<car_id>_<seq_id>.png` into a data file and a ground-truth file:
  - `scripts/generate_data.py` takes separate same-car and different-car
    sample counts. It retires both cars of each different-car pair.
  - `generate_data.py` takes one sample count. It shuffles the car list.
- **Detectors.** These read the data file and write one
  `same_car index_large` line per pair:
  - `src/pairs.cpp` runs FAST keypoints, SIFT descriptors and FLANN matching.
    It keeps the matches below a rejection threshold and calls two images the
    same car when more than a similarity threshold of them survive. The larger
    car is the image whose matched keypoints have the larger PCA eigenvalue.
  - `pairs.cpp` is an earlier prototype.
- **Evaluators.** `evaluate.py` and `evaluate.cpp` compare a results file
  with a ground-truth file and report two accuracies: the class (same or
  different car) and the index (which image is larger).

The model works on values in exact arithmetic. It is organised by program:

- `text.dfy` (module `Text`): Python's `int()`, `str.strip()`,
  `str.split(sep)` and string `<`, and how `%d` / `<<` print an integer.
- `carfiles.dfy` (`CarFiles`): the file naming both generators share, the
  grouping loop over the directory listing, and the two line formats.
- `generate_split.dfy` (`GenerateSplit`): `scripts/generate_data.py`.
- `generate_shuffled.dfy` (`GenerateShuffled`): `generate_data.py`, with
  `random.shuffle` done in place on an array.
- `pairs.dfy` (`Pairs`): `src/pairs.cpp`. The OpenCV pipeline comes in as
  the functions of a `Features` value. The sort of the good matches is an
  in-place insertion sort on an array.
- `prototype.dfy` (`Prototype`): `pairs.cpp`.
- `tally.dfy` (`Tally`): what both evaluators count.
- `evaluate_py.dfy` (`EvaluatePy`) and `evaluate_cpp.dfy` (`EvaluateCpp`):
  the two evaluators.
- `optional.dfy` (`Optional`): the Option datatype.

Inputs the programs get from outside are parameters of the model:

- the directory listing;
- the random draws, as functions from the draw number to a natural number;
- the tokens `>>` reads from a file;
- whether an image loads;
- the parameters file, as a map.

An exception or an out-of-bounds read that ends a run is a result value:
`Rejected`, a `crash` car, a `failedPath`, a `Stop`, `LengthMismatch`,
`BadLine` or `ZeroLines`.

Where the two generators and the two evaluators differ, the model follows the
code:

- Only `scripts/generate_data.py` retires cars.
- `generate_data.py` takes its same-car pairs from the shuffled list in
  order, so a car with a single image ends its run with IndexError.
- `evaluate.cpp` keeps reading after the ground-truth file ends; the
  variables keep their last values.
- `evaluate.py` stops at the first line that does not parse.

## Model

| member | source | states |
|---|---|---|
| Text.ParseDecimal | evaluate.py:32-33 | `int()` on stripped text succeeds exactly on an optional sign followed by at least one ASCII digit; a `-` sign gives a non-positive value |
| Text.DecimalRoundTrip | scripts/generate_data.py:55 | parsing what `%d` prints gives back the integer printed |
| Text.DecimalPlain | scripts/generate_data.py:55 | `%d` output is non-empty, has no space, and `strip()` leaves it unchanged |
| Text.StripLeading | evaluate.py:15 | `lstrip()` yields a suffix; everything it dropped is whitespace; what remains does not start with whitespace |
| Text.StripTrailing | evaluate.py:15 | `rstrip()` yields a prefix; everything it dropped is whitespace; what remains does not end with whitespace |
| Text.StripKeeps | evaluate.py:15 | text with no whitespace at either end, such as `1 0`, followed by any whitespace, such as a newline, strips back to that text |
| Text.Before | evaluate.py:31 | `split(c)[0]` is the longest prefix without c; it is followed by c unless it is the whole string |
| Text.After | evaluate.py:31 | the string is `split(c)[0]`, then c, then the rest |
| Text.SplitAtFirst | evaluate.py:31-33 | splitting `a + c + b` at its first c, where a has no c, gives back a and b |
| Text.StrLessTrichotomy | scripts/generate_data.py:52 | exactly one of `a < b`, `a == b` and `b < a` holds for Python strings |
| Text.RemoveSpec | scripts/generate_data.py:68-70 | after removing a car from the key list the list holds every other car and not that car; it stays distinct and shrinks by one |
| Text.PermutationDistinct | generate_data.py:33 | reordering a list without duplicates leaves it without duplicates |
| CarFiles.ImagePath | scripts/generate_data.py:7-8 | definition: getImagePath is the directory, a slash, and `<car_id>_<seq_id>.png`; ImageNameRoundTrip states what the name means |
| CarFiles.ParseFileName | scripts/generate_data.py:26-28 | a name fails to split (IndexError) exactly when it has no underscore; otherwise the car id is the text before the first underscore, and the sequence id is the text after it up to the next underscore or dot, or to the end |
| CarFiles.SeqIdDetermined | scripts/generate_data.py:28 | only one sequence id meets that description, so it fixes the parse |
| CarFiles.ImageNameRoundTrip | generate_data.py:6-7 | a name getImagePath writes splits back into its car id and sequence id |
| CarFiles.SizeIndex | scripts/generate_data.py:52 | the index is 0 exactly when sequence id 0 compares greater than sequence id 1, otherwise 1 |
| CarFiles.SizeIndexSwap | generate_data.py:44 | swapping two different sequence ids flips the index; equal ids give 1 |
| CarFiles.SameTruth | scripts/generate_data.py:55 | a same-car ground-truth line is `1 0` or `1 1`, `1 0` exactly when image 0 has the greater sequence id |
| CarFiles.DiffTruth | scripts/generate_data.py:65 | a different-car ground-truth line is `0 -1` |
| CarFiles.Pick | scripts/generate_data.py:49 | `keys[randint(0, len(keys) - 1)]` is a listed car |
| CarFiles.FirstSeen | scripts/generate_data.py:36 | dictionary key order lists each car id once, covering exactly the ids seen |
| CarFiles.GroupKeys | scripts/generate_data.py:25-36 | the key list is the car ids in order of first appearance in the listing |
| CarFiles.GroupDomain | generate_data.py:22-32 | the dictionary's keys are exactly the listed car ids |
| CarFiles.GroupLists | scripts/generate_data.py:30-33 | each car's list holds the sequence ids of that car's files, in listing order |
| CarFiles.GroupTotal | generate_data.py:27-30 | every listed file lands in exactly one car's list |
| CarFiles.GroupConsistent | scripts/generate_data.py:25-33 | after grouping, the keys are distinct, match the dictionary, and each car has at least one image |
| CarFiles.GroupSequences | scripts/generate_data.py:25-33 | the loop fails exactly when some name lacks an underscore, at the first such name; otherwise it ends with the grouping above |
| GenerateSplit.SamePairs | scripts/generate_data.py:48-55 | line k holds images 0 and 1 of the car drawn k-th, with its index; the run stops with IndexError at the first drawn car with one image |
| GenerateSplit.RetireKeys | scripts/generate_data.py:68-70 | popping two listed cars and rebuilding the key list removes those two and no other, and keeps the list distinct |
| GenerateSplit.RestrictRetire | scripts/generate_data.py:68-69 | the dictionary after the two pops holds exactly the entries of the rebuilt key list |
| GenerateSplit.DiffKeysShrink | scripts/generate_data.py:58-70 | before pair j at most 2j cars have been retired, and the key list is distinct |
| GenerateSplit.DiffKeysLater | scripts/generate_data.py:68-70 | a car listed before a later pair was listed before every earlier pair |
| GenerateSplit.DiffPairsDisjoint | scripts/generate_data.py:67-70 | no car of a different-car pair is drawn by any later pair |
| GenerateSplit.DiffPass | scripts/generate_data.py:59-62 | each pass draws two listed cars that have an image 0, and retires them |
| GenerateSplit.DiffPairs | scripts/generate_data.py:58-70 | line k holds image 0 of the first and image 1 of the second car of pair k, with truth `0 -1`; the run stops at the first second car with a single image |
| GenerateSplit.GenerateData | scripts/generate_data.py:22-70 | bad name, `samples_same` outside `[0, len(keys)]`, `samples_diff` outside `[0, floor(len(keys) / 2)]`, checked in that order; exactly otherwise the same-car lines and then the different-car lines are written, whose draws continue the same-car draws |
| GenerateShuffled.Swap | generate_data.py:33 | exchanging two positions changes those two and nothing else |
| GenerateShuffled.SwapPermutes | generate_data.py:33 | an exchange keeps the multiset of cars |
| GenerateShuffled.ShuffleStepsPermutes | generate_data.py:33 | every prefix of Fisher–Yates steps keeps the length and multiset |
| GenerateShuffled.ShuffledPermutes | generate_data.py:33 | for any draws, `shuffle` keeps length, multiset, membership and distinctness |
| GenerateShuffled.Shuffle | generate_data.py:33 | the array ends as CPython's `shuffle` leaves the list for the given draws |
| GenerateShuffled.RangeLength | generate_data.py:40 | definition: `len(range(lo, hi))` is `hi - lo`, or 0 when `hi <= lo`; SampleCounts states what the two counts add up to |
| GenerateShuffled.SampleCounts | generate_data.py:40-49 | `samples // 2` same-car plus the remaining different-car pairs add up to `samples`; the different-car count exceeds the same-car count by `samples % 2`; a negative count writes nothing |
| GenerateShuffled.OrderCars | generate_data.py:32-33 | the shuffled list names every grouped car exactly once |
| GenerateShuffled.SamePairs | generate_data.py:40-47 | line k holds images 0 and 1 of car k of the shuffled list; the run stops at the first such car with a single image |
| GenerateShuffled.DiffPairs | generate_data.py:49-56 | line k holds image 0 and image 1 of the two cars drawn from the whole list for pair k; the run stops at the first second car with a single image |
| GenerateShuffled.WritePairs | generate_data.py:38-56 | the same-car lines come first; the different-car lines come only after all of them were written |
| GenerateShuffled.GenerateData | generate_data.py:19-56 | a bad name raises before anything else; `TooManySamples(2 * len(keys))` exactly when `2 * len(keys) < samples`; otherwise the lines above, over the shuffled order |
| Pairs.FilterSpec | src/pairs.cpp:67-70 | the filter keeps exactly the matches strictly below the threshold, each as often as it occurs |
| Pairs.FilterRows | src/pairs.cpp:68-69 | the push_back loop over the first `descriptors1.rows` matches yields the filter of those rows, in order |
| Pairs.FilterMonotone | src/pairs.cpp:69 | a higher rejection threshold never yields fewer good matches |
| Pairs.SortByDistanceSpec | src/pairs.cpp:76-77 | the sort orders by distance and is a permutation |
| Pairs.InsertInPlace | src/pairs.cpp:76-77 | one insertion step moves `a[i]` into the sorted prefix and leaves the rest alone |
| Pairs.SortMatches | src/pairs.cpp:76-77 | the array ends as the sorted sequence of its old contents |
| Pairs.GoodMatchesSpec | src/pairs.cpp:67-77 | good_matches is sorted, a permutation of the matches below the threshold, and holds no other match |
| Pairs.GatherPoints | src/pairs.cpp:79-87 | row i of each point list is the keypoint of match i in that image |
| Pairs.Correspond | src/pairs.cpp:60-87 | defined exactly when the matcher gives a match for every descriptor row of image 1 and every good match indexes a kept keypoint of each image, the reads the loops make; then the good matches are sorted, below the threshold, at most one per row, and index the keypoint lists the extractor kept |
| Pairs.NoDescriptorsNoMatches | src/pairs.cpp:60-69 | an image 1 with no descriptors gives no good matches, whatever image 2 yields |
| Pairs.NoMatchesUndefined | src/pairs.cpp:64-69 | descriptor rows of image 1 with no matches returned (image 2 kept none) make the pair undefined |
| Pairs.ComputeGoodMatches | src/pairs.cpp:52-101 | the method returns the matches below the threshold among the first descriptor rows, sorted, with the keypoints the extractor kept, or None exactly where the source reads out of bounds |
| Pairs.LargerIndex | src/pairs.cpp:126 | the index is 0 exactly when the first spread is strictly larger, otherwise 1 |
| Pairs.LargerIndexSwap | src/pairs.cpp:126 | swapping the spreads flips the answer unless they tie; a tie gives 1 both ways |
| Pairs.ComputeIndexLarge | src/pairs.cpp:103-127 | the index compares the spread of image 1's matched keypoints with image 2's |
| Pairs.SameCar | src/pairs.cpp:159 | with a non-negative threshold, same car exactly when more matches than the threshold survive; a negative threshold becomes a huge `size_t`, so the answer is never same car |
| Pairs.AsInt | src/pairs.cpp:130 | definition: `as<int>(fallback)` gives the node's integer when the key holds one, otherwise the fallback |
| Pairs.AsBool | src/pairs.cpp:131 | definition: `as<bool>(fallback)` gives the node's bool when the key holds one, otherwise the fallback |
| Pairs.ReadSettings | src/pairs.cpp:130-159 | the defaults are fast 5, rejection 300, similarity 30 and visualize true |
| Pairs.Decide | src/pairs.cpp:159-166 | same car exactly when SameCar holds; the index is then 0 or 1 by the spread comparison; otherwise it is -1 |
| Pairs.CompareImages | src/pairs.cpp:129-167 | the result is the decision for the detected keypoints and good matches, None exactly when their matches cannot be read; a decision pairs same car with index 0 or 1, and different car with -1 |
| Pairs.VisualizeIgnored | src/pairs.cpp:131 | the `visualize` setting never changes a result |
| Pairs.MissingThresholdsDefault | src/pairs.cpp:130-159 | with no thresholds set, the result is that of fast 5, rejection 300, and more than 30 good matches, and is defined exactly when those matches are |
| Pairs.ResultLineForms | src/pairs.cpp:232 | every result line is `1 0`, `1 1` or `0 -1` |
| Pairs.AppendPairLine | src/pairs.cpp:225-233 | writing the next pair's line, once its images load and match, keeps lines and pairs in step |
| Pairs.RunPairs | src/pairs.cpp:224-233 | line k is the result for path tokens 2k and 2k+1; the run stops at the first path that does not load, at the first pair whose matches cannot be read, or when fewer than two tokens remain |
| Prototype.ScanDistances | pairs.cpp:50-57 | the scan's minimum and maximum bound every distance scanned; each is attained unless it is still its start value; no rows leave `DBL_MAX` and `DBL_MIN` |
| Prototype.CompareImages | pairs.cpp:21-77 | the answer is always true; the kept matches are those below 350 among the first descriptor rows |
| Prototype.WrittenFor | pairs.cpp:103 | precedence makes the stream receive the bool, so `true` is written as the single character `1` and `false` as `0` |
| Prototype.Paths | pairs.cpp:96-97 | after `>> threshold` the paths are what is left of the first token, when anything is, followed by the other tokens |
| Prototype.AnswerPairs | pairs.cpp:97-104 | one `1` per pair of paths whose images both load, with no separator; the run stops at the first image that does not load, or when fewer than two paths remain |
| Prototype.RunPrototype | pairs.cpp:94-104 | `threshold` is the number at the front of the first token, or 0 when none is there, and then nothing more is read; otherwise the answers for the paths above |
| Prototype.FirstPathSplit | pairs.cpp:96-97 | when the first token is a path with a numeric prefix, the first pair is the rest of that path and the second token |
| Tally.Matches | evaluate.py:45-46 | the count of agreeing positions never exceeds the number of positions |
| Tally.MatchesSnoc | evaluate.py:45-46 | one more line adds one exactly when its two values agree |
| Tally.MatchesFull | evaluate.py:45-46 | the count equals the number of lines exactly when the two columns are equal |
| Tally.MatchesPositions | evaluate.cpp:29-30 | the count is the size of the set of agreeing positions |
| Tally.Ratio | evaluate.py:48-49 | `correct / total` lies in [0, 1] and is 1 exactly when every sample agrees |
| EvaluatePy.Score | evaluate.py:26-46 | the result is the first line whose results field, then ground-truth field, fails to parse; otherwise ZeroLines when there is no line; otherwise both counts over all lines |
| EvaluatePy.ScoredAsUnique | evaluate.py:26-49 | two parsed lists admit a single outcome |
| EvaluatePy.Evaluate | evaluate.py:13-22 | the equal-length assertion fails exactly when the line counts differ; otherwise the outcome is the score of the stripped, parsed lines |
| EvaluatePy.Accuracies | evaluate.py:48-49 | both printed accuracies lie in [0, 1] |
| EvaluatePy.ScoresBounds | evaluate.py:45-49 | each count is at most `samples`, and equals it exactly when every line agrees on that field |
| EvaluatePy.IdenticalFiles | evaluate.py:30-46 | scoring a file against itself gives full marks on both counts |
| EvaluatePy.TruthLineRoundTrip | evaluate.py:30-43 | a line the generators write parses back into its two integers |
| EvaluatePy.ResultLineRoundTrip | evaluate.py:30-33 | a line the detector writes parses back into its class and index |
| EvaluateCpp.GtAt | evaluate.cpp:28 | definition: a ground-truth read at token p gives token p; past the end of the file it gives what the same variable held a pair earlier, and 0 before the first pair |
| EvaluateCpp.NumLines | evaluate.cpp:27-31 | `num_lines` is the number of complete result pairs |
| EvaluateCpp.Count | evaluate.cpp:29-30 | a counter never exceeds the number of pairs read |
| EvaluateCpp.CountMatches | evaluate.cpp:27-32 | each counter is the number of agreeing positions of its result and ground-truth columns |
| EvaluateCpp.Evaluate | evaluate.cpp:21-32 | the loop's counters and `num_lines` are those of the pairs the results file supplies, read in lockstep with the ground truth |
| EvaluateCpp.Accuracy | evaluate.cpp:34-35 | with at least one pair read, the accuracy lies in [0, 1] and is 1 exactly when every pair agrees |
| EvaluateCpp.CountFull | evaluate.cpp:29-30 | a counter reaches `num_lines` exactly when that field agrees in every pair |
| EvaluateCpp.IdenticalFiles | evaluate.cpp:27-32 | a results file scored against itself gives full marks |
| EvaluateCpp.ExtraGroundTruth | evaluate.cpp:27-28 | ground-truth integers beyond the result pairs are never read |
| EvaluateCpp.GtAtUpdate | evaluate.cpp:28 | changing one field of a ground-truth pair leaves every value of the other field unchanged |
| EvaluateCpp.FieldsIndependent | evaluate.cpp:29-30 | the class counter never depends on an index field, and the index counter never depends on a class field |

## Left out

- OpenCV. FAST detection, SIFT description, FLANN and brute-force matching,
  PCA, `imread`, drawing and windows are library calls. They are the
  functions of `Features` / `Observation`.
- Pairs.ComputeGoodMatches: where the source reads `matches[i]` or a
  keypoint past the end of its vector, its behaviour is undefined. The
  model returns None there, and main's loop stops with `UndefinedMatches`;
  what the program really does next is not modelled. OpenCV's matcher
  returns no match when image 2 yields no descriptors, so such a pair is
  undefined whenever image 1 has descriptor rows.
- Prototype.CompareImages: the `Observer` type assumes the brute-force
  matcher returns at least one match per descriptor row of image 1. This
  holds when `Img` ranges over images that yield descriptors; a pair whose
  image 2 yields none, where the source reads `matches[i]` out of bounds,
  is outside the model.
- Pairs.ComputeIndexLarge: the points go through a `CV_16U` matrix, which
  truncates each coordinate to 16 bits. The spread function receives exact
  points, and taking the eigenvalue maximum is part of that function.
- Pairs.SortMatches: `std::sort` is not stable. The model fixes one order
  of equal distances, the order a stable sort gives.
- Pairs.ReadSettings: YAML parsing is a map from key to node. A node that
  holds something other than an int or a bool makes `as<T>` return the
  fallback; conversions YAML would attempt are not modelled.
- The console output (`std::cout` logging and the `%.2f` / `<<` float
  printing of the accuracies) is left out; the ratios are exact reals.
- Command-line parsing is not modelled: `sys.argv` length checks, `int()`
  of the arguments, and boost program_options.
- File opening errors are not modelled.
- Buffered output is not modelled. The model keeps every line written
  before an exception, but cannot say whether those lines reach the file.
  For example, `pairs.cpp` never flushes `results_file` before the uncaught
  exception terminates it.
- Text.ParseDecimal: `int()` also accepts underscores between digits and
  non-ASCII digits; the model accepts only ASCII digits and a sign.
- CarFiles.ImagePath: `os.path.join` with an absolute name or an empty
  directory is not modelled; the model always joins with one `/`.
- CarFiles.GroupSequences: the listing is an input. `os.listdir` order is
  arbitrary, so it is any sequence of names.
- CarFiles.GroupKeys, CarFiles.FirstSeen and GenerateSplit.Retire assume
  that a dict keeps insertion order. Python guarantees this from 3.7. The
  scripts start with `#!/usr/bin/python`, which on an older interpreter
  lists the keys in an arbitrary order.
- Randomness. The k-th draw is a parameter, and the model covers every
  in-range outcome of `randint` and `randbelow`. In `generate_data.py` one
  generator supplies all the shuffle's draws first and then the randint
  draws. The model takes the two groups as two independent functions. This
  covers every outcome but does not tie the second group to the generator
  state the first one leaves.
- GenerateSplit.DiffPairs and GenerateShuffled.DiffPairs: the two cars of
  a pair may be the same car, as in the source. The model does not exclude
  this and proves nothing about it.
- EvaluateCpp.Evaluate: the tokens are the integers `>>` extracts before
  the end of each file. A token that is not an integer, and `int`
  overflow, are not modelled.
- EvaluateCpp.Accuracy: requires `num_lines > 0`. With no pair read, the
  float division gives NaN, which exact reals cannot express.
- Prototype.RunPrototype: how `>> threshold` splits the first token into a
  number and a rest is a parameter (`readFloat`). It only has to consume a
  non-empty prefix. The threshold is never used afterwards. A failed read
  gives 0 in the model; when the number overflows a float, `>>` instead
  stores the largest float of that sign.
