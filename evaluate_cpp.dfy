/**
 * The C++ evaluator: read the results file two integers at a time and, in
 * lockstep, two integers of the ground-truth file; count the pairs whose
 * first integers (the class) agree and those whose second integers (the
 * index) agree, and divide the counts by the number of pairs read. Each file
 * comes in as the integers `>>` extracts from it before end of file; a
 * ground-truth read past its end leaves the variable as it was.
 */
module EvaluateCpp {
  import opened Tally

  /**
   * The value in the ground-truth variable read at token position p: token p
   * when the file has one, otherwise what the same variable held one pair
   * earlier, 0 before the first pair.
   */
  function GtAt(gt: seq<int>, p: nat): (v: int)
    ensures p < |gt| ==> v == gt[p]
    ensures p >= |gt| && p >= 2 ==> v == GtAt(gt, p - 2)
    ensures p >= |gt| && p < 2 ==> v == 0
    decreases p
  {
    if p < |gt| then gt[p] else if p < 2 then 0 else GtAt(gt, p - 2)
  }

  /** The number of complete pairs in the results file, the final `num_lines`. */
  function NumLines(res: seq<int>): (n: nat)
    ensures 2 * n <= |res| < 2 * n + 2
  {
    |res| / 2
  }

  /** Field f (0 for the class, 1 for the index) of the first n result pairs. */
  function ResultColumn(res: seq<int>, f: nat, n: nat): seq<int>
    requires f < 2 && 2 * n <= |res|
  {
    seq(n, i requires 0 <= i < n => res[2 * i + f])
  }

  /** Field f of the first n ground-truth pairs as the variables hold them. */
  function TruthColumn(gt: seq<int>, f: nat, n: nat): seq<int>
    requires f < 2
  {
    seq(n, i requires 0 <= i < n => GtAt(gt, 2 * i + f))
  }

  /** Counter f (0 for `correct_class`, 1 for `correct_index`) after n iterations. */
  function Count(res: seq<int>, gt: seq<int>, f: nat, n: nat): (c: nat)
    requires f < 2 && 2 * n <= |res|
    ensures c <= n
  {
    if n == 0 then 0
    else Count(res, gt, f, n - 1) + (if res[2 * (n - 1) + f] == GtAt(gt, 2 * (n - 1) + f) then 1 else 0)
  }

  /** The final `correct_class` (f = 0) or `correct_index` (f = 1). */
  function Correct(res: seq<int>, gt: seq<int>, f: nat): nat
    requires f < 2
  {
    Count(res, gt, f, NumLines(res))
  }

  /** The counter is the number of agreeing positions of the two columns. */
  lemma {:induction false} CountMatches(res: seq<int>, gt: seq<int>, f: nat, n: nat)
    requires f < 2 && 2 * n <= |res|
    ensures Count(res, gt, f, n) == Matches(ResultColumn(res, f, n), TruthColumn(gt, f, n))
  {
    if n > 0 {
      CountMatches(res, gt, f, n - 1);
      var rc, tc := ResultColumn(res, f, n), TruthColumn(gt, f, n);
      assert rc[..n - 1] == ResultColumn(res, f, n - 1);
      assert tc[..n - 1] == TruthColumn(gt, f, n - 1);
    }
  }

  /** The value a ground-truth variable holds after the read at position p, from the value it held before. */
  function Read(gt: seq<int>, p: nat, held: int): int
  {
    if p < |gt| then gt[p] else held
  }

  /** Reading position p into a variable that holds the value of position p - 2 gives GtAt at p. */
  lemma ReadStep(gt: seq<int>, p: nat, held: int)
    requires held == (if p < 2 then 0 else GtAt(gt, p - 2))
    ensures Read(gt, p, held) == GtAt(gt, p)
  {
  }

  /** The read loop of main and its three counters. */
  method Evaluate(res: seq<int>, gt: seq<int>) returns (correctClass: nat, correctIndex: nat, numLines: nat)
    ensures numLines == NumLines(res)
    ensures correctClass == Correct(res, gt, 0) && correctIndex == Correct(res, gt, 1)
    ensures correctClass <= numLines && correctIndex <= numLines
  {
    correctClass, correctIndex, numLines := 0, 0, 0;
    var gtClass, gtIndex := 0, 0;
    while 2 * numLines + 1 < |res|
      invariant 2 * numLines <= |res|
      invariant gtClass == (if numLines == 0 then 0 else GtAt(gt, 2 * numLines - 2))
      invariant gtIndex == (if numLines == 0 then 0 else GtAt(gt, 2 * numLines - 1))
      invariant correctClass == Count(res, gt, 0, numLines)
      invariant correctIndex == Count(res, gt, 1, numLines)
    {
      var p := 2 * numLines;
      var resultClass, resultIndex := res[p], res[p + 1];
      ReadStep(gt, p, gtClass);
      ReadStep(gt, p + 1, gtIndex);
      gtClass, gtIndex := Read(gt, p, gtClass), Read(gt, p + 1, gtIndex);
      correctClass := correctClass + (if resultClass == gtClass then 1 else 0);
      correctIndex := correctIndex + (if resultIndex == gtIndex then 1 else 0);
      numLines := numLines + 1;
    }
  }

  /** `float(correct) / num_lines`, which the program computes only meaningfully when it read a pair. */
  function Accuracy(correct: nat, numLines: nat): (r: real)
    requires numLines > 0 && correct <= numLines
    ensures 0.0 <= r <= 1.0
    ensures r == 1.0 <==> correct == numLines
  {
    Ratio(correct, numLines)
  }

  /** A counter reaches the number of pairs exactly when that field agrees in every pair. */
  lemma CountFull(res: seq<int>, gt: seq<int>, f: nat, n: nat)
    requires f < 2 && 2 * n <= |res|
    ensures Count(res, gt, f, n) == n <==> forall i :: 0 <= i < n ==> res[2 * i + f] == GtAt(gt, 2 * i + f)
  {
    CountMatches(res, gt, f, n);
    MatchesFull(ResultColumn(res, f, n), TruthColumn(gt, f, n));
    if Count(res, gt, f, n) == n {
      forall i | 0 <= i < n ensures res[2 * i + f] == GtAt(gt, 2 * i + f) {
        assert ResultColumn(res, f, n)[i] == TruthColumn(gt, f, n)[i];
      }
    }
  }

  /** A ground-truth file holding the same integers as the results file scores every pair on both counts. */
  lemma IdenticalFiles(tokens: seq<int>, f: nat)
    requires f < 2
    ensures Correct(tokens, tokens, f) == NumLines(tokens)
  {
    CountFull(tokens, tokens, f, NumLines(tokens));
  }

  /** Ground-truth integers beyond the pairs the results file supplies are never read. */
  lemma {:induction false} ExtraGroundTruth(res: seq<int>, gt: seq<int>, extra: seq<int>, f: nat, n: nat)
    requires f < 2 && 2 * n <= |res| && 2 * n <= |gt|
    ensures Count(res, gt + extra, f, n) == Count(res, gt, f, n)
  {
    if n > 0 {
      ExtraGroundTruth(res, gt, extra, f, n - 1);
      assert GtAt(gt + extra, 2 * (n - 1) + f) == GtAt(gt, 2 * (n - 1) + f);
    }
  }

  /** Changing field g of pair j of the ground truth leaves every value of the other field alone. */
  lemma {:induction false} GtAtUpdate(gt: seq<int>, j: nat, g: nat, w: int, k: nat, f: nat)
    requires f < 2 && g < 2 && f != g && 2 * j + g < |gt|
    ensures GtAt(gt[2 * j + g := w], 2 * k + f) == GtAt(gt, 2 * k + f)
    decreases k
  {
    if 2 * k + f >= |gt| && k > 0 {
      GtAtUpdate(gt, j, g, w, k - 1, f);
    }
  }

  /**
   * The class count never looks at an index field, and the index count never
   * at a class field: changing field 1 - f of pair j in both files leaves
   * counter f as it was.
   */
  lemma {:induction false} FieldsIndependent(res: seq<int>, gt: seq<int>, f: nat, j: nat, v: int, w: int, n: nat)
    requires f < 2 && 2 * j + 1 - f < |res| && 2 * j + 1 - f < |gt| && 2 * n <= |res|
    ensures Count(res[2 * j + 1 - f := v], gt[2 * j + 1 - f := w], f, n) == Count(res, gt, f, n)
  {
    if n > 0 {
      var p, q := 2 * j + 1 - f, 2 * (n - 1) + f;
      FieldsIndependent(res, gt, f, j, v, w, n - 1);
      GtAtUpdate(gt, j, 1 - f, w, n - 1, f);
      assert p != q;
      assert res[p := v][q] == res[q];
    }
  }
}
