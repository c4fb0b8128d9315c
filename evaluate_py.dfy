/**
 * The Python evaluator: read the results file and the ground-truth file as
 * lists of stripped lines, insist that they are equally long, parse the first
 * two space-separated fields of every line as integers, and count the lines
 * whose class fields agree and the lines whose index fields agree. The counts
 * are then divided by the number of lines, which fails when there is none.
 */
module EvaluatePy {
  import opened Optional
  import opened Text
  import opened Tally
  import opened CarFiles
  import Pairs

  /** The two fields of one line. */
  datatype Record = Record(cls: int, index: int)

  /** Why one line does not parse: `int()` raised ValueError, or `content[1]` raised IndexError. */
  datatype LineError = BadLiteral | MissingField

  datatype Parse = Parsed(record: Record) | Unparsed(error: LineError)

  datatype File = Results | GroundTruth

  datatype Evaluation =
    | LengthMismatch
    | BadLine(file: File, line: nat, error: LineError)
    | ZeroLines
    | Scores(correctClass: nat, correctIndex: nat, samples: nat)

  /** Python's `int(s)` on ASCII text: surrounding whitespace is ignored. */
  function PyInt(s: string): Option<int>
  {
    ParseDecimal(Strip(s))
  }

  /**
   * One line after `strip()`: `content = line.split(" ")`, then
   * `int(content[0])` and `int(content[1])`, in that order.
   */
  function ParseRecord(line: string): Parse
  {
    var s := Strip(line);
    var field0 := Before(s, ' ');
    if PyInt(field0).None? then Unparsed(BadLiteral)
    else if ' ' !in s then Unparsed(MissingField)
    else
      var field1 := Before(After(s, ' '), ' ');
      if PyInt(field1).None? then Unparsed(BadLiteral)
      else Parsed(Record(PyInt(field0).value, PyInt(field1).value))
  }

  /** `[x.strip() for x in lines]` followed by the parse of every line. */
  function ParseAll(lines: seq<string>): seq<Parse>
  {
    seq(|lines|, k requires 0 <= k < |lines| => ParseRecord(lines[k]))
  }

  ghost predicate AllParsed(ps: seq<Parse>)
  {
    forall k :: 0 <= k < |ps| ==> ps[k].Parsed?
  }

  function Records(ps: seq<Parse>): seq<Record>
    requires AllParsed(ps)
  {
    seq(|ps|, k requires 0 <= k < |ps| => ps[k].record)
  }

  function Classes(rs: seq<Record>): seq<int>
  {
    seq(|rs|, k requires 0 <= k < |rs| => rs[k].cls)
  }

  function Indexes(rs: seq<Record>): seq<int>
  {
    seq(|rs|, k requires 0 <= k < |rs| => rs[k].index)
  }

  lemma ColumnsSnoc(rs: seq<Record>, r: Record)
    ensures Classes(rs + [r]) == Classes(rs) + [r.cls]
    ensures Indexes(rs + [r]) == Indexes(rs) + [r.index]
  {
  }

  /**
   * What the loop and the print statements make of two equally long lists of
   * parsed lines: the first line whose results record, then whose ground-truth
   * record, fails; else ZeroDivisionError when there is no line; else the
   * two counts.
   */
  ghost predicate ScoredAs(res: seq<Parse>, gt: seq<Parse>, e: Evaluation)
    requires |res| == |gt|
  {
    match e
    case LengthMismatch => false
    case BadLine(file, line, error) =>
      line < |res| && (forall k :: 0 <= k < line ==> res[k].Parsed? && gt[k].Parsed?) &&
      if file == Results then res[line] == Unparsed(error)
      else res[line].Parsed? && gt[line] == Unparsed(error)
    case ZeroLines => res == []
    case Scores(correctClass, correctIndex, samples) =>
      samples == |res| > 0 && AllParsed(res) && AllParsed(gt) &&
      correctClass == Matches(Classes(Records(res)), Classes(Records(gt))) &&
      correctIndex == Matches(Indexes(Records(res)), Indexes(Records(gt)))
  }

  /** Two parsed inputs admit a single evaluation. */
  lemma ScoredAsUnique(res: seq<Parse>, gt: seq<Parse>, e1: Evaluation, e2: Evaluation)
    requires |res| == |gt| && ScoredAs(res, gt, e1) && ScoredAs(res, gt, e2)
    ensures e1 == e2
  {
  }

  /** The loop over the lines, counting agreeing classes and agreeing indexes. */
  method Score(res: seq<Parse>, gt: seq<Parse>) returns (e: Evaluation)
    requires |res| == |gt|
    ensures ScoredAs(res, gt, e)
  {
    var correctClass, correctIndex := 0, 0;
    var samples := |res|;
    ghost var rs, gs := [], [];
    for i := 0 to samples
      invariant |rs| == i && |gs| == i
      invariant forall k :: 0 <= k < i ==> res[k] == Parsed(rs[k]) && gt[k] == Parsed(gs[k])
      invariant correctClass == Matches(Classes(rs), Classes(gs))
      invariant correctIndex == Matches(Indexes(rs), Indexes(gs))
    {
      if res[i].Unparsed? {
        return BadLine(Results, i, res[i].error);
      }
      if gt[i].Unparsed? {
        return BadLine(GroundTruth, i, gt[i].error);
      }
      var r, g := res[i].record, gt[i].record;
      ColumnsSnoc(rs, r);
      ColumnsSnoc(gs, g);
      MatchesSnoc(Classes(rs), Classes(gs), r.cls, g.cls);
      MatchesSnoc(Indexes(rs), Indexes(gs), r.index, g.index);
      correctClass := correctClass + (if r.cls == g.cls then 1 else 0);
      correctIndex := correctIndex + (if r.index == g.index then 1 else 0);
      rs, gs := rs + [r], gs + [g];
    }
    if samples == 0 {
      return ZeroLines;
    }
    assert rs == Records(res) && gs == Records(gt);
    return Scores(correctClass, correctIndex, samples);
  }

  /**
   * The script after reading both files: strip every line, assert that the
   * two lists are equally long, then score them; with no line at all the
   * division by `samples` raises ZeroDivisionError.
   */
  method Evaluate(resLines: seq<string>, gtLines: seq<string>) returns (e: Evaluation)
    ensures e.LengthMismatch? <==> |resLines| != |gtLines|
    ensures |resLines| == |gtLines| ==> ScoredAs(ParseAll(resLines), ParseAll(gtLines), e)
  {
    if |resLines| != |gtLines| {
      return LengthMismatch;
    }
    e := Score(ParseAll(resLines), ParseAll(gtLines));
  }

  /** The two accuracies the script prints, before `%.2f` rounds them. */
  function Accuracies(e: Evaluation): (r: (real, real))
    requires e.Scores? && e.samples > 0
    requires e.correctClass <= e.samples && e.correctIndex <= e.samples
    ensures 0.0 <= r.0 <= 1.0 && 0.0 <= r.1 <= 1.0
  {
    (Ratio(e.correctClass, e.samples), Ratio(e.correctIndex, e.samples))
  }

  /** The counts stay within the number of lines, and reach it exactly when every line agrees on that field. */
  lemma ScoresBounds(res: seq<Parse>, gt: seq<Parse>, e: Evaluation)
    requires |res| == |gt| && ScoredAs(res, gt, e) && e.Scores?
    ensures e.correctClass <= e.samples && e.correctIndex <= e.samples
    ensures e.correctClass == e.samples <==>
      forall k :: 0 <= k < |res| ==> res[k].record.cls == gt[k].record.cls
    ensures e.correctIndex == e.samples <==>
      forall k :: 0 <= k < |res| ==> res[k].record.index == gt[k].record.index
  {
    var rs, gs := Records(res), Records(gt);
    MatchesFull(Classes(rs), Classes(gs));
    MatchesFull(Indexes(rs), Indexes(gs));
    if e.correctClass == e.samples {
      forall k | 0 <= k < |res| ensures res[k].record.cls == gt[k].record.cls {
        assert Classes(rs)[k] == Classes(gs)[k];
      }
    }
    if e.correctIndex == e.samples {
      forall k | 0 <= k < |res| ensures res[k].record.index == gt[k].record.index {
        assert Indexes(rs)[k] == Indexes(gs)[k];
      }
    }
  }

  /** A results file identical to the ground truth, every line of it parsing, scores every line on both counts. */
  lemma IdenticalFiles(lines: seq<string>, e: Evaluation)
    requires ScoredAs(ParseAll(lines), ParseAll(lines), e) && e.Scores?
    ensures e.correctClass == e.samples && e.correctIndex == e.samples
  {
    var rs := Records(ParseAll(lines));
    MatchesFull(Classes(rs), Classes(rs));
    MatchesFull(Indexes(rs), Indexes(rs));
  }

  /** A line in the format both generators and the C++ detector write parses back into the two integers. */
  lemma TruthLineRoundTrip(cls: int, index: int)
    ensures ParseRecord(TruthLine(cls, index)) == Parsed(Record(cls, index))
  {
    var a, b := DecimalString(cls), DecimalString(index);
    DecimalPlain(cls);
    DecimalPlain(index);
    var line := TruthLine(cls, index);
    assert line == a + " " + b + "\n";
    StripKeeps(a + " " + b, "\n");
    assert Strip(line) == a + [' '] + b;
    SplitAtFirst(a, ' ', b);
    assert Before(b, ' ') == b;
    DecimalRoundTrip(cls);
    DecimalRoundTrip(index);
  }

  /** The C++ detector's result lines are TruthLine lines, so they parse back into the result they print. */
  lemma ResultLineRoundTrip(r: Pairs.DetectionResult)
    ensures ParseRecord(Pairs.ResultLine(r)) == Parsed(Record(if r.sameCar then 1 else 0, r.indexLarge))
  {
    assert NatDigits(0) == "0" && NatDigits(1) == "1";
    assert Pairs.ResultLine(r) == TruthLine(if r.sameCar then 1 else 0, r.indexLarge);
    TruthLineRoundTrip(if r.sameCar then 1 else 0, r.indexLarge);
  }
}
