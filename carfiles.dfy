/**
 * What both data generators share: the image file naming scheme
 * `<car_id>_<seq_id>.png`, its parse, the grouping of a directory listing into
 * one list of sequence ids per car, and the two line formats they write.
 */
module CarFiles {
  import opened Optional
  import opened Text

  // ------------------------------------------------------------------ naming

  /** The file name of image `seq_id` of car `car_id`. */
  function ImageName(carId: string, seqId: string): string
  {
    carId + "_" + seqId + ".png"
  }

  /** `os.path.join(dir, name)` for a relative name. */
  function JoinPath(dir: string, name: string): string
  {
    dir + "/" + name
  }

  /** getImagePath: the path of image `seq_id` of car `car_id` under `img_dir`. */
  function ImagePath(imgDir: string, carId: string, seqId: string): (path: string)
    ensures path == imgDir + "/" + ImageName(carId, seqId)
  {
    JoinPath(imgDir, ImageName(carId, seqId))
  }

  /** The two parts of an image file name. */
  datatype FileId = FileId(carId: string, seqId: string)

  /** `f.split("_")[0]`. */
  function CarId(f: string): string
  {
    Before(f, '_')
  }

  /** `f.split("_")[1].split(".")[0]`. */
  function SeqId(f: string): string
    requires '_' in f
  {
    Before(Before(After(f, '_'), '_'), '.')
  }

  /**
   * The parse of one listed file name; None where `content[1]` raises
   * IndexError, that is, when the name has no underscore.
   */
  function ParseFileName(f: string): (r: Option<FileId>)
    ensures r.None? <==> '_' !in f
    ensures r.Some? ==> f == r.value.carId + "_" + After(f, '_') && '_' !in r.value.carId
    ensures r.Some? ==> '_' !in r.value.seqId && '.' !in r.value.seqId
    ensures r.Some? ==> r.value.seqId <= After(f, '_')
    ensures r.Some? ==>
      var rest, n := After(f, '_'), |r.value.seqId|;
      n < |rest| ==> rest[n] == '_' || rest[n] == '.'
  {
    if '_' in f then
      var rest := After(f, '_');
      var field := Before(rest, '_');
      assert field == rest[..|field|];
      Some(FileId(CarId(f), SeqId(f)))
    else None
  }

  /**
   * The contract of ParseFileName pins the sequence id down: two prefixes of
   * the text after the first underscore that hold no separator and stop at a
   * separator or at the end are the same.
   */
  lemma SeqIdDetermined(rest: string, a: string, b: string)
    requires a <= rest && '_' !in a && '.' !in a && (|a| < |rest| ==> rest[|a|] == '_' || rest[|a|] == '.')
    requires b <= rest && '_' !in b && '.' !in b && (|b| < |rest| ==> rest[|b|] == '_' || rest[|b|] == '.')
    ensures a == b
  {
    assert a == rest[..|a|] && b == rest[..|b|];
  }

  /** A name the naming scheme produces parses back into its car id and sequence id. */
  lemma ImageNameRoundTrip(carId: string, seqId: string)
    requires '_' !in carId && '_' !in seqId && '.' !in seqId
    ensures ParseFileName(ImageName(carId, seqId)) == Some(FileId(carId, seqId))
  {
    var name := ImageName(carId, seqId);
    var rest := seqId + ".png";
    assert name == carId + ['_'] + rest;
    SplitAtFirst(carId, '_', rest);
    assert '_' !in rest by {
      assert rest == seqId + ['.'] + "png";
    }
    SplitAtFirst(seqId, '.', "png");
    assert seqId + ['.'] + "png" == rest;
  }

  // ---------------------------------------------------------------- ordering

  /** `0 if seq0 > seq1 else 1`: which of the two images is the larger, by string comparison of their ids. */
  function SizeIndex(seq0: string, seq1: string): (index: int)
    ensures index == 0 || index == 1
    ensures index == 0 <==> StrLess(seq1, seq0)
  {
    if StrLess(seq1, seq0) then 0 else 1
  }

  /** Two different ids give opposite indexes in the two orders; equal ids give 1 either way. */
  lemma SizeIndexSwap(seq0: string, seq1: string)
    ensures seq0 != seq1 ==> SizeIndex(seq1, seq0) == 1 - SizeIndex(seq0, seq1)
    ensures seq0 == seq1 ==> SizeIndex(seq0, seq1) == 1
  {
    StrLessTrichotomy(seq0, seq1);
  }

  // ------------------------------------------------------------ line formats

  /** `"%s %s\n" % (path1, path2)`. */
  function DataLine(path1: string, path2: string): string
  {
    path1 + " " + path2 + "\n"
  }

  /** `"%d %d\n" % (class, index)`. */
  function TruthLine(cls: int, index: int): string
  {
    DecimalString(cls) + " " + DecimalString(index) + "\n"
  }

  /** The ground truth of a same-car pair whose sequence ids are seq0 and seq1. */
  function SameTruth(seq0: string, seq1: string): (line: string)
    ensures line == "1 0\n" || line == "1 1\n"
    ensures line == "1 0\n" <==> StrLess(seq1, seq0)
  {
    assert TruthLine(1, 0) == "1 0\n" && TruthLine(1, 1) == "1 1\n" by {
      assert NatDigits(0) == "0" && NatDigits(1) == "1";
    }
    assert "1 1\n"[2] != "1 0\n"[2];
    TruthLine(1, SizeIndex(seq0, seq1))
  }

  /** The ground truth of a different-car pair. */
  function DiffTruth(): (line: string)
    ensures line == "0 -1\n"
  {
    assert DecimalString(0) == "0" && DecimalString(-1) == "-1" by {
      assert NatDigits(0) == "0" && NatDigits(1) == "1";
    }
    TruthLine(0, -1)
  }

  /** The two lines written for a same-car pair of car `car`: its images 0 and 1, and which of them is the larger. */
  predicate SamePairLines(imgDir: string, sequences: map<string, seq<string>>, car: string, dataLine: string, truthLine: string)
  {
    car in sequences && |sequences[car]| >= 2 &&
    var ids := sequences[car];
    dataLine == DataLine(ImagePath(imgDir, car, ids[0]), ImagePath(imgDir, car, ids[1])) &&
    truthLine == SameTruth(ids[0], ids[1])
  }

  /** The two lines written for a different-car pair: image 0 of car1, image 1 of car2, and the truth `0 -1`. */
  predicate DiffPairLines(imgDir: string, sequences: map<string, seq<string>>, car1: string, car2: string,
                          dataLine: string, truthLine: string)
  {
    car1 in sequences && car2 in sequences && |sequences[car1]| >= 1 && |sequences[car2]| >= 2 &&
    dataLine == DataLine(ImagePath(imgDir, car1, sequences[car1][0]), ImagePath(imgDir, car2, sequences[car2][1])) &&
    truthLine == DiffTruth()
  }

  /**
   * A generator's run: either an exception raised before any line is written,
   * or the lines written to the data file and the ground-truth file, with the
   * car whose missing second image raised IndexError when the run ended early.
   */
  datatype Outcome<E> =
    | Rejected(error: E)
    | Wrote(data: seq<string>, truth: seq<string>, crash: Option<string>)

  /** `keys[randint(0, len(keys) - 1)]` for a random draw r. */
  function Pick(keys: seq<string>, r: nat): (c: string)
    requires keys != []
    ensures c in keys
  {
    keys[r % |keys|]
  }

  // ---------------------------------------------------------------- grouping

  /** Every listed name has an underscore. */
  predicate WellFormed(files: seq<string>)
  {
    forall k :: 0 <= k < |files| ==> '_' in files[k]
  }

  /** The car id of each listed name, in listing order. */
  function CarIds(files: seq<string>): (ids: seq<string>)
    ensures |ids| == |files|
    ensures forall k :: 0 <= k < |files| ==> ids[k] == CarId(files[k])
  {
    if files == [] then [] else CarIds(files[..|files| - 1]) + [CarId(files[|files| - 1])]
  }

  /** The distinct values of ids in order of first occurrence: the key order of a Python dict filled from ids. */
  function FirstSeen(ids: seq<string>): (r: seq<string>)
    ensures Distinct(r)
    ensures forall x :: x in r <==> x in ids
  {
    if ids == [] then []
    else
      var init := FirstSeen(ids[..|ids| - 1]);
      assert ids == ids[..|ids| - 1] + [ids[|ids| - 1]];
      if ids[|ids| - 1] in init then init else init + [ids[|ids| - 1]]
  }

  /** The sequence ids of car c's files, in listing order. */
  function SeqIdsOf(files: seq<string>, c: string): (r: seq<string>)
    requires WellFormed(files)
    ensures |r| <= |files|
  {
    if files == [] then []
    else
      var init := files[..|files| - 1];
      var f := files[|files| - 1];
      assert CarIds(files) == CarIds(init) + [CarId(f)];
      if CarId(f) == c then SeqIdsOf(init, c) + [SeqId(f)] else SeqIdsOf(init, c)
  }

  /** The summed length of the lists the keys map to. */
  function TotalLength(keys: seq<string>, groups: map<string, seq<string>>): nat
    requires forall k :: k in keys ==> k in groups
  {
    if keys == [] then 0
    else TotalLength(keys[..|keys| - 1], groups) + |groups[keys[|keys| - 1]]|
  }

  /** Changing the list of a key that is not listed leaves the total alone. */
  lemma {:induction false} TotalLengthFrame(keys: seq<string>, groups: map<string, seq<string>>, c: string, v: seq<string>)
    requires forall k :: k in keys ==> k in groups
    requires c !in keys
    ensures TotalLength(keys, groups[c := v]) == TotalLength(keys, groups)
  {
    if keys != [] {
      TotalLengthFrame(keys[..|keys| - 1], groups, c, v);
    }
  }

  /** Appending one id to the list of a key listed once adds one to the total. */
  lemma {:induction false} TotalLengthGrow(keys: seq<string>, groups: map<string, seq<string>>, c: string, s: string)
    requires forall k :: k in keys ==> k in groups
    requires Distinct(keys) && c in keys
    ensures TotalLength(keys, groups[c := groups[c] + [s]]) == TotalLength(keys, groups) + 1
  {
    var init, last := keys[..|keys| - 1], keys[|keys| - 1];
    assert keys == init + [last];
    assert Distinct(init);
    if last == c {
      assert c !in init;
      TotalLengthFrame(init, groups, c, groups[c] + [s]);
    } else {
      TotalLengthGrow(init, groups, c, s);
    }
  }

  lemma CarIdsSnoc(files: seq<string>, f: string)
    ensures CarIds(files + [f]) == CarIds(files) + [CarId(f)]
  {
    assert (files + [f])[..|files|] == files;
  }

  lemma FirstSeenSnoc(ids: seq<string>, x: string)
    ensures FirstSeen(ids + [x]) == if x in FirstSeen(ids) then FirstSeen(ids) else FirstSeen(ids) + [x]
  {
    assert (ids + [x])[..|ids|] == ids;
  }

  lemma SeqIdsOfSnoc(files: seq<string>, f: string, c: string)
    requires WellFormed(files + [f])
    ensures WellFormed(files) && '_' in f
    ensures SeqIdsOf(files + [f], c) == SeqIdsOf(files, c) + (if CarId(f) == c then [SeqId(f)] else [])
  {
    var all := files + [f];
    assert all[..|files|] == files;
    assert all[|files|] == f;
    assert forall k :: 0 <= k < |files| ==> files[k] == all[k];
  }

  /** What the grouping loop holds: the car ids in order of first sight, and each car's sequence ids. */
  datatype Groups = Groups(keys: seq<string>, sequences: map<string, seq<string>>)

  /** One pass of the grouping loop's body: file f's sequence id goes to the end of its car's list. */
  function AddName(g: Groups, f: string): Groups
    requires '_' in f
  {
    var carId := CarId(f);
    if carId in g.sequences then Groups(g.keys, g.sequences[carId := g.sequences[carId] + [SeqId(f)]])
    else Groups(g.keys + [carId], g.sequences[carId := [SeqId(f)]])
  }

  /** The grouping loop's state after the names of files, one name at a time. */
  function Group(files: seq<string>): Groups
    requires WellFormed(files)
  {
    if files == [] then Groups([], map[])
    else
      WellFormedInit(files);
      AddName(Group(files[..|files| - 1]), files[|files| - 1])
  }

  lemma WellFormedInit(files: seq<string>)
    requires WellFormed(files) && files != []
    ensures WellFormed(files[..|files| - 1]) && '_' in files[|files| - 1]
  {
    assert forall k :: 0 <= k < |files| - 1 ==> files[..|files| - 1][k] == files[k];
  }

  lemma GroupSnoc(files: seq<string>, f: string)
    requires WellFormed(files + [f])
    ensures WellFormed(files) && '_' in f
    ensures Group(files + [f]) == AddName(Group(files), f)
  {
    WellFormedInit(files + [f]);
    assert (files + [f])[..|files|] == files;
  }

  /** The loop's state after one more name of files. */
  lemma GroupPrefix(files: seq<string>, i: nat)
    requires i < |files| && WellFormed(files[..i]) && '_' in files[i]
    ensures WellFormed(files[..i + 1])
    ensures Group(files[..i + 1]) == AddName(Group(files[..i]), files[i])
  {
    assert files[..i + 1] == files[..i] + [files[i]];
    assert forall k :: 0 <= k < i ==> files[..i + 1][k] == files[..i][k];
    GroupSnoc(files[..i], files[i]);
  }

  /** The car ids the loop has seen are exactly the keys of its dictionary. */
  lemma {:induction false} GroupDomain(files: seq<string>)
    requires WellFormed(files)
    ensures forall c :: c in Group(files).sequences <==> c in Group(files).keys
  {
    if files != [] {
      WellFormedInit(files);
      GroupDomain(files[..|files| - 1]);
    }
  }

  /** The keys come out in order of first appearance: the insertion order of the dictionary. */
  lemma {:induction false} GroupKeys(files: seq<string>)
    requires WellFormed(files)
    ensures Group(files).keys == FirstSeen(CarIds(files))
  {
    if files != [] {
      var init, f := files[..|files| - 1], files[|files| - 1];
      assert files == init + [f];
      GroupSnoc(init, f);
      GroupKeys(init);
      GroupDomain(init);
      assert files == init + [f];
      CarIdsSnoc(init, f);
      FirstSeenSnoc(CarIds(init), CarId(f));
    }
  }

  /** A car that has no listed name has no sequence ids. */
  lemma {:induction false} SeqIdsOfAbsent(files: seq<string>, c: string)
    requires WellFormed(files) && c !in CarIds(files)
    ensures SeqIdsOf(files, c) == []
  {
    if files != [] {
      var init, f := files[..|files| - 1], files[|files| - 1];
      assert files == init + [f];
      CarIdsSnoc(init, f);
      SeqIdsOfSnoc(init, f, c);
      SeqIdsOfAbsent(init, c);
    }
  }

  /** Each car's list holds the sequence ids of that car's names, in listing order. */
  lemma {:induction false} GroupLists(files: seq<string>)
    requires WellFormed(files)
    ensures forall c :: c in Group(files).sequences ==> Group(files).sequences[c] == SeqIdsOf(files, c)
  {
    if files != [] {
      var init, f := files[..|files| - 1], files[|files| - 1];
      assert files == init + [f];
      GroupSnoc(init, f);
      GroupLists(init);
      var g := Group(init);
      var carId := CarId(f);
      forall c | c in Group(files).sequences ensures Group(files).sequences[c] == SeqIdsOf(files, c) {
        SeqIdsOfSnoc(init, f, c);
        if c == carId && carId !in g.sequences {
          GroupDomain(init);
          GroupKeys(init);
          SeqIdsOfAbsent(init, c);
        }
      }
    }
  }

  /** Each listed name lands in exactly one list. */
  lemma {:induction false} GroupTotal(files: seq<string>)
    requires WellFormed(files)
    ensures forall c :: c in Group(files).keys ==> c in Group(files).sequences
    ensures TotalLength(Group(files).keys, Group(files).sequences) == |files|
  {
    GroupDomain(files);
    if files != [] {
      var init, f := files[..|files| - 1], files[|files| - 1];
      assert files == init + [f];
      GroupSnoc(init, f);
      GroupTotal(init);
      GroupDomain(init);
      GroupKeys(init);
      var g := Group(init);
      if CarId(f) in g.sequences {
        TotalLengthGrow(g.keys, g.sequences, CarId(f), SeqId(f));
      } else {
        TotalLengthFrame(g.keys, g.sequences, CarId(f), [SeqId(f)]);
        var keys' := g.keys + [CarId(f)];
        assert keys'[..|keys'| - 1] == g.keys;
      }
    }
  }

  datatype Grouping =
    | Grouped(groups: Groups)
    | MalformedName(index: nat)

  /**
   * The grouping loop: split each listed name into car id and sequence id and
   * append the sequence id to its car's list, making a new list for a car not
   * seen before. A name without an underscore raises IndexError.
   */
  method GroupSequences(files: seq<string>) returns (g: Grouping)
    ensures g.MalformedName? <==> !WellFormed(files)
    ensures g.MalformedName? ==>
      g.index < |files| && '_' !in files[g.index] && WellFormed(files[..g.index])
    ensures g.Grouped? ==> g.groups == Group(files)
  {
    var keys: seq<string> := [];
    var sequences: map<string, seq<string>> := map[];
    var i := 0;
    while i < |files|
      invariant 0 <= i <= |files|
      invariant WellFormed(files[..i])
      invariant Groups(keys, sequences) == Group(files[..i])
    {
      var f := files[i];
      if '_' !in f {
        return MalformedName(i);
      }
      GroupPrefix(files, i);
      var carId := CarId(f);
      if carId in sequences {
        sequences := sequences[carId := sequences[carId] + [SeqId(f)]];
      } else {
        sequences := sequences[carId := [SeqId(f)]];
        keys := keys + [carId];
      }
      i := i + 1;
    }
    assert files[..i] == files;
    return Grouped(Groups(keys, sequences));
  }

  /** What the dictionary and the key list keep between loop passes: one key per car, each with at least one image. */
  ghost predicate Consistent(g: Groups)
  {
    Distinct(g.keys)
    && (forall c :: c in g.sequences <==> c in g.keys)
    && (forall c :: c in g.sequences ==> g.sequences[c] != [])
  }

  /** A car with a listed name has at least one sequence id. */
  lemma {:induction false} SeqIdsOfPresent(files: seq<string>, c: string)
    requires WellFormed(files) && c in CarIds(files)
    ensures SeqIdsOf(files, c) != []
  {
    var init, f := files[..|files| - 1], files[|files| - 1];
    assert files == init + [f];
    CarIdsSnoc(init, f);
    SeqIdsOfSnoc(init, f, c);
    if CarId(f) != c {
      SeqIdsOfPresent(init, c);
    }
  }

  /** The grouping of any well-formed listing is consistent. */
  lemma GroupConsistent(files: seq<string>)
    requires WellFormed(files)
    ensures Consistent(Group(files))
  {
    var g := Group(files);
    GroupKeys(files);
    GroupDomain(files);
    GroupLists(files);
    forall c | c in g.sequences ensures g.sequences[c] != [] {
      SeqIdsOfPresent(files, c);
    }
  }
}
