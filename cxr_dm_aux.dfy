/**
 * `lightning/inputs/cxr_dm_aux.py`: the data module whose samples carry an opacity mask
 * rasterised from the image's annotation file, whose train labels can be smoothed and whose
 * train table can be rebalanced by class. The table is split into five folds.
 */
module CxrDmAux {
  import opened Wrappers
  import opened PyStrings
  import opened Seqs
  import opened StudyTables
  import opened Boxes
  import opened Annotations
  import opened Samples

  /** `df["fold"] = df.index % 5`. */
  const Folds: nat := 5

  // ---------------------------------------------------------------------------------------
  // Labels

  /** `np.clip(v, lo, hi)`, that is `minimum(maximum(v, lo), hi)`. */
  function Clip(v: real, lo: real, hi: real): (r: real)
    ensures r <= hi
    ensures lo <= hi ==> lo <= r
    ensures lo <= v <= hi ==> r == v
    ensures v < lo && lo <= hi ==> r == lo
    ensures hi <= v || hi < lo ==> r == hi
  {
    var m := if v < lo then lo else v;
    if m > hi then hi else m
  }

  /** `if self.smooth:` — `None` and `0.0` are false, every other number is true. */
  predicate SmoothingActive(smooth: Option<real>)
  {
    smooth.Some? && smooth.value != 0.0
  }

  /**
   * The label of `__getitem__`: the class columns, clipped to `[s, 1 - s]` when smoothing is
   * on. For `s` up to one half every entry then lies in that interval.
   */
  function Label(c: Classes, smooth: Option<real>): (values: seq<real>)
    ensures |values| == 4
    ensures SmoothingActive(smooth) && smooth.value <= 0.5 ==>
              forall i :: 0 <= i < 4 ==> smooth.value <= values[i] <= 1.0 - smooth.value
  {
    if SmoothingActive(smooth) then
      var s := smooth.value;
      seq(4, i requires 0 <= i < 4 => Clip(RawLabel(c)[i], s, 1.0 - s))
    else RawLabel(c)
  }

  /** Without smoothing (no value, or `0.0`) the label is the class columns unchanged. */
  lemma UnsmoothedLabel(c: Classes, smooth: Option<real>)
    requires !SmoothingActive(smooth)
    ensures Label(c, smooth) == RawLabel(c)
  {
  }

  /** Smoothing `s` in `(0, 0.5]` maps a hard 0 to `s` and a hard 1 to `1 - s`. */
  lemma SmoothedHardLabel(c: Classes, s: real)
    requires IsHard(c) && 0.0 < s <= 0.5
    ensures forall i :: 0 <= i < 4 ==> s <= Label(c, Some(s))[i] <= 1.0 - s
    ensures forall i :: 0 <= i < 4 ==> RawLabel(c)[i] == 0.0 ==> Label(c, Some(s))[i] == s
    ensures forall i :: 0 <= i < 4 ==> RawLabel(c)[i] == 1.0 ==> Label(c, Some(s))[i] == 1.0 - s
  {
    HardRawLabel(c);
  }

  /** Smoothing above one half has `s > 1 - s`: `np.clip` then returns `1 - s` everywhere. */
  lemma SmoothingAboveHalf(c: Classes, s: real)
    requires s > 0.5
    ensures forall i :: 0 <= i < 4 ==> Label(c, Some(s))[i] == 1.0 - s
  {
  }

  /** A negative smoothing value is true for `if` but its interval `[s, 1 - s]` holds 0 and 1: hard labels stay. */
  lemma NegativeSmoothingKeepsHardLabel(c: Classes, s: real)
    requires IsHard(c) && s < 0.0
    ensures Label(c, Some(s)) == RawLabel(c)
  {
    HardRawLabel(c);
    var l := Label(c, Some(s));
    assert forall i :: 0 <= i < 4 ==> l[i] == RawLabel(c)[i];
  }

  // ---------------------------------------------------------------------------------------
  // Paths

  /** `img_path.replace(".png", ".txt")`: every `.png` in the path, not only the extension. */
  function AnnotationPath(imagePath: string): (path: string)
    ensures |path| == |imagePath|
  {
    ReplaceAll(imagePath, ".png", ".txt")
  }

  /**
   * Where the annotation path does not start with a point, the image path does not start
   * with `.png`: its first character is kept and the rest is rewritten on its own.
   */
  lemma AnnotationPathHead(s: string)
    requires s != [] && AnnotationPath(s)[0] != '.'
    ensures AnnotationPath(s)[0] == s[0] && AnnotationPath(s)[1..] == AnnotationPath(s[1..])
  {
    if |s| < 4 {
      assert AnnotationPath(s) == s;
      assert AnnotationPath(s[1..]) == s[1..];
    } else if s[..4] == ".png" {
      assert false;
    }
  }

  /** An occurrence in `p + t` that starts after `p` is an occurrence in `t`. */
  lemma OccurrenceAfterPrefix(p: string, t: string, pat: string, i: nat)
    requires |p| <= i && OccursAt(p + t, pat, i)
    ensures OccursAt(t, pat, i - |p|)
  {
    assert (p + t)[i..i + |pat|] == t[i - |p|..i - |p| + |pat|];
  }

  /** No `.png` starts inside a `.txt` written by the rewrite. */
  lemma NoPngInReplacement(t: string, i: nat)
    requires i < 4
    ensures !OccursAt(".txt" + t, ".png", i)
  {
    var r := ".txt" + t;
    assert r[0] == '.' && r[1] == 't' && r[2] == 'x' && r[3] == 't';
  }

  /** A rewritten path that does not start with `.png` in the image path does not start with it either. */
  lemma NoPngAtStart(s: string)
    requires |s| >= 4 && s[..4] != ".png"
    ensures !OccursAt(AnnotationPath(s), ".png", 0)
  {
    var r := AnnotationPath(s);
    var t := AnnotationPath(s[1..]);
    assert r == [s[0]] + t;
    if OccursAt(r, ".png", 0) {
      assert r[..4] == ".png";
      assert r[0] == '.' && r[1] == 'p' && r[2] == 'n' && r[3] == 'g';
      assert t[0] == 'p';
      AnnotationPathHead(s[1..]);
      assert AnnotationPath(s[2..])[0] == 'n';
      AnnotationPathHead(s[2..]);
      assert s[2..][1..] == s[3..];
      assert AnnotationPath(s[3..])[0] == 'g';
      AnnotationPathHead(s[3..]);
    }
  }

  /** After the rewrite no `.png` is left in the path, not even one the rewrite could form. */
  lemma {:induction false} AnnotationPathHasNoPng(s: string)
    ensures forall i :: 0 <= i < |AnnotationPath(s)| ==> !OccursAt(AnnotationPath(s), ".png", i)
    decreases |s|
  {
    var r := AnnotationPath(s);
    if |s| < 4 {
      assert r == s;
    } else if s[..4] == ".png" {
      var t := AnnotationPath(s[4..]);
      AnnotationPathHasNoPng(s[4..]);
      assert r == ".txt" + t;
      forall i | 0 <= i < |r|
        ensures !OccursAt(r, ".png", i)
      {
        if i >= 4 && OccursAt(r, ".png", i) {
          OccurrenceAfterPrefix(".txt", t, ".png", i);
        } else if i < 4 {
          NoPngInReplacement(t, i);
        }
      }
    } else {
      var t := AnnotationPath(s[1..]);
      AnnotationPathHasNoPng(s[1..]);
      assert r == [s[0]] + t;
      NoPngAtStart(s);
      forall i | 1 <= i < |r|
        ensures !OccursAt(r, ".png", i)
      {
        if OccursAt(r, ".png", i) {
          OccurrenceAfterPrefix([s[0]], t, ".png", i);
        }
      }
    }
  }

  /** The image path without its extension has no `.` when the directory and id have none. */
  lemma DotFreeStem(dataDir: string, u: string)
    requires '.' !in u && '.' !in dataDir
    ensures '.' !in dataDir + "/train/" + u + "_image"
  {
    var mid, tail := "/train/", "_image";
    assert '.' !in mid && '.' !in tail;
    assert dataDir + mid + u + tail == dataDir + (mid + (u + tail));
  }

  /** A file name ending in `_image` plus an extension, split at the extension. */
  lemma ImageStem(stem: string, ext: string)
    ensures stem + ("_image" + ext) == (stem + "_image") + ext
  {
  }

  /**
   * For a data directory and image id without `.`, the annotation of image `u_image` is
   * `{data_dir}/train/u_image.txt`, next to its image.
   */
  lemma AnnotationPathOfImageId(dataDir: string, u: string, rest: string)
    requires '_' !in u && '.' !in u && '.' !in dataDir
    ensures AnnotationPath(ImagePath(dataDir, u + "_image" + rest)) == dataDir + "/train/" + u + "_image.txt"
  {
    ImagePathOfImageId(dataDir, u, rest);
    var stem := dataDir + "/train/" + u;
    assert "_image.png" == "_image" + ".png" && "_image.txt" == "_image" + ".txt";
    ImageStem(stem, ".png");
    ImageStem(stem, ".txt");
    assert ImagePath(dataDir, u + "_image" + rest) == (stem + "_image") + ".png";
    DotFreeStem(dataDir, u);
    ReplaceTrailing(stem + "_image", ".png", ".txt");
  }

  /**
   * Because `replace` rewrites every `.png`, a `.png` earlier in the path, such as in a data
   * directory named `d.png`, is changed too.
   */
  lemma AnnotationPathRewritesDirectory(d: string, p: string)
    requires '.' !in d && '.' !in p
    ensures AnnotationPath(d + ".png" + p + ".png") == d + ".txt" + p + ".txt"
  {
    var t := ".png" + (p + ".png");
    var s := d + t;
    forall i | 0 <= i < |d|
      ensures !OccursAt(s, ".png", i)
    {
      assert s[i] == d[i];
      NoStartNoOccurrence(s, ".png", i);
    }
    ReplaceAllSkipsPrefix(d, t, ".png", ".txt");
    assert t[..4] == ".png" && t[4..] == p + ".png";
    assert ReplaceAll(t, ".png", ".txt") == ".txt" + ReplaceAll(p + ".png", ".png", ".txt");
    ReplaceTrailing(p, ".png", ".txt");
    assert d + ".png" + p + ".png" == s;
    assert d + ".txt" + p + ".txt" == d + (".txt" + (p + ".txt"));
  }

  // ---------------------------------------------------------------------------------------
  // The dataset

  /**
   * The mask of one image whose annotation parsed to the YOLO rows `rows`: zeros of the
   * image's shape, with the rows converted by `yolo2voc` and each one's region set to 1.
   */
  method PaintBoxes(shape: ImageShape, rows: seq<Box>) returns (mask: array2<real>)
    ensures fresh(mask) && mask.Length0 == shape.height && mask.Length1 == shape.width
    ensures forall y, x :: 0 <= y < shape.height && 0 <= x < shape.width ==>
              mask[y, x] == if Covered(VocRows(shape.height, shape.width, rows), shape.height, shape.width, y, x)
                            then 1.0 else 0.0
  {
    mask := new real[shape.height, shape.width]((y, x) => 0.0);
    var data := BoxArray(rows);
    var bboxes := Yolo2Voc(shape.height, shape.width, data);
    ConvertedRows(shape.height, shape.width, data, bboxes, rows);
    Rasterize(mask, bboxes);
  }

  /**
   * The mask of one image from the parse of its annotation: zeros of its shape, painted
   * with the parsed boxes when the annotation parses. The `ValueError` of a malformed annotation is caught and
   * leaves the mask all zero.
   */
  method AnnotationMask(shape: ImageShape, parsed: Option<seq<Box>>) returns (mask: array2<real>)
    ensures fresh(mask) && mask.Length0 == shape.height && mask.Length1 == shape.width
    ensures forall y, x :: 0 <= y < shape.height && 0 <= x < shape.width ==>
              mask[y, x] == if Covered(BoxesOfParse(shape.height, shape.width, parsed), shape.height, shape.width, y, x)
                            then 1.0 else 0.0
  {
    if parsed.Some? {
      mask := PaintBoxes(shape, parsed.value);
    } else {
      mask := new real[shape.height, shape.width]((y, x) => 0.0);
    }
  }

  /** The rows `yolo2voc` returns for an array holding `rows` are `VocRows` of them. */
  lemma ConvertedRows(height: nat, width: nat, data: array2<real>, bboxes: array2<real>, rows: seq<Box>)
    requires data.Length1 == 4 && bboxes.Length1 == 4 && bboxes.Length0 == data.Length0
    requires RowsOf(data) == rows
    requires forall i :: 0 <= i < bboxes.Length0 ==> RowOf(bboxes, i) == VocRow(height, width, RowOf(data, i))
    ensures RowsOf(bboxes) == VocRows(height, width, rows)
  {
  }

  /** A malformed annotation gives an empty mask. */
  lemma MalformedAnnotationCoversNothing(shape: ImageShape, content: string, y: int, x: int)
    requires ParseAnnotation(content) == None
    ensures !Covered(MaskBoxes(shape.height, shape.width, content), shape.height, shape.width, y, x)
  {
  }

  /** What `__getitem__` returns: the image (its shape), the label, the mask and the image path. */
  datatype Sample = Sample(image: ImageShape, values: seq<real>, mask: array2<real>, path: string)

  /**
   * `CXRDataset(data_dir, df, smooth)`: the table it indexes and the smoothing it applies.
   * The image size, mode and transform are not modelled.
   */
  datatype Dataset = Dataset(dataDir: string, table: seq<Row>, smooth: Option<real>)
  {
    /** `__len__`. */
    function Length(): nat
    {
      |table|
    }

    /**
     * `__getitem__(index)`. The file system is the two maps: `images` gives the shape of
     * each image `cv2.imread` can read, and `files` maps the path of each text file to the
     * text `f.read()` returns from it (decoded, with its line endings already turned into
     * `\n`). The mask starts as zeros of the image's shape; when the annotation parses,
     * its boxes are converted by `yolo2voc` and painted. A malformed annotation leaves it
     * all zero; a missing annotation file is an error.
     */
    method GetItem(index: int, images: map<string, ImageShape>, files: map<string, string>)
      returns (r: Result<Sample, LoadError>)
      ensures !(0 <= index < Length()) ==> r == Failure(KeyError)
      ensures 0 <= index < Length() && ImagePath(dataDir, table[index].rec.id) !in images ==>
                r == Failure(ImageUnreadable(ImagePath(dataDir, table[index].rec.id)))
      ensures 0 <= index < Length() && ImagePath(dataDir, table[index].rec.id) in images &&
              AnnotationPath(ImagePath(dataDir, table[index].rec.id)) !in files ==>
                r == Failure(FileNotFound(AnnotationPath(ImagePath(dataDir, table[index].rec.id))))
      ensures r.Success? ==>
                0 <= index < Length() &&
                var path := ImagePath(dataDir, table[index].rec.id);
                path in images && AnnotationPath(path) in files &&
                var shape := images[path];
                var content := files[AnnotationPath(path)];
                r.value.path == path && r.value.image == shape &&
                r.value.values == Label(table[index].rec.classes, smooth) &&
                fresh(r.value.mask) &&
                r.value.mask.Length0 == shape.height && r.value.mask.Length1 == shape.width &&
                forall y, x :: 0 <= y < shape.height && 0 <= x < shape.width ==>
                  r.value.mask[y, x] == if Covered(MaskBoxes(shape.height, shape.width, content), shape.height, shape.width, y, x)
                                        then 1.0 else 0.0
      ensures (0 <= index < Length() && ImagePath(dataDir, table[index].rec.id) in images &&
               AnnotationPath(ImagePath(dataDir, table[index].rec.id)) in files) ==> r.Success?
    {
      if !(0 <= index < |table|) {
        return Failure(KeyError);
      }
      var rec := table[index].rec;
      var path := ImagePath(dataDir, rec.id);
      var values := Label(rec.classes, smooth);
      if path !in images {
        return Failure(ImageUnreadable(path));
      }
      var shape := images[path];
      var maskTxt := AnnotationPath(path);
      if maskTxt !in files {
        return Failure(FileNotFound(maskTxt));
      }
      var mask := AnnotationMask(shape, ParseAnnotation(files[maskTxt]));
      return Success(Sample(shape, values, mask, path));
    }
  }

  // ---------------------------------------------------------------------------------------
  // Rebalancing the train table

  predicate IsNegative(r: Row)
  {
    r.rec.classes.negative == 1
  }

  predicate IsTypical(r: Row)
  {
    r.rec.classes.typical == 1
  }

  predicate IsIndeterminate(r: Row)
  {
    r.rec.classes.indeterminate == 1
  }

  predicate IsAtypical(r: Row)
  {
    r.rec.classes.atypical == 1
  }

  /** `df_train[df_train["Negative for Pneumonia"] == 1]`, and likewise for the other three classes. */
  function Negatives(train: seq<Row>): seq<Row>
  {
    Filter(train, IsNegative)
  }

  function Typicals(train: seq<Row>): seq<Row>
  {
    Filter(train, IsTypical)
  }

  function Indeterminates(train: seq<Row>): seq<Row>
  {
    Filter(train, IsIndeterminate)
  }

  function Atypicals(train: seq<Row>): seq<Row>
  {
    Filter(train, IsAtypical)
  }

  /** `k` copies of a table, one after the other. */
  function Copies(s: seq<Row>, k: nat): (r: seq<Row>)
    ensures |r| == k * |s|
  {
    if k == 0 then [] else s + Copies(s, k - 1)
  }

  lemma {:induction false} CopiesCount(s: seq<Row>, k: nat, x: Row)
    ensures multiset(Copies(s, k))[x] == k * multiset(s)[x]
  {
    if k > 0 {
      CopiesCount(s, k - 1, x);
      assert multiset(Copies(s, k)) == multiset(s) + multiset(Copies(s, k - 1));
      assert (k - 1) * multiset(s)[x] + multiset(s)[x] == k * multiset(s)[x];
    }
  }

  /**
   * `pd.concat((negative, negative, typical, indeterminate × 3, atypical × 6))`: each class
   * group keeps the train table's order and is repeated 2, 1, 3 and 6 times.
   */
  function Rebalance(train: seq<Row>): (r: seq<Row>)
    ensures |r| == 2 * |Negatives(train)| + |Typicals(train)| + 3 * |Indeterminates(train)| + 6 * |Atypicals(train)|
  {
    Copies(Negatives(train), 2) + Copies(Typicals(train), 1) + Copies(Indeterminates(train), 3) +
    Copies(Atypicals(train), 6)
  }

  lemma CopiesUnrolled(s: seq<Row>)
    ensures Copies(s, 1) == s
    ensures Copies(s, 2) == s + s
    ensures Copies(s, 3) == s + s + s
    ensures Copies(s, 6) == s + s + s + s + s + s
  {
    assert Copies(s, 1) == s + [] == s;
    assert Copies(s, 3) == s + (s + s) == s + s + s;
    var s3 := s + s + s;
    assert Copies(s, 4) == s + s3;
    assert Copies(s, 5) == s + (s + s3);
    assert Copies(s, 6) == s + (s + (s + s3));
    assert s + (s + (s + s3)) == s + s + s + s3;
  }

  /** Rebalancing is the twelve-part concatenation of `setup`, written out. */
  lemma RebalanceIsConcatenation(train: seq<Row>)
    ensures var n, t, i, a := Negatives(train), Typicals(train), Indeterminates(train), Atypicals(train);
            Rebalance(train) == n + n + t + i + i + i + a + a + a + a + a + a
  {
    var n, t, i, a := Negatives(train), Typicals(train), Indeterminates(train), Atypicals(train);
    CopiesUnrolled(n);
    CopiesUnrolled(t);
    CopiesUnrolled(i);
    CopiesUnrolled(a);
    var a6 := a + a + a + a + a + a;
    assert Rebalance(train) == (n + n) + t + (i + i + i) + a6;
    assert (n + n) + t + (i + i + i) + a6 == n + n + t + i + i + i + a6;
  }

  /** How many copies of a row rebalancing makes: 2, 1, 3 and 6 for each class flag set to 1. */
  function Weight(c: Classes): nat
  {
    (if c.negative == 1 then 2 else 0) + (if c.typical == 1 then 1 else 0) +
    (if c.indeterminate == 1 then 3 else 0) + (if c.atypical == 1 then 6 else 0)
  }

  /** Adding up the copies each class group makes of a row gives its `Weight`. */
  lemma WeightedSum(c: Classes, m: nat, n: nat, t: nat, i: nat, a: nat)
    requires n == if c.negative == 1 then 2 * m else 0
    requires t == if c.typical == 1 then 1 * m else 0
    requires i == if c.indeterminate == 1 then 3 * m else 0
    requires a == if c.atypical == 1 then 6 * m else 0
    ensures n + t + i + a == Weight(c) * m
  {
    var wn: nat := if c.negative == 1 then 2 else 0;
    var wt: nat := if c.typical == 1 then 1 else 0;
    var wi: nat := if c.indeterminate == 1 then 3 else 0;
    var wa: nat := if c.atypical == 1 then 6 else 0;
    assert n == wn * m && t == wt * m && i == wi * m && a == wa * m;
    assert (wn + wt + wi + wa) * m == wn * m + wt * m + wi * m + wa * m;
  }

  lemma ConcatCount(n: seq<Row>, t: seq<Row>, i: seq<Row>, a: seq<Row>, x: Row)
    ensures multiset(n + t + i + a)[x] == multiset(n)[x] + multiset(t)[x] + multiset(i)[x] + multiset(a)[x]
  {
    assert multiset(n + t + i + a) == multiset(n) + multiset(t) + multiset(i) + multiset(a);
  }

  /**
   * Copying class groups 2, 1, 3 and 6 times: a row occurs as often as the weights of the
   * groups that hold it, times its count in the table.
   */
  lemma GroupedCounts(train: seq<Row>, n: seq<Row>, t: seq<Row>, i: seq<Row>, a: seq<Row>, x: Row)
    requires multiset(n)[x] == if IsNegative(x) then multiset(train)[x] else 0
    requires multiset(t)[x] == if IsTypical(x) then multiset(train)[x] else 0
    requires multiset(i)[x] == if IsIndeterminate(x) then multiset(train)[x] else 0
    requires multiset(a)[x] == if IsAtypical(x) then multiset(train)[x] else 0
    ensures multiset(Copies(n, 2) + Copies(t, 1) + Copies(i, 3) + Copies(a, 6))[x] ==
            Weight(x.rec.classes) * multiset(train)[x]
  {
    CopiesCount(n, 2, x);
    CopiesCount(t, 1, x);
    CopiesCount(i, 3, x);
    CopiesCount(a, 6, x);
    ConcatCount(Copies(n, 2), Copies(t, 1), Copies(i, 3), Copies(a, 6), x);
    WeightedSum(x.rec.classes, multiset(train)[x], multiset(Copies(n, 2))[x], multiset(Copies(t, 1))[x],
                multiset(Copies(i, 3))[x], multiset(Copies(a, 6))[x]);
  }

  /**
   * After rebalancing, every row occurs `Weight` times as often as in the train table:
   * a row flagged in several classes is copied for each, and a row flagged in none is gone.
   */
  lemma RebalanceCounts(train: seq<Row>, x: Row)
    ensures multiset(Rebalance(train))[x] == Weight(x.rec.classes) * multiset(train)[x]
  {
    FilterCount(train, IsNegative, x);
    FilterCount(train, IsTypical, x);
    FilterCount(train, IsIndeterminate, x);
    FilterCount(train, IsAtypical, x);
    GroupedCounts(train, Negatives(train), Typicals(train), Indeterminates(train), Atypicals(train), x);
  }

  /** A row with no class flag equal to 1 does not survive rebalancing. */
  lemma RebalanceDropsUnflagged(train: seq<Row>, x: Row)
    requires x.rec.classes.negative != 1 && x.rec.classes.typical != 1
    requires x.rec.classes.indeterminate != 1 && x.rec.classes.atypical != 1
    ensures x !in Rebalance(train)
  {
    RebalanceCounts(train, x);
    assert Weight(x.rec.classes) == 0;
    AbsentWithoutCopies(Rebalance(train), multiset(train)[x], x);
  }

  lemma AbsentWithoutCopies(r: seq<Row>, m: nat, x: Row)
    requires multiset(r)[x] == 0 * m
    ensures x !in r
  {
  }

  /** Rebalancing only copies rows: every row it returns is a train row. */
  lemma RebalanceKeepsRows(train: seq<Row>, x: Row)
    requires x in Rebalance(train)
    ensures x in train
  {
    RebalanceCounts(train, x);
    assert multiset(Rebalance(train))[x] > 0;
  }

  /** Every class group lists its rows in the order of the train table. */
  lemma ClassGroupsKeepOrder(train: seq<Row>)
    ensures IsSubsequence(Negatives(train), train) && IsSubsequence(Typicals(train), train)
    ensures IsSubsequence(Indeterminates(train), train) && IsSubsequence(Atypicals(train), train)
  {
    FilterIsSubsequence(train, IsNegative);
    FilterIsSubsequence(train, IsTypical);
    FilterIsSubsequence(train, IsIndeterminate);
    FilterIsSubsequence(train, IsAtypical);
  }

  // ---------------------------------------------------------------------------------------
  // The data module

  /** The fields of `cfg` that the data module reads. */
  datatype Config = Config(dataDir: string, batchSize: int, foldIndex: int, augmentClass: bool,
                           labelSmoothing: Option<real>)

  /** The train table: the rows outside the configured fold, rebalanced when `augment_class` is set. */
  function TrainTable(cfg: Config, images: seq<ImageRow>, studies: seq<StudyRow>, draw: nat -> nat): seq<Row>
  {
    var train := TrainSplit(Folded(images, studies, draw, Folds), cfg.foldIndex);
    if cfg.augmentClass then Rebalance(train) else train
  }

  /** The validation table: the rows of the configured fold. */
  function ValidTable(cfg: Config, images: seq<ImageRow>, studies: seq<StudyRow>, draw: nat -> nat): seq<Row>
  {
    ValidSplit(Folded(images, studies, draw, Folds), cfg.foldIndex)
  }

  /**
   * What `setup` promises about its two tables for every shuffle: validation rows are the
   * configured fold's and train rows the others' (rebalancing only copies train rows),
   * every fold lies in `[0, 5)`, no row comes from a study with several images, without
   * rebalancing the two tables together are the merged table, and an out-of-range fold
   * index leaves validation empty.
   */
  lemma SetupTables(cfg: Config, images: seq<ImageRow>, studies: seq<StudyRow>, draw: nat -> nat)
    ensures forall r :: r in ValidTable(cfg, images, studies, draw) ==>
              r.fold == cfg.foldIndex && 0 <= r.fold < Folds && Occurrences(images, r.rec.studyUid) == 1
    ensures forall r :: r in TrainTable(cfg, images, studies, draw) ==>
              r.fold != cfg.foldIndex && 0 <= r.fold < Folds && Occurrences(images, r.rec.studyUid) == 1
    ensures !cfg.augmentClass ==>
              |TrainTable(cfg, images, studies, draw)| + |ValidTable(cfg, images, studies, draw)| ==
                |StudyTable(images, studies)|
    ensures (cfg.foldIndex < 0 || cfg.foldIndex >= Folds) ==>
              ValidTable(cfg, images, studies, draw) == [] &&
              (!cfg.augmentClass ==> TrainTable(cfg, images, studies, draw) == Folded(images, studies, draw, Folds))
  {
    var rows := Folded(images, studies, draw, Folds);
    var train := TrainSplit(rows, cfg.foldIndex);
    FoldedProperties(images, studies, draw, Folds);
    SplitPartition(rows, cfg.foldIndex);
    forall r | r in TrainTable(cfg, images, studies, draw)
      ensures r in train
    {
      if cfg.augmentClass {
        RebalanceKeepsRows(train, r);
      }
    }
    forall r | r in train
      ensures r in rows
    {
      assert multiset(train)[r] > 0;
    }
    forall r | r in ValidTable(cfg, images, studies, draw)
      ensures r in rows
    {
      assert multiset(ValidTable(cfg, images, studies, draw))[r] > 0;
    }
    if cfg.foldIndex < 0 || cfg.foldIndex >= Folds {
      SplitOnAbsentFold(rows, cfg.foldIndex);
    }
  }

  /** With `augment_class`, the train table holds every train row `Weight` times. */
  lemma AugmentedTrainTable(cfg: Config, images: seq<ImageRow>, studies: seq<StudyRow>, draw: nat -> nat, x: Row)
    requires cfg.augmentClass
    ensures multiset(TrainTable(cfg, images, studies, draw))[x] ==
            Weight(x.rec.classes) * multiset(TrainSplit(Folded(images, studies, draw, Folds), cfg.foldIndex))[x]
  {
    RebalanceCounts(TrainSplit(Folded(images, studies, draw, Folds), cfg.foldIndex), x);
  }

  /**
   * `CXRDataModule`. The two CSV files `setup` reads are the parameters `images` and
   * `studies`, and `draw` is the random source of `df.sample`.
   */
  class DataModule {
    var cfg: Config
    var batchSize: int
    var trainDataset: Dataset
    var validDataset: Dataset

    /** `__init__`: keep the configuration, copy its batch size and run `setup`. */
    constructor(cfg: Config, images: seq<ImageRow>, studies: seq<StudyRow>, draw: nat -> nat)
      ensures this.cfg == cfg && batchSize == cfg.batchSize
      ensures trainDataset == Dataset(cfg.dataDir, TrainTable(cfg, images, studies, draw), cfg.labelSmoothing)
      ensures validDataset == Dataset(cfg.dataDir, ValidTable(cfg, images, studies, draw), None)
    {
      this.cfg := cfg;
      batchSize := cfg.batchSize;
      trainDataset := Dataset(cfg.dataDir, [], cfg.labelSmoothing);
      validDataset := Dataset(cfg.dataDir, [], None);
      new;
      Setup(images, studies, draw);
    }

    /**
     * `setup`: build the merged table, shuffle it, number it into five folds, split it on
     * `cfg.fold_index`, rebalance the train side when `cfg.augment_class` is set, and make
     * the two datasets. Only the train dataset gets `cfg.label_smoothing`.
     */
    method Setup(images: seq<ImageRow>, studies: seq<StudyRow>, draw: nat -> nat)
      modifies this
      ensures cfg == old(cfg) && batchSize == old(batchSize)
      ensures trainDataset == Dataset(cfg.dataDir, TrainTable(cfg, images, studies, draw), cfg.labelSmoothing)
      ensures validDataset == Dataset(cfg.dataDir, ValidTable(cfg, images, studies, draw), None)
    {
      var df := MergedTable(images, studies);
      df := Shuffle(df, draw);
      var folded := AssignFolds(df, Folds);
      var dfTrain := TrainSplit(folded, cfg.foldIndex);
      var dfValid := ValidSplit(folded, cfg.foldIndex);
      if cfg.augmentClass {
        dfTrain := Rebalance(dfTrain);
      }
      trainDataset := Dataset(cfg.dataDir, dfTrain, cfg.labelSmoothing);
      validDataset := Dataset(cfg.dataDir, dfValid, None);
    }
  }
}
