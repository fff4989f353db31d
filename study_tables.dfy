/**
 * The study table that `CXRDataModule.setup` builds in both data modules: drop every study
 * with two or more image rows, normalise the study ids, inner-join image rows to study
 * rows, shuffle, number the rows into folds and split on the configured fold.
 */
module StudyTables {
  import opened Seqs
  import opened PyStrings

  /** The four class columns, in the fixed order Negative, Typical, Indeterminate, Atypical. */
  datatype Classes = Classes(negative: int, typical: int, indeterminate: int, atypical: int)

  /** A row of `train_image_level.csv`: image `id` and `StudyInstanceUID`. */
  datatype ImageRow = ImageRow(id: string, studyUid: string)

  /** A row of `train_study_level.csv`: study `id` (with the `_study` suffix) and its classes. */
  datatype StudyRow = StudyRow(id: string, classes: Classes)

  /** A study row once its `id` column has been replaced by `StudyInstanceUID`. */
  datatype StudyLabels = StudyLabels(studyUid: string, classes: Classes)

  /** A row of the merged table: the image columns followed by the study's class columns. */
  datatype Record = Record(id: string, studyUid: string, classes: Classes)

  /** A merged row together with the `fold` column assigned after shuffling. */
  datatype Row = Row(rec: Record, fold: int)

  // ---------------------------------------------------------------------------------------
  // Removing studies with several images

  /** `len(train_image_level[train_image_level["StudyInstanceUID"] == sid])`. */
  function Occurrences(rows: seq<ImageRow>, sid: string): (n: nat)
    ensures n <= |rows|
  {
    if rows == [] then 0
    else
      (if rows[0].studyUid == sid then 1 else 0) + Occurrences(rows[1..], sid)
  }

  lemma {:induction false} OccurrencesSnoc(rows: seq<ImageRow>, x: ImageRow)
    ensures forall sid :: Occurrences(rows + [x], sid) ==
                          Occurrences(rows, sid) + (if x.studyUid == sid then 1 else 0)
  {
    if rows != [] {
      assert (rows + [x])[1..] == rows[1..] + [x];
      OccurrencesSnoc(rows[1..], x);
    }
  }

  /** A study has no image row exactly when its count is zero. */
  lemma {:induction false} OccurrencesZero(rows: seq<ImageRow>, sid: string)
    ensures Occurrences(rows, sid) == 0 <==> forall i :: 0 <= i < |rows| ==> rows[i].studyUid != sid
  {
    if rows != [] {
      OccurrencesZero(rows[1..], sid);
      assert forall i :: 1 <= i < |rows| ==> rows[i] == rows[1..][i - 1];
    }
  }

  lemma {:induction false} OccurrencesOfMember(rows: seq<ImageRow>, x: ImageRow)
    requires x in rows
    ensures Occurrences(rows, x.studyUid) >= 1
  {
    if rows[0] != x {
      OccurrencesOfMember(rows[1..], x);
    }
  }

  /**
   * Selecting image rows with a mask that treats all rows of study `sid` alike either
   * keeps all of that study's rows or none of them.
   */
  lemma {:induction false} OccurrencesFilter(rows: seq<ImageRow>, p: ImageRow -> bool, sid: string, keep: bool)
    requires forall x :: x in rows && x.studyUid == sid ==> p(x) == keep
    ensures Occurrences(Filter(rows, p), sid) == if keep then Occurrences(rows, sid) else 0
  {
    if rows != [] {
      assert forall x :: x in rows[1..] ==> x in rows;
      OccurrencesFilter(rows[1..], p, sid, keep);
      var head := if p(rows[0]) then [rows[0]] else [];
      assert Filter(rows, p) == head + Filter(rows[1..], p);
      assert head + Filter(rows[1..], p) == (head + Filter(rows[1..], p));
      if p(rows[0]) {
        assert (head + Filter(rows[1..], p))[1..] == Filter(rows[1..], p);
      } else {
        assert head + Filter(rows[1..], p) == Filter(rows[1..], p);
      }
    }
  }

  /**
   * The loop of `setup` that collects `more_than_2_ids`: for every image row in order, its
   * study id is appended when the study has two or more image rows. A study with `c >= 2`
   * rows is therefore listed exactly `c` times and every other study not at all.
   */
  method FindRepeatedStudies(rows: seq<ImageRow>) returns (ids: seq<string>)
    ensures forall sid :: multiset(ids)[sid] ==
                          if Occurrences(rows, sid) >= 2 then Occurrences(rows, sid) else 0
    ensures forall sid :: sid in ids <==> Occurrences(rows, sid) >= 2
  {
    ids := [];
    var i := 0;
    while i < |rows|
      invariant 0 <= i <= |rows|
      invariant forall sid :: multiset(ids)[sid] ==
                              if Occurrences(rows, sid) >= 2 then Occurrences(rows[..i], sid) else 0
    {
      var sid := rows[i].studyUid;
      var count := 0;
      var j := 0;
      while j < |rows|
        invariant 0 <= j <= |rows|
        invariant count == Occurrences(rows[..j], sid)
      {
        assert rows[..j + 1] == rows[..j] + [rows[j]];
        OccurrencesSnoc(rows[..j], rows[j]);
        if rows[j].studyUid == sid {
          count := count + 1;
        }
        j := j + 1;
      }
      assert rows[..j] == rows;
      assert rows[..i + 1] == rows[..i] + [rows[i]];
      OccurrencesSnoc(rows[..i], rows[i]);
      if count >= 2 {
        ids := ids + [sid];
      }
      i := i + 1;
    }
    assert rows[..i] == rows;
  }

  /** `train_image_level[~train_image_level["StudyInstanceUID"].isin(ids)]`. */
  function Cleanse(rows: seq<ImageRow>, ids: seq<string>): (r: seq<ImageRow>)
    ensures forall x :: x in r <==> x in rows && x.studyUid !in ids
  {
    Filter(rows, (x: ImageRow) => x.studyUid !in ids)
  }

  /** The image rows of the studies that have exactly one image, in their original order. */
  function SingleImageRows(rows: seq<ImageRow>): seq<ImageRow>
  {
    Filter(rows, (x: ImageRow) => Occurrences(rows, x.studyUid) == 1)
  }

  /**
   * Cleansing with the ids of the repeated studies keeps exactly the rows of the studies
   * seen once, in their original order.
   */
  lemma CleanseKeepsSingleStudies(rows: seq<ImageRow>, ids: seq<string>)
    requires forall sid :: sid in ids <==> Occurrences(rows, sid) >= 2
    ensures Cleanse(rows, ids) == SingleImageRows(rows)
  {
    forall x | x in rows
      ensures (x.studyUid !in ids) == (Occurrences(rows, x.studyUid) == 1)
    {
      OccurrencesOfMember(rows, x);
    }
    FilterExtensional(rows, (x: ImageRow) => x.studyUid !in ids,
                      (x: ImageRow) => Occurrences(rows, x.studyUid) == 1);
  }

  /**
   * After cleansing, a study with two or more image rows has none left (all of its rows are
   * dropped, it is not reduced to one), a study with one row keeps it, and the rows left
   * are in their original order.
   */
  lemma SingleImageRowsProperties(rows: seq<ImageRow>)
    ensures forall sid :: Occurrences(rows, sid) >= 2 ==> Occurrences(SingleImageRows(rows), sid) == 0
    ensures forall sid :: Occurrences(rows, sid) == 1 ==> Occurrences(SingleImageRows(rows), sid) == 1
    ensures IsSubsequence(SingleImageRows(rows), rows)
  {
    var p := (x: ImageRow) => Occurrences(rows, x.studyUid) == 1;
    forall sid | Occurrences(rows, sid) >= 2
      ensures Occurrences(SingleImageRows(rows), sid) == 0
    {
      OccurrencesFilter(rows, p, sid, false);
    }
    forall sid | Occurrences(rows, sid) == 1
      ensures Occurrences(SingleImageRows(rows), sid) == 1
    {
      OccurrencesFilter(rows, p, sid, true);
    }
    FilterIsSubsequence(rows, p);
  }

  // ---------------------------------------------------------------------------------------
  // Study ids and the join

  /** `train_study_level["StudyInstanceUID"] = train_study_level["id"].apply(lambda x: x.replace("_study", ""))`, then `del train_study_level["id"]`. */
  function NormaliseStudy(st: StudyRow): StudyLabels
  {
    StudyLabels(ReplaceAll(st.id, "_study", ""), st.classes)
  }

  function NormaliseStudies(studies: seq<StudyRow>): (r: seq<StudyLabels>)
    ensures |r| == |studies|
    ensures forall i :: 0 <= i < |r| ==> r[i] == NormaliseStudy(studies[i])
  {
    seq(|studies|, i requires 0 <= i < |studies| => NormaliseStudy(studies[i]))
  }

  /** A study id `uid + "_study"` is normalised back to `uid` (study UIDs hold no `_`). */
  lemma NormalisedStudyUid(uid: string, classes: Classes)
    requires '_' !in uid
    ensures NormaliseStudy(StudyRow(uid + "_study", classes)) == StudyLabels(uid, classes)
  {
    ReplaceTrailing(uid, "_study", "");
    assert uid + "" == uid;
  }

  /**
   * `replace` is a single left-to-right pass: an occurrence formed by removing another one
   * survives, so a normalised id can still contain `_study`.
   */
  lemma NormaliseIsSinglePass()
    ensures NormaliseStudy(StudyRow("_stu_studydy", Classes(0, 0, 0, 0))).studyUid == "_study"
  {
    var s := "_stu_studydy";
    assert s == "_stu" + "_studydy";
    forall i | 0 <= i < 4
      ensures !OccursAt(s, "_study", i)
    {
      assert i == 0 ==> s[4] != "_study"[4];
      assert i != 0 ==> s[i] != '_';
    }
    ReplaceAllSkipsPrefix("_stu", "_studydy", "_study", "");
    RemoveLeadingStudy();
  }

  lemma RemoveLeadingStudy()
    ensures ReplaceAll("_studydy", "_study", "") == "dy"
  {
    var t := "_studydy";
    assert t[..6] == "_study" && t[6..] == "dy";
    assert ReplaceAll("dy", "_study", "") == "dy";
  }

  /** One merged row: the image columns and the study's class columns. */
  function Merge(img: ImageRow, st: StudyLabels): Record
  {
    Record(img.id, img.studyUid, st.classes)
  }

  /** The merged rows one image row contributes: one per study row with its study id. */
  function MatchesOf(img: ImageRow, studies: seq<StudyLabels>): (r: seq<Record>)
    ensures forall rec :: rec in r ==> rec.id == img.id && rec.studyUid == img.studyUid
  {
    if studies == [] then []
    else (if studies[0].studyUid == img.studyUid then [Merge(img, studies[0])] else []) +
         MatchesOf(img, studies[1..])
  }

  /** `images.merge(studies, on="StudyInstanceUID")`: an inner join in the order of the left table. */
  function InnerJoin(images: seq<ImageRow>, studies: seq<StudyLabels>): (r: seq<Record>)
    ensures forall rec :: rec in r ==>
              exists i :: 0 <= i < |images| && images[i].id == rec.id && images[i].studyUid == rec.studyUid
  {
    if images == [] then []
    else
      assert forall i :: 1 <= i < |images| ==> images[i] == images[1..][i - 1];
      MatchesOf(images[0], studies) + InnerJoin(images[1..], studies)
  }

  lemma {:induction false} MatchesOfMembership(img: ImageRow, studies: seq<StudyLabels>, rec: Record)
    ensures rec in MatchesOf(img, studies) <==>
            exists j :: 0 <= j < |studies| && studies[j].studyUid == img.studyUid && rec == Merge(img, studies[j])
  {
    if studies != [] {
      MatchesOfMembership(img, studies[1..], rec);
      if rec in MatchesOf(img, studies[1..]) {
        var j :| 0 <= j < |studies[1..]| && studies[1..][j].studyUid == img.studyUid && rec == Merge(img, studies[1..][j]);
        assert studies[j + 1] == studies[1..][j];
      }
      if exists j :: 0 <= j < |studies| && studies[j].studyUid == img.studyUid && rec == Merge(img, studies[j]) {
        var j :| 0 <= j < |studies| && studies[j].studyUid == img.studyUid && rec == Merge(img, studies[j]);
        if j > 0 {
          assert studies[1..][j - 1] == studies[j];
        }
      }
    }
  }

  /**
   * Inner-join semantics: a merged row exists exactly when some image row and some study
   * row share the study id; rows without a partner are dropped.
   */
  lemma {:induction false} InnerJoinMembership(images: seq<ImageRow>, studies: seq<StudyLabels>, rec: Record)
    ensures rec in InnerJoin(images, studies) <==>
            exists i, j :: 0 <= i < |images| && 0 <= j < |studies| &&
                           images[i].studyUid == studies[j].studyUid && rec == Merge(images[i], studies[j])
  {
    if images != [] {
      InnerJoinMembership(images[1..], studies, rec);
      MatchesOfMembership(images[0], studies, rec);
      if rec in InnerJoin(images[1..], studies) {
        var i, j :| 0 <= i < |images[1..]| && 0 <= j < |studies| &&
                    images[1..][i].studyUid == studies[j].studyUid && rec == Merge(images[1..][i], studies[j]);
        assert images[i + 1] == images[1..][i];
      }
      if rec in MatchesOf(images[0], studies) {
        var j :| 0 <= j < |studies| && studies[j].studyUid == images[0].studyUid && rec == Merge(images[0], studies[j]);
        assert rec == Merge(images[0], studies[j]);
      }
      if exists i, j :: 0 <= i < |images| && 0 <= j < |studies| &&
                        images[i].studyUid == studies[j].studyUid && rec == Merge(images[i], studies[j]) {
        var i, j :| 0 <= i < |images| && 0 <= j < |studies| &&
                    images[i].studyUid == studies[j].studyUid && rec == Merge(images[i], studies[j]);
        if i > 0 {
          assert images[1..][i - 1] == images[i];
        }
      }
    }
  }

  /** The merged table `setup` shuffles: single-image studies joined to their study rows. */
  function StudyTable(images: seq<ImageRow>, studies: seq<StudyRow>): seq<Record>
  {
    InnerJoin(SingleImageRows(images), NormaliseStudies(studies))
  }

  /** Every merged row belongs to a study that had exactly one image row. */
  lemma StudyTableExcludesRepeated(images: seq<ImageRow>, studies: seq<StudyRow>, rec: Record)
    requires rec in StudyTable(images, studies)
    ensures Occurrences(images, rec.studyUid) == 1
    ensures exists k :: 0 <= k < |images| && images[k].id == rec.id && images[k].studyUid == rec.studyUid
  {
    var single := SingleImageRows(images);
    var normal := NormaliseStudies(studies);
    InnerJoinMembership(single, normal, rec);
    var i, j :| 0 <= i < |single| && 0 <= j < |normal| &&
                single[i].studyUid == normal[j].studyUid && rec == Merge(single[i], normal[j]);
    assert single[i] in single;
    var k :| 0 <= k < |images| && images[k] == single[i];
  }

  // ---------------------------------------------------------------------------------------
  // Shuffle, folds and the split

  /**
   * `df.sample(frac=1)`: a random reordering of all rows. The random source is the
   * parameter `draw`: with `n` rows left, the next row taken is number `draw(n) % n` of them.
   */
  function Shuffle<T>(s: seq<T>, draw: nat -> nat): (r: seq<T>)
    ensures |r| == |s|
    ensures multiset(r) == multiset(s)
    decreases |s|
  {
    if s == [] then []
    else
      var j := draw(|s|) % |s|;
      var rest := s[..j] + s[j + 1..];
      assert s == s[..j] + [s[j]] + s[j + 1..];
      assert multiset(s) == multiset{s[j]} + multiset(rest);
      [s[j]] + Shuffle(rest, draw)
  }

  /** `df["fold"] = df.index % k` after `reset_index(drop=True)`. */
  function AssignFolds(df: seq<Record>, k: nat): (rows: seq<Row>)
    requires k > 0
    ensures |rows| == |df|
    ensures forall i :: 0 <= i < |rows| ==> rows[i].rec == df[i] && rows[i].fold == i % k
    ensures forall i :: 0 <= i < |rows| ==> 0 <= rows[i].fold < k
  {
    seq(|df|, i requires 0 <= i < |df| => Row(df[i], i % k))
  }

  /** `df[df["fold"] != fold_index]`. */
  function TrainSplit(rows: seq<Row>, foldIndex: int): (t: seq<Row>)
    ensures forall r :: r in t <==> r in rows && r.fold != foldIndex
  {
    Filter(rows, (r: Row) => r.fold != foldIndex)
  }

  /** `df[df["fold"] == fold_index]`. */
  function ValidSplit(rows: seq<Row>, foldIndex: int): (v: seq<Row>)
    ensures forall r :: r in v <==> r in rows && r.fold == foldIndex
  {
    Filter(rows, (r: Row) => r.fold == foldIndex)
  }

  /**
   * Train and validation partition the table: each row goes to exactly one side and the
   * sizes add up.
   */
  lemma SplitPartition(rows: seq<Row>, foldIndex: int)
    ensures multiset(TrainSplit(rows, foldIndex)) + multiset(ValidSplit(rows, foldIndex)) == multiset(rows)
    ensures |TrainSplit(rows, foldIndex)| + |ValidSplit(rows, foldIndex)| == |rows|
    ensures forall r :: r in TrainSplit(rows, foldIndex) ==> r.fold != foldIndex
    ensures forall r :: r in ValidSplit(rows, foldIndex) ==> r.fold == foldIndex
  {
    FilterComplement(rows, (r: Row) => r.fold != foldIndex, (r: Row) => r.fold == foldIndex);
  }

  /** Both sides of the split keep the table's order. */
  lemma SplitKeepsOrder(rows: seq<Row>, foldIndex: int)
    ensures IsSubsequence(TrainSplit(rows, foldIndex), rows)
    ensures IsSubsequence(ValidSplit(rows, foldIndex), rows)
  {
    FilterIsSubsequence(rows, (r: Row) => r.fold != foldIndex);
    FilterIsSubsequence(rows, (r: Row) => r.fold == foldIndex);
  }

  /** A fold index that no row carries gives an empty validation set and puts all rows in train. */
  lemma SplitOnAbsentFold(rows: seq<Row>, foldIndex: int)
    requires forall i :: 0 <= i < |rows| ==> rows[i].fold != foldIndex
    ensures ValidSplit(rows, foldIndex) == []
    ensures TrainSplit(rows, foldIndex) == rows
  {
    FilterNone(rows, (r: Row) => r.fold == foldIndex);
    FilterAll(rows, (r: Row) => r.fold != foldIndex);
  }

  /** Numbering rows into `k` folds and splitting: folds lie in `[0, k)` and out-of-range fold indices select nothing. */
  lemma FoldSplit(df: seq<Record>, k: nat, foldIndex: int)
    requires k > 0
    ensures forall r :: r in AssignFolds(df, k) ==> 0 <= r.fold < k
    ensures (foldIndex < 0 || foldIndex >= k) ==>
              ValidSplit(AssignFolds(df, k), foldIndex) == [] && TrainSplit(AssignFolds(df, k), foldIndex) == AssignFolds(df, k)
  {
    if foldIndex < 0 || foldIndex >= k {
      SplitOnAbsentFold(AssignFolds(df, k), foldIndex);
    }
  }

  // ---------------------------------------------------------------------------------------
  // The pipeline of `setup`

  /**
   * The steps of `setup` up to the merge, in the order of the source: collect the repeated
   * studies with the loop, drop their rows, normalise the study ids and join.
   */
  method MergedTable(images: seq<ImageRow>, studies: seq<StudyRow>) returns (df: seq<Record>)
    ensures df == StudyTable(images, studies)
  {
    var ids := FindRepeatedStudies(images);
    var cleansed := Cleanse(images, ids);
    CleanseKeepsSingleStudies(images, ids);
    var labels := NormaliseStudies(studies);
    df := InnerJoin(cleansed, labels);
  }

  /** The merged columns of a table, without `fold`. */
  function Records(rows: seq<Row>): (recs: seq<Record>)
    ensures |recs| == |rows|
    ensures forall i :: 0 <= i < |rows| ==> recs[i] == rows[i].rec
  {
    seq(|rows|, i requires 0 <= i < |rows| => rows[i].rec)
  }

  /** The merged table after `df.sample(frac=1)` and `df["fold"] = df.index % k`. */
  function Folded(images: seq<ImageRow>, studies: seq<StudyRow>, draw: nat -> nat, k: nat): seq<Row>
    requires k > 0
  {
    AssignFolds(Shuffle(StudyTable(images, studies), draw), k)
  }

  /**
   * Whatever order the shuffle picks, the numbered table holds every merged row exactly
   * as often as the merged table does, the row at position `i` is in fold `i % k`, and no
   * row belongs to a study with several image rows.
   */
  lemma FoldedProperties(images: seq<ImageRow>, studies: seq<StudyRow>, draw: nat -> nat, k: nat)
    requires k > 0
    ensures multiset(Records(Folded(images, studies, draw, k))) == multiset(StudyTable(images, studies))
    ensures |Folded(images, studies, draw, k)| == |StudyTable(images, studies)|
    ensures forall i :: 0 <= i < |Folded(images, studies, draw, k)| ==>
              Folded(images, studies, draw, k)[i].fold == i % k
    ensures forall r :: r in Folded(images, studies, draw, k) ==>
              0 <= r.fold < k && Occurrences(images, r.rec.studyUid) == 1
  {
    var table := StudyTable(images, studies);
    var shuffled := Shuffle(table, draw);
    var rows := AssignFolds(shuffled, k);
    assert Records(rows) == shuffled;
    forall r | r in rows
      ensures Occurrences(images, r.rec.studyUid) == 1
    {
      var i :| 0 <= i < |rows| && rows[i] == r;
      assert r.rec == shuffled[i];
      assert r.rec in multiset(table);
      StudyTableExcludesRepeated(images, studies, r.rec);
    }
  }
}
