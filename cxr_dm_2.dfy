/**
 * `lightning/inputs/cxr_dm_2.py`: the data module whose samples are the image and its hard
 * class label, without a mask. The merged table is split into seven folds and the train
 * table is never rebalanced.
 */
module CxrDm2 {
  import opened Wrappers
  import opened Seqs
  import opened StudyTables
  import opened Samples

  /** `df["fold"] = df.index % 7`. */
  const Folds: nat := 7

  /** What `__getitem__` returns: the image (its shape), the label and the image path. */
  datatype Sample = Sample(image: ImageShape, values: seq<real>, path: string)

  /**
   * `CXRDataset(data_dir, df)`: the table it indexes. The image size, mode and transform
   * are not modelled.
   */
  datatype Dataset = Dataset(dataDir: string, table: seq<Row>)
  {
    /** `__len__`. */
    function Length(): nat
    {
      |table|
    }

    /**
     * `__getitem__(index)`. `images` gives the shape of each image `cv2.imread` can read;
     * an index outside the table is a `KeyError` and an unreadable image an error.
     */
    function GetItem(index: int, images: map<string, ImageShape>): (r: Result<Sample, LoadError>)
      ensures r == Failure(KeyError) <==> !(0 <= index < Length())
      ensures r.Failure? && r.error.ImageUnreadable? <==>
                0 <= index < Length() && ImagePath(dataDir, table[index].rec.id) !in images
      ensures r.Failure? ==> r.error.KeyError? || r.error.ImageUnreadable?
      ensures r.Success? ==>
                0 <= index < Length() &&
                r.value.path == ImagePath(dataDir, table[index].rec.id) &&
                r.value.path in images && r.value.image == images[r.value.path] &&
                r.value.values == RawLabel(table[index].rec.classes)
    {
      if !(0 <= index < |table|) then Failure(KeyError)
      else
        var rec := table[index].rec;
        var path := ImagePath(dataDir, rec.id);
        if path !in images then Failure(ImageUnreadable(path))
        else Success(Sample(images[path], RawLabel(rec.classes), path))
    }
  }

  /** A readable image of a row whose classes are 0/1 flags gives a label of 0.0/1.0 values, unsmoothed. */
  lemma HardSampleLabel(ds: Dataset, index: int, images: map<string, ImageShape>)
    requires 0 <= index < ds.Length() && IsHard(ds.table[index].rec.classes)
    requires ImagePath(ds.dataDir, ds.table[index].rec.id) in images
    ensures ds.GetItem(index, images).Success?
    ensures |ds.GetItem(index, images).value.values| == 4
    ensures forall i :: 0 <= i < 4 ==>
              ds.GetItem(index, images).value.values[i] == 0.0 || ds.GetItem(index, images).value.values[i] == 1.0
  {
    HardRawLabel(ds.table[index].rec.classes);
  }

  /** The fields of `cfg` that the data module reads. */
  datatype Config = Config(dataDir: string, batchSize: int, foldIndex: int)

  /** The train table: the rows outside the configured fold. */
  function TrainTable(cfg: Config, images: seq<ImageRow>, studies: seq<StudyRow>, draw: nat -> nat): seq<Row>
  {
    TrainSplit(Folded(images, studies, draw, Folds), cfg.foldIndex)
  }

  /** The validation table: the rows of the configured fold. */
  function ValidTable(cfg: Config, images: seq<ImageRow>, studies: seq<StudyRow>, draw: nat -> nat): seq<Row>
  {
    ValidSplit(Folded(images, studies, draw, Folds), cfg.foldIndex)
  }

  /**
   * What `setup` promises about its two tables for every shuffle: they split the folded
   * table into the configured fold and the rest, each in the table's order, with sizes
   * adding up to the merged table's; every fold lies in `[0, 7)`; no row comes from a study
   * with several images; and a fold index outside `0..6` puts every row in train.
   */
  lemma SetupTables(cfg: Config, images: seq<ImageRow>, studies: seq<StudyRow>, draw: nat -> nat)
    ensures forall r :: r in ValidTable(cfg, images, studies, draw) ==>
              r.fold == cfg.foldIndex && 0 <= r.fold < Folds && Occurrences(images, r.rec.studyUid) == 1
    ensures forall r :: r in TrainTable(cfg, images, studies, draw) ==>
              r.fold != cfg.foldIndex && 0 <= r.fold < Folds && Occurrences(images, r.rec.studyUid) == 1
    ensures multiset(TrainTable(cfg, images, studies, draw)) + multiset(ValidTable(cfg, images, studies, draw)) ==
            multiset(Folded(images, studies, draw, Folds))
    ensures |TrainTable(cfg, images, studies, draw)| + |ValidTable(cfg, images, studies, draw)| ==
            |StudyTable(images, studies)|
    ensures IsSubsequence(TrainTable(cfg, images, studies, draw), Folded(images, studies, draw, Folds))
    ensures IsSubsequence(ValidTable(cfg, images, studies, draw), Folded(images, studies, draw, Folds))
    ensures (cfg.foldIndex < 0 || cfg.foldIndex >= Folds) ==>
              ValidTable(cfg, images, studies, draw) == [] &&
              TrainTable(cfg, images, studies, draw) == Folded(images, studies, draw, Folds)
  {
    var rows := Folded(images, studies, draw, Folds);
    FoldedProperties(images, studies, draw, Folds);
    SplitPartition(rows, cfg.foldIndex);
    SplitKeepsOrder(rows, cfg.foldIndex);
    forall r | r in TrainTable(cfg, images, studies, draw)
      ensures r in rows
    {
      assert multiset(TrainTable(cfg, images, studies, draw))[r] > 0;
    }
    forall r | r in ValidTable(cfg, images, studies, draw)
      ensures r in rows
    {
      assert multiset(ValidTable(cfg, images, studies, draw))[r] > 0;
    }
    if cfg.foldIndex < 0 || cfg.foldIndex >= Folds {
      SplitOnAbsentFold(rows, cfg.foldIndex);
    }
  }

  /**
   * `CXRDataModule`. The two CSV files `setup` reads are the parameters `images` and
   * `studies`, and `draw` is the random source of `df.sample`.
   */
  class DataModule {
    var cfg: Config
    var batchSize: int
    var trainDataset: Dataset
    var validDataset: Dataset

    /** `__init__`: keep the configuration, copy its batch size and run `setup`. */
    constructor(cfg: Config, images: seq<ImageRow>, studies: seq<StudyRow>, draw: nat -> nat)
      ensures this.cfg == cfg && batchSize == cfg.batchSize
      ensures trainDataset == Dataset(cfg.dataDir, TrainTable(cfg, images, studies, draw))
      ensures validDataset == Dataset(cfg.dataDir, ValidTable(cfg, images, studies, draw))
    {
      this.cfg := cfg;
      batchSize := cfg.batchSize;
      trainDataset := Dataset(cfg.dataDir, []);
      validDataset := Dataset(cfg.dataDir, []);
      new;
      Setup(images, studies, draw);
    }

    /**
     * `setup`: build the merged table, shuffle it, number it into seven folds, split it on
     * `cfg.fold_index` and make the two datasets.
     */
    method Setup(images: seq<ImageRow>, studies: seq<StudyRow>, draw: nat -> nat)
      modifies this
      ensures cfg == old(cfg) && batchSize == old(batchSize)
      ensures trainDataset == Dataset(cfg.dataDir, TrainTable(cfg, images, studies, draw))
      ensures validDataset == Dataset(cfg.dataDir, ValidTable(cfg, images, studies, draw))
    {
      var df := MergedTable(images, studies);
      df := Shuffle(df, draw);
      var folded := AssignFolds(df, Folds);
      trainDataset := Dataset(cfg.dataDir, TrainSplit(folded, cfg.foldIndex));
      validDataset := Dataset(cfg.dataDir, ValidSplit(folded, cfg.foldIndex));
    }
  }
}
