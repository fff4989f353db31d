/**
 * What `CXRDataset.__getitem__` derives from one table row in both data modules
 * (`cxr_dm_aux.py` and `cxr_dm_2.py`): the image path and the class label.
 */
module Samples {
  import opened PyStrings
  import opened StudyTables

  /** The height and width of the image `cv2.imread` returns; its pixels are not modelled. */
  datatype ImageShape = ImageShape(height: nat, width: nat)

  /**
   * The errors `__getitem__` lets through: `df.loc` with a label the table does not have,
   * `cv2.imread` returning `None` for an image it cannot read (the `.astype` that follows
   * raises), and `open` of a missing annotation file (`cxr_dm_aux.py` only; it is not
   * caught, unlike the `ValueError` of a malformed annotation).
   */
  datatype LoadError = KeyError | ImageUnreadable(path: string) | FileNotFound(path: string)

  /**
   * `f"{data_dir}/train/{img_id}_image.png"` with `img_id = id.split("_image")[0]`: the
   * file under `{data_dir}/train/` whose name is the part of `id` before its first
   * `_image` (all of `id` when it has none), followed by `_image.png`.
   */
  function ImagePath(dataDir: string, id: string): (path: string)
    ensures |path| >= |dataDir| + 17
    ensures path[..|dataDir| + 7] == dataDir + "/train/"
    ensures path[|path| - 10..] == "_image.png"
    ensures var stem := path[|dataDir| + 7..|path| - 10];
            |stem| <= |id| && stem == id[..|stem|] &&
            (forall i :: 0 <= i < |stem| ==> !OccursAt(id, "_image", i)) &&
            (|stem| < |id| ==> OccursAt(id, "_image", |stem|))
  {
    var stem := BeforeFirst(id, "_image");
    var path := dataDir + "/train/" + stem + "_image.png";
    assert path[|dataDir| + 7..|path| - 10] == stem;
    path
  }

  /**
   * An image id `u_image` (and anything after it, such as a second `_image`) gives the
   * file `{data_dir}/train/u_image.png`: the id is cut at its first `_image`.
   */
  lemma ImagePathOfImageId(dataDir: string, u: string, rest: string)
    requires '_' !in u
    ensures ImagePath(dataDir, u + "_image" + rest) == dataDir + "/train/" + u + "_image.png"
  {
    BeforeFirstOfPrefix(u, "_image", rest);
  }

  /** An id without `_image` is used whole. */
  lemma ImagePathOfPlainId(dataDir: string, id: string)
    requires forall i :: 0 <= i < |id| ==> !OccursAt(id, "_image", i)
    ensures ImagePath(dataDir, id) == dataDir + "/train/" + id + "_image.png"
  {
  }

  /**
   * The four class columns `Negative for Pneumonia`, `Typical Appearance`,
   * `Indeterminate Appearance`, `Atypical Appearance`, in that order, as floats.
   */
  function RawLabel(c: Classes): (values: seq<real>)
    ensures |values| == 4
  {
    [c.negative as real, c.typical as real, c.indeterminate as real, c.atypical as real]
  }

  /** Each entry of the label is the value of its class column, in the fixed class order. */
  lemma RawLabelOrder(c: Classes)
    ensures RawLabel(c)[0] == c.negative as real && RawLabel(c)[1] == c.typical as real
    ensures RawLabel(c)[2] == c.indeterminate as real && RawLabel(c)[3] == c.atypical as real
  {
  }

  /** The class columns hold 0/1 flags. */
  predicate IsHard(c: Classes)
  {
    c.negative in {0, 1} && c.typical in {0, 1} && c.indeterminate in {0, 1} && c.atypical in {0, 1}
  }

  /** A row of 0/1 flags gives a label of 0.0/1.0 values. */
  lemma HardRawLabel(c: Classes)
    requires IsHard(c)
    ensures forall i :: 0 <= i < 4 ==> RawLabel(c)[i] == 0.0 || RawLabel(c)[i] == 1.0
  {
  }
}
