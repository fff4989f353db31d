# SIIM COVID-19 chest X-ray data modules in Dafny

This project models the data preparation of the two PyTorch Lightning data modules of the
SIIM COVID-19 detection code: `lightning/inputs/cxr_dm_aux.py` and
`lightning/inputs/cxr_dm_2.py`. Both modules build a study table in `CXRDataModule.setup`:

1. Find every study (`StudyInstanceUID`) with two or more image rows and drop all of its rows.
2. Strip `_study` from the study ids.
3. Inner-join the image rows to the study rows.
4. Shuffle the joined table.
5. Number the rows into folds by position: 5 folds in `cxr_dm_aux.py`, 7 in `cxr_dm_2.py`.
6. Split on the configured fold into validation and train.

In `cxr_dm_aux.py` the train side can also be rebalanced. Each class group is repeated 2, 1,
3 and 6 times.

`CXRDataset.__getitem__` turns one table row into a sample:
- the image path, derived from the row's id;
- the four class columns as the label;
- in `cxr_dm_aux.py` only, an opacity mask. The label is clipped to `[s, 1 - s]` when
  smoothing is on. The mask is built by parsing the image's YOLO annotation file,
  converting its boxes to corner boxes with `yolo2voc` and painting each box region into a
  zero array.

Modules:

| file | module | contents |
|---|---|---|
| `wrappers.dfy` | `Wrappers` | `Option`, `Result` |
| `strings.dfy` | `PyStrings` | Python's `str.replace`, `split(pat)[0]`, `strip`, `split(" ")` |
| `seqs.dfy` | `Seqs` | the pandas boolean-mask selection `df[mask]` as `Filter`, with its counting and order lemmas |
| `study_tables.dfy` | `StudyTables` | the parts of `setup` both modules share: repeated-study search (a loop), cleansing, id normalisation, inner join, shuffle, folds, split |
| `boxes.dfy` | `Boxes` | `yolo2voc` on an N x 4 `array2<real>`, `int()` truncation, numpy slice bounds, mask painting (loops) |
| `annotations.dfy` | `Annotations` | parsing an annotation file into boxes, with the `ValueError` cases as `None` |
| `samples.dfy` | `Samples` | image path and class label, shared by both datasets |
| `cxr_dm_aux.dfy` | `CxrDmAux` | label smoothing, annotation path, mask, `__getitem__`, rebalancing, `CXRDataModule` as a class |
| `cxr_dm_2.dfy` | `CxrDm2` | `__getitem__` without mask, seven folds, `CXRDataModule` as a class |

The two CSV files are the parameters `images` and `studies`. The file system is two maps:
readable images to their shapes, and the path of each text file to the text `f.read()`
returns from it: decoded, and with its line endings already turned into `\n`. The randomness of
`df.sample(frac=1)` is a parameter `draw`: with `n` rows left, the next row taken is
number `draw(n) % n`. Every table property below is proved for every `draw`, so it holds
for whatever order the shuffle produces. Numbers are exact `real`s and integers are
unbounded.

Rasterisation follows the code's slice semantics: it does not simply clamp a box to the
image. A negative slice bound counts from the far edge before
the bound is clamped to `[0, H]` or `[0, W]`, as in numpy (`Boxes.NegativeStartWraps`).
The mask is the float array `np.zeros` creates, so its cells are the reals `0.0` and
`1.0`, not integers.

## Model

| member | source | states |
|---|---|---|
| StudyTables.FindRepeatedStudies | lightning/inputs/cxr_dm_aux.py:109-115 | the loop lists a study exactly `c` times when it has `c >= 2` image rows, and not at all otherwise; a study is listed iff it has two or more rows |
| StudyTables.Occurrences | lightning/inputs/cxr_dm_aux.py:113-114 | `len(sid_df)` is at most the number of image rows |
| StudyTables.OccurrencesZero | lightning/inputs/cxr_dm_aux.py:113-114 | `len(sid_df)` is zero iff no image row has study id `sid` |
| StudyTables.Cleanse | lightning/inputs/cxr_dm_aux.py:118-120 | a row is kept iff it is an image row whose study id is not among the listed ids |
| StudyTables.CleanseKeepsSingleStudies | lightning/inputs/cxr_dm_aux.py:118-120 | the `isin` selection with the repeated ids keeps exactly the rows of single-image studies, in order |
| StudyTables.SingleImageRowsProperties | lightning/inputs/cxr_dm_2.py:70-82 | a study with two or more image rows loses all of them, not all but one; a study with one row keeps it; the order is kept |
| StudyTables.NormalisedStudyUid | lightning/inputs/cxr_dm_aux.py:123-126 | the study id `uid + "_study"` becomes `uid` |
| StudyTables.NormaliseIsSinglePass | lightning/inputs/cxr_dm_2.py:84-86 | `replace` makes one left-to-right pass: `_stu_studydy` normalises to `_study` |
| StudyTables.NormaliseStudies | lightning/inputs/cxr_dm_2.py:84-87 | every study row is normalised and kept, in order |
| StudyTables.InnerJoin | lightning/inputs/cxr_dm_aux.py:127 | every merged row carries the id and study id of some image row |
| StudyTables.InnerJoinMembership | lightning/inputs/cxr_dm_2.py:88 | a merged row exists iff some image row and some study row share the study id; it holds the image's columns and the study's classes |
| StudyTables.StudyTableExcludesRepeated | lightning/inputs/cxr_dm_aux.py:109-127 | every merged row comes from an image row of a study that had exactly one image row |
| StudyTables.MergedTable | lightning/inputs/cxr_dm_aux.py:109-127 | the steps of `setup` up to the merge compute the merged table of single-image studies |
| StudyTables.Shuffle | lightning/inputs/cxr_dm_aux.py:130 | the shuffle is a permutation: same length and same multiset of rows |
| StudyTables.AssignFolds | lightning/inputs/cxr_dm_aux.py:132 | the row at position `i` gets fold `i % k`, so every fold lies in `[0, k)`, and keeps its record |
| StudyTables.TrainSplit | lightning/inputs/cxr_dm_aux.py:134 | a row is in train iff it is a table row with `fold != fold_index` |
| StudyTables.ValidSplit | lightning/inputs/cxr_dm_aux.py:135 | a row is in validation iff it is a table row with `fold == fold_index` |
| StudyTables.SplitPartition | lightning/inputs/cxr_dm_aux.py:134-135 | train and validation together hold every row exactly as often as the table; sizes add up; train rows have `fold != fold_index` and validation rows `fold == fold_index` |
| StudyTables.SplitKeepsOrder | lightning/inputs/cxr_dm_2.py:95-96 | both sides of the split keep the table's relative order |
| StudyTables.SplitOnAbsentFold | lightning/inputs/cxr_dm_2.py:95-96 | a fold index no row carries gives an empty validation set and puts every row in train |
| StudyTables.FoldSplit | lightning/inputs/cxr_dm_aux.py:132-135 | after numbering into `k` folds, folds lie in `[0, k)` and a fold index outside it selects nothing for validation and everything for train |
| StudyTables.FoldedProperties | lightning/inputs/cxr_dm_aux.py:127-132 | for every shuffle the shuffled, numbered table has the merged table's rows with their multiplicities, row `i` is in fold `i % k`, and no row is from a repeated study |
| Seqs.FilterComplement | lightning/inputs/cxr_dm_aux.py:134-135 | two complementary selections partition the table: multisets add up to the table's |
| Seqs.FilterIsSubsequence | lightning/inputs/cxr_dm_aux.py:139-142 | a boolean-mask selection keeps the order of the rows it keeps |
| Seqs.FilterCount | lightning/inputs/cxr_dm_aux.py:139-142 | a selection keeps every copy of a selected row and no copy of any other |
| PyStrings.ReplaceAll | lightning/inputs/cxr_dm_aux.py:71 | `replace` with a replacement as long as the pattern keeps the length of the text |
| PyStrings.ReplaceTrailing | lightning/inputs/cxr_dm_aux.py:124 | `replace` on `p + pat` removes exactly the trailing `pat` when `pat`'s first character is not in `p` |
| PyStrings.BeforeFirst | lightning/inputs/cxr_dm_aux.py:48 | `split(pat)[0]` is the longest prefix before the first occurrence of `pat`, or the whole string when `pat` does not occur |
| PyStrings.Strip | lightning/inputs/cxr_dm_aux.py:78 | `strip()` returns the text with the whitespace at both ends cut off: it sits in the input between whitespace and neither starts nor ends with whitespace |
| PyStrings.Split | lightning/inputs/cxr_dm_aux.py:78 | `split(" ")` yields at least one part, no part holds the separator, and joining the parts gives the input back |
| PyStrings.SplitJoinWith | lightning/inputs/cxr_dm_aux.py:78 | split undoes join for separator-free parts |
| Samples.ImagePath | lightning/inputs/cxr_dm_aux.py:48-49 | the path is `{data_dir}/train/`, then the part of the id before its first `_image` (all of it when there is none), then `_image.png`; `cxr_dm_2.py:33-34` is the same |
| Samples.ImagePathOfImageId | lightning/inputs/cxr_dm_2.py:33-34 | the id `u_image...` gives the path `{data_dir}/train/u_image.png`: the id is cut at its first `_image` |
| Samples.ImagePathOfPlainId | lightning/inputs/cxr_dm_aux.py:48-49 | an id without `_image` is used whole |
| Samples.RawLabel | lightning/inputs/cxr_dm_2.py:36-50 | the label has four entries, one per class column |
| Samples.RawLabelOrder | lightning/inputs/cxr_dm_2.py:36-50 | the label holds Negative, Typical, Indeterminate, Atypical in that order |
| Samples.HardRawLabel | lightning/inputs/cxr_dm_2.py:36-50 | 0/1 class flags give a 0.0/1.0 label |
| CxrDm2.Dataset.GetItem | lightning/inputs/cxr_dm_2.py:32-55 | a `KeyError` iff the index is outside the table, an unreadable image iff the path is not readable, no other failure; on success the path, the image and the unsmoothed label of that row |
| CxrDm2.HardSampleLabel | lightning/inputs/cxr_dm_2.py:36-51 | a readable row with 0/1 flags gives a 4-entry 0.0/1.0 label |
| CxrDm2.SetupTables | lightning/inputs/cxr_dm_2.py:88-96 | for every shuffle: validation rows are the fold's and train rows the others'; folds lie in `[0, 7)`; no row is from a repeated study; the two tables partition the folded table, keep its order and their sizes add to the merged table's; a fold index outside `0..6` gives an empty validation set and train is everything |
| CxrDm2.DataModule.constructor | lightning/inputs/cxr_dm_2.py:59-63 | keeps the config, copies its batch size and runs `setup` |
| CxrDm2.DataModule.Setup | lightning/inputs/cxr_dm_2.py:65-118 | the train and validation datasets hold the train and validation tables of the configured fold |
| Boxes.Yolo2Voc | lightning/inputs/cxr_dm_aux.py:13-29 | returns a fresh array of the same shape whose row `i` is the corner box of input row `i`; the caller's array is not modified |
| Boxes.VocRow | lightning/inputs/cxr_dm_aux.py:23-27 | one row of `yolo2voc`: `x2 - x1 == w * W`, `y2 - y1 == h * H`, `(x1 + x2) / 2 == xmid * W`, `(y1 + y2) / 2 == ymid * H` |
| Boxes.VocRowRoundTrip | lightning/inputs/cxr_dm_aux.py:23-27 | for a non-empty image, converting the corner box back gives the normalised box |
| Boxes.ScaleWidthColumns | lightning/inputs/cxr_dm_aux.py:23 | columns 0 and 2 of every row are multiplied by the width |
| Boxes.ScaleHeightColumns | lightning/inputs/cxr_dm_aux.py:24 | columns 1 and 3 of every row are multiplied by the height |
| Boxes.CentreToCornerColumns | lightning/inputs/cxr_dm_aux.py:26 | columns 0 and 1 are moved back by half of columns 2 and 3 |
| Boxes.SizeToCornerColumns | lightning/inputs/cxr_dm_aux.py:27 | columns 2 and 3 become columns 0 and 1 plus themselves |
| Boxes.Trunc | lightning/inputs/cxr_dm_aux.py:85 | `int()` truncates toward zero: the result is within one of `x` on the side of zero |
| Boxes.SliceIndex | lightning/inputs/cxr_dm_aux.py:86 | a slice bound in `[0, len]` is kept, one above is clamped to `len`, a negative one counts from the end and is clamped to 0 |
| Boxes.InBoxNonNegative | lightning/inputs/cxr_dm_aux.py:85-86 | for non-negative corners the painted region is the truncated box clipped to the image |
| Boxes.NegativeStartWraps | lightning/inputs/cxr_dm_aux.py:86 | a box from `x1 = -3` to `x2 = 7` paints nothing in a 100-wide mask, because the negative start counts from the right edge |
| Boxes.PaintRegion | lightning/inputs/cxr_dm_aux.py:86 | `mask[r0:r1, c0:c1] = 1.0` sets the cells of the region to 1 and leaves every other cell as it was |
| Boxes.Rasterize | lightning/inputs/cxr_dm_aux.py:84-86 | after the loop a cell is 1 iff it lies in the region of some box, else it keeps its value, so later boxes never clear earlier ones |
| Annotations.ParseNumeral | lightning/inputs/cxr_dm_aux.py:79 | a numeral converts only when it is non-empty and made of digits, `.` and signs |
| Annotations.ParseNumeralOfParts | lightning/inputs/cxr_dm_aux.py:79 | every numeral `sign + w + "." + f` or `sign + w` (sign none, `+` or `-`; digit strings `w`, `f`, not both empty) converts to `±(w + f / 10^|f|)` |
| Annotations.ParsedNumeralHasParts | lightning/inputs/cxr_dm_aux.py:79 | conversely, only text of one of those two shapes converts |
| Annotations.ParseNumber | lightning/inputs/cxr_dm_aux.py:79 | like Python's `float()`, a token converts as the numeral left once `float()` whitespace is stripped from both ends |
| PyStrings.FloatStrip | lightning/inputs/cxr_dm_aux.py:79 | the text `float()` converts is the part of the token with only `float()` whitespace before and after it, neither starts nor ends with `float()` whitespace (ASCII space and `\t\n\v\f\r`, and non-ASCII whitespace, but not U+001C to U+001F) and is empty only for all-whitespace text |
| PyStrings.FloatStripOfPadded | lightning/inputs/cxr_dm_aux.py:79 | any text with only `float()` whitespace around it in the token, neither starting nor ending with such whitespace, is exactly the text `float()` converts |
| PyStrings.FloatStripKeeps | lightning/inputs/cxr_dm_aux.py:79 | `float()` strips only whitespace: every other character of the token survives |
| Annotations.SeparatorIsNotStripped | lightning/inputs/cxr_dm_aux.py:78-79 | U+001C is whitespace to `strip()` but not to `float()`, so the token `\x1c1` is not a number |
| Annotations.ParseNumberOfNumeral | lightning/inputs/cxr_dm_aux.py:79 | a token whose first and last characters belong to a numeral converts as that numeral |
| Annotations.ForeignCharacterIsNotNumber | lightning/inputs/cxr_dm_aux.py:79 | a token with a character that is neither `float()` whitespace nor a character of a plain decimal numeral is outside the modelled numeral syntax and is rejected |
| PyStrings.StripKeepsNonSpace | lightning/inputs/cxr_dm_aux.py:78 | `strip()` removes only whitespace: every other character survives |
| Annotations.Tokens | lightning/inputs/cxr_dm_aux.py:78 | at least one token, no token holds a space, and joining the tokens with spaces gives the stripped text with newlines turned into spaces |
| Annotations.ParseAll | lightning/inputs/cxr_dm_aux.py:79 | the token array converts iff every token converts, element by element |
| Annotations.ConvertAllAppend | lightning/inputs/cxr_dm_aux.py:79 | conversion is element-wise: two converted arrays convert together |
| Annotations.BoxRows | lightning/inputs/cxr_dm_aux.py:80-82 | `reshape(-1, 5)[:, 1:]` gives one box per group of five numbers, holding numbers 1 to 4 of the group |
| Annotations.ParseAnnotation | lightning/inputs/cxr_dm_aux.py:77-81 | a parsed annotation has one box per five tokens |
| Annotations.ParseAnnotationAccepts | lightning/inputs/cxr_dm_aux.py:77-81 | an annotation parses iff every token of `replace/strip/split` is a number and there are a multiple of five tokens |
| Annotations.ParsedBoxValues | lightning/inputs/cxr_dm_aux.py:77-82 | a parsed annotation has one box per five tokens, holding the values of tokens 1 to 4 of its group; token 0, the class, is dropped |
| Annotations.BlankAnnotationIsRejected | lightning/inputs/cxr_dm_aux.py:75-88 | an empty or whitespace-only file gives no boxes |
| Annotations.NonNumericTokenIsRejected | lightning/inputs/cxr_dm_aux.py:79 | a non-numeric token gives no boxes |
| Annotations.TokenCountIsChecked | lightning/inputs/cxr_dm_aux.py:80 | a token count that is not a multiple of five gives no boxes |
| Annotations.BoxesOfParse | lightning/inputs/cxr_dm_aux.py:82-83 | a failed parse paints no boxes; otherwise one corner box per parsed row, converted by `yolo2voc` |
| Annotations.MaskBoxesOfParsed | lightning/inputs/cxr_dm_aux.py:77-83 | the mask boxes of a parsed file are its rows converted by `yolo2voc` |
| Annotations.BoxArray | lightning/inputs/cxr_dm_aux.py:82 | the parsed boxes as a fresh N x 4 array, row by row |
| Annotations.ExampleAnnotation | lightning/inputs/cxr_dm_aux.py:77-82 | the file `0 0.5 0.5 0.2 0.2` parses to the one box `(0.5, 0.5, 0.2, 0.2)` |
| Annotations.SingleBoxExample | lightning/inputs/cxr_dm_aux.py:71-88 | in exact arithmetic, on a 100 x 100 image that file paints exactly rows and columns 40 to 59 |
| Annotations.Float32SingleBoxRegion | lightning/inputs/cxr_dm_aux.py:79-86 | with the `float32` value of `0.2`, the corners are 39.99999985... and 60.00000015..., so `int()` makes the painted block rows and columns 39 to 59 |
| CxrDmAux.Clip | lightning/inputs/cxr_dm_aux.py:65 | `np.clip` keeps a value inside `[lo, hi]`, raises one below to `lo`, and returns `hi` when the value is above `hi` or when `hi < lo` |
| CxrDmAux.Label | lightning/inputs/cxr_dm_aux.py:51-65 | four entries; with smoothing `s` on and at most one half, every entry lies in `[s, 1 - s]` |
| CxrDmAux.UnsmoothedLabel | lightning/inputs/cxr_dm_aux.py:64 | with no smoothing value, or `0.0`, the label is the class columns unchanged |
| CxrDmAux.SmoothedHardLabel | lightning/inputs/cxr_dm_aux.py:64-65 | smoothing `s` in `(0, 0.5]` keeps every entry in `[s, 1 - s]` and maps 0 to `s` and 1 to `1 - s` |
| CxrDmAux.SmoothingAboveHalf | lightning/inputs/cxr_dm_aux.py:65 | smoothing above one half sets every entry to `1 - s` |
| CxrDmAux.NegativeSmoothingKeepsHardLabel | lightning/inputs/cxr_dm_aux.py:64-65 | a negative smoothing value is true for `if` but leaves 0/1 labels unchanged |
| CxrDmAux.AnnotationPath | lightning/inputs/cxr_dm_aux.py:71 | the annotation path has the length of the image path |
| CxrDmAux.AnnotationPathHasNoPng | lightning/inputs/cxr_dm_aux.py:71 | after `replace(".png", ".txt")` no `.png` is left in the path, not even one the rewrite could have formed |
| CxrDmAux.AnnotationPathOfImageId | lightning/inputs/cxr_dm_aux.py:48-71 | for a dot-free data directory and id `u_image...`, the annotation is `{data_dir}/train/u_image.txt` |
| CxrDmAux.AnnotationPathRewritesDirectory | lightning/inputs/cxr_dm_aux.py:71 | `replace(".png", ".txt")` rewrites every `.png` of the path, a `.png` in a directory name too |
| CxrDmAux.PaintBoxes | lightning/inputs/cxr_dm_aux.py:72-86 | a fresh mask of the image's shape whose cell is 1 iff it lies in some converted box, else 0 |
| CxrDmAux.AnnotationMask | lightning/inputs/cxr_dm_aux.py:72-88 | the same for a parse result; a failed parse, the caught `ValueError`, gives an all-zero mask |
| CxrDmAux.MalformedAnnotationCoversNothing | lightning/inputs/cxr_dm_aux.py:87-88 | a file that does not parse covers no cell |
| CxrDmAux.Dataset.GetItem | lightning/inputs/cxr_dm_aux.py:47-94 | a `KeyError` outside the table, an unreadable image error, then a missing-file error for the annotation; otherwise the path, the image, the possibly smoothed label and a fresh 0/1 mask of the image's shape whose cells are the box regions of the annotation; success whenever the image and the file exist |
| CxrDmAux.Copies | lightning/inputs/cxr_dm_aux.py:144-160 | `k` copies of a group have `k` times its length |
| CxrDmAux.CopiesCount | lightning/inputs/cxr_dm_aux.py:144-160 | `k` copies hold every row `k` times as often |
| CxrDmAux.Rebalance | lightning/inputs/cxr_dm_aux.py:138-161 | the rebalanced table has length `2n + t + 3i + 6a` |
| CxrDmAux.RebalanceIsConcatenation | lightning/inputs/cxr_dm_aux.py:144-158 | the rebalanced table is negative, negative, typical, indeterminate three times, atypical six times, in that order |
| CxrDmAux.ClassGroupsKeepOrder | lightning/inputs/cxr_dm_aux.py:139-142 | every class group lists its rows in the train table's order |
| CxrDmAux.RebalanceCounts | lightning/inputs/cxr_dm_aux.py:138-161 | a row occurs `2[neg] + [typ] + 3[ind] + 6[aty]` times as often as in the train table |
| CxrDmAux.RebalanceDropsUnflagged | lightning/inputs/cxr_dm_aux.py:139-158 | a row with no class flag equal to 1 is dropped |
| CxrDmAux.RebalanceKeepsRows | lightning/inputs/cxr_dm_aux.py:139-161 | every rebalanced row is a train row |
| CxrDmAux.SetupTables | lightning/inputs/cxr_dm_aux.py:127-161 | for every shuffle: validation rows are the fold's and train rows the others', rebalanced or not; folds lie in `[0, 5)`; no row is from a repeated study; without rebalancing the sizes add to the merged table's; an out-of-range fold index gives an empty validation set and, without rebalancing, train is everything |
| CxrDmAux.AugmentedTrainTable | lightning/inputs/cxr_dm_aux.py:138-161 | with `augment_class`, every train row occurs `Weight` times in the train table |
| CxrDmAux.DataModule.constructor | lightning/inputs/cxr_dm_aux.py:98-102 | keeps the config, copies its batch size and runs `setup` |
| CxrDmAux.DataModule.Setup | lightning/inputs/cxr_dm_aux.py:104-183 | the train dataset holds the (rebalanced) train table with `label_smoothing`; the validation dataset holds the fold's rows with no smoothing |

## Left out

- Image pixels: `cv2.imread` and its `float32` conversion are not modelled. An image is only its shape. The three-channel replication is left out too.
- A failed `cv2.imread` returns `None`, and the `.astype` after it raises `AttributeError`. This is modelled as the error `ImageUnreadable`.
- The augmentation transforms from `.augmentation` are not part of this model. They are treated as the identity on image and mask.
- The sample is the image shape, label, mask and path. It is not a tensor.
- `float32` rounding of labels, annotation values and box arithmetic is not modelled. All arithmetic is exact `real`.
- Annotations.SingleBoxExample: the result holds in exact arithmetic only. In the source, `float32` turns `0.2` into 0.20000000298..., so `x1` is 39.99999985... and `int()` truncates it to 39; the real mask is rows and columns 39 to 59 (`Annotations.Float32SingleBoxRegion`). The same off-by-one affects `Boxes.Rasterize` whenever rounding puts a corner just below an integer.
- A text file that is not valid text in the platform encoding makes `f.read()` raise `UnicodeDecodeError`, a `ValueError` the source catches, which leaves the mask all zero. The model's files are already decoded text, so it has no such case.
- Annotation numerals are plain decimals with an optional sign and point, and optional surrounding `float()` whitespace.
- Annotations.ParseNumber: Python's other float spellings convert in the source but are rejected by the model: exponents (`1e-05`), `nan` and `inf`, underscores between digits (`1_0`), and non-ASCII decimal digits (`١`).
- Annotations.ParseNumber: the token array `np.array(...)` at line 78 has a numpy `<U` dtype, which drops trailing NUL characters from each token before the `float32` cast at line 79; the model converts the token as `split` returns it, so a token such as `0.5` followed by NUL is rejected and the mask stays all zero, where the source converts it.
- Annotations.ForeignCharacterIsNotNumber: "rejected" means outside the modelled numeral syntax; a token with an exponent, `nan`, `inf`, an underscore or a non-ASCII digit converts in the source.
  - The partial mask left by an `int(nan)` error in the loop is not modelled either. Nor is the uncaught `OverflowError` of `int(inf)` for a value beyond the `float32` range.
- `pd.read_csv` is not modelled, and neither are the other columns of the CSV files. The tables are parameters with the columns the code reads.
- `reset_index(inplace=True)` adds an `index` column. It is not modelled, because nothing reads it.
- The randomness of `df.sample(frac=1)` is the parameter `draw`.
- `print` calls are not modelled.
- These `CXRDataset` fields are not modelled: `size`, `mode` and `training`.
- The `DataLoader` settings are left out: batch sizes, shuffle flags, workers, `pin_memory`. So are `train_dataloader`, `val_dataloader` and `test_dataloader`. `test_dataloader` names a `test_dataset` that is never assigned.
- `lightning/test.py` is not part of this model. It is command-line and trainer configuration.
- Integers are unbounded. The table sizes and fold indices in the source are far from any machine-integer limit.
