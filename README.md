# kinodata epoch-output merging, modelled in Dafny

This project models how the kinodata regression model gathers its evaluation
outputs at the end of an epoch (kinodata/model/regression_model.py):

- `cat_many` merges a list of per-batch output records into one concatenated
  column per field. The field set defaults to the first record's keys, and a
  requested subset must be contained in them. Its inner `ensure_tensor` passes
  tensors through, converts Python lists element by element with `int()`, and
  rejects anything else.
- `correlation_from_eval_outputs` concatenates the `pred` and `target` tensors
  of all outputs in output order.
- `validation_epoch_end` derives the joint plot bounds `y_min`/`y_max`.
- `test_epoch_end` merges `["pred", "ident"]` with `cat_many`, stacks the
  merged columns side by side and turns the result into table rows.
- `validation_step` (and `test_step`, which reuses it) supplies the record
  shape: a 0-D MAE tensor under `<stage>/mae`, then `pred`, `target` and
  `ident`.

The code is side-effect free, so everything is modelled with datatypes, pure
functions and lemmas. There are five modules:

- `Results`: `Option` and `Result`.
- `PyInt`: Python's `int()` on ints, floats and base-10 strings.
  - Strings: surrounding whitespace, an optional sign, then ASCII digits with
    single underscores allowed between digits. The whitespace is the ASCII space,
    `\t` to `\r`, and the non-ASCII characters for which `str.isspace` holds.
    U+001C to U+001F satisfy `str.isspace` but are not skipped by `int()`.
  - A literal with more than 4300 digits (leading zeros included, underscores
    not) is rejected, as `int()` does under the default
    `sys.get_int_max_str_digits()`.
  - Floats are truncated toward zero.
  - A rejected string is `None`, which stands for `ValueError`.
- `Torch`:
  - `torch.cat` along dim 0 on 1-D tensors. An empty list is an error, and so
    is any 0-D tensor, reported at its position.
  - `torch.stack(dim=1).tolist()` on columns. An empty list is an error, and
    so are columns of unequal size, reported at the first mismatching entry.
  - `min()`/`max()`.
  - A tensor is `Vec(seq<real>)` (1-D) or `Scalar(real)` (0-D).
- `CatMany`: `cat_many` and `ensure_tensor`.
  - Records and the result are insertion-ordered dicts, written as sequences of
    `(key, value)` pairs.
  - Lookup finds the first binding.
  - The result is built by Python's `d[k] = v`, so a repeated subset key
    appears once, at its first position.
  - Errors follow Python's evaluation order:
    1. `data[0]` on an empty list;
    2. the subset assertion;
    3. then field by field in subset order, the first field that fails decides the error:
       - first, record by record, its first `ensure_tensor` error: missing key (`KeyError`), `int()` failure at an element, a value outside int64 (`torch.tensor` overflow), or an unsupported value (`ValueError`);
       - failing that, `torch.cat`'s error for that field. So a 0-D tensor under an earlier field is reported before a key missing under a later one.
  - The columns are computed ahead of assembling the dict. This is equivalent to
    the source because each column is a pure function of the data and its key.
- `RegressionModel`: the step record, the pred/target concatenation (together
  with the broadcast shape check of the element-wise product that follows it),
  the joint bounds and the test table.

Properties proved include:

- the result's keys;
- the exact offset of every record's elements within a merged column;
- the Ok/Err condition of each operation, and its first error;
- index alignment of merged predictions with targets, and of the table's predictions with identifiers;
- coverage and attainment of the bounds;
- the test table's rows: row k is `[pred[k], ident[k]]`.

One fact is proved about the source as written: `cat_many` over step records with
the default field set fails at once, because every record starts with a 0-D MAE
tensor. The source only calls it with the subset `["pred", "ident"]`.

## Model

| member | source | states |
|---|---|---|
| PyInt.ParseInt | kinodata/model/regression_model.py:26 | `int(s)` for a string, in base 10; its behaviour is stated by ParseShow (every printed int parses back), by the accepted examples and by the rejected texts below |
| PyInt.ToInt | kinodata/model/regression_model.py:26 | `int(x)` for a list element: ints unchanged, floats truncated (Truncate), strings parsed (ParseInt); `None` where Python raises `ValueError` |
| PyInt.Truncate | kinodata/model/regression_model.py:26 | `int()` of a float truncates toward zero: the result is the integer nearest the float on the side of zero, within distance below 1 |
| PyInt.ParseShow | kinodata/model/regression_model.py:26 | `int()` parses back every int Python prints: `int(str(n)) == n` for every n whose decimal form is within the 4300-digit limit, beyond which `str(n)` itself raises |
| PyInt.NatDigitsValue | kinodata/model/regression_model.py:26 | the decimal digits written for a natural number read back as that number |
| PyInt.ParseIntPaddedNegative | kinodata/model/regression_model.py:26 | surrounding whitespace and a minus sign are accepted: `int(" -42\n") == -42` |
| PyInt.ParseIntUnderscore | kinodata/model/regression_model.py:26 | single underscores between digits are accepted: `int("1_000") == 1000` |
| PyInt.ParseNatDigits | kinodata/model/regression_model.py:26 | the digits Python prints for a natural number, when within the digit limit, are a well-formed literal whose value is that number |
| PyInt.ShowUnpadded | kinodata/model/regression_model.py:26 | the text Python prints for an int has no whitespace to strip at either end |
| PyInt.StripUnpadded | kinodata/model/regression_model.py:26 | a text that neither starts nor ends with whitespace is unchanged by stripping |
| PyInt.RejectedUnderscores | kinodata/model/regression_model.py:26 | `int()` raises on "", on a doubled underscore ("1__0") and on a leading underscore ("_1") |
| PyInt.RejectedNonDigits | kinodata/model/regression_model.py:26 | `int()` raises on a space after the sign ("- 5") and on a decimal point ("1.5") |
| Torch.Flatten | kinodata/model/regression_model.py:30 | concatenation has the summed length of its parts |
| PyInt.DigitCountOfDigits | kinodata/model/regression_model.py:26 | a text made only of digits counts one digit per character toward the digit limit |
| PyInt.RejectedOverlong | kinodata/model/regression_model.py:26 | `int()` raises on a literal of 4301 zeros followed by 5: the digit limit counts leading zeros |
| PyInt.RejectedSeparator | kinodata/model/regression_model.py:26 | `int()` does not skip the information separator U+001C: `int("\x1c5")` raises |
| PyInt.NoBreakSpaceStripped | kinodata/model/regression_model.py:26 | `int()` skips a no-break space before the literal and a newline after it: `int("\xa05\n") == 5` |
| Torch.FlattenAt | kinodata/model/regression_model.py:30 | element i of part j sits at offset (total length of parts 0..j-1) + i of the concatenation |
| Torch.FlattenContains | kinodata/model/regression_model.py:30 | every element of every part occurs in the concatenation |
| Torch.Locate | kinodata/model/regression_model.py:30 | every position of a concatenation comes from a part and a position within it, at the offset FlattenAt gives |
| Torch.TotalLengthOfSameShape | kinodata/model/regression_model.py:83-84 | part lists of the same shape concatenate to the same length |
| Torch.LocateOfSameShape | kinodata/model/regression_model.py:83-84 | part lists of the same shape place every position at the same part and offset |
| Torch.FlattenAlignedAt | kinodata/model/regression_model.py:83-84 | concatenations of two same-shaped part lists agree, position by position, on which part and offset each element comes from |
| Torch.Cat | kinodata/model/regression_model.py:30 | `torch.cat` succeeds exactly on a non-empty list of 1-D tensors, giving their concatenation; an empty list and the first 0-D tensor are the errors |
| Torch.StackColumns | kinodata/model/regression_model.py:121-122 | `torch.stack(dim=1).tolist()` succeeds exactly on a non-empty list of equally long columns; row k holds entry k of every column; otherwise the empty-list or first-mismatch error |
| Torch.StackColumnsRoundTrip | kinodata/model/regression_model.py:121-122 | reading column c back out of the stacked rows gives column c |
| Torch.Min | kinodata/model/regression_model.py:93 | `min()` of a non-empty tensor is a lower bound that occurs in it |
| Torch.Max | kinodata/model/regression_model.py:94 | `max()` of a non-empty tensor is an upper bound that occurs in it |
| CatMany.Keys | kinodata/model/regression_model.py:18 | the keys of a dict, one per binding, in insertion order |
| CatMany.Lookup | kinodata/model/regression_model.py:22 | a lookup finds a value exactly when the key is present |
| CatMany.LookupBinding | kinodata/model/regression_model.py:22 | in a dict with distinct keys, looking up the i-th key gives the i-th value |
| CatMany.DictSet | kinodata/model/regression_model.py:29-32 | Python's `d[k] = v` on an insertion-ordered dict; stated by DictSetKeys and DictSetLookup |
| CatMany.DictSetKeys | kinodata/model/regression_model.py:29-32 | `d[k] = v` keeps the key order when k is present and appends k at the end otherwise |
| CatMany.DictSetLookup | kinodata/model/regression_model.py:29-32 | after `d[k] = v`, k maps to v and every other key keeps its value |
| CatMany.DictSetSpec | kinodata/model/regression_model.py:29-32 | `d[k] = v` keeps the key order when k is present and appends k otherwise; k then maps to v and every other key keeps its value |
| CatMany.IntList | kinodata/model/regression_model.py:26 | `[int(x) for x in items]` succeeds exactly when every element converts, giving the element-wise results; otherwise it reports the first element that does not convert |
| CatMany.EnsureTensor | kinodata/model/regression_model.py:21-27 | a missing key raises `KeyError`, a tensor passes through unchanged, a value that is neither tensor nor list raises `ValueError` for that record and key, and a list converts or fails with an `int()` or overflow error |
| CatMany.EnsureTensorList | kinodata/model/regression_model.py:24-26 | a list converts exactly when every element passes `int()` and fits in int64, giving a 1-D tensor of the same length whose i-th entry is `int(items[i])`; a failed `int()` is reported at its element |
| CatMany.NormalizeFrom | kinodata/model/regression_model.py:30 | the list comprehension over records succeeds with each record's `ensure_tensor` result in order, or fails with the error of the first record that fails |
| CatMany.MergeField | kinodata/model/regression_model.py:30 | `torch.cat([ensure_tensor(sub_data, key) for sub_data in data], dim=0)` for one key; stated by MergeFieldSpec, MergeFieldValue, MergeFieldOfContributions and MergeFieldLayout |
| CatMany.MergeFieldSpec | kinodata/model/regression_model.py:30 | a field merges exactly when the data is non-empty and every record contributes a 1-D tensor, giving their concatenation in record order; otherwise the first failing record's error, or `torch.cat`'s error at the first 0-D tensor |
| CatMany.MergeFieldValue | kinodata/model/regression_model.py:30 | a merged column exists only for non-empty data where every record contributes a 1-D tensor, and it is their contributions in record order |
| CatMany.MergeFieldOfContributions | kinodata/model/regression_model.py:30 | conversely, non-empty data where every record contributes a 1-D tensor always merges, to their contributions in record order |
| CatMany.MergeFieldLayout | kinodata/model/regression_model.py:30 | given the records' contributions, a merged column's length is the sum of their lengths, and record j's element i sits at offset (sum of the lengths of records 0..j-1) + i |
| CatMany.MergeFieldsAligned | kinodata/model/regression_model.py:30 | two fields that every record holds as equally long 1-D tensors merge to equally long columns, and position k of both comes from the same record and the same position in it |
| CatMany.MergeFieldErrorKinds | kinodata/model/regression_model.py:21-30 | merging one field never fails with the empty-input or subset-assertion errors |
| CatMany.Assign | kinodata/model/regression_model.py:29-32 | the dict comprehension's assignments `d[key] = column` in subset order; stated by AssignKeySet, AssignIsDict, AssignKeyOrder, AssignLookup and AssignUntouched |
| CatMany.AssignKeySet | kinodata/model/regression_model.py:29-32 | the dict comprehension's keys are the old keys plus the requested keys |
| CatMany.AssignIsDict | kinodata/model/regression_model.py:29-32 | the dict comprehension's keys stay distinct |
| CatMany.AssignKeyOrder | kinodata/model/regression_model.py:29-32 | distinct requested keys appear in request order |
| CatMany.AssignLookup | kinodata/model/regression_model.py:29-32 | each requested key maps to its computed column |
| CatMany.AssignUntouched | kinodata/model/regression_model.py:29-32 | keys not requested keep their values |
| CatMany.Combine | kinodata/model/regression_model.py:29-32 | the comprehension succeeds exactly when every column succeeds, and otherwise fails with the first failing column's error |
| CatMany.CatMany | kinodata/model/regression_model.py:14-32 | `cat_many(data, subset)` with `dim=0`; stated by CatManyPreconditions, CatManySucceeds, CatManyFirstError, CatManyKeys, CatManyColumn and CatManyPair |
| CatMany.CatManyPreconditions | kinodata/model/regression_model.py:17-19 | empty data fails on `data[0]`; the subset assertion fails exactly when a requested key is absent from the first record |
| CatMany.CatManySucceeds | kinodata/model/regression_model.py:14-32 | `cat_many` succeeds exactly when data is non-empty, every requested key is in the first record, and every requested field merges |
| CatMany.CatManyFirstError | kinodata/model/regression_model.py:29-32 | past the assertion, the error is that of the first requested field, in subset order, that fails to merge |
| CatMany.CombinePair | kinodata/model/regression_model.py:29-32 | the comprehension over two distinct keys fails with the first key's error, else with the second key's error, else binds the first key and then the second to their columns |
| CatMany.CatManyPair | kinodata/model/regression_model.py:14-32 | `cat_many` with a subset of two distinct fields of the first record fails with the first field's merge error, else the second's, else is the dict of the two merged columns in subset order |
| CatMany.CatManyKeys | kinodata/model/regression_model.py:17-18 | the result is a dict whose keys are the requested keys; in subset order when these are distinct; the first record's keys in its order when no subset is given |
| CatMany.CatManyColumn | kinodata/model/regression_model.py:29-32 | each requested key maps to the concatenation of that field over all records |
| CatMany.DigitListConverts | kinodata/model/regression_model.py:24-26 | the list ["3", "4"] converts to the 1-D tensor [3, 4] |
| CatMany.MixedRepresentationsColumn | kinodata/model/regression_model.py:21-30 | the tensor [1, 2] in one record and the list ["3", "4"] in the next merge to the column [1, 2, 3, 4] |
| CatMany.MixedRepresentationsMerge | kinodata/model/regression_model.py:21-30 | `cat_many` over the two records `{"id": tensor([1, 2])}` and `{"id": ["3", "4"]}`, with no subset, returns the dict `{"id": [1, 2, 3, 4]}` |
| RegressionModel.StepRecord | kinodata/model/regression_model.py:71-80 | the record `validation_step` returns, with the MAE as a parameter; stated by StepRecordKeys and StepRecordFields |
| RegressionModel.StepRecordKeys | kinodata/model/regression_model.py:75-80 | a step record is a dict with keys `<stage>/mae`, `pred`, `target`, `ident` in that order |
| RegressionModel.StepRecordFields | kinodata/model/regression_model.py:71-80 | a step record holds 1-D predictions and targets of one length, and its MAE is a 0-D tensor |
| RegressionModel.FirstMissing | kinodata/model/regression_model.py:83 | finds the first output lacking a key, where `output[key]` raises `KeyError` |
| RegressionModel.FirstNonTensor | kinodata/model/regression_model.py:83 | finds the first value `torch.cat` rejects as not a tensor |
| RegressionModel.CatOutputs | kinodata/model/regression_model.py:83-84 | `torch.cat([output[key] for output in outputs], 0)`; stated by CatOutputsSpec, CatOutputsLayout and CatOutputsAt |
| RegressionModel.CatOutputsSpec | kinodata/model/regression_model.py:83-84 | the epoch-end concatenation succeeds exactly when there are outputs and each binds the field to a 1-D tensor, and it then equals the column `cat_many` merges; a missing key is reported at the first output lacking it |
| RegressionModel.CatOutputsAt | kinodata/model/regression_model.py:83-84 | every element of every output's 1-D tensor occurs in the successful concatenation |
| RegressionModel.CatOutputsLayout | kinodata/model/regression_model.py:83-84 | a successful concatenation is the outputs' tensors laid end to end in output order |
| RegressionModel.CatPredTarget | kinodata/model/regression_model.py:83-84 | the two concatenations of `correlation_from_eval_outputs`, predictions first; stated by CorrelationInputsSpec |
| RegressionModel.CorrelationInputs | kinodata/model/regression_model.py:83-85 | the concatenations and the broadcast shape check of the element-wise product; stated by CorrelationInputsSpec, PredTargetAligned and StepOutputsCorrelate |
| RegressionModel.CorrelationInputsSpec | kinodata/model/regression_model.py:83-85 | the correlation inputs exist exactly when both fields concatenate and their lengths are equal or one of them is 1; otherwise the predictions' error, else the targets', else the shape mismatch |
| RegressionModel.VectorContribution | kinodata/model/regression_model.py:22-23 | a 1-D tensor field contributes itself to a merged column |
| RegressionModel.PairedParts | kinodata/model/regression_model.py:77-78 | a record whose pred and target are paired holds two 1-D tensors of one length |
| RegressionModel.PredTargetAligned | kinodata/model/regression_model.py:83-84 | when each output pairs predictions with equally many targets, merged predictions and targets have equal length, and position k of both comes from the same output and the same position in it |
| RegressionModel.StepOutputsCorrelate | kinodata/model/regression_model.py:71-85 | the step records of a non-empty epoch concatenate to predictions and targets of equal length, so the correlation's inputs exist |
| RegressionModel.StepOutputsDefaultMerge | kinodata/model/regression_model.py:17-30 | `cat_many` over step records with no subset fails on the first record's 0-D MAE tensor |
| RegressionModel.JointBounds | kinodata/model/regression_model.py:93-94 | bounds exist exactly when both tensors are non-empty; every prediction and target lies in [y_min, y_max], and both bounds are attained |
| RegressionModel.ValidationEpochEnd | kinodata/model/regression_model.py:92-94 | the plot bounds of `validation_epoch_end`; stated by JointBounds and ValidationBoundsCover |
| RegressionModel.ValidationBoundsCover | kinodata/model/regression_model.py:92-94 | every prediction and target of every output lies within the validation epoch's bounds |
| RegressionModel.CorrelationPred | kinodata/model/regression_model.py:83 | once the correlation inputs exist, the first output has a `pred` field and merging `pred` with `cat_many`'s rules gives the concatenated predictions |
| RegressionModel.TestEpochEnd | kinodata/model/regression_model.py:114-122 | the prediction table of `test_epoch_end`; stated by TestTableRows, TestTableAligned and TestTableMergeError |
| RegressionModel.TableOf | kinodata/model/regression_model.py:120-122 | `wandb.Table(columns=list(data.keys()), data=torch.stack(values, dim=1).tolist())`; stated by TableOfPair |
| RegressionModel.TableOfPair | kinodata/model/regression_model.py:120-122 | stacking two columns builds a table exactly when they have equal length, with the dict's keys as columns and row k equal to the k-th entries; unequal columns fail the stack at entry 1 |
| RegressionModel.TestTableRows | kinodata/model/regression_model.py:119-122 | the test table has columns `pred`, `ident` and row k equal to `[pred[k], ident[k]]`; it is built exactly when the merged columns have equal length, and unequal lengths fail the stack at entry 1 |
| RegressionModel.TestTableAligned | kinodata/model/regression_model.py:119-122 | when every output holds equally many predictions and identifiers, the table is built, has one row per prediction, and row k pairs the prediction and the identifier from the same output and the same position in it |
| RegressionModel.TestTableMergeError | kinodata/model/regression_model.py:115-119 | once the correlation inputs exist, the table fails only through `ident`: on the subset assertion when the first output lacks it, or with the first error merging it |

## Left out

- The correlation value (regression_model.py:85-87) is left out: it is floating-point arithmetic with square roots. Only the shape check of its element-wise product is kept, because it decides whether the epoch-end hooks get past that line.
  - The source's formula averages the centred products over n but divides by torch's default Bessel-corrected (n−1) standard deviations. A constant tensor therefore gives NaN rather than an error. No correlation arithmetic is modelled.
- The per-batch MAE (regression_model.py:73) is a float mean with no exact semantics. It is a parameter of `StepRecord`.
- `forward`, `training_step` and `predict_step` are left out: they run the encoder and readout networks, which are not part of this model.
- All wandb and matplotlib code is left out: metric definitions, the scatter plot, `wandb.Image`/`Artifact`/`log_artifact`, and `self.log`. These are logging sinks. Of `wandb.Table` only the column names and rows it is given are modelled (`TableOf`).
- Lightning orchestration is left out (`super().validation_epoch_end`, `save_hyperparameters`, hook scheduling): the framework drives it, and the code has no explicit pass state machine, so none is modelled.
- Tensor dtypes are left out. All elements are reals; an int64 tensor built from a list is modelled by its integer values. Promotion when int64 and float tensors are concatenated or stacked, float32 rounding, NaN and infinities are not modelled.
- `.cpu()`, `.detach()` and `.item()` are left out: they carry no logical content.
- `cat_many`'s `dim` parameter is modelled only at its default 0, and tensors are at most 1-D.
- PyInt.ParseInt: the digit limit is fixed at its default of 4300; it is configurable (`sys.set_int_max_str_digits`, `PYTHONINTMAXSTRDIGITS`, 0 to disable), and Python releases before the limit have none. Those settings are not modelled.
- `int()` is modelled only on ints, floats and strings. Non-ASCII decimal digits, and other element types such as bool, bytes or objects with `__int__`, are not modelled.
- Python's `min(a, b)` with NaN operands is not modelled, since the model's reals have no NaN.
- RegressionModel.TestTableRows: stated for when the correlation inputs and the merged `ident` column exist; the failing merges are covered by RegressionModel.TestTableMergeError.
