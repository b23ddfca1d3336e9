/**
 * The evaluation side of `RegressionModel` (kinodata/model/regression_model.py):
 * the record each validation/test step returns, the concatenation of
 * predictions and targets at epoch end, the joint plot bounds of a validation
 * epoch and the prediction table of a test epoch. The network's forward pass,
 * the per-batch MAE, the correlation value and every logging sink are
 * parameters or left out.
 */
module RegressionModel {
  import opened Results
  import opened PyInt
  import opened Torch
  import opened CatMany

  /**
   * The record `validation_step` returns for one batch (`test_step` uses stage
   * "test"): the 0-D mean absolute error, the 1-D predictions, the 1-D targets
   * and the batch's identifiers, as the batch holds them.
   */
  function StepRecord(stage: string, mae: real, pred: seq<real>, target: seq<real>, ident: FieldValue): Record {
    [ (stage + "/mae", TensorVal(Scalar(mae))),
      ("pred", TensorVal(Vec(pred))),
      ("target", TensorVal(Vec(target))),
      ("ident", ident) ]
  }

  /** A step record is a dictionary with the MAE key first, then "pred", "target" and "ident". */
  lemma StepRecordKeys(stage: string, mae: real, pred: seq<real>, target: seq<real>, ident: FieldValue)
    ensures Keys(StepRecord(stage, mae, pred, target, ident)) == [stage + "/mae", "pred", "target", "ident"]
    ensures IsDict(StepRecord(stage, mae, pred, target, ident))
  {
    var rec := StepRecord(stage, mae, pred, target, ident);
    var ks := Keys(rec);
    assert ks == [stage + "/mae", "pred", "target", "ident"];
    var m := stage + "/mae";
    assert m[|m| - 2] == 'a';
    assert "pred"[2] == 'e' && "target"[4] == 'e' && "ident"[3] == 'n';
  }

  /** The outcomes of the epoch-end hooks other than success. */
  datatype EpochError =
    | OutputKeyMissing(record: nat, key: string) // KeyError in `output[key]`
    | NotATensor(key: string, position: nat)     // torch.cat given a list element that is not a tensor
    | ConcatFailed(key: string, catError: CatError) // torch.cat refused the tensors
    | ShapeMismatch(predLength: nat, targetLength: nat) // pred and target do not broadcast together
    | EmptyReduction(key: string)                // min()/max() of an empty tensor
    | MergeFailed(mergeError: MergeError)             // cat_many raised
    | StackFailed(stackError: StackError)             // torch.stack raised

  /** The first record at or after `from` that lacks `key`, if any. */
  function FirstMissing(outputs: seq<Record>, key: string, from: nat): (r: Option<nat>)
    requires from <= |outputs|
    decreases |outputs| - from
    ensures r.None? ==> forall q :: from <= q < |outputs| ==> Lookup(outputs[q], key).Some?
    ensures r.Some? ==> from <= r.value < |outputs| && Lookup(outputs[r.value], key).None?
    ensures r.Some? ==> forall q :: from <= q < r.value ==> Lookup(outputs[q], key).Some?
  {
    if from == |outputs| then None
    else if Lookup(outputs[from], key).None? then Some(from)
    else FirstMissing(outputs, key, from + 1)
  }

  /** The first value at or after `from` that is not a tensor, if any. */
  function FirstNonTensor(vals: seq<FieldValue>, from: nat): (r: Option<nat>)
    requires from <= |vals|
    decreases |vals| - from
    ensures r.None? ==> forall p :: from <= p < |vals| ==> vals[p].TensorVal?
    ensures r.Some? ==> from <= r.value < |vals| && !vals[r.value].TensorVal?
    ensures r.Some? ==> forall p :: from <= p < r.value ==> vals[p].TensorVal?
  {
    if from == |vals| then None
    else if !vals[from].TensorVal? then Some(from)
    else FirstNonTensor(vals, from + 1)
  }

  /** Holds when record `rec` binds `key` to a 1-D tensor. */
  predicate HasVector(rec: Record, key: string) {
    match Lookup<FieldValue>(rec, key)
    case Some(TensorVal(Vec(_))) => true
    case _ => false
  }

  /** `torch.cat([output[key] for output in outputs], 0)`, with no conversion of lists. */
  function CatOutputs(outputs: seq<Record>, key: string): Result<seq<real>, EpochError> {
    match FirstMissing(outputs, key, 0)
    case Some(q) => Err(OutputKeyMissing(q, key))
    case None =>
      var vals := seq(|outputs|, q requires 0 <= q < |outputs| && Lookup(outputs[q], key).Some? => Lookup(outputs[q], key).value);
      match FirstNonTensor(vals, 0)
      case Some(p) => Err(NotATensor(key, p))
      case None =>
        var ts := seq(|vals|, p requires 0 <= p < |vals| && vals[p].TensorVal? => vals[p].t);
        match Cat(ts)
        case Err(ce) => Err(ConcatFailed(key, ce))
        case Ok(col) => Ok(col)
  }

  /**
   * The epoch-end concatenation of one field succeeds exactly when there is
   * at least one output and every output binds the field to a 1-D tensor, and
   * it then equals the column `cat_many` merges for that field. A missing key
   * is reported for the first output lacking it, before any type is looked at.
   */
  lemma CatOutputsSpec(outputs: seq<Record>, key: string)
    ensures CatOutputs(outputs, key).Ok? <==> |outputs| > 0 && forall q :: 0 <= q < |outputs| ==> HasVector(outputs[q], key)
    ensures CatOutputs(outputs, key).Ok? ==> MergeField(outputs, key) == Ok(CatOutputs(outputs, key).value)
    ensures CatOutputs(outputs, key).Err? && CatOutputs(outputs, key).error.OutputKeyMissing? ==>
              var q := CatOutputs(outputs, key).error.record;
              && q < |outputs| && Lookup(outputs[q], key).None?
              && forall q' :: 0 <= q' < q ==> Lookup(outputs[q'], key).Some?
  {
    var r := CatOutputs(outputs, key);
    if FirstMissing(outputs, key, 0).None? {
      var vals := seq(|outputs|, q requires 0 <= q < |outputs| && Lookup(outputs[q], key).Some? => Lookup(outputs[q], key).value);
      if FirstNonTensor(vals, 0).None? {
        var ts := seq(|vals|, p requires 0 <= p < |vals| && vals[p].TensorVal? => vals[p].t);
        if |outputs| > 0 && forall q :: 0 <= q < |outputs| ==> HasVector(outputs[q], key) {
          assert forall q :: 0 <= q < |outputs| ==> ts[q].Vec?;
        }
        if r.Ok? {
          forall q | 0 <= q < |outputs|
            ensures HasVector(outputs[q], key)
            ensures Contribution(outputs[q], q, key) == Some(ts[q].elems)
          {
            assert ts[q].Vec?;
          }
          MergeFieldOfContributions(outputs, key);
          assert ElemsOf(ts) == Contributions(outputs, key);
        }
      } else {
        var p := FirstNonTensor(vals, 0).value;
        assert !HasVector(outputs[p], key);
      }
    }
  }

  /** The concatenated predictions and targets of `correlation_from_eval_outputs`, predictions first. */
  function CatPredTarget(outputs: seq<Record>): Result<(seq<real>, seq<real>), EpochError> {
    match CatOutputs(outputs, "pred")
    case Err(e) => Err(e)
    case Ok(pred) =>
      match CatOutputs(outputs, "target")
      case Err(e) => Err(e)
      case Ok(target) => Ok((pred, target))
  }

  /**
   * `correlation_from_eval_outputs` up to the correlation value: the two
   * concatenations, then the shape check of the element-wise product
   * `(pred - pred.mean()) * (target - target.mean())`, where lengths must be
   * equal or one of them 1 (broadcasting).
   */
  function CorrelationInputs(outputs: seq<Record>): Result<(seq<real>, seq<real>), EpochError> {
    match CatPredTarget(outputs)
    case Err(e) => Err(e)
    case Ok((pred, target)) =>
      if |pred| == |target| || |pred| == 1 || |target| == 1 then Ok((pred, target))
      else Err(ShapeMismatch(|pred|, |target|))
  }

  /**
   * `correlation_from_eval_outputs` gets past its concatenations and the
   * product's shape check exactly when both fields concatenate and their
   * lengths broadcast; it then yields the two concatenations. Otherwise the
   * error is the predictions' concatenation error, else the targets', else
   * the shape mismatch.
   */
  lemma CorrelationInputsSpec(outputs: seq<Record>)
    ensures CorrelationInputs(outputs).Ok? <==>
              && CatOutputs(outputs, "pred").Ok? && CatOutputs(outputs, "target").Ok?
              && var (n, m) := (|CatOutputs(outputs, "pred").value|, |CatOutputs(outputs, "target").value|);
                 n == m || n == 1 || m == 1
    ensures CorrelationInputs(outputs).Ok? ==>
              CorrelationInputs(outputs).value == (CatOutputs(outputs, "pred").value, CatOutputs(outputs, "target").value)
    ensures CatOutputs(outputs, "pred").Err? ==> CorrelationInputs(outputs) == Err(CatOutputs(outputs, "pred").error)
    ensures CatOutputs(outputs, "pred").Ok? && CatOutputs(outputs, "target").Err? ==>
              CorrelationInputs(outputs) == Err(CatOutputs(outputs, "target").error)
    ensures CorrelationInputs(outputs).Err? && CorrelationInputs(outputs).error.ShapeMismatch? ==>
              && CatOutputs(outputs, "pred").Ok? && CatOutputs(outputs, "target").Ok?
              && CorrelationInputs(outputs).error
                 == ShapeMismatch(|CatOutputs(outputs, "pred").value|, |CatOutputs(outputs, "target").value|)
  {
  }

  /** Holds when `rec` has 1-D "pred" and "target" tensors of one length, as `validation_step` builds them. */
  predicate PairedLengths(rec: Record) {
    match (Lookup<FieldValue>(rec, "pred"), Lookup<FieldValue>(rec, "target"))
    case (Some(TensorVal(Vec(p))), Some(TensorVal(Vec(t)))) => |p| == |t|
    case _ => false
  }

  /** The part a record binding `key` to a 1-D tensor contributes to a merged column is that tensor. */
  lemma VectorContribution(rec: Record, q: nat, key: string)
    requires HasVector(rec, key)
    ensures Contribution(rec, q, key) == Some(Lookup(rec, key).value.t.elems)
  {
  }

  /**
   * A successful epoch-end concatenation is the flattening of the outputs'
   * tensors for `key`, in output order.
   */
  lemma CatOutputsLayout(outputs: seq<Record>, key: string)
    requires CatOutputs(outputs, key).Ok?
    ensures AllContribute(outputs, key)
    ensures CatOutputs(outputs, key).value == Flatten(Contributions(outputs, key))
    ensures forall q :: 0 <= q < |outputs| ==>
              HasVector(outputs[q], key) && Contributions(outputs, key)[q] == Lookup(outputs[q], key).value.t.elems
  {
    CatOutputsSpec(outputs, key);
    MergeFieldValue(outputs, key);
    forall q | 0 <= q < |outputs|
      ensures Contributions(outputs, key)[q] == Lookup(outputs[q], key).value.t.elems
    {
      VectorContribution(outputs[q], q, key);
    }
  }

  /** The 1-D tensor record `rec` binds to `key`. */
  function VectorOf(rec: Record, key: string): seq<real>
    requires HasVector(rec, key)
  {
    Lookup(rec, key).value.t.elems
  }

  /**
   * When every output pairs its predictions with equally many targets, the
   * merged predictions and targets have equal length and are index-aligned:
   * position k of both comes from the same output and the same position
   * within that output's tensors.
   */
  lemma PredTargetAligned(outputs: seq<Record>, k: nat)
    requires CatOutputs(outputs, "pred").Ok? && CatOutputs(outputs, "target").Ok?
    requires forall q :: 0 <= q < |outputs| ==> PairedLengths(outputs[q])
    ensures |CatOutputs(outputs, "pred").value| == |CatOutputs(outputs, "target").value|
    ensures k < |CatOutputs(outputs, "pred").value| ==>
              && AllContribute(outputs, "pred")
              && k < TotalLength(Contributions(outputs, "pred"))
              && var (j, i) := Locate(Contributions(outputs, "pred"), k);
                 && j < |outputs|
                 && HasVector(outputs[j], "pred") && HasVector(outputs[j], "target")
                 && i < |VectorOf(outputs[j], "pred")| == |VectorOf(outputs[j], "target")|
                 && CatOutputs(outputs, "pred").value[k] == VectorOf(outputs[j], "pred")[i]
                 && CatOutputs(outputs, "target").value[k] == VectorOf(outputs[j], "target")[i]
  {
    CatOutputsLayout(outputs, "pred");
    CatOutputsLayout(outputs, "target");
    var a := Contributions(outputs, "pred");
    var b := Contributions(outputs, "target");
    forall q | 0 <= q < |a| ensures |a[q]| == |b[q]| {
      PairedParts(outputs[q]);
    }
    TotalLengthOfSameShape(a, b);
    if k < TotalLength(a) {
      FlattenAlignedAt(a, b, k);
    }
  }

  /** A record with paired lengths holds predictions and targets of one length. */
  lemma PairedParts(rec: Record)
    requires PairedLengths(rec)
    ensures HasVector(rec, "pred") && HasVector(rec, "target")
    ensures |VectorOf(rec, "pred")| == |VectorOf(rec, "target")|
  {
  }

  /** Holds when `rec` is a record `validation_step` returned for stage `stage`. */
  ghost predicate FromStep(rec: Record, stage: string) {
    exists mae: real, pred: seq<real>, target: seq<real>, ident: FieldValue ::
      rec == StepRecord(stage, mae, pred, target, ident) && |pred| == |target|
  }

  /**
   * A step record holds 1-D predictions and targets of one length, and
   * `ensure_tensor` passes its 0-D MAE through unchanged.
   */
  lemma StepRecordFields(rec: Record, stage: string, q: nat)
    requires FromStep(rec, stage)
    ensures HasVector(rec, "pred") && HasVector(rec, "target") && PairedLengths(rec)
    ensures EnsureTensor(rec, q, stage + "/mae").Ok? && EnsureTensor(rec, q, stage + "/mae").value.Scalar?
  {
    var mae, pred, target, ident :| rec == StepRecord(stage, mae, pred, target, ident) && |pred| == |target|;
    StepRecordKeys(stage, mae, pred, target, ident);
    LookupBinding(rec, 0);
    LookupBinding(rec, 1);
    LookupBinding(rec, 2);
  }

  /**
   * The outputs of a non-empty validation or test epoch concatenate to
   * predictions and targets of equal length, so the correlation's inputs exist.
   */
  lemma StepOutputsCorrelate(outputs: seq<Record>, stage: string)
    requires |outputs| > 0 && forall q :: 0 <= q < |outputs| ==> FromStep(outputs[q], stage)
    ensures CorrelationInputs(outputs).Ok?
    ensures |CorrelationInputs(outputs).value.0| == |CorrelationInputs(outputs).value.1|
  {
    forall q | 0 <= q < |outputs|
      ensures HasVector(outputs[q], "pred") && HasVector(outputs[q], "target") && PairedLengths(outputs[q])
    {
      StepRecordFields(outputs[q], stage, q);
    }
    CatOutputsSpec(outputs, "pred");
    CatOutputsSpec(outputs, "target");
    PredTargetAligned(outputs, 0);
  }

  /**
   * Merging step records with `cat_many` under its default field set fails at
   * once, on the first output's 0-D MAE tensor, since the MAE key comes first
   * in every record.
   */
  lemma StepOutputsDefaultMerge(outputs: seq<Record>, stage: string)
    requires |outputs| > 0 && forall q :: 0 <= q < |outputs| ==> FromStep(outputs[q], stage)
    ensures CatMany.CatMany(outputs, None) == Err(CatFailed(stage + "/mae", ZeroDimTensor(0)))
  {
    var key := stage + "/mae";
    assert MergeField(outputs, key) == Err(CatFailed(key, ZeroDimTensor(0))) by {
      forall q | 0 <= q < |outputs|
        ensures EnsureTensor(outputs[q], q, key).Ok? && EnsureTensor(outputs[q], q, key).value.Scalar?
      {
        StepRecordFields(outputs[q], stage, q);
      }
      MergeFieldSpec(outputs, key);
      assert Contribution(outputs[0], 0, key).None?;
    }
    var mae0, pred0, target0, ident0 :| outputs[0] == StepRecord(stage, mae0, pred0, target0, ident0) && |pred0| == |target0|;
    StepRecordKeys(stage, mae0, pred0, target0, ident0);
    var ks := Requested(outputs, None);
    assert ks[0] == key;
    CatManyPreconditions(outputs, None);
    CatManySucceeds(outputs, None);
    CatManyFirstError(outputs, None);
  }

  /**
   * The `y_min`/`y_max` of `validation_epoch_end`: the smaller of the two
   * minima and the larger of the two maxima (Python's `min`/`max` of two
   * numbers). An empty tensor has no minimum.
   */
  function JointBounds(pred: seq<real>, target: seq<real>): (r: Result<(real, real), EpochError>)
    ensures r.Ok? <==> |pred| > 0 && |target| > 0
    ensures r == Err(EmptyReduction("pred")) <==> |pred| == 0
    ensures r.Ok? ==> forall i :: 0 <= i < |pred| ==> r.value.0 <= pred[i] <= r.value.1
    ensures r.Ok? ==> forall i :: 0 <= i < |target| ==> r.value.0 <= target[i] <= r.value.1
    ensures r.Ok? ==> (r.value.0 in pred || r.value.0 in target) && (r.value.1 in pred || r.value.1 in target)
  {
    if |pred| == 0 then Err(EmptyReduction("pred"))
    else if |target| == 0 then Err(EmptyReduction("target"))
    else
      var (pmin, tmin) := (Min(pred), Min(target));
      var (pmax, tmax) := (Max(pred), Max(target));
      Ok((if tmin < pmin then tmin else pmin, if tmax > pmax then tmax else pmax))
  }

  /** What `validation_epoch_end` computes besides the correlation: the plot bounds. */
  function ValidationEpochEnd(outputs: seq<Record>): Result<(real, real), EpochError> {
    match CorrelationInputs(outputs)
    case Err(e) => Err(e)
    case Ok((pred, target)) => JointBounds(pred, target)
  }

  /**
   * Every prediction and every target of every output lies within the bounds
   * a validation epoch computes.
   */
  lemma ValidationBoundsCover(outputs: seq<Record>, j: nat, i: nat)
    requires ValidationEpochEnd(outputs).Ok? && j < |outputs|
    ensures HasVector(outputs[j], "pred") && HasVector(outputs[j], "target")
    ensures var (lo, hi) := ValidationEpochEnd(outputs).value;
            && (i < |VectorOf(outputs[j], "pred")| ==> lo <= VectorOf(outputs[j], "pred")[i] <= hi)
            && (i < |VectorOf(outputs[j], "target")| ==> lo <= VectorOf(outputs[j], "target")[i] <= hi)
  {
    var (pred, target) := CorrelationInputs(outputs).value;
    var (lo, hi) := ValidationEpochEnd(outputs).value;
    assert JointBounds(pred, target) == Ok((lo, hi));
    CatOutputsAt(outputs, "pred", j, i);
    CatOutputsAt(outputs, "target", j, i);
  }

  /** Element i of output j's tensor for `key` occurs in the concatenation. */
  lemma CatOutputsAt(outputs: seq<Record>, key: string, j: nat, i: nat)
    requires CatOutputs(outputs, key).Ok? && j < |outputs|
    ensures HasVector(outputs[j], key)
    ensures i < |VectorOf(outputs[j], key)| ==>
              exists k :: 0 <= k < |CatOutputs(outputs, key).value| && CatOutputs(outputs, key).value[k] == VectorOf(outputs[j], key)[i]
  {
    CatOutputsLayout(outputs, key);
    var parts := Contributions(outputs, key);
    var col := CatOutputs(outputs, key).value;
    assert col == Flatten(parts);
    assert parts[j] == VectorOf(outputs[j], key);
    if i < |parts[j]| {
      FlattenContains(parts, j, i);
    }
  }

  /** A table with named columns and row-major data. */
  datatype Table = Table(columns: seq<string>, rows: seq<seq<real>>)

  /** The fields the test table holds, in column order. */
  const TableFields: seq<string> := ["pred", "ident"]

  /**
   * The prediction table of `test_epoch_end`: after the correlation inputs,
   * `cat_many(outputs, subset=["pred", "ident"])`, its values stacked as
   * columns and turned into rows, under the merged dict's keys.
   */
  function TestEpochEnd(outputs: seq<Record>): Result<Table, EpochError> {
    match CorrelationInputs(outputs)
    case Err(e) => Err(e)
    case Ok(_) =>
      match CatMany.CatMany(outputs, Some(TableFields))
      case Err(e) => Err(MergeFailed(e))
      case Ok(merged) => TableOf(merged)
  }

  /** `wandb.Table(columns=list(data.keys()), data=torch.stack(values, dim=1).tolist())` for a merged dict. */
  function TableOf(merged: Merged): Result<Table, EpochError> {
    match StackColumns(seq(|merged|, c requires 0 <= c < |merged| => merged[c].1))
    case Err(e) => Err(StackFailed(e))
    case Ok(rows) => Ok(Table(Keys(merged), rows))
  }

  /**
   * The table of a two-column dict has those two column names and row k
   * holding entry k of each column; columns of unequal length fail the stack
   * at the second column.
   */
  lemma TableOfPair(k1: string, c1: seq<real>, k2: string, c2: seq<real>)
    ensures TableOf([(k1, c1), (k2, c2)]).Ok? <==> |c1| == |c2|
    ensures |c1| != |c2| ==> TableOf([(k1, c1), (k2, c2)]) == Err(StackFailed(UnequalSizes(1)))
    ensures TableOf([(k1, c1), (k2, c2)]).Ok? ==>
              && TableOf([(k1, c1), (k2, c2)]).value.columns == [k1, k2]
              && |TableOf([(k1, c1), (k2, c2)]).value.rows| == |c1|
              && forall k :: 0 <= k < |c1| ==> TableOf([(k1, c1), (k2, c2)]).value.rows[k] == [c1[k], c2[k]]
  {
    var merged := [(k1, c1), (k2, c2)];
    var cols := seq(|merged|, c requires 0 <= c < |merged| => merged[c].1);
    assert cols == [c1, c2];
    assert Keys(merged) == [k1, k2];
    if |c1| == |c2| {
      var rows := StackColumns(cols).value;
      forall k | 0 <= k < |c1| ensures rows[k] == [c1[k], c2[k]] {
        assert |rows[k]| == 2 && rows[k][0] == c1[k] && rows[k][1] == c2[k];
      }
    }
  }

  /** Once the correlation inputs exist, "pred" is a field of the first output and merges to the predictions. */
  lemma CorrelationPred(outputs: seq<Record>)
    requires CorrelationInputs(outputs).Ok?
    ensures |outputs| > 0 && "pred" in Keys(outputs[0])
    ensures MergeField(outputs, "pred") == Ok(CorrelationInputs(outputs).value.0)
  {
    assert CatOutputs(outputs, "pred").Ok?;
    CatOutputsSpec(outputs, "pred");
    assert HasVector(outputs[0], "pred");
  }

  /**
   * The test table has columns "pred" and "ident" and one row per merged
   * sample, row k being (pred[k], ident[k]). Once the correlation inputs and
   * both merged columns exist, it is built exactly when the two columns have
   * equal length; columns of unequal length make the stack fail.
   */
  lemma TestTableRows(outputs: seq<Record>)
    requires CorrelationInputs(outputs).Ok?
    requires MergeField(outputs, "ident").Ok?
    ensures MergeField(outputs, "pred").Ok?
    ensures var pred, ident := MergeField(outputs, "pred").value, MergeField(outputs, "ident").value;
            && (TestEpochEnd(outputs).Ok? <==> |pred| == |ident|)
            && (|pred| != |ident| ==> TestEpochEnd(outputs) == Err(StackFailed(UnequalSizes(1))))
            && (TestEpochEnd(outputs).Ok? ==>
                  && TestEpochEnd(outputs).value.columns == ["pred", "ident"]
                  && |TestEpochEnd(outputs).value.rows| == |pred|
                  && forall k :: 0 <= k < |pred| ==> TestEpochEnd(outputs).value.rows[k] == [pred[k], ident[k]])
  {
    CorrelationPred(outputs);
    var pred, ident := MergeField(outputs, "pred").value, MergeField(outputs, "ident").value;
    assert "ident" in Keys(outputs[0]) by {
      MergeFieldValue(outputs, "ident");
      assert Contribution(outputs[0], 0, "ident").Some?;
    }
    CatManyPair(outputs, "pred", "ident", MergeField(outputs, "pred"), MergeField(outputs, "ident"));
    TableOfPair("pred", pred, "ident", ident);
  }

  /**
   * Once the correlation inputs exist, the test table fails only through the
   * identifiers: `cat_many`'s subset check when the first output has no
   * "ident", otherwise the first failure of merging that field.
   */
  lemma TestTableMergeError(outputs: seq<Record>)
    requires CorrelationInputs(outputs).Ok?
    ensures |outputs| > 0
    ensures "ident" !in Keys(outputs[0]) ==> TestEpochEnd(outputs) == Err(MergeFailed(SubsetNotInFirstRecord))
    ensures "ident" in Keys(outputs[0]) && MergeField(outputs, "ident").Err? ==>
              TestEpochEnd(outputs) == Err(MergeFailed(MergeField(outputs, "ident").error))
  {
    CorrelationPred(outputs);
    if "ident" in Keys(outputs[0]) {
      CatManyPair(outputs, "pred", "ident", MergeField(outputs, "pred"), MergeField(outputs, "ident"));
    } else {
      assert "ident" in TableFields;
      CatManyPreconditions(outputs, Some(TableFields));
    }
  }

  /**
   * When every output holds equally many predictions and identifiers, the
   * test table is built, has one row per prediction, and each row pairs a
   * prediction with the identifier from the same output and the same
   * position in it.
   */
  lemma TestTableAligned(outputs: seq<Record>, k: nat)
    requires CorrelationInputs(outputs).Ok?
    requires SameShape(outputs, "pred", "ident")
    ensures TestEpochEnd(outputs).Ok?
    ensures TestEpochEnd(outputs).value.columns == ["pred", "ident"]
    ensures |TestEpochEnd(outputs).value.rows| == |CorrelationInputs(outputs).value.0|
    ensures k < |TestEpochEnd(outputs).value.rows| ==>
              && AllContribute(outputs, "pred")
              && k < TotalLength(Contributions(outputs, "pred"))
              && var (j, i) := Locate(Contributions(outputs, "pred"), k);
                 && j < |outputs|
                 && PairedContribution(outputs[j], j, "pred", "ident")
                 && i < |Contribution(outputs[j], j, "pred").value|
                 && TestEpochEnd(outputs).value.rows[k]
                    == [Contribution(outputs[j], j, "pred").value[i], Contribution(outputs[j], j, "ident").value[i]]
  {
    CorrelationPred(outputs);
    MergeFieldsAligned(outputs, "pred", "ident", k);
    TestTableRows(outputs);
  }
}
