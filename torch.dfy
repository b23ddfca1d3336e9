/**
 * The torch operations the epoch-end code relies on, on one-dimensional data:
 * `torch.cat` along dim 0, `torch.stack` along dim 1 followed by `tolist()`,
 * and the `min()`/`max()` reductions. A tensor is either 1-D (a sequence of
 * reals) or 0-D (a single real, as a per-batch mean is).
 */
module Torch {
  import opened Results

  datatype Tensor = Vec(elems: seq<real>) | Scalar(x: real)

  /** Sum of the lengths of `parts`. */
  function TotalLength(parts: seq<seq<real>>): nat {
    if |parts| == 0 then 0 else TotalLength(parts[..|parts| - 1]) + |parts[|parts| - 1]|
  }

  /** The parts laid end to end, first part first. */
  function Flatten(parts: seq<seq<real>>): (r: seq<real>)
    ensures |r| == TotalLength(parts)
  {
    if |parts| == 0 then [] else Flatten(parts[..|parts| - 1]) + parts[|parts| - 1]
  }

  /**
   * Element `i` of part `j` sits in the flattened sequence at offset
   * (total length of parts 0..j-1) + i.
   */
  lemma {:induction false} FlattenAt(parts: seq<seq<real>>, j: nat, i: nat)
    requires j < |parts| && i < |parts[j]|
    ensures TotalLength(parts[..j]) + i < |Flatten(parts)|
    ensures Flatten(parts)[TotalLength(parts[..j]) + i] == parts[j][i]
  {
    var n := |parts|;
    var init := parts[..n - 1];
    if j < n - 1 {
      FlattenAt(init, j, i);
      assert init[..j] == parts[..j];
    } else {
      assert init == parts[..j];
    }
  }

  /** Every element of every part occurs in the flattened sequence. */
  lemma FlattenContains(parts: seq<seq<real>>, j: nat, i: nat)
    requires j < |parts| && i < |parts[j]|
    ensures exists k :: 0 <= k < |Flatten(parts)| && Flatten(parts)[k] == parts[j][i]
  {
    FlattenAt(parts, j, i);
  }

  /**
   * Where element `k` of the flattened sequence comes from: part `j`, position
   * `i`, with `k` at the offset FlattenAt describes.
   */
  function Locate(parts: seq<seq<real>>, k: nat): (loc: (nat, nat))
    requires k < TotalLength(parts)
    ensures loc.0 < |parts| && loc.1 < |parts[loc.0]|
    ensures k == TotalLength(parts[..loc.0]) + loc.1
    ensures Flatten(parts)[k] == parts[loc.0][loc.1]
  {
    var n := |parts|;
    var init := parts[..n - 1];
    if k >= TotalLength(init) then
      var loc := (n - 1, k - TotalLength(init));
      assert init == parts[..loc.0];
      FlattenAt(parts, loc.0, loc.1);
      loc
    else
      var loc := Locate(init, k);
      assert init[..loc.0] == parts[..loc.0];
      FlattenAt(parts, loc.0, loc.1);
      loc
  }

  /** Parts of equal lengths have equal prefix totals. */
  lemma {:induction false} TotalLengthOfSameShape(a: seq<seq<real>>, b: seq<seq<real>>)
    requires |a| == |b| && forall j :: 0 <= j < |a| ==> |a[j]| == |b[j]|
    ensures TotalLength(a) == TotalLength(b)
  {
    if |a| > 0 {
      TotalLengthOfSameShape(a[..|a| - 1], b[..|b| - 1]);
    }
  }

  /** Two part lists of the same shape place element `k` at the same part and position. */
  lemma {:induction false} LocateOfSameShape(a: seq<seq<real>>, b: seq<seq<real>>, k: nat)
    requires |a| == |b| && forall j :: 0 <= j < |a| ==> |a[j]| == |b[j]|
    requires k < TotalLength(a)
    ensures TotalLength(a) == TotalLength(b)
    ensures Locate(a, k) == Locate(b, k)
  {
    TotalLengthOfSameShape(a, b);
    var n := |a|;
    TotalLengthOfSameShape(a[..n - 1], b[..n - 1]);
    if k < TotalLength(a[..n - 1]) {
      LocateOfSameShape(a[..n - 1], b[..n - 1], k);
    }
  }

  /**
   * Element k of the flattening of a part list and of any part list of the
   * same shape come from the same part and the same position in it.
   */
  lemma FlattenAlignedAt(a: seq<seq<real>>, b: seq<seq<real>>, k: nat)
    requires |a| == |b| && forall j :: 0 <= j < |a| ==> |a[j]| == |b[j]|
    requires k < TotalLength(a)
    ensures |Flatten(b)| == |Flatten(a)|
    ensures var (j, i) := Locate(a, k);
            && j < |a| && i < |a[j]| == |b[j]|
            && Flatten(a)[k] == a[j][i] && Flatten(b)[k] == b[j][i]
  {
    LocateOfSameShape(a, b, k);
  }

  datatype CatError =
    | EmptyTensorList            // "expected a non-empty list of Tensors"
    | ZeroDimTensor(position: nat) // "zero-dimensional tensor (at position p) cannot be concatenated"

  /** The elements of a list of 1-D tensors. */
  function ElemsOf(ts: seq<Tensor>): seq<seq<real>>
    requires forall p :: 0 <= p < |ts| ==> ts[p].Vec?
  {
    seq(|ts|, p requires 0 <= p < |ts| => ts[p].elems)
  }

  /** The position of the first 0-D tensor at or after `from`, if any. */
  function FirstScalar(ts: seq<Tensor>, from: nat): (r: Option<nat>)
    requires from <= |ts|
    decreases |ts| - from
    ensures r.None? ==> forall p :: from <= p < |ts| ==> ts[p].Vec?
    ensures r.Some? ==> from <= r.value < |ts| && ts[r.value].Scalar?
    ensures r.Some? ==> forall p :: from <= p < r.value ==> ts[p].Vec?
  {
    if from == |ts| then None
    else if ts[from].Scalar? then Some(from)
    else FirstScalar(ts, from + 1)
  }

  /** `torch.cat(ts, dim=0)`. */
  function Cat(ts: seq<Tensor>): (r: Result<seq<real>, CatError>)
    ensures r.Ok? <==> |ts| > 0 && forall p :: 0 <= p < |ts| ==> ts[p].Vec?
    ensures r.Ok? ==> r.value == Flatten(ElemsOf(ts))
    ensures r == Err(EmptyTensorList) <==> |ts| == 0
    ensures r.Err? && r.error.ZeroDimTensor? ==>
              var p := r.error.position;
              p < |ts| && ts[p].Scalar? && forall q :: 0 <= q < p ==> ts[q].Vec?
  {
    if |ts| == 0 then Err(EmptyTensorList)
    else match FirstScalar(ts, 0)
      case Some(p) => Err(ZeroDimTensor(p))
      case None => Ok(Flatten(ElemsOf(ts)))
  }

  datatype StackError =
    | EmptyStackList           // "stack expects a non-empty TensorList"
    | UnequalSizes(entry: nat) // "stack expects each tensor to be equal size"

  /** The first column at or after `from` whose length differs from `n`, if any. */
  function FirstMismatch(cols: seq<seq<real>>, n: nat, from: nat): (r: Option<nat>)
    requires from <= |cols|
    decreases |cols| - from
    ensures r.None? ==> forall c :: from <= c < |cols| ==> |cols[c]| == n
    ensures r.Some? ==> from <= r.value < |cols| && |cols[r.value]| != n
    ensures r.Some? ==> forall c :: from <= c < r.value ==> |cols[c]| == n
  {
    if from == |cols| then None
    else if |cols[from]| != n then Some(from)
    else FirstMismatch(cols, n, from + 1)
  }

  /** `torch.stack(cols, dim=1).tolist()`: row `k` holds element `k` of every column. */
  function StackColumns(cols: seq<seq<real>>): (r: Result<seq<seq<real>>, StackError>)
    ensures r.Ok? <==> |cols| > 0 && forall c :: 0 <= c < |cols| ==> |cols[c]| == |cols[0]|
    ensures r == Err(EmptyStackList) <==> |cols| == 0
    ensures r.Err? && r.error.UnequalSizes? ==>
              && 0 < r.error.entry < |cols| && |cols[r.error.entry]| != |cols[0]|
              && forall c :: 0 < c < r.error.entry ==> |cols[c]| == |cols[0]|
    ensures r.Ok? ==> |r.value| == |cols[0]|
    ensures r.Ok? ==> forall k :: 0 <= k < |r.value| ==> |r.value[k]| == |cols|
    ensures r.Ok? ==> forall k, c :: 0 <= k < |r.value| && 0 <= c < |cols| ==> r.value[k][c] == cols[c][k]
  {
    if |cols| == 0 then Err(EmptyStackList)
    else
      var n := |cols[0]|;
      match FirstMismatch(cols, n, 1)
      case Some(e) => Err(UnequalSizes(e))
      case None =>
        Ok(seq(n, k requires 0 <= k < n => seq(|cols|, c requires 0 <= c < |cols| => cols[c][k])))
  }

  /** Column `c` of a table of rows. */
  function Column(rows: seq<seq<real>>, c: nat): seq<real>
    requires forall k :: 0 <= k < |rows| ==> c < |rows[k]|
  {
    seq(|rows|, k requires 0 <= k < |rows| => rows[k][c])
  }

  /** Reading the columns back out of the stacked rows gives the input columns. */
  lemma StackColumnsRoundTrip(cols: seq<seq<real>>, c: nat)
    requires StackColumns(cols).Ok? && c < |cols|
    ensures Column(StackColumns(cols).value, c) == cols[c]
  {
  }

  /** `t.min()` of a non-empty 1-D tensor. */
  function Min(s: seq<real>): (m: real)
    requires |s| > 0
    ensures forall i :: 0 <= i < |s| ==> m <= s[i]
    ensures m in s
  {
    if |s| == 1 then s[0]
    else
      var rest := Min(s[1..]);
      if s[0] <= rest then s[0] else rest
  }

  /** `t.max()` of a non-empty 1-D tensor. */
  function Max(s: seq<real>): (m: real)
    requires |s| > 0
    ensures forall i :: 0 <= i < |s| ==> s[i] <= m
    ensures m in s
  {
    if |s| == 1 then s[0]
    else
      var rest := Max(s[1..]);
      if s[0] >= rest then s[0] else rest
  }
}
