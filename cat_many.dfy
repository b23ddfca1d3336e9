/**
 * `cat_many` (kinodata/model/regression_model.py): merges the per-batch output
 * records of an evaluation epoch into one 1-D column per field, in record order.
 * Records are insertion-ordered dictionaries, written as sequences of
 * (key, value) pairs.
 */
module CatMany {
  import opened Results
  import opened PyInt
  import opened Torch

  /** What a record may hold under a key: a tensor, a Python list, or anything else. */
  datatype FieldValue = TensorVal(t: Tensor) | ListVal(items: seq<PyItem>) | OtherVal

  /** A record as an insertion-ordered dictionary; `Record` is one per batch. */
  type Dict<V> = seq<(string, V)>
  type Record = Dict<FieldValue>
  type Merged = Dict<seq<real>>

  /** `list(d.keys())`. */
  function Keys<V>(d: Dict<V>): (ks: seq<string>)
    ensures |ks| == |d| && forall i :: 0 <= i < |d| ==> ks[i] == d[i].0
  {
    if |d| == 0 then [] else [d[0].0] + Keys(d[1..])
  }

  predicate Distinct(ks: seq<string>) {
    forall i, j :: 0 <= i < j < |ks| ==> ks[i] != ks[j]
  }

  /** A Python dictionary never binds a key twice. */
  predicate IsDict<V>(d: Dict<V>) {
    Distinct(Keys(d))
  }

  /** `d[key]`, or `None` where Python raises `KeyError`. */
  function Lookup<V>(d: Dict<V>, key: string): (r: Option<V>)
    ensures r.Some? <==> key in Keys(d)
  {
    if |d| == 0 then None
    else if d[0].0 == key then Some(d[0].1)
    else
      var r := Lookup(d[1..], key);
      assert Keys(d) == [d[0].0] + Keys(d[1..]);
      r
  }

  /** In a dictionary, the lookup of a bound key finds its binding. */
  lemma {:induction false} LookupBinding<V>(d: Dict<V>, i: nat)
    requires IsDict(d) && i < |d|
    ensures Lookup(d, d[i].0) == Some(d[i].1)
  {
    if i > 0 {
      LookupBinding(d[1..], i - 1);
    }
  }

  /** `d[key] = value`. */
  function DictSet<V>(d: Dict<V>, key: string, value: V): Dict<V> {
    if |d| == 0 then [(key, value)]
    else if d[0].0 == key then [(key, value)] + d[1..]
    else [d[0]] + DictSet(d[1..], key, value)
  }

  /** Python's assignment `d[key] = value`: an existing key keeps its position, a new key goes last. */
  lemma {:induction false} DictSetKeys<V>(d: Dict<V>, key: string, value: V)
    ensures key in Keys(d) ==> Keys(DictSet(d, key, value)) == Keys(d)
    ensures key !in Keys(d) ==> Keys(DictSet(d, key, value)) == Keys(d) + [key]
  {
    if |d| > 0 {
      var r := DictSet(d, key, value);
      assert Keys(d) == [d[0].0] + Keys(d[1..]);
      if d[0].0 != key {
        assert r[1..] == DictSet(d[1..], key, value);
        DictSetKeys(d[1..], key, value);
        assert Keys(r) == [d[0].0] + Keys(r[1..]);
      } else {
        assert Keys(r) == [key] + Keys(d[1..]);
      }
    }
  }

  /** After `d[key] = value`, `key` maps to `value` and every other key to what it did before. */
  lemma {:induction false} DictSetLookup<V>(d: Dict<V>, key: string, value: V)
    ensures Lookup(DictSet(d, key, value), key) == Some(value)
    ensures forall k :: k != key ==> Lookup(DictSet(d, key, value), k) == Lookup(d, k)
  {
    if |d| > 0 && d[0].0 != key {
      var r := DictSet(d, key, value);
      assert r[1..] == DictSet(d[1..], key, value);
      DictSetLookup(d[1..], key, value);
    }
  }

  /** Python's `d[key] = value`, keys and values together. */
  lemma DictSetSpec<V>(d: Dict<V>, key: string, value: V)
    ensures key in Keys(d) ==> Keys(DictSet(d, key, value)) == Keys(d)
    ensures key !in Keys(d) ==> Keys(DictSet(d, key, value)) == Keys(d) + [key]
    ensures Lookup(DictSet(d, key, value), key) == Some(value)
    ensures forall k :: k != key ==> Lookup(DictSet(d, key, value), k) == Lookup(d, k)
  {
    DictSetKeys(d, key, value);
    DictSetLookup(d, key, value);
  }

  /** The exceptions `cat_many` can raise, with what they report. */
  datatype MergeError =
    | EmptyInput                                    // IndexError: data[0] of an empty list
    | SubsetNotInFirstRecord                        // AssertionError of the subset check
    | KeyMissing(record: nat, key: string)          // KeyError: a later record lacks the key
    | CannotConvert(record: nat, key: string)       // ValueError: neither tensor nor list
    | IntParse(record: nat, key: string, item: nat) // ValueError from int() on a list element
    | IntOverflow(record: nat, key: string)         // a converted int does not fit torch's int64
    | CatFailed(key: string, cause: CatError)       // torch.cat refused the normalised tensors

  const Int64Min: int := -0x8000_0000_0000_0000
  const Int64Max: int := 0x7FFF_FFFF_FFFF_FFFF

  /** The values of `opts` when all are present, else the index of the first missing one. */
  function AllPresent(opts: seq<Option<int>>): (r: Result<seq<int>, nat>)
    ensures r.Ok? ==> |r.value| == |opts|
    ensures r.Ok? ==> forall i :: 0 <= i < |opts| ==> opts[i] == Some(r.value[i])
    ensures r.Err? ==> r.error < |opts| && opts[r.error].None?
    ensures r.Err? ==> forall i :: 0 <= i < r.error ==> opts[i].Some?
  {
    if |opts| == 0 then Ok([])
    else match opts[0]
      case None => Err(0)
      case Some(v) =>
        match AllPresent(opts[1..])
        case Ok(vs) => Ok([v] + vs)
        case Err(p) => Err(p + 1)
  }

  /** `[int(x) for x in items]`: the ints, or the index of the first element `int()` rejects. */
  function IntList(items: seq<PyItem>): (r: Result<seq<int>, nat>)
    ensures r.Ok? ==> |r.value| == |items|
    ensures r.Ok? ==> forall i :: 0 <= i < |items| ==> ToInt(items[i]) == Some(r.value[i])
    ensures r.Err? ==> r.error < |items| && ToInt(items[r.error]).None?
    ensures r.Err? ==> forall i :: 0 <= i < r.error ==> ToInt(items[i]).Some?
  {
    var opts := seq(|items|, i requires 0 <= i < |items| => ToInt(items[i]));
    assert forall i :: 0 <= i < |items| ==> opts[i] == ToInt(items[i]);
    AllPresent(opts)
  }

  predicate FitsInt64(vs: seq<int>) {
    forall i :: 0 <= i < |vs| ==> Int64Min <= vs[i] <= Int64Max
  }

  /** `ensure_tensor(rec, key)` for record number `j` of the input. */
  function EnsureTensor(rec: Record, j: nat, key: string): (r: Result<Tensor, MergeError>)
    ensures Lookup(rec, key).None? ==> r == Err(KeyMissing(j, key))
    ensures Lookup(rec, key) == Some(OtherVal) ==> r == Err(CannotConvert(j, key))
    ensures (Lookup(rec, key).Some? && Lookup(rec, key).value.TensorVal?) ==>
              r == Ok(Lookup(rec, key).value.t)
    ensures (Lookup(rec, key).Some? && Lookup(rec, key).value.ListVal?) ==> r.Ok? || r.error.IntParse? || r.error.IntOverflow?
  {
    match Lookup<FieldValue>(rec, key)
    case None => Err(KeyMissing(j, key))
    case Some(TensorVal(t)) => Ok(t)
    case Some(ListVal(items)) =>
      (match IntList(items)
       case Err(p) => Err(IntParse(j, key, p))
       case Ok(vs) =>
         if FitsInt64(vs) then Ok(Vec(seq(|vs|, i requires 0 <= i < |vs| => vs[i] as real)))
         else Err(IntOverflow(j, key)))
    case Some(OtherVal) => Err(CannotConvert(j, key))
  }

  /**
   * A list converts element by element with `int()`: it succeeds exactly when
   * every element converts and fits in 64 bits, giving a 1-D tensor of the
   * converted values; a failed `int()` is reported at its element.
   */
  lemma EnsureTensorList(rec: Record, j: nat, key: string)
    requires Lookup(rec, key).Some? && Lookup(rec, key).value.ListVal?
    ensures var r, items := EnsureTensor(rec, j, key), Lookup(rec, key).value.items;
            && (r.Ok? <==> (forall i :: 0 <= i < |items| ==> ToInt(items[i]).Some?) && FitsInt64(IntList(items).value))
            && (r.Ok? ==> r.value.Vec? && |r.value.elems| == |items|)
            && (r.Ok? ==> forall i :: 0 <= i < |items| ==> r.value.elems[i] == ToInt(items[i]).value as real)
            && (r.Err? && r.error.IntParse? ==> r.error.item < |items| && ToInt(items[r.error.item]).None?)
  {
  }

  /** `[ensure_tensor(sub_data, key) for sub_data in data[j:]]`, counting records from `j`. */
  function NormalizeFrom(data: seq<Record>, key: string, j: nat): (r: Result<seq<Tensor>, MergeError>)
    requires j <= |data|
    decreases |data| - j
    ensures r.Ok? ==> |r.value| == |data| - j
    ensures r.Ok? ==> forall q :: j <= q < |data| ==> EnsureTensor(data[q], q, key) == Ok(r.value[q - j])
    ensures r.Err? ==> exists q :: j <= q < |data| && EnsureTensor(data[q], q, key) == Err(r.error)
                                   && forall q' :: j <= q' < q ==> EnsureTensor(data[q'], q', key).Ok?
  {
    if j == |data| then Ok([])
    else match EnsureTensor(data[j], j, key)
      case Err(e) => Err(e)
      case Ok(t) =>
        match NormalizeFrom(data, key, j + 1)
        case Err(e) => Err(e)
        case Ok(ts) => Ok([t] + ts)
  }

  /** The elements record `q` contributes to the column of `key`, when it contributes a 1-D tensor. */
  function Contribution(rec: Record, q: nat, key: string): Option<seq<real>> {
    match EnsureTensor(rec, q, key)
    case Ok(Vec(elems)) => Some(elems)
    case _ => None
  }

  predicate AllContribute(data: seq<Record>, key: string) {
    forall q :: 0 <= q < |data| ==> Contribution(data[q], q, key).Some?
  }

  /** What every record contributes to the column of `key`, in record order. */
  function Contributions(data: seq<Record>, key: string): (parts: seq<seq<real>>)
    requires AllContribute(data, key)
    ensures |parts| == |data|
  {
    seq(|data|, q requires 0 <= q < |data| && AllContribute(data, key) => Contribution(data[q], q, key).value)
  }

  /** `torch.cat([ensure_tensor(sub_data, key) for sub_data in data], dim=0)`. */
  function MergeField(data: seq<Record>, key: string): Result<seq<real>, MergeError> {
    match NormalizeFrom(data, key, 0)
    case Err(e) => Err(e)
    case Ok(ts) =>
      match Cat(ts)
      case Err(ce) => Err(CatFailed(key, ce))
      case Ok(col) => Ok(col)
  }

  /**
   * The merged column of `key`: it exists exactly when there is at least one
   * record and every record contributes a 1-D tensor, and it is then their
   * contributions laid end to end in record order. Otherwise the error is the
   * first record's (in record order) that `ensure_tensor` rejects, or else
   * torch.cat's, for an empty input or for the first 0-D tensor.
   */
  lemma MergeFieldSpec(data: seq<Record>, key: string)
    ensures MergeField(data, key).Ok? <==> |data| > 0 && AllContribute(data, key)
    ensures MergeField(data, key).Ok? ==> MergeField(data, key).value == Flatten(Contributions(data, key))
    ensures |data| == 0 ==> MergeField(data, key) == Err(CatFailed(key, EmptyTensorList))
    ensures MergeField(data, key).Err? && !MergeField(data, key).error.CatFailed? ==>
              exists q :: 0 <= q < |data| && EnsureTensor(data[q], q, key) == Err(MergeField(data, key).error)
                          && forall q' :: 0 <= q' < q ==> EnsureTensor(data[q'], q', key).Ok?
    ensures MergeField(data, key).Err? && MergeField(data, key).error.CatFailed? && |data| > 0 ==>
              var e := MergeField(data, key).error;
              && e == CatFailed(key, e.cause)
              && e.cause.ZeroDimTensor?
              && (forall q :: 0 <= q < |data| ==> EnsureTensor(data[q], q, key).Ok?)
              && var p := e.cause.position;
                 && p < |data| && EnsureTensor(data[p], p, key).value.Scalar?
                 && forall q :: 0 <= q < p ==> Contribution(data[q], q, key).Some?
  {
    var n := NormalizeFrom(data, key, 0);
    if n.Ok? {
      var ts := n.value;
      if Cat(ts).Ok? {
        assert AllContribute(data, key) by {
          forall q | 0 <= q < |data| ensures Contribution(data[q], q, key).Some? {
            assert EnsureTensor(data[q], q, key) == Ok(ts[q]);
          }
        }
        assert ElemsOf(ts) == Contributions(data, key);
      } else if |data| > 0 {
        forall q | 0 <= q < |data| ensures EnsureTensor(data[q], q, key).Ok? {
          assert EnsureTensor(data[q], q, key) == Ok(ts[q]);
        }
      }
    }
  }

  /** `for i, key in enumerate(ks): d[key] = vs[i]`, starting from `acc`. */
  function Assign(acc: Merged, ks: seq<string>, vs: seq<seq<real>>): Merged
    requires |vs| == |ks|
    decreases |ks|
  {
    if |ks| == 0 then acc else Assign(DictSet(acc, ks[0], vs[0]), ks[1..], vs[1..])
  }

  /** The keys after the assignments are those of `acc` and those assigned. */
  lemma {:induction false} AssignKeySet(acc: Merged, ks: seq<string>, vs: seq<seq<real>>)
    requires |vs| == |ks|
    decreases |ks|
    ensures forall k :: k in Keys(Assign(acc, ks, vs)) <==> k in Keys(acc) || k in ks
  {
    if |ks| > 0 {
      DictSetSpec(acc, ks[0], vs[0]);
      AssignKeySet(DictSet(acc, ks[0], vs[0]), ks[1..], vs[1..]);
      assert forall k :: k in ks <==> k == ks[0] || k in ks[1..];
    }
  }

  /** Assigning keeps a dictionary free of repeated keys. */
  lemma {:induction false} AssignIsDict(acc: Merged, ks: seq<string>, vs: seq<seq<real>>)
    requires |vs| == |ks| && IsDict(acc)
    decreases |ks|
    ensures IsDict(Assign(acc, ks, vs))
  {
    if |ks| > 0 {
      var next := DictSet(acc, ks[0], vs[0]);
      DictSetSpec(acc, ks[0], vs[0]);
      if ks[0] !in Keys(acc) {
        var kn := Keys(next);
        assert kn == Keys(acc) + [ks[0]];
        forall a, b | 0 <= a < b < |kn| ensures kn[a] != kn[b] {
          if b == |kn| - 1 {
            assert kn[a] in Keys(acc);
          }
        }
      }
      AssignIsDict(next, ks[1..], vs[1..]);
    }
  }

  lemma DistinctTail(ks: seq<string>)
    requires |ks| > 0 && Distinct(ks)
    ensures Distinct(ks[1..]) && ks[0] !in ks[1..]
  {
    forall a, b | 0 <= a < b < |ks[1..]| ensures ks[1..][a] != ks[1..][b] {
      assert ks[1..][a] == ks[a + 1] && ks[1..][b] == ks[b + 1];
    }
  }

  /** Distinct new keys are appended in the order they are assigned. */
  lemma {:induction false} AssignKeyOrder(acc: Merged, ks: seq<string>, vs: seq<seq<real>>)
    requires |vs| == |ks| && Distinct(ks) && forall k :: k in ks ==> k !in Keys(acc)
    decreases |ks|
    ensures Keys(Assign(acc, ks, vs)) == Keys(acc) + ks
  {
    if |ks| > 0 {
      var next := DictSet(acc, ks[0], vs[0]);
      AssignFirstNew(acc, ks, vs);
      AssignKeyOrder(next, ks[1..], vs[1..]);
      assert Assign(acc, ks, vs) == Assign(next, ks[1..], vs[1..]);
      AppendFirst(Keys(acc), ks);
    }
  }

  /** Appending the first key and then the rest is appending them all. */
  lemma AppendFirst(prefix: seq<string>, ks: seq<string>)
    requires |ks| > 0
    ensures (prefix + [ks[0]]) + ks[1..] == prefix + ks
  {
    assert [ks[0]] + ks[1..] == ks;
  }

  /** One step of AssignKeyOrder: the first key is new, and the rest stay new and distinct. */
  lemma AssignFirstNew(acc: Merged, ks: seq<string>, vs: seq<seq<real>>)
    requires |vs| == |ks| > 0 && Distinct(ks) && forall k :: k in ks ==> k !in Keys(acc)
    ensures Keys(DictSet(acc, ks[0], vs[0])) == Keys(acc) + [ks[0]]
    ensures Distinct(ks[1..]) && forall k :: k in ks[1..] ==> k !in Keys(DictSet(acc, ks[0], vs[0]))
  {
    var next := DictSet(acc, ks[0], vs[0]);
    DictSetSpec(acc, ks[0], vs[0]);
    assert ks[0] !in Keys(acc) by { assert ks[0] in ks; }
    DistinctTail(ks);
    forall k | k in ks[1..] ensures k !in Keys(next) {
      assert k in ks;
    }
  }

  /** Every key assigned holds its value afterwards, provided a key is always given the same value. */
  lemma {:induction false} AssignLookup(acc: Merged, ks: seq<string>, vs: seq<seq<real>>, i: nat)
    requires |vs| == |ks| && i < |ks|
    decreases |ks|
    requires forall a, b :: 0 <= a < |ks| && 0 <= b < |ks| && ks[a] == ks[b] ==> vs[a] == vs[b]
    ensures Lookup(Assign(acc, ks, vs), ks[i]) == Some(vs[i])
  {
    var next := DictSet(acc, ks[0], vs[0]);
    DictSetSpec(acc, ks[0], vs[0]);
    if ks[i] in ks[1..] {
      var j :| 0 <= j < |ks[1..]| && ks[1..][j] == ks[i];
      AssignLookup(next, ks[1..], vs[1..], j);
    } else {
      AssignUntouched(next, ks[1..], vs[1..], ks[i]);
    }
  }

  /** A key not assigned keeps its old value. */
  lemma {:induction false} AssignUntouched(acc: Merged, ks: seq<string>, vs: seq<seq<real>>, k: string)
    requires |vs| == |ks| && k !in ks
    decreases |ks|
    ensures Lookup(Assign(acc, ks, vs), k) == Lookup(acc, k)
  {
    if |ks| > 0 {
      DictSetSpec(acc, ks[0], vs[0]);
      AssignUntouched(DictSet(acc, ks[0], vs[0]), ks[1..], vs[1..], k);
    }
  }

  /** The index of the first failed column, if any. */
  function FirstError(cols: seq<Result<seq<real>, MergeError>>, from: nat): (r: Option<nat>)
    requires from <= |cols|
    decreases |cols| - from
    ensures r.None? ==> forall i :: from <= i < |cols| ==> cols[i].Ok?
    ensures r.Some? ==> from <= r.value < |cols| && cols[r.value].Err?
    ensures r.Some? ==> forall i :: from <= i < r.value ==> cols[i].Ok?
  {
    if from == |cols| then None
    else if cols[from].Err? then Some(from)
    else FirstError(cols, from + 1)
  }

  /** The fields to merge: `subset`, or the keys of the first record when it is `None`. */
  function Requested(data: seq<Record>, subset: Option<seq<string>>): seq<string>
    requires |data| > 0
  {
    match subset
    case None => Keys(data[0])
    case Some(ks) => ks
  }

  /** The merged column of every requested field, in request order. */
  function Columns(data: seq<Record>, ks: seq<string>): (cols: seq<Result<seq<real>, MergeError>>)
    ensures |cols| == |ks|
  {
    seq(|ks|, i requires 0 <= i < |ks| => MergeField(data, ks[i]))
  }

  /**
   * `cat_many(data, subset)` along dim 0. Python computes the columns key by
   * key inside the dict comprehension; since they are pure, computing all of
   * them first yields the same dict and the same first error.
   */
  function CatMany(data: seq<Record>, subset: Option<seq<string>>): Result<Merged, MergeError> {
    if |data| == 0 then Err(EmptyInput)
    else
      var ks := Requested(data, subset);
      if exists k :: k in ks && k !in Keys(data[0]) then Err(SubsetNotInFirstRecord)
      else Combine(ks, Columns(data, ks))
  }

  /** The values of columns that all succeeded. */
  function Values(cols: seq<Result<seq<real>, MergeError>>): (vs: seq<seq<real>>)
    requires forall i :: 0 <= i < |cols| ==> cols[i].Ok?
    ensures |vs| == |cols| && forall i :: 0 <= i < |cols| ==> cols[i] == Ok(vs[i])
  {
    seq(|cols|, i requires 0 <= i < |cols| => cols[i].value)
  }

  /** The dict comprehension over precomputed columns: the first failed column's error, or the dict. */
  function Combine(ks: seq<string>, cols: seq<Result<seq<real>, MergeError>>): (r: Result<Merged, MergeError>)
    requires |cols| == |ks|
    ensures r.Ok? <==> forall i :: 0 <= i < |cols| ==> cols[i].Ok?
    ensures r.Err? ==> exists i :: 0 <= i < |cols| && cols[i] == Err(r.error)
                                   && forall i' :: 0 <= i' < i ==> cols[i'].Ok?
  {
    match FirstError(cols, 0)
    case Some(i) => Err(cols[i].error)
    case None => Ok(Assign([], ks, Values(cols)))
  }

  /** A merged column fails only with a per-record error or a torch.cat error. */
  lemma MergeFieldErrorKinds(data: seq<Record>, key: string)
    ensures MergeField(data, key).Err? ==>
              !MergeField(data, key).error.EmptyInput? && !MergeField(data, key).error.SubsetNotInFirstRecord?
  {
    var r := MergeField(data, key);
    if r.Err? && !r.error.CatFailed? {
      var q :| 0 <= q < |data| && EnsureTensor(data[q], q, key) == Err(r.error);
    }
  }

  /**
   * The two checks before any field is merged: an empty `data` fails on
   * `data[0]`, and a requested field missing from the first record fails the
   * subset assertion; no later error is mistaken for the latter.
   */
  lemma CatManyPreconditions(data: seq<Record>, subset: Option<seq<string>>)
    ensures |data| == 0 ==> CatMany(data, subset) == Err(EmptyInput)
    ensures |data| > 0 ==>
              (CatMany(data, subset) == Err(SubsetNotInFirstRecord) <==>
               exists k :: k in Requested(data, subset) && k !in Keys(data[0]))
  {
    if |data| > 0 {
      var ks := Requested(data, subset);
      if !exists k :: k in ks && k !in Keys(data[0]) {
        var cols := Columns(data, ks);
        var r := Combine(ks, cols);
        if r.Err? {
          var i :| 0 <= i < |cols| && cols[i] == Err(r.error);
          MergeFieldErrorKinds(data, ks[i]);
        }
      }
    }
  }

  /**
   * `cat_many` succeeds exactly when `data` is non-empty, every requested
   * field is a key of the first record, and every requested field merges.
   */
  lemma CatManySucceeds(data: seq<Record>, subset: Option<seq<string>>)
    ensures CatMany(data, subset).Ok? <==>
              && |data| > 0
              && (forall k :: k in Requested(data, subset) ==> k in Keys(data[0]))
              && (forall k :: k in Requested(data, subset) ==> MergeField(data, k).Ok?)
  {
    if |data| > 0 {
      var ks := Requested(data, subset);
      var cols := Columns(data, ks);
      if (forall k :: k in ks ==> k in Keys(data[0])) && (forall k :: k in ks ==> MergeField(data, k).Ok?) {
        forall i | 0 <= i < |cols| ensures cols[i].Ok? {
          assert cols[i] == MergeField(data, ks[i]) && ks[i] in ks;
        }
      }
      if CatMany(data, subset).Ok? {
        forall k | k in ks ensures MergeField(data, k).Ok? {
          var i :| 0 <= i < |ks| && ks[i] == k;
          assert cols[i] == MergeField(data, k);
        }
      }
    }
  }

  /**
   * When a field fails to merge, the error reported is that of the first
   * requested field (in request order) whose column fails.
   */
  lemma CatManyFirstError(data: seq<Record>, subset: Option<seq<string>>)
    requires |data| > 0 && CatMany(data, subset).Err?
    requires CatMany(data, subset).error != SubsetNotInFirstRecord
    ensures var ks := Requested(data, subset);
            exists i :: 0 <= i < |ks| && MergeField(data, ks[i]) == Err(CatMany(data, subset).error)
                        && forall i' :: 0 <= i' < i ==> MergeField(data, ks[i']).Ok?
  {
    var ks := Requested(data, subset);
    var cols := Columns(data, ks);
    var i :| 0 <= i < |cols| && cols[i] == Err(CatMany(data, subset).error)
             && forall i' :: 0 <= i' < i ==> cols[i'].Ok?;
    assert cols[i] == MergeField(data, ks[i]);
    forall i' | 0 <= i' < i ensures MergeField(data, ks[i']).Ok? {
      assert cols[i'] == MergeField(data, ks[i']);
    }
  }

  /**
   * `cat_many(data, subset=[k1, k2])` for two distinct fields of the first
   * record: the first field's error, else the second field's error, else the
   * dict binding `k1` and then `k2` to their merged columns.
   */
  lemma CatManyPair(data: seq<Record>, k1: string, k2: string, c1: Result<seq<real>, MergeError>, c2: Result<seq<real>, MergeError>)
    requires |data| > 0 && k1 != k2 && k1 in Keys(data[0]) && k2 in Keys(data[0])
    requires c1 == MergeField(data, k1) && c2 == MergeField(data, k2)
    ensures c1.Err? ==> CatMany(data, Some([k1, k2])) == Err(c1.error)
    ensures c1.Ok? && c2.Err? ==> CatMany(data, Some([k1, k2])) == Err(c2.error)
    ensures c1.Ok? && c2.Ok? ==> CatMany(data, Some([k1, k2])) == Ok([(k1, c1.value), (k2, c2.value)])
  {
    var ks := [k1, k2];
    assert Requested(data, Some(ks)) == ks;
    assert forall k :: k in ks ==> k in Keys(data[0]);
    var cols := Columns(data, ks);
    assert cols[0] == c1 && cols[1] == c2;
    assert cols == [c1, c2];
    CombinePair(k1, k2, c1, c2);
  }

  /** The dict comprehension over two distinct keys and their columns. */
  lemma CombinePair(k1: string, k2: string, c1: Result<seq<real>, MergeError>, c2: Result<seq<real>, MergeError>)
    requires k1 != k2
    ensures c1.Err? ==> Combine([k1, k2], [c1, c2]) == Err(c1.error)
    ensures c1.Ok? && c2.Err? ==> Combine([k1, k2], [c1, c2]) == Err(c2.error)
    ensures c1.Ok? && c2.Ok? ==> Combine([k1, k2], [c1, c2]) == Ok([(k1, c1.value), (k2, c2.value)])
  {
    var cols := [c1, c2];
    if c1.Err? {
      assert FirstError(cols, 0) == Some(0);
    } else {
      assert FirstError(cols, 0) == FirstError(cols, 1);
      if c2.Err? {
        assert FirstError(cols, 1) == Some(1);
      } else {
        assert FirstError(cols, 1) == FirstError(cols, 2) == None;
        var vs := Values(cols);
        assert vs == [c1.value, c2.value];
        var d1 := DictSet([], k1, vs[0]);
        assert d1 == [(k1, vs[0])];
        var d2 := DictSet(d1, k2, vs[1]);
        assert d1[1..] == [];
        assert d2 == [d1[0]] + DictSet([], k2, vs[1]);
        assert [k1, k2][1..] == [k2] && vs[1..] == [vs[1]];
        assert Assign([], [k1, k2], vs) == Assign(d1, [k2], [vs[1]]);
        assert Assign(d1, [k2], [vs[1]]) == Assign(d2, [], []);
        assert d2 == [(k1, c1.value), (k2, c2.value)];
        assert Combine([k1, k2], cols) == Ok(Assign([], [k1, k2], vs));
      }
    }
  }

  /**
   * The keys of the merged dict: each requested field once, no other; in
   * request order when the request has no repeats, and in the first record's
   * order when no subset is given.
   */
  lemma CatManyKeys(data: seq<Record>, subset: Option<seq<string>>)
    requires CatMany(data, subset).Ok?
    ensures |data| > 0
    ensures IsDict(CatMany(data, subset).value)
    ensures forall k :: k in Keys(CatMany(data, subset).value) <==> k in Requested(data, subset)
    ensures Distinct(Requested(data, subset)) ==> Keys(CatMany(data, subset).value) == Requested(data, subset)
    ensures subset.None? && IsDict(data[0]) ==> Keys(CatMany(data, subset).value) == Keys(data[0])
  {
    var ks := Requested(data, subset);
    var cols := Columns(data, ks);
    var vs := Values(cols);
    assert IsDict<seq<real>>([]);
    AssignKeySet([], ks, vs);
    AssignIsDict([], ks, vs);
    if Distinct(ks) {
      AssignKeyOrder([], ks, vs);
    }
  }

  /** Each requested field of the merged dict holds that field's merged column. */
  lemma CatManyColumn(data: seq<Record>, subset: Option<seq<string>>, key: string)
    requires CatMany(data, subset).Ok?
    requires |data| > 0 && key in Requested(data, subset)
    ensures MergeField(data, key).Ok?
    ensures Lookup(CatMany(data, subset).value, key) == Some(MergeField(data, key).value)
  {
    var ks := Requested(data, subset);
    var cols := Columns(data, ks);
    var vs := Values(cols);
    var i :| 0 <= i < |ks| && ks[i] == key;
    forall a, b | 0 <= a < |ks| && 0 <= b < |ks| && ks[a] == ks[b] ensures vs[a] == vs[b] {
      assert cols[a] == MergeField(data, ks[a]) && cols[b] == MergeField(data, ks[b]);
    }
    AssignLookup([], ks, vs, i);
    assert cols[i] == MergeField(data, key);
  }

  /** A merged column that exists is the records' contributions laid end to end. */
  lemma MergeFieldValue(data: seq<Record>, key: string)
    requires MergeField(data, key).Ok?
    ensures |data| > 0 && AllContribute(data, key)
    ensures MergeField(data, key).value == Flatten(Contributions(data, key))
  {
    MergeFieldSpec(data, key);
  }

  /** When every record contributes a 1-D tensor, the merged column exists and is their concatenation. */
  lemma MergeFieldOfContributions(data: seq<Record>, key: string)
    requires |data| > 0 && AllContribute(data, key)
    ensures MergeField(data, key) == Ok(Flatten(Contributions(data, key)))
  {
    MergeFieldSpec(data, key);
  }

  /**
   * Layout of a merged column, given the records' contributions `parts`: its
   * length is the sum of their lengths, and element `i` of record `j`'s
   * contribution sits at offset (sum of the lengths of records 0..j-1) + i.
   * So the order is record order, then order within the record.
   */
  lemma MergeFieldLayout(data: seq<Record>, key: string, parts: seq<seq<real>>, j: nat, i: nat)
    requires MergeField(data, key).Ok? && j < |data|
    requires AllContribute(data, key) && parts == Contributions(data, key)
    ensures var col := MergeField(data, key).value;
            && |col| == TotalLength(parts)
            && (i < |parts[j]| ==> TotalLength(parts[..j]) + i < |col| && col[TotalLength(parts[..j]) + i] == parts[j][i])
  {
    MergeFieldValue(data, key);
    if i < |parts[j]| {
      FlattenAt(parts, j, i);
    }
  }

  /** Record `rec` (number `q`) contributes 1-D tensors of one length to the columns of `k1` and `k2`. */
  predicate PairedContribution(rec: Record, q: nat, k1: string, k2: string) {
    && Contribution(rec, q, k1).Some? && Contribution(rec, q, k2).Some?
    && |Contribution(rec, q, k1).value| == |Contribution(rec, q, k2).value|
  }

  /** Every record contributes equally long 1-D tensors to the columns of `k1` and `k2`. */
  predicate SameShape(data: seq<Record>, k1: string, k2: string) {
    forall q :: 0 <= q < |data| ==> PairedContribution(data[q], q, k1, k2)
  }

  /**
   * Two fields that every record holds as equally long 1-D tensors (or lists)
   * merge to columns of equal length that are index-aligned: position k of
   * both comes from the same record and the same position within it.
   */
  lemma MergeFieldsAligned(data: seq<Record>, k1: string, k2: string, k: nat)
    requires |data| > 0 && SameShape(data, k1, k2)
    ensures MergeField(data, k1).Ok? && MergeField(data, k2).Ok?
    ensures |MergeField(data, k1).value| == |MergeField(data, k2).value|
    ensures k < |MergeField(data, k1).value| ==>
              && AllContribute(data, k1)
              && k < TotalLength(Contributions(data, k1))
              && var (j, i) := Locate(Contributions(data, k1), k);
                 && j < |data|
                 && PairedContribution(data[j], j, k1, k2)
                 && i < |Contribution(data[j], j, k1).value|
                 && MergeField(data, k1).value[k] == Contribution(data[j], j, k1).value[i]
                 && MergeField(data, k2).value[k] == Contribution(data[j], j, k2).value[i]
  {
    assert AllContribute(data, k1) && AllContribute(data, k2);
    MergeFieldOfContributions(data, k1);
    MergeFieldOfContributions(data, k2);
    var a := Contributions(data, k1);
    var b := Contributions(data, k2);
    assert forall q :: 0 <= q < |a| ==> |a[q]| == |b[q]|;
    TotalLengthOfSameShape(a, b);
    if k < TotalLength(a) {
      FlattenAlignedAt(a, b, k);
    }
  }

  /**
   * A field that is a 1-D tensor in one record and a list of digit strings in
   * the next merges to one numeric column: [1, 2] and ["3", "4"] give [1, 2, 3, 4].
   */
  lemma MixedRepresentationsMerge()
    ensures CatMany([[("id", TensorVal(Vec([1.0, 2.0])))], [("id", ListVal([PyStr("3"), PyStr("4")]))]], None)
            == Ok([("id", [1.0, 2.0, 3.0, 4.0])])
  {
    var data := [[("id", TensorVal(Vec([1.0, 2.0])))], [("id", ListVal([PyStr("3"), PyStr("4")]))]];
    MixedRepresentationsColumn();
    assert Keys(data[0]) == ["id"];
    assert Columns(data, ["id"]) == [Ok([1.0, 2.0, 3.0, 4.0])];
  }

  /** The column of the example above: both records normalise, and torch.cat lays them end to end. */
  lemma MixedRepresentationsColumn()
    ensures MergeField([[("id", TensorVal(Vec([1.0, 2.0])))], [("id", ListVal([PyStr("3"), PyStr("4")]))]], "id")
            == Ok([1.0, 2.0, 3.0, 4.0])
  {
    var data := [[("id", TensorVal(Vec([1.0, 2.0])))], [("id", ListVal([PyStr("3"), PyStr("4")]))]];
    DigitListConverts(data[1]);
    assert EnsureTensor(data[0], 0, "id") == Ok(Vec([1.0, 2.0]));
    assert NormalizeFrom(data, "id", 2) == Ok([]);
    assert [Vec([3.0, 4.0])] + [] == [Vec([3.0, 4.0])];
    assert NormalizeFrom(data, "id", 1) == Ok([Vec([3.0, 4.0])]);
    assert [Vec([1.0, 2.0])] + [Vec([3.0, 4.0])] == [Vec([1.0, 2.0]), Vec([3.0, 4.0])];
    assert NormalizeFrom(data, "id", 0) == Ok([Vec([1.0, 2.0]), Vec([3.0, 4.0])]);
    var parts: seq<seq<real>> := [[1.0, 2.0], [3.0, 4.0]];
    assert ElemsOf([Vec([1.0, 2.0]), Vec([3.0, 4.0])]) == parts;
    assert parts[..1] == [[1.0, 2.0]] && |parts[..1][..0]| == 0;
    assert Flatten(parts) == [1.0, 2.0, 3.0, 4.0];
  }

  /** `ensure_tensor` turns the list ["3", "4"] into the tensor [3, 4]. */
  lemma DigitListConverts(rec: Record)
    requires rec == [("id", ListVal([PyStr("3"), PyStr("4")]))]
    ensures EnsureTensor(rec, 1, "id") == Ok(Vec([3.0, 4.0]))
  {
    DigitExamples();
    var items := [PyStr("3"), PyStr("4")];
    assert ToInt(items[0]) == Some(3) && ToInt(items[1]) == Some(4);
    var ints := IntList(items);
    assert ints.Ok? && |ints.value| == 2;
    assert ints.value == [3, 4];
    assert FitsInt64(ints.value);
    assert Lookup(rec, "id") == Some(ListVal(items));
    var converted := EnsureTensor(rec, 1, "id");
    EnsureTensorList(rec, 1, "id");
    assert converted.Ok? && converted.value.Vec? && |converted.value.elems| == 2;
    assert converted.value.elems == [3.0, 4.0];
  }

  lemma DigitExamples()
    ensures ParseInt("3") == Some(3) && ParseInt("4") == Some(4)
  {
    assert "3"[..0] == "" && "4"[..0] == "";
    StripUnpadded("3");
    StripUnpadded("4");
  }
}
