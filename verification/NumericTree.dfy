/**
 apps/common/cdr_views.py: `_sum_numeric_tree`, the deep merge of per-extension call statistics.

 The merge takes its shape and its labels from the first tree and sums every number. Each number
 of the result is the sum over all trees at that path, whatever the trees' shapes; the merge fails
 (TypeError) exactly when something that cannot be added sits where the first tree has a number.
*/
module NumericTree {
  import opened Wrappers
  import Ordering

  datatype Json =
    | Null
    | Bool(b: bool)
    | Num(n: real)
    | Str(s: string)
    | Arr(items: seq<Json>)
    | Obj(fields: map<string, Json>)

  type Object = map<string, Json>

  // ---------------------------------------------------------------------------
  // The merge
  // ---------------------------------------------------------------------------

  /** `value or 0` as an operand of `sum`; None when adding it raises TypeError. */
  function Addend(v: Json): Option<real> {
    match v
    case Null => Some(0.0)
    case Bool(b) => Some(if b then 1.0 else 0.0)
    case Num(n) => Some(n)
    case Str(s) => if s == "" then Some(0.0) else None
    case Arr(items) => if items == [] then Some(0.0) else None
    case Obj(fields) => if fields == map[] then Some(0.0) else None
  }

  /** `sum(t.get(key, 0) or 0 for t in trees)` */
  function SumField(trees: seq<Object>, key: string): Option<real> {
    if trees == [] then Some(0.0)
    else
      var first := if key in trees[0] then Addend(trees[0][key]) else Some(0.0);
      var rest := SumField(trees[1..], key);
      if first.Some? && rest.Some? then Some(first.value + rest.value) else None
  }

  /** `[t.get(key, {}) for t in trees if isinstance(t.get(key), dict)]` */
  function SubTrees(trees: seq<Object>, key: string): (r: seq<Object>)
    ensures trees != [] && key in trees[0] && trees[0][key].Obj? ==> r != [] && r[0] == trees[0][key].fields
    ensures |r| <= |trees|
  {
    if trees == [] then []
    else
      (if key in trees[0] && trees[0][key].Obj? then [trees[0][key].fields] else []) + SubTrees(trees[1..], key)
  }

  function MergeField(trees: seq<Object>, key: string): Option<Json>
    requires trees != [] && key in trees[0]
    decreases Obj(trees[0]), 0
  {
    var value := trees[0][key];
    if value.Obj? then
      var sub := SubTrees(trees, key);
      assert Obj(sub[0]) == value;
      var merged := SumTree(sub);
      if merged.Some? then Some(Obj(merged.value)) else None
    else if value.Num? then
      var total := SumField(trees, key);
      if total.Some? then Some(Num(total.value)) else None
    else Some(value)
  }

  /** `_sum_numeric_tree`; None stands for the TypeError. */
  function SumTree(trees: seq<Object>): Option<Object>
    decreases if trees == [] then Null else Obj(trees[0]), 1
  {
    if trees == [] then Some(map[])
    else if exists key :: key in trees[0] && MergeField(trees, key).None? then None
    else Some(map key | key in trees[0] :: MergeField(trees, key).value)
  }

  // ---------------------------------------------------------------------------
  // Reading a tree at a path
  // ---------------------------------------------------------------------------

  function At(o: Object, path: seq<string>): Option<Json>
    decreases |path|
  {
    if path == [] || path[0] !in o then None
    else if |path| == 1 then Some(o[path[0]])
    else if o[path[0]].Obj? then At(o[path[0]].fields, path[1..])
    else None
  }

  predicate NumberAt(o: Object, path: seq<string>) {
    At(o, path).Some? && At(o, path).value.Num?
  }

  predicate Addable(o: Object, path: seq<string>) {
    At(o, path).Some? ==> Addend(At(o, path).value).Some?
  }

  /** What a tree contributes at a path: nothing when the path is missing. */
  function Amount(o: Object, path: seq<string>): real {
    if At(o, path).Some? && Addend(At(o, path).value).Some? then Addend(At(o, path).value).value else 0.0
  }

  function Total(trees: seq<Object>, path: seq<string>): real {
    if trees == [] then 0.0 else Amount(trees[0], path) + Total(trees[1..], path)
  }

  ghost predicate AllAddable(trees: seq<Object>, path: seq<string>) {
    forall t :: t in trees ==> Addable(t, path)
  }

  // ---------------------------------------------------------------------------
  // Every leaf of the result
  // ---------------------------------------------------------------------------

  lemma {:induction false} AddableCons(trees: seq<Object>, path: seq<string>)
    requires trees != []
    ensures AllAddable(trees, path) <==> Addable(trees[0], path) && AllAddable(trees[1..], path)
  {
  }

  lemma {:induction false} SumFieldTotal(trees: seq<Object>, key: string)
    ensures SumField(trees, key).Some? <==> AllAddable(trees, [key])
    ensures SumField(trees, key).Some? ==> SumField(trees, key).value == Total(trees, [key])
  {
    if trees == [] {
    } else {
      SumFieldTotal(trees[1..], key);
      AddableCons(trees, [key]);
    }
  }

  lemma {:induction false} SubTreesTotal(trees: seq<Object>, key: string, rest: seq<string>)
    requires rest != []
    ensures Total(SubTrees(trees, key), rest) == Total(trees, [key] + rest)
    ensures AllAddable(SubTrees(trees, key), rest) <==> AllAddable(trees, [key] + rest)
  {
    var path := [key] + rest;
    assert path[1..] == rest;
    if trees == [] {
    } else {
      SubTreesTotal(trees[1..], key, rest);
      AddableCons(trees, path);
      var t, sub := trees[0], SubTrees(trees[1..], key);
      if key in t && t[key].Obj? {
        var whole := SubTrees(trees, key);
        assert whole == [t[key].fields] + sub;
        assert whole[0] == t[key].fields && whole[1..] == sub;
        AddableCons(whole, rest);
        assert At(t, path) == At(t[key].fields, rest);
      } else {
        assert SubTrees(trees, key) == sub;
        assert At(t, path) == None;
      }
    }
  }

  /**
   Wherever the first tree has a number the result has the sum over all trees; wherever it has
   another leaf the result has that leaf; and the result has no other paths.
  */
  lemma {:induction false} LeavesOfSum(trees: seq<Object>, path: seq<string>)
    requires trees != [] && SumTree(trees).Some?
    ensures NumberAt(trees[0], path) ==>
              AllAddable(trees, path) && At(SumTree(trees).value, path) == Some(Num(Total(trees, path)))
    ensures At(trees[0], path).None? <==> At(SumTree(trees).value, path).None?
    ensures At(trees[0], path).Some? && !At(trees[0], path).value.Num? && !At(trees[0], path).value.Obj? ==>
              At(SumTree(trees).value, path) == At(trees[0], path)
    ensures At(trees[0], path).Some? && At(trees[0], path).value.Obj? ==>
              At(SumTree(trees).value, path).Some? && At(SumTree(trees).value, path).value.Obj?
    decreases |path|
  {
    var result := SumTree(trees).value;
    if path != [] && path[0] in trees[0] {
      var key, rest := path[0], path[1..];
      assert MergeField(trees, key).Some? && result[key] == MergeField(trees, key).value;
      assert path == [key] + rest;
      if |path| == 1 {
        assert path == [key] && At(result, path) == Some(result[key]);
        SumFieldTotal(trees, key);
      } else if trees[0][key].Obj? {
        LeavesOfSum(SubTrees(trees, key), rest);
        SubTreesTotal(trees, key, rest);
      }
    }
  }

  // ---------------------------------------------------------------------------
  // What a value is worth
  // ---------------------------------------------------------------------------

  /** What `value or 0` adds to a sum: nothing for what is missing or empty, one for True. */
  ghost predicate Worth(value: Option<Json>, n: real) {
    match value
    case None => n == 0.0
    case Some(Null) => n == 0.0
    case Some(Bool(b)) => n == if b then 1.0 else 0.0
    case Some(Num(x)) => n == x
    case Some(Str(s)) => s == "" && n == 0.0
    case Some(Arr(items)) => items == [] && n == 0.0
    case Some(Obj(fields)) => fields == map[] && n == 0.0
  }

  function SumOf(ns: seq<real>): real {
    if ns == [] then 0.0 else ns[0] + SumOf(ns[1..])
  }

  lemma {:induction false} WorthTotal(trees: seq<Object>, path: seq<string>, ns: seq<real>)
    requires |ns| == |trees| && forall i :: 0 <= i < |trees| ==> Worth(At(trees[i], path), ns[i])
    ensures Total(trees, path) == SumOf(ns)
  {
    hide At;
    if trees == [] {
    } else {
      assert forall i :: 0 <= i < |trees| - 1 ==> trees[1..][i] == trees[i + 1] && ns[1..][i] == ns[i + 1];
      WorthTotal(trees[1..], path, ns[1..]);
    }
  }

  /** Where the first tree has a number the merge has the sum of what all the trees have there. */
  lemma {:induction false} NumbersAdd(trees: seq<Object>, path: seq<string>, ns: seq<real>)
    requires trees != [] && SumTree(trees).Some? && NumberAt(trees[0], path)
    requires |ns| == |trees| && forall i :: 0 <= i < |trees| ==> Worth(At(trees[i], path), ns[i])
    ensures At(SumTree(trees).value, path) == Some(Num(SumOf(ns)))
  {
    LeavesOfSum(trees, path);
    WorthTotal(trees, path, ns);
  }

  /** Reading at a path of one and of two keys. */
  lemma {:induction false} AtKeys(o: Object, a: string, b: string)
    ensures At(o, [a]) == if a in o then Some(o[a]) else None
    ensures At(o, [a, b]) ==
            if a in o && o[a].Obj? && b in o[a].fields then Some(o[a].fields[b]) else None
  {
    var path := [a, b];
    assert path[1..] == [b];
  }

  /** A failed merge met something that cannot be added facing a number of the first tree. */
  lemma {:induction false} FailedAt(trees: seq<Object>) returns (path: seq<string>)
    requires trees != [] && SumTree(trees).None?
    ensures NumberAt(trees[0], path) && !AllAddable(trees, path)
    decreases Obj(trees[0])
  {
    var key :| key in trees[0] && MergeField(trees, key).None?;
    if trees[0][key].Obj? {
      var sub := SubTrees(trees, key);
      assert Obj(sub[0]) == trees[0][key];
      var rest := FailedAt(sub);
      SubTreesTotal(trees, key, rest);
      path := [key] + rest;
      assert path[1..] == rest;
    } else {
      SumFieldTotal(trees, key);
      path := [key];
    }
  }

  /** The merge succeeds exactly when everything facing a number of the first tree can be added. */
  lemma {:induction false} SumSucceedsIff(trees: seq<Object>)
    requires trees != []
    ensures SumTree(trees).Some? <==> forall path :: NumberAt(trees[0], path) ==> AllAddable(trees, path)
  {
    if SumTree(trees).Some? {
      forall path | NumberAt(trees[0], path)
        ensures AllAddable(trees, path)
      {
        LeavesOfSum(trees, path);
      }
    } else {
      var path := FailedAt(trees);
    }
  }

  // ---------------------------------------------------------------------------
  // Order of the trees
  // ---------------------------------------------------------------------------

  lemma {:induction false} TotalConcat(a: seq<Object>, b: seq<Object>, path: seq<string>)
    ensures Total(a + b, path) == Total(a, path) + Total(b, path)
  {
    if a == [] {
      assert a + b == b;
    } else {
      assert (a + b)[1..] == a[1..] + b;
      TotalConcat(a[1..], b, path);
    }
  }

  lemma {:induction false} TotalPermutation(a: seq<Object>, b: seq<Object>, path: seq<string>)
    requires multiset(a) == multiset(b)
    ensures Total(a, path) == Total(b, path)
  {
    hide Amount;
    if a == [] {
      assert |multiset(b)| == 0;
    } else {
      var i := Ordering.PermutationHead(a, b);
      TotalPermutation(a[1..], b[..i] + b[i + 1..], path);
      TotalConcat(b[..i], b[i + 1..], path);
      TotalConcat(b[..i] + [a[0]], b[i + 1..], path);
      TotalConcat(b[..i], [a[0]], path);
    }
  }

  /** The numbers of the result do not depend on the order of the trees. */
  lemma {:induction false} SumIgnoresOrder(a: seq<Object>, b: seq<Object>, path: seq<string>)
    requires a != [] && b != [] && multiset(a) == multiset(b)
    requires SumTree(a).Some? && SumTree(b).Some?
    requires NumberAt(a[0], path) && NumberAt(b[0], path)
    ensures At(SumTree(a).value, path) == At(SumTree(b).value, path)
  {
    LeavesOfSum(a, path);
    LeavesOfSum(b, path);
    TotalPermutation(a, b, path);
  }

  // ---------------------------------------------------------------------------
  // Merging in parts
  // ---------------------------------------------------------------------------

  ghost predicate SameShape(a: Object, b: Object)
    decreases Obj(a)
  {
    && a.Keys == b.Keys
    && forall k :: k in a ==>
         && (a[k].Num? <==> b[k].Num?)
         && (a[k].Obj? <==> b[k].Obj?)
         && (a[k].Obj? ==> SameShape(a[k].fields, b[k].fields))
  }

  ghost predicate Uniform(shape: Object, trees: seq<Object>) {
    forall i :: 0 <= i < |trees| ==> SameShape(shape, trees[i])
  }

  lemma {:induction false} UniformField(shape: Object, trees: seq<Object>, key: string)
    requires Uniform(shape, trees) && key in shape
    ensures shape[key].Obj? ==>
              |SubTrees(trees, key)| == |trees| && Uniform(shape[key].fields, SubTrees(trees, key))
    ensures shape[key].Num? ==> SumField(trees, key).Some?
  {
    if trees == [] {
    } else {
      assert SameShape(shape, trees[0]);
      UniformField(shape, trees[1..], key);
      if shape[key].Obj? {
        var sub := SubTrees(trees[1..], key);
        assert SubTrees(trees, key) == [trees[0][key].fields] + sub;
      }
    }
  }

  /** Trees of one shape always merge, into a tree of that shape. */
  lemma {:induction false} UniformMerges(shape: Object, trees: seq<Object>)
    requires trees != [] && Uniform(shape, trees)
    ensures SumTree(trees).Some? && SameShape(shape, SumTree(trees).value)
    decreases Obj(shape)
  {
    assert SameShape(shape, trees[0]);
    forall key | key in trees[0]
      ensures MergeField(trees, key).Some?
      ensures shape[key].Num? <==> MergeField(trees, key).value.Num?
      ensures shape[key].Obj? <==> MergeField(trees, key).value.Obj?
      ensures shape[key].Obj? ==> SameShape(shape[key].fields, MergeField(trees, key).value.fields)
    {
      UniformField(shape, trees, key);
      if shape[key].Obj? {
        UniformMerges(shape[key].fields, SubTrees(trees, key));
      }
    }
  }

  lemma {:induction false} SumFieldConcat(a: seq<Object>, b: seq<Object>, key: string)
    requires SumField(a, key).Some? && SumField(b, key).Some?
    ensures SumField(a + b, key) == Some(SumField(a, key).value + SumField(b, key).value)
  {
    if a == [] {
      assert a + b == b;
    } else {
      assert (a + b)[1..] == a[1..] + b;
      SumFieldConcat(a[1..], b, key);
    }
  }

  lemma {:induction false} SubTreesConcat(a: seq<Object>, b: seq<Object>, key: string)
    ensures SubTrees(a + b, key) == SubTrees(a, key) + SubTrees(b, key)
  {
    if a == [] {
      assert a + b == b;
    } else {
      assert (a + b)[1..] == a[1..] + b;
      SubTreesConcat(a[1..], b, key);
    }
  }

  lemma {:induction false} UniformConcat(shape: Object, a: seq<Object>, b: seq<Object>)
    requires Uniform(shape, a) && Uniform(shape, b)
    ensures Uniform(shape, a + b)
  {
  }

  lemma {:induction false} FieldOfSum(trees: seq<Object>, key: string)
    requires trees != [] && SumTree(trees).Some? && key in trees[0]
    ensures key in SumTree(trees).value && MergeField(trees, key) == Some(SumTree(trees).value[key])
  {
    hide MergeField;
  }

  lemma {:induction false} NumberInParts(shape: Object, a: seq<Object>, b: seq<Object>, ra: Object, rb: Object,
                                         key: string)
    requires a != [] && b != [] && Uniform(shape, a) && Uniform(shape, b) && key in shape && shape[key].Num?
    requires SumTree(a) == Some(ra) && SumTree(b) == Some(rb)
    ensures key in a[0] && key in ra && MergeField(a + b, key) == MergeField([ra, rb], key)
  {
    assert (a + b)[0] == a[0] && [ra, rb][1..] == [rb];
    assert SameShape(shape, a[0]) && SameShape(shape, b[0]);
    UniformField(shape, a, key);
    UniformField(shape, b, key);
    SumFieldConcat(a, b, key);
    assert ra[key] == MergeField(a, key).value == Num(SumField(a, key).value);
    assert rb[key] == MergeField(b, key).value == Num(SumField(b, key).value);
    assert SumField([rb], key) == Some(rb[key].n);
    assert SumField([ra, rb], key) == Some(ra[key].n + rb[key].n);
  }

  lemma {:induction false} SubTreeInParts(shape: Object, a: seq<Object>, b: seq<Object>, ra: Object, rb: Object,
                                          key: string)
    requires a != [] && b != [] && Uniform(shape, a) && Uniform(shape, b) && key in shape && shape[key].Obj?
    requires SumTree(a) == Some(ra) && SumTree(b) == Some(rb)
    requires var sa, sb := SubTrees(a, key), SubTrees(b, key);
             SumTree(sa).Some? && SumTree(sb).Some?
                 && SumTree(sa + sb) == SumTree([SumTree(sa).value, SumTree(sb).value])
    ensures key in a[0] && key in ra && MergeField(a + b, key) == MergeField([ra, rb], key)
  {
    var sa, sb := SubTrees(a, key), SubTrees(b, key);
    assert (a + b)[0] == a[0];
    assert SameShape(shape, a[0]) && SameShape(shape, b[0]);
    SubTreesConcat(a, b, key);
    FieldOfSum(a, key);
    FieldOfSum(b, key);
    assert ra[key] == Obj(SumTree(sa).value) && rb[key] == Obj(SumTree(sb).value);
    hide *;
    PairSubTrees(ra, rb, key);
    MergedObject(a + b, key);
    MergedObject([ra, rb], key);
  }

  lemma {:induction false} MergedObject(trees: seq<Object>, key: string)
    requires trees != [] && key in trees[0] && trees[0][key].Obj?
    ensures var merged := SumTree(SubTrees(trees, key));
            MergeField(trees, key) == if merged.Some? then Some(Obj(merged.value)) else None
  {
    hide SumTree, SubTrees;
  }

  lemma {:induction false} PairSubTrees(a: Object, b: Object, key: string)
    requires key in a && key in b && a[key].Obj? && b[key].Obj?
    ensures SubTrees([a, b], key) == [a[key].fields, b[key].fields]
  {
    var both := [a, b];
    assert both[1..] == [b] && [b][1..] == [];
    assert SubTrees([b], key) == [b[key].fields];
    assert [a[key].fields] + [b[key].fields] == [a[key].fields, b[key].fields];
  }

  lemma {:induction false} LabelInParts(shape: Object, a: seq<Object>, b: seq<Object>, ra: Object, rb: Object,
                                        key: string)
    requires a != [] && Uniform(shape, a) && key in shape && !shape[key].Obj? && !shape[key].Num?
    requires SumTree(a) == Some(ra)
    ensures key in a[0] && key in ra && MergeField(a + b, key) == MergeField([ra, rb], key)
  {
  }

  /** Merging all trees at once equals merging the merges of two non-empty parts. */
  lemma {:induction false} SumInParts(shape: Object, a: seq<Object>, b: seq<Object>)
    requires a != [] && b != [] && Uniform(shape, a) && Uniform(shape, b)
    ensures SumTree(a).Some? && SumTree(b).Some?
    ensures SumTree(a + b) == SumTree([SumTree(a).value, SumTree(b).value])
    decreases Obj(shape)
  {
    UniformMerges(shape, a);
    UniformMerges(shape, b);
    UniformConcat(shape, a, b);
    UniformMerges(shape, a + b);
    var ra, rb := SumTree(a).value, SumTree(b).value;
    assert Uniform(shape, [ra, rb]);
    UniformMerges(shape, [ra, rb]);
    assert SameShape(shape, a[0]) && (a + b)[0] == a[0] && [ra, rb][0] == ra;
    assert a[0].Keys == shape.Keys == ra.Keys;
    hide SameShape, SumTree, MergeField, SubTrees;
    forall key | key in shape
      ensures key in a[0] && MergeField(a + b, key) == MergeField([ra, rb], key)
    {
      if shape[key].Obj? {
        UniformField(shape, a, key);
        UniformField(shape, b, key);
        SumInParts(shape[key].fields, SubTrees(a, key), SubTrees(b, key));
        SubTreeInParts(shape, a, b, ra, rb, key);
      } else if shape[key].Num? {
        NumberInParts(shape, a, b, ra, rb, key);
      } else {
        LabelInParts(shape, a, b, ra, rb, key);
      }
    }
    SameFieldsSameSum(a + b, [ra, rb]);
  }

  lemma {:induction false} SameFieldsSameSum(a: seq<Object>, b: seq<Object>)
    requires a != [] && b != [] && SumTree(a).Some? && SumTree(b).Some? && a[0].Keys == b[0].Keys
    requires forall key :: key in a[0] ==> MergeField(a, key) == MergeField(b, key)
    ensures SumTree(a) == SumTree(b)
  {
    hide MergeField;
    assert SumTree(a).value == SumTree(b).value;
  }
}
