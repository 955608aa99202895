/** `merge_polys`: select the features whose filter_key property contains
    filter_value, and merge them into a collection of one feature whose
    properties hold the filter pair and the per-key totals of every float
    property. The shapely union (with `shape` and `mapping` around it) and
    `bounds` are parameters: the model does not look inside geometry. */
module Merge {
  import opened Common
  import opened OrderedDict
  import opened GeoJson

  /** Python's `t in s` on two strings: t occurs in s (the empty string
      occurs in every string). */
  predicate ContainsSubstring(s: string, t: string) {
    exists i :: 0 <= i <= |s| && OccursAt(s, t, i)
  }

  /** t occurs in s starting at position i. */
  predicate OccursAt(s: string, t: string, i: nat) {
    i + |t| <= |s| && s[i..i + |t|] == t
  }

  /** What the test of line 126 does with one feature. */
  datatype Verdict = Keep | Skip | Fails

  /** `filter_key in props and filter_value in props[filter_key]`; the second
      `in` raises TypeError when the value is not a string. */
  function Test<G>(f: Feature<G>, filterKey: string, filterValue: string): (verdict: Verdict) {
    if !HasKey(f.properties, filterKey) then Skip
    else
      match Get(f.properties, filterKey)
      case VStr(s) => if ContainsSubstring(s, filterValue) then Keep else Skip
      case _ => Fails
  }

  /** The features the loop of lines 125-128 keeps, or the TypeError it
      stops with. */
  function Selection<G>(fs: seq<Feature<G>>, filterKey: string, filterValue: string): (r: Result<seq<Feature<G>>>) {
    if fs == [] then Ok([])
    else
      var last := fs[|fs| - 1];
      match Selection(fs[..|fs| - 1], filterKey, filterValue)
      case Err(e) => Err(e)
      case Ok(sel) =>
        match Test(last, filterKey, filterValue)
        case Fails => Err(TypeError)
        case Keep => Ok(sel + [last])
        case Skip => Ok(sel)
  }

  /** The geometries of the given features, in order. */
  function Geometries<G>(fs: seq<Feature<G>>): (gs: seq<G>)
    ensures |gs| == |fs| && forall i :: 0 <= i < |fs| ==> gs[i] == fs[i].geometry
  {
    seq(|fs|, i requires 0 <= i < |fs| => fs[i].geometry)
  }

  /** The positions of fs whose verdict is Keep, in increasing order. */
  ghost function KeptPositions<G>(fs: seq<Feature<G>>, filterKey: string, filterValue: string): (pos: seq<int>) {
    if fs == [] then []
    else
      KeptPositions(fs[..|fs| - 1], filterKey, filterValue)
        + (if Test(fs[|fs| - 1], filterKey, filterValue) == Keep then [|fs| - 1] else [])
  }

  /** KeptPositions lists exactly the positions whose verdict is Keep. */
  lemma {:induction false} KeptPositionsSpec<G>(fs: seq<Feature<G>>, filterKey: string, filterValue: string, i: int)
    ensures forall j :: 0 <= j < |KeptPositions(fs, filterKey, filterValue)| ==>
              0 <= KeptPositions(fs, filterKey, filterValue)[j] < |fs|
    ensures 0 <= i < |fs| ==> (i in KeptPositions(fs, filterKey, filterValue) <==> Test(fs[i], filterKey, filterValue) == Keep)
  {
    if fs != [] {
      var init := fs[..|fs| - 1];
      KeptPositionsSpec(init, filterKey, filterValue, i);
      if 0 <= i < |init| {
        assert fs[i] == init[i];
      }
    }
  }

  /** The selection fails exactly when some feature maps filter_key to a
      non-string, and the failure is a TypeError. */
  lemma {:induction false} SelectionFails<G>(fs: seq<Feature<G>>, filterKey: string, filterValue: string)
    ensures Selection(fs, filterKey, filterValue).Err? <==>
            exists i :: 0 <= i < |fs| && Test(fs[i], filterKey, filterValue) == Fails
    ensures Selection(fs, filterKey, filterValue).Err? ==> Selection(fs, filterKey, filterValue).error == TypeError
  {
    if fs != [] {
      var init, last := fs[..|fs| - 1], fs[|fs| - 1];
      SelectionFails(init, filterKey, filterValue);
      if exists i :: 0 <= i < |init| && Test(init[i], filterKey, filterValue) == Fails {
        var i :| 0 <= i < |init| && Test(init[i], filterKey, filterValue) == Fails;
        assert fs[i] == init[i];
      }
      if exists i :: 0 <= i < |fs| && Test(fs[i], filterKey, filterValue) == Fails {
        var i :| 0 <= i < |fs| && Test(fs[i], filterKey, filterValue) == Fails;
        if i < |init| {
          assert fs[i] == init[i];
        }
      }
    }
  }

  /** A successful selection is fs at exactly its kept positions, in
      input order. */
  lemma {:induction false} SelectionKeeps<G>(fs: seq<Feature<G>>, filterKey: string, filterValue: string)
    requires Selection(fs, filterKey, filterValue).Ok?
    ensures Embedding(KeptPositions(fs, filterKey, filterValue), Selection(fs, filterKey, filterValue).value, fs)
  {
    if fs != [] {
      var init, last := fs[..|fs| - 1], fs[|fs| - 1];
      SelectionKeeps(init, filterKey, filterValue);
      KeptPositionsSpec(init, filterKey, filterValue, 0);
      var sel, ks := Selection(init, filterKey, filterValue).value, KeptPositions(init, filterKey, filterValue);
      assert fs == init + [last];
      EmbeddingExtend(ks, sel, init, last);
    }
  }

  /** Every selected feature is an input feature whose filter_key value is a
      string containing filter_value. */
  lemma SelectedAreKept<G>(fs: seq<Feature<G>>, filterKey: string, filterValue: string)
    requires Selection(fs, filterKey, filterValue).Ok?
    ensures forall f :: f in Selection(fs, filterKey, filterValue).value ==>
              f in fs && Test(f, filterKey, filterValue) == Keep
  {
    SelectionKeeps(fs, filterKey, filterValue);
    var sel := Selection(fs, filterKey, filterValue).value;
    var e := KeptPositions(fs, filterKey, filterValue);
    forall f | f in sel ensures f in fs && Test(f, filterKey, filterValue) == Keep {
      var j :| 0 <= j < |sel| && sel[j] == f;
      KeptPositionsSpec(fs, filterKey, filterValue, e[j]);
    }
  }

  // ---- Aggregation of float properties (lines 136-146) ----

  /** The property pairs of the features, feature after feature, in the order
      the nested loop of lines 140-141 visits them. */
  function Pairs<G>(fs: seq<Feature<G>>): (ps: Props) {
    if fs == [] then [] else Pairs(fs[..|fs| - 1]) + fs[|fs| - 1].properties
  }

  /** Some pair in ps has key k and a float value. */
  ghost predicate HasFloat(ps: Props, k: string) {
    exists i :: 0 <= i < |ps| && ps[i].0 == k && ps[i].1.VFloat?
  }

  /** The keys that have a float value somewhere in ps, each once, in the
      order of their first float. */
  function FloatKeys(ps: Props): (ks: seq<string>) {
    if ps == [] then []
    else
      var init, last := ps[..|ps| - 1], ps[|ps| - 1];
      FloatKeys(init) + (if last.1.VFloat? && last.0 !in FloatKeys(init) then [last.0] else [])
  }

  /** The sum of the float values ps has for key k; other values count 0. */
  function FloatSum(ps: Props, k: string): (total: real) {
    if ps == [] then 0.0
    else
      var last := ps[|ps| - 1];
      FloatSum(ps[..|ps| - 1], k) + (if last.0 == k && last.1.VFloat? then last.1.x else 0.0)
  }

  /** Every float key with its total, in first-float order. */
  function FloatTotals(ps: Props): (totals: Props) {
    var ks := FloatKeys(ps);
    seq(|ks|, i requires 0 <= i < |ks| => (ks[i], VFloat(FloatSum(ps, ks[i]))))
  }

  /** The merged properties: the filter pair first, then the float totals. */
  function MergedProperties<G>(filterKey: string, filterValue: string, sel: seq<Feature<G>>): (merged: Props) {
    [(filterKey, VStr(filterValue))] + FloatTotals(Pairs(sel))
  }

  /** `type(props[k]) == float`. */
  predicate HasFloatValue(props: Props, k: string) {
    HasKey(props, k) && Get(props, k).VFloat?
  }

  /** The float value a properties dict has for k, or 0 when it has none. */
  function FloatOf(props: Props, k: string): (x: real) {
    if HasFloatValue(props, k) then Get(props, k).x else 0.0
  }

  /** The sum over the features of their float value for k. */
  function FeatureFloatSum<G>(fs: seq<Feature<G>>, k: string): (total: real) {
    if fs == [] then 0.0 else FeatureFloatSum(fs[..|fs| - 1], k) + FloatOf(fs[|fs| - 1].properties, k)
  }

  /** The position of the first float pair with key k in ps, or |ps|. */
  ghost function FirstFloat(ps: Props, k: string): (i: nat)
    ensures i <= |ps|
    ensures i < |ps| ==> ps[i].0 == k && ps[i].1.VFloat?
    ensures forall j :: 0 <= j < i ==> !(ps[j].0 == k && ps[j].1.VFloat?)
  {
    if ps == [] then 0
    else if ps[0].0 == k && ps[0].1.VFloat? then 0
    else 1 + FirstFloat(ps[1..], k)
  }

  lemma FirstFloatAt(ps: Props, k: string, i: nat)
    requires i <= |ps|
    requires i < |ps| ==> ps[i].0 == k && ps[i].1.VFloat?
    requires forall j :: 0 <= j < i ==> !(ps[j].0 == k && ps[j].1.VFloat?)
    ensures FirstFloat(ps, k) == i
  {
  }

  /** A key is a float key exactly when some pair gives it a float value. */
  lemma {:induction false} FloatKeysIff(ps: Props, k: string)
    ensures k in FloatKeys(ps) <==> HasFloat(ps, k)
  {
    if ps != [] {
      var init, last := ps[..|ps| - 1], ps[|ps| - 1];
      FloatKeysIff(init, k);
      if HasFloat(ps, k) && !HasFloat(init, k) {
        var i :| 0 <= i < |ps| && ps[i].0 == k && ps[i].1.VFloat?;
        assert i == |ps| - 1;
      }
      if HasFloat(init, k) {
        var i :| 0 <= i < |init| && init[i].0 == k && init[i].1.VFloat?;
        assert ps[i] == init[i];
      }
    }
  }

  /** No float key is listed twice. */
  lemma {:induction false} FloatKeysDistinct(ps: Props)
    ensures forall i, j :: 0 <= i < j < |FloatKeys(ps)| ==> FloatKeys(ps)[i] != FloatKeys(ps)[j]
  {
    if ps != [] {
      FloatKeysDistinct(ps[..|ps| - 1]);
    }
  }

  /** A key without a float pair totals 0. */
  lemma {:induction false} FloatSumAbsent(ps: Props, k: string)
    requires !HasFloat(ps, k)
    ensures FloatSum(ps, k) == 0.0
  {
    if ps != [] {
      var init := ps[..|ps| - 1];
      assert forall i :: 0 <= i < |init| ==> init[i] == ps[i];
      FloatSumAbsent(init, k);
    }
  }

  /** The merged dict, looked up by key: the filter key gives the filter
      value, a float key its running total, and no other key is present. */
  lemma TotalsLookup(filterKey: string, filterValue: string, ps: Props, k: string)
    requires !HasFloat(ps, filterKey)
    ensures var m := [(filterKey, VStr(filterValue))] + FloatTotals(ps);
            && (HasKey(m, k) <==> k == filterKey || HasFloat(ps, k))
            && (k == filterKey ==> Get(m, k) == VStr(filterValue))
            && (k != filterKey && HasKey(m, k) ==> Get(m, k) == VFloat(FloatSum(ps, k)))
  {
    var m := [(filterKey, VStr(filterValue))] + FloatTotals(ps);
    var ks := FloatKeys(ps);
    FloatKeysIff(ps, k);
    if k == filterKey {
      IndexOfAt(m, k, 0);
    } else if HasFloat(ps, k) {
      var t :| 0 <= t < |ks| && ks[t] == k;
      FloatKeysDistinct(ps);
      IndexOfAt(m, k, t + 1);
    } else {
      forall j | 0 <= j < |m| ensures m[j].0 != k {
        if j > 0 {
          assert m[j].0 == ks[j - 1];
        }
      }
      HasKeyIff(m, k);
    }
  }

  /** How one more pair changes the float keys and the sums. */
  lemma FloatAppend(ps: Props, p: (string, Value))
    ensures FloatKeys(ps + [p]) ==
            FloatKeys(ps) + (if p.1.VFloat? && p.0 !in FloatKeys(ps) then [p.0] else [])
    ensures forall k :: (FloatSum(ps + [p], k) ==
                         FloatSum(ps, k) + (if p.0 == k && p.1.VFloat? then p.1.x else 0.0))
  {
    assert (ps + [p])[..|ps|] == ps;
  }

  /** A float pair for a key already listed at position t adds x to that
      key's total and changes nothing else. */
  lemma TotalsAddAt(ps: Props, k: string, x: real, t: nat)
    requires t < |FloatKeys(ps)| && FloatKeys(ps)[t] == k
    ensures FloatTotals(ps + [(k, VFloat(x))]) == FloatTotals(ps)[t := (k, VFloat(FloatSum(ps, k) + x))]
  {
    var ps' := ps + [(k, VFloat(x))];
    var ks := FloatKeys(ps);
    FloatKeysDistinct(ps);
    FloatAppend(ps, (k, VFloat(x)));
    var lhs, rhs := FloatTotals(ps'), FloatTotals(ps)[t := (k, VFloat(FloatSum(ps, k) + x))];
    assert |lhs| == |rhs|;
    forall j | 0 <= j < |lhs| ensures lhs[j] == rhs[j] {
      if j != t {
        assert ks[j] != k;
      }
    }
  }

  /** Updating a key that sits at position t of the tail of a dict. */
  lemma SetInTail<V>(head: (string, V), tail: Dict<V>, k: string, v: V, t: nat)
    requires head.0 != k && t < |tail| && tail[t].0 == k
    requires forall j :: 0 <= j < t ==> tail[j].0 != k
    ensures Set([head] + tail, k, v) == [head] + tail[t := (k, v)]
  {
    var m := [head] + tail;
    assert forall j :: 0 <= j < t + 1 ==> m[j].0 != k by {
      forall j | 0 <= j < t + 1 ensures m[j].0 != k {
        if j > 0 {
          assert m[j] == tail[j - 1];
        }
      }
    }
    IndexOfAt(m, k, t + 1);
  }

  /** Adding a float pair (k, x) whose key already has a total is the dict
      update `merged[k] = total + x`, in place. */
  lemma TotalsStepPresent(filterKey: string, filterValue: string, ps: Props, k: string, x: real)
    requires k != filterKey && HasFloat(ps, k)
    ensures Set([(filterKey, VStr(filterValue))] + FloatTotals(ps), k, VFloat(FloatSum(ps, k) + x))
            == [(filterKey, VStr(filterValue))] + FloatTotals(ps + [(k, VFloat(x))])
  {
    var totals := FloatTotals(ps);
    var t := IndexOf(totals, k);
    TotalsIndex(ps, k);
    var head := (filterKey, VStr(filterValue));
    var updated := totals[t := (k, VFloat(FloatSum(ps, k) + x))];
    calc {
      Set([head] + totals, k, VFloat(FloatSum(ps, k) + x));
      { SetInTail(head, totals, k, VFloat(FloatSum(ps, k) + x), t); }
      [head] + updated;
      { TotalsAddAt(ps, k, x, t); }
      [head] + FloatTotals(ps + [(k, VFloat(x))]);
    }
  }

  /** A key with a float pair has its total at the position IndexOf finds. */
  lemma TotalsIndex(ps: Props, k: string)
    requires HasFloat(ps, k)
    ensures var t := IndexOf(FloatTotals(ps), k);
            && t < |FloatKeys(ps)| && FloatKeys(ps)[t] == k
            && forall j :: 0 <= j < t ==> FloatTotals(ps)[j].0 != k
  {
    var ks, totals := FloatKeys(ps), FloatTotals(ps);
    FloatKeysIff(ps, k);
    var i :| 0 <= i < |ks| && ks[i] == k;
    assert totals[i].0 == k;
    HasKeyIff(totals, k);
    IndexOfSpec(totals, k);
  }

  /** Adding a float pair (k, x) for a key without a total appends (k, x),
      the dict update `merged[k] = x` on a new key. */
  lemma TotalsStepNew(filterKey: string, filterValue: string, ps: Props, k: string, x: real)
    requires k != filterKey && !HasFloat(ps, filterKey) && !HasFloat(ps, k)
    ensures Set([(filterKey, VStr(filterValue))] + FloatTotals(ps), k, VFloat(x))
            == [(filterKey, VStr(filterValue))] + FloatTotals(ps + [(k, VFloat(x))])
  {
    var m := [(filterKey, VStr(filterValue))] + FloatTotals(ps);
    var ps' := ps + [(k, VFloat(x))];
    assert ps'[..|ps'| - 1] == ps;
    var ks := FloatKeys(ps);
    FloatKeysIff(ps, k);
    assert FloatKeys(ps') == ks + [k];
    TotalsLookup(filterKey, filterValue, ps, k);
    FloatSumAbsent(ps, k);
    var lhs := Set(m, k, VFloat(x));
    var rhs := [(filterKey, VStr(filterValue))] + FloatTotals(ps');
    assert lhs == m + [(k, VFloat(x))];
    assert |lhs| == |rhs|;
    forall j | 0 <= j < |lhs| ensures lhs[j] == rhs[j] {
      if 0 < j < |m| {
        assert ks[j - 1] != k;
      }
    }
  }

  /** A pair that is not a float leaves the totals unchanged. */
  lemma TotalsNonFloat(ps: Props, p: (string, Value))
    requires !p.1.VFloat?
    ensures FloatTotals(ps + [p]) == FloatTotals(ps)
  {
    var ps' := ps + [p];
    assert ps'[..|ps'| - 1] == ps;
    assert FloatKeys(ps') == FloatKeys(ps);
    var a, b := FloatTotals(ps'), FloatTotals(ps);
    forall j | 0 <= j < |a| ensures a[j] == b[j] {
      assert FloatSum(ps', a[j].0) == FloatSum(ps, a[j].0);
    }
  }

  /** The pairs of a prefix of the features are a prefix of all pairs. */
  lemma {:induction false} PairsPrefix<G>(fs: seq<Feature<G>>, i: nat)
    requires i <= |fs|
    ensures Pairs(fs[..i]) <= Pairs(fs)
  {
    if i < |fs| {
      var init := fs[..|fs| - 1];
      assert fs[..i] == init[..i];
      PairsPrefix(init, i);
    } else {
      assert fs[..i] == fs;
    }
  }

  lemma HasFloatPrefix(a: Props, b: Props, k: string)
    requires a <= b && HasFloat(a, k)
    ensures HasFloat(b, k)
  {
    var i :| 0 <= i < |a| && a[i].0 == k && a[i].1.VFloat?;
    assert b[i] == a[i];
  }

  /** The inner loop of lines 141-146 for one selected feature: merged holds
      the totals over the pairs done so far, and the feature's pairs are
      added to it one by one. */
  method MergeFeature(merged: Props, ghost done: Props, props: Props, filterKey: string, filterValue: string)
    returns (r: Result<Props>)
    requires !HasFloat(done, filterKey)
    requires merged == [(filterKey, VStr(filterValue))] + FloatTotals(done)
    ensures r.Err? <==> HasFloat(done + props, filterKey)
    ensures r.Err? ==> r.error == TypeError
    ensures r.Ok? ==> r.value == [(filterKey, VStr(filterValue))] + FloatTotals(done + props)
  {
    var m := merged;
    assert done + props[..0] == done;
    var j := 0;
    while j < |props|
      invariant 0 <= j <= |props|
      invariant !HasFloat(done + props[..j], filterKey)
      invariant m == [(filterKey, VStr(filterValue))] + FloatTotals(done + props[..j])
    {
      var (k, v) := props[j];
      ghost var ps := done + props[..j];
      assert done + props[..j + 1] == ps + [(k, v)];
      if v.VFloat? {
        TotalsLookup(filterKey, filterValue, ps, k);
        if HasKey(m, k) {
          var current := Get(m, k);
          if !current.VFloat? {
            assert (done + props)[|done| + j] == (k, v);
            return Err(TypeError);
          }
          TotalsStepPresent(filterKey, filterValue, ps, k, v.x);
          m := Set(m, k, VFloat(current.x + v.x));
        } else {
          TotalsStepNew(filterKey, filterValue, ps, k, v.x);
          m := Set(m, k, v);
        }
        assert !HasFloat(ps + [(k, v)], filterKey);
      } else {
        TotalsNonFloat(ps, (k, v));
        assert !HasFloat(ps + [(k, v)], filterKey);
      }
      j := j + 1;
    }
    assert props[..|props|] == props;
    r := Ok(m);
  }

  /** Lines 136-146. The result is the merged dict, or the TypeError of
      `merged[filter_key] += v` (str + float) when some selected feature has
      a float under filter_key. */
  method MergeProperties<G>(sel: seq<Feature<G>>, filterKey: string, filterValue: string)
    returns (r: Result<Props>)
    ensures r.Err? <==> HasFloat(Pairs(sel), filterKey)
    ensures r.Err? ==> r.error == TypeError
    ensures r.Ok? ==> r.value == MergedProperties(filterKey, filterValue, sel)
  {
    var merged := [(filterKey, VStr(filterValue))];
    var i := 0;
    while i < |sel|
      invariant 0 <= i <= |sel|
      invariant !HasFloat(Pairs(sel[..i]), filterKey)
      invariant merged == [(filterKey, VStr(filterValue))] + FloatTotals(Pairs(sel[..i]))
    {
      assert sel[..i + 1][..i] == sel[..i];
      assert Pairs(sel[..i + 1]) == Pairs(sel[..i]) + sel[i].properties;
      var step := MergeFeature(merged, Pairs(sel[..i]), sel[i].properties, filterKey, filterValue);
      if step.Err? {
        PairsPrefix(sel, i + 1);
        HasFloatPrefix(Pairs(sel[..i + 1]), Pairs(sel), filterKey);
        return step;
      }
      merged := step.value;
      i := i + 1;
    }
    assert sel[..|sel|] == sel;
    r := Ok(merged);
  }

  // ---- Properties of the merged dict ----

  lemma HasFloatConcat(a: Props, b: Props, k: string)
    ensures HasFloat(a + b, k) <==> HasFloat(a, k) || HasFloat(b, k)
  {
    if HasFloat(a, k) {
      var i :| 0 <= i < |a| && a[i].0 == k && a[i].1.VFloat?;
      assert (a + b)[i] == a[i];
    }
    if HasFloat(a + b, k) {
      var i :| 0 <= i < |a + b| && (a + b)[i].0 == k && (a + b)[i].1.VFloat?;
      if i >= |a| {
        assert b[i - |a|] == (a + b)[i];
      }
    }
    if HasFloat(b, k) {
      var i :| 0 <= i < |b| && b[i].0 == k && b[i].1.VFloat?;
      assert (a + b)[|a| + i] == b[i];
    }
  }

  /** A float pair for k is among the visited pairs exactly when one of the
      features has a float pair for k. */
  lemma {:induction false} PairsHasFloat<G>(fs: seq<Feature<G>>, k: string)
    ensures HasFloat(Pairs(fs), k) <==> exists j :: 0 <= j < |fs| && HasFloat(fs[j].properties, k)
  {
    if fs != [] {
      var init := fs[..|fs| - 1];
      PairsHasFloat(init, k);
      HasFloatConcat(Pairs(init), fs[|fs| - 1].properties, k);
      assert forall j :: 0 <= j < |init| ==> init[j] == fs[j];
    }
  }

  /** On a properties dict (distinct keys) a float pair for k is the value
      `props[k]` being a float, and the pair sum is that float. */
  lemma {:induction false} FloatOfDistinct(props: Props, k: string)
    requires DistinctKeys(props)
    ensures HasFloat(props, k) <==> HasFloatValue(props, k)
    ensures FloatSum(props, k) == FloatOf(props, k)
  {
    HasKeyIff(props, k);
    if props != [] {
      var init, last := props[..|props| - 1], props[|props| - 1];
      assert props == init + [last];
      FloatOfDistinct(init, k);
      HasKeyIff(init, k);
      IndexOfSpec(init, k);
      if last.0 == k {
        IndexOfAt(props, k, |init|);
        assert !HasKey(init, k);
        assert !HasFloat(init, k);
        FloatSumAbsent(init, k);
      } else {
        var j := IndexOf(init, k);
        IndexOfAt(props, k, if j < |init| then j else |props|);
        HasFloatConcat(init, [last], k);
      }
    }
  }

  /** The pair sum over all visited pairs is the sum over the features of
      their float value for k. */
  lemma {:induction false} PairsFloatSum<G>(fs: seq<Feature<G>>, k: string)
    requires forall j :: 0 <= j < |fs| ==> DistinctKeys(fs[j].properties)
    ensures FloatSum(Pairs(fs), k) == FeatureFloatSum(fs, k)
  {
    if fs != [] {
      var init, last := fs[..|fs| - 1], fs[|fs| - 1];
      assert forall j :: 0 <= j < |init| ==> init[j] == fs[j];
      PairsFloatSum(init, k);
      FloatSumConcat(Pairs(init), last.properties, k);
      FloatOfDistinct(last.properties, k);
    }
  }

  lemma {:induction false} FloatSumConcat(a: Props, b: Props, k: string)
    ensures FloatSum(a + b, k) == FloatSum(a, k) + FloatSum(b, k)
  {
    if b == [] {
      assert a + b == a;
    } else {
      var init := b[..|b| - 1];
      assert (a + b)[..|a + b| - 1] == a + init;
      FloatSumConcat(a, init, k);
    }
  }

  /** The float keys are in the order of their first float pair. */
  lemma {:induction false} FloatKeysOrder(ps: Props)
    ensures forall i :: 0 <= i < |FloatKeys(ps)| ==> FirstFloat(ps, FloatKeys(ps)[i]) < |ps|
    ensures forall i, j :: 0 <= i < j < |FloatKeys(ps)| ==>
              FirstFloat(ps, FloatKeys(ps)[i]) < FirstFloat(ps, FloatKeys(ps)[j])
  {
    if ps != [] {
      var init, last := ps[..|ps| - 1], ps[|ps| - 1];
      var ks := FloatKeys(init);
      FloatKeysOrder(init);
      forall i | 0 <= i < |ks| ensures FirstFloat(ps, ks[i]) == FirstFloat(init, ks[i]) {
        var n := FirstFloat(init, ks[i]);
        assert ps[n] == init[n];
        assert forall j :: 0 <= j < n ==> ps[j] == init[j];
        FirstFloatAt(ps, ks[i], n);
      }
      if last.1.VFloat? && last.0 !in ks {
        FloatKeysIff(init, last.0);
        assert forall j :: 0 <= j < |init| ==> ps[j] == init[j];
        FirstFloatAt(ps, last.0, |init|);
      }
    }
  }

  /** The merged properties (lines 136-146): the filter pair first; then each
      key with a float value in some selected feature, once, mapped to the
      sum of its float values over the selected features. An int, bool, str
      or None value contributes nothing. */
  lemma MergedPropertiesContent<G>(filterKey: string, filterValue: string, sel: seq<Feature<G>>, k: string)
    requires forall j :: 0 <= j < |sel| ==> DistinctKeys(sel[j].properties)
    requires !HasFloat(Pairs(sel), filterKey)
    ensures MergedProperties(filterKey, filterValue, sel)[0] == (filterKey, VStr(filterValue))
    ensures DistinctKeys(MergedProperties(filterKey, filterValue, sel))
    ensures k != filterKey ==>
              (HasKey(MergedProperties(filterKey, filterValue, sel), k) <==>
               exists j :: 0 <= j < |sel| && HasFloatValue(sel[j].properties, k))
    ensures k != filterKey && HasKey(MergedProperties(filterKey, filterValue, sel), k) ==>
              Get(MergedProperties(filterKey, filterValue, sel), k) == VFloat(FeatureFloatSum(sel, k))
  {
    var ps := Pairs(sel);
    var m := MergedProperties(filterKey, filterValue, sel);
    var ks := FloatKeys(ps);
    FloatKeysIff(ps, filterKey);
    FloatKeysDistinct(ps);
    forall i, j | 0 <= i < j < |m| ensures m[i].0 != m[j].0 {
      if i > 0 {
        assert m[i].0 == ks[i - 1] && m[j].0 == ks[j - 1];
      } else {
        assert m[j].0 == ks[j - 1];
      }
    }
    TotalsLookup(filterKey, filterValue, ps, k);
    PairsHasFloat(sel, k);
    forall j | 0 <= j < |sel| ensures HasFloat(sel[j].properties, k) <==> HasFloatValue(sel[j].properties, k) {
      FloatOfDistinct(sel[j].properties, k);
    }
    PairsFloatSum(sel, k);
  }

  /** The float keys of the merged properties follow the order in which the
      nested loop first meets a float value for them. */
  lemma MergedPropertiesOrder<G>(filterKey: string, filterValue: string, sel: seq<Feature<G>>)
    ensures forall a, b :: 1 <= a < b < |MergedProperties(filterKey, filterValue, sel)| ==>
              FirstFloat(Pairs(sel), MergedProperties(filterKey, filterValue, sel)[a].0)
                < FirstFloat(Pairs(sel), MergedProperties(filterKey, filterValue, sel)[b].0)
  {
    var m := MergedProperties(filterKey, filterValue, sel);
    var ks := FloatKeys(Pairs(sel));
    FloatKeysOrder(Pairs(sel));
    forall a, b | 1 <= a < b < |m|
      ensures FirstFloat(Pairs(sel), m[a].0) < FirstFloat(Pairs(sel), m[b].0)
    {
      assert m[a].0 == ks[a - 1] && m[b].0 == ks[b - 1];
    }
  }

  /** A selected feature maps filter_key to a string, so no float is ever
      added to the filter pair and the str + float TypeError cannot occur. */
  lemma SelectionNoFloatAtKey<G>(fs: seq<Feature<G>>, filterKey: string, filterValue: string)
    requires forall i :: 0 <= i < |fs| ==> DistinctKeys(fs[i].properties)
    requires Selection(fs, filterKey, filterValue).Ok?
    ensures !HasFloat(Pairs(Selection(fs, filterKey, filterValue).value), filterKey)
    ensures forall j :: 0 <= j < |Selection(fs, filterKey, filterValue).value| ==>
              DistinctKeys(Selection(fs, filterKey, filterValue).value[j].properties)
  {
    var sel := Selection(fs, filterKey, filterValue).value;
    SelectedAreKept(fs, filterKey, filterValue);
    PairsHasFloat(sel, filterKey);
    forall j | 0 <= j < |sel| ensures DistinctKeys(sel[j].properties) && !HasFloat(sel[j].properties, filterKey) {
      assert sel[j] in sel;
      FloatOfDistinct(sel[j].properties, filterKey);
    }
  }

  /** Lines 125-128: the selected features and their geometries, or the
      TypeError of `filter_value in v` on a non-string v. */
  method SelectFeatures<G>(fs: seq<Feature<G>>, filterKey: string, filterValue: string)
    returns (r: Result<seq<Feature<G>>>, geometries: seq<G>)
    ensures r == Selection(fs, filterKey, filterValue)
    ensures r.Ok? ==> geometries == Geometries(r.value)
  {
    var features: seq<Feature<G>> := [];
    geometries := [];
    var i := 0;
    while i < |fs|
      invariant 0 <= i <= |fs|
      invariant Selection(fs[..i], filterKey, filterValue) == Ok(features)
      invariant geometries == Geometries(features)
    {
      var feature := fs[i];
      assert fs[..i + 1][..i] == fs[..i];
      if HasKey(feature.properties, filterKey) {
        match Get(feature.properties, filterKey)
        case VStr(s) =>
          if ContainsSubstring(s, filterValue) {
            features := features + [feature];
            geometries := geometries + [feature.geometry];
          }
        case _ =>
          SelectionFails(fs, filterKey, filterValue);
          return Err(TypeError), [];
      }
      i := i + 1;
    }
    assert fs[..|fs|] == fs;
    r := Ok(features);
  }

  /** merge_polys (lines 103-164): a FeatureCollection with the input's crs,
      the bounds of the merged geometry as bbox, and one feature with id 0,
      the union of the selected geometries and the merged properties. A
      missing "crs" raises KeyError; a non-string filter_key value raises
      TypeError. */
  method MergePolys<G>(gj: FeatureCollection<G>, filterKey: string, filterValue: string,
                       union: seq<G> -> G, bounds: G -> seq<real>)
    returns (r: Result<FeatureCollection<G>>)
    requires WellFormed(gj)
    ensures gj.crs.None? ==> r == Err(KeyError("crs"))
    ensures gj.crs.Some? && Selection(gj.features, filterKey, filterValue).Err? ==> r == Err(TypeError)
    ensures gj.crs.Some? && Selection(gj.features, filterKey, filterValue).Ok? ==>
              var sel := Selection(gj.features, filterKey, filterValue).value;
              var g := union(Geometries(sel));
              r == Ok(FeatureCollection("FeatureCollection",
                                        [Feature("feature", Some(VInt(0)), g, MergedProperties(filterKey, filterValue, sel))],
                                        gj.crs, bounds(g)))
  {
    if gj.crs.None? {
      return Err(KeyError("crs"));
    }
    var selected, geometries := SelectFeatures(gj.features, filterKey, filterValue);
    if selected.Err? {
      SelectionFails(gj.features, filterKey, filterValue);
      return Err(selected.error);
    }
    var mergedGeometry := union(geometries);
    var bbox := bounds(mergedGeometry);
    SelectionNoFloatAtKey(gj.features, filterKey, filterValue);
    var properties := MergeProperties(selected.value, filterKey, filterValue);
    if properties.Err? {
      return Err(TypeError);
    }
    var merged := Feature("feature", Some(VInt(0)), mergedGeometry, properties.value);
    r := Ok(FeatureCollection("FeatureCollection", [merged], gj.crs, bbox));
  }
}
