/** Python's dict (insertion-ordered) and collections.OrderedDict with string
    keys, as the sequence of their key/value pairs in insertion order. */
module OrderedDict {

  type Dict<V> = seq<(string, V)>

  /** A Python dict never holds a key twice. */
  ghost predicate DistinctKeys<V>(d: Dict<V>) {
    forall i, j :: 0 <= i < j < |d| ==> d[i].0 != d[j].0
  }

  /** The position of key k in d, or |d| when k is absent. */
  function IndexOf<V>(d: Dict<V>, k: string): (i: nat) {
    if d == [] then 0 else if d[0].0 == k then 0 else 1 + IndexOf(d[1..], k)
  }

  /** Python's `k in d`. */
  function HasKey<V>(d: Dict<V>, k: string): (present: bool) {
    IndexOf(d, k) < |d|
  }

  /** Python's `d[k]` on a key that is present. */
  function Get<V>(d: Dict<V>, k: string): (v: V)
    requires HasKey(d, k)
  {
    d[IndexOf(d, k)].1
  }

  /** IndexOf finds the first position holding k, or gives |d|. */
  lemma {:induction false} IndexOfSpec<V>(d: Dict<V>, k: string)
    ensures IndexOf(d, k) <= |d|
    ensures IndexOf(d, k) < |d| ==> d[IndexOf(d, k)].0 == k
    ensures forall j :: 0 <= j < IndexOf(d, k) ==> d[j].0 != k
  {
    if d != [] && d[0].0 != k {
      IndexOfSpec(d[1..], k);
    }
  }

  /** `k in d` holds exactly when some pair of d has key k, and `d[k]` is the
      value of that pair (of the only one, since keys are distinct). */
  lemma HasKeyIff<V>(d: Dict<V>, k: string)
    ensures HasKey(d, k) <==> exists i :: 0 <= i < |d| && d[i].0 == k
    ensures HasKey(d, k) ==> (k, Get(d, k)) in d
    ensures HasKey(d, k) && DistinctKeys(d) ==> forall i :: 0 <= i < |d| && d[i].0 == k ==> d[i].1 == Get(d, k)
  {
    IndexOfSpec(d, k);
  }

  /** IndexOf is the first position holding k. */
  lemma IndexOfAt<V>(d: Dict<V>, k: string, i: nat)
    requires i <= |d|
    requires i < |d| ==> d[i].0 == k
    requires forall j :: 0 <= j < i ==> d[j].0 != k
    ensures IndexOf(d, k) == i
  {
    IndexOfSpec(d, k);
  }

  /** Python's `d[k] = v`: a key already present keeps its position and takes
      the new value; a new key goes last. */
  function Set<V>(d: Dict<V>, k: string, v: V): (r: Dict<V>)
    ensures HasKey(d, k) ==> r == d[IndexOf(d, k) := (k, v)]
    ensures !HasKey(d, k) ==> r == d + [(k, v)]
  {
    IndexOfSpec(d, k);
    var i := IndexOf(d, k);
    if i < |d| then d[i := (k, v)] else d + [(k, v)]
  }

  /** After `d[k] = v`, `d[k]` is v, and every other key is present and
      mapped exactly as before. */
  lemma SetSemantics<V>(d: Dict<V>, k: string, v: V, k': string)
    ensures HasKey(Set(d, k, v), k) && Get(Set(d, k, v), k) == v
    ensures k' != k ==> (HasKey(Set(d, k, v), k') <==> HasKey(d, k'))
    ensures k' != k && HasKey(d, k') ==> Get(Set(d, k, v), k') == Get(d, k')
  {
    var r, i := Set(d, k, v), IndexOf(d, k);
    IndexOfSpec(d, k);
    IndexOfAt(r, k, i);
    if k' != k {
      var j := IndexOf(d, k');
      IndexOfSpec(d, k');
      IndexOfAt(r, k', if j < |d| then j else |r|);
    }
  }

  /** `d[k] = v` keeps the keys distinct. */
  lemma SetDistinct<V>(d: Dict<V>, k: string, v: V)
    requires DistinctKeys(d)
    ensures DistinctKeys(Set(d, k, v))
  {
    IndexOfSpec(d, k);
    HasKeyIff(d, k);
  }

  /** The keys of d in order. */
  function Keys<V>(d: Dict<V>): (ks: seq<string>)
    ensures |ks| == |d|
    ensures forall i :: 0 <= i < |d| ==> ks[i] == d[i].0
  {
    seq(|d|, i requires 0 <= i < |d| => d[i].0)
  }

  /** f maps the positions of a, in increasing order, to equal elements of b. */
  ghost predicate Embedding<T>(f: seq<int>, a: seq<T>, b: seq<T>) {
    && |f| == |a|
    && (forall i :: 0 <= i < |f| ==> 0 <= f[i] < |b| && a[i] == b[f[i]])
    && (forall i, j :: 0 <= i < j < |f| ==> f[i] < f[j])
  }

  /** a is b with some elements deleted and the rest kept in their order. */
  ghost predicate IsSubsequence<T>(a: seq<T>, b: seq<T>) {
    exists f :: Embedding(f, a, b)
  }

  lemma SubsequenceEmpty<T>(b: seq<T>)
    ensures IsSubsequence([], b)
  {
    assert Embedding([], [], b);
  }

  /** Appending an element to b, or to both a and b (with the new
      position), keeps f an embedding. */
  lemma EmbeddingExtend<T>(f: seq<int>, a: seq<T>, b: seq<T>, x: T)
    requires Embedding(f, a, b)
    ensures Embedding(f, a, b + [x])
    ensures Embedding(f + [|b|], a + [x], b + [x])
  {
  }

  /** Appending an element to b, or to both a and b, keeps a a subsequence. */
  lemma SubsequenceExtend<T>(a: seq<T>, b: seq<T>, x: T)
    requires IsSubsequence(a, b)
    ensures IsSubsequence(a, b + [x])
    ensures IsSubsequence(a + [x], b + [x])
  {
    var f :| Embedding(f, a, b);
    EmbeddingExtend(f, a, b, x);
  }
}
