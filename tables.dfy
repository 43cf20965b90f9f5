/**
 * Insertion-ordered tables keyed by strings: the model of a JavaScript
 * object used as a dictionary. Keys are unique and iterate in the order in
 * which they were first inserted; assigning to a key that is already there
 * keeps its place, assigning to a new key appends it, `delete` removes it.
 */
module Tables {

  datatype Option<+T> = None | Some(value: T) {
    function GetOr(default: T): T {
      if Some? then value else default
    }
  }

  /** The keys of an association list, in iteration order. */
  function Keys<V>(t: seq<(string, V)>): (ks: seq<string>)
    ensures |ks| == |t|
    ensures forall i :: 0 <= i < |t| ==> ks[i] == t[i].0
  {
    seq(|t|, i requires 0 <= i < |t| => t[i].0)
  }

  predicate DistinctKeys<V>(t: seq<(string, V)>) {
    forall i, j :: 0 <= i < j < |t| ==> t[i].0 != t[j].0
  }

  /** An object's own enumerable properties: no key twice. */
  type Table<V> = t: seq<(string, V)> | DistinctKeys(t) witness []

  /** Position of the first entry with key `k`, or -1 when there is none. */
  function KeyIndex<V>(t: seq<(string, V)>, k: string): (i: int)
    ensures -1 <= i < |t|
    ensures i == -1 <==> forall j :: 0 <= j < |t| ==> t[j].0 != k
    ensures 0 <= i ==> t[i].0 == k && forall j :: 0 <= j < i ==> t[j].0 != k
  {
    if |t| == 0 then -1
    else if t[0].0 == k then 0
    else
      var j := KeyIndex(t[1..], k);
      if j == -1 then -1 else j + 1
  }

  lemma InKeys<V>(t: seq<(string, V)>, k: string)
    ensures k in Keys(t) <==> exists j :: 0 <= j < |t| && t[j].0 == k
  {
    if k in Keys(t) {
      var j :| 0 <= j < |t| && Keys(t)[j] == k;
      assert t[j].0 == k;
    }
  }

  /** Property lookup `t[k]`: the value stored under `k`, if any. */
  function Find<V>(t: seq<(string, V)>, k: string): (r: Option<V>)
    ensures r.Some? <==> k in Keys(t)
    ensures r.Some? ==> exists j :: 0 <= j < |t| && t[j] == (k, r.value)
  {
    InKeys(t, k);
    var i := KeyIndex(t, k);
    if i == -1 then None else Some(t[i].1)
  }

  /** In a table an entry is found under its own key. */
  lemma FindAt<V>(t: Table<V>, i: int)
    requires 0 <= i < |t|
    ensures KeyIndex(t, t[i].0) == i
    ensures Find(t, t[i].0) == Some(t[i].1)
  {
  }

  /** Two tables with the same keys in the same order index alike. */
  lemma SameKeysSameIndex<V, W>(a: Table<V>, b: Table<W>, k: string)
    requires Keys(a) == Keys(b)
    ensures KeyIndex(a, k) == KeyIndex(b, k)
  {
    var i := KeyIndex(a, k);
    if i >= 0 {
      assert Keys(a)[i] == Keys(b)[i];
      FindAt(b, i);
    } else {
      forall j | 0 <= j < |b| ensures b[j].0 != k {
        assert Keys(a)[j] == Keys(b)[j];
      }
    }
  }

  /** Replace the value at position `i`, keeping its key. */
  function SetAt<V>(t: Table<V>, i: int, v: V): (r: Table<V>)
    requires 0 <= i < |t|
    ensures Keys(r) == Keys(t)
    ensures r[i] == (t[i].0, v)
    ensures forall j :: 0 <= j < |t| && j != i ==> r[j] == t[j]
  {
    var r := t[i := (t[i].0, v)];
    assert forall p, q :: 0 <= p < q < |r| ==> r[p].0 == t[p].0 && r[q].0 == t[q].0;
    r
  }

  /** Assignment `t[k] = v`. */
  function Put<V>(t: Table<V>, k: string, v: V): (r: Table<V>)
    ensures k in Keys(t) ==> Keys(r) == Keys(t)
    ensures k !in Keys(t) ==> r == t + [(k, v)] && Keys(r) == Keys(t) + [k]
    ensures forall p :: 0 <= p < |r| ==> r[p] == (k, v) || (p < |t| && r[p] == t[p])
  {
    var i := KeyIndex(t, k);
    if i == -1 then
      var r := t + [(k, v)];
      assert forall j :: 0 <= j < |t| ==> r[j].0 == t[j].0 != k;
      assert Keys(r) == Keys(t) + [k];
      r
    else
      SetAt(t, i, v)
  }

  lemma PutFind<V>(t: Table<V>, k: string, v: V, j: string)
    ensures Find(Put(t, k, v), j) == if j == k then Some(v) else Find(t, j)
  {
    var r := Put(t, k, v);
    var i := KeyIndex(t, k);
    if i == -1 {
      FindAt(r, |t|);
      if j != k {
        var p := KeyIndex(t, j);
        if p >= 0 { FindAt(t, p); FindAt(r, p); }
        else { assert forall q :: 0 <= q < |r| ==> r[q].0 != j; }
      }
    } else {
      FindAt(r, i);
      SameKeysSameIndex(t, r, j);
    }
  }

  /** Assigning the value a key already holds changes nothing. */
  lemma PutSame<V>(t: Table<V>, k: string, v: V)
    requires Find(t, k) == Some(v)
    ensures Put(t, k, v) == t
  {
    var i := KeyIndex(t, k);
    assert Put(t, k, v) == t[i := (k, v)];
  }

  /** `delete t[k]`: the remaining entries keep their order. */
  function Remove<V>(t: Table<V>, k: string): (r: Table<V>)
    ensures k !in Keys(r)
    ensures k !in Keys(t) ==> r == t
    ensures k in Keys(t) ==> |r| == |t| - 1
    ensures forall j :: j != k ==> (j in Keys(r) <==> j in Keys(t))
  {
    var i := KeyIndex(t, k);
    if i == -1 then
      InKeys(t, k);
      t
    else
      RemoveAt(t, i);
      t[..i] + t[i + 1..]
  }

  /** Dropping the entry at position `i` leaves a table without its key and with every other key. */
  lemma RemoveAt<V>(t: Table<V>, i: int)
    requires 0 <= i < |t|
    ensures DistinctKeys(t[..i] + t[i + 1..])
    ensures t[i].0 !in Keys(t[..i] + t[i + 1..])
    ensures forall j :: j != t[i].0 ==> (j in Keys(t[..i] + t[i + 1..]) <==> j in Keys(t))
  {
    var r := t[..i] + t[i + 1..];
    assert forall p :: 0 <= p < |r| ==> r[p] == if p < i then t[p] else t[p + 1];
    forall p, q | 0 <= p < q < |r| ensures r[p].0 != r[q].0 {
      var pp := if p < i then p else p + 1;
      var qq := if q < i then q else q + 1;
      assert r[p] == t[pp] && r[q] == t[qq] && pp < qq;
    }
    InKeys(r, t[i].0);
    forall j | j != t[i].0 ensures j in Keys(r) <==> j in Keys(t) {
      InKeys(r, j);
      InKeys(t, j);
      if j in Keys(t) {
        var p :| 0 <= p < |t| && t[p].0 == j;
        if p < i { assert r[p].0 == j; } else { assert r[p - 1].0 == j; }
      }
    }
  }

  lemma RemoveFind<V>(t: Table<V>, k: string, j: string)
    ensures Find(Remove(t, k), j) == if j == k then None else Find(t, j)
  {
    var r := Remove(t, k);
    var i := KeyIndex(t, k);
    if j != k && j in Keys(r) && i >= 0 {
      var p := KeyIndex(r, j);
      assert r == t[..i] + t[i + 1..];
      var q := if p < i then p else p + 1;
      assert t[q] == r[p];
      FindAt(t, q);
    }
  }

  /** The first `n` entries of a table. */
  function Take<V>(t: Table<V>, n: int): (r: Table<V>)
    requires 0 <= n <= |t|
    ensures r == t[..n]
  {
    t[..n]
  }

  /** The entries of `t` whose keys are not among `ks`, in their order. */
  function Without<V>(t: Table<V>, ks: seq<string>): (r: Table<V>)
    ensures forall k :: k in Keys(r) <==> k in Keys(t) && k !in ks
    decreases |t|
  {
    if |t| == 0 then []
    else
      var init := Take(t, |t| - 1);
      var r := Without(init, ks);
      var last := t[|t| - 1];
      assert Keys(t) == Keys(init) + [last.0];
      if last.0 in ks then r
      else
        InKeys(init, last.0);
        assert Keys(r + [last]) == Keys(r) + [last.0];
        r + [last]
  }

  /** A key that survives the filter keeps its value. */
  lemma {:induction false} WithoutFind<V>(t: Table<V>, ks: seq<string>, k: string)
    requires k !in ks
    ensures Find(Without(t, ks), k) == Find(t, k)
    decreases |t|
  {
    if |t| > 0 {
      var init := Take(t, |t| - 1);
      var last := t[|t| - 1];
      WithoutFind(init, ks, k);
      InKeys(init, last.0);
      assert t == init + [last];
      AppendOne(init, last, k);
      if last.0 !in ks {
        AppendOne(Without(init, ks), last, k);
      }
    }
  }

  /** Lookup in a table extended by one entry with a new key. */
  lemma AppendOne<V>(t: Table<V>, e: (string, V), k: string)
    requires e.0 !in Keys(t)
    ensures DistinctKeys(t + [e])
    ensures Find(t + [e], k) == if k == e.0 then Some(e.1) else Find(t, k)
  {
    PutFind(t, e.0, e.1, k);
  }

  /** Entries of `a` followed by those of `b`, which has none of `a`'s keys. */
  function Append<V>(a: Table<V>, b: Table<V>): (r: Table<V>)
    requires forall k :: k in Keys(b) ==> k !in Keys(a)
    ensures Keys(r) == Keys(a) + Keys(b)
  {
    var r := a + b;
    forall i, j | 0 <= i < |a| <= j < |r| ensures r[i].0 != r[j].0 {
      assert r[j].0 == Keys(b)[j - |a|] && Keys(b)[j - |a|] in Keys(b);
      assert r[i].0 == Keys(a)[i];
    }
    r
  }

  /** Lookup in `Append(a, b)` sees `a` first, then `b`. */
  lemma AppendFind<V>(a: Table<V>, b: Table<V>, k: string)
    requires forall k :: k in Keys(b) ==> k !in Keys(a)
    ensures Find(Append(a, b), k) == if k in Keys(a) then Find(a, k) else Find(b, k)
  {
    var r := Append(a, b);
    if k in Keys(a) {
      var i := KeyIndex(a, k);
      FindAt(a, i);
      FindAt(r, i);
    } else if k in Keys(b) {
      var j := KeyIndex(b, k);
      FindAt(b, j);
      FindAt(r, |a| + j);
    }
  }

  lemma KeysConcat<V>(a: seq<(string, V)>, b: seq<(string, V)>)
    ensures Keys(a + b) == Keys(a) + Keys(b)
  {
  }

  /** One more entry of `t` through the filter: kept exactly when its key is not among `ks`. */
  lemma WithoutStep<V>(t: Table<V>, ks: seq<string>, j: int)
    requires 0 <= j < |t|
    ensures t[j].0 !in Keys(Without(Take(t, j), ks))
    ensures Without(Take(t, j + 1), ks) ==
      if t[j].0 in ks then Without(Take(t, j), ks) else Without(Take(t, j), ks) + [t[j]]
  {
    assert Take(Take(t, j + 1), j) == Take(t, j);
    InKeys(Take(t, j), t[j].0);
  }
}
