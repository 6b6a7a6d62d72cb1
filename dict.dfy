/** A JavaScript object used as a dictionary with string keys: its entries
    keep insertion order (what `Object.values` and `Object.keys` return),
    assigning an existing key keeps that key's place, and a new key goes last. */
module Dict {
  import opened Wrappers

  datatype Entry<V> = Entry(key: string, value: V)

  type Dict<V> = seq<Entry<V>>

  /** An object never holds the same key twice. */
  ghost predicate KeysUnique<V>(d: Dict<V>) {
    forall i, j :: 0 <= i < j < |d| ==> d[i].key != d[j].key
  }

  function Keys<V>(d: Dict<V>): (ks: seq<string>)
    ensures |ks| == |d| && forall i :: 0 <= i < |d| ==> ks[i] == d[i].key
  {
    if d == [] then [] else [d[0].key] + Keys(d[1..])
  }

  function Values<V>(d: Dict<V>): (vs: seq<V>)
    ensures |vs| == |d| && forall i :: 0 <= i < |d| ==> vs[i] == d[i].value
  {
    if d == [] then [] else [d[0].value] + Values(d[1..])
  }

  /** `obj[k]`, None when the key is absent. */
  function Get<V>(d: Dict<V>, k: string): (r: Option<V>)
  {
    if d == [] then None
    else if d[0].key == k then Some(d[0].value)
    else Get(d[1..], k)
  }

  /** A key reads as absent exactly when no entry carries it, and a value
      read comes from an entry under that key. */
  lemma {:induction false} GetSpec<V>(d: Dict<V>, k: string)
    ensures Get(d, k).None? <==> k !in Keys(d)
    ensures Get(d, k).Some? ==> exists i :: 0 <= i < |d| && d[i] == Entry(k, Get(d, k).value)
  {
    if d != [] && d[0].key != k {
      GetSpec(d[1..], k);
      if Get(d, k).Some? {
        var i :| 0 <= i < |d[1..]| && d[1..][i] == Entry(k, Get(d, k).value);
        assert d[i + 1] == Entry(k, Get(d, k).value);
      }
    }
  }

  /** `obj[k] = v`, also as the spread `{...obj, [k]: v}`. */
  function Put<V>(d: Dict<V>, k: string, v: V): (r: Dict<V>)
  {
    if d == [] then [Entry(k, v)]
    else if d[0].key == k then [Entry(k, v)] + d[1..]
    else [d[0]] + Put(d[1..], k, v)
  }

  /** Every value replaced through `f`, keys and order kept: the copy-then-
      reassign-every-key loop over `Object.keys`. */
  function MapValues<V>(d: Dict<V>, f: V -> V): (r: Dict<V>)
    ensures |r| == |d| && forall i :: 0 <= i < |d| ==> r[i] == Entry(d[i].key, f(d[i].value))
  {
    if d == [] then [] else [Entry(d[0].key, f(d[0].value))] + MapValues(d[1..], f)
  }

  /** `map` over the values keeps the keys, so it keeps them unique. */
  lemma MapValuesKeepsKeys<V>(d: Dict<V>, f: V -> V)
    ensures Keys(MapValues(d, f)) == Keys(d)
    ensures KeysUnique(d) ==> KeysUnique(MapValues(d, f))
  {
    assert forall i :: 0 <= i < |d| ==> MapValues(d, f)[i].key == d[i].key;
  }

  /** Reading a key just written gives the written value. */
  lemma {:induction false} GetPutSame<V>(d: Dict<V>, k: string, v: V)
    ensures Get(Put(d, k, v), k) == Some(v)
  {
    if d != [] && d[0].key != k {
      GetPutSame(d[1..], k, v);
    }
  }

  /** Writing one key leaves every other key's value alone. */
  lemma {:induction false} GetPutOther<V>(d: Dict<V>, k: string, v: V, k': string)
    requires k' != k
    ensures Get(Put(d, k, v), k') == Get(d, k')
  {
    if d != [] && d[0].key != k {
      GetPutOther(d[1..], k, v, k');
    }
  }

  /** An existing key keeps its place; a new key is appended last. */
  lemma {:induction false} KeysPut<V>(d: Dict<V>, k: string, v: V)
    ensures Keys(Put(d, k, v)) == if k in Keys(d) then Keys(d) else Keys(d) + [k]
  {
    if d == [] {
    } else if d[0].key == k {
      assert Keys(Put(d, k, v)) == [k] + Keys(d[1..]);
    } else {
      KeysPut(d[1..], k, v);
      assert Keys(d) == [d[0].key] + Keys(d[1..]);
      assert Keys(Put(d, k, v)) == [d[0].key] + Keys(Put(d[1..], k, v));
    }
  }

  /** Reading a key of two objects laid end to end: the first one's entry
      wins. */
  lemma {:induction false} GetConcat<V>(a: Dict<V>, b: Dict<V>, k: string)
    ensures Get(a + b, k) == if Get(a, k).Some? then Get(a, k) else Get(b, k)
  {
    if a != [] {
      assert (a + b)[1..] == a[1..] + b;
      GetConcat(a[1..], b, k);
    } else {
      assert a + b == b;
    }
  }

  /** One write, in full: the key reads the new value, every other key
      reads what it did, and the keys are the old ones plus the written one. */
  lemma PutEffect<V>(d: Dict<V>, k: string, v: V)
    ensures Get(Put(d, k, v), k) == Some(v)
    ensures forall k' :: k' != k ==> Get(Put(d, k, v), k') == Get(d, k')
    ensures forall k' :: k' in Keys(Put(d, k, v)) <==> k' in Keys(d) || k' == k
  {
    GetPutSame(d, k, v);
    forall k' | k' != k
      ensures Get(Put(d, k, v), k') == Get(d, k')
    {
      GetPutOther(d, k, v, k');
    }
    KeysPut(d, k, v);
  }

  /** Writing keeps the keys distinct. */
  lemma PutKeepsKeysUnique<V>(d: Dict<V>, k: string, v: V)
    requires KeysUnique(d)
    ensures KeysUnique(Put(d, k, v))
  {
    var r := Put(d, k, v);
    KeysPut(d, k, v);
    assert Keys(r) == if k in Keys(d) then Keys(d) else Keys(d) + [k];
    forall i, j | 0 <= i < j < |r|
      ensures r[i].key != r[j].key
    {
      assert r[i].key == Keys(r)[i] && r[j].key == Keys(r)[j];
      if k !in Keys(d) && j == |d| {
        assert Keys(d)[i] == d[i].key;
      } else {
        assert Keys(r)[i] == Keys(d)[i] && Keys(r)[j] == Keys(d)[j];
      }
    }
  }

  /** `obj[k]` read as a flag: an absent key is falsy. */
  function Flag(d: Dict<bool>, k: string): bool {
    Get(d, k).GetOr(false)
  }

  /** `{ ...prev, [k]: !prev[k] }`: the flag at `k` flips and no other
      flag changes. */
  function Toggle(d: Dict<bool>, k: string): (r: Dict<bool>)
    ensures Flag(r, k) == !Flag(d, k)
    ensures forall k' :: k' != k ==> Flag(r, k') == Flag(d, k')
  {
    GetPutSame(d, k, !Flag(d, k));
    forall k' | k' != k
      ensures Flag(Put(d, k, !Flag(d, k)), k') == Flag(d, k')
    {
      GetPutOther(d, k, !Flag(d, k), k');
    }
    Put(d, k, !Flag(d, k))
  }

  /** Toggling twice reads as never toggling. */
  lemma ToggleTwice(d: Dict<bool>, k: string, k': string)
    ensures Flag(Toggle(Toggle(d, k), k), k') == Flag(d, k')
  {
  }
}
