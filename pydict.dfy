/**
 * A Python `dict` with string keys, as an association list kept in insertion order:
 * assigning to a present key keeps its position, a new key goes to the end.
 */
module PyDict {
  import opened Wrappers

  type Dict<V> = seq<(string, V)>

  /** `list(d.keys())`, in insertion order. */
  function Keys<V>(d: Dict<V>): (ks: seq<string>)
    ensures |ks| == |d|
    ensures forall i :: 0 <= i < |d| ==> ks[i] == d[i].0
  {
    seq(|d|, i requires 0 <= i < |d| => d[i].0)
  }

  ghost predicate UniqueKeys<V>(d: Dict<V>) {
    forall i, j :: 0 <= i < j < |d| ==> d[i].0 != d[j].0
  }

  /** `d.get(k)` */
  function Get<V>(d: Dict<V>, k: string): (r: Option<V>)
    ensures r.None? <==> k !in Keys(d)
  {
    if |d| == 0 then None
    else if d[0].0 == k then Some(d[0].1)
    else Get(d[1..], k)
  }

  /** `d[k] = v` */
  function Put<V>(d: Dict<V>, k: string, v: V): (r: Dict<V>)
    ensures Get(r, k) == Some(v)
    ensures forall k' :: k' != k ==> Get(r, k') == Get(d, k')
  {
    if |d| == 0 then [(k, v)]
    else if d[0].0 == k then [(k, v)] + d[1..]
    else
      var r := [d[0]] + Put(d[1..], k, v);
      assert r[1..] == Put(d[1..], k, v);
      r
  }

  /** Assignment keeps the key order and appends a new key at the end. */
  lemma {:induction false} PutKeys<V>(d: Dict<V>, k: string, v: V)
    ensures Keys(Put(d, k, v)) == if k in Keys(d) then Keys(d) else Keys(d) + [k]
  {
    if |d| > 0 && d[0].0 != k {
      PutKeys(d[1..], k, v);
      var r := Put(d, k, v);
      assert r[1..] == Put(d[1..], k, v);
      KeysFirst(d);
      KeysFirst(r);
      assert k in Keys(d) <==> k in Keys(d[1..]);
    } else if |d| > 0 {
      var r := Put(d, k, v);
      var ks, kr := Keys(d), Keys(r);
      assert forall i :: 0 <= i < |d| ==> kr[i] == r[i].0 == d[i].0 == ks[i];
      assert kr == ks && ks[0] == k;
    }
  }

  /** The keys of a non-empty dict are its first key, then the keys of the rest. */
  lemma KeysFirst<V>(d: Dict<V>)
    requires |d| > 0
    ensures Keys(d) == [d[0].0] + Keys(d[1..])
  {
    var ks, r := Keys(d), [d[0].0] + Keys(d[1..]);
    forall i | 0 <= i < |ks| ensures ks[i] == r[i] {
      if i > 0 {
        assert d[1..][i - 1] == d[i];
      }
    }
    assert ks == r;
  }

  /** An entry property that holds of every old entry and of the new one holds after assignment. */
  lemma {:induction false} PutPreserves<V>(d: Dict<V>, k: string, v: V, ok: ((string, V)) -> bool)
    requires forall i :: 0 <= i < |d| ==> ok(d[i])
    requires ok((k, v))
    ensures forall i :: 0 <= i < |Put(d, k, v)| ==> ok(Put(d, k, v)[i])
  {
    if |d| > 0 && d[0].0 != k {
      PutPreserves(d[1..], k, v, ok);
      assert Put(d, k, v)[1..] == Put(d[1..], k, v);
    }
  }

  /** Distinct keys stay distinct under assignment. */
  lemma PutUnique<V>(d: Dict<V>, k: string, v: V)
    requires UniqueKeys(d)
    ensures UniqueKeys(Put(d, k, v))
  {
    var r := Put(d, k, v);
    PutKeys(d, k, v);
    var ks := Keys(r);
    assert forall i :: 0 <= i < |r| ==> r[i].0 == ks[i];
    forall i, j | 0 <= i < j < |r| ensures ks[i] != ks[j] {
      var kd := Keys(d);
      assert forall a, b :: 0 <= a < b < |kd| ==> kd[a] != kd[b];
    }
  }

  /** The keys of a non-empty dict are those of its front, then its last key. */
  lemma KeysLast<V>(d: Dict<V>)
    requires |d| > 0
    ensures Keys(d) == Keys(d[..|d| - 1]) + [d[|d| - 1].0]
  {
    var n := |d| - 1;
    var ks, r := Keys(d), Keys(d[..n]) + [d[n].0];
    forall i | 0 <= i < |ks| ensures ks[i] == r[i] {
      if i < n {
        assert d[..n][i] == d[i];
      }
    }
    assert ks == r;
  }

  /** Dropping the last entry keeps the keys distinct. */
  lemma UniqueFront<V>(d: Dict<V>)
    requires |d| > 0 && UniqueKeys(d)
    ensures UniqueKeys(d[..|d| - 1])
  {
    var front := d[..|d| - 1];
    assert forall i :: 0 <= i < |front| ==> front[i] == d[i];
  }

  /**
   * Assigning the last key of `all` to a dict whose keys are those of the other entries of
   * `all` gives the keys of `all`, when they are distinct.
   */
  lemma PutLastKeys<V, W>(d: Dict<V>, all: Dict<W>, v: V)
    requires |all| > 0 && UniqueKeys(all)
    requires Keys(d) == Keys(all[..|all| - 1])
    ensures Keys(Put(d, all[|all| - 1].0, v)) == Keys(all)
  {
    var n := |all| - 1;
    var ks := Keys(all[..n]);
    assert forall i :: 0 <= i < n ==> ks[i] == all[i].0;
    assert forall i :: 0 <= i < n ==> all[i].0 != all[n].0;
    assert all[n].0 !in ks;
    PutKeys(d, all[n].0, v);
    KeysLast(all);
  }

  /** `dict(pairs)`: the pairs assigned one after the other, so a later duplicate key wins. */
  function FromPairs<V>(pairs: seq<(string, V)>): (r: Dict<V>)
    decreases |pairs|
  {
    if |pairs| == 0 then []
    else
      var last := pairs[|pairs| - 1];
      Put(FromPairs(pairs[..|pairs| - 1]), last.0, last.1)
  }

  /** An entry property that holds of every pair holds of every entry of `dict(pairs)`. */
  lemma {:induction false} FromPairsPreserves<V>(pairs: seq<(string, V)>, ok: ((string, V)) -> bool)
    requires forall i :: 0 <= i < |pairs| ==> ok(pairs[i])
    ensures forall i :: 0 <= i < |FromPairs(pairs)| ==> ok(FromPairs(pairs)[i])
  {
    if |pairs| > 0 {
      var last := pairs[|pairs| - 1];
      FromPairsPreserves(pairs[..|pairs| - 1], ok);
      PutPreserves(FromPairs(pairs[..|pairs| - 1]), last.0, last.1, ok);
    }
  }

  /** A key of `dict(pairs)` holds the value of the LAST pair with that key. */
  lemma {:induction false} FromPairsGet<V>(pairs: seq<(string, V)>, c: nat)
    requires c < |pairs|
    requires forall c' :: c < c' < |pairs| ==> pairs[c'].0 != pairs[c].0
    ensures Get(FromPairs(pairs), pairs[c].0) == Some(pairs[c].1)
    decreases |pairs|
  {
    if c < |pairs| - 1 {
      var init := pairs[..|pairs| - 1];
      assert init[c] == pairs[c];
      FromPairsGet(init, c);
    }
  }

  /** A key absent from every pair is absent from `dict(pairs)`. */
  lemma {:induction false} FromPairsAbsent<V>(pairs: seq<(string, V)>, k: string)
    requires forall c :: 0 <= c < |pairs| ==> pairs[c].0 != k
    ensures Get(FromPairs(pairs), k).None?
    decreases |pairs|
  {
    if |pairs| > 0 {
      FromPairsAbsent(pairs[..|pairs| - 1], k);
    }
  }

  /** With distinct keys, `dict(pairs)` keeps every key, in the order given. */
  lemma {:induction false} FromPairsKeys<V>(pairs: seq<(string, V)>)
    requires forall i, j :: 0 <= i < j < |pairs| ==> pairs[i].0 != pairs[j].0
    ensures Keys(FromPairs(pairs)) == Keys(pairs)
    decreases |pairs|
  {
    if |pairs| > 0 {
      var n := |pairs| - 1;
      UniqueFront(pairs);
      FromPairsKeys(pairs[..n]);
      PutLastKeys(FromPairs(pairs[..n]), pairs, pairs[n].1);
    }
  }
}
