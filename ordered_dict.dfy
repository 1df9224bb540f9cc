/** Python's insertion-ordered `dict` with string keys, as a sequence of entries.
    Assigning an existing key replaces its value where it stands; a new key is
    appended at the end. */
module OrderedDict {
  import opened Wrappers

  type Dict<V> = seq<(string, V)>

  predicate HasKey<V>(d: Dict<V>, k: string) {
    exists i :: 0 <= i < |d| && d[i].0 == k
  }

  predicate DistinctKeys<V>(d: Dict<V>) {
    forall i, j :: 0 <= i < j < |d| ==> d[i].0 != d[j].0
  }

  /** `d[k]` when present, `None` otherwise. */
  function Get<V>(d: Dict<V>, k: string): (r: Option<V>)
    ensures r.Some? <==> HasKey(d, k)
  {
    if |d| == 0 then None
    else if d[0].0 == k then Some(d[0].1)
    else
      var r := Get(d[1..], k);
      assert HasKey(d, k) ==> HasKey(d[1..], k) by {
        if HasKey(d, k) {
          var i :| 0 <= i < |d| && d[i].0 == k;
          assert i > 0 && d[1..][i - 1].0 == k;
        }
      }
      assert HasKey(d[1..], k) ==> HasKey(d, k) by {
        if HasKey(d[1..], k) {
          var i :| 0 <= i < |d[1..]| && d[1..][i].0 == k;
          assert d[i + 1].0 == k;
        }
      }
      r
  }

  /** The assignment `d[k] = v`. */
  function Put<V>(d: Dict<V>, k: string, v: V): (r: Dict<V>)
  {
    if |d| == 0 then [(k, v)]
    else if d[0].0 == k then [(k, v)] + d[1..]
    else [d[0]] + Put(d[1..], k, v)
  }

  lemma HasKeyTail<V>(d: Dict<V>, k: string)
    requires |d| > 0 && d[0].0 != k
    ensures HasKey(d, k) <==> HasKey(d[1..], k)
  {
    assert Get(d, k) == Get(d[1..], k);
  }

  /** After `d[k] = v`, reading `k` gives `v` and every other key reads as before. */
  lemma {:induction false} PutGet<V>(d: Dict<V>, k: string, v: V, k': string)
    ensures Get(Put(d, k, v), k) == Some(v)
    ensures k' != k ==> Get(Put(d, k, v), k') == Get(d, k')
  {
    if |d| > 0 && d[0].0 != k {
      PutGet(d[1..], k, v, k');
      assert Put(d, k, v)[1..] == Put(d[1..], k, v);
    }
  }

  /** An existing key keeps its position (only its value changes); a new key goes last. */
  lemma {:induction false} PutShape<V>(d: Dict<V>, k: string, v: V)
    ensures HasKey(d, k) ==> |Put(d, k, v)| == |d| && forall i :: 0 <= i < |d| ==> Put(d, k, v)[i].0 == d[i].0
    ensures !HasKey(d, k) ==> Put(d, k, v) == d + [(k, v)]
  {
    if |d| > 0 && d[0].0 != k {
      PutShape(d[1..], k, v);
      HasKeyTail(d, k);
      var r := Put(d, k, v);
      assert r == [d[0]] + Put(d[1..], k, v);
      if HasKey(d, k) {
        forall i | 0 <= i < |d| ensures r[i].0 == d[i].0 {
          if i > 0 { assert r[i] == Put(d[1..], k, v)[i - 1] && d[i] == d[1..][i - 1]; }
        }
      } else {
        assert r == [d[0]] + (d[1..] + [(k, v)]);
        assert [d[0]] + (d[1..] + [(k, v)]) == d + [(k, v)];
      }
    }
  }

  /** Assignment never introduces a second entry with the same key. */
  lemma {:induction false} PutDistinct<V>(d: Dict<V>, k: string, v: V)
    requires DistinctKeys(d)
    ensures DistinctKeys(Put(d, k, v))
  {
    PutShape(d, k, v);
    var r := Put(d, k, v);
    if !HasKey(d, k) {
      forall i, j | 0 <= i < j < |r| ensures r[i].0 != r[j].0 {
        if j == |d| {
          assert r[i] == d[i];
        } else {
          assert r[i] == d[i] && r[j] == d[j];
        }
      }
    }
  }

  lemma PutSize<V>(d: Dict<V>, k: string, v: V)
    ensures |Put(d, k, v)| <= |d| + 1
    ensures HasKey(d, k) ==> |Put(d, k, v)| == |d|
  {
    PutShape(d, k, v);
  }
}
