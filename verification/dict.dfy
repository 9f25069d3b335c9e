/**
 An insertion-ordered dictionary with string keys, as a Python `dict` keeps
 them: a list of (key, value) entries in which no key appears twice.
 Assigning to a present key replaces its value in place; assigning to a new
 key appends it at the end.
 */
module Dict {
  import opened Wrappers

  type Dict<V> = seq<(string, V)>

  /** The keys in insertion order. */
  function Keys<V>(d: Dict<V>): (ks: seq<string>)
    ensures |ks| == |d|
    ensures forall i :: 0 <= i < |d| ==> ks[i] == d[i].0
  {
    if d == [] then [] else [d[0].0] + Keys(d[1..])
  }

  /** No key appears twice. */
  predicate DistinctKeys<V>(d: Dict<V>) {
    forall i, j :: 0 <= i < j < |d| ==> d[i].0 != d[j].0
  }

  /** `d.get(k)`: the value of the first entry with key `k`. */
  function Get<V>(d: Dict<V>, k: string): (r: Option<V>)
    ensures r.None? <==> k !in Keys(d)
  {
    if d == [] then None
    else if d[0].0 == k then Some(d[0].1) else Get(d[1..], k)
  }

  /** In a dictionary without repeated keys, each entry is what `Get` finds. */
  lemma {:induction false} GetEntry<V>(d: Dict<V>, i: nat)
    requires DistinctKeys(d)
    requires i < |d|
    ensures Get(d, d[i].0) == Some(d[i].1)
  {
    if i > 0 {
      GetEntry(d[1..], i - 1);
    }
  }

  /** Whatever `Get` finds is an entry of the dictionary. */
  lemma {:induction false} GetIsEntry<V>(d: Dict<V>, k: string)
    requires k in Keys(d)
    ensures (k, Get(d, k).value) in d
  {
    if d[0].0 != k {
      GetIsEntry(d[1..], k);
    }
  }

  /** `d[k] = v`: a present key keeps its position, a new key goes last. */
  function Put<V>(d: Dict<V>, k: string, v: V): (r: Dict<V>)
    ensures k in Keys(d) ==> Keys(r) == Keys(d)
    ensures k !in Keys(d) ==> Keys(r) == Keys(d) + [k]
  {
    if d == [] then [(k, v)]
    else if d[0].0 == k then [(k, v)] + d[1..]
    else [d[0]] + Put(d[1..], k, v)
  }

  /** After `d[k] = v`, `k` reads `v` and every other key reads as before. */
  lemma {:induction false} PutGet<V>(d: Dict<V>, k: string, v: V, k': string)
    ensures Get(Put(d, k, v), k') == if k' == k then Some(v) else Get(d, k')
  {
    if d != [] && d[0].0 != k {
      PutGet(d[1..], k, v, k');
    }
  }

  /** Every entry after `d[k] = v` is either the new entry or an old one. */
  lemma {:induction false} PutEntries<V>(d: Dict<V>, k: string, v: V)
    ensures forall e :: e in Put(d, k, v) ==> e == (k, v) || e in d
  {
    if d != [] && d[0].0 != k {
      PutEntries(d[1..], k, v);
    }
  }

  /** Assignment never introduces a repeated key. */
  lemma {:induction false} PutDistinct<V>(d: Dict<V>, k: string, v: V)
    requires DistinctKeys(d)
    ensures DistinctKeys(Put(d, k, v))
  {
    var r := Put(d, k, v);
    var ks := Keys(r);
    assert forall i :: 0 <= i < |r| ==> r[i].0 == ks[i];
    assert forall i, j :: 0 <= i < j < |d| ==> Keys(d)[i] != Keys(d)[j];
  }

  /** The dictionary as a mathematical map from keys to values. */
  function ToMap<V>(d: Dict<V>): (m: map<string, V>)
    ensures forall k :: k in m <==> k in Keys(d)
    ensures forall k :: k in m ==> Get(d, k) == Some(m[k])
  {
    if d == [] then map[]
    else ToMap(d[1..])[d[0].0 := d[0].1]
  }

  /** Without repeated keys, no entry occurs twice. */
  lemma {:induction false} CountAtMostOne<V>(d: Dict<V>, e: (string, V))
    requires DistinctKeys(d)
    ensures multiset(d)[e] <= 1
  {
    if d != [] {
      assert d == [d[0]] + d[1..];
      CountAtMostOne(d[1..], e);
      if e == d[0] {
        assert e !in d[1..] by {
          forall i | 0 <= i < |d[1..]|
            ensures d[1..][i] != e
          {
            assert d[1..][i].0 == d[i + 1].0 != d[0].0;
          }
        }
      }
    }
  }

  lemma TwoOccurrences<V>(d: Dict<V>, i: nat, j: nat)
    requires i < j < |d| && d[i] == d[j]
    ensures multiset(d)[d[i]] >= 2
  {
    assert d == d[..j] + d[j..];
    assert d[i] in d[..j];
    assert d[j] == d[j..][0];
    assert multiset(d) == multiset(d[..j]) + multiset(d[j..]);
  }

  /** A rearrangement of a dictionary without repeated keys has none either. */
  lemma DistinctKeysOfPermutation<V>(a: Dict<V>, b: Dict<V>)
    requires DistinctKeys(a) && multiset(a) == multiset(b)
    ensures DistinctKeys(b)
  {
    forall i, j | 0 <= i < j < |b|
      ensures b[i].0 != b[j].0
    {
      if b[i].0 == b[j].0 {
        assert b[i] in multiset(a) && b[j] in multiset(a);
        var p :| 0 <= p < |a| && a[p] == b[i];
        var q :| 0 <= q < |a| && a[q] == b[j];
        assert p == q;
        TwoOccurrences(b, i, j);
        CountAtMostOne(a, b[i]);
        assert false;
      }
    }
  }
}
