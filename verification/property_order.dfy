/**
 The order in which JavaScript enumerates the own string-keyed properties of
 an object (`Object.keys`, `Object.entries`): first the keys that are array
 indices, in ascending numeric order, then every other key in the order it
 was created. An array index is the canonical decimal form of an integer
 below 2^32 - 1 ("0", "7", "1000000", but not "007" or "-1").
 */
module PropertyOrder {

  predicate IsDigit(c: char) {
    '0' <= c <= '9'
  }

  function DigitValue(c: char): nat
    requires IsDigit(c)
  {
    c as int - '0' as int
  }

  function DigitChar(d: nat): (c: char)
    requires d < 10
    ensures IsDigit(c) && DigitValue(c) == d
  {
    ('0' as int + d) as char
  }

  predicate AllDigits(s: string) {
    forall i :: 0 <= i < |s| ==> IsDigit(s[i])
  }

  /** The number a string of decimal digits denotes. */
  function DecimalValue(s: string): nat
    requires AllDigits(s)
  {
    if s == [] then 0 else DecimalValue(s[..|s| - 1]) * 10 + DigitValue(s[|s| - 1])
  }

  /** The canonical decimal form of a natural number, as `String(n)` writes it. */
  function Decimal(n: nat): (s: string)
    ensures |s| > 0 && AllDigits(s)
    ensures s[0] != '0' || n == 0
  {
    if n < 10 then [DigitChar(n)] else Decimal(n / 10) + [DigitChar(n % 10)]
  }

  /** Reading back the decimal form of a number gives the number. */
  lemma {:induction false} DecimalRoundTrip(n: nat)
    ensures DecimalValue(Decimal(n)) == n
  {
    if n >= 10 {
      var s := Decimal(n / 10);
      DecimalRoundTrip(n / 10);
      assert (s + [DigitChar(n % 10)])[..|s|] == s;
    }
  }

  const ArrayIndexLimit: nat := 0xFFFF_FFFF

  /** A property key that names an array index. */
  predicate IsArrayIndex(key: string) {
    && |key| > 0 && AllDigits(key)
    && (key[0] != '0' || |key| == 1)
    && DecimalValue(key) < ArrayIndexLimit
  }

  /** The decimal form of every number below 2^32 - 1 is an array index. */
  lemma DecimalIsArrayIndex(n: nat)
    requires n < ArrayIndexLimit
    ensures IsArrayIndex(Decimal(n))
  {
    DecimalRoundTrip(n);
  }

  /** The numeric position an array-index key sorts by. */
  function Rank(key: string): nat {
    if IsArrayIndex(key) then DecimalValue(key) else 0
  }

  predicate AllIndices<V>(es: seq<(string, V)>) {
    forall i :: 0 <= i < |es| ==> IsArrayIndex(es[i].0)
  }

  /** Ascending by a ranking of the keys. */
  predicate SortedBy<V>(rank: string -> nat, es: seq<(string, V)>) {
    forall i, j :: 0 <= i < j < |es| ==> rank(es[i].0) <= rank(es[j].0)
  }

  predicate SortedByIndex<V>(es: seq<(string, V)>) {
    SortedBy(Rank, es)
  }

  /** Inserts an entry before the first entry of larger rank. */
  function Insert<V>(rank: string -> nat, e: (string, V), es: seq<(string, V)>): seq<(string, V)> {
    if es == [] || rank(e.0) <= rank(es[0].0) then [e] + es
    else [es[0]] + Insert(rank, e, es[1..])
  }

  /** Insertion adds the entry and loses nothing. */
  lemma {:induction false} InsertMultiset<V>(rank: string -> nat, e: (string, V), es: seq<(string, V)>)
    ensures multiset(Insert(rank, e, es)) == multiset(es) + multiset{e}
  {
    if !(es == [] || rank(e.0) <= rank(es[0].0)) {
      InsertMultiset(rank, e, es[1..]);
      assert es == [es[0]] + es[1..];
    }
  }

  /** A lower bound on the ranks of the entries survives insertion. */
  lemma {:induction false} InsertBound<V>(rank: string -> nat, e: (string, V), es: seq<(string, V)>, b: nat)
    requires forall k :: 0 <= k < |es| ==> b <= rank(es[k].0)
    requires b <= rank(e.0)
    ensures forall k :: 0 <= k < |Insert(rank, e, es)| ==> b <= rank(Insert(rank, e, es)[k].0)
  {
    if !(es == [] || rank(e.0) <= rank(es[0].0)) {
      InsertBound(rank, e, es[1..], b);
    }
  }

  /** Insertion into a sorted list keeps it sorted. */
  lemma {:induction false} InsertSorted<V>(rank: string -> nat, e: (string, V), es: seq<(string, V)>)
    requires SortedBy(rank, es)
    ensures SortedBy(rank, Insert(rank, e, es))
  {
    if !(es == [] || rank(e.0) <= rank(es[0].0)) {
      var rest := Insert(rank, e, es[1..]);
      InsertSorted(rank, e, es[1..]);
      InsertBound(rank, e, es[1..], rank(es[0].0));
      assert Insert(rank, e, es) == [es[0]] + rest;
    }
  }

  /** The entries in ascending order of rank: a stable insertion sort. */
  function SortBy<V>(rank: string -> nat, es: seq<(string, V)>): (r: seq<(string, V)>)
    ensures SortedBy(rank, r)
    ensures multiset(r) == multiset(es)
  {
    if es == [] then []
    else
      var rest := SortBy(rank, es[1..]);
      InsertSorted(rank, es[0], rest);
      InsertMultiset(rank, es[0], rest);
      assert es == [es[0]] + es[1..];
      Insert(rank, es[0], rest)
  }

  /** The entries whose key is (or is not) an array index, in creation order. */
  function Partition<V>(es: seq<(string, V)>, indices: bool): (r: seq<(string, V)>)
    ensures indices ==> AllIndices(r)
    ensures forall i :: 0 <= i < |r| ==> IsArrayIndex(r[i].0) == indices
    ensures forall i :: 0 <= i < |r| ==> r[i] in es
    ensures forall i :: 0 <= i < |es| && IsArrayIndex(es[i].0) == indices ==> es[i] in r
  {
    if es == [] then []
    else
      var rest := Partition(es[1..], indices);
      assert forall i :: 1 <= i < |es| ==> es[i] == es[1..][i - 1];
      if IsArrayIndex(es[0].0) == indices then [es[0]] + rest else rest
  }

  lemma {:induction false} PartitionMultiset<V>(es: seq<(string, V)>)
    ensures multiset(Partition(es, true)) + multiset(Partition(es, false)) == multiset(es)
  {
    if es != [] {
      PartitionMultiset(es[1..]);
      assert es == [es[0]] + es[1..];
    }
  }

  /** A rearrangement of entries keyed by array indices is keyed by array
      indices. */
  lemma AllIndicesOfPermutation<V>(a: seq<(string, V)>, b: seq<(string, V)>)
    requires AllIndices(a) && multiset(a) == multiset(b)
    ensures AllIndices(b)
  {
    forall i | 0 <= i < |b|
      ensures IsArrayIndex(b[i].0)
    {
      assert b[i] in multiset(a);
      var k :| 0 <= k < |a| && a[k] == b[i];
    }
  }

  /** An object's entries in enumeration order. */
  function Ordered<V>(es: seq<(string, V)>): (r: seq<(string, V)>)
    ensures multiset(r) == multiset(es)
    ensures |r| == |es|
    ensures exists n :: 0 <= n <= |r|
              && AllIndices(r[..n]) && SortedByIndex(r[..n])
              && r[n..] == Partition(es, false)
  {
    var front := SortBy(Rank, Partition(es, true));
    var back := Partition(es, false);
    PartitionMultiset(es);
    AllIndicesOfPermutation(Partition(es, true), front);
    var r := front + back;
    assert r[..|front|] == front && r[|front|..] == back;
    assert |r| == |multiset(r)| == |multiset(es)| == |es|;
    r
  }
}
