/**
 * The counting both consensus computations share: `reduce` into a fresh
 * object of counts, read back in key-enumeration order, and the two ways the
 * majority is picked from it. Key order is first-insertion order, which is
 * JavaScript's order for keys that are not array indices.
 */
module Counting {
  import opened Wrappers

  /** A property of the counts object: a key and how often it was seen. */
  datatype Entry = Entry(key: string, count: nat)

  /** The number of times `k` occurs in `keys`. */
  function Occurrences(keys: seq<string>, k: string): (n: nat)
    ensures n <= |keys|
    ensures n > 0 <==> k in keys
  {
    if keys == [] then 0
    else Occurrences(keys[..|keys| - 1], k) + (if keys[|keys| - 1] == k then 1 else 0)
  }

  /** The index of the first occurrence of `k` in `keys`. */
  function FirstIndex(keys: seq<string>, k: string): (i: nat)
    requires k in keys
    ensures i < |keys| && keys[i] == k && k !in keys[..i]
  {
    var n := |keys| - 1;
    if k in keys[..n] then
      var i := FirstIndex(keys[..n], k);
      assert keys[..n][..i] == keys[..i];
      i
    else
      assert keys[..n] == keys[..n];
      n
  }

  /** A key counted at least twice stands at two different positions. */
  lemma {:induction false} TwoOccurrences(keys: seq<string>, k: string)
    requires Occurrences(keys, k) >= 2
    ensures exists i, j :: 0 <= i < j < |keys| && keys[i] == k && keys[j] == k
  {
    var n := |keys| - 1;
    var p := keys[..n];
    if keys[n] == k {
      var i := FirstIndex(p, k);
      assert keys[i] == k;
    } else {
      TwoOccurrences(p, k);
      var i, j :| 0 <= i < j < |p| && p[i] == k && p[j] == k;
      assert keys[i] == k && keys[j] == k;
    }
  }

  /** The keys of the counts object, in enumeration order. */
  function KeysOf(t: seq<Entry>): (ks: seq<string>)
    ensures |ks| == |t| && forall i :: 0 <= i < |t| ==> ks[i] == t[i].key
  {
    seq(|t|, i requires 0 <= i < |t| => t[i].key)
  }

  /** No key appears twice. */
  predicate DistinctKeys(t: seq<Entry>)
  {
    forall i, j :: 0 <= i < j < |t| ==> KeysOf(t)[i] != KeysOf(t)[j]
  }

  /** `acc[k] = (acc[k] || 0) + 1`: an existing property is bumped in place, a new one is added last with count 1. */
  function Bump(t: seq<Entry>, k: string): (r: seq<Entry>)
  {
    if t == [] then [Entry(k, 1)]
    else if t[0].key == k then [Entry(k, t[0].count + 1)] + t[1..]
    else [t[0]] + Bump(t[1..], k)
  }

  /** `keys.reduce((acc, k) => { acc[k] = (acc[k] || 0) + 1; return acc; }, {})`. */
  function Tally(keys: seq<string>): seq<Entry>
  {
    if keys == [] then [] else Bump(Tally(keys[..|keys| - 1]), keys[|keys| - 1])
  }

  /** Bumping a key that is present adds one to its entry; bumping a new key appends it. */
  lemma {:induction false} BumpFacts(t: seq<Entry>, k: string)
    requires DistinctKeys(t)
    ensures k in KeysOf(t) ==>
      (|Bump(t, k)| == |t| &&
       forall i :: 0 <= i < |t| ==> Bump(t, k)[i] == if t[i].key == k then Entry(k, t[i].count + 1) else t[i])
    ensures k !in KeysOf(t) ==> Bump(t, k) == t + [Entry(k, 1)]
  {
    if t != [] {
      assert KeysOf(t) == [t[0].key] + KeysOf(t[1..]);
      if t[0].key != k {
        BumpFacts(t[1..], k);
      }
    }
  }

  /** Counting one more key. */
  lemma OccurrencesSnoc(p: seq<string>, x: string, k: string)
    ensures Occurrences(p + [x], k) == Occurrences(p, k) + (if x == k then 1 else 0)
  {
    assert (p + [x])[..|p|] == p;
  }

  /** One more key does not move the first occurrence of a key already seen, and a new key first occurs last. */
  lemma FirstIndexSnoc(p: seq<string>, x: string, k: string)
    requires k in p + [x]
    ensures k in p ==> FirstIndex(p + [x], k) == FirstIndex(p, k)
    ensures k !in p ==> FirstIndex(p + [x], k) == |p|
  {
    assert (p + [x])[..|p|] == p;
  }

  /**
   * `ks` lists the distinct keys of `keys`, each once, in the order in which
   * they first occur.
   */
  predicate FirstSeenOrder(ks: seq<string>, keys: seq<string>)
  {
    (forall i, j :: 0 <= i < j < |ks| ==> ks[i] != ks[j]) &&
    (forall i :: 0 <= i < |ks| ==> ks[i] in keys) &&
    (forall k :: k in keys ==> k in ks) &&
    (forall i, j :: 0 <= i < j < |ks| ==> FirstIndex(keys, ks[i]) < FirstIndex(keys, ks[j]))
  }

  /** Every entry of `t` counts the occurrences of its key in `keys`. */
  predicate CountsMatch(t: seq<Entry>, keys: seq<string>)
  {
    forall i :: 0 <= i < |t| ==> t[i].count == Occurrences(keys, t[i].key)
  }

  /** `t` is the counts object of `keys`. */
  predicate TallyOf(t: seq<Entry>, keys: seq<string>)
  {
    FirstSeenOrder(KeysOf(t), keys) && CountsMatch(t, keys)
  }

  /** A key seen before leaves the order of first occurrences as it was. */
  lemma FirstSeenOld(ks: seq<string>, p: seq<string>, x: string)
    requires FirstSeenOrder(ks, p) && x in ks
    ensures FirstSeenOrder(ks, p + [x])
  {
    forall i | 0 <= i < |ks| ensures FirstIndex(p + [x], ks[i]) == FirstIndex(p, ks[i]) {
      FirstIndexSnoc(p, x, ks[i]);
    }
  }

  /** A new key comes last in the order of first occurrences. */
  lemma FirstSeenNew(ks: seq<string>, p: seq<string>, x: string)
    requires FirstSeenOrder(ks, p) && x !in ks
    ensures FirstSeenOrder(ks + [x], p + [x])
  {
    forall i | 0 <= i < |ks| ensures FirstIndex(p + [x], ks[i]) == FirstIndex(p, ks[i]) < |p| {
      FirstIndexSnoc(p, x, ks[i]);
    }
    FirstIndexSnoc(p, x, x);
  }

  /** Bumping a key already present keeps `TallyOf` for the longer sequence of keys. */
  lemma BumpOld(t: seq<Entry>, p: seq<string>, x: string)
    requires TallyOf(t, p) && x in KeysOf(t)
    ensures TallyOf(Bump(t, x), p + [x])
  {
    BumpFacts(t, x);
    var r := Bump(t, x);
    assert KeysOf(r) == KeysOf(t);
    FirstSeenOld(KeysOf(t), p, x);
    forall i | 0 <= i < |r| ensures r[i].count == Occurrences(p + [x], r[i].key) {
      OccurrencesSnoc(p, x, r[i].key);
    }
  }

  /** Adding a new key keeps `TallyOf` for the longer sequence of keys. */
  lemma BumpNew(t: seq<Entry>, p: seq<string>, x: string)
    requires TallyOf(t, p) && x !in KeysOf(t)
    ensures TallyOf(Bump(t, x), p + [x])
  {
    BumpFacts(t, x);
    var r := Bump(t, x);
    assert KeysOf(r) == KeysOf(t) + [x];
    FirstSeenNew(KeysOf(t), p, x);
    assert x !in p;
    forall i | 0 <= i < |r| ensures r[i].count == Occurrences(p + [x], r[i].key) {
      OccurrencesSnoc(p, x, r[i].key);
    }
  }

  /** `Tally` builds the counts object of its keys. */
  lemma {:induction false} TallyMeaning(keys: seq<string>)
    ensures TallyOf(Tally(keys), keys)
  {
    if keys != [] {
      var n := |keys| - 1;
      assert keys == keys[..n] + [keys[n]];
      TallyMeaning(keys[..n]);
      if keys[n] in KeysOf(Tally(keys[..n])) {
        BumpOld(Tally(keys[..n]), keys[..n], keys[n]);
      } else {
        BumpNew(Tally(keys[..n]), keys[..n], keys[n]);
      }
    }
  }

  /** The largest count, 0 for no entries. */
  function MaxCount(t: seq<Entry>): (m: nat)
    ensures forall i :: 0 <= i < |t| ==> t[i].count <= m
    ensures t != [] ==> exists i :: 0 <= i < |t| && t[i].count == m
  {
    if t == [] then 0
    else
      var m := MaxCount(t[1..]);
      if t[0].count >= m then t[0].count else (assert t[1..][0] in t[1..]; m)
  }

  /** The index of the first entry with the largest count. */
  function FirstMaxIndex(t: seq<Entry>): (i: nat)
    requires t != []
    ensures i < |t| && t[i].count == MaxCount(t)
    ensures forall j :: 0 <= j < i ==> t[j].count < MaxCount(t)
  {
    if |t| == 1 || t[0].count >= MaxCount(t[1..]) then 0 else 1 + FirstMaxIndex(t[1..])
  }

  /** `Object.keys(counts).find(k => counts[k] === c)`: the first entry with count `c`. */
  function FirstWithCount(t: seq<Entry>, c: nat): (r: Option<nat>)
    ensures r.Some? ==> r.value < |t| && t[r.value].count == c
    ensures r.Some? ==> forall j :: 0 <= j < r.value ==> t[j].count != c
    ensures r.None? ==> forall j :: 0 <= j < |t| ==> t[j].count != c
  {
    if t == [] then None
    else if t[0].count == c then Some(0)
    else match FirstWithCount(t[1..], c)
      case None => None
      case Some(i) => Some(i + 1)
  }

  /** Inserting `e` into a list sorted by descending count, ahead of every entry whose count it equals. */
  function Insert(e: Entry, s: seq<Entry>): (r: seq<Entry>)
    ensures |r| == |s| + 1
    ensures multiset(r) == multiset(s) + multiset{e}
    ensures forall j :: 0 <= j < |r| ==> r[j] == e || r[j] in s
  {
    if s == [] || e.count >= s[0].count then [e] + s
    else
      assert s == [s[0]] + s[1..];
      [s[0]] + Insert(e, s[1..])
  }

  /** Sorted by descending count. */
  predicate SortedByCount(s: seq<Entry>)
  {
    forall i, j :: 0 <= i < j < |s| ==> s[i].count >= s[j].count
  }

  /**
   * `Object.entries(counts).sort(([, a], [, b]) => b - a)`: a stable sort by
   * descending count. `Array.prototype.sort` is stable, and a stable sort has
   * only one possible result, so this insertion sort computes it.
   */
  function SortByCount(t: seq<Entry>): (s: seq<Entry>)
    ensures |s| == |t|
    ensures multiset(s) == multiset(t)
  {
    if t == [] then []
    else
      assert t == [t[0]] + t[1..];
      Insert(t[0], SortByCount(t[1..]))
  }

  /** Insertion keeps the order sorted, and puts `e` first when no entry counts more. */
  lemma {:induction false} InsertSorted(e: Entry, s: seq<Entry>)
    requires SortedByCount(s)
    ensures SortedByCount(Insert(e, s))
    ensures Insert(e, s)[0] == if s == [] || e.count >= s[0].count then e else s[0]
  {
    if s != [] && e.count < s[0].count {
      InsertSorted(e, s[1..]);
      var r := Insert(e, s[1..]);
      assert r[0] == e || r[0] == s[1];
      forall j | 0 <= j < |r| ensures s[0].count >= r[j].count {
        if r[j] != e {
          var m :| 0 <= m < |s[1..]| && s[1..][m] == r[j];
          assert s[m + 1] == r[j];
        }
      }
    }
  }

  /** The sort orders by descending count, and its first entry is the first entry with the largest count. */
  lemma {:induction false} SortByCountHead(t: seq<Entry>)
    requires t != []
    ensures SortedByCount(SortByCount(t))
    ensures SortByCount(t)[0] == t[FirstMaxIndex(t)]
  {
    if |t| == 1 {
      assert SortByCount(t) == Insert(t[0], []);
    } else {
      SortByCountHead(t[1..]);
      var s := SortByCount(t[1..]);
      InsertSorted(t[0], s);
      if t[0].count < s[0].count {
        assert t[0].count < MaxCount(t[1..]);
      }
    }
  }

  /** The first entry with the largest count is the one `find` picks when it looks for that count. */
  lemma FirstWithMaxCount(t: seq<Entry>)
    requires t != []
    ensures FirstWithCount(t, MaxCount(t)) == Some(FirstMaxIndex(t))
  {
  }
}
