/** Mongo's `$group` with `$sum`, `$sort` and `$limit` stages, read as list
    computations over (key, amount) pairs. */
module Grouping {

  /** One output document of `{"$group": {"_id": key, "total": {"$sum": ...}}}`. */
  datatype Bucket<K> = Bucket(key: K, total: int)

  /** The keys of the pairs, in order. */
  function Firsts<K>(ps: seq<(K, int)>): seq<K> {
    if ps == [] then [] else Firsts(ps[..|ps| - 1]) + [ps[|ps| - 1].0]
  }

  /** The sum of the amounts paired with `k`. */
  function SumFor<K(==)>(ps: seq<(K, int)>, k: K): int {
    if ps == [] then 0
    else SumFor(ps[..|ps| - 1], k) + (if ps[|ps| - 1].0 == k then ps[|ps| - 1].1 else 0)
  }

  /** The keys of the buckets, in order. */
  function KeysOf<K>(bs: seq<Bucket<K>>): seq<K> {
    if bs == [] then [] else [bs[0].key] + KeysOf(bs[1..])
  }

  /** The total of the first bucket of `k`, 0 when there is none. */
  function TotalOf<K(==)>(bs: seq<Bucket<K>>, k: K): int {
    if bs == [] then 0 else if bs[0].key == k then bs[0].total else TotalOf(bs[1..], k)
  }

  /** No value occurs twice in `s`. */
  ghost predicate NoDuplicates<T(!new)>(s: seq<T>) {
    forall x :: multiset(s)[x] <= 1
  }

  /** Adds `v` to the bucket of `k`, or appends a new bucket for `k`. */
  function AddTo<K(==)>(bs: seq<Bucket<K>>, k: K, v: int): seq<Bucket<K>> {
    if bs == [] then [Bucket(k, v)]
    else if bs[0].key == k then [bs[0].(total := bs[0].total + v)] + bs[1..]
    else [bs[0]] + AddTo(bs[1..], k, v)
  }

  /** Adding to a bucket adds a key only when it was missing, and adds `v` to the
      total of `k` and to no other. */
  lemma {:induction false} AddToSpec<K(!new)>(bs: seq<Bucket<K>>, k: K, v: int)
    ensures multiset(KeysOf(AddTo(bs, k, v))) == multiset(KeysOf(bs)) + (if k in KeysOf(bs) then multiset{} else multiset{k})
    ensures forall j :: TotalOf(AddTo(bs, k, v), j) == TotalOf(bs, j) + (if j == k then v else 0)
  {
    if bs != [] {
      var t := bs[1..];
      var r := AddTo(bs, k, v);
      assert KeysOf(bs) == [bs[0].key] + KeysOf(t);
      if bs[0].key == k {
        assert r[1..] == t;
        assert KeysOf(r) == KeysOf(bs);
      } else {
        AddToSpec(t, k, v);
        var u := AddTo(t, k, v);
        assert r[1..] == u;
        assert KeysOf(r) == [bs[0].key] + KeysOf(u);
        assert k in KeysOf(bs) <==> k in KeysOf(t);
      }
    }
  }

  /** `$group` by key with `$sum` of the amounts, buckets in order of first occurrence. */
  function GroupSum<K(==)>(ps: seq<(K, int)>): seq<Bucket<K>> {
    if ps == [] then []
    else AddTo(GroupSum(ps[..|ps| - 1]), ps[|ps| - 1].0, ps[|ps| - 1].1)
  }

  /** Grouping gives one bucket per distinct key of the pairs, holding the sum of
      that key's amounts. */
  lemma {:induction false} GroupSumSpec<K(!new)>(ps: seq<(K, int)>)
    ensures NoDuplicates(KeysOf(GroupSum(ps)))
    ensures forall k :: k in KeysOf(GroupSum(ps)) <==> k in Firsts(ps)
    ensures forall k :: TotalOf(GroupSum(ps), k) == SumFor(ps, k)
  {
    if ps != [] {
      var q := ps[..|ps| - 1];
      var k, v := ps[|ps| - 1].0, ps[|ps| - 1].1;
      GroupSumSpec(q);
      AddToSpec(GroupSum(q), k, v);
      var r := GroupSum(ps);
      assert Firsts(ps) == Firsts(q) + [k];
      assert forall j :: j in KeysOf(r) <==> j in multiset(KeysOf(r));
    }
  }

  /** The key of a bucket of a list is one of its keys. */
  lemma {:induction false} KeyOfMember<K>(bs: seq<Bucket<K>>, b: Bucket<K>)
    requires b in bs
    ensures b.key in KeysOf(bs)
  {
    if bs[0] != b {
      assert b in bs[1..];
      KeyOfMember(bs[1..], b);
    }
  }

  /** A bucket of a list with distinct keys holds the total `TotalOf` gives for its key. */
  lemma {:induction false} TotalOfMember<K(!new)>(bs: seq<Bucket<K>>, b: Bucket<K>)
    requires NoDuplicates(KeysOf(bs)) && b in bs
    ensures TotalOf(bs, b.key) == b.total
  {
    if bs[0] != b {
      var t := bs[1..];
      assert KeysOf(bs) == [bs[0].key] + KeysOf(t);
      assert b in t;
      KeyOfMember(t, b);
      assert multiset(KeysOf(bs))[bs[0].key] == 1 + multiset(KeysOf(t))[bs[0].key];
      assert bs[0].key != b.key;
      assert NoDuplicates(KeysOf(t)) by {
        forall x ensures multiset(KeysOf(t))[x] <= 1 {
          assert multiset(KeysOf(t))[x] <= multiset(KeysOf(bs))[x];
        }
      }
      TotalOfMember(t, b);
    }
  }

  predicate Descending<K>(s: seq<Bucket<K>>, rank: Bucket<K> -> int) {
    forall i, j :: 0 <= i < j < |s| ==> rank(s[i]) >= rank(s[j])
  }

  /** Inserts `x` before the first element of `s` of lower rank. */
  function Insert<K>(x: Bucket<K>, s: seq<Bucket<K>>, rank: Bucket<K> -> int): seq<Bucket<K>> {
    if s == [] || rank(s[0]) < rank(x) then [x] + s
    else [s[0]] + Insert(x, s[1..], rank)
  }

  /** Inserting into a list sorted by descending rank keeps it sorted and adds `x`. */
  lemma {:induction false} InsertSpec<K>(x: Bucket<K>, s: seq<Bucket<K>>, rank: Bucket<K> -> int)
    requires Descending(s, rank)
    ensures Descending(Insert(x, s, rank), rank)
    ensures multiset(Insert(x, s, rank)) == multiset(s) + multiset{x}
    ensures multiset(KeysOf(Insert(x, s, rank))) == multiset(KeysOf(s)) + multiset{x.key}
  {
    if s == [] || rank(s[0]) < rank(x) {
      ConsDescending(x, s, rank);
      assert KeysOf([x] + s) == [x.key] + KeysOf(s);
    } else {
      InsertSpec(x, s[1..], rank);
      var t := Insert(x, s[1..], rank);
      HeadOfInsert(s, x, t, rank);
      ConsOfInsert(s, x, t);
      KeysOfConsInsert(s, x, t);
      ConsDescending(s[0], t, rank);
    }
  }

  lemma ConsDescending<K>(h: Bucket<K>, s: seq<Bucket<K>>, rank: Bucket<K> -> int)
    requires Descending(s, rank) && (s == [] || rank(h) >= rank(s[0]))
    ensures Descending([h] + s, rank)
  {
    forall i, j | 0 <= i < j < |[h] + s| ensures rank(([h] + s)[i]) >= rank(([h] + s)[j]) {
      if i == 0 {
        assert ([h] + s)[j] == s[j - 1];
        assert rank(s[0]) >= rank(s[j - 1]);
      } else {
        assert ([h] + s)[i] == s[i - 1] && ([h] + s)[j] == s[j - 1];
      }
    }
  }

  /** The first element of `t`, which is `s[1..]` with `x` added, ranks no higher than `s[0]`. */
  lemma HeadOfInsert<K>(s: seq<Bucket<K>>, x: Bucket<K>, t: seq<Bucket<K>>, rank: Bucket<K> -> int)
    requires s != [] && Descending(s, rank) && rank(s[0]) >= rank(x)
    requires multiset(t) == multiset(s[1..]) + multiset{x}
    ensures t == [] || rank(s[0]) >= rank(t[0])
  {
    if t != [] && t[0] != x {
      assert t[0] in multiset(t);
      assert t[0] in s[1..];
      var j :| 0 <= j < |s[1..]| && s[1..][j] == t[0];
      assert s[j + 1] == t[0];
    }
  }

  /** `[s[0]] + t`, where `t` is `s[1..]` with `x` added, is `s` with `x` added. */
  lemma ConsOfInsert<K>(s: seq<Bucket<K>>, x: Bucket<K>, t: seq<Bucket<K>>)
    requires s != []
    requires multiset(t) == multiset(s[1..]) + multiset{x}
    ensures multiset([s[0]] + t) == multiset(s) + multiset{x}
  {
    assert s == [s[0]] + s[1..];
    assert multiset(s) == multiset{s[0]} + multiset(s[1..]);
    assert multiset([s[0]] + t) == multiset{s[0]} + multiset(t);
  }

  /** The same for the keys of `[s[0]] + t`. */
  lemma KeysOfConsInsert<K>(s: seq<Bucket<K>>, x: Bucket<K>, t: seq<Bucket<K>>)
    requires s != []
    requires multiset(KeysOf(t)) == multiset(KeysOf(s[1..])) + multiset{x.key}
    ensures multiset(KeysOf([s[0]] + t)) == multiset(KeysOf(s)) + multiset{x.key}
  {
    var ks := KeysOf(s[1..]);
    var kt := KeysOf(t);
    assert ([s[0]] + t)[1..] == t;
    assert KeysOf([s[0]] + t) == [s[0].key] + kt;
    assert KeysOf(s) == [s[0].key] + ks;
    assert multiset([s[0].key] + kt) == multiset{s[0].key} + multiset(kt);
    assert multiset([s[0].key] + ks) == multiset{s[0].key} + multiset(ks);
  }

  lemma SplitHead<K>(s: seq<Bucket<K>>)
    requires s != []
    ensures multiset(s) == multiset{s[0]} + multiset(s[1..])
    ensures multiset(KeysOf(s)) == multiset{s[0].key} + multiset(KeysOf(s[1..]))
  {
    assert s == [s[0]] + s[1..];
    assert KeysOf(s) == [s[0].key] + KeysOf(s[1..]);
  }

  /** `$sort` by descending `rank`, by insertion. */
  function SortDesc<K>(s: seq<Bucket<K>>, rank: Bucket<K> -> int): seq<Bucket<K>> {
    if s == [] then [] else Insert(s[0], SortDesc(s[1..], rank), rank)
  }

  /** Sorting gives a permutation of `s` in non-increasing rank. */
  lemma {:induction false} SortDescSpec<K>(s: seq<Bucket<K>>, rank: Bucket<K> -> int)
    ensures Descending(SortDesc(s, rank), rank)
    ensures multiset(SortDesc(s, rank)) == multiset(s)
    ensures multiset(KeysOf(SortDesc(s, rank))) == multiset(KeysOf(s))
  {
    if s != [] {
      var t := SortDesc(s[1..], rank);
      SortDescSpec(s[1..], rank);
      InsertSpec(s[0], t, rank);
      assert SortDesc(s, rank) == Insert(s[0], t, rank);
      SplitHead(s);
    }
  }

  lemma {:induction false} KeysOfIndex<K>(bs: seq<Bucket<K>>)
    ensures |KeysOf(bs)| == |bs|
    ensures forall i :: 0 <= i < |bs| ==> KeysOf(bs)[i] == bs[i].key
  {
    if bs != [] {
      KeysOfIndex(bs[1..]);
      assert forall i :: 1 <= i < |bs| ==> KeysOf(bs)[i] == KeysOf(bs[1..])[i - 1];
    }
  }

  lemma {:induction false} FirstsIndex<K>(ps: seq<(K, int)>)
    ensures |Firsts(ps)| == |ps|
    ensures forall i :: 0 <= i < |ps| ==> Firsts(ps)[i] == ps[i].0
  {
    if ps != [] {
      FirstsIndex(ps[..|ps| - 1]);
    }
  }

  /** A value at two positions of `s` occurs twice in it. */
  lemma TwoPositions<T>(s: seq<T>, i: nat, j: nat)
    requires i < j < |s| && s[i] == s[j]
    ensures multiset(s)[s[i]] >= 2
  {
    assert s == s[..j] + s[j..];
    assert s[i] in s[..j];
    assert s[j] in s[j..];
  }

  /** Grouping the pairs by key and sorting the buckets by descending `rank` gives
      one bucket per key that occurs, holding the sum of that key's amounts, in
      non-increasing rank. */
  lemma RankedGroups<K(!new)>(ps: seq<(K, int)>, rank: Bucket<K> -> int)
    ensures var s := SortDesc(GroupSum(ps), rank);
      && (forall i, j :: 0 <= i < j < |s| ==> s[i].key != s[j].key)
      && (forall i :: 0 <= i < |s| ==> s[i].total == SumFor(ps, s[i].key) && s[i].key in Firsts(ps))
      && (forall k :: k in Firsts(ps) ==> exists i :: 0 <= i < |s| && s[i].key == k)
      && Descending(s, rank)
  {
    var g := GroupSum(ps);
    var s := SortDesc(g, rank);
    GroupSumSpec(ps);
    SortDescSpec(g, rank);
    KeysOfIndex(s);
    forall i, j | 0 <= i < j < |s|
      ensures s[i].key != s[j].key
    {
      if s[i].key == s[j].key {
        TwoPositions(KeysOf(s), i, j);
        assert false;
      }
    }
    forall i | 0 <= i < |s|
      ensures s[i].total == SumFor(ps, s[i].key) && s[i].key in Firsts(ps)
    {
      assert s[i] in multiset(s);
      assert s[i] in g;
      TotalOfMember(g, s[i]);
      KeyOfMember(g, s[i]);
    }
    forall k | k in Firsts(ps)
      ensures exists i :: 0 <= i < |s| && s[i].key == k
    {
      assert k in multiset(KeysOf(g));
      assert k in KeysOf(s);
    }
  }

  /** `$limit n`: the first `n` elements, or all when there are fewer. */
  function Take<T>(s: seq<T>, n: nat): (r: seq<T>)
    ensures |r| == if |s| < n then |s| else n
    ensures r == s[..|r|]
  {
    if |s| < n then s else s[..n]
  }
}
