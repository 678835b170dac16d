/** Tables written entry by entry: a loop over an ordered list of keys that
    overwrites some entries of a map.  These generic facts let the chunk's loops be
    stated as "the keys visited so far hold their new values, the rest are as they
    were", and closed as a map union once every key has been visited. */
module Tables {

  /** The table m after a loop over the keys order[..n] that overwrites each key
      vals has with its value there. */
  function Apply<K, V>(m: map<K, V>, order: seq<K>, n: nat, vals: map<K, V>): map<K, V>
    requires n <= |order|
  {
    if n == 0 then m
    else
      var k := order[n - 1];
      if k in vals then Apply(m, order, n - 1, vals)[k := vals[k]] else Apply(m, order, n - 1, vals)
  }

  /** The entries of vals whose keys are listed in ks. */
  function Restrict<K, V>(vals: map<K, V>, ks: seq<K>): map<K, V> {
    map k | k in vals && k in ks :: vals[k]
  }

  /** After n passes, m is overwritten by the entries of vals among the first n keys. */
  lemma {:induction false} ApplyPrefix<K, V>(m: map<K, V>, order: seq<K>, n: nat, vals: map<K, V>)
    requires n <= |order|
    ensures Apply(m, order, n, vals) == m + Restrict(vals, order[..n])
  {
    if n > 0 {
      ApplyPrefix(m, order, n - 1, vals);
      var k := order[n - 1];
      assert order[..n] == order[..n - 1] + [k];
      var before, after := Restrict(vals, order[..n - 1]), Restrict(vals, order[..n]);
      if k in vals {
        assert after == before[k := vals[k]];
      } else {
        assert after == before;
      }
    }
  }

  /** Once every key of vals has been visited, m is overwritten by all of vals. */
  lemma ApplyAll<K, V>(m: map<K, V>, order: seq<K>, vals: map<K, V>)
    requires forall k :: k in vals ==> k in order
    ensures Apply(m, order, |order|, vals) == m + vals
  {
    ApplyPrefix(m, order, |order|, vals);
    assert order[..|order|] == order;
    assert Restrict(vals, order) == vals;
  }

  /** A key not among the first n is as it was. */
  lemma ApplyOutside<K, V>(m: map<K, V>, order: seq<K>, n: nat, vals: map<K, V>, k: K)
    requires n <= |order| && k !in order[..n]
    ensures k in Apply(m, order, n, vals) <==> k in m
    ensures k in m ==> Apply(m, order, n, vals)[k] == m[k]
  {
    ApplyPrefix(m, order, n, vals);
  }

  /** No key is listed twice. */
  ghost predicate Distinct<K>(s: seq<K>) {
    forall i, j :: 0 <= i < j < |s| ==> s[i] != s[j]
  }

  /** In a list without repetitions, the n-th key is not among the ones before it. */
  lemma DistinctFresh<K>(s: seq<K>, n: nat)
    requires Distinct(s) && n < |s|
    ensures s[n] !in s[..n]
  {
  }

  /** The keys of a nested loop: for each x of xs, for each y of ys. */
  function Pairs<A, B>(xs: seq<A>, ys: seq<B>): (r: seq<(A, B)>)
    ensures |r| == |xs| * |ys|
  {
    if xs == [] then []
    else seq(|ys|, j requires 0 <= j < |ys| => (xs[0], ys[j])) + Pairs(xs[1..], ys)
  }

  /** The nested loop visits exactly the pairs of its two lists. */
  lemma {:induction false} PairsMember<A, B>(xs: seq<A>, ys: seq<B>, x: A, y: B)
    ensures (x, y) in Pairs(xs, ys) <==> x in xs && y in ys
  {
    if xs != [] {
      PairsMember(xs[1..], ys, x, y);
      var row := seq(|ys|, j requires 0 <= j < |ys| => (xs[0], ys[j]));
      assert Pairs(xs, ys) == row + Pairs(xs[1..], ys);
      assert (x, y) in row <==> x == xs[0] && y in ys by {
        if x == xs[0] && y in ys {
          var j :| 0 <= j < |ys| && ys[j] == y;
          assert row[j] == (x, y);
        }
      }
      assert x in xs <==> x == xs[0] || x in xs[1..] by {
        assert xs == [xs[0]] + xs[1..];
      }
    }
  }

  /** A nested loop over two lists without repetitions visits no pair twice. */
  lemma {:induction false} PairsDistinct<A, B>(xs: seq<A>, ys: seq<B>)
    requires Distinct(xs) && Distinct(ys)
    ensures Distinct(Pairs(xs, ys))
  {
    if xs != [] {
      var row := seq(|ys|, j requires 0 <= j < |ys| => (xs[0], ys[j]));
      var rest := Pairs(xs[1..], ys);
      PairsDistinct(xs[1..], ys);
      assert xs[0] !in xs[1..];
      forall p | p in rest
        ensures p.0 != xs[0]
      {
        PairsMember(xs[1..], ys, p.0, p.1);
      }
      var r := row + rest;
      assert r == Pairs(xs, ys);
      forall i, j | 0 <= i < j < |r|
        ensures r[i] != r[j]
      {
        if j < |row| {
        } else if i >= |row| {
          assert r[i] == rest[i - |row|] && r[j] == rest[j - |row|];
        } else {
          assert r[j] == rest[j - |row|];
          assert r[j] in rest;
        }
      }
    }
  }

  /** The nested loop visits pair (xs[i], ys[j]) on pass i |ys| + j. */
  lemma {:induction false} PairsAt<A, B>(xs: seq<A>, ys: seq<B>, i: nat, j: nat)
    requires i < |xs| && j < |ys|
    ensures i * |ys| + j < |xs| * |ys|
    ensures Pairs(xs, ys)[i * |ys| + j] == (xs[i], ys[j])
  {
    var row := seq(|ys|, j requires 0 <= j < |ys| => (xs[0], ys[j]));
    assert Pairs(xs, ys) == row + Pairs(xs[1..], ys);
    if i > 0 {
      PairsAt(xs[1..], ys, i - 1, j);
      assert i * |ys| == |ys| + (i - 1) * |ys|;
      assert |xs| * |ys| == |ys| + (|xs| - 1) * |ys|;
    }
  }

  /** In a list without repetitions, the key pass n visits still holds its original
      entry. */
  lemma ApplyFresh<K, V>(m: map<K, V>, order: seq<K>, n: nat, vals: map<K, V>)
    requires Distinct(order) && n < |order|
    ensures order[n] in Apply(m, order, n, vals) <==> order[n] in m
    ensures order[n] in m ==> Apply(m, order, n, vals)[order[n]] == m[order[n]]
  {
    DistinctFresh(order, n);
    ApplyOutside(m, order, n, vals, order[n]);
  }

  /** One more pass of the walk: entry order[n] is written when vals has it. */
  lemma ApplyStep<K, V>(m: map<K, V>, order: seq<K>, n: nat, vals: map<K, V>, k: K, t: map<K, V>, t': map<K, V>)
    requires n < |order| && order[n] == k && t == Apply(m, order, n, vals)
    requires t' == if k in vals then t[k := vals[k]] else t
    ensures t' == Apply(m, order, n + 1, vals)
  {
  }

  /** Writing only entries m already has keeps its keys. */
  lemma ApplyKeys<K, V>(m: map<K, V>, order: seq<K>, n: nat, vals: map<K, V>)
    requires n <= |order| && vals.Keys <= m.Keys
    ensures Apply(m, order, n, vals).Keys == m.Keys
  {
    ApplyPrefix(m, order, n, vals);
  }
}
