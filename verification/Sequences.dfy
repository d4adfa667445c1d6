/** Sums, grouped sums and duplicate-free sequences: the vocabulary in which the ledger and its exports are stated. */
module Sequences {

  ghost predicate NoDuplicates<T>(xs: seq<T>) {
    forall i, j | 0 <= i < j < |xs| :: xs[i] != xs[j]
  }

  function Sum(xs: seq<int>): int {
    if xs == [] then 0 else Sum(xs[..|xs| - 1]) + xs[|xs| - 1]
  }

  /** The sum of the values whose key is `k`: SQL's SUM ... WHERE key = k. */
  function Bucket(keys: seq<nat>, vals: seq<int>, k: nat): int
    requires |keys| == |vals|
  {
    if keys == [] then 0
    else
      var n := |keys| - 1;
      Bucket(keys[..n], vals[..n], k) + if keys[n] == k then vals[n] else 0
  }

  /** The positions that hold key `k`, ascending. */
  function Pick(keys: seq<nat>, k: nat): (picked: seq<nat>)
    ensures forall i :: i in picked <==> 0 <= i < |keys| && keys[i] == k
  {
    if keys == [] then []
    else
      var n := |keys| - 1;
      Pick(keys[..n], k) + if keys[n] == k then [n] else []
  }

  /** Changing only rows of other keys leaves a group's sum unchanged. */
  lemma {:induction false} BucketAgree(keys: seq<nat>, vals: seq<int>, vals': seq<int>, k: nat)
    requires |keys| == |vals| == |vals'|
    requires forall i | 0 <= i < |keys| && keys[i] == k :: vals[i] == vals'[i]
    ensures Bucket(keys, vals, k) == Bucket(keys, vals', k)
  {
    if keys != [] {
      var n := |keys| - 1;
      BucketAgree(keys[..n], vals[..n], vals'[..n], k);
    }
  }

  lemma {:induction false} BucketMonotone(keys: seq<nat>, vals: seq<int>, vals': seq<int>, k: nat)
    requires |keys| == |vals| == |vals'|
    requires forall i | 0 <= i < |keys| && keys[i] == k :: vals[i] <= vals'[i]
    ensures Bucket(keys, vals, k) <= Bucket(keys, vals', k)
  {
    if keys != [] {
      var n := |keys| - 1;
      BucketMonotone(keys[..n], vals[..n], vals'[..n], k);
    }
  }

  lemma BucketOfZeros(keys: seq<nat>, vals: seq<int>, k: nat)
    requires |keys| == |vals|
    requires forall i | 0 <= i < |keys| && keys[i] == k :: vals[i] == 0
    ensures Bucket(keys, vals, k) == 0
  {
    if keys != [] {
      var n := |keys| - 1;
      BucketOfZeros(keys[..n], vals[..n], k);
    }
  }

  lemma BucketAppend(keys: seq<nat>, vals: seq<int>, key: nat, val: int, k: nat)
    requires |keys| == |vals|
    ensures Bucket(keys + [key], vals + [val], k) == Bucket(keys, vals, k) + if key == k then val else 0
  {
    assert (keys + [key])[..|keys|] == keys && (vals + [val])[..|vals|] == vals;
  }

  lemma {:induction false} BucketUpdate(keys: seq<nat>, vals: seq<int>, i: nat, val: int, k: nat)
    requires |keys| == |vals| && i < |keys|
    ensures Bucket(keys, vals[i := val], k) == Bucket(keys, vals, k) + if keys[i] == k then val - vals[i] else 0
  {
    var n := |keys| - 1;
    if i == n {
      assert vals[i := val][..n] == vals[..n];
    } else {
      assert vals[i := val][..n] == vals[..n][i := val];
      BucketUpdate(keys[..n], vals[..n], i, val, k);
    }
  }

  /** Two groupings that select the same rows have the same sum. */
  lemma {:induction false} BucketRekey(keys: seq<nat>, keys': seq<nat>, vals: seq<int>, k: nat, k': nat)
    requires |keys| == |keys'| == |vals|
    requires forall i | 0 <= i < |keys| && vals[i] != 0 :: keys[i] == k <==> keys'[i] == k'
    ensures Bucket(keys, vals, k) == Bucket(keys', vals, k')
  {
    if keys != [] {
      var n := |keys| - 1;
      BucketRekey(keys[..n], keys'[..n], vals[..n], k, k');
    }
  }

  /** The key of a key: `outer` applied to every entry of `inner`. */
  function Compose(outer: seq<nat>, inner: seq<nat>): (keys: seq<nat>)
    requires forall i | 0 <= i < |inner| :: inner[i] < |outer|
  {
    seq(|inner|, i requires 0 <= i < |inner| => outer[inner[i]])
  }

  /** The values of a list of groups, one entry per listed key. */
  function Buckets(keys: seq<nat>, vals: seq<int>, ks: seq<nat>): (sums: seq<int>)
    requires |keys| == |vals|
  {
    seq(|ks|, i requires 0 <= i < |ks| => Bucket(keys, vals, ks[i]))
  }

  /**
   * Summing group by group over the groups that share an outer key is summing once by the
   * outer key. Both sides of a double sum over the same rows meet here.
   */
  lemma {:induction false} SumOfBuckets(outer: seq<nat>, inner: seq<nat>, vals: seq<int>, k: nat)
    requires |inner| == |vals|
    requires forall i | 0 <= i < |inner| :: inner[i] < |outer|
    ensures Sum(Buckets(inner, vals, Pick(outer, k))) == Bucket(Compose(outer, inner), vals, k)
  {
    var ks := Pick(outer, k);
    if inner == [] {
      SumOfZeros(Buckets(inner, vals, ks));
    } else {
      var n := |inner| - 1;
      SumOfBuckets(outer, inner[..n], vals[..n], k);
      assert Compose(outer, inner)[..n] == Compose(outer, inner[..n]);
      OneMoreRow(Buckets(inner[..n], vals[..n], ks), Buckets(inner, vals, ks), outer, k, inner[n], vals[n]);
    }
  }

  /** Adding `val` to the group `key` moves the total over the picked groups by `val` exactly when `key` is picked. */
  lemma {:induction false} OneMoreRow(before: seq<int>, after: seq<int>, outer: seq<nat>, k: nat, key: nat, val: int)
    requires |before| == |after| == |Pick(outer, k)|
    requires forall i | 0 <= i < |after| :: after[i] == before[i] + if Pick(outer, k)[i] == key then val else 0
    requires key < |outer|
    ensures Sum(after) == Sum(before) + if outer[key] == k then val else 0
  {
    var n := |outer| - 1;
    var ks := Pick(outer, k);
    if key == n {
      if outer[n] == k {
        var m := |ks| - 1;
        assert ks == Pick(outer[..n], k) + [n];
        assert forall i | 0 <= i < m :: ks[i] in Pick(outer[..n], k);
        assert after[..m] == before[..m];
      } else {
        assert ks == Pick(outer[..n], k);
        assert forall i | 0 <= i < |ks| :: ks[i] in ks;
        assert after == before;
      }
    } else {
      if outer[n] == k {
        var m := |ks| - 1;
        assert ks == Pick(outer[..n], k) + [n];
        OneMoreRow(before[..m], after[..m], outer[..n], k, key, val);
      } else {
        assert ks == Pick(outer[..n], k);
        OneMoreRow(before, after, outer[..n], k, key, val);
      }
    }
  }

  lemma SumOfZeros(xs: seq<int>)
    requires forall i | 0 <= i < |xs| :: xs[i] == 0
    ensures Sum(xs) == 0
  {
    if xs != [] {
      SumOfZeros(xs[..|xs| - 1]);
    }
  }

  lemma {:induction false} SumPlus(xs: seq<int>, ys: seq<int>, zs: seq<int>)
    requires |xs| == |ys| == |zs|
    requires forall i | 0 <= i < |xs| :: zs[i] == xs[i] + ys[i]
    ensures Sum(zs) == Sum(xs) + Sum(ys)
  {
    if xs != [] {
      var n := |xs| - 1;
      SumPlus(xs[..n], ys[..n], zs[..n]);
    }
  }

  lemma HasItsFirst<R>(rows: seq<R>)
    ensures rows == [] || rows[0] in rows
  {
  }

  // ---------------------------------------------------------------- sums do not depend on order

  function Total<R>(rows: seq<R>, amountOf: R -> int): int {
    if rows == [] then 0 else Total(rows[..|rows| - 1], amountOf) + amountOf(rows[|rows| - 1])
  }

  lemma {:induction false} TotalWithout<R>(rows: seq<R>, amountOf: R -> int, i: nat)
    requires i < |rows|
    ensures Total(rows, amountOf) == Total(rows[..i] + rows[i + 1..], amountOf) + amountOf(rows[i])
  {
    var n := |rows| - 1;
    if i == n {
      assert rows[..i] + rows[i + 1..] == rows[..n];
    } else {
      TotalWithout(rows[..n], amountOf, i);
      var rest := rows[..i] + rows[i + 1..];
      assert rest[..|rest| - 1] == rows[..n][..i] + rows[..n][i + 1..];
    }
  }

  lemma {:induction false} SameTotal<R(!new)>(s: seq<R>, t: seq<R>, amountOf: R -> int)
    requires NoDuplicates(s) && NoDuplicates(t) && forall r :: r in s <==> r in t
    ensures Total(s, amountOf) == Total(t, amountOf)
  {
    HasItsFirst(t);
    if s != [] {
      var n := |s| - 1;
      assert s[n] in s;
      var i :| 0 <= i < |t| && t[i] == s[n];
      var rest := t[..i] + t[i + 1..];
      forall r ensures r in s[..n] <==> r in rest {
        WithoutLast(s, r);
        Without(t, i, r);
      }
      SameTotal(s[..n], rest, amountOf);
      TotalWithout(t, amountOf, i);
    }
  }

  lemma WithoutLast<R>(s: seq<R>, r: R)
    requires NoDuplicates(s) && s != []
    ensures r in s[..|s| - 1] <==> r in s && r != s[|s| - 1]
  {
    if r in s && r != s[|s| - 1] {
      var i :| 0 <= i < |s| && s[i] == r;
      assert s[..|s| - 1][i] == r;
    }
  }

  lemma Without<R>(t: seq<R>, i: nat, r: R)
    requires NoDuplicates(t) && i < |t|
    ensures NoDuplicates(t[..i] + t[i + 1..])
    ensures r in t[..i] + t[i + 1..] <==> r in t && r != t[i]
  {
    var rest := t[..i] + t[i + 1..];
    forall j | 0 <= j < |rest| ensures rest[j] == if j < i then t[j] else t[j + 1] {
    }
    if r in t && r != t[i] {
      var j :| 0 <= j < |t| && t[j] == r;
      assert rest[if j < i then j else j - 1] == r;
    }
  }
}
