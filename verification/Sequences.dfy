/** Small functions and facts about numbers, sequences, maps and sets that several modules need. */
module Sequences {

  /** `s[:n]` for a non-negative n. */
  function Head<T>(s: seq<T>, n: nat): (r: seq<T>)
    ensures |r| == Min(n, |s|) && r <= s
  {
    if n <= |s| then s[..n] else s
  }

  function Max(a: int, b: int): (m: int)
    ensures a <= m && b <= m && (m == a || m == b)
  {
    if a >= b then a else b
  }

  function Min(a: int, b: int): (m: int)
    ensures m <= a && m <= b && (m == a || m == b)
  {
    if a <= b then a else b
  }

  ghost predicate Distinct<T>(s: seq<T>) {
    forall i, j :: 0 <= i < j < |s| ==> s[i] != s[j]
  }

  lemma Regroup<T>(a: seq<T>, b: seq<T>, c: seq<T>)
    ensures a + (b + c) == a + b + c
  {
  }

  lemma TailOfConcat<T>(a: seq<T>, b: seq<T>)
    requires a != []
    ensures (a + b)[0] == a[0] && (a + b)[1..] == a[1..] + b
  {
  }

  lemma InitOfConcat<T>(a: seq<T>, b: seq<T>)
    requires b != []
    ensures (a + b)[..|a + b| - 1] == a + b[..|b| - 1] && (a + b)[|a + b| - 1] == b[|b| - 1]
  {
  }

  lemma SliceJoin<T>(s: seq<T>, i: nat, j: nat)
    requires i <= j <= |s|
    ensures s[i..j] + s[j..] == s[i..]
  {
  }

  lemma SliceOfSlice<T>(s: seq<T>, i: nat, j: nat, from: nat, to: nat)
    requires i <= j <= |s| && from <= to <= j - i
    ensures s[i..j][from..to] == s[i + from..i + to]
  {
    forall k | 0 <= k < to - from
      ensures s[i..j][from..to][k] == s[i + from..i + to][k]
    {
      assert s[i..j][from + k] == s[i + (from + k)];
    }
  }

  /** Storing what is there already changes nothing. */
  lemma StoreSame<K, V>(m: map<K, V>, k: K)
    requires k in m
    ensures m[k := m[k]] == m
  {
  }

  lemma {:induction false} SubsetSize<T>(a: set<T>, b: set<T>)
    requires a <= b
    ensures |a| <= |b|
    ensures |a| == |b| ==> a == b
  {
    if a != {} {
      var x :| x in a;
      SubsetSize(a - {x}, b - {x});
    }
  }

  function Range(n: nat): set<nat> {
    if n == 0 then {} else Range(n - 1) + {n - 1}
  }

  lemma {:induction false} RangeFacts(n: nat)
    ensures |Range(n)| == n
    ensures forall i: nat :: i in Range(n) <==> i < n
  {
    if n > 0 {
      RangeFacts(n - 1);
    }
  }

  function Elements(s: seq<nat>): set<nat> {
    if s == [] then {} else Elements(s[1..]) + {s[0]}
  }

  lemma {:induction false} ElementsFacts(s: seq<nat>)
    ensures forall i :: 0 <= i < |s| ==> s[i] in Elements(s)
    ensures forall x :: x in Elements(s) ==> exists i :: 0 <= i < |s| && s[i] == x
  {
    if s != [] {
      ElementsFacts(s[1..]);
      forall x | x in Elements(s[1..])
        ensures exists i :: 0 <= i < |s| && s[i] == x
      {
        var i :| 0 <= i < |s[1..]| && s[1..][i] == x;
        assert s[i + 1] == x;
      }
    }
  }

  lemma {:induction false} DistinctSize(s: seq<nat>)
    requires Distinct(s)
    ensures |Elements(s)| == |s|
  {
    if s != [] {
      DistinctSize(s[1..]);
      ElementsFacts(s[1..]);
    }
  }

  /** Pigeonhole: `n` distinct numbers below `n` are all of them. */
  lemma Pigeonhole(s: seq<nat>, i: nat) returns (k: nat)
    requires (forall j :: 0 <= j < |s| ==> s[j] < |s|) && Distinct(s)
    requires i < |s|
    ensures k < |s| && s[k] == i
  {
    DistinctSize(s);
    ElementsFacts(s);
    RangeFacts(|s|);
    SubsetSize(Elements(s), Range(|s|));
    assert i in Elements(s);
    k :| 0 <= k < |s| && s[k] == i;
  }
}
