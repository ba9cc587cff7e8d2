/** Facts about collections used by several modules. */
module Collections {
  lemma AnElement<T>(s: set<T>) returns (x: T)
    requires |s| != 0
    ensures x in s
  {
    x :| x in s;
  }

  lemma SubsetSize<T>(a: set<T>, b: set<T>)
    requires a <= b
    ensures |a| <= |b|
    decreases |a|
  {
    if |a| != 0 {
      var x := AnElement(a);
      SubsetSize(a - {x}, b - {x});
    }
  }

  lemma AKey<K, V>(m: map<K, V>, v: V) returns (k: K)
    requires v in m.Values
    ensures k in m && m[k] == v
  {
    k :| k in m && m[k] == v;
  }

  function Elements<T>(s: seq<T>): set<T> {
    set x | x in s
  }

  lemma ElementsConcat<T>(s: seq<T>, t: seq<T>)
    ensures Elements(s + t) == Elements(s) + Elements(t)
  {
  }

  lemma ElementsSnoc<T>(s: seq<T>, x: T)
    ensures Elements(s + [x]) == Elements(s) + {x}
  {
  }

  lemma {:induction false} ElementsBound<T>(s: seq<T>)
    ensures |Elements(s)| <= |s|
  {
    if s != [] {
      var s0, x := s[..|s| - 1], s[|s| - 1];
      ElementsBound(s0);
      ElementsSnoc(s0, x);
      assert s == s0 + [x];
    }
  }

  lemma {:induction false} DistinctSize<T>(s: seq<T>)
    requires forall i: nat, j: nat :: i < j < |s| ==> s[i] != s[j]
    ensures |Elements(s)| == |s|
  {
    if s != [] {
      var s0, x := s[..|s| - 1], s[|s| - 1];
      DistinctSize(s0);
      assert Elements(s) == Elements(s0) + {x};
      assert x !in s0;
    }
  }

  function Below(n: nat): (s: set<nat>)
    ensures forall i: nat :: i in s <==> i < n
    ensures |s| == n
  {
    if n == 0 then {} else Below(n - 1) + {n - 1}
  }

  /** n distinct numbers below n leave none out. */
  lemma Pigeonhole(s: seq<nat>, n: nat, missing: nat)
    requires |s| == n && missing < n
    requires forall i: nat :: i < n ==> s[i] < n
    requires forall i: nat, j: nat :: i < j < n ==> s[i] != s[j]
    ensures missing in s
  {
    if missing !in s {
      DistinctSize(s);
      forall x | x in Elements(s) ensures x in Below(n) - {missing} {
        var i: nat :| i < |s| && s[i] == x;
      }
      SubsetSize(Elements(s), Below(n) - {missing});
      assert false;
    }
  }

  function Sum(s: seq<nat>): nat {
    if s == [] then 0 else s[0] + Sum(s[1..])
  }

  lemma {:induction false} SumUpdate(s: seq<nat>, k: nat, x: nat)
    requires k < |s|
    ensures Sum(s[k := x]) + s[k] == Sum(s) + x
  {
    if k == 0 {
      assert s[k := x][1..] == s[1..];
    } else {
      SumUpdate(s[1..], k - 1, x);
      assert s[k := x][1..] == s[1..][k - 1 := x];
    }
  }

  lemma {:induction false} SumSnoc(s: seq<nat>, x: nat)
    ensures Sum(s + [x]) == Sum(s) + x
  {
    if s == [] {
      assert [] + [x] == [x] && [x][1..] == [];
    } else {
      SumSnoc(s[1..], x);
      assert (s + [x])[1..] == s[1..] + [x];
    }
  }

  lemma {:induction false} SumMonotone(s: seq<nat>, t: seq<nat>)
    requires |s| == |t| && forall i: nat :: i < |s| ==> s[i] <= t[i]
    ensures Sum(s) <= Sum(t)
    ensures (exists i: nat :: i < |s| && s[i] < t[i]) ==> Sum(s) < Sum(t)
  {
    if s != [] {
      SumMonotone(s[1..], t[1..]);
      if i: nat :| 0 < i < |s| && s[i] < t[i] { assert s[1..][i - 1] < t[1..][i - 1]; }
    }
  }

  // ---- sorting by a key, largest first; equal keys keep their order ----

  function InsertByKey<T>(x: T, s: seq<T>, key: T -> int): seq<T> {
    if s == [] || key(x) > key(s[0]) then [x] + s else [s[0]] + InsertByKey(x, s[1..], key)
  }

  function SortByKey<T>(s: seq<T>, key: T -> int): seq<T> {
    if s == [] then [] else InsertByKey(s[|s| - 1], SortByKey(s[..|s| - 1], key), key)
  }

  predicate Descending<T>(s: seq<T>, key: T -> int) {
    forall i: nat, j: nat :: i < j < |s| ==> key(s[i]) >= key(s[j])
  }

  lemma {:induction false} InsertByKeyBound<T>(x: T, s: seq<T>, key: T -> int, b: int)
    requires key(x) <= b && forall j: nat :: j < |s| ==> key(s[j]) <= b
    ensures forall j: nat :: j < |InsertByKey(x, s, key)| ==> key(InsertByKey(x, s, key)[j]) <= b
  {
    if s != [] && key(x) <= key(s[0]) { InsertByKeyBound(x, s[1..], key, b); }
  }

  lemma {:induction false} InsertByKeyKeeps<T>(x: T, s: seq<T>, key: T -> int)
    ensures multiset(InsertByKey(x, s, key)) == multiset(s) + multiset{x}
  {
    if s != [] && key(x) <= key(s[0]) {
      InsertByKeyKeeps(x, s[1..], key);
      assert s == [s[0]] + s[1..];
    } else {
      assert [x] + s == InsertByKey(x, s, key);
    }
  }

  lemma {:induction false} InsertByKeySorts<T>(x: T, s: seq<T>, key: T -> int)
    requires Descending(s, key)
    ensures Descending(InsertByKey(x, s, key), key)
  {
    if s != [] && key(x) <= key(s[0]) {
      InsertByKeySorts(x, s[1..], key);
      InsertByKeyBound(x, s[1..], key, key(s[0]));
    }
  }

  lemma {:induction false} SortByKeySorts<T>(s: seq<T>, key: T -> int)
    ensures Descending(SortByKey(s, key), key)
    ensures multiset(SortByKey(s, key)) == multiset(s)
  {
    if s != [] {
      SortByKeySorts(s[..|s| - 1], key);
      InsertByKeySorts(s[|s| - 1], SortByKey(s[..|s| - 1], key), key);
      InsertByKeyKeeps(s[|s| - 1], SortByKey(s[..|s| - 1], key), key);
      assert s == s[..|s| - 1] + [s[|s| - 1]];
    }
  }

  // ---- the same elements in another order ----

  lemma Twice<T>(s: seq<T>, j: nat, k: nat)
    requires j < k < |s| && s[j] == s[k]
    ensures multiset(s)[s[j]] >= 2
  {
    assert s == s[..j] + [s[j]] + s[j + 1..k] + [s[k]] + s[k + 1..];
  }

  lemma Once<T>(s: seq<T>, a: nat)
    requires a < |s| && forall i: nat, j: nat :: i < j < |s| ==> s[i] != s[j]
    ensures multiset(s)[s[a]] == 1
  {
    assert s == s[..a] + [s[a]] + s[a + 1..];
    assert s[a] !in s[..a] && s[a] !in s[a + 1..];
  }

  lemma DistinctPermuted<T>(s: seq<T>, t: seq<T>)
    requires multiset(s) == multiset(t)
    requires forall i: nat, j: nat :: i < j < |s| ==> s[i] != s[j]
    ensures forall i: nat, j: nat :: i < j < |t| ==> t[i] != t[j]
  {
    forall i: nat, j: nat | i < j < |t| ensures t[i] != t[j] {
      assert t[i] in multiset(t);
      var a: nat :| a < |s| && s[a] == t[i];
      Once(s, a);
      if t[i] == t[j] { Twice(t, i, j); }
    }
  }

  lemma SameElements<T>(s: seq<T>, t: seq<T>)
    requires multiset(s) == multiset(t)
    ensures |s| == |t| && forall x :: x in s <==> x in t
  {
    assert |multiset(s)| == |multiset(t)|;
    forall x ensures x in s <==> x in t {
      assert x in s <==> x in multiset(s);
      assert x in t <==> x in multiset(t);
    }
  }
}
