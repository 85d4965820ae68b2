/** The smaller of two numbers, and sequences without repetitions. */
module Sequences {

  function Min(a: int, b: int): int { if a <= b then a else b }

  ghost predicate Distinct<T>(s: seq<T>) {
    forall i, j :: 0 <= i < j < |s| ==> s[i] != s[j]
  }

  function Elements<T(!new)>(s: seq<T>): (r: set<T>)
    ensures forall x :: x in r <==> x in s
  {
    set x | x in s
  }

  lemma {:induction false} DistinctSize<T(!new)>(s: seq<T>)
    requires Distinct(s)
    ensures |Elements(s)| == |s|
  {
    if s != [] {
      var front := s[..|s| - 1];
      DistinctSize(front);
      assert s == front + [s[|s| - 1]];
      assert Elements(s) == Elements(front) + {s[|s| - 1]};
    }
  }

  lemma DistinctAppend<T>(a: seq<T>, b: seq<T>)
    requires Distinct(a) && Distinct(b)
    requires forall x :: x in a ==> x !in b
    ensures Distinct(a + b)
  {
    forall i, j | 0 <= i < j < |a + b| ensures (a + b)[i] != (a + b)[j] {
      if i < |a| <= j {
        assert a[i] in a && b[j - |a|] in b;
      }
    }
  }

  /** Splitting a repetition-free sequence puts each element on one side only. */
  lemma DistinctSplit<T>(s: seq<T>, k: nat)
    requires Distinct(s) && k <= |s|
    ensures Distinct(s[..k]) && Distinct(s[k..])
    ensures forall x :: x in s <==> x in s[..k] || x in s[k..]
    ensures forall x :: x in s[..k] ==> x !in s[k..]
  {
    assert s == s[..k] + s[k..];
  }

  lemma SomethingInside<T(!new)>(s: seq<T>)
    ensures s == [] || exists x :: x in s
  {
    if s != [] {
      assert s[0] in s;
    }
  }

  lemma DistinctNext<T(!new)>(s: seq<T>, i: nat)
    requires Distinct(s) && i < |s|
    ensures s[i] !in Elements(s[..i])
    ensures Elements(s[..i + 1]) == Elements(s[..i]) + {s[i]}
  {
  }

  ghost predicate Before<T(!new)>(list: seq<T>, a: T, b: T) {
    exists i, j :: 0 <= i < j < |list| && list[i] == a && list[j] == b
  }

  lemma BeforeGrows<T(!new)>(list: seq<T>, list': seq<T>, a: T, b: T)
    requires Before(list, a, b) && list <= list'
    ensures Before(list', a, b)
  {
    var i, j :| 0 <= i < j < |list| && list[i] == a && list[j] == b;
    assert list'[i] == a && list'[j] == b;
  }

  lemma BeforeShrinks<T(!new)>(list: seq<T>, n: nat, a: T, b: T)
    requires Before(list, a, b) && Distinct(list) && n <= |list| && a in list[n..]
    ensures Before(list[n..], a, b)
  {
    var i, j :| 0 <= i < j < |list| && list[i] == a && list[j] == b;
    assert list[n..][i - n] == a && list[n..][j - n] == b;
  }

  /** Of a repetition-free sequence, a head that has `b` has what is before it. */
  lemma BeforeInHead<T(!new)>(list: seq<T>, n: nat, a: T, b: T)
    requires Before(list, a, b) && Distinct(list) && n <= |list| && b in list[..n]
    ensures Before(list[..n], a, b)
  {
    var i, j :| 0 <= i < j < |list| && list[i] == a && list[j] == b;
    assert list[..n][i] == a && list[..n][j] == b;
  }

  lemma BeforeAppended<T(!new)>(list: seq<T>, more: seq<T>, a: T, b: T)
    requires a in list && b in more
    ensures Before(list + more, a, b)
  {
    var i :| 0 <= i < |list| && list[i] == a;
    var j :| 0 <= j < |more| && more[j] == b;
    assert (list + more)[i] == a && (list + more)[|list| + j] == b;
  }
}
