/** What several parts of the model share: optional values, and sequences without repetition. */
module Basics {

  datatype Option<+T> = None | Some(value: T)

  predicate Distinct(s: seq<nat>) {
    forall i, j :: 0 <= i < j < |s| ==> s[i] != s[j]
  }

  /** The numbers below m. */
  ghost function UpTo(m: nat): (r: set<nat>)
    ensures |r| == m && forall j: nat :: j in r <==> j < m
  {
    if m == 0 then {} else UpTo(m - 1) + {m - 1}
  }

  ghost function Elements(s: seq<nat>): (r: set<nat>)
    ensures forall x :: x in r <==> x in s
    ensures Distinct(s) ==> |r| == |s|
  {
    if s == [] then {} else
      assert s == s[..|s| - 1] + [s[|s| - 1]];
      Elements(s[..|s| - 1]) + {s[|s| - 1]}
  }

  /** Distinct numbers below m: fewer than m of them leave a gap, m of them none. */
  lemma Pigeonhole(s: seq<nat>, m: nat)
    requires Distinct(s) && forall i :: 0 <= i < |s| ==> s[i] < m
    ensures |s| <= m
    ensures |s| == m <==> forall j: nat :: j < m ==> j in s
  {
    var a, b := Elements(s), UpTo(m);
    assert a <= b;
    assert |b - a| == |b| - |a| by { assert b == a + (b - a); }
    if |s| == m {
      assert b - a == {};
    } else {
      assert b - a != {};
      var j :| j in b - a;
      assert j < m && j !in s;
    }
  }
}
