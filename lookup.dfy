/**
 * The list searches the service leans on: the first element with a property
 * (LINQ's FirstOrDefault), and the distinct values of a list in order of first
 * appearance (a list grown with Contains/Add).
 */
module Lookup {
  import opened Wrappers

  /** The first element of `s` that satisfies `p`, or None when there is none. */
  function FirstWhere<T>(s: seq<T>, p: T -> bool): (r: Option<T>)
    ensures r.None? <==> forall k :: 0 <= k < |s| ==> !p(s[k])
    ensures r.Some? ==> exists k :: 0 <= k < |s| && s[k] == r.value && p(s[k]) && forall j :: 0 <= j < k ==> !p(s[j])
  {
    if s == [] then None
    else if p(s[0]) then Some(s[0])
    else
      var r := FirstWhere(s[1..], p);
      assert r.Some? ==> exists k :: 0 < k < |s| && s[k] == r.value && p(s[k]) && forall j :: 0 <= j < k ==> !p(s[j]) by {
        if r.Some? {
          var k :| 0 <= k < |s[1..]| && s[1..][k] == r.value && p(s[1..][k]) && forall j :: 0 <= j < k ==> !p(s[1..][j]);
          assert forall j :: 1 <= j < k + 1 ==> !p(s[j]) by {
            forall j | 1 <= j < k + 1 ensures !p(s[j]) { assert s[j] == s[1..][j - 1]; }
          }
        }
      }
      r
  }

  /** `f` applied to every element of `s`, in order, or None as soon as `f` fails on one (a loop that throws midway). */
  function CollectAll<T, U>(s: seq<T>, f: T -> Option<U>): (r: Option<seq<U>>)
    ensures r.Some? <==> forall k :: 0 <= k < |s| ==> f(s[k]).Some?
    ensures r.Some? ==> |r.value| == |s| && forall k :: 0 <= k < |s| ==> r.value[k] == f(s[k]).value
  {
    if s == [] then Some([])
    else
      var n := |s| - 1;
      var init := CollectAll(s[..n], f);
      assert forall k :: 0 <= k < n ==> s[..n][k] == s[k];
      if init.None? || f(s[n]).None? then None else Some(init.value + [f(s[n]).value])
  }

  /** No value occurs twice in `s`. */
  predicate NoDuplicates(s: seq<int>) {
    forall i, j :: 0 <= i < j < |s| ==> s[i] != s[j]
  }

  /** The values of `s`, each once, in the order in which they first appear. */
  function Distinct(s: seq<int>): (d: seq<int>)
    ensures forall x :: x in d <==> x in s
    ensures NoDuplicates(d)
  {
    if s == [] then []
    else
      var d := Distinct(s[..|s| - 1]);
      assert s == s[..|s| - 1] + [s[|s| - 1]];
      if s[|s| - 1] in d then d else d + [s[|s| - 1]]
  }

  /** Appending a value to the input appends it to the distinct values exactly when it is new. */
  lemma DistinctSnoc(s: seq<int>, x: int)
    ensures Distinct(s + [x]) == if x in s then Distinct(s) else Distinct(s) + [x]
  {
  }

  /** The position of the first occurrence of `x` in `s`. */
  function IndexOf(s: seq<int>, x: int): (k: nat)
    requires x in s
    ensures k < |s| && s[k] == x
    ensures forall m :: 0 <= m < k ==> s[m] != x
  {
    if s[0] == x then 0 else 1 + IndexOf(s[1..], x)
  }

  /** Extending a list does not move the first occurrence of a value already in it. */
  lemma IndexOfPrefix(p: seq<int>, q: seq<int>, x: int)
    requires x in p
    ensures IndexOf(p + q, x) == IndexOf(p, x)
  {
    var k := IndexOf(p, x);
    assert (p + q)[k] == x;
    assert forall m :: 0 <= m < |p| ==> (p + q)[m] == p[m];
  }

  /** The distinct values come in the order of their first appearance in the input. */
  lemma {:induction false} DistinctFirstAppearanceOrder(s: seq<int>, i: int, j: int)
    requires 0 <= i < j < |Distinct(s)|
    ensures IndexOf(s, Distinct(s)[i]) < IndexOf(s, Distinct(s)[j])
  {
    var p, x := s[..|s| - 1], s[|s| - 1];
    assert s == p + [x];
    var d, d' := Distinct(s), Distinct(p);
    if j < |d'| {
      assert d[i] == d'[i] && d[j] == d'[j];
      DistinctFirstAppearanceOrder(p, i, j);
      IndexOfPrefix(p, [x], d[i]);
      IndexOfPrefix(p, [x], d[j]);
    } else {
      assert x !in p && d[j] == x && d[i] == d'[i];
      IndexOfPrefix(p, [x], d[i]);
      assert IndexOf(s, x) == |p| by {
        assert forall m :: 0 <= m < |p| ==> s[m] == p[m];
      }
    }
  }
}
