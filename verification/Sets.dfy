/** Sizes of finite sets, as the counting arguments of several models need them. */
module Sets {
  function Upto(n: nat): (s: set<nat>)
    ensures |s| == n && forall i :: i in s <==> 0 <= i < n
  {
    if n == 0 then {} else Upto(n - 1) + {n - 1}
  }

  lemma {:induction false} SubsetSize<T>(a: set<T>, b: set<T>)
    requires a <= b
    ensures |a| <= |b|
  {
    if a != {} {
      var x :| x in a;
      SubsetSize(a - {x}, b - {x});
    }
  }

  lemma {:induction false} SeqSize(ring: seq<nat>)
    requires forall i, j :: 0 <= i < j < |ring| ==> ring[i] != ring[j]
    ensures |set i | 0 <= i < |ring| :: ring[i]| == |ring|
  {
    if ring != [] {
      var k := |ring| - 1;
      SeqSize(ring[..k]);
      var front := set i | 0 <= i < k :: ring[..k][i];
      assert (set i | 0 <= i < |ring| :: ring[i]) == front + {ring[k]};
    }
  }

  lemma {:induction false} SetAtMost(s: seq<nat>)
    ensures |set i | 0 <= i < |s| :: s[i]| <= |s|
  {
    if s != [] {
      var k := |s| - 1;
      SetAtMost(s[..k]);
      assert (set i | 0 <= i < |s| :: s[i]) == (set i | 0 <= i < k :: s[..k][i]) + {s[k]};
    }
  }

  lemma {:induction false} IntervalSize(s: set<nat>, lo: nat, n: nat)
    requires forall x :: x in s ==> lo <= x < lo + n
    ensures |s| <= n
    decreases n
  {
    if n == 0 {
      assert s == {};
    } else {
      IntervalSize(s - {lo + n - 1}, lo, n - 1);
    }
  }

  lemma {:induction false} IntervalExact(s: set<nat>, lo: nat, n: nat)
    requires forall x: nat :: x in s <==> lo <= x < lo + n
    ensures |s| == n
    decreases n
  {
    if n == 0 {
      assert s == {};
    } else {
      IntervalExact(s - {lo + n - 1}, lo, n - 1);
    }
  }
}
