/** Why a set of blocks that step in any order comes to an end: the steps they have left, added up. */
module Schedules {
  import opened Scan

  /** The members of a set in some order. */
  lemma Listing<K(!new)>(s: set<K>) returns (ks: seq<K>)
    ensures forall x :: x in s <==> x in ks
  {
    if s == {} {
      ks := [];
    } else {
      var x :| x in s;
      var rest := Listing(s - {x});
      ks := [x] + rest;
    }
  }

  /** left[x] over the listed members. */
  ghost function StepsLeft<K>(left: map<K, int>, ks: seq<K>): int {
    if ks == [] then 0 else StepsLeft(left, ks[1..]) + if ks[0] in left then left[ks[0]] else 0
  }

  /** One member with fewer steps left makes the sum smaller. */
  lemma {:induction false} FewerLeft<K>(left: map<K, int>, x: K, v: int, ks: seq<K>)
    requires x in left && v < left[x]
    ensures StepsLeft(left[x := v], ks) <= StepsLeft(left, ks)
    ensures x in ks ==> StepsLeft(left[x := v], ks) < StepsLeft(left, ks)
  {
    if ks != [] {
      FewerLeft(left, x, v, ks[1..]);
    }
  }

  lemma {:induction false} StepsNatural<K(!new)>(left: map<K, int>, ks: seq<K>)
    requires forall x :: x in left ==> left[x] >= 0
    ensures StepsLeft(left, ks) >= 0
  {
    if ks != [] {
      StepsNatural(left, ks[1..]);
    }
  }

  lemma OneMore(ts: set<nat>, t: nat)
    requires t !in ts
    ensures |ts + {t}| == |ts| + 1
  {}

  lemma {:induction false} ThreadCount(n: nat)
    ensures |Threads(n)| == n
  {
    if n > 0 {
      ThreadCount(n - 1);
      var before := Threads(n - 1);
      OneMore(before, n - 1);
      assert Threads(n) == before + {n - 1};
    }
  }

  lemma FewerPending(ts: set<nat>, t: nat)
    requires t in ts
    ensures |ts - {t}| == |ts| - 1
  {}
}
