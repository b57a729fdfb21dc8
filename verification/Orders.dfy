/** Two lists of the same names: when they are in the same order, and where they differ. */
module Orders {
  import opened Base

  lemma FirstIn(a: seq<string>)
    ensures a == [] || a[0] in a
  {
  }

  /** Two lists of the same elements, both ranked in order, are the same list. */
  lemma {:induction false} SameOrder(a: seq<string>, b: seq<string>, rank: map<string, nat>)
    requires (forall u :: u in a <==> u in b) && (forall u :: u in a ==> u in rank)
    requires forall i, j :: 0 <= i < j < |a| ==> rank[a[i]] < rank[a[j]]
    requires forall i, j :: 0 <= i < j < |b| ==> rank[b[i]] < rank[b[j]]
    ensures a == b
  {
    if a == [] {
      FirstIn(b);
    } else {
      assert a[0] in b && b != [];
      assert b[0] in a;
      var i :| 0 <= i < |a| && a[i] == b[0];
      var j :| 0 <= j < |b| && b[j] == a[0];
      assert a[0] == b[0];
      forall u
        ensures u in a[1..] <==> u in b[1..]
      {
        TailHas(a, u, rank);
        TailHas(b, u, rank);
      }
      SameOrder(a[1..], b[1..], rank);
      assert a == [a[0]] + a[1..] && b == [b[0]] + b[1..];
    }
  }

  lemma TailHas(a: seq<string>, u: string, rank: map<string, nat>)
    requires a != [] && (forall u :: u in a ==> u in rank)
             && forall i, j :: 0 <= i < j < |a| ==> rank[a[i]] < rank[a[j]]
    ensures u in a[1..] <==> u in a && u != a[0]
  {
    if u in a[1..] {
      var k :| 0 <= k < |a[1..]| && a[1..][k] == u;
      assert a[k + 1] == u;
    }
  }

  lemma {:induction false} PrefixSet(ids: seq<string>, k: nat)
    requires Distinct(ids) && k <= |ids|
    ensures |(set i | 0 <= i < k :: ids[i])| == k
  {
    if k > 0 {
      PrefixSet(ids, k - 1);
      assert (set i | 0 <= i < k :: ids[i]) == (set i | 0 <= i < k - 1 :: ids[i]) + {ids[k - 1]};
    }
  }

  /** Where the two orders differ. */
  lemma {:induction false} FirstDifference(a: seq<string>, b: seq<string>) returns (x: nat)
    requires |a| == |b| && a != b
    ensures x < |a| && a[x] != b[x]
  {
    if a[0] != b[0] {
      x := 0;
    } else {
      assert a == [a[0]] + a[1..] && b == [b[0]] + b[1..];
      x := FirstDifference(a[1..], b[1..]);
      x := x + 1;
    }
  }
}
