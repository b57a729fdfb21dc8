/** Which copy of a Codex item is the one that is shown: the newest completed item, and the first
  * response item in root-first order. */
module CodexNewest {
  import opened Base
  import opened CodexOwnership

  // ---------------------------------------------------------------- completed items

  function OrderAt(files: seq<File>, session: string, key: Key, k: nat, i: nat): nat
    requires Site(files, session, key, k, i)
  {
    files[k].lines[i].what.order
  }

  /** No line behind file `j`, up to line `n` of file `k`, completes the item with a larger order. */
  ghost predicate Unbeaten(files: seq<File>, session: string, key: Key, order: nat, j: nat, k: nat, n: nat) {
    forall m: nat, l: nat :: Site(files, session, key, m, l) && j < m && (m < k || (m == k && l < n)) ==>
      OrderAt(files, session, key, m, l) <= order
  }

  lemma {:induction false} UnbeatenIn(files: seq<File>, session: string, key: Key, k: nat, n: nat, j: nat)
    requires Distinguished(files) && k < |files| && files[k].live && n <= |files[k].lines|
    requires key in ClaimLines(Claims(files, k, session), files[k], n, session)
    requires j < |files|
             && ClaimLines(Claims(files, k, session), files[k], n, session)[key].objectId == files[j].objectId
    ensures Unbeaten(files, session, key, ClaimLines(Claims(files, k, session), files[k], n, session)[key].order,
            j, k, n)
    decreases k, n + 1
  {
    if n == 0 {
      UnbeatenUpTo(files, session, key, k, j);
    } else {
      var before := ClaimLines(Claims(files, k, session), files[k], n - 1, session);
      if key in before && before[key].objectId == files[j].objectId && j != k {
        UnbeatenIn(files, session, key, k, n - 1, j);
      }
    }
  }

  lemma {:induction false} UnbeatenUpTo(files: seq<File>, session: string, key: Key, k: nat, j: nat)
    requires Distinguished(files) && k <= |files| && key in Claims(files, k, session)
    requires j < |files| && Claims(files, k, session)[key].objectId == files[j].objectId
    ensures Unbeaten(files, session, key, Claims(files, k, session)[key].order, j, k, 0)
    decreases k, 0
  {
    if files[k - 1].live {
      UnbeatenIn(files, session, key, k - 1, |files[k - 1].lines|, j);
    } else {
      UnbeatenUpTo(files, session, key, k - 1, j);
    }
  }

  /** Some line of file `j` completes the item with a larger order than `order`. */
  ghost predicate Beats(files: seq<File>, session: string, key: Key, j: nat, order: nat) {
    exists i: nat :: Site(files, session, key, j, i) && OrderAt(files, session, key, j, i) > order
  }

  /** The owning file took the item from the owner before it, if there was one, by a larger order. */
  lemma {:induction false} TakesOverIn(files: seq<File>, session: string, key: Key, k: nat, n: nat, j: nat)
    requires Distinguished(files) && k < |files| && files[k].live && n <= |files[k].lines|
    requires key in ClaimLines(Claims(files, k, session), files[k], n, session)
    requires j < |files|
             && ClaimLines(Claims(files, k, session), files[k], n, session)[key].objectId == files[j].objectId
    ensures key in Claims(files, j, session) ==> Beats(files, session, key, j, Claims(files, j, session)[key].order)
    decreases k, n + 1
  {
    if n == 0 {
      TakesOverUpTo(files, session, key, k, j);
    } else {
      var before := ClaimLines(Claims(files, k, session), files[k], n - 1, session);
      if key in before && before[key].objectId == files[j].objectId {
        TakesOverIn(files, session, key, k, n - 1, j);
      } else {
        assert j == k && Site(files, session, key, k, n - 1);
        if key in Claims(files, k, session) {
          OwnerBeforeTaking(files, session, key, k, n - 1);
        }
      }
    }
  }

  lemma {:induction false} TakesOverUpTo(files: seq<File>, session: string, key: Key, k: nat, j: nat)
    requires Distinguished(files) && k <= |files| && key in Claims(files, k, session)
    requires j < |files| && Claims(files, k, session)[key].objectId == files[j].objectId
    ensures key in Claims(files, j, session) ==> Beats(files, session, key, j, Claims(files, j, session)[key].order)
    decreases k, 0
  {
    if files[k - 1].live {
      TakesOverIn(files, session, key, k - 1, |files[k - 1].lines|, j);
    } else {
      TakesOverUpTo(files, session, key, k - 1, j);
    }
  }

  /** Until file `k` takes the item, its owner is the one before the file. */
  lemma {:induction false} OwnerBeforeTaking(files: seq<File>, session: string, key: Key, k: nat, n: nat)
    requires k < |files| && n <= |files[k].lines| && key in Claims(files, k, session)
    requires var owners := ClaimLines(Claims(files, k, session), files[k], n, session);
             key !in owners || owners[key].objectId != files[k].objectId
    ensures key in ClaimLines(Claims(files, k, session), files[k], n, session)
    ensures ClaimLines(Claims(files, k, session), files[k], n, session)[key] == Claims(files, k, session)[key]
  {
    if n > 0 {
      ClaimedStays(Claims(files, k, session), files[k], n - 1, session, key);
      OwnerBeforeTaking(files, session, key, k, n - 1);
    }
  }

  /** In each file the orders of the item do not decrease. */
  ghost predicate OrdersRise(files: seq<File>, session: string, key: Key) {
    forall k: nat, i: nat, l: nat :: i <= l && Site(files, session, key, k, i) && Site(files, session, key, k, l) ==>
      OrderAt(files, session, key, k, i) <= OrderAt(files, session, key, k, l)
  }

  /** Up to line `n` of file `k` nothing is newer than `order`, and nothing as new stands before
    * file `j`. */
  ghost predicate Newest(files: seq<File>, session: string, key: Key, order: nat, j: nat, k: nat, n: nat) {
    forall m: nat, l: nat :: Site(files, session, key, m, l) && (m < k || (m == k && l < n)) ==>
      OrderAt(files, session, key, m, l) <= order && (OrderAt(files, session, key, m, l) == order ==> j <= m)
  }

  lemma {:induction false} NewestIn(files: seq<File>, session: string, key: Key, k: nat, n: nat, j: nat, i: nat)
    requires Distinguished(files) && OrdersRise(files, session, key)
    requires k < |files| && files[k].live && n <= |files[k].lines|
    requires key in ClaimLines(Claims(files, k, session), files[k], n, session)
    requires OwnerIs(files, session, key, ClaimLines(Claims(files, k, session), files[k], n, session)[key], j, i)
    requires j <= k
    ensures Newest(files, session, key, ClaimLines(Claims(files, k, session), files[k], n, session)[key].order, j, k, n)
    decreases k, n + 1
  {
    if n == 0 {
      NewestUpTo(files, session, key, k, j, i);
    } else if key in ClaimLines(Claims(files, k, session), files[k], n - 1, session) {
      var before := ClaimLines(Claims(files, k, session), files[k], n - 1, session);
      var a, b := OwnedIn(files, session, key, k, n - 1);
      NewestIn(files, session, key, k, n - 1, a, b);
      NewestLine(files, session, key, before, k, n - 1, a, b, j, i);
    } else {
      UnclaimedHasNoSite(files, session, key, k, n - 1);
    }
  }

  lemma NewestLine(files: seq<File>, session: string, key: Key, before: map<Key, Owner>, k: nat, n: nat,
                   a: nat, b: nat, j: nat, i: nat)
    requires Distinguished(files) && OrdersRise(files, session, key)
    requires k < |files| && files[k].live && n < |files[k].lines| && key in before
    requires OwnerIs(files, session, key, before[key], a, b) && a <= k && (a == k ==> b < n)
    requires Newest(files, session, key, before[key].order, a, k, n)
    requires OwnerIs(files, session, key, ClaimLine(before, files[k], files[k].lines[n], session)[key], j, i)
    ensures Newest(files, session, key, ClaimLine(before, files[k], files[k].lines[n], session)[key].order, j, k, n + 1)
  {
    var after := ClaimLine(before, files[k], files[k].lines[n], session);
    if Site(files, session, key, k, n) {
      if after[key].objectId == files[k].objectId {
        assert j == k;
      } else {
        assert j == a;
      }
    } else {
      assert after[key] == before[key] && j == a;
    }
  }

  lemma ClaimedAt(files: seq<File>, session: string, key: Key, k: nat, n: nat, m: nat, l: nat)
    requires k < |files| && files[k].live && n <= |files[k].lines|
    requires Site(files, session, key, m, l) && (m < k || (m == k && l < n))
    ensures key in ClaimLines(Claims(files, k, session), files[k], n, session)
  {
    if m < k {
      SiteIsOwned(files, session, key, k, m, l);
      ClaimedStays(Claims(files, k, session), files[k], n, session, key);
    } else {
      SeenClaims(Claims(files, k, session), files[k], n, session, l);
    }
  }

  /** An item that nobody owns yet was not completed yet. */
  lemma UnclaimedHasNoSite(files: seq<File>, session: string, key: Key, k: nat, n: nat)
    requires k < |files| && files[k].live && n <= |files[k].lines|
    requires key !in ClaimLines(Claims(files, k, session), files[k], n, session)
    ensures forall m: nat, l: nat :: m < k || (m == k && l < n) ==> !Site(files, session, key, m, l)
  {
    forall m: nat, l: nat | m < k || (m == k && l < n)
      ensures !Site(files, session, key, m, l)
    {
      if Site(files, session, key, m, l) {
        ClaimedAt(files, session, key, k, n, m, l);
      }
    }
  }

  lemma {:induction false} NewestUpTo(files: seq<File>, session: string, key: Key, k: nat, j: nat, i: nat)
    requires Distinguished(files) && OrdersRise(files, session, key)
    requires k <= |files| && key in Claims(files, k, session)
    requires OwnerIs(files, session, key, Claims(files, k, session)[key], j, i)
    ensures Newest(files, session, key, Claims(files, k, session)[key].order, j, k, 0)
    decreases k, 0
  {
    var a, b := Owned(files, session, key, k);
    assert a == j;
    if files[k - 1].live {
      NewestIn(files, session, key, k - 1, |files[k - 1].lines|, j, i);
    } else {
      NewestUpTo(files, session, key, k - 1, j, i);
    }
  }

  /** Main result. The line that shows a completed item beats every line of the files behind it, and
    * its file beat the line shown before it. Where orders do not decrease within a file, it is the
    * newest of all, in the first file that has one as new. */
  lemma NewestIsShown(files: seq<File>, session: string, key: Key, j: nat, l: nat)
    requires Distinguished(files) && ShownAt(files, session, j, l, ShownCompleted(key))
    ensures Site(files, session, key, j, l)
    ensures Unbeaten(files, session, key, OrderAt(files, session, key, j, l), j, |files|, 0)
    ensures key in Claims(files, j, session) ==> Beats(files, session, key, j, Claims(files, j, session)[key].order)
    ensures OrdersRise(files, session, key) ==>
              Newest(files, session, key, OrderAt(files, session, key, j, l), j, |files|, 0)
  {
    hide ShownAt, Inspect, Unbeaten, Newest, Beats, OrdersRise;
    ShownIsLive(files, session, j, l, ShownCompleted(key));
    CompletedShown(files, session, key, j, l);
    var a, b := Owned(files, session, key, |files|);
    SamePlace(files, a, b, j, l);
    UnbeatenUpTo(files, session, key, |files|, j);
    TakesOverUpTo(files, session, key, |files|, j);
    if OrdersRise(files, session, key) {
      NewestUpTo(files, session, key, |files|, j, l);
    }
  }

  // ---------------------------------------------------------------- response items

  /** Supplements are accepted exactly behind a turn context that no boundary has ended. */
  lemma {:induction false} AcceptsExactly(f: File, n: nat)
    requires n <= |f.lines|
    ensures Accepts(f, n) <==> exists t :: 0 <= t < n && f.lines[t].what.TurnContext?
                                           && forall i :: t < i < n ==> !f.lines[i].what.Boundary?
  {
    if n > 0 {
      AcceptsExactly(f, n - 1);
      if f.lines[n - 1].what.TurnContext? {
        assert 0 <= n - 1 < n;
      } else if Accepts(f, n) {
        var t :| 0 <= t < n - 1 && f.lines[t].what.TurnContext?
                 && forall i :: t < i < n - 1 ==> !f.lines[i].what.Boundary?;
        assert forall i :: t < i < n ==> !f.lines[i].what.Boundary?;
      }
    }
  }

  /** No line of `f` before line `n` offers the item. */
  ghost predicate NotOffered(f: File, n: nat, id: string) {
    forall i: nat :: i < n ==> !OffersId(f, i, id)
  }

  lemma {:induction false} FirstLine(owners: map<string, Place>, f: File, n: nat, id: string) returns (i: nat)
    requires n <= |f.lines| && id in OwnLines(owners, f, n) && id !in owners
    ensures i < n && OffersId(f, i, id) && NotOffered(f, i, id)
    ensures OwnLines(owners, f, n)[id] == Place(f.objectId, f.lines[i].start)
  {
    hide Offers;
    if id in OwnLines(owners, f, n - 1) {
      i := FirstLine(owners, f, n - 1, id);
    } else {
      i := n - 1;
      OwnLinesKeeps(owners, f, n - 1, id);
    }
  }

  lemma {:induction false} FirstFile(files: seq<File>, n: nat, id: string) returns (k: nat, i: nat)
    requires n <= |files| && id in OwnFiles(files, n)
    ensures k < n && OffersId(files[k], i, id) && NotOffered(files[k], i, id)
    ensures OwnFiles(files, n)[id] == Place(files[k].objectId, files[k].lines[i].start)
    ensures forall m: nat :: m < k ==> NotOffered(files[m], |files[m].lines|, id)
  {
    hide OwnLines, OffersId;
    var before := OwnFiles(files, n - 1);
    OwnLinesKeeps(before, files[n - 1], |files[n - 1].lines|, id);
    if id in before {
      k, i := FirstFile(files, n - 1, id);
    } else {
      k := n - 1;
      i := FirstLine(before, files[k], |files[k].lines|, id);
      forall m: nat, l: nat | m < k && l < |files[m].lines|
        ensures !OffersId(files[m], l, id)
      {
        if OffersId(files[m], l, id) {
          OfferedIsOwned(files, k, k, id, m, l);
        }
      }
    }
  }

  /** Root-first order keeps the files of one thread kind in their order. */
  lemma {:induction false} SelectKeepsOrder(files: seq<File>, root: bool, session: string, k: nat, m: nat)
    requires Distinguished(files) && k < |files| && m < |Select(files, root, session)|
    requires Select(files, root, session)[m].objectId == files[k].objectId
    ensures forall j :: 0 <= j < k && files[j].live && ((files[j].threadId == session) == root) ==>
              exists l :: 0 <= l < m && Select(files, root, session)[l] == files[j]
  {
    var rest := Select(files[1..], root, session);
    var head := files[0].live && (files[0].threadId == session) == root;
    if k > 0 {
      assert !(head && m == 0);
      var n := if head then m - 1 else m;
      assert forall j :: 0 <= j < |files| - 1 ==> files[1..][j] == files[j + 1];
      TailDistinguished(files);
      SelectKeepsOrder(files[1..], root, session, k - 1, n);
      forall j | 0 <= j < k && files[j].live && ((files[j].threadId == session) == root)
        ensures exists l :: 0 <= l < m && Select(files, root, session)[l] == files[j]
      {
        if j == 0 {
          assert Select(files, root, session)[0] == files[0];
        } else {
          var l :| 0 <= l < n && rest[l] == files[1..][j - 1];
          assert Select(files, root, session)[if head then l + 1 else l] == files[j];
        }
      }
    }
  }

  lemma TailDistinguished(files: seq<File>)
    requires Distinguished(files) && files != []
    ensures Distinguished(files[1..])
  {
    assert forall j :: 0 <= j < |files| - 1 ==> files[1..][j] == files[j + 1];
  }

  /** `a` comes before `b` where root files go first. */
  predicate GoesFirst(files: seq<File>, session: string, a: nat, b: nat)
    requires a < |files| && b < |files|
  {
    var roots := files[a].threadId == session;
    if roots == (files[b].threadId == session) then a < b else roots
  }

  lemma OrderedBefore(files: seq<File>, session: string, k: nat, n: nat, m: nat)
    requires Distinguished(files) && k < |files| && files[k].live
    requires n < |RootFirst(files, session)| && RootFirst(files, session)[n] == files[k]
    requires m < |files| && files[m].live && GoesFirst(files, session, m, k)
    ensures exists l: nat :: l < n && RootFirst(files, session)[l] == files[m]
  {
    var roots := |Select(files, true, session)|;
    var root := files[k].threadId == session;
    assert n < roots <==> root by {
      if n < roots {
        var at := SelectFrom(files, true, session, n);
      } else {
        var at := SelectFrom(files, false, session, n - roots);
      }
    }
    if (files[m].threadId == session) == root {
      SelectKeepsOrder(files, root, session, k, if root then n else n - roots);
      var l :| 0 <= l < (if root then n else n - roots) && Select(files, root, session)[l] == files[m];
      assert RootFirst(files, session)[if root then l else roots + l] == files[m];
    } else {
      var l := SelectHas(files, true, session, m);
      assert RootFirst(files, session)[l] == files[m];
    }
  }

  /** Main result. A response item is shown at the first line that offers it, in the first live file
    * that offers it, where files of the root thread go first. */
  lemma FirstIsShown(files: seq<File>, session: string, id: string, k: nat, i: nat)
    requires Distinguished(files) && ShownAt(files, session, k, i, ShownResponse(Some(id)))
    ensures k < |files| && files[k].live && OffersId(files[k], i, id) && NotOffered(files[k], i, id)
    ensures forall m: nat :: m < |files| && files[m].live && GoesFirst(files, session, m, k) ==>
              NotOffered(files[m], |files[m].lines|, id)
  {
    hide ShownAt, OffersId, RootFirst, OwnFiles, Select;
    ShownIsLive(files, session, k, i, ShownResponse(Some(id)));
    ResponseShown(files, session, id, k, i);
    var ordered := RootFirst(files, session);
    var n, l := FirstFile(ordered, |ordered|, id);
    var at := OrderFrom(files, session, n);
    OffersInside(files[at], l, id);
    SamePlace(files, at, l, k, i);
    forall m: nat | m < |files| && files[m].live && GoesFirst(files, session, m, k)
      ensures NotOffered(files[m], |files[m].lines|, id)
    {
      OrderedBefore(files, session, k, n, m);
      var b: nat :| b < n && RootFirst(files, session)[b] == files[m];
    }
  }
}
