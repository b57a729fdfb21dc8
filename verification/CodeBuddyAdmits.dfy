/** Which CodeBuddy histories are admitted, read off the records: what may repeat, which rows may
  * share an id, and which results a group of calls must have. */
module CodeBuddyAdmits {
  import opened Base
  import opened CodeBuddyRows
  import opened CodeBuddyRecords

  // ---------------------------------------------------------------- the first pass

  /** The last record among the first `n` that is no repeat. */
  ghost function LastFirst(records: seq<Record>, n: nat): Option<Record>
    requires n <= |records|
  {
    if n == 0 then None else if First(records, n - 1) then Some(records[n - 1]) else LastFirst(records, n - 1)
  }

  /** A record has an id. A repeat has the same bytes as before; a further row of a known id is a
    * call among calls, right behind the others. */
  ghost predicate RecordFits(records: seq<Record>, n: nat)
    requires n < |records|
  {
    var r := records[n];
    && r.id != "" && (r.kind.FunctionCall? ==> r.callId != "")
    && (forall j :: 0 <= j < n && SameKey(records[j], r) ==> records[j].json == r.json)
    && (First(records, n) && (exists j :: 0 <= j < n && records[j].id == r.id) ==>
          && CallOf(r) != "" && (forall j :: 0 <= j < n && records[j].id == r.id ==> CallOf(records[j]) != "")
          && LastFirst(records, n).Some? && LastFirst(records, n).value.id == r.id)
  }

  lemma {:induction false} LastIsFirst(records: seq<Record>, n: nat)
    requires n <= |records|
    ensures Firsts(records, n) == [] <==> LastFirst(records, n).None?
    ensures Firsts(records, n) != [] ==> LastFirst(records, n) == Some(Firsts(records, n)[|Firsts(records, n)| - 1])
  {
    hide First;
    if n > 0 {
      LastIsFirst(records, n - 1);
    }
  }

  lemma FromKept(records: seq<Record>, n: nat, unique: seq<Entry>, i: nat) returns (j: nat)
    requires n <= |records| && Drawn(records, n, unique) && i < |unique|
    ensures j < n && records[j] == unique[i].record
  {
    assert DrawnFrom(records, n, unique[i].record);
    j :| 0 <= j < n && records[j] == unique[i].record;
  }

  lemma ToKept(records: seq<Record>, n: nat, unique: seq<Entry>, j: nat) returns (i: nat)
    requires n <= |records| && AllCovered(records, n, unique) && j < n
    ensures i < |unique| && SameKey(unique[i].record, records[j]) && unique[i].record.json == records[j].json
  {
    assert Covered(unique, records[j]);
    i :| 0 <= i < |unique| && SameKey(unique[i].record, records[j]) && unique[i].record.json == records[j].json;
  }

  lemma OneKept(unique: seq<Entry>, i: nat, j: nat)
    requires KeysDistinct(unique) && i < |unique| && j < |unique| && SameKey(unique[i].record, unique[j].record)
    ensures i == j
  {
    var a, b := unique[i].record, unique[j].record;
    assert SameKey(b, a);
  }

  /** The bytes on record for a key are those of every record with the key. */
  lemma VariantIs(records: seq<Record>, n: nat, unique: seq<Entry>, r: Record)
    requires n <= |records| && AllCovered(records, n, unique) && Drawn(records, n, unique) && KeysDistinct(unique)
    ensures Variant(unique, r.id, CallOf(r)).None? <==> forall j :: 0 <= j < n ==> !SameKey(records[j], r)
    ensures Variant(unique, r.id, CallOf(r)).Some? ==>
              forall j :: 0 <= j < n && SameKey(records[j], r) ==>
                records[j].json == Variant(unique, r.id, CallOf(r)).value
  {
    hide Variant, AllCovered, Drawn, KeysDistinct;
    var v := Variant(unique, r.id, CallOf(r));
    VariantSays(unique, r.id, CallOf(r));
    forall j | 0 <= j < n && SameKey(records[j], r)
      ensures v.Some? && records[j].json == v.value
    {
      var i := ToKept(records, n, unique, j);
      assert SameKey(unique[i].record, r);
      var l :| 0 <= l < |unique| && unique[l].record.id == r.id && CallOf(unique[l].record) == CallOf(r)
               && unique[l].record.json == v.value;
      OneKept(unique, i, l);
    }
    if v.Some? {
      var l :| 0 <= l < |unique| && unique[l].record.id == r.id && CallOf(unique[l].record) == CallOf(r);
      var j := FromKept(records, n, unique, l);
      assert SameKey(records[j], r);
    }
  }

  lemma VariantSays(unique: seq<Entry>, id: string, call: string)
    ensures var v := Variant(unique, id, call);
            && (v.None? ==> forall k :: 0 <= k < |unique| ==>
                  unique[k].record.id != id || CallOf(unique[k].record) != call)
            && (v.Some? ==> exists k :: 0 <= k < |unique| && unique[k].record.id == id
                                        && CallOf(unique[k].record) == call && unique[k].record.json == v.value)
  {
  }

  lemma SeenIs(records: seq<Record>, n: nat, unique: seq<Entry>, id: string)
    requires n <= |records| && AllCovered(records, n, unique) && Drawn(records, n, unique)
    ensures Seen(unique, id) <==> exists j :: 0 <= j < n && records[j].id == id
    ensures Variant(unique, id, "").Some? <==> exists j :: 0 <= j < n && records[j].id == id && CallOf(records[j]) == ""
  {
    hide Variant, AllCovered, Drawn;
    VariantSays(unique, id, "");
    if Seen(unique, id) {
      var i :| 0 <= i < |unique| && unique[i].record.id == id;
      var j := FromKept(records, n, unique, i);
    }
    if Variant(unique, id, "").Some? {
      var i :| 0 <= i < |unique| && unique[i].record.id == id && CallOf(unique[i].record) == "";
      var j := FromKept(records, n, unique, i);
    }
    forall j | 0 <= j < n && records[j].id == id
      ensures Seen(unique, id) && (CallOf(records[j]) == "" ==> Variant(unique, id, "").Some?)
    {
      var i := ToKept(records, n, unique, j);
    }
  }

  /** A record is admitted behind admitted ones exactly if it fits them. */
  lemma RecordAdmittedExactly(records: seq<Record>, n: nat)
    requires n < |records| && Collect(records, n).Ok?
    ensures Collect(records, n + 1).Ok? <==> RecordFits(records, n)
  {
    hide Firsts, LastFirst, AllCovered, Drawn, Variant, Seen, SiblingAt, KeysDistinct, Collect;
    var unique, r := Collect(records, n).value, records[n];
    CollectNext(records, n);
    OnlyRepeatsDropped(records, n);
    CollectGroups(records, n);
    VariantIs(records, n, unique, r);
    SeenIs(records, n, unique, r.id);
    LastIsFirst(records, n);
    FirstMeans(records, n);
    assert unique != [] ==> Records(unique)[|unique| - 1] == unique[|unique| - 1].record;
    if Seen(unique, r.id) {
      SeenSome(unique, r.id);
    }
  }

  lemma SeenSome(unique: seq<Entry>, id: string)
    requires Seen(unique, id)
    ensures unique != []
  {
  }

  lemma FirstMeans(records: seq<Record>, n: nat)
    requires n < |records|
    ensures First(records, n) <==> forall j :: 0 <= j < n ==> !SameKey(records[j], records[n])
  {
  }

  lemma CollectNext(records: seq<Record>, n: nat)
    requires n < |records| && Collect(records, n).Ok?
    ensures Collect(records, n + 1) == Admit(Collect(records, n).value, records[n])
  {
  }

  // ---------------------------------------------------------------- the second pass

  /** `count` results from `from` on: each answers a call of the group by its name, no two the same. */
  ghost predicate Results(unique: seq<Entry>, from: nat, count: nat, calls: map<string, string>) {
    && from + count <= |unique|
    && (forall k :: from <= k < from + count ==>
          AnswersOne(calls, unique[k].record) && unique[k].record.callId != "")
    && (forall j, k :: from <= j < k < from + count ==> unique[j].record.callId != unique[k].record.callId)
  }

  lemma {:induction false} ResultsExactly(unique: seq<Entry>, from: nat, count: nat, calls: map<string, string>)
    requires count > 0
    ensures TakeResults(unique, from, count, calls) <==> Results(unique, from, count, calls)
    decreases count
  {
    if from < |unique| {
      var r := unique[from].record;
      var rest := calls - {r.callId};
      if count > 1 {
        ResultsExactly(unique, from + 1, count - 1, rest);
        hide TakeResults;
        if Results(unique, from + 1, count - 1, rest) && r.callId in calls {
          forall k | from < k < from + count
            ensures AnswersOne(calls, unique[k].record) && unique[k].record.callId != r.callId
          {
            assert AnswersOne(rest, unique[k].record);
          }
        }
        if Results(unique, from, count, calls) {
          forall k | from < k < from + count
            ensures AnswersOne(rest, unique[k].record)
          {
            assert AnswersOne(calls, unique[k].record);
          }
        }
      }
    }
  }

  /** A group that starts at `at`: more than one row of an id are ordinary calls of one response, of
    * which only the last carries counters, and a result for each of them follows at once. */
  ghost predicate GroupFits(unique: seq<Entry>, at: nat)
    requires at < |unique|
  {
    var end := GroupEnd(unique, at);
    end > at + 1 ==>
      && unique[at].record.identified
      && (forall k :: at <= k < end ==> CallFits(unique[at].record, unique[k].record, k == end - 1))
      && Results(unique, end, end - at, Awaited(unique, at, end))
  }

  ghost predicate AllGroupsFit(unique: seq<Entry>, from: nat) {
    forall at :: from <= at < |unique| && !unique[at].sibling ==> GroupFits(unique, at)
  }

  lemma {:induction false} GroupsExactly(unique: seq<Entry>, at: nat)
    requires at < |unique| ==> !unique[at].sibling
    ensures GroupsComplete(unique, at) <==> AllGroupsFit(unique, at)
    decreases |unique| - at
  {
    if at < |unique| {
      var end := GroupEnd(unique, at);
      GroupsExactly(unique, end);
      ResultsExactly(unique, end, end - at, Awaited(unique, at, end));
      hide TakeResults, Results, Awaited, GroupEnd;
      assert GroupFits(unique, at) <==> GroupComplete(unique, at, end);
      hide GroupFits, GroupComplete, CallFits;
    }
  }

  /** The calls whose results a group waits for are its own, each under its name. */
  lemma AwaitedExactly(unique: seq<Entry>, at: nat, id: string)
    requires Grouped(unique) && at < |unique| && CallsOf(unique, at, GroupEnd(unique, at), id)
    ensures AwaitsCalls(unique, at, GroupEnd(unique, at), Awaited(unique, at, GroupEnd(unique, at)))
  {
    AwaitedCalls(unique, at, GroupEnd(unique, at), id);
  }

  /** A history of admitted records is admitted as a whole exactly if each of its groups fits. */
  lemma HistoryAdmittedExactly(records: seq<Record>)
    ensures HistoryRecords(records).Ok? <==>
            Collect(records, |records|).Ok? && AllGroupsFit(Collect(records, |records|).value, 0)
    ensures HistoryRecords(records).Ok? ==> HistoryRecords(records) == Collect(records, |records|)
  {
    if Collect(records, |records|).Ok? {
      CollectGroups(records, |records|);
      var unique := Collect(records, |records|).value;
      FirstIsNoSibling(unique);
      GroupsExactly(unique, 0);
    }
    hide Collect, GroupsComplete, AllGroupsFit;
  }

  lemma FirstIsNoSibling(unique: seq<Entry>)
    requires Grouped(unique)
    ensures 0 < |unique| ==> !unique[0].sibling
  {
    assert 0 < |unique| ==> SiblingAt(unique, 0);
  }
}
