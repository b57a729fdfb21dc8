/** `historyRecords`: admission of a CodeBuddy history. Repeats of a record are dropped when
  * they are byte-identical, tool siblings that share a row id stay together, and a sibling
  * group counts only when every call of it has its result. */
module CodeBuddyRecords {
  import opened Base
  import opened CodeBuddyRows

  /** The second half of a record's key. */
  function CallOf(r: Record): string {
    if r.kind.FunctionCall? then r.callId else ""
  }

  predicate SameKey(a: Record, b: Record) {
    a.id == b.id && CallOf(a) == CallOf(b)
  }

  // ---------------------------------------------------------------- the first pass

  /** The bytes under which a key was first seen. */
  function Variant(unique: seq<Entry>, id: string, call: string): (r: Option<string>)
    ensures r.None? ==> forall k :: 0 <= k < |unique| ==> unique[k].record.id != id || CallOf(unique[k].record) != call
    ensures r.Some? ==> exists k :: 0 <= k < |unique| && unique[k].record.id == id && CallOf(unique[k].record) == call
                                    && unique[k].record.json == r.value
  {
    if unique == [] then None
    else
      var last := unique[|unique| - 1].record;
      if last.id == id && CallOf(last) == call then Some(last.json) else Variant(unique[..|unique| - 1], id, call)
  }

  predicate Seen(unique: seq<Entry>, id: string) {
    exists k :: 0 <= k < |unique| && unique[k].record.id == id
  }

  function Admit(unique: seq<Entry>, r: Record): Result<seq<Entry>> {
    var call := CallOf(r);
    if r.id == "" || (r.kind.FunctionCall? && call == "") then Err(Format)
    else if Variant(unique, r.id, call).Some? then
      if Variant(unique, r.id, call).value != r.json then Err(Unsupported) else Ok(unique)
    else
      var sibling := Seen(unique, r.id);
      if sibling && (call == "" || Variant(unique, r.id, "").Some? || unique[|unique| - 1].record.id != r.id) then
        Err(Unsupported)
      else Ok(unique + [Entry(r, sibling)])
  }

  function Collect(records: seq<Record>, n: nat): Result<seq<Entry>>
    requires n <= |records|
  {
    if n == 0 then Ok([])
    else var before :- Collect(records, n - 1);
         Admit(before, records[n - 1])
  }

  // ---------------------------------------------------------------- the second pass

  /** The end of the sibling group that starts at `at`. */
  function GroupEnd(unique: seq<Entry>, at: nat): (end: nat)
    requires at < |unique|
    ensures at < end <= |unique|
    ensures forall k :: at < k < end ==> unique[k].sibling
    ensures end < |unique| ==> !unique[end].sibling
    decreases |unique| - at
  {
    if at + 1 < |unique| && unique[at + 1].sibling then GroupEnd(unique, at + 1) else at + 1
  }

  predicate CallFits(first: Record, r: Record, last: bool) {
    r.kind.FunctionCall? && r.ordinary && r.response == first.response && (last || !r.usage)
  }

  /** Every member is an ordinary call of the same response. */
  predicate CallsFit(unique: seq<Entry>, at: nat, end: nat)
    requires at < end <= |unique|
  {
    unique[at].record.identified
    && forall k :: at <= k < end ==> CallFits(unique[at].record, unique[k].record, k == end - 1)
  }

  /** The names of the calls that still need a result. */
  function Awaited(unique: seq<Entry>, at: nat, end: nat): map<string, string>
    requires at <= end <= |unique|
  {
    if at == end then map[]
    else Awaited(unique, at, end - 1)[unique[end - 1].record.callId := unique[end - 1].record.name]
  }

  /** The next `count` records are results, each of a call that has none yet. */
  predicate TakeResults(unique: seq<Entry>, from: nat, count: nat, calls: map<string, string>)
    decreases count
  {
    count == 0
    || (from < |unique|
        && var r := unique[from].record;
           && r.kind.FunctionResult? && r.callId != "" && r.callId in calls && calls[r.callId] == r.name
           && TakeResults(unique, from + 1, count - 1, calls - {r.callId}))
  }

  predicate GroupComplete(unique: seq<Entry>, at: nat, end: nat)
    requires at < end <= |unique|
  {
    end == at + 1 || (CallsFit(unique, at, end) && TakeResults(unique, end, end - at, Awaited(unique, at, end)))
  }

  predicate GroupsComplete(unique: seq<Entry>, at: nat)
    decreases |unique| - at
  {
    at >= |unique|
    || (GroupComplete(unique, at, GroupEnd(unique, at)) && GroupsComplete(unique, GroupEnd(unique, at)))
  }

  function HistoryRecords(records: seq<Record>): Result<seq<Entry>> {
    var unique :- Collect(records, |records|);
    if GroupsComplete(unique, 0) then Ok(unique) else Err(Format)
  }

  // ---------------------------------------------------------------- what the first pass keeps

  ghost predicate KeysDistinct(unique: seq<Entry>) {
    forall i, j :: 0 <= i < j < |unique| ==> !SameKey(unique[i].record, unique[j].record)
  }

  /** An entry is a sibling exactly when it shares its row id with the entry before it, and
    * rows that share an id are calls. */
  ghost predicate SiblingAt(unique: seq<Entry>, k: nat)
    requires k < |unique|
  {
    && unique[k].record.id != "" && (unique[k].record.kind.FunctionCall? ==> unique[k].record.callId != "")
    && (unique[k].sibling <==> k > 0 && unique[k - 1].record.id == unique[k].record.id)
    && (unique[k].sibling ==> CallOf(unique[k].record) != "" && CallOf(unique[k - 1].record) != "")
    && (!unique[k].sibling ==> forall j :: 0 <= j < k ==> unique[j].record.id != unique[k].record.id)
  }

  ghost predicate Grouped(unique: seq<Entry>) {
    KeysDistinct(unique) && forall k :: 0 <= k < |unique| ==> SiblingAt(unique, k)
  }

  lemma AdmitKeeps(unique: seq<Entry>, r: Record)
    requires Grouped(unique) && Admit(unique, r).Ok?
    ensures Grouped(Admit(unique, r).value)
  {
    var after := Admit(unique, r).value;
    if after != unique {
      var n := |unique|;
      forall k | 0 <= k < |after|
        ensures SiblingAt(after, k)
      {
        if k < n {
          assert SiblingAt(unique, k);
        }
      }
    }
  }

  lemma {:induction false} CollectGroups(records: seq<Record>, n: nat)
    requires n <= |records| && Collect(records, n).Ok?
    ensures Grouped(Collect(records, n).value)
  {
    hide Admit, Grouped;
    if n > 0 {
      CollectGroups(records, n - 1);
      AdmitKeeps(Collect(records, n - 1).value, records[n - 1]);
    } else {
      NothingGrouped();
    }
  }

  lemma NothingGrouped()
    ensures Grouped([])
  {
  }

  /** No earlier record has the key of record `k`. */
  ghost predicate First(records: seq<Record>, k: nat)
    requires k < |records|
  {
    forall j :: 0 <= j < k ==> !SameKey(records[j], records[k])
  }

  ghost function Firsts(records: seq<Record>, n: nat): seq<Record>
    requires n <= |records|
  {
    if n == 0 then [] else Firsts(records, n - 1) + if First(records, n - 1) then [records[n - 1]] else []
  }

  function Records(unique: seq<Entry>): (r: seq<Record>)
    ensures |r| == |unique|
    ensures forall k :: 0 <= k < |unique| ==> r[k] == unique[k].record
  {
    seq(|unique|, k requires 0 <= k < |unique| => unique[k].record)
  }

  /** Record `k` has an entry with its key, and the bytes agree. */
  ghost predicate Covered(unique: seq<Entry>, r: Record) {
    exists i :: 0 <= i < |unique| && SameKey(unique[i].record, r) && unique[i].record.json == r.json
  }

  lemma CoveredStill(unique: seq<Entry>, r: Record, more: seq<Entry>)
    requires Covered(unique, r)
    ensures Covered(unique + more, r)
  {
    var i :| 0 <= i < |unique| && SameKey(unique[i].record, r) && unique[i].record.json == r.json;
    assert (unique + more)[i] == unique[i];
  }

  lemma AdmitCovers(unique: seq<Entry>, r: Record)
    requires Admit(unique, r).Ok?
    ensures Covered(Admit(unique, r).value, r)
    ensures Admit(unique, r).value == unique || Admit(unique, r).value == unique + [Entry(r, Seen(unique, r.id))]
    ensures Admit(unique, r).value == unique <==> HasKey(unique, r)
  {
    var after := Admit(unique, r).value;
    if after != unique {
      assert after[|unique|].record == r;
    }
  }

  ghost predicate DrawnFrom(records: seq<Record>, n: nat, r: Record)
    requires n <= |records|
  {
    exists j :: 0 <= j < n && records[j] == r
  }

  ghost predicate Drawn(records: seq<Record>, n: nat, unique: seq<Entry>)
    requires n <= |records|
  {
    forall i :: 0 <= i < |unique| ==> DrawnFrom(records, n, unique[i].record)
  }

  lemma DrawnMore(records: seq<Record>, n: nat, unique: seq<Entry>, sibling: bool)
    requires n < |records| && Drawn(records, n, unique)
    ensures Drawn(records, n + 1, unique) && Drawn(records, n + 1, unique + [Entry(records[n], sibling)])
  {
    forall i | 0 <= i < |unique|
      ensures DrawnFrom(records, n + 1, unique[i].record)
    {
      assert DrawnFrom(records, n, unique[i].record);
    }
    assert DrawnFrom(records, n + 1, records[n]);
  }

  ghost predicate AllCovered(records: seq<Record>, n: nat, unique: seq<Entry>)
    requires n <= |records|
  {
    forall k :: 0 <= k < n ==> Covered(unique, records[k])
  }

  ghost predicate HasKey(unique: seq<Entry>, r: Record) {
    exists i :: 0 <= i < |unique| && SameKey(unique[i].record, r)
  }

  lemma FirstIsNew(records: seq<Record>, k: nat, unique: seq<Entry>)
    requires k < |records| && AllCovered(records, k, unique) && Drawn(records, k, unique)
    ensures First(records, k) <==> !HasKey(unique, records[k])
  {
    if HasKey(unique, records[k]) {
      var i :| 0 <= i < |unique| && SameKey(unique[i].record, records[k]);
      assert DrawnFrom(records, k, unique[i].record);
      assert !First(records, k);
    } else {
      forall j | 0 <= j < k
        ensures !SameKey(records[j], records[k])
      {
        assert Covered(unique, records[j]);
      }
    }
  }

  lemma CoveredMore(records: seq<Record>, n: nat, unique: seq<Entry>, after: seq<Entry>, more: seq<Entry>)
    requires n < |records| && AllCovered(records, n, unique) && Covered(after, records[n]) && after == unique + more
    ensures AllCovered(records, n + 1, after)
  {
    hide Covered;
    forall k | 0 <= k < n
      ensures Covered(after, records[k])
    {
      CoveredStill(unique, records[k], more);
    }
  }

  /** Main result. What is kept is each key's first record, in order, and every record that is
    * dropped has the same bytes as the kept one of its key. */
  lemma {:induction false} OnlyRepeatsDropped(records: seq<Record>, n: nat)
    requires n <= |records| && Collect(records, n).Ok?
    ensures Records(Collect(records, n).value) == Firsts(records, n)
    ensures AllCovered(records, n, Collect(records, n).value)
    ensures Drawn(records, n, Collect(records, n).value)
  {
    hide Admit, Covered, First, Drawn, HasKey;
    if n == 0 {
      NothingDrawn(records);
    } else {
      OnlyRepeatsDropped(records, n - 1);
      var before, r := Collect(records, n - 1).value, records[n - 1];
      var after, entry := Collect(records, n).value, Entry(r, Seen(before, r.id));
      AdmitCovers(before, r);
      FirstIsNew(records, n - 1, before);
      DrawnMore(records, n - 1, before, entry.sibling);
      if after == before {
        assert before + [] == after;
        CoveredMore(records, n - 1, before, after, []);
      } else {
        CoveredMore(records, n - 1, before, after, [entry]);
        assert Records(after) == Records(before) + [r];
      }
    }
  }

  lemma NothingDrawn(records: seq<Record>)
    ensures Drawn(records, 0, [])
  {
  }

  // ---------------------------------------------------------------- idempotence

  /** Entries with one row id are adjacent, and all are calls when there is more than one. */
  lemma {:induction false} Contiguous(unique: seq<Entry>, j: nat, m: nat)
    requires Grouped(unique) && j < m < |unique| && unique[j].record.id == unique[m].record.id
    ensures unique[m].sibling
    ensures forall k :: j <= k <= m ==> unique[k].record.id == unique[m].record.id && CallOf(unique[k].record) != ""
  {
    assert SiblingAt(unique, m);
    if j < m - 1 {
      Contiguous(unique, j, m - 1);
    }
  }

  lemma ReadmitOne(unique: seq<Entry>, m: nat)
    requires Grouped(unique) && m < |unique|
    ensures Admit(unique[..m], unique[m].record) == Ok(unique[..m + 1])
  {
    var before, r := unique[..m], unique[m].record;
    assert SiblingAt(unique, m);
    assert Variant(before, r.id, CallOf(r)).None? by {
      forall k | 0 <= k < |before|
        ensures before[k].record.id != r.id || CallOf(before[k].record) != CallOf(r)
      {
        assert !SameKey(unique[k].record, unique[m].record);
      }
    }
    if unique[m].sibling {
      assert before[m - 1].record.id == r.id;
      forall k | 0 <= k < |before| && before[k].record.id == r.id
        ensures CallOf(before[k].record) != ""
      {
        Contiguous(unique, k, m);
      }
    }
    assert Seen(before, r.id) == unique[m].sibling;
    assert unique[..m] + [unique[m]] == unique[..m + 1];
  }

  lemma {:induction false} Readmit(unique: seq<Entry>, m: nat)
    requires Grouped(unique) && m <= |unique|
    ensures Collect(Records(unique), m) == Ok(unique[..m])
  {
    hide Admit, Grouped;
    if m > 0 {
      Readmit(unique, m - 1);
      ReadmitOne(unique, m - 1);
    }
  }

  /** Main result. Admission is idempotent: what it keeps, it keeps again unchanged. */
  lemma HistoryIdempotent(records: seq<Record>)
    requires HistoryRecords(records).Ok?
    ensures HistoryRecords(Records(HistoryRecords(records).value)) == HistoryRecords(records)
  {
    var unique := Collect(records, |records|).value;
    CollectGroups(records, |records|);
    Readmit(unique, |unique|);
    assert unique[..|unique|] == unique;
  }

  // ---------------------------------------------------------------- sibling groups

  ghost predicate CallsOf(unique: seq<Entry>, at: nat, end: nat, id: string)
    requires at <= end <= |unique|
  {
    forall k :: at <= k < end ==> unique[k].record.kind.FunctionCall? && unique[k].record.id == id
  }

  /** The awaited names are those of the group's calls. */
  ghost predicate AwaitsCalls(unique: seq<Entry>, at: nat, end: nat, calls: map<string, string>)
    requires at <= end <= |unique|
  {
    && |calls| == end - at
    && forall k :: at <= k < end ==>
         unique[k].record.callId in calls && calls[unique[k].record.callId] == unique[k].record.name
  }

  lemma {:induction false} CallIsNew(unique: seq<Entry>, at: nat, end: nat, id: string, last: nat)
    requires at <= end <= last < |unique| && KeysDistinct(unique) && CallsOf(unique, at, last + 1, id)
    ensures unique[last].record.callId !in Awaited(unique, at, end)
    decreases end - at
  {
    if at < end {
      CallIsNew(unique, at, end - 1, id, last);
      assert !SameKey(unique[end - 1].record, unique[last].record);
    }
  }

  lemma {:induction false} AwaitedCalls(unique: seq<Entry>, at: nat, end: nat, id: string)
    requires at <= end <= |unique| && KeysDistinct(unique) && CallsOf(unique, at, end, id)
    ensures AwaitsCalls(unique, at, end, Awaited(unique, at, end))
    decreases end - at
  {
    hide KeysDistinct;
    if at < end {
      AwaitedCalls(unique, at, end - 1, id);
      CallIsNew(unique, at, end - 1, id, end - 1);
    }
  }

  /** How many of the `count` records from `from` on name call `c`. */
  function ResultCount(unique: seq<Entry>, from: nat, count: nat, c: string): nat
    decreases count
  {
    if count == 0 || from >= |unique| then 0
    else (if unique[from].record.callId == c then 1 else 0) + ResultCount(unique, from + 1, count - 1, c)
  }

  ghost predicate AnswersOne(calls: map<string, string>, r: Record) {
    r.kind.FunctionResult? && r.callId in calls && calls[r.callId] == r.name
  }

  lemma {:induction false} ResultsMeetCalls(unique: seq<Entry>, from: nat, count: nat, calls: map<string, string>)
    requires TakeResults(unique, from, count, calls) && |calls| == count
    ensures from + count <= |unique| || count == 0
    ensures forall c :: c in calls ==> ResultCount(unique, from, count, c) == 1
    ensures forall c :: c !in calls ==> ResultCount(unique, from, count, c) == 0
    ensures forall k :: from <= k < from + count ==> k < |unique| && AnswersOne(calls, unique[k].record)
    decreases count
  {
    if count > 0 {
      var id := unique[from].record.callId;
      assert (calls - {id}).Keys == calls.Keys - {id};
      ResultsMeetCalls(unique, from + 1, count - 1, calls - {id});
      forall k | from <= k < from + count
        ensures k < |unique| && AnswersOne(calls, unique[k].record)
      {
        if k > from {
          assert AnswersOne(calls - {id}, unique[k].record);
        }
      }
    }
  }

  /** A whole group: the calls `at .. end`, then one result for each of them. */
  ghost predicate Answered(unique: seq<Entry>, at: nat, end: nat) {
    && at < end <= 2 * end - at <= |unique|
    && (forall k :: at <= k < end ==>
          && unique[k].record.kind.FunctionCall? && unique[k].record.id == unique[at].record.id
          && unique[k].record.response == unique[at].record.response
          && ResultCount(unique, end, end - at, unique[k].record.callId) == 1)
    && forall k :: end <= k < 2 * end - at ==> AnswersOne(Awaited(unique, at, end), unique[k].record)
  }

  lemma {:induction false} GroupShares(unique: seq<Entry>, at: nat, k: nat)
    requires Grouped(unique) && at < |unique| && at <= k < GroupEnd(unique, at)
    ensures unique[k].record.id == unique[at].record.id
  {
    if at < k {
      GroupShares(unique, at, k - 1);
      assert SiblingAt(unique, k);
    }
  }

  lemma GroupAnswered(unique: seq<Entry>, at: nat)
    requires Grouped(unique) && at < |unique| && GroupComplete(unique, at, GroupEnd(unique, at))
             && GroupEnd(unique, at) > at + 1
    ensures Answered(unique, at, GroupEnd(unique, at))
  {
    hide KeysDistinct, SiblingAt, TakeResults, ResultCount, Awaited, AnswersOne;
    var end := GroupEnd(unique, at);
    var id := unique[at].record.id;
    forall k | at <= k < end
      ensures unique[k].record.kind.FunctionCall? && unique[k].record.id == id
      ensures unique[k].record.response == unique[at].record.response
    {
      assert CallFits(unique[at].record, unique[k].record, k == end - 1);
      GroupShares(unique, at, k);
    }
    AwaitedCalls(unique, at, end, id);
    ResultsMeetCalls(unique, end, end - at, Awaited(unique, at, end));
  }

  lemma {:induction false} GroupAround(unique: seq<Entry>, at: nat, k: nat) returns (start: nat)
    requires GroupsComplete(unique, at) && at <= k < |unique| && (at == 0 || !unique[at].sibling)
    ensures at <= start <= k < GroupEnd(unique, start) && GroupComplete(unique, start, GroupEnd(unique, start))
    ensures start == 0 || !unique[start].sibling
    decreases |unique| - at
  {
    if k < GroupEnd(unique, at) {
      start := at;
    } else {
      start := GroupAround(unique, GroupEnd(unique, at), k);
    }
  }

  /** Main result. Every sibling of an admitted history lies in one unbroken group of calls of
    * one response, and the group is followed at once by exactly one result for each call. */
  lemma SiblingsComplete(records: seq<Record>, k: nat)
    requires HistoryRecords(records).Ok? && k < |HistoryRecords(records).value|
             && HistoryRecords(records).value[k].sibling
    ensures var unique := HistoryRecords(records).value;
            exists at: nat :: at < k < GroupEnd(unique, at) && Answered(unique, at, GroupEnd(unique, at))
  {
    var unique := HistoryRecords(records).value;
    CollectGroups(records, |records|);
    var at := GroupAround(unique, 0, k);
    assert SiblingAt(unique, k);
    GroupAnswered(unique, at);
  }

  // ---------------------------------------------------------------- the loops of the source

  type Variants = map<string, map<string, string>>

  function Lookup(seen: Variants, id: string, call: string): Option<string> {
    if id in seen && call in seen[id] then Some(seen[id][call]) else None
  }

  /** The nested maps hold the bytes of every key met so far. */
  ghost predicate Indexes(seen: Variants, unique: seq<Entry>) {
    && (forall id :: id in seen <==> Seen(unique, id))
    && forall id, call :: Lookup(seen, id, call) == Variant(unique, id, call)
  }

  lemma VariantSnoc(unique: seq<Entry>, e: Entry, id: string, call: string)
    ensures Variant(unique + [e], id, call)
            == if e.record.id == id && CallOf(e.record) == call then Some(e.record.json) else Variant(unique, id, call)
    ensures Seen(unique + [e], id) <==> e.record.id == id || Seen(unique, id)
  {
    assert (unique + [e])[..|unique|] == unique;
    assert (unique + [e])[|unique|] == e;
    if Seen(unique, id) {
      var k :| 0 <= k < |unique| && unique[k].record.id == id;
      assert (unique + [e])[k].record.id == id;
    }
  }

  lemma IndexMore(seen: Variants, unique: seq<Entry>, e: Entry, next: map<string, string>)
    requires Indexes(seen, unique)
    requires next == (if e.record.id in seen then seen[e.record.id] else map[])[CallOf(e.record) := e.record.json]
    ensures Indexes(seen[e.record.id := next], unique + [e])
  {
    hide Variant, Seen;
    forall id
      ensures id in seen[e.record.id := next] <==> Seen(unique + [e], id)
    {
      VariantSnoc(unique, e, id, "");
    }
    forall id, call
      ensures Lookup(seen[e.record.id := next], id, call) == Variant(unique + [e], id, call)
    {
      VariantSnoc(unique, e, id, call);
      assert Lookup(seen, id, call) == Variant(unique, id, call);
    }
  }

  lemma {:induction false} CollectFails(records: seq<Record>, m: nat, n: nat)
    requires m <= n <= |records| && Collect(records, m).Err?
    ensures Collect(records, n) == Collect(records, m)
    decreases n - m
  {
    hide Admit;
    if m < n {
      CollectFails(records, m, n - 1);
    }
  }

  method CollectUnique(records: seq<Record>) returns (r: Result<seq<Entry>>)
    ensures r == Collect(records, |records|)
  {
    hide Variant, Seen;
    var unique: seq<Entry>, seen: Variants := [], map[];
    IndexNothing();
    var at := 0;
    while at < |records|
      invariant 0 <= at <= |records|
      invariant Collect(records, at) == Ok(unique) && Indexes(seen, unique)
    {
      var record, call := records[at], CallOf(records[at]);
      at := at + 1;
      if record.id == "" || (record.kind.FunctionCall? && call == "") {
        CollectFails(records, at, |records|);
        return Err(Format);
      }
      var known := Lookup(seen, record.id, call);
      assert known == Variant(unique, record.id, call);
      if known.Some? {
        if known.value != record.json {
          CollectFails(records, at, |records|);
          return Err(Unsupported);
        }
      } else {
        var sibling := record.id in seen;
        assert Lookup(seen, record.id, "") == Variant(unique, record.id, "");
        if sibling && (call == "" || "" in seen[record.id] || unique[|unique| - 1].record.id != record.id) {
          CollectFails(records, at, |records|);
          return Err(Unsupported);
        }
        var next := (if sibling then seen[record.id] else map[])[call := record.json];
        IndexMore(seen, unique, Entry(record, sibling), next);
        seen := seen[record.id := next];
        unique := unique + [Entry(record, sibling)];
      }
    }
    r := Ok(unique);
  }

  lemma IndexNothing()
    ensures Indexes(map[], [])
  {
  }

  /** One sibling group: its calls, then its results. */
  method CheckGroup(unique: seq<Entry>, at: nat, end: nat) returns (ok: bool)
    requires at < end <= |unique|
    ensures ok == GroupComplete(unique, at, end)
  {
    if end == at + 1 {
      return true;
    }
    if !unique[at].record.identified {
      return false;
    }
    var calls: map<string, string> := map[];
    var index := at;
    while index < end
      invariant at <= index <= end && calls == Awaited(unique, at, index)
      invariant forall k :: at <= k < index ==> CallFits(unique[at].record, unique[k].record, k == end - 1)
    {
      if !CallFits(unique[at].record, unique[index].record, index == end - 1) {
        return false;
      }
      calls := calls[unique[index].record.callId := unique[index].record.name];
      index := index + 1;
    }
    while index < end + (end - at)
      invariant end <= index <= end + (end - at)
      invariant TakeResults(unique, end, end - at, Awaited(unique, at, end))
                == TakeResults(unique, index, end + (end - at) - index, calls)
    {
      if index >= |unique| {
        return false;
      }
      var result := unique[index].record;
      if !result.kind.FunctionResult? || result.callId == "" || result.callId !in calls
        || calls[result.callId] != result.name {
        return false;
      }
      calls := calls - {result.callId};
      index := index + 1;
    }
    ok := true;
  }

  /** `historyRecords`. */
  method AdmitHistory(records: seq<Record>) returns (r: Result<seq<Entry>>)
    ensures r == HistoryRecords(records)
  {
    var collected := CollectUnique(records);
    if collected.Err? {
      return collected;
    }
    var unique, at := collected.value, 0;
    while at < |unique|
      invariant 0 <= at <= |unique|
      invariant GroupsComplete(unique, 0) == GroupsComplete(unique, at)
    {
      var end := at + 1;
      while end < |unique| && unique[end].sibling
        invariant at < end <= |unique| && GroupEnd(unique, at) == GroupEnd(unique, end - 1)
      {
        end := end + 1;
      }
      var ok := CheckGroup(unique, at, end);
      if !ok {
        return Err(Format);
      }
      at := end;
    }
    r := Ok(unique);
  }
}
