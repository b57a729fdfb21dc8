/** The paged reader over one OpenCode walk: `read` and `rewind` of a source view. */
module OpenCodeView {
  import opened Base
  import opened OpenCodeSource
  import opened OpenCodeWalk
  import OpenCodeCoverage

  datatype PageLimits = PageLimits(rows: nat, bytes: nat, records: nat)

  datatype Page = Page(records: seq<Record>, done: bool)

  /** Two bytes for the brackets, one for each comma. */
  function PageBytes(records: seq<Record>, size: Record -> nat): nat {
    if records == [] then 2
    else PageBytes(records[..|records| - 1], size) + size(records[|records| - 1]) + if |records| == 1 then 0 else 1
  }

  /** What a pass checks on a row: its content, and its room on a page. */
  predicate Passes(r: Record, size: Record -> nat, limits: PageLimits) {
    Good(r) && size(r) + 2 <= limits.bytes
  }

  predicate AllPass(rows: seq<Record>, size: Record -> nat, limits: PageLimits) {
    forall k :: 0 <= k < |rows| ==> Passes(rows[k], size, limits)
  }

  lemma PassSnoc(rows: seq<Record>, r: Record, size: Record -> nat, limits: PageLimits)
    requires AllPass(rows, size, limits) && Passes(r, size, limits)
    ensures AllPass(rows + [r], size, limits)
  {
  }

  lemma PassSuffix(a: seq<Record>, b: seq<Record>, size: Record -> nat, limits: PageLimits)
    requires AllPass(a + b, size, limits)
    ensures AllPass(b, size, limits)
  {
    forall k | 0 <= k < |b|
      ensures Passes(b[k], size, limits)
    {
      assert (a + b)[|a| + k] == b[k];
    }
  }

  class SourceView {
    const db: Db
    const family: seq<Session>
    const admitted: nat
    const limits: PageLimits
    const size: Record -> nat
    var at: At
    var consumed: nat
    var pending: Option<Record>
    var failed: bool
    var done: bool
    var rewound: bool
    /** The rows delivered in the current pass. */
    ghost var taken: seq<Record>

    constructor (db: Db, family: seq<Session>, limits: PageLimits, size: Record -> nat)
      ensures Valid() && Left() == FamilyRows(db, family, 0) && !failed && !done && !rewound
      ensures this.db == db && this.family == family && this.limits == limits && this.size == size
      ensures admitted == Admitted(db, family)
    {
      this.db, this.family, this.limits, this.size := db, family, limits, size;
      admitted := Admitted(db, family);
      at, consumed, pending, failed, done, rewound, taken := Start, 0, None, false, false, false, [];
      new;
      StartAhead(db, family);
      assert [] + Ahead(db, family, Start) == Ahead(db, family, Start);
    }

    /** The rows not delivered yet. */
    ghost function Left(): seq<Record>
      reads this
    {
      (if pending.Some? then [pending.value] else []) + Ahead(db, family, at)
    }

    /** A complete pass over the snapshot would succeed. */
    ghost predicate Proven()
      reads this
    {
      && AllPass(FamilyRows(db, family, 0), size, limits)
      && |FamilyRows(db, family, 0)| == admitted <= limits.records
    }

    ghost predicate Valid()
      reads this
    {
      && Aligned(at) && admitted == Admitted(db, family)
      && taken + Left() == FamilyRows(db, family, 0) && AllPass(taken, size, limits)
      && consumed == |taken| + (if pending.Some? then 1 else 0)
      && (consumed <= limits.records || failed)
      && (pending.Some? ==> Passes(pending.value, size, limits))
      && (done ==> Left() == [] && consumed == admitted)
      && (done || rewound ==> Proven())
    }

    /** `next`, with its loop over exhausted messages and sessions. */
    method Advance() returns (r: Result<Option<Record>>)
      requires Aligned(at)
      modifies this`at
      ensures var next := Next(db, family, old(at));
              if next.Err? then r == Err(next.reason) else r == Ok(next.value.0) && at == next.value.1
      ensures r.Ok? ==> Aligned(at)
    {
      hide LeastMessage, LeastPart, Good;
      ghost var start := at;
      NextIsHead(db, family, start);
      while at.thread < |family|
        invariant Next(db, family, at) == Next(db, family, start)
        decreases |family| - at.thread, Rank(at.phase)
      {
        var current := family[at.thread];
        if at.phase.AtSession? {
          if !current.sound {
            return Err(Format);
          }
          at := at.(phase := AtMessage);
          return Ok(Some(SessionRow(current)));
        }
        if at.phase.AtPart? {
          var p := LeastPart(db.parts, at.message, at.part);
          if p.Some? {
            if !Good(PartRow(p.value, current.id)) {
              return Err(Format);
            }
            at := at.(part := p.value.id);
            return Ok(Some(PartRow(p.value, current.id)));
          }
          at := at.(phase := AtMessage);
        } else {
          var m := LeastMessage(db.messages, current.id, at.time, at.message);
          if m.Some? {
            if !Good(MessageRow(m.value)) {
              return Err(Format);
            }
            at := At(at.thread, AtPart, m.value.id, m.value.time, 0);
            return Ok(Some(MessageRow(m.value)));
          }
          at := At(at.thread + 1, AtSession, 0, -1, at.part);
        }
      }
      r := Ok(None);
    }

    /** Fetches the next row into `pending`; at the end the counts must agree. */
    method Fetch() returns (r: Result<bool>)
      requires Valid() && pending.None? && !done
      modifies this`at, this`consumed, this`pending
      ensures r.Ok? ==> Valid() && Left() == old(Left()) && r.value == pending.Some?
      ensures r.Ok? && !r.value ==> Left() == [] && consumed == admitted
      ensures old(Proven()) ==> r.Ok?
    {
      hide Next, Ahead, FamilyRows, Good, AllPass, Passes, Admitted;
      ghost var start := at;
      NextInPass(db, family, start, taken, size, limits);
      assert [] + Ahead(db, family, start) == Ahead(db, family, start);
      var record := Advance();
      if record.Err? {
        return Err(record.reason);
      }
      if record.value.None? {
        NothingAhead(db, family, at);
        assert taken + [] == taken;
        if consumed != admitted {
          return Err(Format);
        }
        return Ok(false);
      }
      consumed := consumed + 1;
      PassFits(record.value.value, size, limits);
      if consumed > limits.records || size(record.value.value) + 2 > limits.bytes {
        return Err(Limit);
      }
      pending := record.value;
      r := Ok(true);
    }

    /** Hands out the fetched row. */
    method Deliver()
      requires Valid() && pending.Some? && !done
      modifies this`pending, this`taken
      ensures Valid() && pending.None? && old(Left()) == [old(pending).value] + Left()
      ensures taken == old(taken) + [old(pending).value]
    {
      hide Ahead, FamilyRows, Passes, AllPass;
      PassSnoc(taken, pending.value, size, limits);
      assert [] + Ahead(db, family, at) == Ahead(db, family, at);
      Assoc(taken, [pending.value], Ahead(db, family, at));
      taken := taken + [pending.value];
      pending := None;
    }

    /** `read`: as many rows as fit. Pages lose, repeat and reorder nothing, deliver sound rows only,
      * and the last one comes only when every admitted row was counted. Once a pass was complete
      * no page can fail. */
    method Read() returns (r: Result<Page>)
      requires Valid()
      modifies this
      ensures r.Ok? ==> Valid() && failed == old(failed) && rewound == old(rewound)
      ensures r.Ok? ==> old(Left()) == r.value.records + Left() && taken == old(taken) + r.value.records
      ensures r.Ok? ==> AllPass(r.value.records, size, limits)
      ensures old(!failed && (done || rewound)) ==> r.Ok? && !failed
      ensures r.Ok? ==>
                |r.value.records| <= limits.rows
                && (r.value.records != [] ==> PageBytes(r.value.records, size) <= limits.bytes)
      ensures r.Ok? ==> r.value.done == done && (done ==> old(done) || consumed == admitted)
      ensures r.Ok? && limits.rows > 0 && r.value.records == [] ==> done
    {
      hide Good, Ahead, FamilyRows, Aligned, Admitted, PageBytes, Passes;
      NoPage(size);
      if failed {
        return Err(Changed);
      }
      if done {
        assert [] + Left() == Left() && taken + [] == taken;
        return Ok(Page([], true));
      }
      var records: seq<Record>, bytes := [], 2;
      ghost var all, before := Left(), taken;
      assert [] + all == all && before + [] == before;
      while |records| < limits.rows
        invariant Valid() && !failed && !done && all == records + Left()
        invariant |records| <= limits.rows && bytes == PageBytes(records, size)
        invariant records != [] ==> bytes <= limits.bytes
        invariant rewound == old(rewound) && taken == before + records && AllPass(records, size, limits)
        decreases limits.rows - |records|
      {
        if pending.None? {
          var fetched := Fetch();
          if fetched.Err? {
            failed := true;
            return Err(fetched.reason);
          }
          if !fetched.value {
            assert taken + [] == taken;
            done := true;
            return Ok(Page(records, true));
          }
        }
        var record := pending.value;
        PassFits(record, size, limits);
        var separator := if |records| == 0 then 0 else 1;
        if size(record) + separator > limits.bytes - bytes {
          break;
        }
        PageGrows(records, record, size);
        PassSnoc(records, record, size, limits);
        Deliver();
        Assoc(records, [record], Left());
        Assoc(before, records, [record]);
        records := records + [record];
        bytes := bytes + size(record) + separator;
      }
      r := Ok(Page(records, false));
    }

    /** `rewind`: once, after a complete pass; the second pass starts where the first did. */
    method Rewind() returns (ok: bool)
      requires Valid()
      modifies this
      ensures Valid()
      ensures ok == old(!failed && done && !rewound)
      ensures ok ==> Left() == FamilyRows(db, family, 0) && !done && rewound && !failed
      ensures !ok ==> Left() == old(Left())
    {
      hide Ahead, FamilyRows, AllPass, Passes, Admitted;
      if failed || !done || rewound {
        return false;
      }
      StartAhead(db, family);
      NoneFail(size, limits);
      assert [] + Ahead(db, family, Start) == Ahead(db, family, Start);
      at, consumed, pending, done, rewound, taken := Start, 0, None, false, true, [];
      assert [] + Left() == Left();
      ok := true;
    }
  }

  lemma PassFits(r: Record, size: Record -> nat, limits: PageLimits)
    ensures Passes(r, size, limits) ==> size(r) + 2 <= limits.bytes
    ensures Good(r) && size(r) + 2 <= limits.bytes ==> Passes(r, size, limits)
  {
  }

  lemma NoneFail(size: Record -> nat, limits: PageLimits)
    ensures AllPass([], size, limits)
  {
  }

  lemma HeadPasses(rows: seq<Record>, size: Record -> nat, limits: PageLimits)
    requires AllPass(rows, size, limits) && rows != []
    ensures Passes(rows[0], size, limits) && Good(rows[0])
  {
  }

  /** One step of the walk: it fails only on a row that does not pass. */
  lemma NextInPass(db: Db, family: seq<Session>, at: At, taken: seq<Record>, size: Record -> nat, limits: PageLimits)
    requires Aligned(at)
    ensures var next, ahead := Next(db, family, at), Ahead(db, family, at);
            if next.Err? then !AllPass(taken + ahead, size, limits)
            else if next.value.0.None? then ahead == [] && next.value.1.thread >= |family|
            else
              var r := next.value.0.value;
              && Good(r) && ahead == [r] + Ahead(db, family, next.value.1)
              && (AllPass(taken + ahead, size, limits) ==> Passes(r, size, limits))
  {
    hide Next, Ahead, Good, AllPass, Passes;
    NextIsHead(db, family, at);
    var ahead := Ahead(db, family, at);
    if AllPass(taken + ahead, size, limits) && ahead != [] {
      PassSuffix(taken, ahead, size, limits);
      HeadPasses(ahead, size, limits);
    }
  }

  /** Main result. A pass that is done has delivered every admitted row, each once, and the family is
    * sound: the count at the end of the pages stands for complete coverage. */
  lemma DonePassCovers(view: SourceView)
    requires view.Valid() && view.done && Keyed(view.db) && OpenCodeCoverage.SessionsDiffer(view.family)
    requires forall k :: 0 <= k < |view.family| ==> Supported(view.db, view.family[k])
    ensures OpenCodeCoverage.Sound(view.db, view.family) && Distinct(view.taken)
    ensures forall r :: r in view.taken <==> r in OpenCodeCoverage.AdmittedRows(view.db, view.family)
  {
    hide FamilyRows, Walk, Good, Supported, OpenCodeCoverage.Sound, OpenCodeCoverage.AdmittedRows;
    var db, family, rows := view.db, view.family, FamilyRows(view.db, view.family, 0);
    assert view.taken + [] == view.taken;
    StartAhead(db, family);
    WalkIsListing(db, family, Start);
    PassIsGood(rows, view.size, view.limits);
    OpenCodeCoverage.CountMeansCoverage(db, family);
    OpenCodeCoverage.SucceedsExactly(db, family);
    forall r | r in rows
      ensures r in OpenCodeCoverage.AdmittedRows(db, family)
    {
      OpenCodeCoverage.ListedIsAdmitted(db, family, r);
    }
  }

  lemma PassIsGood(rows: seq<Record>, size: Record -> nat, limits: PageLimits)
    requires AllPass(rows, size, limits)
    ensures AllGood(rows)
  {
  }

  lemma NoPage(size: Record -> nat)
    ensures PageBytes([], size) == 2
  {
  }

  lemma PageGrows(records: seq<Record>, record: Record, size: Record -> nat)
    ensures PageBytes(records + [record], size)
            == PageBytes(records, size) + size(record) + if records == [] then 0 else 1
  {
    assert (records + [record])[..|records|] == records;
  }
}
