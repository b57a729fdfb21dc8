/** When a page of Codex events fails or moves nothing: usage samples are charged to the page before
  * the event behind them. */
module CodexLimits {
  import opened Base
  import opened CodexPages

  /** What samples take of a page's bytes. */
  function Weight(samples: seq<Sample>): nat {
    if samples == [] then 0 else samples[0].size + 1 + Weight(samples[1..])
  }

  lemma {:induction false} WeightAppend(a: seq<Sample>, b: seq<Sample>)
    ensures Weight(a + b) == Weight(a) + Weight(b)
  {
    if a == [] {
      assert a + b == b;
    } else {
      WeightAppend(a[1..], b);
      assert (a + b)[1..] == a[1..] + b;
    }
  }

  // ---------------------------------------------------------------- the first event and what lies before it

  /** The first event from line `k` on. */
  function LineEvent(lines: seq<Line>, k: nat): Option<Event>
    decreases |lines| - k
  {
    if k >= |lines| then None else if lines[k].what.Item? then Some(lines[k].what.event) else LineEvent(lines, k + 1)
  }

  /** The samples from line `k` on up to the first event. */
  function LineSamples(lines: seq<Line>, k: nat): seq<Sample>
    decreases |lines| - k
  {
    if k >= |lines| || lines[k].what.Item? then []
    else (if lines[k].what.Usage? then [lines[k].what.sample] else []) + LineSamples(lines, k + 1)
  }

  function FirstEvent(files: seq<File>, k: nat, offset: nat): Option<Event>
    decreases |files| - k
  {
    if k >= |files| then None
    else if !files[k].live then FirstEvent(files, k + 1, 0)
    else
      var here := LineEvent(files[k].lines, LineAt(files[k].lines, From(files[k], offset)));
      if here.Some? then here else FirstEvent(files, k + 1, 0)
  }

  function SamplesBefore(files: seq<File>, k: nat, offset: nat): seq<Sample>
    decreases |files| - k
  {
    if k >= |files| then []
    else if !files[k].live then SamplesBefore(files, k + 1, 0)
    else
      var lines, at := files[k].lines, LineAt(files[k].lines, From(files[k], offset));
      LineSamples(lines, at) + if LineEvent(lines, at).Some? then [] else SamplesBefore(files, k + 1, 0)
  }

  lemma {:induction false} LineHead(lines: seq<Line>, k: nat)
    ensures LineEvent(lines, k) == if EventsOf(lines, k) == [] then None else Some(EventsOf(lines, k)[0])
    ensures LineSamples(lines, k) <= SamplesOf(lines, k)
    ensures LineEvent(lines, k).None? ==> LineSamples(lines, k) == SamplesOf(lines, k)
    decreases |lines| - k
  {
    if k < |lines| {
      LineHead(lines, k + 1);
    }
  }

  /** They are the head of the events ahead, and the samples that come first of those ahead. */
  lemma {:induction false} HeadIsAhead(files: seq<File>, k: nat, offset: nat)
    ensures FirstEvent(files, k, offset)
            == if FilesEvents(files, k, offset) == [] then None else Some(FilesEvents(files, k, offset)[0])
    ensures SamplesBefore(files, k, offset) <= FilesSamples(files, k, offset)
    decreases |files| - k
  {
    hide EventsOf, SamplesOf, LineEvent, LineSamples, LineAt, From;
    if k < |files| {
      HeadIsAhead(files, k + 1, 0);
      var events, samples := FilesEvents(files, k + 1, 0), FilesSamples(files, k + 1, 0);
      assert [] + events == events && [] + samples == samples;
      if files[k].live {
        var lines, at := files[k].lines, LineAt(files[k].lines, From(files[k], offset));
        LineHead(lines, at);
        HeadJoins(EventsOf(lines, at), events);
        PrefixJoins(LineSamples(lines, at), SamplesOf(lines, at), SamplesBefore(files, k + 1, 0), samples);
      }
    }
  }

  lemma HeadJoins(a: seq<Event>, b: seq<Event>)
    ensures a != [] ==> (a + b)[0] == a[0]
    ensures a == [] ==> a + b == b
  {
  }

  lemma PrefixJoins(a: seq<Sample>, all: seq<Sample>, b: seq<Sample>, rest: seq<Sample>)
    requires a <= all && b <= rest
    ensures a + [] <= all + rest && (a == all ==> a + b <= all + rest)
  {
  }

  // ---------------------------------------------------------------- one file

  /** The page has room for all these samples. */
  predicate Fits(p: Page, samples: seq<Sample>, lim: Limits) {
    |p.usage| + |samples| <= lim.count && p.bytes + Weight(samples) <= lim.bytes
  }

  function With(p: Page, samples: seq<Sample>): Page {
    p.(usage := p.usage + samples, bytes := p.bytes + Weight(samples))
  }

  /** The event does not fit behind these samples. */
  predicate TooBig(p: Page, samples: seq<Sample>, e: Event, lim: Limits) {
    Fits(p, samples, lim) && p.bytes + Weight(samples) + e.size > lim.bytes
  }

  /** A page with an event in it never fails, and keeps what it has. */
  lemma {:induction false} StartedNeverFails(lines: seq<Line>, k: nat, p: Page, lim: Limits)
    requires k <= |lines| && p.events != []
    ensures ReadFile(lines, k, p, lim).Ok? && ReadFile(lines, k, p, lim).value.0.events != []
    decreases |lines| - k
  {
    hide HasKey;
    if k < |lines| {
      match lines[k].what
      case Nothing =>
        StartedNeverFails(lines, k + 1, p, lim);
      case Usage(sample) =>
        StartedNeverFails(lines, k + 1, p.(usage := p.usage + [sample], bytes := p.bytes + sample.size + 1), lim);
      case Item(event) =>
        StartedNeverFails(lines, k + 1, p, lim);
        if Append(p, event, lim).value.Some? {
          StartedNeverFails(lines, k + 1, Append(p, event, lim).value.value, lim);
        }
    }
  }

  lemma WithOne(p: Page, s: Sample, rest: seq<Sample>, lim: Limits)
    ensures With(With(p, [s]), rest) == With(p, [s] + rest)
    ensures Fits(p, [s] + rest, lim) <==> Fits(p, [s], lim) && Fits(With(p, [s]), rest, lim)
    ensures Weight([s]) == s.size + 1 && Weight([s] + rest) == s.size + 1 + Weight(rest)
  {
    assert [s][1..] == [];
    WeightAppend([s], rest);
    Assoc(p.usage, [s], rest);
  }

  /** How a page without events reads lines: it stops at the first sample without room, fails at the
    * first event without room, and otherwise takes all the samples. */
  ghost predicate ReadsFrom(lines: seq<Line>, k: nat, p: Page, lim: Limits, r: Result<(Page, nat, bool)>) {
    var samples, e := LineSamples(lines, k), LineEvent(lines, k);
    if !Fits(p, samples, lim) then r.Ok? && !r.value.2 && r.value.0.events == []
    else if e.None? then r == Ok((With(p, samples), |lines|, true))
    else if TooBig(p, samples, e.value, lim) then r == Err(Limit)
    else r.Ok? && r.value.0.events != []
  }

  lemma {:induction false} FileReads(lines: seq<Line>, k: nat, p: Page, lim: Limits)
    requires k <= |lines| && p.events == [] && Within(p, lim) && lim.count > 0
    ensures ReadsFrom(lines, k, p, lim, ReadFile(lines, k, p, lim))
    decreases |lines| - k
  {
    assert p.usage + [] == p.usage;
    if k < |lines| {
      match lines[k].what
      case Nothing =>
        FileReads(lines, k + 1, p, lim);
        assert [] + LineSamples(lines, k + 1) == LineSamples(lines, k + 1);
      case Usage(sample) =>
        WithOne(p, sample, LineSamples(lines, k + 1), lim);
        if Fits(p, [sample], lim) {
          FileReads(lines, k + 1, With(p, [sample]), lim);
        }
      case Item(event) =>
        if !TooBig(p, [], event, lim) {
          StartedNeverFails(lines, k + 1, Append(p, event, lim).value.value, lim);
        }
    }
  }

  // ---------------------------------------------------------------- all files, and the page

  lemma {:induction false} FilesNeverFail(files: seq<File>, k: nat, offset: nat, p: Page, lim: Limits)
    requires p.events != []
    ensures ReadFiles(files, k, offset, p, lim).Ok? && ReadFiles(files, k, offset, p, lim).value.0.events != []
    decreases |files| - k
  {
    hide ReadFile, LineAt, From;
    if k < |files| && |p.events| < lim.count {
      if !files[k].live {
        FilesNeverFail(files, k + 1, 0, p, lim);
      } else {
        var lines, at := files[k].lines, LineAt(files[k].lines, From(files[k], offset));
        StartedNeverFails(lines, at, p, lim);
        FilesNeverFail(files, k + 1, 0, ReadFile(lines, at, p, lim).value.0, lim);
      }
    }
  }

  lemma WithMore(p: Page, a: seq<Sample>, b: seq<Sample>, lim: Limits)
    ensures With(With(p, a), b) == With(p, a + b)
    ensures Fits(p, a + b, lim) <==> Fits(p, a, lim) && Fits(With(p, a), b, lim)
  {
    WeightAppend(a, b);
    Assoc(p.usage, a, b);
  }

  /** The first event does not fit behind the samples before it. */
  predicate Blocked(files: seq<File>, k: nat, offset: nat, p: Page, lim: Limits) {
    && FirstEvent(files, k, offset).Some?
    && TooBig(p, SamplesBefore(files, k, offset), FirstEvent(files, k, offset).value, lim)
  }

  /** A page without events fails in the files exactly when it is blocked; it takes an event when all
    * samples fit and there is one, and nothing is left when all fit and there is none. */
  lemma {:induction false} FilesRead(files: seq<File>, k: nat, offset: nat, p: Page, lim: Limits)
    requires p.events == [] && Within(p, lim) && lim.count > 0
    ensures ReadFiles(files, k, offset, p, lim).Err? <==> Blocked(files, k, offset, p, lim)
    ensures var r := ReadFiles(files, k, offset, p, lim);
            r.Ok? && Fits(p, SamplesBefore(files, k, offset), lim) ==>
              if FirstEvent(files, k, offset).Some? then r.value.0.events != []
              else r.value.0 == With(p, SamplesBefore(files, k, offset)) && r.value.1 >= |files|
    decreases |files| - k
  {
    hide ReadFile, LineAt, From, LineEvent, LineSamples, Weight;
    assert p.usage + [] == p.usage;
    NoWeight();
    if k < |files| && !files[k].live {
      FilesRead(files, k + 1, 0, p, lim);
    } else if k < |files| {
      var lines, at := files[k].lines, LineAt(files[k].lines, From(files[k], offset));
      var samples := LineSamples(lines, at);
      FileReads(lines, at, p, lim);
      var rest := if LineEvent(lines, at).Some? then [] else SamplesBefore(files, k + 1, 0);
      WithMore(p, samples, rest, lim);
      if Fits(p, samples, lim) && LineEvent(lines, at).None? {
        FilesRead(files, k + 1, 0, With(p, samples), lim);
      } else if Fits(p, samples, lim) && ReadFile(lines, at, p, lim).Ok? {
        assert samples + [] == samples;
        FilesNeverFail(files, k + 1, 0, ReadFile(lines, at, p, lim).value.0, lim);
      } else {
        assert samples + [] == samples;
      }
    }
  }

  lemma NoWeight()
    ensures Weight([]) == 0
  {
  }

  lemma {:induction false} SpawnNeverFails(children: seq<Event>, at: nat, p: Page, lim: Limits)
    requires at <= |children| && p.events != []
    ensures Spawn(children, at, p, lim).Ok? && Spawn(children, at, p, lim).value.0.events != []
    decreases |children| - at
  {
    if at < |children| && |p.events| < lim.count && Append(p, children[at], lim).value.Some? {
      SpawnNeverFails(children, at + 1, Append(p, children[at], lim).value.value, lim);
    }
  }

  const EMPTY := Page([], [], 0)

  /** The first event ahead does not fit in a page: behind the samples before it, unless it is a spawn
    * event, which comes before all samples. */
  predicate PageBlocked(children: seq<Event>, files: seq<File>, c: Cursor, lim: Limits)
    requires c.spawn <= |children|
  {
    lim.count > 0 && if c.spawn < |children| then children[c.spawn].size > lim.bytes
                     else Blocked(files, c.file, c.offset, EMPTY, lim)
  }

  /** Main result. A page fails exactly when the first event ahead does not fit behind the samples
    * that the page takes before it. */
  lemma PageFailsExactly(children: seq<Event>, files: seq<File>, c: Cursor, lim: Limits)
    requires c.spawn <= |children|
    ensures Collect(children, files, c, lim).Err? <==> PageBlocked(children, files, c, lim)
  {
    hide ReadFiles, Blocked;
    if lim.count > 0 && c.spawn < |children| {
      if children[c.spawn].size <= lim.bytes {
        SpawnNeverFails(children, c.spawn + 1, Append(EMPTY, children[c.spawn], lim).value.value, lim);
        FilesNeverFail(files, c.file, c.offset, Spawn(children, c.spawn, EMPTY, lim).value.0, lim);
      }
    } else if lim.count > 0 {
      FilesRead(files, c.file, c.offset, EMPTY, lim);
    } else {
      NoRoomReads(files, c.file, c.offset, EMPTY, lim);
    }
  }

  lemma NoRoomReads(files: seq<File>, k: nat, offset: nat, p: Page, lim: Limits)
    requires lim.count == 0
    ensures ReadFiles(files, k, offset, p, lim) == Ok((p, k, offset))
  {
  }

  // ---------------------------------------------------------------- pages that move nothing

  lemma {:induction false} UsageGrows(lines: seq<Line>, k: nat, p: Page, lim: Limits)
    requires k <= |lines| && ReadFile(lines, k, p, lim).Ok?
    ensures p.usage <= ReadFile(lines, k, p, lim).value.0.usage
    decreases |lines| - k
  {
    hide HasKey;
    if k < |lines| {
      match lines[k].what
      case Nothing =>
        UsageGrows(lines, k + 1, p, lim);
      case Usage(sample) =>
        if |p.usage| < lim.count && p.bytes + sample.size + 1 <= lim.bytes {
          UsageGrows(lines, k + 1, p.(usage := p.usage + [sample], bytes := p.bytes + sample.size + 1), lim);
        }
      case Item(event) =>
        if HasKey(p.events, event.key) {
          if |p.events| < lim.count {
            UsageGrows(lines, k + 1, p, lim);
          }
        } else if Append(p, event, lim).value.Some? && |p.events| + 1 < lim.count {
          UsageGrows(lines, k + 1, Append(p, event, lim).value.value, lim);
        }
    }
  }

  /** From line `k` on the first thing ahead is this sample. */
  lemma {:induction false} FirstSampleTaken(lines: seq<Line>, k: nat, p: Page, lim: Limits)
    requires k <= |lines| && p == EMPTY && lim.count > 0 && LineSamples(lines, k) != []
    ensures var s := LineSamples(lines, k)[0];
            if s.size + 1 > lim.bytes then
              ReadFile(lines, k, p, lim).Ok? && ReadFile(lines, k, p, lim).value.0 == EMPTY
              && !ReadFile(lines, k, p, lim).value.2 && ReadFile(lines, k, p, lim).value.1 < |lines|
            else ReadFile(lines, k, p, lim).Ok? ==> ReadFile(lines, k, p, lim).value.0.usage != []
    decreases |lines| - k
  {
    match lines[k].what
    case Nothing =>
      FirstSampleTaken(lines, k + 1, p, lim);
      assert [] + LineSamples(lines, k + 1) == LineSamples(lines, k + 1);
    case Usage(sample) =>
      if sample.size + 1 <= lim.bytes && ReadFile(lines, k, p, lim).Ok? {
        UsageGrows(lines, k + 1, p.(usage := p.usage + [sample], bytes := p.bytes + sample.size + 1), lim);
      }
    case Item(event) =>
  }

  lemma {:induction false} FilesUsageGrows(files: seq<File>, k: nat, offset: nat, p: Page, lim: Limits)
    requires ReadFiles(files, k, offset, p, lim).Ok?
    ensures p.usage <= ReadFiles(files, k, offset, p, lim).value.0.usage
    decreases |files| - k
  {
    hide ReadFile, LineAt, From;
    if k < |files| && |p.events| < lim.count {
      if !files[k].live {
        FilesUsageGrows(files, k + 1, 0, p, lim);
      } else {
        var lines, at := files[k].lines, LineAt(files[k].lines, From(files[k], offset));
        UsageGrows(lines, at, p, lim);
        var read := ReadFile(lines, at, p, lim).value;
        if read.2 && read.1 <= |lines| && !(|read.0.events| >= lim.count && read.1 < |lines|) {
          FilesUsageGrows(files, k + 1, 0, read.0, lim);
        }
      }
    }
  }

  /** The first thing ahead in the files is a sample that does not fit in an empty page. */
  predicate Oversized(files: seq<File>, k: nat, offset: nat, lim: Limits) {
    SamplesBefore(files, k, offset) != [] && SamplesBefore(files, k, offset)[0].size + 1 > lim.bytes
  }

  predicate MovesNothing(r: Result<(Page, nat, nat)>, files: seq<File>) {
    r.Ok? && r.value.0.events == [] && r.value.0.usage == [] && r.value.1 < |files|
  }

  lemma {:induction false} FilesStall(files: seq<File>, k: nat, offset: nat, lim: Limits)
    requires lim.count > 0
    ensures MovesNothing(ReadFiles(files, k, offset, EMPTY, lim), files) <==> Oversized(files, k, offset, lim)
    decreases |files| - k
  {
    hide ReadFile, LineAt, From, LineEvent, LineSamples, Weight;
    NoWeight();
    if k < |files| && !files[k].live {
      FilesStall(files, k + 1, 0, lim);
    } else if k < |files| {
      var lines, at := files[k].lines, LineAt(files[k].lines, From(files[k], offset));
      var samples, read := LineSamples(lines, at), ReadFile(lines, at, EMPTY, lim);
      FileReads(lines, at, EMPTY, lim);
      var rest := SamplesBefore(files, k + 1, 0);
      assert samples + [] == samples && (samples == [] ==> samples + rest == rest);
      if samples != [] {
        FirstSampleTaken(lines, at, EMPTY, lim);
        if read.Ok? && read.value.0.usage != [] && read.value.2 && read.value.1 <= |lines| {
          if ReadFiles(files, k + 1, 0, read.value.0, lim).Ok? {
            FilesUsageGrows(files, k + 1, 0, read.value.0, lim);
          }
        }
      } else if LineEvent(lines, at).None? {
        assert EMPTY.usage + [] == EMPTY.usage;
        FilesStall(files, k + 1, 0, lim);
      } else if read.Ok? {
        FilesNeverFail(files, k + 1, 0, read.value.0, lim);
      }
    }
  }

  /** Main result. A page puts out nothing although something is left exactly when it has no room for
    * an event at all, or the first thing ahead is a usage sample that no page of this size can take. */
  lemma PageStallsExactly(children: seq<Event>, files: seq<File>, c: Cursor, lim: Limits)
    requires c.spawn <= |children|
    ensures (var r := Collect(children, files, c, lim);
             r.Ok? && r.value.page.events == [] && r.value.page.usage == []
             && !Complete(children, files, r.value.cursor))
            <==> if lim.count == 0 then !Complete(children, files, c)
                 else c.spawn == |children| && Oversized(files, c.file, c.offset, lim)
  {
    hide ReadFiles, Oversized;
    if lim.count > 0 && c.spawn < |children| {
      if children[c.spawn].size <= lim.bytes {
        SpawnNeverFails(children, c.spawn + 1, Append(EMPTY, children[c.spawn], lim).value.value, lim);
        FilesNeverFail(files, c.file, c.offset, Spawn(children, c.spawn, EMPTY, lim).value.0, lim);
      }
    } else if lim.count > 0 {
      FilesStall(files, c.file, c.offset, lim);
    } else {
      NoRoomReads(files, c.file, c.offset, EMPTY, lim);
    }
  }

  // ---------------------------------------------------------------- failing inputs

  const SAMPLED := [File(true, 0, [Line(0, 1, Usage(Sample("s", 5))), Line(1, 2, Item(Event("k", 6)))])]

  /** A sample and an event that fit one by one: the page that starts at the sample fails, every time,
    * while a page that starts behind the sample succeeds under the same limits. */
  lemma SampleBlocksEvent()
    ensures Collect([], SAMPLED, Cursor(0, 0, 0), Limits(10, 10)) == Err(Limit)
    ensures Collect([], SAMPLED, Cursor(0, 0, 1), Limits(10, 10))
            == Ok(Paged(Page([Event("k", 6)], [], 6), Cursor(0, 1, 0)))
  {
    var lines, lim := SAMPLED[0].lines, Limits(10, 10);
    LinesFound(lines);
    var sampled := Page([], [Sample("s", 5)], 6);
    assert Append(sampled, Event("k", 6), lim) == Err(Limit);
    assert ReadFile(lines, 1, sampled, lim) == Err(Limit);
    assert [] + [Sample("s", 5)] == [Sample("s", 5)] && [] + [Event("k", 6)] == [Event("k", 6)];
    assert ReadFile(lines, 0, EMPTY, lim) == Err(Limit);
    var taken := Page([Event("k", 6)], [], 6);
    assert ReadFile(lines, 2, taken, lim) == Ok((taken, 2, true));
    assert ReadFile(lines, 1, EMPTY, lim) == Ok((taken, 2, true));
    assert ReadFiles(SAMPLED, 1, 0, taken, lim) == Ok((taken, 1, 0));
  }

  lemma LinesFound(lines: seq<Line>)
    requires |lines| == 2 && lines[0].start == 0 && lines[1].start == 1
    ensures LineAt(lines, 0) == 0 && LineAt(lines, 1) == 1
  {
    assert lines[..1][..0] == [];
    assert LineAt(lines[..1], 0) == 0 && LineAt(lines[..1], 1) == 1;
  }

  /** A sample as large as the page is never taken: the page is empty and ends where it began. */
  lemma LargeSampleStalls()
    ensures var files := [File(true, 0, [Line(0, 1, Usage(Sample("s", 10)))])];
            && Collect([], files, Cursor(0, 0, 0), Limits(10, 10)) == Ok(Paged(EMPTY, Cursor(0, 0, 0)))
            && !Complete([], files, Cursor(0, 0, 0))
  {
    var files := [File(true, 0, [Line(0, 1, Usage(Sample("s", 10)))])];
    assert files[0].lines[..0] == [];
    assert LineAt(files[0].lines, 0) == 0;
    assert ReadFile(files[0].lines, 0, EMPTY, Limits(10, 10)) == Ok((EMPTY, 0, false));
  }
}
