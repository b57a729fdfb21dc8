/** The rank registry of the Codex collector and the source order coordinates built on it. */
module CodexRanks {
  import opened Base

  const Stride := 0x80_0000_0000            // 2^39
  const CoordinateBase := 0x1_0000_0000_0000 // 2^48
  const SafeInteger := 0x20_0000_0000_0000   // 2^53
  const MaxRanks := 10_000
  const MaxSessions := 10_000

  /** Milliseconds of 9999-12-31T23:59:59.999Z, the last legacy clock value. */
  const LastLegacyClock := 253_402_300_799_999

  /** One physical generation of a rollout file. */
  datatype Key = Key(objectId: string, generation: string)

  datatype Ranked = Ranked(key: Key, rank: nat)

  type Registry = map<string, seq<Ranked>>

  datatype Snapshot = Snapshot(sessionId: string, files: seq<Key>)

  function Sources(registry: Registry, sessionId: string): seq<Ranked> {
    if sessionId in registry then registry[sessionId] else []
  }

  predicate Knows(sources: seq<Ranked>, key: Key) {
    exists k :: 0 <= k < |sources| && sources[k].key == key
  }

  function TopRank(sources: seq<Ranked>): (r: nat)
    ensures forall k :: 0 <= k < |sources| ==> sources[k].rank <= r
  {
    if sources == [] then 0 else Max(TopRank(sources[..|sources| - 1]), sources[|sources| - 1].rank)
  }

  /** A file that is known keeps its rank; a new one gets the next. */
  function RankFile(sources: seq<Ranked>, key: Key): Result<seq<Ranked>> {
    if Knows(sources, key) then Ok(sources)
    else if TopRank(sources) + 1 > MaxRanks then Err(Limit)
    else Ok(sources + [Ranked(key, TopRank(sources) + 1)])
  }

  function RankFiles(sources: seq<Ranked>, files: seq<Key>): Result<seq<Ranked>>
    decreases |files|
  {
    if files == [] then Ok(sources)
    else var next :- RankFile(sources, files[0]);
         RankFiles(next, files[1..])
  }

  function AssignOne(registry: Registry, s: Snapshot): Result<Registry> {
    var sources :- RankFiles(Sources(registry, s.sessionId), s.files);
    var next := registry[s.sessionId := sources];
    if |next| > MaxSessions then Err(Limit) else Ok(next)
  }

  /** `assignSourceRanks`. */
  function Assign(registry: Registry, snapshots: seq<Snapshot>): Result<Registry>
    decreases |snapshots|
  {
    if snapshots == [] then Ok(registry)
    else var next :- AssignOne(registry, snapshots[0]);
         Assign(next, snapshots[1..])
  }

  // ---------------------------------------------------------------- ranks are stable and injective

  /** Distinct keys hold distinct ranks between 1 and the limit. */
  ghost predicate Injective(sources: seq<Ranked>) {
    && (forall k :: 0 <= k < |sources| ==> 1 <= sources[k].rank <= MaxRanks)
    && forall i, j :: 0 <= i < j < |sources| ==> sources[i].key != sources[j].key && sources[i].rank != sources[j].rank
  }

  ghost predicate Valid(registry: Registry) {
    forall id :: id in registry ==> Injective(registry[id])
  }

  lemma FileRanked(sources: seq<Ranked>, key: Key)
    requires Injective(sources) && RankFile(sources, key).Ok?
    ensures var after := RankFile(sources, key).value; Injective(after) && sources <= after && Knows(after, key)
  {
    var after := RankFile(sources, key).value;
    if after != sources {
      assert after[|sources|].key == key;
    }
  }

  ghost predicate KnowsAll(sources: seq<Ranked>, files: seq<Key>) {
    forall k :: 0 <= k < |files| ==> Knows(sources, files[k])
  }

  lemma {:induction false} FilesRanked(sources: seq<Ranked>, files: seq<Key>)
    requires Injective(sources) && RankFiles(sources, files).Ok?
    ensures var after := RankFiles(sources, files).value;
            Injective(after) && sources <= after && KnowsAll(after, files)
    decreases |files|
  {
    hide RankFile, Injective, Knows;
    if files != [] {
      FileRanked(sources, files[0]);
      var next := RankFile(sources, files[0]).value;
      FilesRanked(next, files[1..]);
      var after := RankFiles(sources, files).value;
      KnownLater(next, after, files[0]);
      forall k | 0 <= k < |files|
        ensures Knows(after, files[k])
      {
        if k > 0 {
          assert files[k] == files[1..][k - 1];
        }
      }
    }
  }

  lemma KnownLater(sources: seq<Ranked>, after: seq<Ranked>, key: Key)
    requires sources <= after && Knows(sources, key)
    ensures Knows(after, key)
  {
    var k :| 0 <= k < |sources| && sources[k].key == key;
    assert after[k] == sources[k];
  }

  /** No session's sources are ever dropped or reordered. */
  ghost predicate Extends(before: Registry, after: Registry) {
    forall id :: id in before ==> id in after && before[id] <= after[id]
  }

  lemma OneAssigned(registry: Registry, s: Snapshot)
    requires Valid(registry) && AssignOne(registry, s).Ok?
    ensures var after := AssignOne(registry, s).value;
            Valid(after) && Extends(registry, after) && Serves(after, s)
  {
    FilesRanked(Sources(registry, s.sessionId), s.files);
  }

  ghost predicate Serves(registry: Registry, s: Snapshot) {
    s.sessionId in registry && KnowsAll(registry[s.sessionId], s.files)
  }

  /** Every file of every snapshot ends up with a rank. */
  lemma {:induction false} AllAssigned(registry: Registry, snapshots: seq<Snapshot>)
    requires Valid(registry) && Assign(registry, snapshots).Ok?
    ensures var after := Assign(registry, snapshots).value;
            && Valid(after) && Extends(registry, after)
            && forall k :: 0 <= k < |snapshots| ==> Serves(after, snapshots[k])
    decreases |snapshots|
  {
    if snapshots != [] {
      var next := AssignOne(registry, snapshots[0]).value;
      OneAssigned(registry, snapshots[0]);
      AllAssigned(next, snapshots[1..]);
      var after := Assign(registry, snapshots).value;
      forall k | 0 <= k < |snapshots|
        ensures Serves(after, snapshots[k])
      {
        if k == 0 {
          ServedLater(next, after, snapshots[0]);
        } else {
          assert snapshots[k] == snapshots[1..][k - 1];
        }
      }
    }
  }

  lemma ServedLater(before: Registry, after: Registry, s: Snapshot)
    requires Serves(before, s) && Extends(before, after)
    ensures Serves(after, s)
  {
    forall k | 0 <= k < |s.files|
      ensures Knows(after[s.sessionId], s.files[k])
    {
      KnownLater(before[s.sessionId], after[s.sessionId], s.files[k]);
    }
  }

  // ---------------------------------------------------------------- runs of cursor steps

  /** The registry a cursor carries after each of a run of steps. */
  function Evolve(registry: Registry, steps: seq<seq<Snapshot>>, n: nat): Result<Registry>
    requires n <= |steps|
  {
    if n == 0 then Ok(registry)
    else var before :- Evolve(registry, steps, n - 1);
         Assign(before, steps[n - 1])
  }

  lemma ExtendsSelf(a: Registry)
    ensures Extends(a, a)
  {
  }

  lemma ExtendsOn(a: Registry, b: Registry, c: Registry)
    requires Extends(a, b) && Extends(b, c)
    ensures Extends(a, c)
  {
  }

  lemma {:induction false} EvolveExtends(registry: Registry, steps: seq<seq<Snapshot>>, m: nat, n: nat)
    requires m <= n <= |steps| && Valid(registry) && Evolve(registry, steps, n).Ok?
    ensures Evolve(registry, steps, m).Ok?
    ensures Valid(Evolve(registry, steps, m).value) && Valid(Evolve(registry, steps, n).value)
    ensures Extends(Evolve(registry, steps, m).value, Evolve(registry, steps, n).value)
    decreases n
  {
    hide Assign, Valid, Extends;
    if n == 0 {
      ExtendsSelf(registry);
    } else {
      EvolveExtends(registry, steps, if m == n then n - 1 else m, n - 1);
      var before := Evolve(registry, steps, n - 1).value;
      AllAssigned(before, steps[n - 1]);
      if m == n {
        ExtendsSelf(Evolve(registry, steps, n).value);
      } else {
        ExtendsOn(Evolve(registry, steps, m).value, before, Evolve(registry, steps, n).value);
      }
    }
  }

  /** The rank the registry holds for a source. */
  function RankOf(sources: seq<Ranked>, key: Key): nat
    requires Knows(sources, key)
  {
    if sources[|sources| - 1].key == key then sources[|sources| - 1].rank else RankOf(sources[..|sources| - 1], key)
  }

  lemma {:induction false} RankFound(sources: seq<Ranked>, key: Key, at: nat)
    requires Injective(sources) && at < |sources| && sources[at].key == key
    ensures Knows(sources, key) && RankOf(sources, key) == sources[at].rank
  {
    if at != |sources| - 1 {
      RankFound(sources[..|sources| - 1], key, at);
    }
  }

  // ---------------------------------------------------------------- coordinates

  /** `SourceOrderBase + sourceRank * SourceOrderStride + line.start`. */
  function Coordinate(rank: nat, offset: nat): nat {
    CoordinateBase + rank * Stride + offset
  }

  /** Coordinates are exact in a double, later than every legacy clock, and ordered by source
    * and then by byte offset. */
  lemma CoordinateDomain(rank: nat, offset: nat)
    requires 1 <= rank <= MaxRanks && offset < Stride
    ensures LastLegacyClock < Coordinate(rank, offset) < SafeInteger
  {
  }

  lemma CoordinateOrder(rank: nat, offset: nat, rank': nat, offset': nat)
    requires offset < Stride && offset' < Stride
    ensures Coordinate(rank, offset) < Coordinate(rank', offset')
            <==> rank < rank' || (rank == rank' && offset < offset')
    ensures Coordinate(rank, offset) == Coordinate(rank', offset') ==> rank == rank' && offset == offset'
  {
    if rank < rank' {
      assert (rank + 1) * Stride <= rank' * Stride;
    } else if rank' < rank {
      assert (rank' + 1) * Stride <= rank * Stride;
    }
  }

  /** A line's coordinate once the registry has seen its file. */
  function LineOrder(registry: Registry, sessionId: string, key: Key, offset: nat): nat
    requires sessionId in registry && Knows(registry[sessionId], key)
  {
    Coordinate(RankOf(registry[sessionId], key), offset)
  }

  /** Main result. Over any run of cursor steps the coordinate of a line never changes, and two
    * lines of a session share one only if they are the same byte of the same generation. */
  lemma CoordinatesForGood(registry: Registry, steps: seq<seq<Snapshot>>, m: nat, n: nat, sessionId: string,
                           a: Key, i: nat, b: Key, j: nat)
    requires m <= n <= |steps| && Valid(registry) && Evolve(registry, steps, n).Ok? && Evolve(registry, steps, m).Ok?
    requires i < Stride && j < Stride
    requires var early := Evolve(registry, steps, m).value; sessionId in early && Knows(early[sessionId], a)
    requires var late := Evolve(registry, steps, n).value; sessionId in late && Knows(late[sessionId], b)
    ensures var early, late := Evolve(registry, steps, m).value, Evolve(registry, steps, n).value;
            && Knows(late[sessionId], a)
            && LineOrder(late, sessionId, a, i) == LineOrder(early, sessionId, a, i)
            && LastLegacyClock < LineOrder(late, sessionId, a, i) < SafeInteger
            && (LineOrder(early, sessionId, a, i) == LineOrder(late, sessionId, b, j) <==> a == b && i == j)
            && (a == b ==> (LineOrder(early, sessionId, a, i) < LineOrder(late, sessionId, b, j) <==> i < j))
  {
    hide Evolve, Coordinate, RankOf, Injective;
    EvolveExtends(registry, steps, m, n);
    var early: Registry, late: Registry := Evolve(registry, steps, m).value, Evolve(registry, steps, n).value;
    var k :| 0 <= k < |early[sessionId]| && early[sessionId][k].key == a;
    var l :| 0 <= l < |late[sessionId]| && late[sessionId][l].key == b;
    assert late[sessionId][k] == early[sessionId][k];
    RankFound(early[sessionId], a, k);
    RankFound(late[sessionId], a, k);
    RankFound(late[sessionId], b, l);
    SameRankSameKey(late[sessionId], k, l);
    CoordinateDomain(late[sessionId][k].rank, i);
    CoordinateOrder(late[sessionId][k].rank, i, late[sessionId][l].rank, j);
  }

  lemma SameRankSameKey(sources: seq<Ranked>, k: nat, l: nat)
    requires Injective(sources) && k < |sources| && l < |sources|
    ensures sources[k].rank == sources[l].rank <==> sources[k].key == sources[l].key
    ensures 1 <= sources[k].rank <= MaxRanks
  {
  }

  /** The limit is exact: a full registry refuses the next file, and only then. */
  lemma RankLimit(sources: seq<Ranked>, key: Key)
    requires Injective(sources)
    ensures RankFile(sources, key).Err? <==> !Knows(sources, key) && TopRank(sources) == MaxRanks
  {
    TopRankReached(sources);
  }

  /** So is the limit on sessions: only a new session is refused, and only behind all others. */
  lemma SessionLimit(registry: Registry, s: Snapshot)
    requires |registry| <= MaxSessions && RankFiles(Sources(registry, s.sessionId), s.files).Ok?
    ensures AssignOne(registry, s).Err? <==> s.sessionId !in registry && |registry| == MaxSessions
    ensures AssignOne(registry, s).Ok? ==> |AssignOne(registry, s).value| <= MaxSessions
  {
    var next := registry[s.sessionId := RankFiles(Sources(registry, s.sessionId), s.files).value];
    assert next.Keys == registry.Keys + {s.sessionId};
    assert |next| == |next.Keys| && |registry| == |registry.Keys|;
  }

  lemma {:induction false} TopRankReached(sources: seq<Ranked>)
    ensures sources != [] ==> exists k :: 0 <= k < |sources| && sources[k].rank == TopRank(sources)
    ensures sources == [] ==> TopRank(sources) == 0
  {
    if sources != [] {
      var init, last := sources[..|sources| - 1], |sources| - 1;
      TopRankReached(init);
      if TopRank(init) <= sources[last].rank {
        assert sources[last].rank == TopRank(sources);
      } else {
        var k :| 0 <= k < |init| && init[k].rank == TopRank(init);
        assert sources[k].rank == TopRank(sources);
      }
    }
  }

  // ---------------------------------------------------------------- the loops of the source

  lemma TopRankSnoc(sources: seq<Ranked>, r: Ranked)
    ensures TopRank(sources + [r]) == Max(TopRank(sources), r.rank)
  {
    assert (sources + [r])[..|sources|] == sources;
  }

  /** One session: `nextRank` is counted up while new files are added. */
  method RankSession(prior: seq<Ranked>, files: seq<Key>) returns (r: Result<seq<Ranked>>)
    ensures r == RankFiles(prior, files)
  {
    var sources := prior;
    var known := set k | 0 <= k < |prior| :: prior[k].key;
    var nextRank := 0;
    var at := 0;
    while at < |prior|
      invariant 0 <= at <= |prior| && nextRank == TopRank(prior[..at])
    {
      assert prior[..at + 1][..at] == prior[..at];
      nextRank := Max(nextRank, prior[at].rank);
      at := at + 1;
    }
    assert prior[..at] == prior;
    nextRank := nextRank + 1;
    at := 0;
    while at < |files|
      invariant 0 <= at <= |files|
      invariant RankFiles(prior, files) == RankFiles(sources, files[at..])
      invariant nextRank == TopRank(sources) + 1
      invariant forall key :: key in known <==> Knows(sources, key)
    {
      var key := files[at];
      assert files[at..][0] == key && files[at..][1..] == files[at + 1..];
      at := at + 1;
      if key !in known {
        if nextRank > MaxRanks {
          return Err(Limit);
        }
        TopRankSnoc(sources, Ranked(key, nextRank));
        KnowsSnoc(sources, Ranked(key, nextRank));
        sources := sources + [Ranked(key, nextRank)];
        nextRank := nextRank + 1;
        known := known + {key};
      }
    }
    r := Ok(sources);
  }

  lemma KnowsSnoc(sources: seq<Ranked>, r: Ranked)
    ensures forall key :: Knows(sources + [r], key) <==> Knows(sources, key) || key == r.key
  {
    forall key
      ensures Knows(sources + [r], key) <==> Knows(sources, key) || key == r.key
    {
      if Knows(sources, key) {
        KnownLater(sources, sources + [r], key);
      }
      assert (sources + [r])[|sources|].key == r.key;
    }
  }

  method AssignSourceRanks(prior: Registry, snapshots: seq<Snapshot>) returns (r: Result<Registry>)
    ensures r == Assign(prior, snapshots)
  {
    var sessions := prior;
    var at := 0;
    while at < |snapshots|
      invariant 0 <= at <= |snapshots| && Assign(prior, snapshots) == Assign(sessions, snapshots[at..])
    {
      var s := snapshots[at];
      assert snapshots[at..][0] == s && snapshots[at..][1..] == snapshots[at + 1..];
      at := at + 1;
      var sources := RankSession(if s.sessionId in sessions then sessions[s.sessionId] else [], s.files);
      if sources.Err? {
        return Err(sources.reason);
      }
      sessions := sessions[s.sessionId := sources.value];
      if |sessions| > MaxSessions {
        return Err(Limit);
      }
    }
    r := Ok(sessions);
  }
}
