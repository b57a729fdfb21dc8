/** When two events of a Codex session have one key: the event keys that paging is about, derived from which
  * lines own an item in the tables of the projection. */
module CodexKeys {
  import opened Base
  import opened CodexOwnership
  import P = CodexPages

  // ---------------------------------------------------------------- keys of one list, and of files

  ghost predicate KeysApart(a: seq<P.Event>, b: seq<P.Event>) {
    forall i, j :: 0 <= i < |a| && 0 <= j < |b| ==> a[i].key != b[j].key
  }

  lemma DistinctJoins(a: seq<P.Event>, b: seq<P.Event>)
    ensures P.KeysDistinct(a + b) <==> P.KeysDistinct(a) && P.KeysDistinct(b) && KeysApart(a, b)
  {
    if P.KeysDistinct(a + b) {
      assert forall i :: 0 <= i < |a| ==> (a + b)[i] == a[i];
      assert forall j :: 0 <= j < |b| ==> (a + b)[|a| + j] == b[j];
    }
  }

  ghost predicate HasKey(events: seq<P.Event>, key: string) {
    exists x :: 0 <= x < |events| && events[x].key == key
  }

  lemma HasKeyJoins(a: seq<P.Event>, b: seq<P.Event>, key: string)
    ensures HasKey(a + b, key) <==> HasKey(a, key) || HasKey(b, key)
  {
    assert forall i :: 0 <= i < |a| ==> (a + b)[i] == a[i];
    assert forall j :: 0 <= j < |b| ==> (a + b)[|a| + j] == b[j];
  }

  ghost predicate LineHasKey(lines: seq<P.Line>, k: nat, key: string) {
    exists i :: k <= i < |lines| && lines[i].what.Item? && lines[i].what.event.key == key
  }

  lemma {:induction false} EventOfLine(lines: seq<P.Line>, k: nat, key: string)
    ensures HasKey(P.EventsOf(lines, k), key) <==> LineHasKey(lines, k, key)
    decreases |lines| - k
  {
    if k < |lines| {
      EventOfLine(lines, k + 1, key);
      var here := if lines[k].what.Item? then [lines[k].what.event] else [];
      HasKeyJoins(here, P.EventsOf(lines, k + 1), key);
      assert lines[k].what.Item? ==> here[0].key == lines[k].what.event.key;
    }
  }

  ghost predicate ListDistinct(lines: seq<P.Line>, k: nat) {
    forall i, j :: k <= i < j < |lines| && lines[i].what.Item? && lines[j].what.Item? ==>
                     lines[i].what.event.key != lines[j].what.event.key
  }

  lemma ConsDistinct(e: P.Event, rest: seq<P.Event>)
    ensures P.KeysDistinct([e] + rest) <==> !HasKey(rest, e.key) && P.KeysDistinct(rest)
  {
    DistinctJoins([e], rest);
    assert P.KeysDistinct([e]);
    if HasKey(rest, e.key) {
      var j :| 0 <= j < |rest| && rest[j].key == e.key;
      assert [e][0].key == rest[j].key;
    }
  }

  lemma ListCons(lines: seq<P.Line>, k: nat)
    requires k < |lines|
    ensures ListDistinct(lines, k) <==>
              ListDistinct(lines, k + 1)
              && (lines[k].what.Item? ==> !LineHasKey(lines, k + 1, lines[k].what.event.key))
  {
  }

  lemma {:induction false} ListIsDistinct(lines: seq<P.Line>, k: nat)
    ensures P.KeysDistinct(P.EventsOf(lines, k)) <==> ListDistinct(lines, k)
    decreases |lines| - k
  {
    hide ListDistinct, P.KeysDistinct, LineHasKey, HasKey;
    if k < |lines| {
      ListIsDistinct(lines, k + 1);
      ListCons(lines, k);
      if lines[k].what.Item? {
        ConsDistinct(lines[k].what.event, P.EventsOf(lines, k + 1));
        EventOfLine(lines, k + 1, lines[k].what.event.key);
      } else {
        assert P.EventsOf(lines, k) == P.EventsOf(lines, k + 1);
      }
    } else {
      NoLines(lines, k);
    }
  }

  lemma NoLines(lines: seq<P.Line>, k: nat)
    requires k >= |lines|
    ensures P.KeysDistinct(P.EventsOf(lines, k)) && ListDistinct(lines, k)
  {
  }

  // ---------------------------------------------------------------- files from a cursor on

  /** The first line of the file that is read from an offset on. */
  function Begin(f: P.File, offset: nat): nat {
    P.LineAt(f.lines, P.From(f, offset))
  }

  function Here(files: seq<P.File>, k: nat, offset: nat): seq<P.Event>
    requires k < |files|
  {
    if files[k].live then P.EventsOf(files[k].lines, Begin(files[k], offset)) else []
  }

  /** Line `i` of file `k` lies ahead of the place and puts out an event with this key. */
  predicate PutsOut(files: seq<P.File>, from: nat, offset: nat, k: nat, i: nat, key: string) {
    && from <= k < |files| && files[k].live
    && Begin(files[k], if k == from then offset else 0) <= i < |files[k].lines|
    && files[k].lines[i].what.Item? && files[k].lines[i].what.event.key == key
  }

  /** No two lines ahead of the place put out the same key. */
  ghost predicate LinesDistinct(files: seq<P.File>, from: nat, offset: nat) {
    forall k: nat, i: nat, j: nat, l: nat, key
      {:trigger PutsOut(files, from, offset, k, i, key), PutsOut(files, from, offset, j, l, key)} ::
      PutsOut(files, from, offset, k, i, key) && PutsOut(files, from, offset, j, l, key) ==> k == j && i == l
  }

  lemma FilesCons(files: seq<P.File>, k: nat, offset: nat)
    requires k < |files|
    ensures P.FilesEvents(files, k, offset) == Here(files, k, offset) + P.FilesEvents(files, k + 1, 0)
  {
  }

  lemma HereHasKey(files: seq<P.File>, k: nat, offset: nat, key: string)
    requires k < |files|
    ensures HasKey(Here(files, k, offset), key) <==> HerePutsOut(files, k, offset, key)
  {
    var lines, begin := files[k].lines, Begin(files[k], offset);
    EventOfLine(lines, begin, key);
    if files[k].live && HasKey(Here(files, k, offset), key) {
      var i: nat :| begin <= i < |lines| && lines[i].what.Item? && lines[i].what.event.key == key;
      assert PutsOut(files, k, offset, k, i, key);
    }
  }

  /** Some line ahead of the place puts out the key; of this file, or of a later one. */
  ghost predicate SomePutsOut(files: seq<P.File>, from: nat, offset: nat, key: string) {
    exists k: nat, i: nat :: PutsOut(files, from, offset, k, i, key)
  }

  ghost predicate HerePutsOut(files: seq<P.File>, k: nat, offset: nat, key: string) {
    exists i: nat :: PutsOut(files, k, offset, k, i, key)
  }

  /** Later files are read from their beginning. */
  lemma PutsOutLater(files: seq<P.File>, from: nat, next: nat, offset: nat, k: nat, i: nat, key: string)
    requires next == from + 1
    ensures PutsOut(files, next, 0, k, i, key) <==> k != from && PutsOut(files, from, offset, k, i, key)
  {
  }

  lemma SomePutsOutCons(files: seq<P.File>, from: nat, next: nat, offset: nat, key: string)
    requires next == from + 1
    ensures SomePutsOut(files, from, offset, key)
            <==> HerePutsOut(files, from, offset, key) || SomePutsOut(files, next, 0, key)
  {
    hide PutsOut;
    forall k: nat, i: nat
      ensures PutsOut(files, next, 0, k, i, key) <==> k != from && PutsOut(files, from, offset, k, i, key)
    {
      PutsOutLater(files, from, next, offset, k, i, key);
    }
  }

  lemma {:induction false} FilesHaveKey(files: seq<P.File>, from: nat, offset: nat, key: string)
    ensures HasKey(P.FilesEvents(files, from, offset), key) <==> SomePutsOut(files, from, offset, key)
    decreases |files| - from
  {
    hide P.FilesEvents, Here, HasKey, SomePutsOut;
    if from < |files| {
      FilesHaveKey(files, from + 1, 0, key);
      FilesCons(files, from, offset);
      HasKeyJoins(Here(files, from, offset), P.FilesEvents(files, from + 1, 0), key);
      HereHasKey(files, from, offset, key);
      SomePutsOutCons(files, from, from + 1, offset, key);
    } else {
      NoFiles(files, from, offset);
    }
  }

  lemma NoFiles(files: seq<P.File>, from: nat, offset: nat)
    requires from >= |files|
    ensures forall key :: !HasKey(P.FilesEvents(files, from, offset), key) && !SomePutsOut(files, from, offset, key)
    ensures P.KeysDistinct(P.FilesEvents(files, from, offset)) && LinesDistinct(files, from, offset)
  {
  }

  lemma ApartIsKeys(a: seq<P.Event>, b: seq<P.Event>)
    ensures KeysApart(a, b) <==> forall key :: !(HasKey(a, key) && HasKey(b, key))
  {
    if forall key :: !(HasKey(a, key) && HasKey(b, key)) {
      forall i, j | 0 <= i < |a| && 0 <= j < |b|
        ensures a[i].key != b[j].key
      {
        if a[i].key == b[j].key {
          assert HasKey(a, a[i].key) && HasKey(b, a[i].key);
        }
      }
    }
  }

  /** No two lines of the file put out the same key. */
  ghost predicate HereLinesDistinct(files: seq<P.File>, k: nat, offset: nat) {
    forall i: nat, j: nat, key
      {:trigger PutsOut(files, k, offset, k, i, key), PutsOut(files, k, offset, k, j, key)} ::
      PutsOut(files, k, offset, k, i, key) && PutsOut(files, k, offset, k, j, key) ==> i == j
  }

  lemma HereDistinct(files: seq<P.File>, k: nat, offset: nat)
    requires k < |files|
    ensures P.KeysDistinct(Here(files, k, offset)) <==> HereLinesDistinct(files, k, offset)
  {
    var lines, begin := files[k].lines, Begin(files[k], offset);
    if files[k].live {
      ListIsDistinct(lines, begin);
      if HereLinesDistinct(files, k, offset) {
        forall i, j | begin <= i < j < |lines| && lines[i].what.Item? && lines[j].what.Item?
          ensures lines[i].what.event.key != lines[j].what.event.key
        {
          assert PutsOut(files, k, offset, k, i, lines[i].what.event.key);
          assert PutsOut(files, k, offset, k, j, lines[j].what.event.key);
        }
      }
    }
  }

  ghost predicate NoCommonKey(files: seq<P.File>, from: nat, next: nat, offset: nat) {
    forall key :: !(HerePutsOut(files, from, offset, key) && SomePutsOut(files, next, 0, key))
  }

  lemma LinesDistinctCons(files: seq<P.File>, from: nat, next: nat, offset: nat)
    requires next == from + 1
    ensures LinesDistinct(files, from, offset) <==>
              HereLinesDistinct(files, from, offset) && LinesDistinct(files, next, 0)
              && NoCommonKey(files, from, next, offset)
  {
    hide PutsOut;
    forall k: nat, i: nat, key
      ensures PutsOut(files, next, 0, k, i, key) <==> k != from && PutsOut(files, from, offset, k, i, key)
    {
      PutsOutLater(files, from, next, offset, k, i, key);
    }
    if HereLinesDistinct(files, from, offset) && LinesDistinct(files, next, 0)
      && NoCommonKey(files, from, next, offset) {
      forall k: nat, i: nat, j: nat, l: nat, key
        {:trigger PutsOut(files, from, offset, k, i, key), PutsOut(files, from, offset, j, l, key)} |
        PutsOut(files, from, offset, k, i, key) && PutsOut(files, from, offset, j, l, key)
        ensures k == j && i == l
      {
        assert k == from ==> HerePutsOut(files, from, offset, key);
        assert j == from ==> HerePutsOut(files, from, offset, key);
        assert k != from ==> PutsOut(files, next, 0, k, i, key);
        assert j != from ==> PutsOut(files, next, 0, j, l, key);
      }
    }
  }

  /** The events of the files have distinct keys exactly when no two lines put out the same key. */
  lemma {:induction false} FilesAreDistinct(files: seq<P.File>, from: nat, offset: nat)
    ensures P.KeysDistinct(P.FilesEvents(files, from, offset)) <==> LinesDistinct(files, from, offset)
    decreases |files| - from
  {
    hide P.FilesEvents, Here, P.KeysDistinct, KeysApart, HasKey, LinesDistinct, HereLinesDistinct, HerePutsOut,
         SomePutsOut;
    if from < |files| {
      var here, later := Here(files, from, offset), P.FilesEvents(files, from + 1, 0);
      FilesAreDistinct(files, from + 1, 0);
      FilesCons(files, from, offset);
      DistinctJoins(here, later);
      ApartIsKeys(here, later);
      HereDistinct(files, from, offset);
      LinesDistinctCons(files, from, from + 1, offset);
      forall key
        ensures HasKey(here, key) <==> HerePutsOut(files, from, offset, key)
      {
        HereHasKey(files, from, offset, key);
      }
      forall key
        ensures HasKey(later, key) <==> SomePutsOut(files, from + 1, 0, key)
      {
        FilesHaveKey(files, from + 1, 0, key);
      }
    } else {
      NoFiles(files, from, offset);
    }
  }

  /** No spawn event ahead has the key of a line ahead. */
  ghost predicate SpawnsApart(children: seq<P.Event>, files: seq<P.File>, c: P.Cursor) {
    forall j :: c.spawn <= j < |children| ==> !SomePutsOut(files, c.file, c.offset, children[j].key)
  }

  /** Everything ahead of a cursor has distinct keys exactly when spawn events and lines have. */
  lemma AheadIsDistinct(children: seq<P.Event>, files: seq<P.File>, c: P.Cursor)
    requires c.spawn <= |children| && P.KeysDistinct(children[c.spawn..])
    ensures P.KeysDistinct(P.EventsAhead(children, files, c)) <==>
              LinesDistinct(files, c.file, c.offset) && SpawnsApart(children, files, c)
  {
    hide P.FilesEvents, P.KeysDistinct, LinesDistinct, KeysApart, HasKey, SomePutsOut;
    var spawns, later := children[c.spawn..], P.FilesEvents(files, c.file, c.offset);
    DistinctJoins(spawns, later);
    FilesAreDistinct(files, c.file, c.offset);
    ApartIsKeys(spawns, later);
    forall key
      ensures HasKey(later, key) <==> SomePutsOut(files, c.file, c.offset, key)
    {
      FilesHaveKey(files, c.file, c.offset, key);
    }
    forall key
      ensures HasKey(spawns, key) <==> exists j :: c.spawn <= j < |children| && children[j].key == key
    {
      SpawnHasKey(children, c.spawn, key);
    }
  }

  lemma SpawnHasKey(children: seq<P.Event>, from: nat, key: string)
    requires from <= |children|
    ensures HasKey(children[from..], key) <==> exists j :: from <= j < |children| && children[j].key == key
  {
    if j :| from <= j < |children| && children[j].key == key {
      assert children[from..][j - from].key == key;
    }
  }

  // ---------------------------------------------------------------- what the projection puts out

  /** A child thread and the thread that it hangs under. */
  datatype Child = Child(thread: string, parent: string)

  /** How events are named: event ids are cut to a maximal length, an item without an id is named after its
    * place, and the keys of a page join thread and event id. */
  datatype Names = Names(short: string -> string, placed: Place -> string, key: Key -> string, size: Place -> nat)

  /** Places and keys are told apart by their names; ids that differ only behind the cut are not. */
  ghost predicate Telling(names: Names) {
    && (forall a, b :: names.placed(a) == names.placed(b) ==> a == b)
    && forall a, b :: names.key(a) == names.key(b) ==> a == b
  }

  function PlaceOf(f: File, l: Line): Place {
    Place(f.objectId, l.start)
  }

  function KeyOf(f: File, l: Line, session: string, what: Shown, names: Names): Key {
    match what
    case ShownCompleted(key) => key
    case ShownLegacy(key) => key
    case ShownResponse(Some(id)) => Key(ThreadOf(f, session), names.short(id))
    case ShownResponse(None) => Key(ThreadOf(f, session), names.placed(PlaceOf(f, l)))
  }

  function LineOut(p: Projection, f: File, l: Line, session: string, names: Names): P.What {
    var what := Show(p, f, l, session);
    if what.None? then P.Nothing
    else P.Item(P.Event(names.key(KeyOf(f, l, session, what.value, names)), names.size(PlaceOf(f, l))))
  }

  function FileOut(p: Projection, f: File, start: nat, session: string, names: Names): (r: P.File)
    ensures r.live == f.live && r.startOffset == start && |r.lines| == |f.lines|
    ensures forall i :: 0 <= i < |r.lines| ==>
              r.lines[i].start == f.lines[i].start && r.lines[i].what == LineOut(p, f, f.lines[i], session, names)
  {
    P.File(f.live, start, seq(|f.lines|, i requires 0 <= i < |f.lines| =>
      P.Line(f.lines[i].start, if i + 1 < |f.lines| then f.lines[i + 1].start else f.lines[i].start + 1,
             LineOut(p, f, f.lines[i], session, names))))
  }

  /** The files of a session as the pages read them, each from its start offset on. */
  function Out(files: seq<File>, starts: seq<nat>, session: string, names: Names): (r: seq<P.File>)
    requires |starts| == |files|
    ensures |r| == |files|
    ensures forall k :: 0 <= k < |r| ==> r[k] == FileOut(Inspect(files, session), files[k], starts[k], session, names)
  {
    var p := Inspect(files, session);
    seq(|files|, k requires 0 <= k < |files| => FileOut(p, files[k], starts[k], session, names))
  }

  function SpawnKey(child: Child): Key {
    Key(child.parent, "spawn-" + child.thread)
  }

  function Spawns(children: seq<Child>, names: Names): (r: seq<P.Event>)
    ensures |r| == |children|
    ensures forall j :: 0 <= j < |r| ==> r[j].key == names.key(SpawnKey(children[j]))
  {
    seq(|children|, j requires 0 <= j < |children| =>
      P.Event(names.key(SpawnKey(children[j])), names.size(Place(children[j].thread, 0))))
  }

  predicate ThreadsDistinct(children: seq<Child>) {
    forall i, j :: 0 <= i < j < |children| ==> children[i].thread != children[j].thread
  }

  lemma SpawnsDistinct(children: seq<Child>, from: nat, names: Names)
    requires ThreadsDistinct(children) && Telling(names) && from <= |children|
    ensures P.KeysDistinct(Spawns(children, names)[from..])
  {
    var all := Spawns(children, names);
    forall i, j | 0 <= i < j < |all[from..]|
      ensures all[from..][i].key != all[from..][j].key
    {
      var a, b := children[from + i].thread, children[from + j].thread;
      assert ("spawn-" + a)[6..] == a && ("spawn-" + b)[6..] == b;
    }
  }

  // ---------------------------------------------------------------- who owns a key

  /** What gives an event its key: a child thread, a completed item, a message, a response item by its id, or a
    * response item without an id. */
  datatype Entry = Spawning | Completing | Carrying | Offering(id: string) | Unnamed

  function EntryOf(what: Shown): Entry {
    match what
    case ShownCompleted(_) => Completing
    case ShownLegacy(_) => Carrying
    case ShownResponse(Some(id)) => Offering(id)
    case ShownResponse(None) => Unnamed
  }

  predicate LiveLine(files: seq<File>, k: nat, i: nat) {
    k < |files| && files[k].live && i < |files[k].lines|
  }

  /** The line owns the completed item. */
  ghost predicate OwnsItem(files: seq<File>, session: string, key: Key, k: nat, i: nat) {
    Site(files, session, key, k, i)
    && var owners := Claims(files, |files|, session);
       key in owners && owners[key].objectId == files[k].objectId && owners[key].offset == files[k].lines[i].start
  }

  /** The line owns the response item. */
  ghost predicate OwnsResponse(files: seq<File>, session: string, id: string, k: nat, i: nat) {
    LiveLine(files, k, i) && OffersId(files[k], i, id)
    && var owners := Inspect(files, session).responses;
       id in owners && owners[id] == PlaceOf(files[k], files[k].lines[i])
  }

  /** A response item without an id, in a file that has neither completed items nor messages. */
  ghost predicate HasUnnamed(files: seq<File>, k: nat, i: nat) {
    && LiveLine(files, k, i) && files[k].lines[i].what.Response? && files[k].lines[i].what.itemId.None?
    && files[k].lines[i].what.mapped && FormatOf(files[k]) == ResponseItems
  }

  /** The line owns the key by this entry. */
  ghost predicate Owns(files: seq<File>, session: string, names: Names, entry: Entry, key: Key, k: nat, i: nat) {
    match entry
    case Spawning => false
    case Completing => OwnsItem(files, session, key, k, i)
    case Carrying => LastLegacy(files, session, key, |files|, 0, k, i) && !HasCompleted(files[k])
    case Offering(id) =>
      OwnsResponse(files, session, id, k, i) && key == Key(ThreadOf(files[k], session), names.short(id))
    case Unnamed =>
      HasUnnamed(files, k, i)
      && key == Key(ThreadOf(files[k], session), names.placed(PlaceOf(files[k], files[k].lines[i])))
  }

  /** What is shown for the line gives its event this key, by this entry. */
  ghost predicate ShowsAs(files: seq<File>, session: string, names: Names, entry: Entry, key: Key, k: nat, i: nat,
                          what: Shown)
  {
    ShownAt(files, session, k, i, what) && EntryOf(what) == entry
    && KeyOf(files[k], files[k].lines[i], session, what, names) == key
  }

  lemma OwnsLive(files: seq<File>, session: string, names: Names, entry: Entry, key: Key, k: nat, i: nat)
    requires Owns(files, session, names, entry, key, k, i)
    ensures LiveLine(files, k, i)
  {
    hide Claims, Inspect, OffersId, HasCompleted, FormatOf;
  }

  /** The last line with a message is its owner, and the other way round. */
  lemma LastOwns(files: seq<File>, session: string, key: Key, k: nat, i: nat)
    requires Distinguished(files) && LegacySite(files, session, key, k, i)
    ensures var owners := LegacyOwners(files, |files|, session);
            LastLegacy(files, session, key, |files|, 0, k, i)
            <==> key in owners && LegacyOwner(files, owners[key], k, i)
  {
    hide LegacyOwners, LegacySite, Distinguished;
    LegacyInside(files, session, key, k, i);
    LegacyIsOwned(files, session, key, |files|, k, i);
    var j, l := LegacyOwned(files, session, key, |files|);
    LegacyInside(files, session, key, j, l);
    if LegacyOwner(files, LegacyOwners(files, |files|, session)[key], k, i) {
      SamePlace(files, j, l, k, i);
    }
  }

  lemma LegacyInside(files: seq<File>, session: string, key: Key, k: nat, i: nat)
    requires LegacySite(files, session, key, k, i)
    ensures k < |files| && i < |files[k].lines|
  {
  }

  lemma UnnamedShown(files: seq<File>, session: string, k: nat, i: nat)
    requires Distinguished(files) && LiveLine(files, k, i)
    ensures ShownAt(files, session, k, i, ShownResponse(None)) <==> HasUnnamed(files, k, i)
  {
    hide Claims, Formats, OwnFiles, LegacyOwners, RootFirst, Accepts, FormatOf, Distinguished;
    FormatKnown(files, |files|, k);
  }

  /** A line owns a key exactly when it is shown under it. */
  lemma OwnsIsShown(files: seq<File>, session: string, names: Names, entry: Entry, key: Key, k: nat, i: nat)
    requires Distinguished(files) && LiveLine(files, k, i)
    ensures Owns(files, session, names, entry, key, k, i)
            <==> exists what :: ShowsAs(files, session, names, entry, key, k, i, what)
  {
    hide ShownAt, Inspect, Claims, Distinguished, OffersId, HasCompleted, LastLegacy, LegacySite, Site, HasUnnamed;
    match entry
    case Spawning =>
    case Completing =>
      CompletedShown(files, session, key, k, i);
      assert Owns(files, session, names, entry, key, k, i) ==>
          ShowsAs(files, session, names, entry, key, k, i, ShownCompleted(key));
    case Carrying =>
      CarryingIsShown(files, session, names, key, k, i);
    case Offering(id) =>
      OfferIsShown(files, session, id, k, i);
      assert Owns(files, session, names, entry, key, k, i) ==>
          ShowsAs(files, session, names, entry, key, k, i, ShownResponse(Some(id)));
    case Unnamed =>
      UnnamedShown(files, session, k, i);
      assert Owns(files, session, names, entry, key, k, i) ==>
          ShowsAs(files, session, names, entry, key, k, i, ShownResponse(None));
  }

  lemma CarryingIsShown(files: seq<File>, session: string, names: Names, key: Key, k: nat, i: nat)
    requires Distinguished(files) && LiveLine(files, k, i)
    ensures Owns(files, session, names, Carrying, key, k, i)
            <==> exists what :: ShowsAs(files, session, names, Carrying, key, k, i, what)
  {
    hide ShownAt, Inspect, LegacyOwners, Distinguished, HasCompleted, LegacySite;
    LegacyShown(files, session, key, k, i);
    if LegacySite(files, session, key, k, i) {
      LastOwns(files, session, key, k, i);
    }
    assert Owns(files, session, names, Carrying, key, k, i) ==>
        ShowsAs(files, session, names, Carrying, key, k, i, ShownLegacy(key));
  }

  lemma OfferIsShown(files: seq<File>, session: string, id: string, k: nat, i: nat)
    requires Distinguished(files) && LiveLine(files, k, i)
    ensures ShownAt(files, session, k, i, ShownResponse(Some(id))) <==> OwnsResponse(files, session, id, k, i)
  {
    hide ShownAt, Inspect, Distinguished, OffersId;
    ResponseShown(files, session, id, k, i);
    if ShownAt(files, session, k, i, ShownResponse(Some(id))) {
      ShownIsOffered(files, session, id, k, i);
    }
  }

  /** By one entry, one line owns a key. */
  lemma OneOwner(files: seq<File>, session: string, names: Names, entry: Entry, key: Key, k: nat, i: nat, j: nat,
                 l: nat)
    requires Distinguished(files) && Telling(names)
    requires Owns(files, session, names, entry, key, k, i) && Owns(files, session, names, entry, key, j, l)
    ensures k == j && i == l
  {
    OwnsLive(files, session, names, entry, key, k, i);
    OwnsLive(files, session, names, entry, key, j, l);
    hide Inspect, Claims, Distinguished, OffersId, HasCompleted, LegacySite, Site, FormatOf;
    match entry
    case Completing => SamePlace(files, k, i, j, l);
    case Carrying =>
    case Offering(id) => SamePlace(files, k, i, j, l);
    case Unnamed =>
      assert PlaceOf(files[k], files[k].lines[i]) == PlaceOf(files[j], files[j].lines[l]);
      SamePlace(files, k, i, j, l);
  }

  // ---------------------------------------------------------------- what lies ahead

  /** The line is still to be read: it starts at or behind the offset of its file. */
  predicate Ahead(files: seq<File>, starts: seq<nat>, c: P.Cursor, k: nat, i: nat)
    requires |starts| == |files|
  {
    && c.file <= k && LiveLine(files, k, i)
    && files[k].lines[i].start >= starts[k] && (k == c.file ==> files[k].lines[i].start >= c.offset)
  }

  lemma {:induction false} LineAtIsFirst(lines: seq<P.Line>, offset: nat, i: nat)
    requires i < |lines| && forall a, b :: 0 <= a < b < |lines| ==> lines[a].start < lines[b].start
    ensures P.LineAt(lines, offset) <= i <==> lines[i].start >= offset
  {
    var last := |lines| - 1;
    if i < last && lines[last].start >= offset {
      LineAtIsFirst(lines[..last], offset, i);
    }
  }

  /** The key is owned by a spawn event or a line that lies ahead. */
  ghost predicate OwnedAhead(children: seq<Child>, files: seq<File>, starts: seq<nat>, session: string, names: Names,
                             c: P.Cursor, entry: Entry, key: Key)
    requires |starts| == |files|
  {
    if entry.Spawning? then exists j: nat :: c.spawn <= j < |children| && SpawnKey(children[j]) == key
    else exists k: nat, i: nat :: OwnsAhead(files, starts, session, names, c, entry, key, k, i)
  }

  ghost predicate OwnsAhead(files: seq<File>, starts: seq<nat>, session: string, names: Names, c: P.Cursor,
                            entry: Entry, key: Key, k: nat, i: nat)
    requires |starts| == |files|
  {
    Ahead(files, starts, c, k, i) && Owns(files, session, names, entry, key, k, i)
  }

  /** Two different entries own one key ahead of the cursor. */
  ghost predicate EntriesClash(children: seq<Child>, files: seq<File>, starts: seq<nat>, session: string, names: Names,
                               c: P.Cursor)
    requires |starts| == |files|
  {
    exists key, a, b :: a != b && OwnedAhead(children, files, starts, session, names, c, a, key)
                        && OwnedAhead(children, files, starts, session, names, c, b, key)
  }

  /** The events put out ahead are those of the owners ahead, under their names. */
  lemma OutIsOwned(files: seq<File>, starts: seq<nat>, session: string, names: Names, c: P.Cursor, k: nat, i: nat,
                   key: Key)
    requires |starts| == |files| && Distinguished(files) && Telling(names)
    ensures PutsOut(Out(files, starts, session, names), c.file, c.offset, k, i, names.key(key))
            <==> exists entry :: OwnsAhead(files, starts, session, names, c, entry, key, k, i)
  {
    hide Inspect, Show, Distinguished, Owns, EntryOf, KeyOf, P.LineAt, P.From;
    var out := Out(files, starts, session, names);
    if LiveLine(files, k, i) {
      OutStarts(files, starts, session, names, k, i, c);
      var what := Show(Inspect(files, session), files[k], files[k].lines[i], session);
      if what.Some? && KeyOf(files[k], files[k].lines[i], session, what.value, names) == key {
        OwnsIsShown(files, session, names, EntryOf(what.value), key, k, i);
        assert ShowsAs(files, session, names, EntryOf(what.value), key, k, i, what.value);
        assert Ahead(files, starts, c, k, i) ==>
            OwnsAhead(files, starts, session, names, c, EntryOf(what.value), key, k, i);
      }
      if entry :| OwnsAhead(files, starts, session, names, c, entry, key, k, i) {
        OwnsIsShown(files, session, names, entry, key, k, i);
      }
    }
  }

  lemma OutStarts(files: seq<File>, starts: seq<nat>, session: string, names: Names, k: nat, i: nat, c: P.Cursor)
    requires |starts| == |files| && Distinguished(files) && LiveLine(files, k, i)
    ensures Begin(Out(files, starts, session, names)[k], if k == c.file then c.offset else 0) <= i
            <==> files[k].lines[i].start >= starts[k] && (k == c.file ==> files[k].lines[i].start >= c.offset)
  {
    hide Inspect, LineOut, P.LineAt;
    assert OffsetsDistinct(files[k].lines);
    var f := Out(files, starts, session, names)[k];
    LineAtIsFirst(f.lines, P.From(f, if k == c.file then c.offset else 0), i);
  }

  /** Some event put out has a key of the session. */
  lemma OutHasKey(files: seq<File>, starts: seq<nat>, session: string, names: Names, c: P.Cursor, k: nat, i: nat,
                  name: string)
    returns (key: Key)
    requires |starts| == |files| && PutsOut(Out(files, starts, session, names), c.file, c.offset, k, i, name)
    ensures names.key(key) == name
  {
    hide Inspect, Show;
    var what := Show(Inspect(files, session), files[k], files[k].lines[i], session);
    key := KeyOf(files[k], files[k].lines[i], session, what.value, names);
  }

  /** One line owns one key, by one entry. */
  lemma OneEntry(files: seq<File>, session: string, names: Names, a: Entry, b: Entry, key: Key, k: nat, i: nat)
    requires Distinguished(files)
    requires Owns(files, session, names, a, key, k, i) && Owns(files, session, names, b, key, k, i)
    ensures a == b
  {
    hide Owns, Inspect, Show, Distinguished, KeyOf;
    OwnsLive(files, session, names, a, key, k, i);
    OwnsIsShown(files, session, names, a, key, k, i);
    OwnsIsShown(files, session, names, b, key, k, i);
  }

  /** Two different lines ahead put out one key only if two entries clash. */
  lemma LinesClash(children: seq<Child>, files: seq<File>, starts: seq<nat>, session: string, names: Names,
                   c: P.Cursor)
    requires |starts| == |files| && Distinguished(files) && Telling(names)
    requires !EntriesClash(children, files, starts, session, names, c)
    ensures LinesDistinct(Out(files, starts, session, names), c.file, c.offset)
    ensures SpawnsApart(Spawns(children, names), Out(files, starts, session, names), c)
  {
    hide PutsOut, Owns, Out, Distinguished, Telling, Ahead;
    var out, spawns := Out(files, starts, session, names), Spawns(children, names);
    forall k: nat, i: nat, j: nat, l: nat, name
      {:trigger PutsOut(out, c.file, c.offset, k, i, name), PutsOut(out, c.file, c.offset, j, l, name)} |
      PutsOut(out, c.file, c.offset, k, i, name) && PutsOut(out, c.file, c.offset, j, l, name)
      ensures k == j && i == l
    {
      var key := OutHasKey(files, starts, session, names, c, k, i, name);
      OutIsOwned(files, starts, session, names, c, k, i, key);
      OutIsOwned(files, starts, session, names, c, j, l, key);
      var a :| OwnsAhead(files, starts, session, names, c, a, key, k, i);
      var b :| OwnsAhead(files, starts, session, names, c, b, key, j, l);
      OwnedByLine(children, files, starts, session, names, c, a, key, k, i);
      OwnedByLine(children, files, starts, session, names, c, b, key, j, l);
      OneOwner(files, session, names, a, key, k, i, j, l);
    }
    forall j | c.spawn <= j < |spawns|
      ensures !SomePutsOut(out, c.file, c.offset, spawns[j].key)
    {
      var key := SpawnKey(children[j]);
      OwnedBySpawn(children, files, starts, session, names, c, j);
      if k: nat, i: nat :| PutsOut(out, c.file, c.offset, k, i, spawns[j].key) {
        OutIsOwned(files, starts, session, names, c, k, i, key);
        var a :| OwnsAhead(files, starts, session, names, c, a, key, k, i);
        OwnedByLine(children, files, starts, session, names, c, a, key, k, i);
      }
    }
  }

  lemma OwnedBySpawn(children: seq<Child>, files: seq<File>, starts: seq<nat>, session: string, names: Names,
                     c: P.Cursor, j: nat)
    requires |starts| == |files| && c.spawn <= j < |children|
    ensures OwnedAhead(children, files, starts, session, names, c, Spawning, SpawnKey(children[j]))
  {
  }

  lemma OwnedByLine(children: seq<Child>, files: seq<File>, starts: seq<nat>, session: string, names: Names,
                    c: P.Cursor, entry: Entry, key: Key, k: nat, i: nat)
    requires |starts| == |files| && OwnsAhead(files, starts, session, names, c, entry, key, k, i)
    ensures OwnedAhead(children, files, starts, session, names, c, entry, key) && !entry.Spawning?
  {
    hide Ahead, OwnsItem, OwnsResponse, LastLegacy, HasUnnamed;
  }

  /** Two entries that clash put out one key twice. */
  lemma ClashRepeats(children: seq<Child>, files: seq<File>, starts: seq<nat>, session: string, names: Names,
                     c: P.Cursor, key: Key, a: Entry, b: Entry)
    requires |starts| == |files| && Distinguished(files) && Telling(names) && a != b && !b.Spawning?
    requires OwnedAhead(children, files, starts, session, names, c, a, key)
    requires OwnedAhead(children, files, starts, session, names, c, b, key)
    ensures !(LinesDistinct(Out(files, starts, session, names), c.file, c.offset)
              && SpawnsApart(Spawns(children, names), Out(files, starts, session, names), c))
  {
    hide PutsOut, Owns, Out, Distinguished, Telling, Ahead;
    var out, spawns := Out(files, starts, session, names), Spawns(children, names);
    var j: nat, l: nat :| OwnsAhead(files, starts, session, names, c, b, key, j, l);
    OutIsOwned(files, starts, session, names, c, j, l, key);
    if a.Spawning? {
      var s: nat :| c.spawn <= s < |children| && SpawnKey(children[s]) == key;
      assert spawns[s].key == names.key(key);
    } else {
      var k: nat, i: nat :| OwnsAhead(files, starts, session, names, c, a, key, k, i);
      OutIsOwned(files, starts, session, names, c, k, i, key);
      if k == j && i == l {
        OneEntry(files, session, names, a, b, key, k, i);
      }
    }
  }

  /** Main result. The events ahead of a cursor repeat a key exactly when two different entries own one key:
    * within one entry the owner tables leave one line per key. */
  lemma KeysRepeatExactly(children: seq<Child>, files: seq<File>, starts: seq<nat>, session: string, names: Names,
                          c: P.Cursor)
    requires |starts| == |files| && Distinguished(files) && Telling(names) && ThreadsDistinct(children)
    requires c.spawn <= |children|
    ensures P.KeysDistinct(P.EventsAhead(Spawns(children, names), Out(files, starts, session, names), c))
            <==> !EntriesClash(children, files, starts, session, names, c)
  {
    hide P.KeysDistinct, P.EventsAhead, Out, Spawns, LinesDistinct, SpawnsApart, OwnedAhead, Distinguished, Telling;
    SpawnsDistinct(children, c.spawn, names);
    AheadIsDistinct(Spawns(children, names), Out(files, starts, session, names), c);
    if EntriesClash(children, files, starts, session, names, c) {
      var key, a, b :| a != b && OwnedAhead(children, files, starts, session, names, c, a, key)
                       && OwnedAhead(children, files, starts, session, names, c, b, key);
      if b.Spawning? {
        ClashRepeats(children, files, starts, session, names, c, key, b, a);
      } else {
        ClashRepeats(children, files, starts, session, names, c, key, a, b);
      }
    } else {
      LinesClash(children, files, starts, session, names, c);
    }
  }

  /** Main result. From any cursor of a session, all completing runs of pages put out the events of a completing
    * single page exactly when no two different entries own one key ahead of it. */
  lemma SessionPagesMatch(children: seq<Child>, files: seq<File>, starts: seq<nat>, session: string, names: Names,
                          c: P.Cursor, lim: P.Limits)
    requires |starts| == |files| && Distinguished(files) && Telling(names) && ThreadsDistinct(children)
    requires var spawns, out := Spawns(children, names), Out(files, starts, session, names);
             && P.Ready(spawns, out, c) && P.Collect(spawns, out, c, lim).Ok?
             && P.Complete(spawns, out, P.Collect(spawns, out, c, lim).value.cursor)
    ensures var spawns, out := Spawns(children, names), Out(files, starts, session, names);
            (forall lims: seq<P.Limits> {:trigger P.Completes(spawns, out, c, lims)} ::
               P.Completes(spawns, out, c, lims) ==>
               P.Run(spawns, out, c, lims, |lims|).value.events == P.Collect(spawns, out, c, lim).value.page.events)
            <==> !EntriesClash(children, files, starts, session, names, c)
  {
    hide P.KeysDistinct, P.EventsAhead, P.FilesOk, P.Placed, P.Collect, P.Run, P.Complete, Out, Spawns, EntriesClash,
         Distinguished, Telling;
    SpawnsDistinct(children, c.spawn, names);
    KeysRepeatExactly(children, files, starts, session, names, c);
    P.PagingMatchesOnePage(Spawns(children, names), Out(files, starts, session, names), c, lim);
  }

  /** The failing input: one file completes an item, another of the same thread holds it as a response
    * item; both lines are shown, under one key. */
  lemma ItemShownAsTwoKinds(names: Names)
    requires Telling(names) && names.short("i") == "i"
    ensures var files := [File("a", "s", true, [Line(0, CompletedItem("i", 0))]),
                          File("b", "s", true, [Line(0, Response(Some("i"), true, false))])];
            && Distinguished(files)
            && ShownAt(files, "s", 0, 0, ShownCompleted(Key("s", "i")))
            && ShownAt(files, "s", 1, 0, ShownResponse(Some("i")))
            && !P.KeysDistinct(P.EventsAhead([], Out(files, [0, 0], "s", names), P.Cursor(0, 0, 0)))
  {
    hide ShownAt, Out, Owns;
    var first := File("a", "s", true, [Line(0, CompletedItem("i", 0))]);
    var second := File("b", "s", true, [Line(0, Response(Some("i"), true, false))]);
    var files, c := [first, second], P.Cursor(0, 0, 0);
    TwoFiles(first, second);
    assert Site(files, "s", Key("s", "i"), 0, 0);
    var j, l := CompletedOnce(files, "s", Key("s", "i"), 0, 0);
    OnlyItems(second);
    assert OffersId(second, 0, "i");
    var m, n := ResponseOnce(files, "s", "i", 1, 0);
    assert first.lines[0].what.CompletedItem?;
    var key := Key("s", "i");
    assert ShowsAs(files, "s", names, Completing, key, 0, 0, ShownCompleted(key));
    assert ShowsAs(files, "s", names, Offering("i"), key, 1, 0, ShownResponse(Some("i")));
    OwnsIsShown(files, "s", names, Completing, key, 0, 0);
    OwnsIsShown(files, "s", names, Offering("i"), key, 1, 0);
    assert OwnsAhead(files, [0, 0], "s", names, c, Completing, key, 0, 0);
    assert OwnsAhead(files, [0, 0], "s", names, c, Offering("i"), key, 1, 0);
    assert OwnedAhead([], files, [0, 0], "s", names, c, Completing, key);
    assert OwnedAhead([], files, [0, 0], "s", names, c, Offering("i"), key);
    KeysRepeatExactly([], files, [0, 0], "s", names, c);
    assert Spawns([], names) == [];
  }

  lemma TwoFiles(first: File, second: File)
    requires first.objectId != second.objectId && |first.lines| == |second.lines| == 1
    ensures Distinguished([first, second])
  {
  }

  lemma OnlyItems(f: File)
    requires |f.lines| == 1 && f.lines[0].what.Response?
    ensures FormatOf(f) == ResponseItems
  {
  }
}
