/** Two-phase ownership in the Codex collector: which of several copies of an item is shown. */
module CodexOwnership {
  import opened Base

  /** A decoded rollout line. Completed items, messages and response items are different record
    * types; `mapped` and `supplement` say which of the two projections know the item. */
  datatype What =
    | Other
    | TurnContext
    | Boundary
    | CompletedItem(id: string, order: nat)
    | Message(legacy: Option<string>)
    | Response(itemId: Option<string>, mapped: bool, supplement: bool)

  datatype Line = Line(start: nat, what: What)

  datatype File = File(objectId: string, threadId: string, live: bool, lines: seq<Line>)

  datatype Format = CompletedItems | LegacyMessages | ResponseItems

  /** A thread and an event id. */
  datatype Key = Key(thread: string, id: string)

  datatype Owner = Owner(objectId: string, offset: nat, order: nat)

  datatype Place = Place(objectId: string, offset: nat)

  datatype Projection = Projection(formats: map<string, Format>, completed: map<Key, Owner>,
                                   responses: map<string, Place>, legacy: map<Key, Place>)

  /** Files are told apart by their object id, and lines of a file by their offset. */
  ghost predicate Distinguished(files: seq<File>) {
    && (forall i, j :: 0 <= i < j < |files| ==> files[i].objectId != files[j].objectId)
    && forall k :: 0 <= k < |files| ==> OffsetsDistinct(files[k].lines)
  }

  ghost predicate OffsetsDistinct(lines: seq<Line>) {
    forall i, j :: 0 <= i < j < |lines| ==> lines[i].start < lines[j].start
  }

  function ThreadOf(f: File, session: string): string {
    if f.threadId == "" then session else f.threadId
  }

  // ---------------------------------------------------------------- first phase: completed items

  function ClaimLine(owners: map<Key, Owner>, f: File, l: Line, session: string): map<Key, Owner> {
    if !l.what.CompletedItem? then owners
    else
      var key := Key(ThreadOf(f, session), l.what.id);
      if key !in owners || l.what.order > owners[key].order || owners[key].objectId == f.objectId
      then owners[key := Owner(f.objectId, l.start, l.what.order)] else owners
  }

  function ClaimLines(owners: map<Key, Owner>, f: File, n: nat, session: string): map<Key, Owner>
    requires n <= |f.lines|
  {
    if n == 0 then owners else ClaimLine(ClaimLines(owners, f, n - 1, session), f, f.lines[n - 1], session)
  }

  function Claims(files: seq<File>, n: nat, session: string): map<Key, Owner>
    requires n <= |files|
  {
    if n == 0 then map[]
    else
      var before := Claims(files, n - 1, session);
      if files[n - 1].live then ClaimLines(before, files[n - 1], |files[n - 1].lines|, session) else before
  }

  function MarkLegacy(owners: map<Key, Place>, f: File, n: nat, session: string): map<Key, Place>
    requires n <= |f.lines|
  {
    if n == 0 then owners
    else
      var before := MarkLegacy(owners, f, n - 1, session);
      var what := f.lines[n - 1].what;
      if what.Message? && what.legacy.Some? then
        before[Key(ThreadOf(f, session), what.legacy.value) := Place(f.objectId, f.lines[n - 1].start)]
      else before
  }

  function LegacyOwners(files: seq<File>, n: nat, session: string): map<Key, Place>
    requires n <= |files|
  {
    if n == 0 then map[]
    else
      var before := LegacyOwners(files, n - 1, session);
      if files[n - 1].live then MarkLegacy(before, files[n - 1], |files[n - 1].lines|, session) else before
  }

  // ---------------------------------------------------------------- second phase: formats and response items

  predicate HasCompleted(f: File) {
    exists i :: 0 <= i < |f.lines| && f.lines[i].what.CompletedItem?
  }

  predicate HasMessage(f: File) {
    exists i :: 0 <= i < |f.lines| && f.lines[i].what.Message?
  }

  function FormatOf(f: File): Format {
    if HasCompleted(f) then CompletedItems else if HasMessage(f) then LegacyMessages else ResponseItems
  }

  /** Supplements count between a turn context and the next session or task boundary. */
  function Accepts(f: File, n: nat): bool
    requires n <= |f.lines|
  {
    n > 0 && (f.lines[n - 1].what.TurnContext? || (!f.lines[n - 1].what.Boundary? && Accepts(f, n - 1)))
  }

  /** Line `i` offers its item under the file's format. */
  predicate Offers(f: File, i: nat)
    requires i < |f.lines|
  {
    var what := f.lines[i].what;
    && what.Response? && what.itemId.Some?
    && match FormatOf(f)
       case ResponseItems => what.mapped
       case LegacyMessages => what.supplement && Accepts(f, i + 1)
       case CompletedItems => false
  }

  function OwnLines(owners: map<string, Place>, f: File, n: nat): map<string, Place>
    requires n <= |f.lines|
  {
    if n == 0 then owners
    else
      var before := OwnLines(owners, f, n - 1);
      if Offers(f, n - 1) && f.lines[n - 1].what.itemId.value !in before
      then before[f.lines[n - 1].what.itemId.value := Place(f.objectId, f.lines[n - 1].start)] else before
  }

  function OwnFiles(files: seq<File>, n: nat): map<string, Place>
    requires n <= |files|
  {
    if n == 0 then map[] else OwnLines(OwnFiles(files, n - 1), files[n - 1], |files[n - 1].lines|)
  }

  function Select(files: seq<File>, root: bool, session: string): seq<File> {
    if files == [] then []
    else (if files[0].live && (files[0].threadId == session) == root then [files[0]] else [])
         + Select(files[1..], root, session)
  }

  /** The stable sort that puts the root thread's files first. */
  function RootFirst(files: seq<File>, session: string): seq<File> {
    Select(files, true, session) + Select(files, false, session)
  }

  function Formats(files: seq<File>, n: nat): map<string, Format>
    requires n <= |files|
  {
    if n == 0 then map[]
    else if files[n - 1].live then Formats(files, n - 1)[files[n - 1].objectId := FormatOf(files[n - 1])]
         else Formats(files, n - 1)
  }

  /** `inspectCanonicalProjection`, up to the source clock. */
  function Inspect(files: seq<File>, session: string): Projection {
    var ordered := RootFirst(files, session);
    Projection(Formats(files, |files|), Claims(files, |files|, session), OwnFiles(ordered, |ordered|),
               LegacyOwners(files, |files|, session))
  }

  // ---------------------------------------------------------------- what is shown

  datatype Shown = ShownCompleted(key: Key) | ShownLegacy(key: Key) | ShownResponse(itemId: Option<string>)

  function ShowResponse(p: Projection, f: File, l: Line, ownedOnly: bool): Option<Shown>
    requires l.what.Response?
  {
    var id := l.what.itemId;
    if (ownedOnly && id.None?)
      || (id.Some? && (id.value !in p.responses || p.responses[id.value] != Place(f.objectId, l.start))) then None
    else if (if ownedOnly then l.what.supplement else l.what.mapped) then Some(ShownResponse(id))
    else None
  }

  /** `mapProjectedItem`. */
  function Show(p: Projection, f: File, l: Line, session: string): Option<Shown> {
    var format := if f.objectId in p.formats then p.formats[f.objectId] else CompletedItems;
    match format
    case ResponseItems => if l.what.Response? then ShowResponse(p, f, l, false) else None
    case LegacyMessages =>
      if l.what.Message? && l.what.legacy.Some? then
        var key := Key(ThreadOf(f, session), l.what.legacy.value);
        if key in p.legacy && p.legacy[key] == Place(f.objectId, l.start) then Some(ShownLegacy(key)) else None
      else if l.what.Response? then ShowResponse(p, f, l, true) else None
    case CompletedItems =>
      if !l.what.CompletedItem? then None
      else
        var key := Key(ThreadOf(f, session), l.what.id);
        if key in p.completed && p.completed[key].objectId == f.objectId && p.completed[key].offset == l.start
        then Some(ShownCompleted(key)) else None
  }

  /** A live line and what is shown for it. */
  ghost predicate ShownAt(files: seq<File>, session: string, k: nat, i: nat, what: Shown) {
    k < |files| && files[k].live && i < |files[k].lines|
    && Show(Inspect(files, session), files[k], files[k].lines[i], session) == Some(what)
  }

  // ---------------------------------------------------------------- completed items

  /** A live line that completes the item. */
  predicate Site(files: seq<File>, session: string, key: Key, k: nat, i: nat) {
    && k < |files| && files[k].live && i < |files[k].lines|
    && files[k].lines[i].what.CompletedItem? && Key(ThreadOf(files[k], session), files[k].lines[i].what.id) == key
  }

  ghost predicate OwnerIs(files: seq<File>, session: string, key: Key, owner: Owner, k: nat, i: nat) {
    Site(files, session, key, k, i)
    && owner == Owner(files[k].objectId, files[k].lines[i].start, files[k].lines[i].what.order)
  }

  /** No line of file `k` between `from` and `end` completes the item again. */
  ghost predicate NoSite(files: seq<File>, session: string, key: Key, k: nat, from: nat, end: nat) {
    forall i: nat :: from <= i < end ==> !Site(files, session, key, k, i)
  }

  /** Among the lines before line `n` of file `k`, an owned key has an owner that is the last of
    * its kind in its file. */
  lemma {:induction false} OwnedIn(files: seq<File>, session: string, key: Key, k: nat, n: nat) returns (j: nat, i: nat)
    requires k < |files| && files[k].live && n <= |files[k].lines|
    requires key in ClaimLines(Claims(files, k, session), files[k], n, session)
    ensures j <= k && (j == k ==> i < n)
    ensures OwnerIs(files, session, key, ClaimLines(Claims(files, k, session), files[k], n, session)[key], j, i)
    ensures NoSite(files, session, key, j, i + 1, if j < k then |files[j].lines| else n)
    decreases k, n + 1
  {
    if n == 0 {
      j, i := Owned(files, session, key, k);
    } else {
      var before := ClaimLines(Claims(files, k, session), files[k], n - 1, session);
      var owner := ClaimLines(Claims(files, k, session), files[k], n, session)[key];
      if Site(files, session, key, k, n - 1)
        && owner == Owner(files[k].objectId, files[k].lines[n - 1].start, files[k].lines[n - 1].what.order) {
        j, i := k, n - 1;
      } else {
        j, i := OwnedIn(files, session, key, k, n - 1);
      }
    }
  }

  lemma {:induction false} Owned(files: seq<File>, session: string, key: Key, k: nat) returns (j: nat, i: nat)
    requires k <= |files| && key in Claims(files, k, session)
    ensures j < k && OwnerIs(files, session, key, Claims(files, k, session)[key], j, i)
    ensures NoSite(files, session, key, j, i + 1, |files[j].lines|)
    decreases k, 0
  {
    if files[k - 1].live {
      j, i := OwnedIn(files, session, key, k - 1, |files[k - 1].lines|);
    } else {
      j, i := Owned(files, session, key, k - 1);
    }
  }

  lemma {:induction false} ClaimedStays(owners: map<Key, Owner>, f: File, n: nat, session: string, key: Key)
    requires n <= |f.lines| && key in owners
    ensures key in ClaimLines(owners, f, n, session)
  {
    if n > 0 {
      ClaimedStays(owners, f, n - 1, session, key);
    }
  }

  lemma {:induction false} SeenClaims(owners: map<Key, Owner>, f: File, n: nat, session: string, i: nat)
    requires i < n <= |f.lines| && f.lines[i].what.CompletedItem?
    ensures Key(ThreadOf(f, session), f.lines[i].what.id) in ClaimLines(owners, f, n, session)
  {
    if i < n - 1 {
      SeenClaims(owners, f, n - 1, session, i);
    }
  }

  /** Every completed item is owned. */
  lemma {:induction false} SiteIsOwned(files: seq<File>, session: string, key: Key, n: nat, k: nat, i: nat)
    requires k < n <= |files| && Site(files, session, key, k, i)
    ensures key in Claims(files, n, session)
  {
    if k < n - 1 {
      SiteIsOwned(files, session, key, n - 1, k, i);
      if files[n - 1].live {
        ClaimedStays(Claims(files, n - 1, session), files[n - 1], |files[n - 1].lines|, session, key);
      }
    } else {
      SeenClaims(Claims(files, k, session), files[k], |files[k].lines|, session, i);
    }
  }

  lemma {:induction false} FormatKnown(files: seq<File>, n: nat, k: nat)
    requires k < n <= |files| && Distinguished(files) && files[k].live
    ensures files[k].objectId in Formats(files, n) && Formats(files, n)[files[k].objectId] == FormatOf(files[k])
  {
    if k < n - 1 {
      FormatKnown(files, n - 1, k);
    }
  }

  /** A completed item is shown at a line exactly when that line owns it. */
  lemma CompletedShown(files: seq<File>, session: string, key: Key, k: nat, i: nat)
    requires Distinguished(files) && k < |files| && files[k].live && i < |files[k].lines|
    ensures ShownAt(files, session, k, i, ShownCompleted(key))
            <==> Site(files, session, key, k, i)
                 && var owners := Claims(files, |files|, session);
                    key in owners && owners[key].objectId == files[k].objectId
                    && owners[key].offset == files[k].lines[i].start
  {
    hide Claims, Formats, Distinguished, OwnFiles, LegacyOwners, RootFirst;
    FormatKnown(files, |files|, k);
    if Site(files, session, key, k, i) {
      assert HasCompleted(files[k]);
    }
  }

  /** Main result. An item that any live file completes is shown at exactly one line, and that
    * line is the last of its file that completes it. */
  lemma CompletedOnce(files: seq<File>, session: string, key: Key, k: nat, i: nat) returns (j: nat, l: nat)
    requires Distinguished(files) && Site(files, session, key, k, i)
    ensures Site(files, session, key, j, l) && ShownAt(files, session, j, l, ShownCompleted(key))
    ensures NoSite(files, session, key, j, l + 1, |files[j].lines|)
    ensures forall j', l' :: ShownAt(files, session, j', l', ShownCompleted(key)) ==> j' == j && l' == l
  {
    hide ShownAt, Inspect;
    SiteIsOwned(files, session, key, |files|, k, i);
    j, l := Owned(files, session, key, |files|);
    CompletedShown(files, session, key, j, l);
    forall j': nat, l': nat | ShownAt(files, session, j', l', ShownCompleted(key))
      ensures j' == j && l' == l
    {
      ShownIsLive(files, session, j', l', ShownCompleted(key));
      CompletedShown(files, session, key, j', l');
      SamePlace(files, j, l, j', l');
    }
  }

  lemma ShownIsLive(files: seq<File>, session: string, k: nat, i: nat, what: Shown)
    requires ShownAt(files, session, k, i, what)
    ensures k < |files| && files[k].live && i < |files[k].lines|
  {
  }

  lemma SamePlace(files: seq<File>, j: nat, i: nat, k: nat, l: nat)
    requires Distinguished(files) && j < |files| && k < |files| && i < |files[j].lines| && l < |files[k].lines|
    requires files[j].objectId == files[k].objectId && files[j].lines[i].start == files[k].lines[l].start
    ensures j == k && i == l
  {
    if j == k {
      assert OffsetsDistinct(files[j].lines);
    }
  }

  // ---------------------------------------------------------------- legacy messages

  /** A live line that carries the message. */
  predicate LegacySite(files: seq<File>, session: string, key: Key, k: nat, i: nat) {
    && k < |files| && files[k].live && i < |files[k].lines|
    && files[k].lines[i].what.Message? && files[k].lines[i].what.legacy.Some?
    && Key(ThreadOf(files[k], session), files[k].lines[i].what.legacy.value) == key
  }

  /** Line `i` of file `k` carries the message, and no later line of this or a later file does. */
  ghost predicate LastLegacy(files: seq<File>, session: string, key: Key, n: nat, end: nat, k: nat, i: nat) {
    && LegacySite(files, session, key, k, i)
    && forall j: nat, l: nat :: LegacySite(files, session, key, j, l) && (j < n || (j == n && l < end)) ==>
                        j < k || (j == k && l <= i)
  }

  ghost predicate LegacyOwner(files: seq<File>, owner: Place, k: nat, i: nat) {
    k < |files| && i < |files[k].lines| && owner == Place(files[k].objectId, files[k].lines[i].start)
  }

  /** Among the lines before line `n` of file `k` the last one with the message owns it. */
  lemma {:induction false} LegacyOwnedIn(files: seq<File>, session: string, key: Key, k: nat, n: nat)
    returns (j: nat, i: nat)
    requires k < |files| && files[k].live && n <= |files[k].lines|
    requires key in MarkLegacy(LegacyOwners(files, k, session), files[k], n, session)
    ensures LegacyOwner(files, MarkLegacy(LegacyOwners(files, k, session), files[k], n, session)[key], j, i)
    ensures LastLegacy(files, session, key, k, n, j, i)
    ensures j <= k && (j == k ==> i < n)
    decreases k, n + 1
  {
    if n == 0 {
      j, i := LegacyOwned(files, session, key, k);
    } else if LegacySite(files, session, key, k, n - 1) {
      j, i := k, n - 1;
    } else {
      j, i := LegacyOwnedIn(files, session, key, k, n - 1);
    }
  }

  lemma {:induction false} LegacyOwned(files: seq<File>, session: string, key: Key, k: nat) returns (j: nat, i: nat)
    requires k <= |files| && key in LegacyOwners(files, k, session)
    ensures LegacyOwner(files, LegacyOwners(files, k, session)[key], j, i)
    ensures j < k && LastLegacy(files, session, key, k, 0, j, i)
    decreases k, 0
  {
    if files[k - 1].live {
      j, i := LegacyOwnedIn(files, session, key, k - 1, |files[k - 1].lines|);
    } else {
      j, i := LegacyOwned(files, session, key, k - 1);
    }
  }

  lemma {:induction false} MarkedStays(owners: map<Key, Place>, f: File, n: nat, session: string, key: Key)
    requires n <= |f.lines|
    ensures key in owners ==> key in MarkLegacy(owners, f, n, session)
    ensures forall i :: 0 <= i < n && f.lines[i].what.Message? && f.lines[i].what.legacy.Some?
                        && Key(ThreadOf(f, session), f.lines[i].what.legacy.value) == key ==>
                          key in MarkLegacy(owners, f, n, session)
  {
    if n > 0 {
      MarkedStays(owners, f, n - 1, session, key);
    }
  }

  /** Every message of a live file has an owner. */
  lemma {:induction false} LegacyIsOwned(files: seq<File>, session: string, key: Key, n: nat, k: nat, i: nat)
    requires k < n <= |files| && LegacySite(files, session, key, k, i)
    ensures key in LegacyOwners(files, n, session)
  {
    if k < n - 1 {
      LegacyIsOwned(files, session, key, n - 1, k, i);
    }
    if files[n - 1].live {
      MarkedStays(LegacyOwners(files, n - 1, session), files[n - 1], |files[n - 1].lines|, session, key);
    }
  }

  /** A message is shown at a line exactly when that line owns it and its file completes no item. */
  lemma LegacyShown(files: seq<File>, session: string, key: Key, k: nat, i: nat)
    requires Distinguished(files) && k < |files| && files[k].live && i < |files[k].lines|
    ensures ShownAt(files, session, k, i, ShownLegacy(key))
            <==> LegacySite(files, session, key, k, i) && !HasCompleted(files[k])
                 && var owners := LegacyOwners(files, |files|, session);
                    key in owners && LegacyOwner(files, owners[key], k, i)
  {
    hide Claims, Formats, Distinguished, OwnFiles, LegacyOwners, RootFirst;
    FormatKnown(files, |files|, k);
    if LegacySite(files, session, key, k, i) {
      assert HasMessage(files[k]);
    }
  }

  /** Main result. Of all live lines with a message only the last can show it; it does so exactly when
    * its file completes no item, and then the message is shown once. */
  lemma LegacyOnce(files: seq<File>, session: string, key: Key, k: nat, i: nat) returns (j: nat, l: nat)
    requires Distinguished(files) && LegacySite(files, session, key, k, i)
    ensures LastLegacy(files, session, key, |files|, 0, j, l)
    ensures ShownAt(files, session, j, l, ShownLegacy(key)) <==> !HasCompleted(files[j])
    ensures forall j', l' :: ShownAt(files, session, j', l', ShownLegacy(key)) ==> j' == j && l' == l
  {
    hide ShownAt, Inspect, LegacyOwners, HasCompleted;
    LegacyIsOwned(files, session, key, |files|, k, i);
    j, l := LegacyOwned(files, session, key, |files|);
    LegacyShown(files, session, key, j, l);
    forall j': nat, l': nat | ShownAt(files, session, j', l', ShownLegacy(key))
      ensures j' == j && l' == l
    {
      ShownIsLive(files, session, j', l', ShownLegacy(key));
      LegacyShown(files, session, key, j', l');
      SamePlace(files, j, l, j', l');
    }
  }

  /** The failing input: a message that one file shows alone is shown nowhere beside a later file that
    * carries it too and completes an item. */
  lemma LegacyLost()
    ensures var first := File("a", "s", true, [Line(0, Message(Some("m")))]);
            var second := File("b", "s", true, [Line(0, Message(Some("m"))), Line(1, CompletedItem("i", 0))]);
            && Distinguished([first, second])
            && ShownAt([first], "s", 0, 0, ShownLegacy(Key("s", "m")))
            && forall k: nat, i: nat :: !ShownAt([first, second], "s", k, i, ShownLegacy(Key("s", "m")))
  {
    hide ShownAt, Distinguished;
    var first := File("a", "s", true, [Line(0, Message(Some("m")))]);
    var second := File("b", "s", true, [Line(0, Message(Some("m"))), Line(1, CompletedItem("i", 0))]);
    var key := Key("s", "m");
    LostAreDistinguished(first, second);
    assert LegacySite([first], "s", key, 0, 0) && LegacySite([first, second], "s", key, 1, 0);
    var j, l := LegacyOnce([first], "s", key, 0, 0);
    var j', l' := LegacyOnce([first, second], "s", key, 1, 0);
    assert second.lines[1].what.CompletedItem?;
  }

  lemma LostAreDistinguished(first: File, second: File)
    requires first.objectId == "a" && second.objectId == "b" && |first.lines| == 1 && OffsetsDistinct(second.lines)
    ensures Distinguished([first]) && Distinguished([first, second])
  {
  }

  // ---------------------------------------------------------------- response items

  /** Line `i` of `f` offers the response item `id`. */
  predicate OffersId(f: File, i: nat, id: string) {
    i < |f.lines| && Offers(f, i) && f.lines[i].what.itemId.value == id
  }

  lemma {:induction false} OwnLinesKeeps(owners: map<string, Place>, f: File, n: nat, id: string)
    requires n <= |f.lines|
    ensures id in owners ==> id in OwnLines(owners, f, n) && OwnLines(owners, f, n)[id] == owners[id]
    ensures forall i: nat :: i < n && OffersId(f, i, id) ==> id in OwnLines(owners, f, n)
  {
    hide Offers;
    if n > 0 {
      OwnLinesKeeps(owners, f, n - 1, id);
    }
  }

  lemma {:induction false} OwnLinesFrom(owners: map<string, Place>, f: File, n: nat, id: string) returns (i: nat)
    requires n <= |f.lines| && id in OwnLines(owners, f, n) && id !in owners
    ensures i < n && OffersId(f, i, id) && OwnLines(owners, f, n)[id] == Place(f.objectId, f.lines[i].start)
  {
    hide Offers;
    if id in OwnLines(owners, f, n - 1) {
      i := OwnLinesFrom(owners, f, n - 1, id);
    } else {
      i := n - 1;
    }
  }

  lemma {:induction false} OwnFilesFrom(files: seq<File>, n: nat, id: string) returns (k: nat, i: nat)
    requires n <= |files| && id in OwnFiles(files, n)
    ensures k < n && OffersId(files[k], i, id)
            && OwnFiles(files, n)[id] == Place(files[k].objectId, files[k].lines[i].start)
  {
    hide OwnLines, OffersId;
    var before := OwnFiles(files, n - 1);
    OwnLinesKeeps(before, files[n - 1], |files[n - 1].lines|, id);
    if id in before {
      k, i := OwnFilesFrom(files, n - 1, id);
    } else {
      k := n - 1;
      i := OwnLinesFrom(before, files[k], |files[k].lines|, id);
    }
  }

  lemma {:induction false} OfferedIsOwned(files: seq<File>, m: nat, n: nat, id: string, k: nat, i: nat)
    requires k < m <= n <= |files| && OffersId(files[k], i, id)
    ensures id in OwnFiles(files, m) && id in OwnFiles(files, n) && OwnFiles(files, n)[id] == OwnFiles(files, m)[id]
    decreases n
  {
    hide OwnLines, Offers;
    var last := files[n - 1];
    OwnLinesKeeps(OwnFiles(files, n - 1), last, |last.lines|, id);
    if m < n {
      OfferedIsOwned(files, m, n - 1, id, k, i);
    } else if k < n - 1 {
      OfferedIsOwned(files, n - 1, n - 1, id, k, i);
    }
  }

  lemma {:induction false} SelectFrom(files: seq<File>, root: bool, session: string, m: nat) returns (k: nat)
    requires m < |Select(files, root, session)|
    ensures k < |files| && files[k] == Select(files, root, session)[m] && files[k].live
            && ((files[k].threadId == session) == root)
  {
    var head := files[0].live && (files[0].threadId == session) == root;
    if head && m == 0 {
      k := 0;
    } else {
      k := SelectFrom(files[1..], root, session, if head then m - 1 else m);
      k := k + 1;
    }
  }

  lemma {:induction false} SelectHas(files: seq<File>, root: bool, session: string, k: nat) returns (m: nat)
    requires k < |files| && files[k].live && ((files[k].threadId == session) == root)
    ensures m < |Select(files, root, session)| && Select(files, root, session)[m] == files[k]
  {
    if k == 0 {
      m := 0;
    } else {
      m := SelectHas(files[1..], root, session, k - 1);
      if files[0].live && (files[0].threadId == session) == root {
        m := m + 1;
      }
    }
  }

  /** A live file's place in root-first order, and back. */
  lemma OrderHas(files: seq<File>, session: string, k: nat) returns (m: nat)
    requires k < |files| && files[k].live
    ensures m < |RootFirst(files, session)| && RootFirst(files, session)[m] == files[k]
    ensures files[k].threadId == session ==> m < |Select(files, true, session)|
    ensures |Select(files, true, session)| <= |RootFirst(files, session)|
  {
    m := SelectHas(files, files[k].threadId == session, session, k);
    if files[k].threadId != session {
      m := |Select(files, true, session)| + m;
    }
  }

  lemma OrderFrom(files: seq<File>, session: string, m: nat) returns (k: nat)
    requires m < |RootFirst(files, session)|
    ensures k < |files| && files[k] == RootFirst(files, session)[m] && files[k].live
    ensures m < |Select(files, true, session)| ==> files[k].threadId == session
  {
    var roots := |Select(files, true, session)|;
    if m < roots {
      k := SelectFrom(files, true, session, m);
    } else {
      k := SelectFrom(files, false, session, m - roots);
    }
  }

  /** The live line that owns a response item. */
  lemma ResponseOwner(files: seq<File>, session: string, id: string) returns (k: nat, i: nat)
    requires id in Inspect(files, session).responses
    ensures k < |files| && files[k].live && OffersId(files[k], i, id)
    ensures Inspect(files, session).responses[id] == Place(files[k].objectId, files[k].lines[i].start)
  {
    hide OwnFiles, RootFirst, OffersId;
    var ordered := RootFirst(files, session);
    var m: nat;
    m, i := OwnFilesFrom(ordered, |ordered|, id);
    k := OrderFrom(files, session, m);
  }

  lemma ResponseShown(files: seq<File>, session: string, id: string, k: nat, i: nat)
    requires Distinguished(files) && k < |files| && files[k].live && i < |files[k].lines|
    ensures ShownAt(files, session, k, i, ShownResponse(Some(id))) ==>
              id in Inspect(files, session).responses
              && Inspect(files, session).responses[id] == Place(files[k].objectId, files[k].lines[i].start)
    ensures OffersId(files[k], i, id) && id in Inspect(files, session).responses
            && Inspect(files, session).responses[id] == Place(files[k].objectId, files[k].lines[i].start) ==>
              ShownAt(files, session, k, i, ShownResponse(Some(id)))
  {
    hide Claims, Formats, OwnFiles, LegacyOwners, RootFirst, Accepts, FormatOf;
    FormatKnown(files, |files|, k);
  }

  /** Main result. A response item that some live file offers is shown at exactly one line; that
    * line's file offers it under its chosen format, and is one of the root thread if any root
    * file offers the item. */
  lemma ResponseOnce(files: seq<File>, session: string, id: string, k: nat, i: nat) returns (j: nat, l: nat)
    requires Distinguished(files) && k < |files| && files[k].live && OffersId(files[k], i, id)
    ensures j < |files| && files[j].live && OffersId(files[j], l, id)
            && ShownAt(files, session, j, l, ShownResponse(Some(id)))
    ensures files[k].threadId == session ==> files[j].threadId == session
    ensures forall j', l' :: ShownAt(files, session, j', l', ShownResponse(Some(id))) ==> j' == j && l' == l
  {
    hide ShownAt, Inspect, OffersId, RootFirst, OwnFiles, Select;
    var ordered := RootFirst(files, session);
    var m := OrderHas(files, session, k);
    OwnedInOrder(files, session, id, m, i);
    j, l := ResponseOwner(files, session, id);
    OffersInside(files[j], l, id);
    ResponseShown(files, session, id, j, l);
    if files[k].threadId == session {
      RootOwner(files, session, id, m, i, j, l);
    }
    forall j': nat, l': nat | ShownAt(files, session, j', l', ShownResponse(Some(id)))
      ensures j' == j && l' == l
    {
      ShownIsLive(files, session, j', l', ShownResponse(Some(id)));
      ResponseShown(files, session, id, j', l');
      SamePlace(files, j, l, j', l');
    }
  }

  lemma OffersInside(f: File, i: nat, id: string)
    requires OffersId(f, i, id)
    ensures i < |f.lines|
  {
  }

  lemma OwnedInOrder(files: seq<File>, session: string, id: string, m: nat, i: nat)
    requires m < |RootFirst(files, session)| && OffersId(RootFirst(files, session)[m], i, id)
    ensures id in Inspect(files, session).responses
  {
    hide OffersId, RootFirst, OwnLines;
    var ordered := RootFirst(files, session);
    OfferedIsOwned(ordered, |ordered|, |ordered|, id, m, i);
  }

  lemma RootOwner(files: seq<File>, session: string, id: string, m: nat, i: nat, j: nat, l: nat)
    requires Distinguished(files) && m < |Select(files, true, session)| <= |RootFirst(files, session)|
    requires OffersId(RootFirst(files, session)[m], i, id)
    requires j < |files| && l < |files[j].lines| && id in Inspect(files, session).responses
    requires Inspect(files, session).responses[id] == Place(files[j].objectId, files[j].lines[l].start)
    ensures files[j].threadId == session
  {
    hide OffersId, RootFirst, OwnFiles, Select;
    var ordered, roots := RootFirst(files, session), |Select(files, true, session)|;
    OfferedIsOwned(ordered, roots, |ordered|, id, m, i);
    var n, at := OwnFilesFrom(ordered, roots, id);
    var k := OrderFrom(files, session, n);
    assert files[k].objectId == files[j].objectId;
    assert k == j;
  }

  /** What no live file offers is not shown either. */
  lemma ShownIsOffered(files: seq<File>, session: string, id: string, k: nat, i: nat)
    requires Distinguished(files) && ShownAt(files, session, k, i, ShownResponse(Some(id)))
    ensures k < |files| && files[k].live && OffersId(files[k], i, id)
  {
    hide ShownAt, Inspect, OffersId;
    ShownIsLive(files, session, k, i, ShownResponse(Some(id)));
    ResponseShown(files, session, id, k, i);
    var j, l := ResponseOwner(files, session, id);
    OffersInside(files[j], l, id);
    SamePlace(files, j, l, k, i);
  }

  // ---------------------------------------------------------------- the loops of the source

  /** The items a file offers under one format, in line order. */
  function Offered(f: File, n: nat, format: Format): seq<(string, nat)>
    requires n <= |f.lines|
  {
    if n == 0 then []
    else Offered(f, n - 1, format)
         + if OffersUnder(f, n - 1, format) then [(f.lines[n - 1].what.itemId.value, f.lines[n - 1].start)] else []
  }

  predicate OffersUnder(f: File, i: nat, format: Format)
    requires i < |f.lines|
  {
    var what := f.lines[i].what;
    && what.Response? && what.itemId.Some?
    && match format
       case ResponseItems => what.mapped
       case LegacyMessages => what.supplement && Accepts(f, i + 1)
       case CompletedItems => false
  }

  lemma {:induction false} NothingOffered(f: File, n: nat)
    requires n <= |f.lines|
    ensures Offered(f, n, CompletedItems) == []
  {
    if n > 0 {
      NothingOffered(f, n - 1);
    }
  }

  /** First come, first served over a list of offers. */
  function TakeFirst(owners: map<string, Place>, objectId: string, ids: seq<(string, nat)>, n: nat): map<string, Place>
    requires n <= |ids|
  {
    if n == 0 then owners
    else
      var before := TakeFirst(owners, objectId, ids, n - 1);
      if ids[n - 1].0 in before then before else before[ids[n - 1].0 := Place(objectId, ids[n - 1].1)]
  }

  lemma {:induction false} TakeFirstSnoc(owners: map<string, Place>, objectId: string, ids: seq<(string, nat)>,
                                         more: seq<(string, nat)>, n: nat)
    requires n <= |ids|
    ensures TakeFirst(owners, objectId, ids + more, n) == TakeFirst(owners, objectId, ids, n)
  {
    if n > 0 {
      TakeFirstSnoc(owners, objectId, ids, more, n - 1);
    }
  }

  lemma {:induction false} OffersTaken(owners: map<string, Place>, f: File, n: nat)
    requires n <= |f.lines|
    ensures var ids := Offered(f, n, FormatOf(f)); TakeFirst(owners, f.objectId, ids, |ids|) == OwnLines(owners, f, n)
  {
    hide FormatOf, Offers, OffersUnder;
    if n > 0 {
      OffersTaken(owners, f, n - 1);
      OffersAgree(f, n - 1);
      if Offers(f, n - 1) {
        OffersHaveId(f, n - 1);
        var before := Offered(f, n - 1, FormatOf(f));
        var more := [(f.lines[n - 1].what.itemId.value, f.lines[n - 1].start)];
        TakeFirstSnoc(owners, f.objectId, before, more, |before|);
        assert (before + more)[|before|] == more[0];
      } else {
        assert Offered(f, n, FormatOf(f)) == Offered(f, n - 1, FormatOf(f));
      }
    }
  }

  lemma OffersAgree(f: File, i: nat)
    requires i < |f.lines|
    ensures Offers(f, i) == OffersUnder(f, i, FormatOf(f))
  {
  }

  lemma OffersHaveId(f: File, i: nat)
    requires i < |f.lines| && Offers(f, i)
    ensures f.lines[i].what.Response? && f.lines[i].what.itemId.Some?
  {
  }

  datatype Inspected = Inspected(file: File, hasCompleted: bool, hasMessage: bool, responses: seq<(string, nat)>,
                                 supplements: seq<(string, nat)>)

  /** One pass over the lines of a live file. */
  method InspectFile(files: seq<File>, k: nat, session: string, completed: map<Key, Owner>, legacy: map<Key, Place>)
    returns (found: Inspected, completed': map<Key, Owner>, legacy': map<Key, Place>)
    requires k < |files| && files[k].live && completed == Claims(files, k, session)
             && legacy == LegacyOwners(files, k, session)
    ensures completed' == Claims(files, k + 1, session) && legacy' == LegacyOwners(files, k + 1, session)
    ensures var f := files[k];
            found == Inspected(f, HasCompleted(f), HasMessage(f), Offered(f, |f.lines|, ResponseItems),
                               Offered(f, |f.lines|, LegacyMessages))
  {
    var f := files[k];
    var hasCompleted, hasMessage, accepts := false, false, false;
    var responses, supplements := [], [];
    completed', legacy' := completed, legacy;
    var n := 0;
    while n < |f.lines|
      invariant 0 <= n <= |f.lines|
      invariant completed' == ClaimLines(completed, f, n, session) && legacy' == MarkLegacy(legacy, f, n, session)
      invariant hasCompleted <==> exists i :: 0 <= i < n && f.lines[i].what.CompletedItem?
      invariant hasMessage <==> exists i :: 0 <= i < n && f.lines[i].what.Message?
      invariant accepts == Accepts(f, n)
      invariant responses == Offered(f, n, ResponseItems) && supplements == Offered(f, n, LegacyMessages)
    {
      var l := f.lines[n];
      n := n + 1;
      completed' := ClaimLine(completed', f, l, session);
      match l.what {
        case CompletedItem(_, _) => hasCompleted := true;
        case Boundary => accepts := false;
        case TurnContext => accepts := true;
        case Message(id) =>
          hasMessage := true;
          if id.Some? {
            legacy' := legacy'[Key(ThreadOf(f, session), id.value) := Place(f.objectId, l.start)];
          }
        case Response(id, mapped, supplement) =>
          if id.Some? && mapped {
            responses := responses + [(id.value, l.start)];
          }
          if accepts && id.Some? && supplement {
            supplements := supplements + [(id.value, l.start)];
          }
        case Other =>
      }
      assert responses == Offered(f, n, ResponseItems);
    }
    found := Inspected(f, hasCompleted, hasMessage, responses, supplements);
  }

  /** `inspectCanonicalProjection`: one pass over all lines, then formats and owners root first. */
  method InspectProjection(files: seq<File>, session: string) returns (p: Projection)
    requires Distinguished(files)
    ensures p == Inspect(files, session)
  {
    hide ClaimLines, MarkLegacy, Offered, HasCompleted, HasMessage, OwnLines;
    var completed: map<Key, Owner>, legacy: map<Key, Place>, inspected: map<string, Inspected> := map[], map[], map[];
    var formats: map<string, Format> := map[];
    var k := 0;
    while k < |files|
      invariant 0 <= k <= |files|
      invariant completed == Claims(files, k, session) && legacy == LegacyOwners(files, k, session)
      invariant formats == Formats(files, k)
      invariant forall j :: 0 <= j < k && files[j].live ==> Describes(inspected, files[j])
    {
      var f := files[k];
      if f.live {
        var found;
        found, completed, legacy := InspectFile(files, k, session, completed, legacy);
        inspected := inspected[f.objectId := found];
        formats := formats[f.objectId := if found.hasCompleted then CompletedItems
                                         else if found.hasMessage then LegacyMessages else ResponseItems];
      }
      k := k + 1;
    }
    var ordered := RootFirst(files, session);
    var responses: map<string, Place> := map[];
    k := 0;
    while k < |ordered|
      invariant 0 <= k <= |ordered| && responses == OwnFiles(ordered, k)
    {
      var f := ordered[k];
      ghost var at := OrderFrom(files, session, k);
      assert Describes(inspected, files[at]);
      var found := inspected[f.objectId];
      var ids := if found.hasCompleted then [] else if found.hasMessage then found.supplements else found.responses;
      NothingOffered(f, |f.lines|);
      assert ids == Offered(f, |f.lines|, FormatOf(f));
      OffersTaken(responses, f, |f.lines|);
      ghost var start := responses;
      var at' := 0;
      while at' < |ids|
        invariant 0 <= at' <= |ids| && responses == TakeFirst(start, f.objectId, ids, at')
      {
        if ids[at'].0 !in responses {
          responses := responses[ids[at'].0 := Place(f.objectId, ids[at'].1)];
        }
        at' := at' + 1;
      }
      k := k + 1;
    }
    p := Projection(formats, completed, responses, legacy);
  }

  ghost predicate Describes(inspected: map<string, Inspected>, f: File) {
    && f.objectId in inspected
    && inspected[f.objectId]
       == Inspected(f, HasCompleted(f), HasMessage(f), Offered(f, |f.lines|, ResponseItems),
                    Offered(f, |f.lines|, LegacyMessages))
  }
}
