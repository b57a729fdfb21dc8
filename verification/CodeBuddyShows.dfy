/** What the rows of an accepted CodeBuddy thread show, read off the rows themselves. */
module CodeBuddyShows {
  import opened Base
  import opened CodeBuddyRows
  import opened CodeBuddyThread
  import FamilyOrder

  // ---------------------------------------------------------------- text blocks

  /** What a block says; a replaced text stands for every text block. */
  function SaidBy(b: Block, text: Option<string>): Option<string> {
    if b.kind.OtherBlock? then None else if text.Some? then text else b.text
  }

  predicate Audible(b: Block, text: Option<string>) {
    SaidBy(b, text).Some? && SaidBy(b, text).value != ""
  }

  /** The slots are the indices of the blocks that say something, in order. */
  ghost predicate SlotsAre(slots: seq<Slot>, blocks: seq<Block>, from: nat, text: Option<string>) {
    && (forall k :: 0 <= k < |slots| ==> slots[k].child.None? && from <= slots[k].part < from + |blocks|)
    && (forall j, k :: 0 <= j < k < |slots| ==> slots[j].part < slots[k].part)
    && (forall p :: 0 <= p < |blocks| ==> (Slot(from + p, None) in slots <==> Audible(blocks[p], text)))
  }

  lemma {:induction false} ShownSlots(blocks: seq<Block>, from: nat, text: Option<string>)
    ensures Shown(blocks, from, text).Ok? <==>
              forall p :: 0 <= p < |blocks| ==> blocks[p].kind.OtherBlock? || SaidBy(blocks[p], text).Some?
    ensures Shown(blocks, from, text).Ok? ==> SlotsAre(Shown(blocks, from, text).value, blocks, from, text)
    decreases |blocks|
  {
    if blocks != [] {
      ShownSlots(blocks[1..], from + 1, text);
      assert forall p :: 0 < p < |blocks| ==> blocks[p] == blocks[1..][p - 1];
      if Shown(blocks, from, text).Ok? {
        SlotsCons(Shown(blocks[1..], from + 1, text).value, blocks, from, text);
      }
    }
  }

  lemma SlotsCons(rest: seq<Slot>, blocks: seq<Block>, from: nat, text: Option<string>)
    requires blocks != [] && SlotsAre(rest, blocks[1..], from + 1, text)
    ensures SlotsAre((if Audible(blocks[0], text) then [Slot(from, None)] else []) + rest, blocks, from, text)
  {
    var slots := (if Audible(blocks[0], text) then [Slot(from, None)] else []) + rest;
    forall p | 0 <= p < |blocks|
      ensures Slot(from + p, None) in slots <==> Audible(blocks[p], text)
    {
      if p > 0 {
        assert blocks[p] == blocks[1..][p - 1];
        assert Slot(from + 1 + (p - 1), None) in rest <==> Audible(blocks[1..][p - 1], text);
      }
    }
  }

  // ---------------------------------------------------------------- rows

  /** The command of a user's explicit compaction, which is shown in place of its prompt. */
  function CommandOf(r: Record): Option<string> {
    if ByCompactAgent(r) && r.UserMessage() && !r.Marked() then r.facts.wording.command else None
  }

  /** What is shown in place of the text of a row: a command, or the prompt of a delegated turn. */
  function Replacement(ctx: Context, r: Record): Option<string> {
    if CommandOf(r).Some? then CommandOf(r)
    else if ctx.child.Some? && r.id in ctx.child.value.prompts then Some(ctx.child.value.prompts[r.id])
    else None
  }

  /** Internal inputs and notifications to the root thread show nothing. */
  predicate Unseen(ctx: Context, r: Record) {
    (r.UserMessage() && r.facts.internal.Yes?) || (ctx.child.None? && r.id in ctx.notices)
  }

  lemma ClassOf(t: Thread, ctx: Context, r: Record)
    requires Classify(t, ctx, r).Ok?
    ensures var c := Classify(t, ctx, r).value;
            && (c.context <==> r.UserMessage() && r.facts.internal.Yes?)
            && c.command == CommandOf(r)
  {
  }

  /** Which parts of row `r` are shown. */
  predicate ShowsPart(ctx: Context, r: Record, part: nat) {
    match r.kind
    case Message =>
      !Unseen(ctx, r) && r.facts.content.Some? && part < |r.facts.content.value|
      && Audible(r.facts.content.value[part], Replacement(ctx, r))
    case Reasoning =>
      r.facts.content.Some? && part < |r.facts.content.value|
      && Audible(r.facts.content.value[part], Replacement(ctx, r))
    case FunctionCall => part == 0
    case FunctionResult => part == 0
    case OtherKind => false
  }

  /** The events of row `i`: one for each part shown, in order, a call linked to its child. */
  ghost predicate RowShown(events: seq<FamilyOrder.Event>, ctx: Context, i: nat, r: Record) {
    && (forall j, k :: 0 <= j < k < |events| ==> events[j].part < events[k].part)
    && (forall k :: 0 <= k < |events| ==>
          events[k].line == i && events[k].child == LinkOf(ctx.callChildren, r) && ShowsPart(ctx, r, events[k].part))
    && (forall p: nat :: ShowsPart(ctx, r, p) ==> exists k :: 0 <= k < |events| && events[k].part == p)
  }

  ghost predicate SlotsShown(slots: seq<Slot>, ctx: Context, r: Record) {
    && (forall j, k :: 0 <= j < k < |slots| ==> slots[j].part < slots[k].part)
    && (forall k :: 0 <= k < |slots| ==>
          slots[k].child == LinkOf(ctx.callChildren, r) && ShowsPart(ctx, r, slots[k].part))
    && (forall p: nat :: ShowsPart(ctx, r, p) ==> Slot(p, LinkOf(ctx.callChildren, r)) in slots)
  }

  lemma BlocksShow(ctx: Context, c: Class, r: Record)
    requires Blocks(ctx, c, r).Ok? && c.command == CommandOf(r)
    requires r.kind.Reasoning? || (r.kind.Message? && !Unseen(ctx, r))
    ensures SlotsShown(Blocks(ctx, c, r).value, ctx, r)
  {
    var blocks, text := r.facts.content.value, Replacement(ctx, r);
    ShownSlots(blocks, 0, text);
    var slots := Blocks(ctx, c, r).value;
    assert slots == Shown(blocks, 0, text).value;
    hide Shown, Replacement, Audible;
    forall k | 0 <= k < |slots|
      ensures ShowsPart(ctx, r, slots[k].part)
    {
      assert slots[k] == Slot(0 + slots[k].part, None);
    }
    forall p: nat | ShowsPart(ctx, r, p)
      ensures Slot(p, None) in slots
    {
      assert Slot(0 + p, None) in slots;
    }
  }

  lemma EmitShows(t: Thread, ctx: Context, c: Class, r: Record)
    requires Emit(t, ctx, c, r).Ok?
    requires (c.context <==> r.UserMessage() && r.facts.internal.Yes?) && c.command == CommandOf(r)
    ensures SlotsShown(Emit(t, ctx, c, r).value.slots, ctx, r)
  {
    hide Blocks, CommandOf, Replacement;
    match r.kind
    case Message =>
      if !Unseen(ctx, r) {
        BlocksShow(ctx, c, r);
      }
    case Reasoning => BlocksShow(ctx, c, r);
    case FunctionCall =>
    case FunctionResult =>
    case OtherKind =>
  }

  lemma PlaceShows(t: Thread, ctx: Context, c: Class, i: nat, r: Record, slots: seq<Slot>)
    requires Place(t, ctx, c, i, r, slots).Ok? && SlotsShown(slots, ctx, r)
    ensures var frames := Place(t, ctx, c, i, r, slots).value.frames;
            |frames| == |t.frames| + 1 && RowShown(frames[|t.frames|].events, ctx, i, r)
  {
    hide LinkOf, ShowsPart;
    var events := Numbered(i, t.events, slots);
    forall p: nat | ShowsPart(ctx, r, p)
      ensures exists k :: 0 <= k < |events| && events[k].part == p
    {
      assert Slot(p, LinkOf(ctx.callChildren, r)) in slots;
      var k :| 0 <= k < |slots| && slots[k] == Slot(p, LinkOf(ctx.callChildren, r));
      assert events[k].part == p;
    }
  }

  lemma StepShows(t: Thread, ctx: Context, i: nat, e: Entry)
    requires Step(t, ctx, i, e).Ok?
    ensures var frames := Step(t, ctx, i, e).value.frames;
            |frames| == |t.frames| + 1 && RowShown(frames[|t.frames|].events, ctx, i, e.record)
  {
    hide Classify, Chain, Emit, Count, Place, CommandOf, ShowsPart, Step;
    var c, chained, out, counted := StepStages(t, ctx, i, e);
    ClassOf(t, ctx, e.record);
    ChainKeeps(t, ctx, c, e);
    EmitKeeps(chained, ctx, c, e.record);
    CountKeeps(out.t, c, e.record);
    EmitShows(chained, ctx, c, e.record);
    PlaceShows(counted, ctx, c, i, e.record, out.slots);
  }

  lemma StepExtends(t: Thread, ctx: Context, i: nat, e: Entry)
    requires Step(t, ctx, i, e).Ok?
    ensures t.frames <= Step(t, ctx, i, e).value.frames
  {
    hide LinkOf, Opens, Step;
    StepAdvances(t, ctx, i, e);
  }

  /** Main result. The frame of every row of an accepted prefix shows exactly the parts of its row
    * that say something: the text blocks that are not empty, a call, a result. */
  lemma {:induction false} RowsShown(entries: seq<Entry>, ctx: Context, n: nat, i: nat)
    requires i < n <= |entries| && Run(entries, ctx, n).Ok?
    ensures |Run(entries, ctx, n).value.frames| == n
    ensures RowShown(Run(entries, ctx, n).value.frames[i].events, ctx, i, entries[i].record)
  {
    hide Step, RowShown;
    RunStep(entries, ctx, n);
    FramesFollowRows(entries, ctx, n);
    FramesFollowRows(entries, ctx, n - 1);
    var t := Run(entries, ctx, n - 1).value;
    if i == n - 1 {
      StepShows(t, ctx, i, entries[i]);
    } else {
      RowsShown(entries, ctx, n - 1, i);
      StepExtends(t, ctx, n - 1, entries[n - 1]);
    }
  }
}
