/** What a thread that never edits its history tells the family: which frames call which
  * child, and how its frames are cut into turns. */
module KimiCalls {
  import opened Base
  import opened KimiRows
  import opened KimiThread
  import KimiDelegation
  import KimiTurns
  import FamilyOrder

  /** The child a row's frame delegates to. */
  function LinkOf(links: map<string, string>, r: Row): Option<string> {
    if r.ToolCall? && r.uuid in links then Some(links[r.uuid]) else None
  }

  lemma {:induction false} FirstOfOutput(line: nat, from: nat, output: seq<Option<string>>)
    requires forall k :: 0 <= k < |output| ==> output[k].None?
    ensures FamilyOrder.FirstLink(Emitted(line, from, output)) == None
  {
    FamilyOrder.NoLinks(Emitted(line, from, output));
  }

  lemma {:induction false} UserPartsLinkNobody(parts: seq<Part>)
    ensures forall k :: 0 <= k < |UserParts(parts)| ==> UserParts(parts)[k].None?
  {
    if parts != [] {
      UserPartsLinkNobody(parts[1..]);
    }
  }

  /** A row emits a link only if it is a call on record. */
  lemma OutputLinks(t: Thread, ctx: Context, i: nat, e: Entry)
    requires Decide(t, ctx, i, e).Ok?
    ensures var out := Decide(t, ctx, i, e).value.output;
            if LinkOf(ctx.callChildren, e.row).Some? then out == [LinkOf(ctx.callChildren, e.row)]
            else forall k :: 0 <= k < |out| ==> out[k].None?
  {
    if e.row.Message? && e.row.content.Some? {
      UserPartsLinkNobody(e.row.content.value);
    }
  }

  /** The frame that row `i` adds. */
  function Added(t: Thread, ctx: Context, i: nat, e: Entry): Frame
    requires Decide(t, ctx, i, e).Ok?
  {
    var effect := Decide(t, ctx, i, e).value;
    Frame(effect.key, Emitted(i, effect.t.events, effect.output), effect.usage)
  }

  lemma AddedLinks(t: Thread, ctx: Context, i: nat, e: Entry)
    requires Decide(t, ctx, i, e).Ok?
    ensures FamilyOrder.FirstLink(Added(t, ctx, i, e).events) == LinkOf(ctx.callChildren, e.row)
  {
    hide Decide;
    OutputLinks(t, ctx, i, e);
    var effect := Decide(t, ctx, i, e).value;
    if LinkOf(ctx.callChildren, e.row).None? {
      FirstOfOutput(i, effect.t.events, effect.output);
    }
  }

  /** The turns of a thread to which row `i` adds its frame. */
  function TurnsAt(t: Thread, ctx: Context, i: nat, r: Row): seq<seq<Frame>> {
    if KimiTurns.Opens(ctx, i, r) && ctx.isChild && t.messages != {} then t.turnsForCalls + [[]] else t.turnsForCalls
  }

  /** How a row that is no undo extends frames, keys, turns, messages and prompts. */
  ghost predicate Advances(t: Thread, next: Thread, ctx: Context, i: nat, r: Row, f: Frame)
  {
    && f.key !in t.keys && next.frames == t.frames + [f] && next.keys == t.keys + {f.key}
    && var turns := TurnsAt(t, ctx, i, r);
       && turns != [] && next.turnsForCalls == turns[|turns| - 1 := turns[|turns| - 1] + [f]]
       && |next.messages| == |t.messages| + (if KimiTurns.Opens(ctx, i, r) then 1 else 0)
       && |next.prompts| == |t.prompts| + (if r.Prompt? && i !in ctx.taskRows then 1 else 0)
       && (r.ToolCall? ==> f.key == CallKey(r.uuid))
  }

  lemma PromptKeeps(t: Thread, ctx: Context, i: nat, r: Row)
    requires r.Prompt? && OnPrompt(t, ctx, i, r).Ok?
    ensures var u := OnPrompt(t, ctx, i, r).value.t;
            u.messages == t.messages && |u.prompts| == |t.prompts| + (if i !in ctx.taskRows then 1 else 0)
  {
  }

  lemma MessageKeeps(t: Thread, ctx: Context, i: nat, r: Row)
    requires r.Message? && OnMessage(t, ctx, i, r).Ok?
    ensures var u := OnMessage(t, ctx, i, r).value.t;
            u.prompts == t.prompts && |u.messages| == |t.messages| + (if KimiTurns.Opens(ctx, i, r) then 1 else 0)
    ensures KimiTurns.Opens(ctx, i, r) ==>
              var u := OnMessage(t, ctx, i, r).value.t;
              u.frames == t.frames && u.keys == t.keys && u.turnsForCalls == TurnsAt(t, ctx, i, r)
  {
    hide UserParts;
  }

  lemma OthersKeep(t: Thread, ctx: Context, i: nat, e: Entry)
    requires Decide(t, ctx, i, e).Ok? && !e.row.Undo? && !e.row.Prompt? && !e.row.Message?
    ensures var u := Decide(t, ctx, i, e).value.t; u.messages == t.messages && u.prompts == t.prompts
    ensures e.row.ToolCall? ==> Decide(t, ctx, i, e).value.key == CallKey(e.row.uuid)
  {
    hide OnUndo, OnPrompt, OnMessage, Emitted;
  }

  lemma DecisionKeeps(t: Thread, ctx: Context, i: nat, e: Entry)
    requires Decide(t, ctx, i, e).Ok? && !e.row.Undo?
    ensures var u := Decide(t, ctx, i, e).value.t;
            && u.frames == t.frames && u.keys == t.keys && u.turnsForCalls == TurnsAt(t, ctx, i, e.row)
            && |u.messages| == |t.messages| + (if KimiTurns.Opens(ctx, i, e.row) then 1 else 0)
            && |u.prompts| == |t.prompts| + (if e.row.Prompt? && i !in ctx.taskRows then 1 else 0)
    ensures e.row.ToolCall? ==> Decide(t, ctx, i, e).value.key == CallKey(e.row.uuid)
  {
    hide OnUndo, OnPrompt, OnMessage, OnRequest, OnUsage, OnCompaction, OnStepBegin, OnStepEnd, OnContent, OnToolCall,
         OnToolResult;
    if e.row.Prompt? {
      PromptKeeps(t, ctx, i, e.row);
    } else if e.row.Message? {
      MessageKeeps(t, ctx, i, e.row);
    } else {
      OthersKeep(t, ctx, i, e);
    }
    if !KimiTurns.Opens(ctx, i, e.row) {
      KimiTurns.PlainDecision(t, ctx, i, e);
    }
  }

  lemma StepAdvances(t: Thread, ctx: Context, i: nat, e: Entry)
    requires Step(t, ctx, i, e).Ok? && !e.row.Undo?
    ensures Decide(t, ctx, i, e).Ok?
    ensures Advances(t, Step(t, ctx, i, e).value, ctx, i, e.row, Added(t, ctx, i, e))
  {
    hide Decide, TurnsAt;
    DecisionKeeps(t, ctx, i, e);
  }

  predicate NoUndo(log: seq<Entry>, n: nat)
    requires n <= |log|
  {
    forall k :: 0 <= k < n ==> !log[k].row.Undo?
  }

  // ---------------------------------------------------------------- turns

  /** The turns are the frames, cut; a child has one turn per message, other threads have one. */
  ghost predicate Cut(t: Thread, ctx: Context) {
    && t.turnsForCalls != [] && Flatten(t.turnsForCalls) == t.frames
    && |t.turnsForCalls| == if ctx.isChild && |t.messages| > 0 then |t.messages| else 1
  }

  lemma CutStep(t: Thread, next: Thread, ctx: Context, i: nat, r: Row, f: Frame)
    requires Cut(t, ctx) && Advances(t, next, ctx, i, r, f)
    ensures Cut(next, ctx)
  {
    var turns := TurnsAt(t, ctx, i, r);
    SnocLast(turns, f);
    FlattenSnoc(t.turnsForCalls, []);
    assert Flatten(t.turnsForCalls) + [] == Flatten(t.turnsForCalls);
    hide Flatten, KimiTurns.Opens;
    assert t.messages == {} <==> |t.messages| == 0;
  }

  lemma CutStart(ctx: Context)
    requires Start(ctx).Ok?
    ensures Cut(Start(ctx).value, ctx)
  {
    assert Flatten<Frame>([[]]) == [];
    if !ctx.isChild {
      SnocLast([[]], Start(ctx).value.frames[0]);
      assert [] + [Start(ctx).value.frames[0]] == [Start(ctx).value.frames[0]];
    }
  }

  /** Without undo the turns kept for calls are exactly the thread's frames. */
  lemma {:induction false} TurnsAreFrames(log: seq<Entry>, ctx: Context, n: nat)
    requires n <= |log| && Run(log, ctx, n).Ok? && NoUndo(log, n)
    ensures Cut(Run(log, ctx, n).value, ctx)
  {
    hide Step, Start, Cut, Advances;
    if n == 0 {
      CutStart(ctx);
    } else {
      KimiTurns.RunStep(log, ctx, n);
      TurnsAreFrames(log, ctx, n - 1);
      var t := Run(log, ctx, n - 1).value;
      StepAdvances(t, ctx, n - 1, log[n - 1]);
      CutStep(t, Run(log, ctx, n).value, ctx, n - 1, log[n - 1].row, Added(t, ctx, n - 1, log[n - 1]));
    }
  }

  /** A child admits one prompt per prompt row. */
  lemma {:induction false} PromptsCounted(log: seq<Entry>, ctx: Context, n: nat)
    requires n <= |log| && Run(log, ctx, n).Ok? && NoUndo(log, n) && ctx.taskRows == map[]
    ensures |Run(log, ctx, n).value.prompts| == |KimiDelegation.Prompts(log, n)|
  {
    hide Step;
    if n > 0 {
      KimiTurns.RunStep(log, ctx, n);
      PromptsCounted(log, ctx, n - 1);
      StepAdvances(Run(log, ctx, n - 1).value, ctx, n - 1, log[n - 1]);
    }
  }

  // ---------------------------------------------------------------- calls

  /** The calls on record that the first `n` rows make to `c`. */
  function Seen(log: seq<Entry>, n: nat, links: map<string, string>, c: string): set<string>
    requires n <= |log|
  {
    if n == 0 then {}
    else Seen(log, n - 1, links, c) + if LinkOf(links, log[n - 1].row) == Some(c) then {log[n - 1].row.uuid} else {}
  }

  /** The thread's frames as the family sees them. */
  function Tag(owner: string, from: nat, frames: seq<Frame>): (r: seq<FamilyOrder.Frame>)
    ensures |r| == |frames|
    ensures forall k :: 0 <= k < |frames| ==> r[k] == FamilyOrder.Frame(owner, from + k, frames[k].events)
  {
    seq(|frames|, k requires 0 <= k < |frames| => FamilyOrder.Frame(owner, from + k, frames[k].events))
  }

  lemma TagSnoc(owner: string, from: nat, frames: seq<Frame>, f: Frame)
    ensures Tag(owner, from, frames + [f])
            == Tag(owner, from, frames) + [FamilyOrder.Frame(owner, from + |frames|, f.events)]
  {
  }

  ghost predicate Recorded(log: seq<Entry>, n: nat, links: map<string, string>, c: string, t: Thread)
    requires n <= |log|
  {
    forall u :: u in Seen(log, n, links, c) ==> CallKey(u) in t.keys
  }

  /** Frames calling `c` are as many as the recorded calls to it. */
  lemma {:induction false} CallsAreSeen(log: seq<Entry>, ctx: Context, n: nat, owner: string, c: string)
    requires n <= |log| && Run(log, ctx, n).Ok? && NoUndo(log, n)
    ensures Recorded(log, n, ctx.callChildren, c, Run(log, ctx, n).value)
    ensures FamilyOrder.CallCount(Tag(owner, 0, Run(log, ctx, n).value.frames), c)
            == |Seen(log, n, ctx.callChildren, c)|
  {
    hide Step, Added, Start, Recorded, Seen, Tag, FamilyOrder.CallCount, LinkOf, Advances;
    if n == 0 {
      NothingSeen(log, ctx, owner, c);
    } else {
      KimiTurns.RunStep(log, ctx, n);
      CallsAreSeen(log, ctx, n - 1, owner, c);
      var t, e := Run(log, ctx, n - 1).value, log[n - 1];
      StepAdvances(t, ctx, n - 1, e);
      AddedLinks(t, ctx, n - 1, e);
      CallsGrow(log, ctx, n, owner, c, t, Run(log, ctx, n).value, Added(t, ctx, n - 1, e));
    }
  }

  lemma NothingSeen(log: seq<Entry>, ctx: Context, owner: string, c: string)
    requires Start(ctx).Ok?
    ensures Recorded(log, 0, ctx.callChildren, c, Start(ctx).value)
    ensures FamilyOrder.CallCount(Tag(owner, 0, Start(ctx).value.frames), c) == |Seen(log, 0, ctx.callChildren, c)|
  {
    if !ctx.isChild {
      var f := Start(ctx).value.frames[0];
      assert f.events == [];
      FamilyOrder.CallCountSnoc([], FamilyOrder.Frame(owner, 0, []), c);
      assert Tag(owner, 0, Start(ctx).value.frames) == [] + [FamilyOrder.Frame(owner, 0, [])];
    }
  }

  lemma SeenGrows(log: seq<Entry>, n: nat, links: map<string, string>, c: string, t: Thread, next: Thread, key: Key)
    requires 0 < n <= |log| && Recorded(log, n - 1, links, c, t) && key !in t.keys && next.keys == t.keys + {key}
    requires log[n - 1].row.ToolCall? ==> key == CallKey(log[n - 1].row.uuid)
    ensures Recorded(log, n, links, c, next)
    ensures |Seen(log, n, links, c)|
            == |Seen(log, n - 1, links, c)| + if LinkOf(links, log[n - 1].row) == Some(c) then 1 else 0
  {
  }

  lemma CallsGrow(log: seq<Entry>, ctx: Context, n: nat, owner: string, c: string, t: Thread, next: Thread, f: Frame)
    requires 0 < n <= |log|
    requires Recorded(log, n - 1, ctx.callChildren, c, t)
    requires FamilyOrder.CallCount(Tag(owner, 0, t.frames), c) == |Seen(log, n - 1, ctx.callChildren, c)|
    requires Advances(t, next, ctx, n - 1, log[n - 1].row, f)
    requires FamilyOrder.FirstLink(f.events) == LinkOf(ctx.callChildren, log[n - 1].row)
    ensures Recorded(log, n, ctx.callChildren, c, next)
    ensures FamilyOrder.CallCount(Tag(owner, 0, next.frames), c) == |Seen(log, n, ctx.callChildren, c)|
  {
    hide TurnsAt, KimiTurns.Opens, Recorded, Seen, FamilyOrder.CallCount, LinkOf;
    TagSnoc(owner, 0, t.frames, f);
    FamilyOrder.CallCountSnoc(Tag(owner, 0, t.frames), FamilyOrder.Frame(owner, |t.frames|, f.events), c);
    SeenGrows(log, n, ctx.callChildren, c, t, next, f.key);
  }

  lemma {:induction false} SeenAreKeys(log: seq<Entry>, n: nat, links: map<string, string>, c: string, u: string)
    requires n <= |log|
    ensures u in Seen(log, n, links, c) ==> u in KimiDelegation.KeysTo(links, c)
    ensures u in KimiDelegation.KeysTo(links, c) && KimiDelegation.AgentCalled(log, n, u) ==>
              u in Seen(log, n, links, c)
  {
    if n > 0 {
      SeenAreKeys(log, n - 1, links, c, u);
    }
  }

  /** When every link was called, the frames calling `c` are as many as the links to it. */
  lemma CallsAreLinks(log: seq<Entry>, ctx: Context, owner: string, c: string)
    requires Run(log, ctx, |log|).Ok? && NoUndo(log, |log|)
    requires forall u :: u in ctx.callChildren ==> KimiDelegation.AgentCalled(log, |log|, u)
    ensures FamilyOrder.CallCount(Tag(owner, 0, Run(log, ctx, |log|).value.frames), c)
            == |KimiDelegation.KeysTo(ctx.callChildren, c)|
  {
    hide Run, NoUndo, FamilyOrder.CallCount, Tag, KimiDelegation.AgentCalled, Seen;
    CallsAreSeen(log, ctx, |log|, owner, c);
    forall u
      ensures u in Seen(log, |log|, ctx.callChildren, c) <==> u in KimiDelegation.KeysTo(ctx.callChildren, c)
    {
      SeenAreKeys(log, |log|, ctx.callChildren, c, u);
    }
    assert Seen(log, |log|, ctx.callChildren, c) == KimiDelegation.KeysTo(ctx.callChildren, c);
  }

  predicate LinkKnown(links: map<string, string>, f: Frame) {
    FamilyOrder.FirstLink(f.events).Some? ==> FamilyOrder.FirstLink(f.events).value in links.Values
  }

  ghost predicate LinksKnown(links: map<string, string>, frames: seq<Frame>) {
    forall k :: 0 <= k < |frames| ==> LinkKnown(links, frames[k])
  }

  lemma OneLinkKnown(links: map<string, string>, r: Row, f: Frame)
    requires FamilyOrder.FirstLink(f.events) == LinkOf(links, r)
    ensures LinkKnown(links, f)
  {
    hide FamilyOrder.FirstLink;
    if LinkOf(links, r).Some? {
      assert r.uuid in links.Keys;
    }
  }

  lemma StartLinksNobody(ctx: Context)
    requires Start(ctx).Ok?
    ensures LinksKnown(ctx.callChildren, Start(ctx).value.frames)
  {
  }

  /** A frame links to children on record only. */
  lemma {:induction false} FramesLink(log: seq<Entry>, ctx: Context, n: nat)
    requires n <= |log| && Run(log, ctx, n).Ok? && NoUndo(log, n)
    ensures LinksKnown(ctx.callChildren, Run(log, ctx, n).value.frames)
  {
    hide Step, Start, Added, LinkOf, LinkKnown, TurnsAt;
    if n == 0 {
      StartLinksNobody(ctx);
    } else {
      KimiTurns.RunStep(log, ctx, n);
      FramesLink(log, ctx, n - 1);
      var t, e := Run(log, ctx, n - 1).value, log[n - 1];
      StepAdvances(t, ctx, n - 1, e);
      AddedLinks(t, ctx, n - 1, e);
      OneLinkKnown(ctx.callChildren, e.row, Added(t, ctx, n - 1, e));
    }
  }

  // ---------------------------------------------------------------- turns, tagged

  function TagTurns(owner: string, from: nat, turns: seq<seq<Frame>>): (r: seq<seq<FamilyOrder.Frame>>)
    ensures |r| == |turns|
    decreases |turns|
  {
    if turns == [] then [] else [Tag(owner, from, turns[0])] + TagTurns(owner, from + |turns[0]|, turns[1..])
  }

  lemma {:induction false} TagFlatten(owner: string, from: nat, turns: seq<seq<Frame>>)
    ensures Flatten(TagTurns(owner, from, turns)) == Tag(owner, from, Flatten(turns))
    decreases |turns|
  {
    if turns != [] {
      TagFlatten(owner, from + |turns[0]|, turns[1..]);
      assert TagTurns(owner, from, turns)[1..] == TagTurns(owner, from + |turns[0]|, turns[1..]);
      TagAppend(owner, from, turns[0], Flatten(turns[1..]));
    }
  }

  lemma TagAppend(owner: string, from: nat, a: seq<Frame>, b: seq<Frame>)
    ensures Tag(owner, from, a + b) == Tag(owner, from, a) + Tag(owner, from + |a|, b)
  {
  }

  /** Every frame of every tagged turn is one of the thread's frames. */
  lemma {:induction false} TagOwned(owner: string, from: nat, turns: seq<seq<Frame>>,
                                    links: map<string, string>, t: nat)
    requires t < |turns| && LinksKnown(links, Flatten(turns))
    ensures forall k :: 0 <= k < |TagTurns(owner, from, turns)[t]| ==>
              var f := TagTurns(owner, from, turns)[t][k];
              f.owner == owner && (FamilyOrder.Link(f).Some? ==> FamilyOrder.Link(f).value in links.Values)
    decreases |turns|
  {
    var rest := Flatten(turns[1..]);
    assert Flatten(turns) == turns[0] + rest;
    if t == 0 {
      forall k | 0 <= k < |turns[0]|
        ensures LinkKnown(links, turns[0][k])
      {
        assert (turns[0] + rest)[k] == turns[0][k];
      }
    } else {
      forall k | 0 <= k < |rest|
        ensures LinkKnown(links, rest[k])
      {
        assert (turns[0] + rest)[|turns[0]| + k] == rest[k];
      }
      TagOwned(owner, from + |turns[0]|, turns[1..], links, t - 1);
    }
  }
}
