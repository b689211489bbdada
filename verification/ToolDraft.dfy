// Streamed tool arguments: an update that only says "one token longer" is held back until it is
// either outgrown by the next or has to go out.

module ToolDrafts {
  import opened Common

  datatype Status = Pending | InProgress | Completed | Failed

  // One block of an update as the agent sent it. `rendered` is the block's text as it would be
  // shown; a picture, a patch and a terminal have none.
  datatype Block = Text(rendered: string) | Picture(file: nat) | Patch(change: nat) | Terminal

  // A `tool_call_update` as it arrives. `output` is the trimmed text of `rawOutput`, if it has any.
  datatype Update = Update(call: string, title: Option<string>, status: Option<Status>, locations: seq<string>,
                           rawInput: Option<string>, blocks: seq<Block>, output: Option<string>,
                           parent: Option<string>, backgrounded: bool)

  datatype Event =
    | Told(call: string, title: Option<string>, status: Option<Status>, locations: seq<string>,
           rawInput: Option<string>, content: Option<seq<string>>, images: seq<nat>, parent: Option<string>,
           backgrounded: bool)
    | Changed(call: string, change: nat)
    | Thing(id: nat)
    | Aside(id: nat)

  // `Say` is anything else the agent tells the session and every end of a turn; `Interject` is what
  // other paths emit without sending the held update first.
  datatype Input =
    | Telling(update: Update)
    | Announce(call: string, id: nat, blocks: seq<Block>)
    | Say(id: nat)
    | Interject(id: nat)

  function Texts(blocks: seq<Block>): seq<string> {
    if blocks == [] then []
    else (if blocks[0].Text? && blocks[0].rendered != "" then [blocks[0].rendered] else []) + Texts(blocks[1..])
  }

  function Pictures(blocks: seq<Block>): seq<nat> {
    if blocks == [] then [] else (if blocks[0].Picture? then [blocks[0].file] else []) + Pictures(blocks[1..])
  }

  function Patches(blocks: seq<Block>): seq<nat> {
    if blocks == [] then [] else (if blocks[0].Patch? then [blocks[0].change] else []) + Patches(blocks[1..])
  }

  lemma OneBlock(b: Block)
    ensures Texts([b]) == (if b.Text? && b.rendered != "" then [b.rendered] else [])
    ensures Pictures([b]) == (if b.Picture? then [b.file] else [])
    ensures Patches([b]) == (if b.Patch? then [b.change] else [])
  {
    assert [b][1..] == [];
  }

  // What the blocks say, or what the tool's own result says where they say nothing.
  function Content(u: Update): Option<seq<string>> {
    var texts := Texts(u.blocks);
    if texts != [] then Some(texts) else if u.output.Some? then Some([u.output.value]) else None
  }

  function EventOf(u: Update): Event {
    Told(u.call, u.title, u.status, u.locations, u.rawInput, Content(u), Pictures(u.blocks), u.parent, u.backgrounded)
  }

  function Changes(call: string, changes: seq<nat>): seq<Event> {
    if changes == [] then [] else [Changed(call, changes[0])] + Changes(call, changes[1..])
  }

  lemma ChangesStep(call: string, diffs: seq<nat>, i: nat)
    requires i < |diffs|
    ensures Changes(call, diffs[i..]) == [Changed(call, diffs[i])] + Changes(call, diffs[i + 1..])
  {
    assert diffs[i..][1..] == diffs[i + 1..];
  }

  // A call's patches are reported once, with the first update that has any.
  function Reported(diffed: set<string>, call: string, blocks: seq<Block>): seq<Event> {
    if call in diffed then [] else Changes(call, Patches(blocks))
  }

  function Diffed(diffed: set<string>, call: string, blocks: seq<Block>): set<string> {
    if Patches(blocks) == [] then diffed else diffed + {call}
  }

  datatype Draft = Draft(call: string, block: Option<string>, status: Option<Status>, held: Option<Event>)

  datatype Session = Session(draft: Option<Draft>, diffed: set<string>, out: seq<Event>) {
    function Held(): seq<Event> {
      if draft.Some? && draft.value.held.Some? then [draft.value.held.value] else []
    }

    function Flushed(): Session {
      if Held() == [] then this else this.(draft := Some(draft.value.(held := None)), out := out + Held())
    }

    predicate Holds(e: Event)
      requires e.Told?
    {
      && e.content.Some? && |e.content.value| == 1
      && e.title == None && e.rawInput == None && e.locations == [] && e.images == []
      && draft.Some? && draft.value.block.Some? && draft.value.call == e.call && draft.value.status == e.status
      && draft.value.block.value < e.content.value[0]
    }

    predicate IsHeld(i: Input) { i.Telling? && |i.update.blocks| == 1 && Holds(EventOf(i.update)) }

    function Holding(e: Event): Session
      requires e.Told? && Holds(e)
    {
      this.(draft := Some(draft.value.(block := Some(e.content.value[0]), held := Some(e))))
    }

    function Sent(u: Update): Session {
      var e, flushed := EventOf(u), Flushed();
      var block := if e.content.Some? && |e.content.value| == 1 then Some(e.content.value[0]) else None;
      Session(Some(Draft(e.call, block, e.status, None)), Diffed(diffed, u.call, u.blocks),
              flushed.out + [e] + Reported(diffed, u.call, u.blocks))
    }
  }

  const FRESH: Session := Session(None, {}, [])

  function Next(s: Session, i: Input): Session {
    match i
    case Telling(u) => if s.IsHeld(i) then s.Holding(EventOf(u)) else s.Sent(u)
    case Announce(call, id, blocks) =>
      var flushed := s.Flushed();
      flushed.(out := flushed.out + [Thing(id)] + Reported(s.diffed, call, blocks),
               diffed := Diffed(s.diffed, call, blocks))
    case Say(id) => var flushed := s.Flushed(); flushed.(out := flushed.out + [Thing(id)])
    case Interject(id) => s.(out := s.out + [Aside(id)])
  }

  function After(s: Session, inputs: seq<Input>): Session
    decreases |inputs|
  {
    if inputs == [] then s else After(Next(s, inputs[0]), inputs[1..])
  }

  class Drafting {
    var draft: Option<Draft>
    var diffed: set<string>
    var out: seq<Event>

    function State(): Session
      reads this
    {
      Session(draft, diffed, out)
    }

    constructor ()
      ensures State() == FRESH
    {
      draft, diffed, out := None, {}, [];
    }

    method FlushToolDraft()
      modifies this
      ensures State() == old(State()).Flushed()
    {
      if draft == None || draft.value.held == None { return; }
      var e := draft.value.held.value;
      draft := Some(draft.value.(held := None));
      out := out + [e];
    }

    method HoldsToolDraft(e: Event) returns (held: bool)
      requires e.Told?
      modifies this`draft
      ensures held == old(State()).Holds(e)
      ensures State() == if held then old(State()).Holding(e) else old(State())
    {
      if e.content == None || |e.content.value| != 1 { return false; }
      var block := e.content.value[0];
      if e.title != None || e.rawInput != None { return false; }
      if |e.locations| > 0 || |e.images| > 0 { return false; }
      if draft == None || draft.value.block == None || draft.value.call != e.call { return false; }
      if e.status != draft.value.status { return false; }
      var base := draft.value.block.value;
      if |block| <= |base| || !(base <= block) { return false; }
      draft := Some(draft.value.(block := Some(block), held := Some(e)));
      return true;
    }

    method PushChanges(call: string, diffs: seq<nat>)
      modifies this`out
      ensures out == old(out) + Changes(call, diffs)
    {
      ghost var before := out;
      var i := 0;
      while i < |diffs|
        invariant 0 <= i <= |diffs|
        invariant out + Changes(call, diffs[i..]) == before + Changes(call, diffs)
      {
        ChangesStep(call, diffs, i);
        var e := Changed(call, diffs[i]);
        assert out + ([e] + Changes(call, diffs[i + 1..])) == out + [e] + Changes(call, diffs[i + 1..]);
        out := out + [e];
        i := i + 1;
      }
      assert diffs[i..] == [];
    }

    method EmitDiffs(call: string, blocks: seq<Block>)
      modifies this
      ensures State() == Session(old(draft), Diffed(old(diffed), call, blocks),
                                 old(out) + Reported(old(diffed), call, blocks))
    {
      var diffs := Patches(blocks);
      if |diffs| == 0 || call in diffed { return; }
      diffed := diffed + {call};
      PushChanges(call, diffs);
    }

    method OnToolCallUpdate(u: Update)
      modifies this
      ensures State() == Next(old(State()), Telling(u))
    {
      var e := EventOf(u);
      if |u.blocks| == 1 {
        var held := HoldsToolDraft(e);
        if held { return; }
      }
      FlushToolDraft();
      out := out + [e];
      draft := Some(Draft(e.call, if e.content.Some? && |e.content.value| == 1 then Some(e.content.value[0]) else None,
                          e.status, None));
      EmitDiffs(u.call, u.blocks);
    }

    method OnToolCall(call: string, id: nat, blocks: seq<Block>)
      modifies this
      ensures State() == Next(old(State()), Announce(call, id, blocks))
    {
      FlushToolDraft();
      out := out + [Thing(id)];
      EmitDiffs(call, blocks);
    }

    // Any other update, and the answer that ends a turn.
    method OnOther(id: nat)
      modifies this
      ensures State() == Next(old(State()), Say(id))
    {
      FlushToolDraft();
      out := out + [Thing(id)];
    }

    method OnAside(id: nat)
      modifies this
      ensures State() == Next(old(State()), Interject(id))
    {
      out := out + [Aside(id)];
    }
  }

  // ---- what one update becomes ----

  // The texts, the pictures and the patches of some blocks are those of each, in order; an empty text
  // is none.
  lemma BlocksInOrder(a: seq<Block>, b: Block)
    ensures Texts(a + [b]) == Texts(a) + if b.Text? && b.rendered != "" then [b.rendered] else []
    ensures Pictures(a + [b]) == Pictures(a) + if b.Picture? then [b.file] else []
    ensures Patches(a + [b]) == Patches(a) + if b.Patch? then [b.change] else []
  {
    TextsInOrder(a, b);
    PicturesInOrder(a, b);
    PatchesInOrder(a, b);
    OneBlock(b);
  }

  lemma {:induction false} TextsInOrder(a: seq<Block>, b: Block)
    ensures Texts(a + [b]) == Texts(a) + Texts([b])
  {
    if a == [] {
      assert a + [b] == [b];
    } else {
      TextsInOrder(a[1..], b);
      assert [a[0]] + a[1..] == a;
      Grouped([a[0]], a[1..], [b]);
      FirstBlock(a[0], a[1..] + [b]);
      FirstBlock(a[0], a[1..]);
      Grouped(Texts([a[0]]), Texts(a[1..]), Texts([b]));
    }
  }

  lemma {:induction false} PicturesInOrder(a: seq<Block>, b: Block)
    ensures Pictures(a + [b]) == Pictures(a) + Pictures([b])
  {
    if a == [] {
      assert a + [b] == [b];
    } else {
      PicturesInOrder(a[1..], b);
      assert [a[0]] + a[1..] == a;
      Grouped([a[0]], a[1..], [b]);
      FirstBlock(a[0], a[1..] + [b]);
      FirstBlock(a[0], a[1..]);
      Grouped(Pictures([a[0]]), Pictures(a[1..]), Pictures([b]));
    }
  }

  lemma {:induction false} PatchesInOrder(a: seq<Block>, b: Block)
    ensures Patches(a + [b]) == Patches(a) + Patches([b])
  {
    if a == [] {
      assert a + [b] == [b];
    } else {
      PatchesInOrder(a[1..], b);
      assert [a[0]] + a[1..] == a;
      Grouped([a[0]], a[1..], [b]);
      FirstBlock(a[0], a[1..] + [b]);
      FirstBlock(a[0], a[1..]);
      Grouped(Patches([a[0]]), Patches(a[1..]), Patches([b]));
    }
  }

  lemma Grouped<T>(a: seq<T>, b: seq<T>, c: seq<T>)
    ensures a + (b + c) == (a + b) + c
  {}

  lemma FirstBlock(b: Block, rest: seq<Block>)
    ensures Texts([b] + rest) == Texts([b]) + Texts(rest)
    ensures Pictures([b] + rest) == Pictures([b]) + Pictures(rest)
    ensures Patches([b] + rest) == Patches([b]) + Patches(rest)
  {
    OneBlock(b);
    assert ([b] + rest)[1..] == rest;
  }

  lemma {:induction false} ChangesInOrder(call: string, changes: seq<nat>, i: nat)
    requires i < |changes|
    ensures |Changes(call, changes)| == |changes| && Changes(call, changes)[i] == Changed(call, changes[i])
  {
    if i > 0 {
      ChangesInOrder(call, changes[1..], i - 1);
    } else if |changes| > 1 {
      ChangesInOrder(call, changes[1..], 0);
    }
  }

  // What an update's event must say: its own fields, and its texts in order or else its output.
  ghost predicate Says(e: Event, u: Update) {
    match e
    case Told(call, title, status, locations, rawInput, content, images, parent, backgrounded) =>
      && call == u.call && title == u.title && status == u.status && locations == u.locations
      && rawInput == u.rawInput && images == Pictures(u.blocks)
      && parent == u.parent && backgrounded == u.backgrounded
      && (Texts(u.blocks) != [] ==> content == Some(Texts(u.blocks)))
      && (Texts(u.blocks) == [] && u.output.Some? ==> content == Some([u.output.value]))
      && (Texts(u.blocks) == [] && u.output == None ==> content == None)
    case _ => false
  }

  // Nothing but one more piece of the text that the call's last block began: a single block without a
  // picture, saying one text that goes on from it, under the status last sent.
  ghost predicate OnlyGrows(s: Session, u: Update) {
    && |u.blocks| == 1 && !u.blocks[0].Picture?
    && u.title == None && u.rawInput == None && u.locations == []
    && s.draft.Some? && s.draft.value.call == u.call && s.draft.value.status == u.status && s.draft.value.block.Some?
    && var base := s.draft.value.block.value;
       if u.blocks[0].Text? && u.blocks[0].rendered != "" then base < u.blocks[0].rendered
       else u.output.Some? && base < u.output.value
  }

  // Every update's event says what the update says. It waits, in place of the one that waited, exactly
  // when it only grows; otherwise it goes out at once, after what waited and before its patches, and
  // nothing waits.
  lemma AnUpdateBecomesItsEvent(s: Session, u: Update) returns (e: Event)
    ensures Says(e, u)
    ensures OnlyGrows(s, u) ==> Next(s, Telling(u)).out == s.out && Next(s, Telling(u)).Held() == [e]
    ensures !OnlyGrows(s, u) ==>
              && Next(s, Telling(u)).Held() == []
              && Next(s, Telling(u)).out
                 == s.out + s.Held() + ([e] + if u.call in s.diffed then [] else Changes(u.call, Patches(u.blocks)))
  {
    e := EventOf(u);
    HeldIsGrowth(s, u);
    if !s.IsHeld(Telling(u)) { UnheldSays(s, Telling(u)); }
  }

  lemma OneBlockSays(u: Update)
    requires |u.blocks| == 1
    ensures var b := u.blocks[0];
            && (EventOf(u).images == [] <==> !b.Picture?)
            && EventOf(u).content == if b.Text? && b.rendered != "" then Some([b.rendered])
                                     else if u.output.Some? then Some([u.output.value]) else None
  {
    OneBlock(u.blocks[0]);
    assert u.blocks == [u.blocks[0]];
  }

  lemma HeldIsGrowth(s: Session, u: Update)
    ensures s.IsHeld(Telling(u)) <==> OnlyGrows(s, u)
  {
    if |u.blocks| == 1 { OneBlockSays(u); }
  }

  // ---- what a session that held nothing would have said ----

  function PlainOf(diffed: set<string>, i: Input): seq<Event> {
    match i
    case Telling(u) => [EventOf(u)] + Reported(diffed, u.call, u.blocks)
    case Announce(call, id, blocks) => [Thing(id)] + Reported(diffed, call, blocks)
    case Say(id) => [Thing(id)]
    case Interject(_) => []
  }

  function DiffedBy(diffed: set<string>, i: Input): set<string> {
    match i
    case Telling(u) => Diffed(diffed, u.call, u.blocks)
    case Announce(call, _, blocks) => Diffed(diffed, call, blocks)
    case Say(_) => diffed
    case Interject(_) => diffed
  }

  function Plain(diffed: set<string>, inputs: seq<Input>): seq<Event>
    decreases |inputs|
  {
    if inputs == [] then [] else PlainOf(diffed, inputs[0]) + Plain(DiffedBy(diffed, inputs[0]), inputs[1..])
  }

  // What a session says of its own accord, without what other paths put in between.
  function Main(out: seq<Event>): seq<Event> {
    if out == [] then []
    else Main(out[..|out| - 1]) + (if out[|out| - 1].Aside? then [] else [out[|out| - 1]])
  }

  lemma {:induction false} MainSplits(a: seq<Event>, b: seq<Event>)
    ensures Main(a + b) == Main(a) + Main(b)
    decreases |b|
  {
    if b == [] {
      assert a + b == a;
    } else {
      assert (a + b)[..|a + b| - 1] == a + b[..|b| - 1];
      MainSplits(a, b[..|b| - 1]);
    }
  }

  predicate NoAsides(events: seq<Event>) { forall i :: 0 <= i < |events| ==> !events[i].Aside? }

  lemma {:induction false} MainOfOwn(events: seq<Event>)
    requires NoAsides(events)
    ensures Main(events) == events
    decreases |events|
  {
    if events != [] {
      MainOfOwn(events[..|events| - 1]);
      assert events == events[..|events| - 1] + [events[|events| - 1]];
    }
  }

  lemma {:induction false} ChangesAreOwn(call: string, changes: seq<nat>)
    ensures NoAsides(Changes(call, changes))
  {
    if changes != [] { ChangesAreOwn(call, changes[1..]); }
  }

  lemma PlainIsOwn(diffed: set<string>, i: Input)
    ensures NoAsides(PlainOf(diffed, i))
  {
    match i
    case Telling(u) => ChangesAreOwn(u.call, Patches(u.blocks));
    case Announce(call, _, blocks) => ChangesAreOwn(call, Patches(blocks));
    case Say(_) =>
    case Interject(_) =>
  }

  // The event `b` says everything `a` says, and one block more of it.
  predicate Extends(a: Event, b: Event) {
    && a.Told? && b.Told? && a.call == b.call && a.status == b.status
    && a.title == None && a.rawInput == None && a.locations == [] && a.images == []
    && b.title == None && b.rawInput == None && b.locations == [] && b.images == []
    && a.content.Some? && |a.content.value| == 1 && b.content.Some? && |b.content.value| == 1
    && a.content.value[0] < b.content.value[0]
  }

  // `kept` is `plain` with some updates left out, each of them extended by the very next event.
  // `next` is what follows `plain`.
  ghost predicate Thinned(plain: seq<Event>, kept: seq<Event>, next: Option<Event>)
    decreases |plain|
  {
    if plain == [] then kept == []
    else
      var n, last := |plain| - 1, plain[|plain| - 1];
      || (kept != [] && kept[|kept| - 1] == last && Thinned(plain[..n], kept[..|kept| - 1], Some(last)))
      || (next.Some? && Extends(last, next.value) && Thinned(plain[..n], kept, Some(last)))
  }

  lemma KeepOne(plain: seq<Event>, kept: seq<Event>, e: Event)
    requires Thinned(plain, kept, Some(e))
    ensures Thinned(plain + [e], kept + [e], None)
  {
    assert (plain + [e])[..|plain|] == plain && (kept + [e])[..|kept|] == kept;
  }

  lemma WithNext(plain: seq<Event>, kept: seq<Event>, e: Event)
    requires Thinned(plain, kept, None)
    ensures Thinned(plain, kept, Some(e))
  {}

  // The last event was held back; the one after it extends it, and takes its place.
  lemma Outgrown(plain: seq<Event>, kept: seq<Event>, h: Event, e: Event)
    requires Thinned(plain, kept + [h], None) && Extends(h, e)
    ensures Thinned(plain, kept, Some(e))
  {
    assert (kept + [h])[..|kept|] == kept;
  }

  lemma {:induction false} KeepAll(plain: seq<Event>, kept: seq<Event>, more: seq<Event>)
    requires Thinned(plain, kept, None)
    ensures Thinned(plain + more, kept + more, None)
    decreases |more|
  {
    if more == [] {
      assert plain + more == plain && kept + more == kept;
    } else {
      WithNext(plain, kept, more[0]);
      KeepOne(plain, kept, more[0]);
      KeepAll(plain + [more[0]], kept + [more[0]], more[1..]);
      assert plain + more == plain + [more[0]] + more[1..] && kept + more == kept + [more[0]] + more[1..];
    }
  }

  // ---- what thinning means for a reader ----

  lemma ExtendsIsTransitive(a: Event, b: Event, c: Event)
    requires Extends(a, b) && Extends(b, c)
    ensures Extends(a, c)
  {}

  // Everything said was delivered, or is extended by something that was.
  lemma {:induction false} NothingButDraftsIsLost(plain: seq<Event>, kept: seq<Event>, next: Option<Event>, i: nat)
    requires Thinned(plain, kept, next) && i < |plain|
    ensures || plain[i] in kept
            || (exists k :: 0 <= k < |kept| && Extends(plain[i], kept[k]))
            || (next.Some? && Extends(plain[i], next.value))
    decreases |plain|
  {
    var n, last := |plain| - 1, plain[|plain| - 1];
    var shorter := if kept != [] && kept[|kept| - 1] == last && Thinned(plain[..n], kept[..|kept| - 1], Some(last))
                   then kept[..|kept| - 1] else kept;
    if i < n {
      NothingButDraftsIsLost(plain[..n], shorter, Some(last), i);
      if plain[i] in shorter {
      } else if k :| 0 <= k < |shorter| && Extends(plain[i], shorter[k]) {
        assert Extends(plain[i], kept[k]);
      } else if shorter == kept {
        ExtendsIsTransitive(plain[i], last, next.value);
      } else {
        assert Extends(plain[i], kept[|kept| - 1]);
      }
    }
  }

  ghost predicate IsSubsequence(a: seq<Event>, b: seq<Event>)
    decreases |b|
  {
    if a == [] then true
    else if b == [] then false
    else
      || (a[|a| - 1] == b[|b| - 1] && IsSubsequence(a[..|a| - 1], b[..|b| - 1]))
      || IsSubsequence(a, b[..|b| - 1])
  }

  // The order is the order in which things were said.
  lemma {:induction false} OrderIsKept(plain: seq<Event>, kept: seq<Event>, next: Option<Event>)
    requires Thinned(plain, kept, next)
    ensures IsSubsequence(kept, plain)
    decreases |plain|
  {
    if plain != [] {
      var n, last := |plain| - 1, plain[|plain| - 1];
      if kept != [] && kept[|kept| - 1] == last && Thinned(plain[..n], kept[..|kept| - 1], Some(last)) {
        OrderIsKept(plain[..n], kept[..|kept| - 1], Some(last));
      } else {
        OrderIsKept(plain[..n], kept, Some(last));
      }
    }
  }

  // ---- a session only thins what it would have said ----

  // A lone patch whose output, arriving elsewhere, reads as a draft, while no patch of its call has
  // been reported: it is held, and its patch is not.
  predicate LosesPatch(s: Session, i: Input) {
    s.IsHeld(i) && i.update.blocks[0].Patch? && i.update.output.Some? && i.update.call !in s.diffed
  }

  // The held update is the one its call's draft was last judged by.
  ghost predicate DraftIsHeld(s: Session) {
    s.draft.Some? && s.draft.value.held.Some? ==>
      var (d, h) := (s.draft.value, s.draft.value.held.value);
      h.Told? && h.call == d.call && h.status == d.status && d.block.Some?
      && h.content.Some? && |h.content.value| == 1 && h.content.value[0] == d.block.value
      && h.title == None && h.rawInput == None && h.locations == [] && h.images == []
  }

  ghost predicate Thins(s: Session, plain: seq<Event>) {
    DraftIsHeld(s) && NoAsides(s.Held()) && Thinned(plain, Main(s.out) + s.Held(), None)
  }

  lemma HeldExtends(s: Session, e: Event)
    requires DraftIsHeld(s) && e.Told? && s.Holds(e) && s.Held() != []
    ensures Extends(s.Held()[0], e)
  {}

  lemma HoldThins(s: Session, plain: seq<Event>, e: Event)
    requires Thins(s, plain) && e.Told? && s.Holds(e)
    ensures Thins(s.Holding(e), plain + [e])
  {
    var kept := Main(s.out);
    if s.Held() == [] {
      assert kept + [] == kept;
      WithNext(plain, kept, e);
    } else {
      var h := s.Held()[0];
      HeldExtends(s, e);
      assert s.Held() == [h];
      Outgrown(plain, kept, h, e);
    }
    KeepOne(plain, kept, e);
  }

  lemma UnheldSays(s: Session, i: Input)
    requires !i.Interject? && !s.IsHeld(i)
    ensures Next(s, i).out == s.out + s.Held() + PlainOf(s.diffed, i) && Next(s, i).Held() == []
  {
    if i.Telling? {
      var u := i.update;
      assert s.out + s.Held() + [EventOf(u)] + Reported(s.diffed, u.call, u.blocks)
             == s.out + s.Held() + PlainOf(s.diffed, i);
    } else if i.Announce? {
      assert s.out + s.Held() + [Thing(i.id)] + Reported(s.diffed, i.call, i.blocks)
             == s.out + s.Held() + PlainOf(s.diffed, i);
    }
  }

  lemma MainOfThree(a: seq<Event>, b: seq<Event>, c: seq<Event>)
    ensures Main(a + b + c) == Main(a) + Main(b) + Main(c)
  {
    MainSplits(a + b, c);
    MainSplits(a, b);
  }

  // Sending what is held and then more of one's own.
  lemma SayThins(s: Session, plain: seq<Event>, next: Session, more: seq<Event>)
    requires Thins(s, plain) && NoAsides(more)
    requires next.out == s.out + s.Held() + more && next.Held() == []
    ensures Thins(next, plain + more)
  {
    MainOfThree(s.out, s.Held(), more);
    MainOfOwn(s.Held());
    MainOfOwn(more);
    var kept := Main(s.out) + s.Held();
    KeepAll(plain, kept, more);
    assert kept + more + [] == kept + more;
  }

  lemma HeldReports(s: Session, u: Update)
    requires s.IsHeld(Telling(u))
    ensures !LosesPatch(s, Telling(u)) ==>
              Reported(s.diffed, u.call, u.blocks) == [] && Diffed(s.diffed, u.call, u.blocks) == s.diffed
    ensures LosesPatch(s, Telling(u)) ==>
              Reported(s.diffed, u.call, u.blocks) == [Changed(u.call, u.blocks[0].change)]
              && u.call in Diffed(s.diffed, u.call, u.blocks)
  {
    OneBlock(u.blocks[0]);
    assert u.blocks == [u.blocks[0]];
    if u.blocks[0].Patch? {
      assert [u.blocks[0].change][1..] == [];
      assert Changes(u.call, [u.blocks[0].change]) == [Changed(u.call, u.blocks[0].change)];
      assert u.call in s.diffed ==> s.diffed + {u.call} == s.diffed;
    }
  }

  lemma TellingThins(s: Session, plain: seq<Event>, u: Update)
    requires Thins(s, plain)
    ensures Thins(Next(s, Telling(u)), plain + PlainOf(s.diffed, Telling(u))) <==> !LosesPatch(s, Telling(u))
    ensures !LosesPatch(s, Telling(u)) ==> Next(s, Telling(u)).diffed == DiffedBy(s.diffed, Telling(u))
  {
    if s.IsHeld(Telling(u)) {
      HeldReports(s, u);
      if LosesPatch(s, Telling(u)) {
        LostIsMissed(s, plain, u);
      } else {
        HoldThins(s, plain, EventOf(u));
        assert PlainOf(s.diffed, Telling(u)) == [EventOf(u)];
      }
    } else {
      SendThins(s, plain, u);
    }
  }

  // With a patch left out the whole ends with it, and what was said does not.
  lemma LostIsMissed(s: Session, plain: seq<Event>, u: Update)
    requires LosesPatch(s, Telling(u))
    ensures !Thins(Next(s, Telling(u)), plain + PlainOf(s.diffed, Telling(u)))
  {
    HeldReports(s, u);
    var t, whole := Next(s, Telling(u)), plain + PlainOf(s.diffed, Telling(u));
    var kept := Main(t.out) + t.Held();
    assert whole[|whole| - 1].Changed? && kept[|kept| - 1] == EventOf(u);
  }

  lemma SendThins(s: Session, plain: seq<Event>, u: Update)
    requires Thins(s, plain) && !s.IsHeld(Telling(u))
    ensures Thins(Next(s, Telling(u)), plain + PlainOf(s.diffed, Telling(u)))
  {
    PlainIsOwn(s.diffed, Telling(u));
    UnheldSays(s, Telling(u));
    SayThins(s, plain, Next(s, Telling(u)), PlainOf(s.diffed, Telling(u)));
  }

  lemma AnnounceThins(s: Session, plain: seq<Event>, i: Input)
    requires Thins(s, plain) && (i.Announce? || i.Say?)
    ensures Thins(Next(s, i), plain + PlainOf(s.diffed, i))
  {
    PlainIsOwn(s.diffed, i);
    UnheldSays(s, i);
    SayThins(s, plain, Next(s, i), PlainOf(s.diffed, i));
  }

  lemma AsideThins(s: Session, plain: seq<Event>, id: nat)
    requires Thins(s, plain)
    ensures Thins(Next(s, Interject(id)), plain)
  {
    MainSplits(s.out, [Aside(id)]);
    assert [Aside(id)][..0] == [];
    assert Main([Aside(id)]) == [] && Main(s.out) + [] == Main(s.out);
  }

  lemma StepThins(s: Session, plain: seq<Event>, i: Input)
    requires Thins(s, plain)
    ensures Thins(Next(s, i), plain + PlainOf(s.diffed, i)) <==> !LosesPatch(s, i)
    ensures !LosesPatch(s, i) ==> Next(s, i).diffed == DiffedBy(s.diffed, i)
  {
    match i
    case Telling(u) => TellingThins(s, plain, u);
    case Announce(_, _, _) => AnnounceThins(s, plain, i);
    case Say(_) => AnnounceThins(s, plain, i);
    case Interject(id) =>
      AsideThins(s, plain, id);
      assert plain + [] == plain;
  }

  predicate NoPatchLost(s: Session, inputs: seq<Input>)
    decreases |inputs|
  {
    inputs == [] || (!LosesPatch(s, inputs[0]) && NoPatchLost(Next(s, inputs[0]), inputs[1..]))
  }

  lemma Associates(a: seq<Event>, b: seq<Event>, c: seq<Event>)
    ensures a + b + c == a + (b + c)
  {}

  lemma PlainCons(diffed: set<string>, inputs: seq<Input>, plain: seq<Event>)
    requires inputs != []
    ensures plain + PlainOf(diffed, inputs[0]) + Plain(DiffedBy(diffed, inputs[0]), inputs[1..])
            == plain + Plain(diffed, inputs)
  {
    Associates(plain, PlainOf(diffed, inputs[0]), Plain(DiffedBy(diffed, inputs[0]), inputs[1..]));
  }

  // That what is said and held thins what is said holding nothing, after each of the inputs.
  ghost predicate AlwaysThins(s: Session, plain: seq<Event>, inputs: seq<Input>) {
    forall n :: 0 <= n <= |inputs| ==> ThinsAfter(s, plain, inputs[..n])
  }

  ghost predicate ThinsAfter(s: Session, plain: seq<Event>, inputs: seq<Input>) {
    Thins(After(s, inputs), plain + Plain(s.diffed, inputs))
  }

  lemma AfterNone(s: Session, plain: seq<Event>)
    ensures ThinsAfter(s, plain, []) <==> Thins(s, plain)
  {
    assert plain + [] == plain;
  }

  lemma ThinsAfterCons(s: Session, plain: seq<Event>, inputs: seq<Input>)
    requires inputs != [] && Next(s, inputs[0]).diffed == DiffedBy(s.diffed, inputs[0])
    ensures ThinsAfter(s, plain, inputs)
            <==> ThinsAfter(Next(s, inputs[0]), plain + PlainOf(s.diffed, inputs[0]), inputs[1..])
  {
    PlainCons(s.diffed, inputs, plain);
  }

  lemma AlwaysThinsCons(s: Session, plain: seq<Event>, inputs: seq<Input>)
    requires inputs != [] && Next(s, inputs[0]).diffed == DiffedBy(s.diffed, inputs[0]) && Thins(s, plain)
    ensures AlwaysThins(s, plain, inputs)
            <==> AlwaysThins(Next(s, inputs[0]), plain + PlainOf(s.diffed, inputs[0]), inputs[1..])
  {
    var t, longer, rest := Next(s, inputs[0]), plain + PlainOf(s.diffed, inputs[0]), inputs[1..];
    forall n | 0 <= n <= |rest| ensures ThinsAfter(s, plain, inputs[..n + 1]) <==> ThinsAfter(t, longer, rest[..n]) {
      assert inputs[..n + 1][1..] == rest[..n];
      ThinsAfterCons(s, plain, inputs[..n + 1]);
    }
    AfterNone(s, plain);
    assert inputs[..0] == [];
    forall n | 0 < n <= |inputs| ensures ThinsAfter(s, plain, inputs[..n]) <==> ThinsAfter(t, longer, rest[..n - 1]) {
      assert inputs[..n - 1 + 1] == inputs[..n];
    }
  }

  lemma LostAtOnce(s: Session, plain: seq<Event>, inputs: seq<Input>)
    requires Thins(s, plain) && inputs != [] && LosesPatch(s, inputs[0])
    ensures !AlwaysThins(s, plain, inputs)
  {
    StepThins(s, plain, inputs[0]);
    var one := inputs[..1];
    assert one[0] == inputs[0] && one[1..] == [];
    assert After(s, one) == After(Next(s, inputs[0]), []);
    assert Plain(s.diffed, one) == PlainOf(s.diffed, inputs[0]) + [] == PlainOf(s.diffed, inputs[0]);
    assert !ThinsAfter(s, plain, one);
  }

  // After every input of a run, what a session has said, with what it still holds, is what it would
  // have said holding nothing, but for updates that the very next event extends: if and only if no
  // lone patch was held whose call had none reported.
  lemma {:induction false} ASessionOnlyThins(s: Session, plain: seq<Event>, inputs: seq<Input>)
    requires Thins(s, plain)
    ensures AlwaysThins(s, plain, inputs) <==> NoPatchLost(s, inputs)
    decreases |inputs|
  {
    if inputs == [] {
      AfterNone(s, plain);
      assert inputs[..0] == [];
    } else if LosesPatch(s, inputs[0]) {
      LostAtOnce(s, plain, inputs);
    } else {
      StepThins(s, plain, inputs[0]);
      AlwaysThinsCons(s, plain, inputs);
      ASessionOnlyThins(Next(s, inputs[0]), plain + PlainOf(s.diffed, inputs[0]), inputs[1..]);
    }
  }

  lemma ThenTheEnd(s: Session, plain: seq<Event>, id: nat)
    requires Thins(s, plain)
    ensures var t := Next(s, Say(id)); t.Held() == [] && Thinned(plain + [Thing(id)], Main(t.out), None)
  {
    StepThins(s, plain, Say(id));
    var t := Next(s, Say(id));
    assert Main(t.out) + t.Held() == Main(t.out);
  }

  lemma ThinsFromTheStart(inputs: seq<Input>)
    requires NoPatchLost(FRESH, inputs)
    ensures Thins(After(FRESH, inputs), Plain({}, inputs))
  {
    ASessionOnlyThins(FRESH, [], inputs);
    assert ThinsAfter(FRESH, [], inputs[..|inputs|]) && inputs[..|inputs|] == inputs;
    assert [] + Plain({}, inputs) == Plain({}, inputs);
  }

  // Once the turn has ended nothing is held, and the transcript is the thinned whole.
  lemma ATurnEndDeliversEverything(inputs: seq<Input>, id: nat)
    requires NoPatchLost(FRESH, inputs)
    ensures var s := Next(After(FRESH, inputs), Say(id));
            var plain := Plain({}, inputs) + [Thing(id)];
            && s.Held() == [] && Thinned(plain, Main(s.out), None) && IsSubsequence(Main(s.out), plain)
            && (forall k :: 0 <= k < |plain| ==>
                  plain[k] in Main(s.out) || exists j :: 0 <= j < |Main(s.out)| && Extends(plain[k], Main(s.out)[j]))
  {
    ThinsFromTheStart(inputs);
    var s, plain := Next(After(FRESH, inputs), Say(id)), Plain({}, inputs) + [Thing(id)];
    ThenTheEnd(After(FRESH, inputs), Plain({}, inputs), id);
    ThinningIsSafe(plain, Main(s.out));
  }

  lemma ThinningIsSafe(plain: seq<Event>, kept: seq<Event>)
    requires Thinned(plain, kept, None)
    ensures IsSubsequence(kept, plain)
    ensures forall k :: 0 <= k < |plain| ==>
              plain[k] in kept || exists j :: 0 <= j < |kept| && Extends(plain[k], kept[j])
  {
    OrderIsKept(plain, kept, None);
    forall k | 0 <= k < |plain| ensures plain[k] in kept || exists j :: 0 <= j < |kept| && Extends(plain[k], kept[j]) {
      NothingButDraftsIsLost(plain, kept, None, k);
    }
  }

  // ---- nothing is held before its call has been seen ----

  predicate IsBase(e: Event, d: Draft) {
    && e.Told? && e.call == d.call && e.status == d.status && d.block.Some?
    && e.content.Some? && |e.content.value| == 1 && e.content.value[0] <= d.block.value
  }

  ghost predicate BaseIsOut(s: Session) {
    s.draft.Some? && s.draft.value.block.Some? ==> exists i :: 0 <= i < |s.out| && IsBase(s.out[i], s.draft.value)
  }

  lemma StepKeepsBase(s: Session, i: Input)
    requires BaseIsOut(s)
    ensures BaseIsOut(Next(s, i))
  {
    var t := Next(s, i);
    if i.Telling? && !(|i.update.blocks| == 1 && s.Holds(EventOf(i.update))) {
      assert t.out[|s.Flushed().out|] == EventOf(i.update);
    } else if t.draft.Some? && t.draft.value.block.Some? {
      var k :| 0 <= k < |s.out| && IsBase(s.out[k], s.draft.value);
      assert t.out[k] == s.out[k] && IsBase(t.out[k], t.draft.value);
    }
  }

  // So the first block of a call under a status is never the one held: whatever is held grows from
  // a block already sent, for the same call under the same status.
  lemma {:induction false} AFirstBlockGoesOut(s: Session, inputs: seq<Input>)
    requires BaseIsOut(s)
    ensures BaseIsOut(After(s, inputs))
    decreases |inputs|
  {
    if inputs != [] {
      StepKeepsBase(s, inputs[0]);
      AFirstBlockGoesOut(Next(s, inputs[0]), inputs[1..]);
    }
  }

  // ---- what is said, exactly ----

  // That the next thing the session itself is told is held too.
  predicate NextIsHeld(s: Session, inputs: seq<Input>)
    decreases |inputs|
  {
    inputs != [] && if inputs[0].Interject? then NextIsHeld(s, inputs[1..]) else s.IsHeld(inputs[0])
  }

  // What the first of the inputs adds: nothing if it is held and what comes next is held as well.
  function Part(s: Session, inputs: seq<Input>): seq<Event>
    requires inputs != []
  {
    var i := inputs[0];
    if i.Interject? then [Aside(i.id)]
    else if !s.IsHeld(i) then PlainOf(s.diffed, i)
    else if NextIsHeld(Next(s, i), inputs[1..]) then [] else [EventOf(i.update)]
  }

  // Everything, in the order in which it came.
  function Spoken(s: Session, inputs: seq<Input>): seq<Event>
    decreases |inputs|
  {
    if inputs == [] then [] else Part(s, inputs) + Spoken(Next(s, inputs[0]), inputs[1..])
  }

  // What is held now, unless it is about to be outgrown.
  function Surviving(s: Session, inputs: seq<Input>): seq<Event> {
    if NextIsHeld(s, inputs) then [] else s.Held()
  }

  ghost predicate HoldsOwn(s: Session) { NoAsides(s.Held()) }

  lemma {:induction false} OnlyTheDraftCounts(s: Session, t: Session, inputs: seq<Input>)
    requires s.draft == t.draft
    ensures NextIsHeld(s, inputs) == NextIsHeld(t, inputs) && Surviving(s, inputs) == Surviving(t, inputs)
    decreases |inputs|
  {
    if inputs != [] && inputs[0].Interject? { OnlyTheDraftCounts(s, t, inputs[1..]); }
  }

  lemma StepHoldsOwn(s: Session, i: Input)
    requires HoldsOwn(s)
    ensures HoldsOwn(Next(s, i))
  {
    if !i.Interject? && !s.IsHeld(i) { UnheldSays(s, i); }
  }

  lemma MainOfOne(e: Event)
    ensures Main([e]) == if e.Aside? then [] else [e]
  {
    assert [e][..0] == [];
  }

  // One input's part in what has been said, what is held and what is to be said.
  lemma SpeaksStep(s: Session, inputs: seq<Input>)
    requires inputs != [] && HoldsOwn(s) && !inputs[0].Interject?
    ensures var t, rest := Next(s, inputs[0]), inputs[1..];
            && t.out + Surviving(t, rest) == s.out + Surviving(s, inputs) + Part(s, inputs)
            && NoAsides(Surviving(s, inputs)) && NoAsides(Surviving(t, rest)) && NoAsides(Part(s, inputs))
  {
    var i, t, rest := inputs[0], Next(s, inputs[0]), inputs[1..];
    if s.IsHeld(i) {
      assert s.out + [] == s.out;
    } else {
      UnheldSays(s, i);
      PlainIsOwn(s.diffed, i);
      assert s.out + s.Held() + PlainOf(s.diffed, i) + [] == s.out + s.Held() + PlainOf(s.diffed, i);
    }
  }

  // The three together, over one input that is not an aside.
  lemma OwnStep(s: Session, inputs: seq<Input>)
    requires inputs != [] && HoldsOwn(s) && !inputs[0].Interject?
    ensures var t, rest := Next(s, inputs[0]), inputs[1..];
            && s.out + Surviving(s, inputs) + Spoken(s, inputs) == t.out + Surviving(t, rest) + Spoken(t, rest)
            && Main(s.out) + Surviving(s, inputs) + Main(Spoken(s, inputs))
               == Main(t.out) + Surviving(t, rest) + Main(Spoken(t, rest))
  {
    var t, rest := Next(s, inputs[0]), inputs[1..];
    SpeaksStep(s, inputs);
    SameWhole(s.out, Surviving(s, inputs), Part(s, inputs), t.out, Surviving(t, rest), Spoken(t, rest));
  }

  lemma SameWhole(out: seq<Event>, held: seq<Event>, part: seq<Event>, out': seq<Event>, held': seq<Event>,
                  later: seq<Event>)
    requires out' + held' == out + held + part && NoAsides(held) && NoAsides(held') && NoAsides(part)
    ensures out + held + (part + later) == out' + held' + later
    ensures Main(out) + held + Main(part + later) == Main(out') + held' + Main(later)
  {
    Regroup(out, held, part, later);
    Regroup(Main(out), held, Main(part), Main(later));
    MainSplits(part, later);
    SameMain(out, held, part, out', held');
  }

  lemma SameMain(out: seq<Event>, held: seq<Event>, part: seq<Event>, out': seq<Event>, held': seq<Event>)
    requires out' + held' == out + held + part && NoAsides(held) && NoAsides(held')
    ensures Main(out) + held + Main(part) == Main(out') + held'
  {
    MainOfThree(out, held, part);
    MainSplits(out', held');
    MainOfOwn(held);
    MainOfOwn(held');
  }

  lemma Regroup(a: seq<Event>, b: seq<Event>, c: seq<Event>, d: seq<Event>)
    ensures a + b + (c + d) == (a + b + c) + d
  {}

  // And over an aside, which leaves what is held where it is.
  lemma AsideStep(s: Session, inputs: seq<Input>)
    requires inputs != [] && inputs[0].Interject?
    ensures var t, rest := Next(s, inputs[0]), inputs[1..];
            && Surviving(t, rest) == Surviving(s, inputs) && Main(t.out) == Main(s.out)
            && Main(Spoken(s, inputs)) == Main(Spoken(t, rest)) && t.Held() == s.Held()
            && Spoken(s, inputs) == [Aside(inputs[0].id)] + Spoken(t, rest) && t.out == s.out + [Aside(inputs[0].id)]
  {
    var t, rest := Next(s, inputs[0]), inputs[1..];
    OnlyTheDraftCounts(s, t, rest);
    AsideIsNotMain(s.out, inputs[0].id, Spoken(t, rest));
  }

  lemma AsideIsNotMain(out: seq<Event>, id: nat, later: seq<Event>)
    ensures Main(out + [Aside(id)]) == Main(out) && Main([Aside(id)] + later) == Main(later)
  {
    MainOfOne(Aside(id));
    MainSplits(out, [Aside(id)]);
    MainSplits([Aside(id)], later);
  }

  // Over every run, an update that was held is missing exactly when what came next was held too,
  // and nothing else of a session's own is.
  lemma {:induction false} AnUpdateIsOutgrownExactly(s: Session, inputs: seq<Input>)
    requires HoldsOwn(s)
    ensures var e := After(s, inputs);
            Main(e.out) + e.Held() == Main(s.out) + Surviving(s, inputs) + Main(Spoken(s, inputs))
    decreases |inputs|
  {
    if inputs == [] {
      assert Main(s.out) + s.Held() + [] == Main(s.out) + s.Held();
    } else {
      if inputs[0].Interject? { AsideStep(s, inputs); } else { OwnStep(s, inputs); }
      StepHoldsOwn(s, inputs[0]);
      AnUpdateIsOutgrownExactly(Next(s, inputs[0]), inputs[1..]);
    }
  }

  // ---- what overtakes ----

  // An aside that comes while an update is held that will go out after it.
  predicate Overtakes(s: Session, inputs: seq<Input>)
    decreases |inputs|
  {
    inputs != []
    && ((inputs[0].Interject? && Surviving(s, inputs) != []) || Overtakes(Next(s, inputs[0]), inputs[1..]))
  }

  lemma {:induction false} WhatIsSaidStays(s: Session, inputs: seq<Input>)
    ensures s.out <= After(s, inputs).out
    decreases |inputs|
  {
    if inputs != [] { WhatIsSaidStays(Next(s, inputs[0]), inputs[1..]); }
  }

  lemma NothingToOvertake(out: seq<Event>, aside: seq<Event>, later: seq<Event>)
    ensures out + [] + (aside + later) == out + aside + [] + later
  {}

  lemma OvertakenNow(s: Session, inputs: seq<Input>)
    requires HoldsOwn(s) && inputs != [] && inputs[0].Interject? && Surviving(s, inputs) != []
    ensures var e := After(s, inputs);
            e.out + e.Held() != s.out + Surviving(s, inputs) + Spoken(s, inputs)
  {
    var n := |s.out|;
    WhatIsSaidStays(Next(s, inputs[0]), inputs[1..]);
    assert (After(s, inputs).out + After(s, inputs).Held())[n] == Next(s, inputs[0]).out[n] == Aside(inputs[0].id);
    assert (s.out + Surviving(s, inputs) + Spoken(s, inputs))[n] == s.Held()[0];
  }

  // Everything comes out in the order in which it came in, asides included, if and only if no aside
  // came while an update was held that was still to go out.
  lemma {:induction false} AnAsideOvertakesExactly(s: Session, inputs: seq<Input>)
    requires HoldsOwn(s)
    ensures var e := After(s, inputs);
            e.out + e.Held() == s.out + Surviving(s, inputs) + Spoken(s, inputs) <==> !Overtakes(s, inputs)
    decreases |inputs|
  {
    if inputs == [] {
      assert s.out + s.Held() + [] == s.out + s.Held();
    } else if inputs[0].Interject? && Surviving(s, inputs) != [] {
      OvertakenNow(s, inputs);
    } else {
      if inputs[0].Interject? {
        AsideStep(s, inputs);
        NothingToOvertake(s.out, [Aside(inputs[0].id)], Spoken(Next(s, inputs[0]), inputs[1..]));
      } else {
        OwnStep(s, inputs);
      }
      StepHoldsOwn(s, inputs[0]);
      AnAsideOvertakesExactly(Next(s, inputs[0]), inputs[1..]);
    }
  }

  // ---- where it does lose something ----

  ghost predicate HasMark(events: seq<Event>, marked: Event -> bool) {
    exists k :: 0 <= k < |events| && marked(events[k])
  }

  // Only what an update says can be marked.
  ghost predicate MarksUpdates(marked: Event -> bool) { forall e: Event :: marked(e) ==> e.Told? }

  ghost predicate Unmarked(inputs: seq<Input>, marked: Event -> bool) {
    forall k :: 0 <= k < |inputs| && inputs[k].Telling? ==> !marked(EventOf(inputs[k].update))
  }

  lemma MarksJoin(a: seq<Event>, b: seq<Event>, marked: Event -> bool)
    ensures HasMark(a + b, marked) <==> HasMark(a, marked) || HasMark(b, marked)
  {
    if HasMark(a, marked) {
      var k :| 0 <= k < |a| && marked(a[k]);
      assert (a + b)[k] == a[k];
    }
    if HasMark(b, marked) {
      var k :| 0 <= k < |b| && marked(b[k]);
      assert (a + b)[|a| + k] == b[k];
    }
  }

  lemma {:induction false} ChangesAreUnmarked(call: string, changes: seq<nat>, marked: Event -> bool)
    requires MarksUpdates(marked)
    ensures !HasMark(Changes(call, changes), marked)
  {
    if changes != [] {
      ChangesAreUnmarked(call, changes[1..], marked);
      MarksJoin([Changed(call, changes[0])], Changes(call, changes[1..]), marked);
    }
  }

  lemma PlainIsMarked(diffed: set<string>, i: Input, marked: Event -> bool)
    requires MarksUpdates(marked)
    ensures HasMark(PlainOf(diffed, i), marked) <==> i.Telling? && marked(EventOf(i.update))
  {
    match i
    case Telling(u) =>
      ChangesAreUnmarked(u.call, Patches(u.blocks), marked);
      MarksJoin([EventOf(u)], Reported(diffed, u.call, u.blocks), marked);
      if marked(EventOf(u)) { assert PlainOf(diffed, i)[0] == EventOf(u); }
    case Announce(call, id, blocks) =>
      ChangesAreUnmarked(call, Patches(blocks), marked);
      MarksJoin([Thing(id)], Reported(diffed, call, blocks), marked);
    case Say(_) =>
    case Interject(_) =>
  }

  lemma PartIsMarked(s: Session, inputs: seq<Input>, marked: Event -> bool)
    requires MarksUpdates(marked) && inputs != []
    ensures var i := inputs[0];
            HasMark(Part(s, inputs), marked)
            <==> i.Telling? && marked(EventOf(i.update)) && !(s.IsHeld(i) && NextIsHeld(Next(s, i), inputs[1..]))
  {
    var i := inputs[0];
    PlainIsMarked(s.diffed, i, marked);
    if i.Telling? && marked(EventOf(i.update)) { assert [EventOf(i.update)][0] == EventOf(i.update); }
  }

  lemma SpokenIsMarked(s: Session, inputs: seq<Input>, marked: Event -> bool)
    requires inputs != []
    ensures HasMark(Spoken(s, inputs), marked)
            <==> HasMark(Part(s, inputs), marked) || HasMark(Spoken(Next(s, inputs[0]), inputs[1..]), marked)
  {
    MarksJoin(Part(s, inputs), Spoken(Next(s, inputs[0]), inputs[1..]), marked);
  }

  lemma {:induction false} UnmarkedStays(s: Session, inputs: seq<Input>, marked: Event -> bool)
    requires MarksUpdates(marked) && Unmarked(inputs, marked)
    ensures !HasMark(Spoken(s, inputs), marked)
    decreases |inputs|
  {
    if inputs != [] {
      PartIsMarked(s, inputs, marked);
      UnmarkedStays(Next(s, inputs[0]), inputs[1..], marked);
      SpokenIsMarked(s, inputs, marked);
    }
  }

  // Where the one marked update stands in what is spoken.
  lemma {:induction false} TheMarkIsSpoken(s: Session, before: seq<Input>, u: Update, later: seq<Input>,
                                           marked: Event -> bool)
    requires MarksUpdates(marked) && Unmarked(before, marked) && Unmarked(later, marked) && marked(EventOf(u))
    ensures var t := After(s, before);
            HasMark(Spoken(s, before + [Telling(u)] + later), marked)
            <==> !(t.IsHeld(Telling(u)) && NextIsHeld(Next(t, Telling(u)), later))
    decreases |before|
  {
    var inputs := before + [Telling(u)] + later;
    PartIsMarked(s, inputs, marked);
    SpokenIsMarked(s, inputs, marked);
    if before == [] {
      assert inputs[1..] == later;
      UnmarkedStays(Next(s, Telling(u)), later, marked);
    } else {
      assert inputs[1..] == before[1..] + [Telling(u)] + later;
      TheMarkIsSpoken(Next(s, before[0]), before[1..], u, later, marked);
    }
  }

  lemma {:induction false} MainKeepsMarks(events: seq<Event>, marked: Event -> bool)
    requires MarksUpdates(marked)
    ensures HasMark(Main(events), marked) <==> HasMark(events, marked)
    decreases |events|
  {
    if events != [] {
      var init, last := events[..|events| - 1], events[|events| - 1];
      MainKeepsMarks(init, marked);
      MarksJoin(Main(init), if last.Aside? then [] else [last], marked);
      MarksJoin(init, [last], marked);
      assert init + [last] == events && [last][0] == last;
    }
  }

  // Over every run: what one update alone says about its call, that it goes on in the background or
  // runs inside another, is missing from what has been said and is held if and only if that update
  // was held and what came next was held too.
  lemma AMarkIsLostExactly(before: seq<Input>, u: Update, later: seq<Input>, marked: Event -> bool)
    requires MarksUpdates(marked) && Unmarked(before, marked) && Unmarked(later, marked) && marked(EventOf(u))
    ensures var (t, e) := (After(FRESH, before), After(FRESH, before + [Telling(u)] + later));
            !HasMark(e.out + e.Held(), marked)
            <==> t.IsHeld(Telling(u)) && NextIsHeld(Next(t, Telling(u)), later)
  {
    var inputs := before + [Telling(u)] + later;
    var e := After(FRESH, inputs);
    AnUpdateIsOutgrownExactly(FRESH, inputs);
    TheMarkIsSpoken(FRESH, before, u, later, marked);
    assert Main([]) + [] + Main(Spoken(FRESH, inputs)) == Main(Spoken(FRESH, inputs));
    MainKeepsMarks(Spoken(FRESH, inputs), marked);
    MainKeepsMarks(e.out, marked);
    MarksJoin(Main(e.out), e.Held(), marked);
    MarksJoin(e.out, e.Held(), marked);
  }

  // The patches of an update go unreported exactly when it is a lone patch whose output elsewhere
  // reads as a draft.
  lemma APatchIsLostExactly(s: Session, u: Update)
    requires Patches(u.blocks) != [] && u.call !in s.diffed
    ensures u.call !in Next(s, Telling(u)).diffed <==> LosesPatch(s, Telling(u))
  {
    if s.IsHeld(Telling(u)) { HeldReports(s, u); }
  }

  function Draw(text: string, parent: Option<string>, background: bool): Update {
    Update("w", None, Some(InProgress), [], None, [Text(text)], None, parent, background)
  }

  function Drawn(text: string, parent: Option<string>, background: bool): Event {
    Told("w", None, Some(InProgress), [], None, Some([text]), [], parent, background)
  }

  lemma DrawSays(text: string, parent: Option<string>, background: bool)
    requires text != ""
    ensures EventOf(Draw(text, parent, background)) == Drawn(text, parent, background)
    ensures Patches(Draw(text, parent, background).blocks) == []
  {
    OneBlock(Text(text));
  }

  // Such a run: one block, then the same call's patch beside output that starts with that block.
  // The patch is never reported, though the turn ends.
  lemma ALostPatch()
    ensures var u := Draw("a", None, false).(blocks := [Patch(7)], output := Some("ab"));
            var s := Next(Next(Next(FRESH, Telling(Draw("a", None, false))), Telling(u)), Say(0));
            s.Held() == [] && "w" !in s.diffed
  {
    var u := Draw("a", None, false).(blocks := [Patch(7)], output := Some("ab"));
    DrawSays("a", None, false);
    OneBlock(Patch(7));
    assert EventOf(u) == Drawn("ab", None, false);
    var s1 := Next(FRESH, Telling(Draw("a", None, false)));
    assert s1.draft == Some(Draft("w", Some("a"), Some(InProgress), None));
    assert s1.Holds(EventOf(u));
  }

  // Three updates of one call, each a block longer, and the end of the turn: the one in the middle
  // goes missing with whatever else it said.
  lemma TheMiddleGoes(parent: Option<string>, background: bool)
    ensures var s2 := Next(Next(FRESH, Telling(Draw("a", None, false))), Telling(Draw("ab", parent, background)));
            var s := Next(Next(s2, Telling(Draw("abc", None, false))), Say(0));
            s.Held() == [] && s.out == [Drawn("a", None, false), Drawn("abc", None, false), Thing(0)]
  {
    DrawSays("a", None, false);
    var s1 := Next(FRESH, Telling(Draw("a", None, false)));
    assert s1.draft == Some(Draft("w", Some("a"), Some(InProgress), None)) && s1.out == [Drawn("a", None, false)];
    DrawIsHeld(s1, "a", "ab", parent, background);
    var s2 := Next(s1, Telling(Draw("ab", parent, background)));
    DrawIsHeld(s2, "ab", "abc", None, false);
    var s3 := Next(s2, Telling(Draw("abc", None, false)));
    assert Next(s3, Say(0)).out == [Drawn("a", None, false), Drawn("abc", None, false), Thing(0)];
  }

  // Whether a call's work goes on in the background is not looked at, so the one update that says so
  // can be outgrown; nor is the call it runs inside.
  lemma ALostMarker()
    ensures var s := Next(Next(Next(Next(FRESH, Telling(Draw("a", None, false))), Telling(Draw("ab", None, true))),
                               Telling(Draw("abc", None, false))), Say(0));
            s.Held() == [] && forall i :: 0 <= i < |s.out| && s.out[i].Told? ==> !s.out[i].backgrounded
  {
    TheMiddleGoes(None, true);
  }

  lemma ALostParent()
    ensures var s2 := Next(Next(FRESH, Telling(Draw("a", None, false))), Telling(Draw("ab", Some("p"), false)));
            var s := Next(Next(s2, Telling(Draw("abc", None, false))), Say(0));
            s.Held() == [] && forall i :: 0 <= i < |s.out| && s.out[i].Told? ==> s.out[i].parent == None
  {
    TheMiddleGoes(Some("p"), false);
  }

  lemma DrawIsHeld(s: Session, base: string, text: string, parent: Option<string>, background: bool)
    requires s.draft.Some? && s.draft.value.call == "w" && s.draft.value.block == Some(base)
    requires s.draft.value.status == Some(InProgress) && base < text
    ensures Next(s, Telling(Draw(text, parent, background)))
            == s.(draft := Some(Draft("w", Some(text), Some(InProgress), Some(Drawn(text, parent, background)))))
  {
    DrawSays(text, parent, background);
  }

  // An aside while an update is held: it comes out before what came before it.
  lemma AnOvertakenUpdate()
    ensures var s2 := Next(Next(FRESH, Telling(Draw("a", None, false))), Telling(Draw("ab", None, false)));
            Next(Next(s2, Interject(9)), Say(0)).out
            == [Drawn("a", None, false), Aside(9), Drawn("ab", None, false), Thing(0)]
  {
    DrawSays("a", None, false);
    var s1 := Next(FRESH, Telling(Draw("a", None, false)));
    assert s1.draft == Some(Draft("w", Some("a"), Some(InProgress), None)) && s1.out == [Drawn("a", None, false)];
    DrawIsHeld(s1, "a", "ab", None, false);
    var s2 := Next(s1, Telling(Draw("ab", None, false)));
    assert s2.Held() == [Drawn("ab", None, false)];
  }
}
