// An agent's controls: how answers and notices rewrite the list a session holds, how overlapping
// changes are kept apart, and how choices are put back into a new conversation.

module Configs {
  import opened Common

  const MAX_CONFIG_ID_CHARS: nat := 256
  const MODE: string := "mode"

  datatype Value = Word(text: string) | Flag(on: bool)

  datatype Control = Control(id: string, category: Option<string>, select: bool, value: Value, choices: seq<string>) {
    predicate IsModeSelect() { category == Some(MODE) && select }
  }

  datatype Modes = Modes(current: string, available: seq<string>)
  datatype Config = Config(modes: Option<Modes>, options: seq<Control>)

  // What a reply or a notice carries.
  datatype News = Options(options: seq<Control>) | CurrentMode(mode: string)

  function WithMode(c: Control, mode: string): Control {
    if c.IsModeSelect() && mode in c.choices then c.(value := Word(mode)) else c
  }

  function Synced(options: seq<Control>, mode: string): seq<Control> {
    seq(|options|, i requires 0 <= i < |options| => WithMode(options[i], mode))
  }

  // Index of the first mode control, or the length when there is none.
  function ModeSelect(options: seq<Control>): (i: nat)
    ensures i <= |options|
  {
    if options == [] || options[0].IsModeSelect() then 0 else 1 + ModeSelect(options[1..])
  }

  function Updated(c: Config, news: News): Config {
    match news
    case CurrentMode(mode) =>
      if |mode| > MAX_CONFIG_ID_CHARS then c
      else Config(if c.modes.Some? then Some(c.modes.value.(current := mode)) else None, Synced(c.options, mode))
    case Options(options) =>
      var i := ModeSelect(options);
      if c.modes.Some? && i < |options| && options[i].value.Word? && options[i].value.text in c.modes.value.available
      then Config(Some(c.modes.value.(current := options[i].value.text)), options)
      else Config(c.modes, options)
  }

  class HeldConfig {
    var config: Config

    constructor (config: Config)
      ensures this.config == config
    {
      this.config := config;
    }

    method UpdateConfig(news: News)
      modifies this
      ensures config == Updated(old(config), news)
    {
      var modes := config.modes;
      var options := config.options;
      match news {
        case CurrentMode(mode) =>
          if |mode| > MAX_CONFIG_ID_CHARS { return; }
          if modes.Some? { modes := Some(modes.value.(current := mode)); }
          var i := 0;
          while i < |options|
            invariant 0 <= i <= |options| == |config.options|
            invariant forall k :: 0 <= k < i ==> options[k] == WithMode(config.options[k], mode)
            invariant forall k :: i <= k < |options| ==> options[k] == config.options[k]
          {
            options := options[i := WithMode(options[i], mode)];
            i := i + 1;
          }
          assert options == Synced(config.options, mode);
        case Options(next) =>
          options := next;
          var i := ModeSelect(options);
          if modes.Some? && i < |options| {
            var current := options[i].value;
            if current.Word? && current.text != modes.value.current && current.text in modes.value.available {
              modes := Some(modes.value.(current := current.text));
            }
          }
      }
      config := Config(modes, options);
    }
  }

  // ---- one fact, told in two places ----

  lemma {:induction false} ModeSelectIsFirst(options: seq<Control>)
    ensures ModeSelect(options) < |options| ==> options[ModeSelect(options)].IsModeSelect()
    ensures forall k :: 0 <= k < ModeSelect(options) ==> !options[k].IsModeSelect()
  {
    if options != [] && !options[0].IsModeSelect() { ModeSelectIsFirst(options[1..]); }
  }

  lemma {:induction false} SyncedModeSelect(options: seq<Control>, mode: string)
    ensures ModeSelect(Synced(options, mode)) == ModeSelect(options)
  {
    if options != [] && !options[0].IsModeSelect() {
      assert Synced(options, mode)[1..] == Synced(options[1..], mode);
      SyncedModeSelect(options[1..], mode);
    }
  }

  // The mode and the first mode control say the same, where the control names a mode there is.
  ghost predicate Agrees(c: Config) {
    var i := ModeSelect(c.options);
    c.modes.Some? && i < |c.options| && c.options[i].value.Word?
      && c.options[i].value.text in c.modes.value.available
    ==> c.modes.value.current == c.options[i].value.text
  }

  // A mode whose id is longer than the bound is no mode there is, and changes nothing.
  lemma ALongModeIsIgnoredExactly(c: Config, mode: string)
    requires c.modes.Some? && c.modes.value.current != mode
    ensures Updated(c, CurrentMode(mode)) == c <==> |mode| > 256
  {}

  // A new list always brings the two into agreement.
  lemma AFreshListAgrees(c: Config, options: seq<Control>)
    ensures Agrees(Updated(c, Options(options)))
  {}

  // A notice of a mode leaves them in disagreement exactly when the control lacks that choice and
  // goes on naming another mode there is.
  lemma ANoticeAgreesExactly(c: Config, mode: string)
    requires c.modes.Some? && |mode| <= MAX_CONFIG_ID_CHARS
    ensures Agrees(Updated(c, CurrentMode(mode)))
            <==> (var i := ModeSelect(c.options);
                  i < |c.options| && mode !in c.options[i].choices && c.options[i].value.Word?
                    && c.options[i].value.text in c.modes.value.available
                  ==> c.options[i].value.text == mode)
  {
    ModeSelectIsFirst(c.options);
    SyncedModeSelect(c.options, mode);
  }
}

module ConfigChains {
  import opened Common
  import opened Configs

  // A person's change; which request it becomes is decided when its turn comes.
  datatype Change = Set(id: string, value: Value) | Mode(mode: string)
  datatype Request = SetOption(id: string, value: Value) | SetMode(mode: string)

  // The agent's answer: its whole list, nothing at all for a bare mode, or a refusal.
  datatype Reply = List(options: seq<Control>) | Done | Refused

  function FirstMode(options: seq<Control>): (i: nat)
    ensures i <= |options|
  {
    if options == [] || options[0].category == Some(MODE) then 0 else 1 + FirstMode(options[1..])
  }

  function AsRequest(config: Config, change: Change): Request {
    match change
    case Set(id, value) => SetOption(id, value)
    case Mode(mode) =>
      var i := FirstMode(config.options);
      if i < |config.options| && config.options[i].select then SetOption(config.options[i].id, Word(mode))
      else SetMode(mode)
  }

  function Heard(config: Config, request: Request, reply: Reply): Config {
    match reply
    case List(options) => Updated(config, Options(options))
    case Done => if request.SetMode? then Updated(config, CurrentMode(request.mode)) else config
    case Refused => config
  }

  // An agent answers with the list it then has, keeps its list when it refuses, and keeps its mode
  // controls in step with a bare mode.
  ghost predicate Honest<A(!new)>(act: (A, Request) -> (A, Reply), shown: A -> seq<Control>) {
    forall a: A, r: Request ::
      var (b, reply) := act(a, r);
      match reply
      case List(options) => options == shown(b)
      case Done =>
        && r.SetMode?
        && shown(b) == (if |r.mode| > MAX_CONFIG_ID_CHARS then shown(a) else Synced(shown(a), r.mode))
      case Refused => shown(b) == shown(a)
  }

  // The link whose turn it is: its request is on its way, or has been answered and the answer is.
  datatype Flight =
    | OnItsWay(change: Change, request: Request)
    | Answered(change: Change, request: Request, reply: Reply)

  // `reached` are the changes whose requests the agent has received, `abandoned` the requests whose
  // deadline passed before they got there.
  datatype Chain<A> = Chain(agent: A, config: Config, waiting: seq<Change>, flight: Option<Flight>,
                            called: seq<Change>, reached: seq<Change>, abandoned: seq<Request>)

  datatype Step = Call(change: Change) | Start | Arrive | Settle | Expire | ArriveLate

  function Next<A>(act: (A, Request) -> (A, Reply), s: Chain<A>, step: Step): Chain<A> {
    match step
    case Call(change) => s.(waiting := s.waiting + [change], called := s.called + [change])
    case Start =>
      if s.flight.Some? || s.waiting == [] then s
      else s.(waiting := s.waiting[1..], flight := Some(OnItsWay(s.waiting[0], AsRequest(s.config, s.waiting[0]))))
    case Arrive =>
      if s.flight == None || !s.flight.value.OnItsWay? then s
      else
        var f := s.flight.value;
        var (agent, reply) := act(s.agent, f.request);
        s.(agent := agent, flight := Some(Answered(f.change, f.request, reply)), reached := s.reached + [f.change])
    case Settle =>
      if s.flight == None || !s.flight.value.Answered? then s
      else s.(config := Heard(s.config, s.flight.value.request, s.flight.value.reply), flight := None)
    case Expire =>
      if s.flight == None then s
      else if s.flight.value.OnItsWay? then s.(flight := None, abandoned := s.abandoned + [s.flight.value.request])
      else s.(flight := None)
    case ArriveLate =>
      if s.abandoned == [] then s
      else s.(agent := act(s.agent, s.abandoned[0]).0, abandoned := s.abandoned[1..])
  }

  function After<A>(act: (A, Request) -> (A, Reply), s: Chain<A>, steps: seq<Step>): Chain<A>
    decreases |steps|
  {
    if steps == [] then s else After(act, Next(act, s, steps[0]), steps[1..])
  }

  function Traveling<A>(s: Chain<A>): seq<Change> {
    if s.flight.Some? && s.flight.value.OnItsWay? then [s.flight.value.change] else []
  }

  // What will be held once the answer in flight has been heard is what the agent shows.
  ghost predicate HeldTrue<A(!new)>(shown: A -> seq<Control>, s: Chain<A>) {
    if s.flight.Some? && s.flight.value.Answered?
    then Heard(s.config, s.flight.value.request, s.flight.value.reply).options == shown(s.agent)
    else s.config.options == shown(s.agent)
  }

  ghost predicate InStep<A(!new)>(shown: A -> seq<Control>, s: Chain<A>) {
    s.abandoned == [] && s.called == s.reached + Traveling(s) + s.waiting && HeldTrue(shown, s)
  }

  lemma StepKeepsStep<A(!new)>(act: (A, Request) -> (A, Reply), shown: A -> seq<Control>, s: Chain<A>, step: Step)
    requires Honest(act, shown) && InStep(shown, s) && step != Expire
    ensures InStep(shown, Next(act, s, step))
  {
    match step
    case Call(change) => assert s.reached + Traveling(s) + (s.waiting + [change]) == s.called + [change];
    case Start =>
      if s.flight == None && s.waiting != [] {
        assert s.reached + [] + s.waiting == s.reached + [s.waiting[0]] + s.waiting[1..];
      }
    case Arrive =>
      if s.flight.Some? && s.flight.value.OnItsWay? {
        var f := s.flight.value;
        var (agent, reply) := act(s.agent, f.request);
        assert s.reached + [f.change] + [] + s.waiting == s.reached + [f.change] + s.waiting;
      }
    case Settle =>
    case ArriveLate =>
  }

  // Taken one at a time, changes reach the agent once each and in the order they were made, and
  // whenever none is in flight the whole list held is the whole list the agent shows: after an
  // answer, and after a refusal.
  lemma {:induction false} OneAtATimeStaysInStep<A(!new)>(act: (A, Request) -> (A, Reply), shown: A -> seq<Control>,
                                                         s: Chain<A>, steps: seq<Step>)
    requires Honest(act, shown) && InStep(shown, s) && Expire !in steps
    ensures var e := After(act, s, steps);
            && InStep(shown, e)
            && (e.flight == None ==> e.config.options == shown(e.agent) && e.called == e.reached + e.waiting)
    decreases |steps|
  {
    if steps != [] {
      StepKeepsStep(act, shown, s, steps[0]);
      OneAtATimeStaysInStep(act, shown, Next(act, s, steps[0]), steps[1..]);
    } else if s.flight == None {
      assert s.reached + [] == s.reached;
    }
  }

  // ---- a refusal does not end the chain ----

  // One link, taken through to its answer, whatever that is.
  function OneLink<A>(act: (A, Request) -> (A, Reply), s: Chain<A>): Chain<A> {
    Next(act, Next(act, Next(act, s, Start), Arrive), Settle)
  }

  function AllLinks<A>(act: (A, Request) -> (A, Reply), s: Chain<A>, n: nat): Chain<A>
    decreases n
  {
    if n == 0 then s else AllLinks(act, OneLink(act, s), n - 1)
  }

  // Each link hangs on the promise before it: `both` says that it runs after a rejection too, and
  // `swallow` that the promise it leaves behind is resolved whatever became of it.
  datatype Guards = Guards(both: bool, swallow: bool)

  predicate IsRefused<A>(act: (A, Request) -> (A, Reply), s: Chain<A>)
    requires s.waiting != []
  {
    act(s.agent, AsRequest(s.config, s.waiting[0])).1.Refused?
  }

  // All that wait, from a promise that was `rejected` or not.
  function Queued<A>(act: (A, Request) -> (A, Reply), g: Guards, s: Chain<A>, rejected: bool): Chain<A>
    decreases |s.waiting|
  {
    if s.waiting == [] || s.flight.Some? then s
    else
      var runs := g.both || !rejected;
      var next := if runs then OneLink(act, s) else s.(waiting := s.waiting[1..]);
      Queued(act, g, next, !g.swallow && (!runs || IsRefused(act, s)))
  }

  // How many changes there are up to the first that is refused, it included.
  function Served<A>(act: (A, Request) -> (A, Reply), s: Chain<A>): (n: nat)
    ensures n <= |s.waiting|
    decreases |s.waiting|
  {
    if s.waiting == [] || s.flight.Some? then 0 else if IsRefused(act, s) then 1 else 1 + Served(act, OneLink(act, s))
  }

  lemma OneLinkReaches<A>(act: (A, Request) -> (A, Reply), s: Chain<A>)
    requires s.flight == None && s.waiting != []
    ensures var t := OneLink(act, s);
            t.flight == None && t.waiting == s.waiting[1..] && t.reached == s.reached + [s.waiting[0]]
  {}

  lemma TakenInOrder(reached: seq<Change>, waiting: seq<Change>, n: nat)
    requires n < |waiting|
    ensures reached + [waiting[0]] + waiting[1..][..n] == reached + waiting[..n + 1]
  {
    assert waiting[..n + 1] == [waiting[0]] + waiting[1..][..n];
  }

  // With either guard every change gets its turn, as if none had been refused.
  lemma {:induction false} GuardedRunsAll<A>(act: (A, Request) -> (A, Reply), g: Guards, s: Chain<A>, rejected: bool)
    requires s.flight == None && (g.both || (g.swallow && !rejected))
    ensures Queued(act, g, s, rejected) == AllLinks(act, s, |s.waiting|)
    ensures AllLinks(act, s, |s.waiting|).reached == s.reached + s.waiting
    decreases |s.waiting|
  {
    if s.waiting == [] {
      assert s.reached + s.waiting == s.reached;
    } else {
      OneLinkReaches(act, s);
      assert Queued(act, g, s, rejected) == Queued(act, g, OneLink(act, s), !g.swallow && IsRefused(act, s));
      GuardedRunsAll(act, g, OneLink(act, s), !g.swallow && IsRefused(act, s));
      TakenInOrder(s.reached, s.waiting, |s.waiting| - 1);
      assert s.waiting[1..][..|s.waiting| - 1] == s.waiting[1..] && s.waiting[..|s.waiting|] == s.waiting;
    }
  }

  lemma {:induction false} ARejectionIsPassedOn<A>(act: (A, Request) -> (A, Reply), s: Chain<A>)
    requires s.flight == None
    ensures Queued(act, Guards(false, false), s, true).reached == s.reached
    decreases |s.waiting|
  {
    if s.waiting != [] { ARejectionIsPassedOn(act, s.(waiting := s.waiting[1..])); }
  }

  lemma {:induction false} BareStopsAtARefusal<A>(act: (A, Request) -> (A, Reply), s: Chain<A>)
    requires s.flight == None
    ensures Queued(act, Guards(false, false), s, false).reached == s.reached + s.waiting[..Served(act, s)]
    decreases |s.waiting|
  {
    if s.waiting == [] {
      assert s.waiting[..0] == [] && s.reached + [] == s.reached;
    } else {
      OneLinkReaches(act, s);
      var next := OneLink(act, s);
      if IsRefused(act, s) {
        ARejectionIsPassedOn(act, next);
        assert s.waiting[..1] == [s.waiting[0]];
      } else {
        BareStopsAtARefusal(act, next);
        TakenInOrder(s.reached, s.waiting, Served(act, next));
      }
    }
  }

  // Every change that waits reaches the agent exactly when one of the guards is there or nothing
  // but the last of them is refused; without a guard the first refusal ends it.
  lemma NothingStopsTheChain<A>(act: (A, Request) -> (A, Reply), g: Guards, s: Chain<A>)
    requires s.flight == None
    ensures var e := Queued(act, g, s, false);
            && (e.reached == s.reached + s.waiting <==> g.both || g.swallow || Served(act, s) == |s.waiting|)
            && (g.both || g.swallow ==> e == AllLinks(act, s, |s.waiting|))
            && (!g.both && !g.swallow ==> e.reached == s.reached + s.waiting[..Served(act, s)])
  {
    if g.both || g.swallow {
      GuardedRunsAll(act, g, s, false);
    } else {
      BareStopsAtARefusal(act, s);
      var n := Served(act, s);
      assert |s.reached + s.waiting[..n]| == |s.reached| + n;
      if n == |s.waiting| { assert s.waiting[..n] == s.waiting; }
    }
  }

  // ---- what a deadline costs ----

  // A deadline costs nothing if the answer it cuts off says what is held already, and a request that
  // was given up costs nothing if the agent shows the same after it.
  ghost predicate Harmless<A(!new)>(act: (A, Request) -> (A, Reply), shown: A -> seq<Control>, s: Chain<A>,
                                    step: Step) {
    match step
    case Expire =>
      s.flight.Some? && s.flight.value.Answered? ==>
        Heard(s.config, s.flight.value.request, s.flight.value.reply).options == s.config.options
    case ArriveLate => s.abandoned != [] ==> shown(act(s.agent, s.abandoned[0]).0) == shown(s.agent)
    case _ => true
  }

  lemma AStepStaysTrueExactly<A(!new)>(act: (A, Request) -> (A, Reply), shown: A -> seq<Control>, s: Chain<A>,
                                       step: Step)
    requires Honest(act, shown) && HeldTrue(shown, s)
    ensures HeldTrue(shown, Next(act, s, step)) <==> Harmless(act, shown, s, step)
  {
    if step == Arrive && s.flight.Some? && s.flight.value.OnItsWay? { AnswerIsWhatIsShown(act, shown, s); }
  }

  // What an answer makes of a list that was held, true or not.
  lemma AnswerIsWhatIsShown<A(!new)>(act: (A, Request) -> (A, Reply), shown: A -> seq<Control>, s: Chain<A>)
    requires Honest(act, shown) && s.flight.Some? && s.flight.value.OnItsWay?
    ensures HeldTrue(shown, Next(act, s, Arrive))
            <==> match act(s.agent, s.flight.value.request).1
                 case List(_) => true
                 case Done =>
                   var mode := s.flight.value.request.mode;
                   if |mode| > MAX_CONFIG_ID_CHARS then s.config.options == shown(s.agent)
                   else Synced(s.config.options, mode) == Synced(shown(s.agent), mode)
                 case Refused => s.config.options == shown(s.agent)
  {
    var f := s.flight.value;
    var (agent, reply) := act(s.agent, f.request);
    assert Next(act, s, Arrive).agent == agent;
  }

  ghost predicate AllHarmless<A(!new)>(act: (A, Request) -> (A, Reply), shown: A -> seq<Control>, s: Chain<A>,
                                       steps: seq<Step>)
    decreases |steps|
  {
    steps == [] || (Harmless(act, shown, s, steps[0]) && AllHarmless(act, shown, Next(act, s, steps[0]), steps[1..]))
  }

  ghost predicate AlwaysTrue<A(!new)>(act: (A, Request) -> (A, Reply), shown: A -> seq<Control>, s: Chain<A>,
                                      steps: seq<Step>) {
    forall n :: 0 <= n <= |steps| ==> HeldTrue(shown, After(act, s, steps[..n]))
  }

  lemma AlwaysTrueStep<A(!new)>(act: (A, Request) -> (A, Reply), shown: A -> seq<Control>, s: Chain<A>,
                                steps: seq<Step>)
    requires steps != []
    ensures AlwaysTrue(act, shown, s, steps)
            <==> HeldTrue(shown, s) && AlwaysTrue(act, shown, Next(act, s, steps[0]), steps[1..])
  {
    var next, rest := Next(act, s, steps[0]), steps[1..];
    forall n | 0 < n <= |steps| ensures After(act, s, steps[..n]) == After(act, next, rest[..n - 1]) {
      assert steps[..n][1..] == rest[..n - 1];
    }
    assert After(act, s, steps[..0]) == s;
    if AlwaysTrue(act, shown, s, steps) {
      assert HeldTrue(shown, After(act, s, steps[..0]));
      forall n | 0 <= n <= |rest| ensures HeldTrue(shown, After(act, next, rest[..n])) {
        assert HeldTrue(shown, After(act, s, steps[..n + 1]));
      }
    }
  }

  // On every schedule, deadlines and late arrivals included, what is held is true of the agent all
  // along if and only if each of these was harmless.
  lemma {:induction false} HeldTrueExactly<A(!new)>(act: (A, Request) -> (A, Reply), shown: A -> seq<Control>,
                                                   s: Chain<A>, steps: seq<Step>)
    requires Honest(act, shown) && HeldTrue(shown, s)
    ensures AlwaysTrue(act, shown, s, steps) <==> AllHarmless(act, shown, s, steps)
    decreases |steps|
  {
    if steps == [] {
      assert AlwaysTrue(act, shown, s, steps);
    } else {
      var next, rest := Next(act, s, steps[0]), steps[1..];
      AlwaysTrueStep(act, shown, s, steps);
      AStepStaysTrueExactly(act, shown, s, steps[0]);
      if HeldTrue(shown, next) {
        HeldTrueExactly(act, shown, next, rest);
      } else {
        assert After(act, next, rest[..0]) == next;
        assert !AlwaysTrue(act, shown, next, rest);
      }
    }
  }

  // However wrong what is held has become, the next list that arrives puts it right, and it stays
  // right while nothing given up does harm.
  lemma TheNextListPutsItRight<A(!new)>(act: (A, Request) -> (A, Reply), shown: A -> seq<Control>, s: Chain<A>,
                                        steps: seq<Step>)
    requires Honest(act, shown) && s.flight.Some? && s.flight.value.OnItsWay?
    requires act(s.agent, s.flight.value.request).1.List?
    ensures HeldTrue(shown, Next(act, s, Arrive))
    ensures AlwaysTrue(act, shown, Next(act, s, Arrive), steps)
            <==> AllHarmless(act, shown, Next(act, s, Arrive), steps)
  {
    AnswerIsWhatIsShown(act, shown, s);
    HeldTrueExactly(act, shown, Next(act, s, Arrive), steps);
  }

  // ---- a pair of controls ----

  datatype Pair = Pair(a: string, b: string)

  function Shown(p: Pair): seq<Control> {
    [Control("a", None, true, Word(p.a), ["a0", "X", "Y"]), Control("b", None, true, Word(p.b), ["b0", "X", "Y"])]
  }

  // An agent that applies a change as it arrives and answers with both controls.
  function Act(p: Pair, r: Request): (Pair, Reply) {
    if r.SetOption? && r.id == "a" && r.value.Word? then (Pair(r.value.text, p.b), List(Shown(Pair(r.value.text, p.b))))
    else if r.SetOption? && r.id == "b" && r.value.Word? then
      (Pair(p.a, r.value.text), List(Shown(Pair(p.a, r.value.text))))
    else (p, Refused)
  }

  lemma ThePairIsHonest()
    ensures Honest(Act, Shown)
  {}

  // Unchained: both requests are sent at once, and the answer to the first is heard last. The list
  // held says something about the second control that was never true of the agent.
  lemma OverlappingChangesGoStale(config: Config)
    ensures var p := Pair("a0", "b0");
            var first, second := SetOption("a", Word("X")), SetOption("b", Word("Y"));
            var (p1, reply1) := Act(p, first);
            var (p2, reply2) := Act(p1, second);
            var held := Heard(Heard(config, second, reply2), first, reply1);
            held.options == Shown(Pair("X", "b0")) && p2 == Pair("X", "Y") && held.options != Shown(p2)
  {
    assert Word("b0") != Word("Y");
    assert Shown(Pair("X", "b0"))[1].value != Shown(Pair("X", "Y"))[1].value;
  }

  // Chained, but with a deadline: a change given up before the agent had it can be applied after a
  // later one was answered, and nobody hears of it.
  lemma AnExpiredChangeGoesUnheard()
    ensures var s := Chain(Pair("a0", "b0"), Config(None, Shown(Pair("a0", "b0"))), [], None, [], [], []);
            var given := Next(Act, Next(Act, Next(Act, s, Call(Set("a", Word("X")))), Start), Expire);
            var e := Next(Act, OneLink(Act, Next(Act, given, Call(Set("b", Word("Y"))))), ArriveLate);
            && Honest(Act, Shown) && InStep(Shown, s)
            && e.flight == None && e.waiting == [] && e.abandoned == [] && e.config.options != Shown(e.agent)
  {
    var s := Chain(Pair("a0", "b0"), Config(None, Shown(Pair("a0", "b0"))), [], None, [], [], []);
    var called := Next(Act, s, Call(Set("a", Word("X"))));
    assert called.waiting == [Set("a", Word("X"))];
    var given := Next(Act, Next(Act, called, Start), Expire);
    assert given.abandoned == [SetOption("a", Word("X"))] && given.waiting == [];
    ThenAnotherIsAnswered(given);
    ThePairIsHonest();
    assert Word("a0") != Word("X") by { assert "a0" != "X"; }
  }

  lemma ThenAnotherIsAnswered(given: Chain<Pair>)
    requires given.agent == Pair("a0", "b0") && given.flight == None && given.waiting == []
    requires given.config.modes == None && given.abandoned == [SetOption("a", Word("X"))]
    ensures var e := Next(Act, OneLink(Act, Next(Act, given, Call(Set("b", Word("Y"))))), ArriveLate);
            && e.flight == None && e.waiting == [] && e.abandoned == []
            && e.config.options[..] == Shown(Pair("a0", "Y")) && e.agent == Pair("X", "Y")
            && Shown(Pair("a0", "Y"))[0].value == Word("a0") && Shown(e.agent)[0].value == Word("X")
  {
    var again := Next(Act, given, Call(Set("b", Word("Y"))));
    assert again.waiting == [Set("b", Word("Y"))];
    var done := OneLink(Act, again);
    assert done.agent == Pair("a0", "Y") && done.config.options == Shown(Pair("a0", "Y"));
  }
}
