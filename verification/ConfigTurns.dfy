// Putting choices back while others change the same controls, and what later answers do to a choice.

module ConfigTurns {
  import opened Common
  import opened Configs
  import opened ConfigChains
  import opened ConfigRestores

  // ---- which choices survive the loop ----

  predicate InPlace(options: seq<Control>, wish: Control) {
    var i := Find(options, wish.id);
    i < |options| && options[i].value == wish.value
  }

  // The first control of that id.
  ghost predicate IsControl(options: seq<Control>, id: string, i: int) {
    0 <= i < |options| && options[i].id == id && forall j :: 0 <= j < i ==> options[j].id != id
  }

  lemma {:induction false} FindIsTheFirst(options: seq<Control>, id: string, i: nat)
    ensures i == Find(options, id) < |options| <==> IsControl(options, id, i)
  {
    if options != [] && options[0].id != id {
      if i > 0 { FindIsTheFirst(options[1..], id, i - 1); }
      assert forall j :: 1 <= j < |options| ==> options[j] == options[1..][j - 1];
    }
  }

  // A choice is in place when its control says it, and a round sends it exactly when it is not in place
  // and is on offer: a control to choose from must have it among its choices.
  lemma AChoiceIsSentExactly<A>(act: (A, Request) -> (A, Reply), s: Session<A>, wish: Control)
    ensures InPlace(s.config.options, wish)
            <==> exists i :: IsControl(s.config.options, wish.id, i) && s.config.options[i].value == wish.value
    ensures Restored1(act, s, wish).sent
            == if exists i :: IsControl(s.config.options, wish.id, i) && s.config.options[i].value != wish.value
                              && (s.config.options[i].select ==>
                                    wish.value.Word? && wish.value.text in s.config.options[i].choices)
               then s.sent + [Sent(Set(wish.id, wish.value), s.config)] else s.sent
  {
    var options := s.config.options;
    FindIsTheFirst(options, wish.id, Find(options, wish.id));
    forall i | IsControl(options, wish.id, i) ensures i == Find(options, wish.id) {
      FindIsTheFirst(options, wish.id, i);
    }
  }

  // The list one round hears, if it sends anything and is answered with one.
  function HeardIn<A>(act: (A, Request) -> (A, Reply), s: Session<A>, wish: Control): Option<seq<Control>> {
    if !Worth(s.config, wish) then None
    else
      var reply := act(s.agent, AsRequest(s.config, Set(wish.id, wish.value))).1;
      if reply.List? then Some(reply.options) else None
  }

  lemma OneRound<A>(act: (A, Request) -> (A, Reply), s: Session<A>, wish: Control)
    ensures Restored1(act, s, wish).config.options
            == if HeardIn(act, s, wish).Some? then HeardIn(act, s, wish).value else s.config.options
  {}

  // The last list that the loop hears.
  function LastHeard<A>(act: (A, Request) -> (A, Reply), s: Session<A>, wanted: seq<Control>): Option<seq<Control>>
    decreases |wanted|
  {
    if wanted == [] then None
    else
      var later := LastHeard(act, Restored1(act, s, wanted[0]), wanted[1..]);
      if later.Some? then later else HeardIn(act, s, wanted[0])
  }

  lemma {:induction false} TheLastListStands<A>(act: (A, Request) -> (A, Reply), s: Session<A>, wanted: seq<Control>)
    ensures RestoredOptions(act, s, wanted).config.options
            == if LastHeard(act, s, wanted).Some? then LastHeard(act, s, wanted).value else s.config.options
    decreases |wanted|
  {
    if wanted != [] {
      OneRound(act, s, wanted[0]);
      TheLastListStands(act, Restored1(act, s, wanted[0]), wanted[1..]);
    }
  }

  lemma RoundShows<A(!new)>(act: (A, Request) -> (A, Reply), shown: A -> seq<Control>, s: Session<A>, wish: Control)
    requires Honest(act, shown) && s.config.options == shown(s.agent)
    ensures Restored1(act, s, wish).config.options == shown(Restored1(act, s, wish).agent)
  {
    if Worth(s.config, wish) {
      var request := AsRequest(s.config, Set(wish.id, wish.value));
      var (agent, reply) := act(s.agent, request);
      assert Restored1(act, s, wish).agent == agent;
    }
  }

  lemma {:induction false} LoopShows<A(!new)>(act: (A, Request) -> (A, Reply), shown: A -> seq<Control>, s: Session<A>,
                                             wanted: seq<Control>)
    requires Honest(act, shown) && s.config.options == shown(s.agent)
    ensures RestoredOptions(act, s, wanted).config.options == shown(RestoredOptions(act, s, wanted).agent)
    decreases |wanted|
  {
    if wanted != [] {
      RoundShows(act, shown, s, wanted[0]);
      LoopShows(act, shown, Restored1(act, s, wanted[0]), wanted[1..]);
    }
  }

  // Every list that later rounds hear has the choice in place.
  predicate NoneMoves<A>(act: (A, Request) -> (A, Reply), s: Session<A>, later: seq<Control>, wish: Control)
    decreases |later|
  {
    later == []
    || ((HeardIn(act, s, later[0]).Some? ==> InPlace(HeardIn(act, s, later[0]).value, wish))
        && NoneMoves(act, Restored1(act, s, later[0]), later[1..], wish))
  }

  ghost predicate StaysInPlace<A(!new)>(act: (A, Request) -> (A, Reply), s: Session<A>, later: seq<Control>,
                                        wish: Control) {
    forall n :: 0 <= n <= |later| ==> InPlaceAfter(act, s, later[..n], wish)
  }

  predicate InPlaceAfter<A>(act: (A, Request) -> (A, Reply), s: Session<A>, later: seq<Control>, wish: Control) {
    InPlace(RestoredOptions(act, s, later).config.options, wish)
  }

  lemma StaysInPlaceStep<A(!new)>(act: (A, Request) -> (A, Reply), s: Session<A>, later: seq<Control>, wish: Control)
    requires later != []
    ensures StaysInPlace(act, s, later, wish)
            <==> InPlace(s.config.options, wish) && StaysInPlace(act, Restored1(act, s, later[0]), later[1..], wish)
  {
    var next, rest := Restored1(act, s, later[0]), later[1..];
    forall n | 0 <= n <= |rest|
      ensures InPlaceAfter(act, s, later[..n + 1], wish) <==> InPlaceAfter(act, next, rest[..n], wish) {
      assert later[..n + 1][1..] == rest[..n];
    }
    assert InPlaceAfter(act, s, later[..0], wish) <==> InPlace(s.config.options, wish);
    forall n | 0 < n <= |later|
      ensures InPlaceAfter(act, s, later[..n], wish) <==> InPlaceAfter(act, next, rest[..n - 1], wish) {
      assert later[..n - 1 + 1] == later[..n];
    }
  }

  lemma {:induction false} StaysInPlaceExactly<A(!new)>(act: (A, Request) -> (A, Reply), s: Session<A>,
                                                       later: seq<Control>, wish: Control)
    requires InPlace(s.config.options, wish)
    ensures StaysInPlace(act, s, later, wish) <==> NoneMoves(act, s, later, wish)
    decreases |later|
  {
    if later != [] {
      var next, rest := Restored1(act, s, later[0]), later[1..];
      StaysInPlaceStep(act, s, later, wish);
      OneRound(act, s, later[0]);
      if InPlace(next.config.options, wish) {
        StaysInPlaceExactly(act, next, rest, wish);
      } else {
        assert rest[..0] == [] && !InPlaceAfter(act, next, rest[..0], wish);
      }
    }
  }

  // For every honest agent, coupled or not: a choice that has been put back stays put, round after
  // round, exactly when no later answer moves its control; and at the end it is in place, held and
  // shown, exactly when the last list heard after it has it so, if there was one.
  lemma AChoiceSurvivesExactly<A(!new)>(act: (A, Request) -> (A, Reply), shown: A -> seq<Control>, s: Session<A>,
                                        later: seq<Control>, wish: Control)
    requires Honest(act, shown) && s.config.options == shown(s.agent) && InPlace(s.config.options, wish)
    ensures StaysInPlace(act, s, later, wish) <==> NoneMoves(act, s, later, wish)
    ensures var e := RestoredOptions(act, s, later);
            && e.config.options == shown(e.agent)
            && (InPlace(shown(e.agent), wish)
                <==> LastHeard(act, s, later) == None || InPlace(LastHeard(act, s, later).value, wish))
  {
    StaysInPlaceExactly(act, s, later, wish);
    LoopShows(act, shown, s, later);
    TheLastListStands(act, s, later);
  }

  // ---- while others change the same controls ----

  // What else can happen before a turn comes: another caller's change, or word from an agent that
  // has changed by itself.
  datatype Other<A> = Theirs(change: Change) | Notice(agent: A, news: News)

  // Before a round looks at the list, and between its look and its turn.
  datatype Gap<A> = Gap(before: seq<Other<A>>, between: seq<Other<A>>)

  function Met<A>(act: (A, Request) -> (A, Reply), s: Session<A>, other: Other<A>): Session<A> {
    match other
    case Theirs(change) => Changed(act, s, change).(sent := s.sent)
    case Notice(agent, news) => s.(agent := agent, config := Updated(s.config, news))
  }

  function MetAll<A>(act: (A, Request) -> (A, Reply), s: Session<A>, others: seq<Other<A>>): Session<A>
    decreases |others|
  {
    if others == [] then s else MetAll(act, Met(act, s, others[0]), others[1..])
  }

  function Round<A>(act: (A, Request) -> (A, Reply), s: Session<A>, wish: Control, gap: Gap<A>): Session<A> {
    var seen := MetAll(act, s, gap.before);
    if Worth(seen.config, wish) then Changed(act, MetAll(act, seen, gap.between), Set(wish.id, wish.value)) else seen
  }

  function Rounds<A>(act: (A, Request) -> (A, Reply), s: Session<A>, wanted: seq<Control>,
                     gaps: seq<Gap<A>>): Session<A>
    requires |gaps| == |wanted|
    decreases |wanted|
  {
    if wanted == [] then s else Rounds(act, Round(act, s, wanted[0], gaps[0]), wanted[1..], gaps[1..])
  }

  function ModeRound<A>(act: (A, Request) -> (A, Reply), s: Session<A>, wanted: Config, gap: Gap<A>): Session<A> {
    var seen := MetAll(act, s, gap.before);
    if wanted.modes == None || seen.config.modes == None
       || seen.config.modes.value.current == wanted.modes.value.current
       || wanted.modes.value.current !in seen.config.modes.value.available
    then seen
    else Changed(act, MetAll(act, seen, gap.between), Mode(wanted.modes.value.current))
  }

  function RestoredMeanwhile<A>(act: (A, Request) -> (A, Reply), s: Session<A>, wanted: Config, gaps: seq<Gap<A>>,
                                last: Gap<A>): Session<A>
    requires |gaps| == |wanted.options|
  {
    ModeRound(act, Rounds(act, s, wanted.options, gaps), wanted, last)
  }

  // With nothing in the gaps it is the restoring of before.
  lemma {:induction false} AloneItIsTheSame<A>(act: (A, Request) -> (A, Reply), s: Session<A>, wanted: seq<Control>,
                                              gaps: seq<Gap<A>>)
    requires |gaps| == |wanted| && forall i :: 0 <= i < |gaps| ==> gaps[i] == Gap([], [])
    ensures Rounds(act, s, wanted, gaps) == RestoredOptions(act, s, wanted)
    decreases |wanted|
  {
    if wanted != [] {
      assert Round(act, s, wanted[0], gaps[0]) == Restored1(act, s, wanted[0]);
      AloneItIsTheSame(act, Restored1(act, s, wanted[0]), wanted[1..], gaps[1..]);
    }
  }

  // ---- what others can withdraw ----

  predicate Offered(options: seq<Control>, id: string, value: Value) {
    var i := Find(options, id);
    i < |options| && Offers(options[i], value)
  }

  // The list that one of them brings, and the last that some of them bring.
  function Brings<A>(act: (A, Request) -> (A, Reply), s: Session<A>, other: Other<A>): Option<seq<Control>> {
    match other
    case Theirs(change) =>
      var reply := act(s.agent, AsRequest(s.config, change)).1;
      if reply.List? then Some(reply.options) else None
    case Notice(_, news) => if news.Options? then Some(news.options) else None
  }

  function LastBrought<A>(act: (A, Request) -> (A, Reply), s: Session<A>, others: seq<Other<A>>): Option<seq<Control>>
    decreases |others|
  {
    if others == [] then None
    else
      var later := LastBrought(act, Met(act, s, others[0]), others[1..]);
      if later.Some? then later else Brings(act, s, others[0])
  }

  lemma {:induction false} SameControlsOffer(a: seq<Control>, b: seq<Control>, id: string, value: Value)
    requires SameControls(a, b)
    ensures Find(a, id) == Find(b, id) && (Offered(a, id, value) <==> Offered(b, id, value))
    decreases |a|
  {
    if a != [] {
      assert a[0] == b[0].(value := a[0].value);
      SameControlsOffer(a[1..], b[1..], id, value);
    }
  }

  // Nothing but a list changes what is offered, and no news changes which modes there are.
  lemma MeetingOffers<A>(act: (A, Request) -> (A, Reply), s: Session<A>, other: Other<A>)
    ensures var t, list := Met(act, s, other), Brings(act, s, other);
            && t.sent == s.sent
            && SameControls(t.config.options, if list.Some? then list.value else s.config.options)
            && (t.config.modes.Some? <==> s.config.modes.Some?)
            && (s.config.modes.Some? ==> t.config.modes.value.available == s.config.modes.value.available)
  {}

  lemma {:induction false} MeetingAllOffers<A>(act: (A, Request) -> (A, Reply), s: Session<A>, others: seq<Other<A>>)
    ensures var t, list := MetAll(act, s, others), LastBrought(act, s, others);
            && t.sent == s.sent
            && SameControls(t.config.options, if list.Some? then list.value else s.config.options)
            && (t.config.modes.Some? <==> s.config.modes.Some?)
            && (s.config.modes.Some? ==> t.config.modes.value.available == s.config.modes.value.available)
    decreases |others|
  {
    if others != [] {
      MeetingOffers(act, s, others[0]);
      MeetingAllOffers(act, Met(act, s, others[0]), others[1..]);
    }
  }

  // A choice seen in the list is still offered when its turn comes exactly when no list came in
  // between, or the last that came offers it.
  lemma StillOfferedExactly<A>(act: (A, Request) -> (A, Reply), seen: Session<A>, others: seq<Other<A>>, wish: Control)
    requires Worth(seen.config, wish)
    ensures WasOffered(Sent(Set(wish.id, wish.value), MetAll(act, seen, others).config))
            <==> LastBrought(act, seen, others) == None
                 || Offered(LastBrought(act, seen, others).value, wish.id, wish.value)
  {
    var list := LastBrought(act, seen, others);
    MeetingAllOffers(act, seen, others);
    SameControlsOffer(MetAll(act, seen, others).config.options, if list.Some? then list.value else seen.config.options,
                      wish.id, wish.value);
  }

  // No list that comes between a look and its turn withdraws what is to be sent.
  predicate NoneWithdraws<A>(act: (A, Request) -> (A, Reply), s: Session<A>, wanted: seq<Control>, gaps: seq<Gap<A>>)
    requires |gaps| == |wanted|
    decreases |wanted|
  {
    wanted == []
    || (var seen := MetAll(act, s, gaps[0].before);
        var list := LastBrought(act, seen, gaps[0].between);
        && (Worth(seen.config, wanted[0]) && list.Some? ==> Offered(list.value, wanted[0].id, wanted[0].value))
        && NoneWithdraws(act, Round(act, s, wanted[0], gaps[0]), wanted[1..], gaps[1..]))
  }

  lemma RoundSends<A>(act: (A, Request) -> (A, Reply), s: Session<A>, wish: Control, gap: Gap<A>)
    ensures var seen := MetAll(act, s, gap.before);
            Round(act, s, wish, gap).sent
            == if Worth(seen.config, wish)
               then s.sent + [Sent(Set(wish.id, wish.value), MetAll(act, seen, gap.between).config)] else s.sent
  {
    MeetingAllOffers(act, s, gap.before);
    MeetingAllOffers(act, MetAll(act, s, gap.before), gap.between);
  }

  lemma {:induction false} SentOnlyGrows<A>(act: (A, Request) -> (A, Reply), s: Session<A>, wanted: seq<Control>,
                                            gaps: seq<Gap<A>>)
    requires |gaps| == |wanted|
    ensures s.sent <= Rounds(act, s, wanted, gaps).sent
    decreases |wanted|
  {
    if wanted != [] {
      RoundSends(act, s, wanted[0], gaps[0]);
      SentOnlyGrows(act, Round(act, s, wanted[0], gaps[0]), wanted[1..], gaps[1..]);
    }
  }

  lemma {:induction false} RoundsOfferExactly<A>(act: (A, Request) -> (A, Reply), s: Session<A>, wanted: seq<Control>,
                                                gaps: seq<Gap<A>>)
    requires |gaps| == |wanted| && AllOffered(s.sent)
    ensures AllOffered(Rounds(act, s, wanted, gaps).sent) <==> NoneWithdraws(act, s, wanted, gaps)
    decreases |wanted|
  {
    if wanted != [] {
      var seen, next := MetAll(act, s, gaps[0].before), Round(act, s, wanted[0], gaps[0]);
      RoundSends(act, s, wanted[0], gaps[0]);
      if Worth(seen.config, wanted[0]) {
        var sent := Sent(Set(wanted[0].id, wanted[0].value), MetAll(act, seen, gaps[0].between).config);
        StillOfferedExactly(act, seen, gaps[0].between, wanted[0]);
        OneMoreSent(s.sent, sent);
      }
      if AllOffered(next.sent) {
        RoundsOfferExactly(act, next, wanted[1..], gaps[1..]);
      } else {
        SentOnlyGrows(act, next, wanted[1..], gaps[1..]);
        NotAllStays(next.sent, Rounds(act, next, wanted[1..], gaps[1..]).sent);
      }
    }
  }

  lemma OneMoreSent(sent: seq<Sent>, last: Sent)
    requires AllOffered(sent)
    ensures AllOffered(sent + [last]) <==> WasOffered(last)
  {
    if AllOffered(sent + [last]) { assert (sent + [last])[|sent|] == last; }
  }

  lemma NotAllStays(sent: seq<Sent>, more: seq<Sent>)
    requires sent <= more && !AllOffered(sent)
    ensures !AllOffered(more)
  {
    var i :| 0 <= i < |sent| && !WasOffered(sent[i]);
    assert more[i] == sent[i];
  }

  // Whatever the agent and other callers do meanwhile, everything sent was on offer when it was sent
  // if and only if no list that came between a look and its turn withdrew it; a mode never is.
  lemma WithdrawnIsSentExactly<A>(act: (A, Request) -> (A, Reply), s: Session<A>, wanted: Config, gaps: seq<Gap<A>>,
                                  last: Gap<A>)
    requires |gaps| == |wanted.options| && AllOffered(s.sent)
    ensures AllOffered(RestoredMeanwhile(act, s, wanted, gaps, last).sent)
            <==> NoneWithdraws(act, s, wanted.options, gaps)
  {
    RoundsOfferExactly(act, s, wanted.options, gaps);
    var r := Rounds(act, s, wanted.options, gaps);
    var seen := MetAll(act, r, last.before);
    var e := ModeRound(act, r, wanted, last);
    MeetingAllOffers(act, r, last.before);
    MeetingAllOffers(act, seen, last.between);
    if !AllOffered(r.sent) { NotAllStays(r.sent, e.sent); }
  }

  // ---- a run in which it was withdrawn ----

  // Another model offers less effort.
  function Efforts(model: string): seq<string> { if model == "n" then ["low"] else ["low", "high"] }

  function ModelShown(a: Coupled): seq<Control> {
    [Control("effort", None, true, Word(a.effort), Efforts(a.model)),
     Control("model", None, true, Word(a.model), ["m", "n"])]
  }

  function ModelAct(a: Coupled, r: Request): (Coupled, Reply) {
    if r == SetOption("model", Word("n")) then (Coupled("low", "n"), List(ModelShown(Coupled("low", "n"))))
    else (a, Refused)
  }

  // High effort is seen in the list; somebody else's change of the model has its turn first.
  lemma AWithdrawnChoiceIsSent()
    ensures var s := Session(Coupled("low", "m"), Config(None, ModelShown(Coupled("low", "m"))), []);
            var wish := Control("effort", None, true, Word("high"), ["low", "high"]);
            var gap := Gap([], [Theirs(Set("model", Word("n")))]);
            && Honest(ModelAct, ModelShown)
            && Round(ModelAct, s, wish, gap).sent
               == [Sent(Set("effort", Word("high")), Config(None, ModelShown(Coupled("low", "n"))))]
            && !AllOffered(Round(ModelAct, s, wish, gap).sent)
  {
    var s := Session(Coupled("low", "m"), Config(None, ModelShown(Coupled("low", "m"))), []);
    var wish := Control("effort", None, true, Word("high"), ["low", "high"]);
    var theirs: Other<Coupled> := Theirs(Set("model", Word("n")));
    assert "low" != "high" by { assert "low"[0] != "high"[0]; }
    assert "m" != "n";
    assert ["low", "high"][1] == "high";
    assert Worth(s.config, wish);
    assert [theirs][1..] == [];
    var t := Met(ModelAct, s, theirs);
    assert MetAll(ModelAct, s, [theirs]) == MetAll(ModelAct, t, []) == t;
    assert t.config == Config(None, ModelShown(Coupled("low", "n")));
    assert !WasOffered(Sent(Set("effort", Word("high")), t.config));
    OneMoreSent([], Sent(Set("effort", Word("high")), t.config));
  }
}
