// Putting a person's choices back into a conversation that has just been opened.

module ConfigRestores {
  import opened Common
  import opened Configs
  import opened ConfigChains

  // A change that was sent, and what the session held when it was.
  datatype Sent = Sent(change: Change, before: Config)

  datatype Session<A> = Session(agent: A, config: Config, sent: seq<Sent>)

  function Find(options: seq<Control>, id: string): (i: nat)
    ensures i <= |options|
    ensures i < |options| ==> options[i].id == id
  {
    if options == [] || options[0].id == id then 0 else 1 + Find(options[1..], id)
  }

  predicate Offers(c: Control, value: Value) { !c.select || (value.Word? && value.text in c.choices) }

  // One change through its turn of the chain.
  function Changed<A>(act: (A, Request) -> (A, Reply), s: Session<A>, change: Change): Session<A> {
    var request := AsRequest(s.config, change);
    var (agent, reply) := act(s.agent, request);
    Session(agent, Heard(s.config, request, reply), s.sent + [Sent(change, s.config)])
  }

  predicate Worth(config: Config, wanted: Control) {
    var i := Find(config.options, wanted.id);
    i < |config.options| && config.options[i].value != wanted.value && Offers(config.options[i], wanted.value)
  }

  function Restored1<A>(act: (A, Request) -> (A, Reply), s: Session<A>, wanted: Control): Session<A> {
    if Worth(s.config, wanted) then Changed(act, s, Set(wanted.id, wanted.value)) else s
  }

  function RestoredOptions<A>(act: (A, Request) -> (A, Reply), s: Session<A>, wanted: seq<Control>): Session<A>
    decreases |wanted|
  {
    if wanted == [] then s else RestoredOptions(act, Restored1(act, s, wanted[0]), wanted[1..])
  }

  function RestoredMode<A>(act: (A, Request) -> (A, Reply), s: Session<A>, wanted: Config): Session<A> {
    if wanted.modes == None || s.config.modes == None || s.config.modes.value.current == wanted.modes.value.current
       || wanted.modes.value.current !in s.config.modes.value.available
    then s
    else Changed(act, s, Mode(wanted.modes.value.current))
  }

  function Restored<A>(act: (A, Request) -> (A, Reply), s: Session<A>, wanted: Config): Session<A> {
    RestoredMode(act, RestoredOptions(act, s, wanted.options), wanted)
  }

  // A session and its agent; the agent's behaviour is given.
  class Conversation<A> {
    const act: (A, Request) -> (A, Reply)
    var agent: A
    var config: Config
    var sent: seq<Sent>

    constructor (act: (A, Request) -> (A, Reply), agent: A, config: Config)
      ensures this.act == act && State() == Session(agent, config, [])
    {
      this.act, this.agent, this.config, sent := act, agent, config, [];
    }

    function State(): Session<A>
      reads this
    {
      Session(agent, config, sent)
    }

    method Change(change: Change)
      modifies this
      ensures State() == Changed(act, old(State()), change)
    {
      var request := AsRequest(config, change);
      var (next, reply) := act(agent, request);
      sent := sent + [Sent(change, config)];
      agent := next;
      config := Heard(config, request, reply);
    }

    // Each reply replaces the list the next round of the loop looks at.
    method RestoreConfig(wanted: Config)
      modifies this
      ensures State() == Restored(act, old(State()), wanted)
    {
      var i := 0;
      while i < |wanted.options|
        invariant 0 <= i <= |wanted.options|
        invariant RestoredOptions(act, State(), wanted.options[i..])
                  == RestoredOptions(act, old(State()), wanted.options)
      {
        var option := wanted.options[i];
        assert wanted.options[i..][1..] == wanted.options[i + 1..];
        var k := Find(config.options, option.id);
        if k < |config.options| && config.options[k].value != option.value {
          if !config.options[k].select || (option.value.Word? && option.value.text in config.options[k].choices) {
            Change(Set(option.id, option.value));
          }
        }
        i := i + 1;
      }
      assert wanted.options[i..] == [];
      if wanted.modes == None { return; }
      var mode := wanted.modes.value.current;
      if config.modes == None || config.modes.value.current == mode { return; }
      if mode !in config.modes.value.available { return; }
      Change(Mode(mode));
    }
  }

  // ---- nothing withdrawn is sent ----

  // What was sent, the list held at that moment offered.
  predicate WasOffered(s: Sent) {
    match s.change
    case Set(id, value) =>
      var i := Find(s.before.options, id);
      i < |s.before.options| && Offers(s.before.options[i], value)
    case Mode(mode) => s.before.modes.Some? && mode in s.before.modes.value.available
  }

  ghost predicate AllOffered(sent: seq<Sent>) { forall i :: 0 <= i < |sent| ==> WasOffered(sent[i]) }

  lemma {:induction false} OptionsAreOffered<A>(act: (A, Request) -> (A, Reply), s: Session<A>, wanted: seq<Control>)
    requires AllOffered(s.sent)
    ensures AllOffered(RestoredOptions(act, s, wanted).sent)
    decreases |wanted|
  {
    if wanted != [] { OptionsAreOffered(act, Restored1(act, s, wanted[0]), wanted[1..]); }
  }

  // Whatever an agent does to its lists while they are being put back, it is only ever sent what
  // it was offering just before.
  lemma NothingWithdrawnIsSent<A>(act: (A, Request) -> (A, Reply), s: Session<A>, wanted: Config)
    requires AllOffered(s.sent)
    ensures AllOffered(Restored(act, s, wanted).sent)
  {
    OptionsAreOffered(act, s, wanted.options);
  }

  // ---- agents whose controls do not touch each other ----

  // The mode after control `i` is set: it follows the first mode control.
  function ModesAfterSet(c: Config, i: nat, value: Value): Option<Modes> {
    if c.modes.Some? && i == ModeSelect(c.options) && value.Word? && value.text in c.modes.value.available
    then Some(c.modes.value.(current := value.text)) else c.modes
  }

  // An agent that takes what it offers, changes that control and nothing else, and keeps its mode
  // and its mode control in step; `shown` is what it would publish.
  ghost predicate Apart<A(!new)>(act: (A, Request) -> (A, Reply), shown: A -> Config) {
    forall a: A, r: Request :: Takes(shown(a), r, shown(act(a, r).0), act(a, r).1)
  }

  predicate Takes(c: Config, r: Request, d: Config, reply: Reply) {
    match r
    case SetOption(id, value) =>
      var i := Find(c.options, id);
      if i == |c.options| || !Offers(c.options[i], value) then d == c && reply == Refused
      else
        var next := c.options[i := c.options[i].(value := value)];
        d == Config(ModesAfterSet(c, i, value), next) && reply == List(next)
    case SetMode(mode) =>
      if c.modes == None || mode !in c.modes.value.available then d == c && reply == Refused
      else d == Config(Some(c.modes.value.(current := mode)), Synced(c.options, mode)) && reply == Done
  }

  // There are such agents.
  function Independent(c: Config, r: Request): (Config, Reply) {
    match r
    case SetOption(id, value) =>
      var i := Find(c.options, id);
      if i == |c.options| || !Offers(c.options[i], value) then (c, Refused)
      else
        var next := c.options[i := c.options[i].(value := value)];
        (Config(ModesAfterSet(c, i, value), next), List(next))
    case SetMode(mode) =>
      if c.modes == None || mode !in c.modes.value.available then (c, Refused)
      else (Config(Some(c.modes.value.(current := mode)), Synced(c.options, mode)), Done)
  }

  function Itself(c: Config): Config { c }

  lemma IndependentIsApart()
    ensures Apart(Independent, Itself)
  {}

  // The value a control ends with: the last one wanted for it that it offers, else its own.
  function Chosen(own: Control, wanted: seq<Control>): Value {
    if wanted == [] then own.value
    else
      var last := wanted[|wanted| - 1];
      if last.id == own.id && Offers(own, last.value) then last.value else Chosen(own, wanted[..|wanted| - 1])
  }

  predicate UniqueIds(options: seq<Control>) {
    forall i, j :: 0 <= i < j < |options| ==> options[i].id != options[j].id
  }

  // With one wish for each control, that is the old value where it is still offered.
  lemma {:induction false} ChosenIsTheOldValue(own: Control, wanted: seq<Control>, k: nat)
    requires UniqueIds(wanted) && k < |wanted| && wanted[k].id == own.id
    ensures Chosen(own, wanted) == if Offers(own, wanted[k].value) then wanted[k].value else own.value
    decreases |wanted|
  {
    var shorter := wanted[..|wanted| - 1];
    if k < |wanted| - 1 {
      ChosenIsTheOldValue(own, shorter, k);
    } else {
      ChosenIsOwn(own, shorter);
    }
  }

  lemma {:induction false} ChosenIsOwn(own: Control, wanted: seq<Control>)
    requires forall k :: 0 <= k < |wanted| ==> wanted[k].id != own.id
    ensures Chosen(own, wanted) == own.value
    decreases |wanted|
  {
    if wanted != [] { ChosenIsOwn(own, wanted[..|wanted| - 1]); }
  }

  // The conversation's own controls with some values replaced.
  ghost predicate HasValues(options: seq<Control>, own: seq<Control>, wanted: seq<Control>) {
    && |options| == |own|
    && forall i :: 0 <= i < |own| ==> options[i] == own[i].(value := Chosen(own[i], wanted))
  }

  // The mode that the loop over the controls leaves: the last one wanted that the mode control
  // offers and that there is, else its own.
  function ModeAfter(own: Modes, control: Control, wanted: seq<Control>): string {
    if wanted == [] then own.current
    else
      var last := wanted[|wanted| - 1];
      if last.id == control.id && Offers(control, last.value) && last.value.Word? && last.value.text in own.available
      then last.value.text else ModeAfter(own, control, wanted[..|wanted| - 1])
  }

  function ModesAfter(own: Config, wanted: seq<Control>): Option<Modes> {
    var i := ModeSelect(own.options);
    if own.modes == None || i == |own.options| then own.modes
    else Some(own.modes.value.(current := ModeAfter(own.modes.value, own.options[i], wanted)))
  }

  // The session holds what the agent shows, and the controls seen so far are as they should be.
  ghost predicate PutBack<A(!new)>(shown: A -> Config, s: Session<A>, own: Config, wanted: seq<Control>) {
    && s.config == shown(s.agent) && Agrees(s.config)
    && HasValues(s.config.options, own.options, wanted)
    && s.config.modes == ModesAfter(own, wanted)
  }

  // The same controls, but for their values.
  ghost predicate SameControls(a: seq<Control>, b: seq<Control>) {
    |a| == |b| && forall i :: 0 <= i < |a| ==> a[i] == b[i].(value := a[i].value)
  }

  lemma {:induction false} SameModeControls(a: seq<Control>, b: seq<Control>)
    requires SameControls(a, b)
    ensures ModeSelect(a) == ModeSelect(b) && FirstMode(a) == FirstMode(b)
    decreases |a|
  {
    if a != [] {
      assert a[0] == b[0].(value := a[0].value);
      SameModeControls(a[1..], b[1..]);
    }
  }

  lemma {:induction false} FindFirst(options: seq<Control>, i: nat)
    requires UniqueIds(options) && i < |options|
    ensures Find(options, options[i].id) == i
  {
    if i > 0 {
      assert options[0].id != options[i].id && options[1..][i - 1] == options[i];
      FindFirst(options[1..], i - 1);
    }
  }

  lemma {:induction false} FindNothing(options: seq<Control>, id: string)
    ensures Find(options, id) == |options| ==> forall i :: 0 <= i < |options| ==> options[i].id != id
  {
    if options != [] && options[0].id != id {
      FindNothing(options[1..], id);
      if Find(options, id) == |options| {
        forall i | 0 <= i < |options| ensures options[i].id != id {
          if i > 0 { assert options[i] == options[1..][i - 1]; }
        }
      }
    }
  }

  // A set that is offered is held and shown alike.
  lemma SetReaches<A(!new)>(act: (A, Request) -> (A, Reply), shown: A -> Config, s: Session<A>, id: string,
                            value: Value, i: nat)
    requires Apart(act, shown) && s.config == shown(s.agent) && Agrees(s.config)
    requires i == Find(s.config.options, id) < |s.config.options| && Offers(s.config.options[i], value)
    ensures var next := s.config.options[i := s.config.options[i].(value := value)];
            var t := Changed(act, s, Set(id, value));
            t.config == shown(t.agent) == Config(ModesAfterSet(s.config, i, value), next) && Agrees(t.config)
  {
    var next := s.config.options[i := s.config.options[i].(value := value)];
    var request := SetOption(id, value);
    assert Takes(s.config, request, shown(act(s.agent, request).0), act(s.agent, request).1);
    HearingASet(s.config, i, value, next);
    AFreshListAgrees(s.config, next);
  }

  lemma HearingASet(c: Config, i: nat, value: Value, next: seq<Control>)
    requires i < |c.options| && next == c.options[i := c.options[i].(value := value)] && Agrees(c)
    ensures Updated(c, Options(next)) == Config(ModesAfterSet(c, i, value), next)
  {
    SameModeControls(next, c.options);
    var j := ModeSelect(c.options);
    if c.modes.Some? && j < |next| && j != i { assert next[j] == c.options[j]; }
  }

  lemma ValuesAfter(options: seq<Control>, own: seq<Control>, wanted: seq<Control>, w: Control, next: seq<Control>)
    requires UniqueIds(own) && HasValues(options, own, wanted)
    requires var i := Find(options, w.id);
             next == if i < |options| && options[i].value != w.value && Offers(options[i], w.value)
                     then options[i := options[i].(value := w.value)] else options
    ensures HasValues(next, own, wanted + [w])
  {
    var i := Find(options, w.id);
    FindNothing(options, w.id);
    forall k | 0 <= k < |own| ensures next[k] == own[k].(value := Chosen(own[k], wanted + [w])) {
      assert (wanted + [w])[..|wanted|] == wanted;
      assert options[k] == own[k].(value := Chosen(own[k], wanted));
      if own[k].id == w.id {
        assert UniqueIds(options) by {
          forall a, b | 0 <= a < b < |options| ensures options[a].id != options[b].id {
            assert options[a] == own[a].(value := Chosen(own[a], wanted));
            assert options[b] == own[b].(value := Chosen(own[b], wanted));
          }
        }
        FindFirst(options, k);
      }
    }
  }

  lemma ModeAfterOne(own: Config, c: Config, wanted: seq<Control>, w: Control)
    requires UniqueIds(own.options) && HasValues(c.options, own.options, wanted) && c.modes == ModesAfter(own, wanted)
    requires Agrees(c)
    ensures ModesAfter(own, wanted + [w])
            == if Worth(c, w) then ModesAfterSet(c, Find(c.options, w.id), w.value) else c.modes
  {
    assert SameControls(c.options, own.options);
    SameModeControls(c.options, own.options);
    var i, k := ModeSelect(own.options), Find(c.options, w.id);
    assert (wanted + [w])[..|wanted|] == wanted && (wanted + [w])[|wanted|] == w;
    FindNothing(c.options, w.id);
    if i < |own.options| {
      assert c.options[i] == own.options[i].(value := Chosen(own.options[i], wanted));
      ValuesKeepIds(c.options, own.options, wanted);
      FindFirst(c.options, i);
      ModeSelectIsFirst(own.options);
    }
  }

  lemma ValuesKeepIds(options: seq<Control>, own: seq<Control>, wanted: seq<Control>)
    requires UniqueIds(own) && HasValues(options, own, wanted)
    ensures UniqueIds(options)
  {
    forall a, b | 0 <= a < b < |options| ensures options[a].id != options[b].id {
      assert options[a] == own[a].(value := Chosen(own[a], wanted));
      assert options[b] == own[b].(value := Chosen(own[b], wanted));
    }
  }

  lemma StepPutsBack<A(!new)>(act: (A, Request) -> (A, Reply), shown: A -> Config, s: Session<A>, own: Config,
                              wanted: seq<Control>, w: Control)
    requires Apart(act, shown) && UniqueIds(own.options) && PutBack(shown, s, own, wanted)
    ensures PutBack(shown, Restored1(act, s, w), own, wanted + [w])
  {
    ModeAfterOne(own, s.config, wanted, w);
    if Worth(s.config, w) { SetReaches(act, shown, s, w.id, w.value, Find(s.config.options, w.id)); }
    ValuesAfter(s.config.options, own.options, wanted, w, Restored1(act, s, w).config.options);
  }

  lemma {:induction false} OptionsPutBack<A(!new)>(act: (A, Request) -> (A, Reply), shown: A -> Config, s: Session<A>,
                                                  own: Config, done: seq<Control>, wanted: seq<Control>)
    requires Apart(act, shown) && UniqueIds(own.options) && PutBack(shown, s, own, done)
    ensures PutBack(shown, RestoredOptions(act, s, wanted), own, done + wanted)
    decreases |wanted|
  {
    if wanted == [] {
      assert done + wanted == done;
    } else {
      StepPutsBack(act, shown, s, own, done, wanted[0]);
      OptionsPutBack(act, shown, Restored1(act, s, wanted[0]), own, done + [wanted[0]], wanted[1..]);
      assert done + [wanted[0]] + wanted[1..] == done + wanted;
    }
  }

  // ---- the mode, last ----

  // A mode is set through the first control of its category, if that is a select.
  predicate ThroughControl(options: seq<Control>) {
    var i := FirstMode(options);
    i < |options| && options[i].select
  }

  // A mode that the conversation has and that its mode control, when it is set through one, offers.
  predicate Settable(own: Config, mode: string) {
    && own.modes.Some? && mode in own.modes.value.available
    && (ThroughControl(own.options) ==> mode in own.options[FirstMode(own.options)].choices)
  }

  // That the last step changes the mode.
  predicate Moves(own: Config, wanted: Config) {
    && wanted.modes.Some? && Settable(own, wanted.modes.value.current)
    && ModesAfter(own, wanted.options).value.current != wanted.modes.value.current
  }

  function FinalModes(own: Config, wanted: Config): Option<Modes> {
    if Moves(own, wanted) then Some(own.modes.value.(current := wanted.modes.value.current))
    else ModesAfter(own, wanted.options)
  }

  predicate Follows(own: seq<Control>, k: nat, mode: string)
    requires k < |own|
  {
    own[k].IsModeSelect() && mode in own[k].choices && (ThroughControl(own) ==> k == FirstMode(own))
  }

  function FinalValue(own: Config, wanted: Config, k: nat): Value
    requires k < |own.options|
  {
    if Moves(own, wanted) && Follows(own.options, k, wanted.modes.value.current) then Word(wanted.modes.value.current)
    else Chosen(own.options[k], wanted.options)
  }

  lemma {:induction false} FirstModeIsFirst(options: seq<Control>)
    ensures FirstMode(options) < |options| ==> options[FirstMode(options)].category == Some(MODE)
    ensures ThroughControl(options) ==> ModeSelect(options) == FirstMode(options)
  {
    if options != [] && options[0].category != Some(MODE) { FirstModeIsFirst(options[1..]); }
  }

  // The mode set through its control.
  lemma ModeThroughControl<A(!new)>(act: (A, Request) -> (A, Reply), shown: A -> Config, s: Session<A>, mode: string)
    requires Apart(act, shown) && s.config == shown(s.agent) && Agrees(s.config) && UniqueIds(s.config.options)
    requires ThroughControl(s.config.options) && s.config.modes.Some? && mode in s.config.modes.value.available
    ensures var i := FirstMode(s.config.options);
            var t := Changed(act, s, Mode(mode));
            t.config == shown(t.agent)
            && t.config == if mode !in s.config.options[i].choices then s.config
                           else Config(Some(s.config.modes.value.(current := mode)),
                                       s.config.options[i := s.config.options[i].(value := Word(mode))])
  {
    var i := FirstMode(s.config.options);
    FirstModeIsFirst(s.config.options);
    FindFirst(s.config.options, i);
    var request := SetOption(s.config.options[i].id, Word(mode));
    assert Takes(s.config, request, shown(act(s.agent, request).0), act(s.agent, request).1);
    if mode in s.config.options[i].choices {
      SetReaches(act, shown, s, s.config.options[i].id, Word(mode), i);
      assert Changed(act, s, Mode(mode)).config == Changed(act, s, Set(s.config.options[i].id, Word(mode))).config;
    }
  }

  // The bare mode.
  lemma ModeAlone<A(!new)>(act: (A, Request) -> (A, Reply), shown: A -> Config, s: Session<A>, mode: string)
    requires Apart(act, shown) && s.config == shown(s.agent) && |mode| <= MAX_CONFIG_ID_CHARS
    requires !ThroughControl(s.config.options) && s.config.modes.Some? && mode in s.config.modes.value.available
    ensures var t := Changed(act, s, Mode(mode));
            t.config == shown(t.agent)
            && t.config == Config(Some(s.config.modes.value.(current := mode)), Synced(s.config.options, mode))
  {
    var request := SetMode(mode);
    assert Takes(s.config, request, shown(act(s.agent, request).0), act(s.agent, request).1);
  }

  // The conversation's ids are bounded when they come in.
  predicate Bounded(own: Config) {
    own.modes.Some? ==> forall m :: m in own.modes.value.available ==> |m| <= MAX_CONFIG_ID_CHARS
  }

  // What is final, given what the loop over the controls left.
  ghost predicate Ends(c: Config, own: Config, wanted: Config) {
    && c.modes == FinalModes(own, wanted) && |c.options| == |own.options|
    && forall k :: 0 <= k < |own.options| ==> c.options[k] == own.options[k].(value := FinalValue(own, wanted, k))
  }

  lemma UnmovedEnds(c: Config, own: Config, wanted: Config)
    requires HasValues(c.options, own.options, wanted.options) && c.modes == ModesAfter(own, wanted.options)
             && !Moves(own, wanted)
    ensures Ends(c, own, wanted)
  {}

  lemma ThroughControlEnds(c: Config, own: Config, wanted: Config, d: Config)
    requires HasValues(c.options, own.options, wanted.options) && c.modes == ModesAfter(own, wanted.options)
             && Moves(own, wanted)
    requires ThroughControl(own.options)
    requires var (i, mode) := (FirstMode(own.options), wanted.modes.value.current);
             d == Config(Some(own.modes.value.(current := mode)), c.options[i := c.options[i].(value := Word(mode))])
    ensures Ends(d, own, wanted)
  {
    FirstModeIsFirst(own.options);
  }

  lemma AloneEnds(c: Config, own: Config, wanted: Config, d: Config)
    requires HasValues(c.options, own.options, wanted.options) && c.modes == ModesAfter(own, wanted.options)
             && Moves(own, wanted)
    requires !ThroughControl(own.options)
    requires var mode := wanted.modes.value.current;
             d == Config(Some(own.modes.value.(current := mode)), Synced(c.options, mode))
    ensures Ends(d, own, wanted)
  {
    var mode := wanted.modes.value.current;
    forall k | 0 <= k < |own.options| ensures d.options[k] == own.options[k].(value := FinalValue(own, wanted, k)) {
      assert d.options[k] == WithMode(c.options[k], mode)
             && c.options[k] == own.options[k].(value := Chosen(own.options[k], wanted.options));
    }
  }

  lemma ModePutBack<A(!new)>(act: (A, Request) -> (A, Reply), shown: A -> Config, s: Session<A>, own: Config,
                             wanted: Config)
    requires Apart(act, shown) && UniqueIds(own.options) && Bounded(own) && PutBack(shown, s, own, wanted.options)
    ensures var e := RestoredMode(act, s, wanted); e.config == shown(e.agent) && Ends(e.config, own, wanted)
  {
    assert SameControls(s.config.options, own.options);
    SameModeControls(s.config.options, own.options);
    var i := FirstMode(own.options);
    if i < |own.options| { assert s.config.options[i] == own.options[i].(value := s.config.options[i].value); }
    if RestoredMode(act, s, wanted) == s {
      StaysExactly(act, s, own, wanted);
    } else {
      var mode := wanted.modes.value.current;
      if ThroughControl(own.options) {
        ValuesKeepIds(s.config.options, own.options, wanted.options);
        ModeThroughControl(act, shown, s, mode);
        if mode in own.options[i].choices {
          ThroughControlEnds(s.config, own, wanted, Changed(act, s, Mode(mode)).config);
        } else {
          UnmovedEnds(s.config, own, wanted);
        }
      } else {
        ModeAlone(act, shown, s, mode);
        AloneEnds(s.config, own, wanted, Changed(act, s, Mode(mode)).config);
      }
    }
  }

  lemma StaysExactly<A(!new)>(act: (A, Request) -> (A, Reply), s: Session<A>, own: Config, wanted: Config)
    requires HasValues(s.config.options, own.options, wanted.options)
             && s.config.modes == ModesAfter(own, wanted.options)
    requires RestoredMode(act, s, wanted) == s
    ensures Ends(s.config, own, wanted)
  {
    if wanted.modes.Some? && s.config.modes.Some? {
      assert |Changed(act, s, Mode(wanted.modes.value.current)).sent| == |s.sent| + 1;
    }
    UnmovedEnds(s.config, own, wanted);
  }

  // For every agent whose controls do not touch each other, and whose mode and mode control say the
  // same to begin with: each control and the mode end with the value given here, and what is held is
  // what the agent shows.
  lemma EverythingOfferedIsPutBack<A(!new)>(act: (A, Request) -> (A, Reply), shown: A -> Config, a: A, wanted: Config)
    requires Apart(act, shown) && UniqueIds(shown(a).options) && Bounded(shown(a)) && Agrees(shown(a))
    ensures var e := Restored(act, Session(a, shown(a), []), wanted);
            e.config == shown(e.agent) && Ends(e.config, shown(a), wanted)
  {
    var own, s := shown(a), Session(a, shown(a), []);
    OptionsPutBack(act, shown, s, own, [], wanted.options);
    assert [] + wanted.options == wanted.options;
    ModePutBack(act, shown, RestoredOptions(act, s, wanted.options), own, wanted);
  }

  // ---- the mode and its control ----

  lemma {:induction false} ModeAfterUnwished(own: Modes, control: Control, wanted: seq<Control>)
    requires forall k :: 0 <= k < |wanted| ==> wanted[k].id != control.id
    ensures ModeAfter(own, control, wanted) == own.current
    decreases |wanted|
  {
    if wanted != [] { ModeAfterUnwished(own, control, wanted[..|wanted| - 1]); }
  }

  lemma {:induction false} ModeAfterOneWish(own: Modes, control: Control, wanted: seq<Control>, k: nat)
    requires UniqueIds(wanted) && k < |wanted| && wanted[k].id == control.id && wanted[k].value.Word?
    ensures var mode := wanted[k].value.text;
            ModeAfter(own, control, wanted)
            == if Offers(control, Word(mode)) && mode in own.available then mode else own.current
    decreases |wanted|
  {
    var shorter := wanted[..|wanted| - 1];
    if k < |wanted| - 1 {
      ModeAfterOneWish(own, control, shorter, k);
    } else {
      ModeAfterUnwished(own, control, shorter);
    }
  }

  // What was carried over named one mode in both places, and so does the new conversation: both end
  // with the old mode exactly when the new control offers it and the new conversation has it, or
  // when what is missing was so already.
  lemma TheModeComesBackExactly<A(!new)>(act: (A, Request) -> (A, Reply), shown: A -> Config, a: A, wanted: Config,
                                         k: nat)
    requires Apart(act, shown) && UniqueIds(shown(a).options) && Bounded(shown(a)) && Agrees(shown(a))
    requires shown(a).modes.Some? && ThroughControl(shown(a).options)
    requires UniqueIds(wanted.options) && k < |wanted.options| && wanted.modes.Some?
    requires wanted.options[k].id == shown(a).options[FirstMode(shown(a).options)].id
    requires wanted.options[k].value == Word(wanted.modes.value.current)
    ensures var (own, mode, i) := (shown(a), wanted.modes.value.current, FirstMode(shown(a).options));
            var e := Restored(act, Session(a, own, []), wanted).config;
            var offered, there := mode in own.options[i].choices, mode in own.modes.value.available;
            var controlHad, modeHad := own.options[i].value == Word(mode), own.modes.value.current == mode;
            && e.modes.Some? && i < |e.options|
            && (e.modes.value.current == mode && e.options[i].value == Word(mode)
                <==> (offered || controlHad) && (modeHad || (offered && there)))
  {
    var own, i := shown(a), FirstMode(shown(a).options);
    EverythingOfferedIsPutBack(act, shown, a, wanted);
    FirstModeIsFirst(own.options);
    ModeAfterOneWish(own.modes.value, own.options[i], wanted.options, k);
    ChosenIsTheOldValue(own.options[i], wanted.options, k);
  }

  // So a mode the new conversation has can fail to come back, when its control does not offer it.
  lemma AModeThatIsThereStaysAway()
    ensures var own := Config(Some(Modes("d", ["d", "p"])), [Control("m", Some(MODE), true, Word("d"), ["d"])]);
            var wanted := Config(Some(Modes("p", ["d", "p"])), [Control("m", Some(MODE), true, Word("p"), ["d", "p"])]);
            var e := Restored(Independent, Session(own, own, []), wanted);
            && Apart(Independent, Itself) && wanted.modes.value.current in own.modes.value.available
            && e.config.modes.Some? && e.config.modes.value.current != wanted.modes.value.current
  {
    var own := Config(Some(Modes("d", ["d", "p"])), [Control("m", Some(MODE), true, Word("d"), ["d"])]);
    var wanted := Config(Some(Modes("p", ["d", "p"])), [Control("m", Some(MODE), true, Word("p"), ["d", "p"])]);
    IndependentIsApart();
    assert "p" !in ["d"] && "d" != "p" by { assert "d"[0] != "p"[0]; }
    assert wanted.modes.value.available[1] == "p";
    EverythingOfferedIsPutBack(Independent, Itself, own, wanted);
    assert ThroughControl(own.options) && !Settable(own, "p") && !Moves(own, wanted);
    ModeAfterOneWish(own.modes.value, own.options[0], wanted.options, 0);
  }

  // ---- an agent whose controls do ----

  // Choosing a model takes the effort back to its default.
  datatype Coupled = Coupled(effort: string, model: string)

  function CoupledShown(a: Coupled): seq<Control> {
    [Control("effort", None, true, Word(a.effort), ["low", "high"]),
     Control("model", None, true, Word(a.model), ["m", "n"])]
  }

  function CoupledAct(a: Coupled, r: Request): (Coupled, Reply) {
    if r.SetOption? && r.value.Word? then
      var b := if r.id == "model" then Coupled("low", r.value.text) else a.(effort := r.value.text);
      (b, List(CoupledShown(b)))
    else (a, Refused)
  }

  // Put back in the order they are listed, the model undoes the effort, though both were offered.
  lemma ACoupledAgentLosesAChoice()
    ensures var start := Coupled("low", "m");
            var wanted := CoupledShown(Coupled("high", "n"));
            var s := Session(start, Config(None, CoupledShown(start)), []);
            var e := Restored1(CoupledAct, Restored1(CoupledAct, s, wanted[0]), wanted[1]);
            e.agent == Coupled("low", "n") && e.config.options == CoupledShown(e.agent)
            && e.config.options[0].value != wanted[0].value && Offers(e.config.options[0], wanted[0].value)
  {
    var start := Coupled("low", "m");
    var s := Session(start, Config(None, CoupledShown(start)), []);
    var wanted := CoupledShown(Coupled("high", "n"));
    assert "low" != "high" && "m" != "n" && "effort" != "model";
    var t := Restored1(CoupledAct, s, wanted[0]);
    assert Find(s.config.options, "effort") == 0;
    assert t.agent == Coupled("high", "m") && t.config.options == CoupledShown(t.agent);
    assert t.config.options[1..][0].id == "model";
    assert Find(t.config.options, "model") == 1;
  }
}
