/**
 Starting a node: the entrypoint's configurer validates the configs of all groups before it
 updates any of them. A group's supervisor keeps the first validated config without starting
 an actor, and starts actors only from then on, when messages are routed to them.

 What a supervisor does is given by functions on its control block; the machine interleaves
 the configurer's protocol with whatever running actors send.
 */
module Startup {
  import opened Prelude

  type Group = nat
  type Key = nat
  type Config = nat
  type Reason = nat

  datatype Outcome =
    | Unicast(key: Key)
    | GentleUnicast(key: Key)
    | Multicast(keys: seq<Key>)
    | GentleMulticast(keys: seq<Key>)
    | Broadcast
    | Discard
    | Default

  function Or(o: Outcome, fallback: Outcome): Outcome {
    if o == Default then fallback else o
  }

  /** The actors that must exist before the message is delivered. */
  function Wanted(o: Outcome): set<Key> {
    match o
    case Unicast(key) => {key}
    case Multicast(keys) => set k | k in keys
    case _ => {}
  }

  // === A supervisor's control block ===

  datatype Control = Control(userConfig: Option<Config>, isStarted: bool, stopSpawning: bool, actors: set<Key>)

  /** Spawning without a config panics ("config is unset"). */
  predicate SpawnPanics(c: Control, keys: set<Key>) {
    keys - c.actors != {} && !c.stopSpawning && c.userConfig == None
  }

  function Spawned(c: Control, keys: set<Key>): Control {
    if c.stopSpawning || c.userConfig == None then c else c.(actors := c.actors + keys)
  }

  function Routed(c: Control, o: Outcome): Control {
    Spawned(c, Wanted(o))
  }

  /** The first valid config is kept at once and nothing is routed. */
  function Validated(c: Control, decoded: Result<Config, Reason>, routed: Outcome): Control {
    match decoded
    case Err(_) => c
    case Ok(config) =>
      if c.userConfig == None then c.(userConfig := Some(config)) else Routed(c, Or(routed, Discard))
  }

  /** What an update makes of the control block before its message is routed. */
  function Configured(c: Control, config: Config): Control {
    c.(isStarted := true, userConfig := if c.isStarted || c.userConfig == None then Some(config) else c.userConfig)
  }

  function Updated(c: Control, decoded: Result<Config, Reason>, routed: Outcome): Control {
    match decoded
    case Err(_) => c
    case Ok(config) => Routed(Configured(c, config), if c.isStarted then Or(routed, Broadcast) else routed)
  }

  // === The machine ===

  datatype Phase =
    | Resting
    | Validating(pending: set<Group>, rejected: bool)
    | Updating(pending: set<Group>)

  /** A config that the supervisor could decode, and what it came with. */
  datatype Told = AskedAbout(config: Config) | UpdatedTo(config: Config)

  datatype State = State(
    controls: map<Group, Control>,
    told: map<Group, seq<Told>>,   // what happened so far; it never influences a step
    entry: Group,
    routesValidation: set<Group>,  // groups whose router may start actors for a validation request
    restarts: bool,                // a configurer that failed is started again
    mounted: bool,
    phase: Phase,
    attempts: nat,
    succeeded: bool,               // some validation of all groups has passed
    everStarted: set<Group>,       // groups in which an actor was ever started
    panicked: bool)

  datatype Event =
    | MountEntry(config: Config, routed: Outcome)
    | BeginAttempt(targets: set<Group>)
    | Validate(group: Group, decoded: Result<Config, Reason>, routed: Outcome, actorRejects: bool)
    | EndValidation
    | Update(group: Group, decoded: Result<Config, Reason>, routed: Outcome)
    | EndUpdate
    | Message(from: Group, to: Group, routed: Outcome)
    | Exit(group: Group, key: Key)
    | Terminate(group: Group, stops: bool, routed: Outcome)

  ghost predicate IsInit(s: State) {
    && s.entry in s.controls
    && (forall g :: g in s.controls ==> s.controls[g] == Control(None, false, false, {}))
    && s.told.Keys == s.controls.Keys && (forall g :: g in s.told ==> s.told[g] == [])
    && !s.mounted && s.phase == Resting && s.attempts == 0 && !s.succeeded && s.everStarted == {} && !s.panicked
  }

  /** Replaces the control block of a group, noting whether actors were started or a spawn panicked. */
  function Put(s: State, g: Group, c: Control, panics: bool): State {
    s.(controls := s.controls[g := c],
       everStarted := if c.actors == {} then s.everStarted else s.everStarted + {g},
       panicked := s.panicked || panics)
  }

  function Tell(s: State, g: Group, told: Told): map<Group, seq<Told>> {
    if g in s.told then s.told[g := s.told[g] + [told]] else s.told
  }

  function StepMount(s: State, config: Config, routed: Outcome): State
    requires s.entry in s.controls
  {
    var c := s.controls[s.entry];
    Put(s, s.entry, Updated(c, Ok(config), routed), SpawnPanics(Configured(c, config), Wanted(routed)))
      .(mounted := true, told := Tell(s, s.entry, UpdatedTo(config)))
  }

  function StepValidate(s: State, g: Group, decoded: Result<Config, Reason>, routed: Outcome, actorRejects: bool): State
    requires s.phase.Validating? && g in s.controls
  {
    var c := s.controls[g];
    var forwarded := decoded.Ok? && c.userConfig.Some?;
    Put(s, g, Validated(c, decoded, routed), false)
      .(phase := Validating(s.phase.pending - {g}, s.phase.rejected || decoded.Err? || (forwarded && actorRejects)),
        told := if decoded.Ok? then Tell(s, g, AskedAbout(decoded.value)) else s.told)
  }

  function StepUpdate(s: State, g: Group, decoded: Result<Config, Reason>, routed: Outcome): State
    requires s.phase.Updating? && g in s.controls
  {
    var c := s.controls[g];
    var panics := decoded.Ok? && SpawnPanics(Configured(c, decoded.value), Wanted(routed));
    Put(s, g, Updated(c, decoded, routed), panics)
      .(phase := Updating(s.phase.pending - {g}),
        told := if decoded.Ok? then Tell(s, g, UpdatedTo(decoded.value)) else s.told)
  }

  function StepMessage(s: State, g: Group, o: Outcome): State
    requires g in s.controls
  {
    Put(s, g, Routed(s.controls[g], o), SpawnPanics(s.controls[g], Wanted(o)))
  }

  predicate Enabled(s: State, e: Event) {
    !s.panicked && s.entry in s.controls &&
    match e
    case MountEntry(_, _) => !s.mounted
    case BeginAttempt(targets) =>
      // At startup and after a restart all groups are validated; a later reload may skip some. A
      // restarted configurer waits for any envelope first, e.g. the request of a second start.
      && s.mounted && s.phase == Resting && targets <= s.controls.Keys
      && (s.succeeded || (targets == s.controls.Keys && (s.attempts == 0 || s.restarts)))
    case Validate(g, _, routed, _) =>
      && s.phase.Validating? && g in s.phase.pending && g in s.controls
      && (g in s.routesValidation || Wanted(routed) == {})
    case EndValidation => s.phase.Validating? && s.phase.pending == {}
    case Update(g, _, _) => s.phase.Updating? && g in s.phase.pending && g in s.controls
    case EndUpdate => s.phase.Updating? && s.phase.pending == {}
    case Message(from, to, _) => from in s.everStarted && from != s.entry && to in s.controls
    case Exit(g, _) => g in s.controls
    case Terminate(g, _, _) => s.succeeded && g in s.controls
  }

  function Step(s: State, e: Event): State {
    if !Enabled(s, e) then s
    else
      match e
      case MountEntry(config, routed) => StepMount(s, config, routed)
      case BeginAttempt(targets) => s.(phase := Validating(targets, false), attempts := s.attempts + 1)
      case Validate(g, decoded, routed, actorRejects) => StepValidate(s, g, decoded, routed, actorRejects)
      case EndValidation =>
        if s.phase.rejected then s.(phase := Resting)
        else s.(phase := Updating(s.controls.Keys), succeeded := true)
      case Update(g, decoded, routed) => StepUpdate(s, g, decoded, routed)
      case EndUpdate => s.(phase := Resting)
      case Message(_, to, routed) => StepMessage(s, to, Or(routed, Discard))
      case Exit(g, key) =>
        s.(controls := s.controls[g := s.controls[g].(actors := s.controls[g].actors - {key})])
      case Terminate(g, stops, routed) =>
        var s' := s.(controls := s.controls[g := s.controls[g].(stopSpawning := s.controls[g].stopSpawning || stops)]);
        StepMessage(s', g, Or(routed, Broadcast))
  }

  function Run(s: State, events: seq<Event>): State
    decreases |events|
  {
    if events == [] then s else Run(Step(s, events[0]), events[1..])
  }

  // === Safety ===

  predicate AllSet(s: State) {
    forall g :: g in s.controls ==> s.controls[g].userConfig.Some?
  }

  /** Two groups besides the entrypoint, one of which may start actors while it is validated again. */
  ghost predicate Risky(s: State) {
    s.restarts && exists a, b ::
      a in s.controls && b in s.controls && a != b && a != s.entry && b != s.entry && a in s.routesValidation
  }

  ghost predicate EarlyRouter(s: State) {
    exists a :: a in s.controls && a != s.entry && a in s.routesValidation
  }

  ghost predicate Basics(s: State) {
    && s.entry in s.controls
    && (s.mounted ==> s.controls[s.entry].userConfig.Some?)
    && (!s.mounted ==> s.attempts == 0 && s.phase == Resting && !s.succeeded && s.everStarted == {})
    && (s.attempts == 0 ==> s.phase == Resting && !s.succeeded)
    && (forall g :: g in s.controls && s.controls[g].actors != {} ==> g in s.everStarted)
    && (forall g :: g in s.everStarted ==> g in s.controls && s.controls[g].userConfig.Some?)
    && (s.succeeded ==> AllSet(s))
    && (s.phase.Updating? ==> s.succeeded)
    && (s.phase.Validating? && !s.phase.rejected ==>
          s.succeeded || forall g :: g in s.controls ==> g in s.phase.pending || s.controls[g].userConfig.Some?)
  }

  /** Before the first success, a first attempt meets only groups without a config. */
  ghost predicate FirstAttempt(s: State) {
    && (!s.restarts && !s.succeeded ==> s.attempts <= 1)
    && (!s.restarts && !s.succeeded && (s.attempts == 0 || s.phase.Validating?) ==>
          forall g :: g in s.controls && g != s.entry && (s.attempts == 0 || g in s.phase.pending) ==>
            s.controls[g].userConfig == None)
  }

  /** Nothing but the entrypoint runs before a success, if no router can start actors too early. */
  ghost predicate Quiet(s: State) {
    (!s.restarts || !EarlyRouter(s)) && !s.succeeded ==> s.everStarted <= {s.entry}
  }

  ghost predicate Inv(s: State) {
    && Basics(s) && FirstAttempt(s) && Quiet(s) && !s.panicked
    && (s.everStarted <= {s.entry} || AllSet(s))
  }

  lemma StepKeepsGroups(s: State, e: Event)
    ensures var s' := Step(s, e);
            s'.controls.Keys == s.controls.Keys && s'.entry == s.entry && s'.restarts == s.restarts
            && s'.routesValidation == s.routesValidation
  {
  }

  lemma MountKeeps(s: State, config: Config, routed: Outcome)
    requires Inv(s) && Enabled(s, MountEntry(config, routed))
    ensures Inv(StepMount(s, config, routed))
  {
  }

  lemma ValidateKeeps(s: State, g: Group, decoded: Result<Config, Reason>, routed: Outcome, actorRejects: bool)
    requires Inv(s) && !Risky(s) && Enabled(s, Validate(g, decoded, routed, actorRejects))
    ensures Inv(StepValidate(s, g, decoded, routed, actorRejects))
  {
    var s' := StepValidate(s, g, decoded, routed, actorRejects);
    assert forall h :: h in s.controls && h != g ==> s'.controls[h] == s.controls[h];
    if g != s.entry && !s.succeeded && s'.controls[g].actors != s.controls[g].actors {
      assert g in s.routesValidation && s.controls[g].userConfig.Some? && s.restarts;
      assert forall b :: b in s.controls ==> b == g || b == s.entry;
      assert AllSet(s');
    }
  }

  lemma UpdateKeeps(s: State, g: Group, decoded: Result<Config, Reason>, routed: Outcome)
    requires Inv(s) && Enabled(s, Update(g, decoded, routed))
    ensures Inv(StepUpdate(s, g, decoded, routed))
  {
  }

  lemma MessageKeeps(s: State, g: Group, o: Outcome)
    requires Inv(s) && g in s.controls && AllSet(s) && (s.succeeded || !(s.everStarted <= {s.entry}))
    ensures Inv(StepMessage(s, g, o))
  {
  }

  lemma StepKeeps(s: State, e: Event)
    requires Inv(s) && !Risky(s)
    ensures Inv(Step(s, e)) && !Risky(Step(s, e))
  {
    StepKeepsGroups(s, e);
    StepKeepsInv(s, e);
    assert Risky(Step(s, e)) ==> Risky(s);
  }

  lemma StepKeepsInv(s: State, e: Event)
    requires Inv(s) && !Risky(s)
    ensures Inv(Step(s, e))
  {
    if Enabled(s, e) {
      match e
      case MountEntry(config, routed) => MountKeeps(s, config, routed);
      case Validate(g, decoded, routed, actorRejects) => ValidateKeeps(s, g, decoded, routed, actorRejects);
      case Update(g, decoded, routed) => UpdateKeeps(s, g, decoded, routed);
      case Message(from, to, routed) => MessageKeeps(s, to, Or(routed, Discard));
      case Terminate(g, stops, routed) => TerminateKeeps(s, g, stops, routed);
      case _ =>
    }
  }

  lemma TerminateKeeps(s: State, g: Group, stops: bool, routed: Outcome)
    requires Inv(s) && Enabled(s, Terminate(g, stops, routed))
    ensures Inv(Step(s, Terminate(g, stops, routed)))
  {
    var s' := s.(controls := s.controls[g := s.controls[g].(stopSpawning := s.controls[g].stopSpawning || stops)]);
    MessageKeeps(s', g, Or(routed, Broadcast));
  }

  lemma {:induction false} RunKeeps(s: State, events: seq<Event>)
    requires Inv(s) && !Risky(s)
    ensures Inv(Run(s, events)) && Run(s, events).entry == s.entry
    decreases |events|
  {
    if events != [] {
      StepKeepsGroups(s, events[0]);
      StepKeeps(s, events[0]);
      RunKeeps(Step(s, events[0]), events[1..]);
    }
  }

  // === Where the router decides ===

  lemma {:induction false} RunAppend(s: State, a: seq<Event>, b: seq<Event>)
    ensures Run(s, a + b) == Run(Run(s, a), b)
    decreases |a|
  {
    if a == [] {
      assert a + b == b;
    } else {
      assert (a + b)[1..] == a[1..] + b;
      RunAppend(Step(s, a[0]), a[1..], b);
    }
  }

  lemma RunOne(s: State, e: Event)
    ensures Run(s, [e]) == Step(s, e)
  {
    assert Run(Step(s, e), [e][1..]) == Step(s, e);
  }

  /** The rest of a validation in which every remaining group rejects its config. */
  lemma {:induction false} RejectRest(s: State) returns (events: seq<Event>)
    requires s.phase.Validating? && s.phase.pending <= s.controls.Keys && s.entry in s.controls && !s.panicked
    requires forall g :: g in s.controls && s.controls[g].actors != {} ==> g in s.everStarted
    ensures Run(s, events) == s.(phase := Validating({}, s.phase.rejected || s.phase.pending != {}))
    decreases s.phase.pending
  {
    if s.phase.pending == {} {
      return [];
    }
    var g :| g in s.phase.pending;
    var e := Validate(g, Err(0), Default, false);
    var s' := Step(s, e);
    assert s'.controls == s.controls && s'.everStarted == s.everStarted;
    assert s' == s.(phase := Validating(s.phase.pending - {g}, true));
    var rest := RejectRest(s');
    RunOne(s, e);
    RunAppend(s, [e], rest);
    events := [e] + rest;
  }

  /** A first attempt in which only group `a` accepts its config. */
  lemma OnlyOneAccepts(s: State, a: Group) returns (events: seq<Event>)
    requires IsInit(s) && a in s.controls && a != s.entry
    ensures var t := Run(s, events);
            && t.controls.Keys == s.controls.Keys && t.entry == s.entry && t.restarts == s.restarts
            && t.routesValidation == s.routesValidation
            && t.mounted && t.phase == Resting && !t.succeeded && !t.panicked && t.everStarted == {}
            && t.controls[a] == Control(Some(0), false, false, {})
            && (forall b :: b in s.controls && b != a && b != s.entry ==> t.controls[b] == s.controls[b])
  {
    var s1 := Step(s, MountEntry(0, Default));
    assert s1.everStarted == {} && s1.mounted && s1.phase == Resting;
    var s2 := Step(s1, BeginAttempt(s.controls.Keys));
    assert s2.phase == Validating(s.controls.Keys, false);
    var s3 := Step(s2, Validate(a, Ok(0), Default, false));
    assert s3.phase == Validating(s.controls.Keys - {a}, false) && s3.everStarted == {};
    assert s.entry in s3.phase.pending;
    var rest := RejectRest(s3);
    var s4 := Run(s3, rest);
    var first := [MountEntry(0, Default), BeginAttempt(s.controls.Keys), Validate(a, Ok(0), Default, false)];
    assert Run(s, first) == s3 by {
      assert first[1..] == [BeginAttempt(s.controls.Keys), Validate(a, Ok(0), Default, false)];
      assert first[1..][1..] == [Validate(a, Ok(0), Default, false)];
      RunOne(s2, Validate(a, Ok(0), Default, false));
      assert Run(s1, first[1..]) == s3;
    }
    RunAppend(s, first, rest);
    RunOne(s4, EndValidation);
    RunAppend(s, first + rest, [EndValidation]);
    events := first + rest + [EndValidation];
  }

  /** The restarted configurer validates `a` again, and its router starts an actor. */
  lemma StartsTooEarly(s: State, a: Group) returns (events: seq<Event>)
    requires IsInit(s) && s.restarts && a in s.controls && a != s.entry && a in s.routesValidation
    ensures var t := Run(s, events);
            && t.controls.Keys == s.controls.Keys && t.entry == s.entry && !t.succeeded && !t.panicked
            && t.everStarted == {a}
            && (forall b :: b in s.controls && b != a && b != s.entry ==> t.controls[b] == s.controls[b])
  {
    var before := OnlyOneAccepts(s, a);
    var t := Run(s, before);
    var t1 := Step(t, BeginAttempt(t.controls.Keys));
    assert t1.phase == Validating(t.controls.Keys, false);
    var again := Validate(a, Ok(0), Unicast(0), false);
    var t2 := Step(t1, again);
    assert t2.controls[a].actors == {0};
    RunOne(t, BeginAttempt(t.controls.Keys));
    RunOne(t1, again);
    RunAppend(t, [BeginAttempt(t.controls.Keys)], [again]);
    events := before + [BeginAttempt(t.controls.Keys), again];
    assert [BeginAttempt(t.controls.Keys)] + [again] == [BeginAttempt(t.controls.Keys), again];
    RunAppend(s, before, [BeginAttempt(t.controls.Keys), again]);
  }

  /**
   No run spawns an actor in a group without a config, unless a failed configurer is restarted
   while one group's router starts actors for validation requests and another group exists.
   */
  lemma NeverSpawnsUnconfiguredIff(s: State)
    requires IsInit(s)
    ensures (forall events: seq<Event> :: !Run(s, events).panicked) <==> !Risky(s)
  {
    if Risky(s) {
      var a, b :| a in s.controls && b in s.controls && a != b && a != s.entry && b != s.entry
                  && a in s.routesValidation;
      var events := StartsTooEarly(s, a);
      var t := Run(s, events);
      var e := Message(a, b, Unicast(0));
      assert SpawnPanics(t.controls[b], {0}) by { assert 0 in {0} - t.controls[b].actors; }
      RunOne(t, e);
      RunAppend(s, events, [e]);
      assert Run(s, events + [e]).panicked;
    } else {
      forall events: seq<Event>
        ensures !Run(s, events).panicked
      {
        RunKeeps(s, events);
      }
    }
  }

  /** As long as every validation was rejected, only the entrypoint runs, under the same proviso. */
  lemma RejectedStartsNothingIff(s: State)
    requires IsInit(s)
    ensures (forall events: seq<Event> :: var t := Run(s, events); !t.succeeded ==> t.everStarted <= {s.entry})
            <==> !(s.restarts && EarlyRouter(s))
  {
    if s.restarts && EarlyRouter(s) {
      var a :| a in s.controls && a != s.entry && a in s.routesValidation;
      var events := StartsTooEarly(s, a);
      assert a in Run(s, events).everStarted;
    } else {
      forall events: seq<Event>
        ensures var t := Run(s, events); !t.succeeded ==> t.everStarted <= {s.entry}
      {
        RunKeeps(s, events);
        GroupsAreFixed(s, events);
      }
    }
  }

  lemma {:induction false} GroupsAreFixed(s: State, events: seq<Event>)
    ensures var t := Run(s, events);
            t.controls.Keys == s.controls.Keys && t.entry == s.entry && t.restarts == s.restarts
            && t.routesValidation == s.routesValidation
    decreases |events|
  {
    if events != [] {
      StepKeepsGroups(s, events[0]);
      GroupsAreFixed(Step(s, events[0]), events[1..]);
    }
  }

  // === Stopping ===

  lemma StoppedStep(s: State, e: Event, g: Group)
    requires g in s.controls && s.controls[g].stopSpawning
    ensures var t := Step(s, e);
            g in t.controls && t.controls[g].stopSpawning && t.controls[g].actors <= s.controls[g].actors
  {
  }

  /** Once a group stopped spawning, no run starts an actor in it. */
  lemma {:induction false} StoppedSpawnsNothing(s: State, events: seq<Event>, g: Group)
    requires g in s.controls && s.controls[g].stopSpawning
    ensures var t := Run(s, events);
            g in t.controls && t.controls[g].stopSpawning && t.controls[g].actors <= s.controls[g].actors
    decreases |events|
  {
    if events != [] {
      StoppedStep(s, events[0], g);
      StoppedSpawnsNothing(Step(s, events[0]), events[1..], g);
    }
  }

  /** A termination that stops spawning leaves only the actors there are, in every continuation. */
  lemma TerminationStops(s: State, g: Group, routed: Outcome, events: seq<Event>)
    requires Enabled(s, Terminate(g, true, routed))
    ensures var t := Run(s, [Terminate(g, true, routed)] + events);
            g in t.controls && t.controls[g].actors <= s.controls[g].actors
  {
    var e := Terminate(g, true, routed);
    assert ([e] + events)[1..] == events;
    StoppedSpawnsNothing(Step(s, e), events, g);
  }

  // === Which config a group has ===

  function Updates(told: seq<Told>): nat {
    if told == [] then 0
    else Updates(told[..|told| - 1]) + if told[|told| - 1].UpdatedTo? then 1 else 0
  }

  predicate IsLastUpdate(told: seq<Told>, k: nat) {
    k < |told| && told[k].UpdatedTo? && forall j :: k < j < |told| ==> told[j].AskedAbout?
  }

  /**
   The first config a group is told of is the one it starts with, on the first update. From the
   second update on it has the config of the last one.
   */
  ghost predicate HasRightConfig(c: Control, told: seq<Told>) {
    && (c.isStarted <==> Updates(told) > 0)
    && (told == [] ==> c.userConfig == None)
    && (told != [] && Updates(told) <= 1 ==> c.userConfig == Some(told[0].config))
    && (Updates(told) >= 2 ==> exists k: nat :: IsLastUpdate(told, k) && c.userConfig == Some(told[k].config))
  }

  lemma AskedKeepsConfig(c: Control, told: seq<Told>, config: Config, routed: Outcome)
    requires HasRightConfig(c, told)
    ensures HasRightConfig(Validated(c, Ok(config), routed), told + [AskedAbout(config)])
  {
    var told' := told + [AskedAbout(config)];
    assert told'[..|told|] == told;
    if Updates(told) >= 2 {
      var k: nat :| IsLastUpdate(told, k) && c.userConfig == Some(told[k].config);
      assert IsLastUpdate(told', k);
    }
  }

  lemma UpdatedKeepsConfig(c: Control, told: seq<Told>, config: Config, routed: Outcome)
    requires HasRightConfig(c, told)
    ensures HasRightConfig(Updated(c, Ok(config), routed), told + [UpdatedTo(config)])
  {
    var told' := told + [UpdatedTo(config)];
    assert told'[..|told|] == told;
    if Updates(told) >= 1 { assert IsLastUpdate(told', |told|); }
  }

  ghost predicate AllHaveRightConfigs(s: State) {
    && s.told.Keys == s.controls.Keys
    && forall g :: g in s.controls ==> HasRightConfig(s.controls[g], s.told[g])
  }

  /** The group that is told something, if any. */
  function Target(s: State, e: Event): Option<Group> {
    match e
    case MountEntry(_, _) => Some(s.entry)
    case Validate(g, _, _, _) => Some(g)
    case Update(g, _, _) => Some(g)
    case _ => None
  }

  /** Only being told something changes the config of a group. */
  lemma OthersKeepConfig(s: State, e: Event, g: Group)
    requires g in s.controls && g in s.told && (!Enabled(s, e) || Target(s, e) != Some(g))
    ensures var t := Step(s, e);
            && g in t.controls && g in t.told && t.told[g] == s.told[g]
            && t.controls[g].userConfig == s.controls[g].userConfig && t.controls[g].isStarted == s.controls[g].isStarted
  {
  }

  lemma TargetKeepsConfig(s: State, e: Event, g: Group)
    requires g in s.controls && g in s.told && Enabled(s, e) && Target(s, e) == Some(g)
    requires HasRightConfig(s.controls[g], s.told[g])
    ensures var t := Step(s, e);
            g in t.controls && g in t.told && HasRightConfig(t.controls[g], t.told[g])
  {
    match e
    case MountEntry(config, routed) => UpdatedKeepsConfig(s.controls[g], s.told[g], config, routed);
    case Validate(_, decoded, routed, _) =>
      if decoded.Ok? { AskedKeepsConfig(s.controls[g], s.told[g], decoded.value, routed); }
    case Update(_, decoded, routed) =>
      if decoded.Ok? { UpdatedKeepsConfig(s.controls[g], s.told[g], decoded.value, routed); }
  }

  lemma SameConfigIsRight(c: Control, c': Control, told: seq<Told>)
    requires HasRightConfig(c, told) && c'.userConfig == c.userConfig && c'.isStarted == c.isStarted
    ensures HasRightConfig(c', told)
  {
  }

  lemma StepKeepsTold(s: State, e: Event)
    requires s.told.Keys == s.controls.Keys
    ensures Step(s, e).told.Keys == Step(s, e).controls.Keys
  {
  }

  lemma StepKeepsConfigs(s: State, e: Event)
    requires AllHaveRightConfigs(s)
    ensures AllHaveRightConfigs(Step(s, e))
  {
    var t := Step(s, e);
    StepKeepsGroups(s, e);
    StepKeepsTold(s, e);
    forall g | g in t.controls
      ensures HasRightConfig(t.controls[g], t.told[g])
    {
      if Enabled(s, e) && Target(s, e) == Some(g) {
        TargetKeepsConfig(s, e, g);
      } else {
        OthersKeepConfig(s, e, g);
        SameConfigIsRight(s.controls[g], t.controls[g], s.told[g]);
      }
    }
  }

  /** In every run the config of a group is the one its history says. */
  lemma {:induction false} RunKeepsConfigs(s: State, events: seq<Event>)
    requires AllHaveRightConfigs(s)
    ensures AllHaveRightConfigs(Run(s, events))
    decreases |events|
  {
    if events != [] {
      StepKeepsConfigs(s, events[0]);
      RunKeepsConfigs(Step(s, events[0]), events[1..]);
    }
  }

  lemma ConfigIsRight(s: State, events: seq<Event>, g: Group)
    requires IsInit(s) && g in s.controls
    ensures var t := Run(s, events);
            g in t.controls && g in t.told && HasRightConfig(t.controls[g], t.told[g])
  {
    RunKeepsConfigs(s, events);
    GroupsAreFixed(s, events);
  }

  /**
   After an update in any run the group has the new config exactly if it was started before, or this
   is the first config it is told of, or the first one was the same.
   */
  lemma UpdateTakesEffectIff(s: State, events: seq<Event>, g: Group, config: Config, routed: Outcome)
    requires IsInit(s) && Enabled(Run(s, events), Update(g, Ok(config), routed))
    ensures var t, t' := Run(s, events), Run(s, events + [Update(g, Ok(config), routed)]);
            && g in t.told && g in t'.controls
            && (t'.controls[g].userConfig == Some(config) <==>
                  Updates(t.told[g]) > 0 || t.told[g] == [] || t.told[g][0].config == config)
  {
    var t, e := Run(s, events), Update(g, Ok(config), routed);
    GroupsAreFixed(s, events);
    ConfigIsRight(s, events, g);
    RunOne(t, e);
    RunAppend(s, events, [e]);
    UpdatedHasIff(t.controls[g], t.told[g], config, routed);
  }

  lemma UpdatedHasIff(c: Control, told: seq<Told>, config: Config, routed: Outcome)
    requires HasRightConfig(c, told)
    ensures Updated(c, Ok(config), routed).userConfig == Some(config) <==>
            Updates(told) > 0 || told == [] || told[0].config == config
  {
    UpdatedKeepsConfig(c, told, config, routed);
    var told' := told + [UpdatedTo(config)];
    assert told'[..|told|] == told && told'[|told|] == UpdatedTo(config);
    assert forall k: nat :: IsLastUpdate(told', k) ==> k == |told|;
  }

  /** The rest of a validation in which every remaining group accepts the config 1. */
  lemma {:induction false} AcceptRest(s: State) returns (events: seq<Event>)
    requires s.phase.Validating? && s.phase.pending <= s.controls.Keys && s.entry in s.controls && !s.panicked
    ensures var t := Run(s, events);
            && t.controls.Keys == s.controls.Keys && t.entry == s.entry && !t.panicked
            && t.phase == Validating({}, s.phase.rejected)
            && (forall g :: g in s.controls && s.controls[g].userConfig.Some? ==> t.controls[g] == s.controls[g])
    decreases s.phase.pending
  {
    if s.phase.pending == {} {
      return [];
    }
    var g :| g in s.phase.pending;
    var e := Validate(g, Ok(1), Default, false);
    var s' := Step(s, e);
    assert s'.phase == Validating(s.phase.pending - {g}, s.phase.rejected);
    assert s.controls[g].userConfig.Some? ==> s'.controls[g].actors == s.controls[g].actors + {};
    var rest := AcceptRest(s');
    RunOne(s, e);
    RunAppend(s, [e], rest);
    events := [e] + rest;
  }

  /**
   A first attempt with the config 0 fails on another group. The restarted configurer succeeds with
   the config 1, on which all groups agree, but a group that had accepted 0 is started with that.
   */
  lemma StartsWithStaleConfig(s: State, a: Group) returns (events: seq<Event>)
    requires IsInit(s) && s.restarts && a in s.controls && a != s.entry
    ensures var t := Run(s, events);
            && t.succeeded && !t.panicked && a in t.controls && a in t.told
            && t.controls[a].isStarted && t.controls[a].userConfig == Some(0)
            && t.told[a] != [] && t.told[a][|t.told[a]| - 1] == UpdatedTo(1)
  {
    var first := OnlyOneAccepts(s, a);
    var t := Run(s, first);
    var t1 := Step(t, BeginAttempt(t.controls.Keys));
    var accept := AcceptRest(t1);
    var t2 := Run(t1, accept);
    var t3 := Step(t2, EndValidation);
    var t4 := Step(t3, Update(a, Ok(1), Default));
    assert t3.phase == Updating(t3.controls.Keys) && t3.succeeded;
    RunOne(t, BeginAttempt(t.controls.Keys));
    RunAppend(s, first, [BeginAttempt(t.controls.Keys)]);
    RunAppend(s, first + [BeginAttempt(t.controls.Keys)], accept);
    RunOne(t2, EndValidation);
    RunAppend(s, first + [BeginAttempt(t.controls.Keys)] + accept, [EndValidation]);
    events := first + [BeginAttempt(t.controls.Keys)] + accept + [EndValidation];
    RunOne(t3, Update(a, Ok(1), Default));
    RunAppend(s, events, [Update(a, Ok(1), Default)]);
    ConfigIsRight(s, events, a);
    events := events + [Update(a, Ok(1), Default)];
  }

  // === The supervisor as an object ===

  /** Whom the group's visitor is shown: nobody (handled here), listed actors, or all of them. */
  datatype Shown = Done(accepted: bool) | Listed(keys: seq<Key>) | Everyone

  /** The listed actors that exist, in the order of the list. */
  function Existing(keys: seq<Key>, actors: set<Key>): seq<Key> {
    if keys == [] then []
    else (if keys[0] in actors then [keys[0]] else []) + Existing(keys[1..], actors)
  }

  function Audience(c: Control, o: Outcome): Shown {
    match o
    case Unicast(key) => Listed(Existing([key], c.actors))
    case GentleUnicast(key) => Listed(Existing([key], c.actors))
    case Multicast(keys) => Listed(Existing(keys, c.actors))
    case GentleMulticast(keys) => Listed(Existing(keys, c.actors))
    case Broadcast => Everyone
    case Discard => Listed([])
    case Default => Listed([])
  }

  predicate Addressed(o: Outcome, key: Key) {
    match o
    case Unicast(k) => k == key
    case GentleUnicast(k) => k == key
    case Multicast(keys) => key in keys
    case GentleMulticast(keys) => key in keys
    case Broadcast => true
    case _ => false
  }

  predicate IsShownTo(shown: Shown, actors: set<Key>, key: Key) {
    match shown
    case Done(_) => false
    case Listed(keys) => key in keys
    case Everyone => key in actors
  }

  lemma {:induction false} ExistingHolds(keys: seq<Key>, actors: set<Key>, key: Key)
    ensures multiset(Existing(keys, actors))[key] == if key in actors then multiset(keys)[key] else 0
    ensures key in Existing(keys, actors) <==> key in keys && key in actors
  {
    if keys != [] {
      assert keys == [keys[0]] + keys[1..];
      ExistingHolds(keys[1..], actors, key);
    }
  }

  /** A message is shown exactly to the addressed actors there are. */
  lemma AudienceIsAddressed(c: Control, o: Outcome)
    ensures forall key :: IsShownTo(Audience(c, o), c.actors, key) <==> Addressed(o, key) && key in c.actors
  {
    forall key
      ensures IsShownTo(Audience(c, o), c.actors, key) <==> Addressed(o, key) && key in c.actors
    {
      match o
      case Unicast(k) => ExistingHolds([k], c.actors, key);
      case GentleUnicast(k) => ExistingHolds([k], c.actors, key);
      case Multicast(keys) => ExistingHolds(keys, c.actors, key);
      case GentleMulticast(keys) => ExistingHolds(keys, c.actors, key);
      case _ =>
    }
  }

  class Supervisor {
    var userConfig: Option<Config>
    var isStarted: bool
    var stopSpawning: bool
    var objects: set<Key>

    function View(): Control
      reads this
    {
      Control(userConfig, isStarted, stopSpawning, objects)
    }

    constructor ()
      ensures View() == Control(None, false, false, {})
    {
      userConfig, isStarted, stopSpawning, objects := None, false, false, {};
    }

    /** Spawns the actor unless it exists; the source panics without a config. */
    method GetOrSpawn(key: Key)
      requires !SpawnPanics(View(), {key})
      modifies this`objects
      ensures View() == Spawned(old(View()), {key}) || (key in old(objects) && View() == old(View()))
      ensures key in objects <==> key in old(objects) || !stopSpawning
    {
      if key in objects {
        return;
      }
      assert key in {key} - objects;
      if stopSpawning {
        return;
      }
      objects := objects + {key};
    }

    method GetOrSpawnAll(keys: seq<Key>)
      requires userConfig.Some? || stopSpawning || forall k :: k in keys ==> k in objects
      modifies this`objects
      ensures stopSpawning || userConfig == None ==> View() == old(View())
      ensures !stopSpawning && userConfig.Some? ==> objects == old(objects) + set k | k in keys
    {
      var i := 0;
      while i < |keys|
        invariant 0 <= i <= |keys|
        invariant stopSpawning || userConfig == None ==> objects == old(objects)
        invariant !stopSpawning && userConfig.Some? ==> objects == old(objects) + set k | k in keys[..i]
      {
        assert keys[..i + 1] == keys[..i] + [keys[i]];
        if keys[i] !in objects {
          GetOrSpawn(keys[i]);
        }
        i := i + 1;
      }
      assert keys[..i] == keys;
    }

    /** The common end of `handle`: make sure the wanted actors exist and show the existing ones. */
    method Route(outcome: Outcome) returns (shown: Shown)
      requires !SpawnPanics(View(), Wanted(outcome))
      modifies this`objects
      ensures View() == Routed(old(View()), outcome) && shown == Audience(View(), outcome)
      ensures forall key :: IsShownTo(shown, objects, key) <==> Addressed(outcome, key) && key in objects
      ensures forall key :: key in objects <==>
                key in old(objects)
                || ((outcome.Unicast? || outcome.Multicast?) && Addressed(outcome, key) && !stopSpawning && userConfig.Some?)
    {
      match outcome {
        case Unicast(key) =>
          if userConfig == None && !stopSpawning {
            EmptyDifference({key}, objects);
          }
          GetOrSpawnAll([key]);
          assert (set k | k in [key]) == {key};
        case Multicast(keys) =>
          if userConfig == None && !stopSpawning {
            EmptyDifference(Wanted(outcome), objects);
            assert forall k :: k in keys ==> k in Wanted(outcome);
          }
          GetOrSpawnAll(keys);
        case _ =>
      }
      shown := Audience(View(), outcome);
      AudienceIsAddressed(View(), outcome);
    }

    method HandleValidate(decoded: Result<Config, Reason>, routed: Outcome) returns (shown: Shown)
      modifies this`userConfig, this`objects
      ensures View() == Validated(old(View()), decoded, routed)
      ensures decoded.Err? ==> shown == Done(false)
      ensures decoded.Ok? && old(userConfig) == None ==> shown == Done(true)
      ensures decoded.Ok? && old(userConfig).Some? ==> shown == Audience(View(), Or(routed, Discard))
      ensures userConfig ==
              if decoded.Ok? && old(userConfig) == None then Some(decoded.value) else old(userConfig)
      ensures decoded.Ok? && old(userConfig).Some? ==>
                forall key :: IsShownTo(shown, objects, key) <==> Addressed(routed, key) && key in objects
      ensures decoded.Ok? && old(userConfig) == None ==> objects == old(objects)
    {
      if decoded.Err? {
        return Done(false);
      }
      if userConfig == None {
        userConfig := Some(decoded.value);
        return Done(true);
      }
      shown := Route(Or(routed, Discard));
    }

    method HandleUpdate(decoded: Result<Config, Reason>, routed: Outcome) returns (shown: Shown)
      modifies this`userConfig, this`isStarted, this`objects
      ensures View() == Updated(old(View()), decoded, routed)
      ensures decoded.Err? ==> shown == Done(false)
      ensures decoded.Ok? && !old(isStarted) ==> shown == Done(true)
      ensures decoded.Ok? && old(isStarted) ==> shown == Audience(View(), Or(routed, Broadcast))
      ensures decoded.Ok? && old(isStarted) ==> userConfig == Some(decoded.value)
      ensures decoded.Ok? && !old(isStarted) ==>
                userConfig == if old(userConfig).Some? then old(userConfig) else Some(decoded.value)
      ensures decoded.Ok? ==> isStarted
      ensures decoded.Ok? && old(isStarted) ==>
                forall key :: IsShownTo(shown, objects, key) <==>
                  (routed == Default || Addressed(routed, key)) && key in objects
    {
      if decoded.Err? {
        return Done(false);
      }
      var onlySpawn := !isStarted;
      if !onlySpawn || userConfig == None {
        userConfig := Some(decoded.value);
      }
      isStarted := true;
      if onlySpawn {
        shown := Route(routed);
        return Done(true);
      }
      shown := Route(Or(routed, Broadcast));
    }
  }
}
