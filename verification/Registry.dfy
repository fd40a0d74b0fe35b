/**
 Remote handles: which local object stands for a group of actors on another node. Registrations and
 the drops of their guards overlap; every update of a map is atomic, a registration or a drop is not.
 */
module Registry {
  import opened Prelude

  // === Addresses and keys ===

  type GroupNo = x: int | 1 <= x < 0x100 witness 1
  type NodeNo = x: int | 1 <= x < 0x1_0000 witness 1
  type Slot = x: int | 0 <= x < 0x100_0000_0000
  type Addr = x: int | 0 <= x < 0x1_0000_0000_0000_0000

  const GROUP_NO_UNIT := 0x100_0000_0000
  const NODE_NO_UNIT := 0x1_0000_0000_0000

  function LocalAddr(group: GroupNo, slot: Slot): Addr {
    group * GROUP_NO_UNIT + slot
  }

  predicate IsLocal(a: Addr) {
    a != 0 && a / NODE_NO_UNIT == 0
  }

  function IntoRemote(a: Addr, node: NodeNo): Addr {
    if IsLocal(a) then a + node * NODE_NO_UNIT else a
  }

  function IntoLocal(a: Addr): Addr {
    a % NODE_NO_UNIT
  }

  function NodeOf(a: Addr): int {
    a / NODE_NO_UNIT
  }

  function GroupOf(a: Addr): int {
    (a / GROUP_NO_UNIT) % 0x100
  }

  function NodeNoGroupNo(a: Addr): int {
    (a / GROUP_NO_UNIT) % 0x1_0000_0000
  }

  /** Taking an address to another node and back; the parts stay where they are. */
  lemma AddrRoundTrip(group: GroupNo, slot: Slot, node: NodeNo)
    ensures var a := LocalAddr(group, slot);
            && IsLocal(a) && GroupOf(a) == group
            && var r := IntoRemote(a, node);
               IntoLocal(r) == a && NodeOf(r) == node && GroupOf(r) == group && IntoRemote(r, node) == r
  {
    var a := LocalAddr(group, slot);
    var r := IntoRemote(a, node);
    assert a / GROUP_NO_UNIT == group;
    assert r == node * NODE_NO_UNIT + a;
    assert r / GROUP_NO_UNIT == node * 0x100 + group;
  }

  /** The key under which a registration is stored. */
  function KeyOf(local: GroupNo, node: NodeNo, group: GroupNo): int {
    local * 0x1_0000_0000 + node * 0x100 + group
  }

  /** The key under which an actor looks for a remote address. */
  function LookupKey(actor: Addr, remote: Addr): int {
    NodeNoGroupNo(actor) * 0x1_0000_0000 + NodeNoGroupNo(remote)
  }

  /** The two keys agree exactly when all three parts do. */
  lemma KeysAgreeIff(actor: Addr, remote: Addr, local: GroupNo, node: NodeNo, group: GroupNo)
    requires IsLocal(actor)
    ensures LookupKey(actor, remote) == KeyOf(local, node, group) <==>
            GroupOf(actor) == local && NodeOf(remote) == node && GroupOf(remote) == group
  {
    var l, r := NodeNoGroupNo(actor), NodeNoGroupNo(remote);
    NodeAndGroup(actor);
    NodeAndGroup(remote);
    HighAndLow(l, r, local, node * 0x100 + group);
    NodeThenGroup(NodeOf(remote), GroupOf(remote), node, group);
  }

  lemma NodeAndGroup(a: Addr)
    ensures NodeNoGroupNo(a) == NodeOf(a) * 0x100 + GroupOf(a) < 0x100_0000
  {
  }

  /** Numbers below the unit do not run into the part above it. */
  lemma HighAndLow(a: int, b: int, x: int, y: int)
    requires 0 <= b < 0x1_0000_0000 && 0 <= y < 0x1_0000_0000
    ensures a * 0x1_0000_0000 + b == x * 0x1_0000_0000 + y <==> a == x && b == y
  {
  }

  lemma NodeThenGroup(a: int, b: int, x: int, y: int)
    requires 0 <= b < 0x100 && 0 <= y < 0x100
    ensures a * 0x100 + b == x * 0x100 + y <==> a == x && b == y
  {
  }

  // === Registrations ===

  /** How far a registration, and later the drop of its guard, got. */
  datatype Phase = Booked | Live | Unbooked | ObjectRemoved | Gone

  type Actor = nat
  type Handle = nat
  type Route = nat   // the nodes map between a local group and the remote groups of one name, if there is one

  datatype Registration = Registration(
    actor: Actor, local: GroupNo, node: NodeNo, group: GroupNo, route: Option<Route>, handle: Handle, phase: Phase)

  function Key(r: Registration): int {
    KeyOf(r.local, r.node, r.group)
  }

  predicate Active(r: Registration) {
    r.phase.Booked? || r.phase.Live?
  }

  datatype State = State(
    regs: seq<Registration>,            // in the order in which they were booked
    published: seq<nat>,                // those with a route, in the order in which they were published
    book: map<int, Handle>,
    fallback: map<Actor, Handle>,
    nodes: map<(Route, NodeNo), Handle>,
    unbookings: seq<Unbooking>)         // in the order in which they happened

  /** Which registration was unbooked, and how many had been booked by then. */
  datatype Unbooking = Unbooking(i: nat, booked: nat)

  const INITIAL := State([], [], map[], map[], map[], [])

  datatype Event =
    | Book(reg: Registration)
    | Publish(i: nat)
    | Unbook(i: nat)
    | RemoveObject(i: nat)
    | Unpublish(i: nat)

  /** Handles are not given out again before their guards are dropped. */
  predicate HandleIsFree(s: State, h: Handle) {
    forall i :: 0 <= i < |s.regs| && s.regs[i].handle == h ==> s.regs[i].phase.Gone?
  }

  function WithPhase(s: State, i: nat, phase: Phase): State
    requires i < |s.regs|
  {
    s.(regs := s.regs[i := s.regs[i].(phase := phase)])
  }

  function Without<K, V(==)>(m: map<K, V>, k: K, v: V): map<K, V> {
    if k in m && m[k] == v then m - {k} else m
  }

  function Step(s: State, ev: Event): State {
    match ev
    case Book(r) =>
      if !HandleIsFree(s, r.handle) then s
      else s.(regs := s.regs + [r.(phase := Booked)], book := s.book[Key(r) := r.handle],
              fallback := s.fallback[r.actor := r.handle])
    case Publish(i) =>
      if i >= |s.regs| || !s.regs[i].phase.Booked? then s
      else
        var r, t := s.regs[i], WithPhase(s, i, Live);
        if r.route.None? then t
        else t.(published := s.published + [i], nodes := s.nodes[(r.route.value, r.node) := r.handle])
    case Unbook(i) =>
      if i >= |s.regs| || !s.regs[i].phase.Live? then s
      else
        var r := s.regs[i];
        WithPhase(s, i, Unbooked).(book := Without(s.book, Key(r), r.handle), fallback := s.fallback - {r.actor},
                                   unbookings := s.unbookings + [Unbooking(i, |s.regs|)])
    case RemoveObject(i) =>
      if i >= |s.regs| || !s.regs[i].phase.Unbooked? then s else WithPhase(s, i, ObjectRemoved)
    case Unpublish(i) =>
      if i >= |s.regs| || !s.regs[i].phase.ObjectRemoved? then s
      else
        var r, t := s.regs[i], WithPhase(s, i, Gone);
        if r.route.None? then t else t.(nodes := Without(s.nodes, (r.route.value, r.node), r.handle))
  }

  function Run(s: State, events: seq<Event>): State
    decreases |events|
  {
    if events == [] then s else Run(Step(s, events[0]), events[1..])
  }

  // === The latest registration ===

  function Latest(regs: seq<Registration>, key: int): Option<nat> {
    if regs == [] then None
    else if Key(regs[|regs| - 1]) == key then Some(|regs| - 1)
    else Latest(regs[..|regs| - 1], key)
  }

  lemma {:induction false} LatestIsLast(regs: seq<Registration>, key: int)
    ensures match Latest(regs, key)
            case None => forall j :: 0 <= j < |regs| ==> Key(regs[j]) != key
            case Some(i) => i < |regs| && Key(regs[i]) == key && forall j :: i < j < |regs| ==> Key(regs[j]) != key
  {
    if regs != [] { LatestIsLast(regs[..|regs| - 1], key); }
  }

  predicate Routes(regs: seq<Registration>, i: nat, at: (Route, NodeNo)) {
    i < |regs| && regs[i].route == Some(at.0) && regs[i].node == at.1
  }

  function LatestRoute(regs: seq<Registration>, published: seq<nat>, at: (Route, NodeNo)): Option<nat> {
    if published == [] then None
    else if Routes(regs, published[|published| - 1], at) then Some(published[|published| - 1])
    else LatestRoute(regs, published[..|published| - 1], at)
  }

  lemma {:induction false} LatestRouteIsPublished(regs: seq<Registration>, published: seq<nat>, at: (Route, NodeNo))
    ensures match LatestRoute(regs, published, at)
            case None => forall j :: 0 <= j < |published| ==> !Routes(regs, published[j], at)
            case Some(i) => i in published && Routes(regs, i, at)
  {
    if published != [] { LatestRouteIsPublished(regs, published[..|published| - 1], at); }
  }

  /** Only phases differ. */
  ghost predicate SameButPhases(a: seq<Registration>, b: seq<Registration>) {
    |a| <= |b| && forall i :: 0 <= i < |a| ==> a[i] == b[i].(phase := a[i].phase)
  }

  lemma {:induction false} PhasesDoNotMatter(a: seq<Registration>, b: seq<Registration>, key: int)
    requires SameButPhases(a, b) && |a| == |b|
    ensures Latest(a, key) == Latest(b, key)
  {
    if a != [] { PhasesDoNotMatter(a[..|a| - 1], b[..|b| - 1], key); }
  }

  lemma {:induction false} PhasesDoNotRoute(a: seq<Registration>, b: seq<Registration>, published: seq<nat>, at: (Route, NodeNo))
    requires SameButPhases(a, b) && forall j :: 0 <= j < |published| ==> published[j] < |a|
    ensures LatestRoute(a, published, at) == LatestRoute(b, published, at)
  {
    if published != [] { PhasesDoNotRoute(a, b, published[..|published| - 1], at); }
  }

  // === Invariants ===

  ghost predicate DistinctHandles(s: State) {
    forall i, j :: 0 <= i < j < |s.regs| && !s.regs[i].phase.Gone? && !s.regs[j].phase.Gone? ==>
      s.regs[i].handle != s.regs[j].handle
  }

  /** No other registration in use has this handle. */
  ghost predicate OwnHandle(s: State, i: nat)
    requires i < |s.regs|
  {
    forall j :: 0 <= j < |s.regs| && j != i && !s.regs[j].phase.Gone? ==> s.regs[j].handle != s.regs[i].handle
  }

  lemma HandleIsOwn(s: State, i: nat)
    requires DistinctHandles(s) && i < |s.regs| && !s.regs[i].phase.Gone?
    ensures OwnHandle(s, i)
  {
    forall j | 0 <= j < |s.regs| && j != i && !s.regs[j].phase.Gone?
      ensures s.regs[j].handle != s.regs[i].handle
    {
      if j < i { assert s.regs[j].handle != s.regs[i].handle; }
    }
  }

  /** What the book says about a key. */
  function BookEntry(s: State, key: int): Option<Handle> {
    var i := Latest(s.regs, key);
    LatestIsLast(s.regs, key);
    if i.Some? && Active(s.regs[i.value]) then Some(s.regs[i.value].handle) else None
  }

  function Find<K, V>(m: map<K, V>, k: K): Option<V> {
    if k in m then Some(m[k]) else None
  }

  ghost predicate BookIsRight(s: State) {
    forall key: int :: Find(s.book, key) == BookEntry(s, key)
  }

  function NodeEntry(s: State, at: (Route, NodeNo)): Option<Handle> {
    var i := LatestRoute(s.regs, s.published, at);
    LatestRouteIsPublished(s.regs, s.published, at);
    if i.Some? && !s.regs[i.value].phase.Gone? then Some(s.regs[i.value].handle) else None
  }

  ghost predicate NodesAreRight(s: State) {
    PublishedAreThere(s) && forall at: (Route, NodeNo) :: Find(s.nodes, at) == NodeEntry(s, at)
  }

  ghost predicate PublishedAreThere(s: State) {
    forall j :: 0 <= j < |s.published| ==> s.published[j] < |s.regs| && !s.regs[s.published[j]].phase.Booked?
  }

  /** The fallback of an actor is the handle of an active registration by that actor. */
  ghost predicate FallbackIsActive(s: State) {
    forall a :: a in s.fallback ==> HasActiveOf(s, a, s.fallback[a])
  }

  ghost predicate HasActiveOf(s: State, a: Actor, h: Handle) {
    exists i :: 0 <= i < |s.regs| && s.regs[i].actor == a && s.regs[i].handle == h && Active(s.regs[i])
  }

  ghost predicate Inv(s: State) {
    DistinctHandles(s) && BookIsRight(s) && NodesAreRight(s) && FallbackIsActive(s)
  }

  lemma SameActivitySameEntry(s: State, t: State, key: int)
    requires SameButPhases(s.regs, t.regs) && |s.regs| == |t.regs|
    requires forall i :: 0 <= i < |s.regs| ==> (Active(s.regs[i]) <==> Active(t.regs[i]))
    ensures BookEntry(s, key) == BookEntry(t, key)
  {
    PhasesDoNotMatter(s.regs, t.regs, key);
    LatestIsLast(s.regs, key);
  }

  lemma BookKeepsEntry(s: State, r: Registration, key: int)
    requires HandleIsFree(s, r.handle) && Find(s.book, key) == BookEntry(s, key)
    ensures var t := Step(s, Book(r)); Find(t.book, key) == BookEntry(t, key)
  {
    assert Step(s, Book(r)).regs[..|s.regs|] == s.regs;
    LatestIsLast(s.regs, key);
  }

  lemma UnbookKeepsEntry(s: State, i: nat, key: int)
    requires i < |s.regs| && s.regs[i].phase.Live? && OwnHandle(s, i) && Find(s.book, key) == BookEntry(s, key)
    ensures var t := Step(s, Unbook(i)); Find(t.book, key) == BookEntry(t, key)
  {
    var t := Step(s, Unbook(i));
    PhasesDoNotMatter(s.regs, t.regs, key);
    LatestIsLast(s.regs, key);
    var latest := Latest(s.regs, key);
    if latest.Some? && latest.value != i {
      assert Active(s.regs[latest.value]) ==> s.regs[latest.value].handle != s.regs[i].handle;
    }
  }

  lemma StepKeepsBook(s: State, ev: Event)
    requires DistinctHandles(s) && BookIsRight(s)
    ensures BookIsRight(Step(s, ev))
  {
    var t := Step(s, ev);
    forall key: int
      ensures Find(t.book, key) == BookEntry(t, key)
    {
      assert Find(s.book, key) == BookEntry(s, key);
      if t != s {
        match ev
        case Book(r) => BookKeepsEntry(s, r, key);
        case Unbook(i) =>
          HandleIsOwn(s, i);
          UnbookKeepsEntry(s, i, key);
        case _ => OtherKeepsEntry(s, ev, key);
      }
    }
  }

  lemma OtherKeepsEntry(s: State, ev: Event, key: int)
    requires !ev.Book? && !ev.Unbook?
    ensures Step(s, ev).book == s.book && BookEntry(Step(s, ev), key) == BookEntry(s, key)
  {
    var t := Step(s, ev);
    assert SameButPhases(s.regs, t.regs) && |s.regs| == |t.regs|;
    SameActivitySameEntry(s, t, key);
  }

  /** Publishing and unpublishing aside, the nodes stay what they were. */
  lemma SameNodesSameEntry(s: State, t: State, at: (Route, NodeNo))
    requires SameButPhases(s.regs, t.regs) && t.published == s.published
    requires forall j :: 0 <= j < |s.published| ==> s.published[j] < |s.regs|
    requires forall i :: 0 <= i < |s.regs| ==> (s.regs[i].phase.Gone? <==> t.regs[i].phase.Gone?)
    ensures NodeEntry(s, at) == NodeEntry(t, at)
  {
    PhasesDoNotRoute(s.regs, t.regs, s.published, at);
    LatestRouteIsPublished(s.regs, s.published, at);
  }

  lemma PublishKeepsEntry(s: State, i: nat, at: (Route, NodeNo))
    requires i < |s.regs| && s.regs[i].phase.Booked? && Find(s.nodes, at) == NodeEntry(s, at)
    requires forall j :: 0 <= j < |s.published| ==> s.published[j] < |s.regs|
    ensures var t := Step(s, Publish(i)); Find(t.nodes, at) == NodeEntry(t, at)
  {
    var t := Step(s, Publish(i));
    PhasesDoNotRoute(s.regs, t.regs, s.published, at);
    LatestRouteIsPublished(s.regs, s.published, at);
    if t.published != s.published { assert t.published[..|s.published|] == s.published; }
  }

  lemma UnpublishKeepsEntry(s: State, i: nat, at: (Route, NodeNo))
    requires i < |s.regs| && s.regs[i].phase.ObjectRemoved? && OwnHandle(s, i) && Find(s.nodes, at) == NodeEntry(s, at)
    requires forall j :: 0 <= j < |s.published| ==> s.published[j] < |s.regs|
    ensures var t := Step(s, Unpublish(i)); Find(t.nodes, at) == NodeEntry(t, at)
  {
    var t := Step(s, Unpublish(i));
    PhasesDoNotRoute(s.regs, t.regs, s.published, at);
    LatestRouteIsPublished(s.regs, s.published, at);
    var latest := LatestRoute(s.regs, s.published, at);
    if latest.Some? && latest.value != i {
      assert !s.regs[latest.value].phase.Gone? ==> s.regs[latest.value].handle != s.regs[i].handle;
    }
  }

  lemma StepKeepsNodes(s: State, ev: Event)
    requires DistinctHandles(s) && NodesAreRight(s)
    ensures NodesAreRight(Step(s, ev))
  {
    var t := Step(s, ev);
    forall at: (Route, NodeNo)
      ensures Find(t.nodes, at) == NodeEntry(t, at)
    {
      assert Find(s.nodes, at) == NodeEntry(s, at);
      if t != s {
        match ev
        case Publish(i) => PublishKeepsEntry(s, i, at);
        case Unpublish(i) =>
          HandleIsOwn(s, i);
          UnpublishKeepsEntry(s, i, at);
        case _ => OtherKeepsNodeEntry(s, ev, at);
      }
    }
    StepKeepsPublished(s, ev);
  }

  lemma OtherKeepsNodeEntry(s: State, ev: Event, at: (Route, NodeNo))
    requires !ev.Publish? && !ev.Unpublish? && forall j :: 0 <= j < |s.published| ==> s.published[j] < |s.regs|
    ensures Step(s, ev).nodes == s.nodes && NodeEntry(Step(s, ev), at) == NodeEntry(s, at)
  {
    SameNodesSameEntry(s, Step(s, ev), at);
  }

  lemma StepKeepsPublished(s: State, ev: Event)
    requires PublishedAreThere(s)
    ensures PublishedAreThere(Step(s, ev))
  {
  }

  lemma StepKeepsDistinct(s: State, ev: Event)
    requires DistinctHandles(s)
    ensures DistinctHandles(Step(s, ev))
  {
    var t := Step(s, ev);
    if t != s && !ev.Book? {
      assert forall i :: 0 <= i < |s.regs| ==> t.regs[i].handle == s.regs[i].handle
                                               && (s.regs[i].phase.Gone? ==> t.regs[i].phase.Gone?);
    }
  }

  lemma StepKeepsFallback(s: State, ev: Event)
    requires FallbackIsActive(s)
    ensures FallbackIsActive(Step(s, ev))
  {
    var t := Step(s, ev);
    forall a | a in t.fallback
      ensures HasActiveOf(t, a, t.fallback[a])
    {
      if ev.Book? && t != s && a == ev.reg.actor {
        assert t.regs[|s.regs|].actor == a;
      } else {
        assert HasActiveOf(s, a, s.fallback[a]);
        var i :| 0 <= i < |s.regs| && s.regs[i].actor == a && s.regs[i].handle == s.fallback[a] && Active(s.regs[i]);
        StaysActive(s, ev, a, i);
      }
    }
  }

  /** A registration stays active as long as its actor stays in the fallback. */
  lemma StaysActive(s: State, ev: Event, a: Actor, i: nat)
    requires i < |s.regs| && s.regs[i].actor == a && Active(s.regs[i]) && a in Step(s, ev).fallback
    ensures var t := Step(s, ev);
            i < |t.regs| && t.regs[i].actor == a && t.regs[i].handle == s.regs[i].handle && Active(t.regs[i])
  {
  }

  lemma {:induction false} RunKeeps(s: State, events: seq<Event>)
    requires Inv(s)
    ensures Inv(Run(s, events))
    decreases |events|
  {
    if events != [] {
      StepKeepsBook(s, events[0]);
      StepKeepsNodes(s, events[0]);
      StepKeepsDistinct(s, events[0]);
      StepKeepsFallback(s, events[0]);
      RunKeeps(Step(s, events[0]), events[1..]);
    }
  }

  // === Theorems ===

  /** What `get` finds: by key, otherwise by the actor itself. */
  function Found(book: map<int, Handle>, fallback: map<Actor, Handle>, actor: Actor, key: int): Option<Handle> {
    if key in book then Some(book[key]) else Find(fallback, actor)
  }

  /**
   In every run of overlapping registrations and guard drops: the book holds the latest
   registration of a key exactly while it is active, so it is found under a key exactly then, and
   whatever is found, by key or by actor, is the handle of an active registration.
   */
  lemma LookupFindsLatest(events: seq<Event>, actor: Addr, self: Actor, remote: Addr)
    requires IsLocal(actor)
    ensures var s := Run(INITIAL, events);
            var key := LookupKey(actor, remote);
            var found := Found(s.book, s.fallback, self, key);
            && (BookEntry(s, key).Some? ==> found == BookEntry(s, key))
            && (BookEntry(s, key).None? ==> found == Find(s.fallback, self))
            && (found.Some? ==> HasActive(s, found.value))
            && (forall i :: 0 <= i < |s.regs| && Key(s.regs[i]) == key ==>
                  s.regs[i].local == GroupOf(actor) && s.regs[i].node == NodeOf(remote) && s.regs[i].group == GroupOf(remote))
  {
    RunKeeps(INITIAL, events);
    var s := Run(INITIAL, events);
    var key := LookupKey(actor, remote);
    LatestIsLast(s.regs, key);
    assert Find(s.book, key) == BookEntry(s, key);
    if key !in s.book && self in s.fallback { assert HasActiveOf(s, self, s.fallback[self]); }
    forall i | 0 <= i < |s.regs| && Key(s.regs[i]) == key
      ensures s.regs[i].local == GroupOf(actor) && s.regs[i].node == NodeOf(remote) && s.regs[i].group == GroupOf(remote)
    {
      KeysAgreeIff(actor, remote, s.regs[i].local, s.regs[i].node, s.regs[i].group);
    }
  }

  ghost predicate HasActive(s: State, h: Handle) {
    exists i :: 0 <= i < |s.regs| && s.regs[i].handle == h && Active(s.regs[i])
  }

  /** The routing map holds, for each node, the handle published last, exactly until its guard is dropped. */
  lemma RoutingFindsLatest(events: seq<Event>, at: (Route, NodeNo))
    ensures var s := Run(INITIAL, events);
            && (at in s.nodes <==> NodeEntry(s, at).Some?)
            && (at in s.nodes ==> s.nodes[at] == NodeEntry(s, at).value)
  {
    RunKeeps(INITIAL, events);
    var s := Run(INITIAL, events);
    assert Find(s.nodes, at) == NodeEntry(s, at);
  }

  // === The fallback ===

  /** No actor has two active registrations. */
  ghost predicate OnePerActor(s: State) {
    forall i, j :: 0 <= i < j < |s.regs| && Active(s.regs[i]) && Active(s.regs[j]) ==> s.regs[i].actor != s.regs[j].actor
  }

  /** While actors register one after another, an actor with an active registration is found. */
  ghost predicate FallbackIsComplete(s: State) {
    forall i :: 0 <= i < |s.regs| && Active(s.regs[i]) ==>
      s.regs[i].actor in s.fallback && s.fallback[s.regs[i].actor] == s.regs[i].handle
  }

  ghost predicate AlwaysOnePerActor(s: State, events: seq<Event>)
    decreases |events|
  {
    OnePerActor(s) && (events != [] ==> AlwaysOnePerActor(Step(s, events[0]), events[1..]))
  }

  lemma {:induction false} FallbackFinds(s: State, events: seq<Event>)
    requires FallbackIsComplete(s) && AlwaysOnePerActor(s, events)
    ensures FallbackIsComplete(Run(s, events))
    decreases |events|
  {
    if events != [] {
      var t := Step(s, events[0]);
      assert OnePerActor(t);
      assert FallbackIsComplete(t) by { StepCompletes(s, events[0]); }
      FallbackFinds(t, events[1..]);
    }
  }

  lemma StepCompletes(s: State, ev: Event)
    requires FallbackIsComplete(s) && OnePerActor(s) && OnePerActor(Step(s, ev))
    ensures FallbackIsComplete(Step(s, ev))
  {
    var t := Step(s, ev);
    forall i | 0 <= i < |t.regs| && Active(t.regs[i])
      ensures t.regs[i].actor in t.fallback && t.fallback[t.regs[i].actor] == t.regs[i].handle
    {
      if i < |s.regs| {
        assert Active(s.regs[i]) && t.regs[i].actor == s.regs[i].actor && t.regs[i].handle == s.regs[i].handle;
        if ev.Book? && t != s { assert Active(t.regs[|s.regs|]); }
      }
    }
  }

  /** The latest registration by an actor. */
  function LatestBy(regs: seq<Registration>, a: Actor): Option<nat> {
    if regs == [] then None
    else if regs[|regs| - 1].actor == a then Some(|regs| - 1)
    else LatestBy(regs[..|regs| - 1], a)
  }

  lemma {:induction false} LatestByIsLast(regs: seq<Registration>, a: Actor)
    ensures match LatestBy(regs, a)
            case None => forall j :: 0 <= j < |regs| ==> regs[j].actor != a
            case Some(i) => i < |regs| && regs[i].actor == a && forall j :: i < j < |regs| ==> regs[j].actor != a
  {
    if regs != [] { LatestByIsLast(regs[..|regs| - 1], a); }
  }

  lemma {:induction false} PhasesDoNotMatterBy(x: seq<Registration>, y: seq<Registration>, a: Actor)
    requires SameButPhases(x, y) && |x| == |y|
    ensures LatestBy(x, a) == LatestBy(y, a)
  {
    if x != [] { PhasesDoNotMatterBy(x[..|x| - 1], y[..|y| - 1], a); }
  }

  /** One of the actor's registrations was unbooked when the k-th had been booked. */
  predicate UnbookedSince(s: State, a: Actor, k: nat) {
    exists u :: 0 <= u < |s.unbookings| && IsBy(s, s.unbookings[u].i, a) && s.unbookings[u].booked > k
  }

  predicate IsBy(s: State, i: nat, a: Actor) {
    i < |s.regs| && s.regs[i].actor == a
  }

  /** What the fallback says about an actor. */
  function FallbackEntry(s: State, a: Actor): Option<Handle> {
    var k := LatestBy(s.regs, a);
    LatestByIsLast(s.regs, a);
    if k.Some? && !UnbookedSince(s, a, k.value) then Some(s.regs[k.value].handle) else None
  }

  ghost predicate FallbackIsRight(s: State) {
    && (forall u :: 0 <= u < |s.unbookings| ==> s.unbookings[u].i < |s.regs| && s.unbookings[u].booked <= |s.regs|)
    && forall a: Actor :: Find(s.fallback, a) == FallbackEntry(s, a)
  }

  lemma BookKeepsFallbackEntry(s: State, r: Registration, a: Actor)
    requires HandleIsFree(s, r.handle) && FallbackIsRight(s)
    ensures var t := Step(s, Book(r)); Find(t.fallback, a) == FallbackEntry(t, a)
  {
    var t := Step(s, Book(r));
    assert t.regs[..|s.regs|] == s.regs;
    LatestByIsLast(s.regs, a);
    assert Find(s.fallback, a) == FallbackEntry(s, a);
    assert forall u :: 0 <= u < |s.unbookings| ==> (IsBy(t, s.unbookings[u].i, a) <==> IsBy(s, s.unbookings[u].i, a));
  }

  lemma UnbookKeepsFallbackEntry(s: State, i: nat, a: Actor)
    requires i < |s.regs| && s.regs[i].phase.Live? && FallbackIsRight(s)
    ensures var t := Step(s, Unbook(i)); Find(t.fallback, a) == FallbackEntry(t, a)
  {
    var t := Step(s, Unbook(i));
    PhasesDoNotMatterBy(s.regs, t.regs, a);
    LatestByIsLast(s.regs, a);
    assert Find(s.fallback, a) == FallbackEntry(s, a);
    var last := |s.unbookings|;
    assert t.unbookings[last] == Unbooking(i, |s.regs|);
    assert forall u :: 0 <= u < last ==> t.unbookings[u] == s.unbookings[u];
    assert forall j: nat :: IsBy(t, j, a) <==> IsBy(s, j, a);
  }

  lemma PhaseKeepsFallbackEntry(s: State, t: State, a: Actor)
    requires SameButPhases(s.regs, t.regs) && |s.regs| == |t.regs| && t.unbookings == s.unbookings
    ensures FallbackEntry(t, a) == FallbackEntry(s, a)
  {
    PhasesDoNotMatterBy(s.regs, t.regs, a);
    LatestByIsLast(s.regs, a);
    assert forall j: nat :: IsBy(t, j, a) <==> IsBy(s, j, a);
  }

  lemma StepKeepsFallbackRight(s: State, ev: Event)
    requires FallbackIsRight(s)
    ensures FallbackIsRight(Step(s, ev))
  {
    var t := Step(s, ev);
    forall a: Actor
      ensures Find(t.fallback, a) == FallbackEntry(t, a)
    {
      assert Find(s.fallback, a) == FallbackEntry(s, a);
      if t != s {
        match ev
        case Book(r) => BookKeepsFallbackEntry(s, r, a);
        case Unbook(i) => UnbookKeepsFallbackEntry(s, i, a);
        case _ => PhaseKeepsFallbackEntry(s, t, a);
      }
    }
  }

  lemma {:induction false} RunKeepsFallback(s: State, events: seq<Event>)
    requires FallbackIsRight(s)
    ensures FallbackIsRight(Run(s, events))
    decreases |events|
  {
    if events != [] {
      StepKeepsFallbackRight(s, events[0]);
      RunKeepsFallback(Step(s, events[0]), events[1..]);
    }
  }

  /**
   In every run, however many registrations an actor has at a time: its fallback is the handle of
   its latest booking if none of its registrations was unbooked since, and nothing otherwise.
   */
  lemma FallbackIsLatest(events: seq<Event>, a: Actor)
    ensures var s := Run(INITIAL, events); Find(s.fallback, a) == FallbackEntry(s, a)
  {
    RunKeepsFallback(INITIAL, events);
  }

  /** If the actor has an active registration, it is found. */
  ghost predicate Serves(s: State, a: Actor) {
    (exists j: nat :: IsActiveBy(s, j, a)) ==> a in s.fallback
  }

  predicate IsActiveBy(s: State, i: nat, a: Actor) {
    IsBy(s, i, a) && Active(s.regs[i])
  }

  /** In every run: an actor with an active registration is found exactly if none of its own was unbooked since its latest booking. */
  lemma ServesIff(events: seq<Event>, a: Actor, j: nat)
    requires IsActiveBy(Run(INITIAL, events), j, a)
    ensures var s := Run(INITIAL, events);
            LatestBy(s.regs, a).Some? && (Serves(s, a) <==> !UnbookedSince(s, a, LatestBy(s.regs, a).value))
  {
    FallbackIsLatest(events, a);
    LatestByIsLast(Run(INITIAL, events).regs, a);
  }

  /** Dropping a registration leaves its actor served exactly if the actor has no other active one. */
  lemma UnbookServesIff(s: State, i: nat)
    requires i < |s.regs| && s.regs[i].phase.Live?
    ensures Serves(Step(s, Unbook(i)), s.regs[i].actor) <==>
            !exists j: nat :: j != i && IsActiveBy(s, j, s.regs[i].actor)
  {
    var t, a := Step(s, Unbook(i)), s.regs[i].actor;
    assert forall j: nat :: IsActiveBy(t, j, a) <==> j != i && IsActiveBy(s, j, a);
  }

  /** An actor with two registrations loses the fallback of both when one is dropped. */
  lemma SharedActorLosesFallback()
    ensures var first := Registration(7, 1, 1, 1, None, 10, Booked);
            var second := Registration(7, 1, 1, 2, None, 11, Booked);
            var s := Run(INITIAL, [Book(first), Publish(0), Book(second), Unbook(0)]);
            7 !in s.fallback && Active(s.regs[1]) && s.regs[1].actor == 7
  {
    var first, second := Registration(7, 1, 1, 1, None, 10, Booked), Registration(7, 1, 1, 2, None, 11, Booked);
    var events := [Book(first), Publish(0), Book(second), Unbook(0)];
    var s1 := Step(INITIAL, events[0]);
    assert s1.regs == [first];
    var s2 := Step(s1, events[1]);
    assert s2.regs == [first.(phase := Live)];
    var s3 := Step(s2, events[2]);
    assert s3.regs == [first.(phase := Live), second];
    var s4 := Step(s3, events[3]);
    assert s4.regs == [first.(phase := Unbooked), second];
    assert events[1..][1..] == events[2..] && events[2..][1..] == events[3..] && events[3..][1..] == [];
    assert Run(s3, events[3..]) == Run(s4, []) == s4;
    assert Run(s2, events[2..]) == Run(s3, events[3..]);
    assert Run(s1, events[1..]) == Run(s2, events[2..]);
  }

  // === The code ===

  /** The two lookup maps, replaced as a whole on every change. */
  class RemoteToHandleMap {
    var book: map<int, Handle>
    var fallback: map<Actor, Handle>

    constructor ()
      ensures book == map[] && fallback == map[]
    {
      book, fallback := map[], map[];
    }

    method Insert(r: Registration)
      modifies this
      ensures book == old(book)[Key(r) := r.handle] && fallback == old(fallback)[r.actor := r.handle]
    {
      var key := r.local * 0x1_0000_0000 + r.node * 0x100 + r.group;
      book := book[key := r.handle];
      fallback := fallback[r.actor := r.handle];
    }

    method Remove(r: Registration)
      modifies this
      ensures book == Without(old(book), Key(r), r.handle) && fallback == old(fallback) - {r.actor}
    {
      var key := r.local * 0x1_0000_0000 + r.node * 0x100 + r.group;
      if key in book && book[key] == r.handle {
        book := book - {key};
      }
      fallback := fallback - {r.actor};
    }

    method Get(actor: Addr, self: Actor, remote: Addr) returns (r: Option<Handle>)
      ensures r == Found(book, fallback, self, LookupKey(actor, remote))
    {
      var key := NodeNoGroupNo(actor) * 0x1_0000_0000 + NodeNoGroupNo(remote);
      if key in book { return Some(book[key]); }
      return Find(fallback, self);
    }
  }

  /** Registration and guard drop as each runs when nobody interferes. */
  class Topology {
    const remotes: RemoteToHandleMap
    var nodes: map<(Route, NodeNo), Handle>
    var objects: set<Handle>
    ghost var regs: seq<Registration>
    ghost var published: seq<nat>
    ghost var unbookings: seq<Unbooking>

    ghost function View(): State
      reads this, remotes
    {
      State(regs, published, remotes.book, remotes.fallback, nodes, unbookings)
    }

    constructor ()
      ensures View() == INITIAL && objects == {} && fresh(remotes)
    {
      remotes := new RemoteToHandleMap();
      nodes, objects, regs, published, unbookings := map[], {}, [], [], [];
    }

    method RegisterRemote(r: Registration) returns (ghost guard: nat)
      requires HandleIsFree(View(), r.handle)
      modifies this, remotes
      ensures guard == |old(regs)|
      ensures View() == Run(old(View()), [Book(r), Publish(guard)]) && objects == old(objects) + {r.handle}
    {
      guard := |regs|;
      ghost var s := View();
      objects := objects + {r.handle};
      remotes.Insert(r);
      regs := regs + [r.(phase := Booked)];
      assert View() == Step(s, Book(r));
      if r.route.Some? {
        nodes := nodes[(r.route.value, r.node) := r.handle];
        published := published + [guard];
      }
      regs := regs[guard := regs[guard].(phase := Live)];
      RunTwo(s, Book(r), Publish(guard));
    }

    method DropGuard(r: Registration, ghost guard: nat)
      requires guard < |regs| && regs[guard] == r && r.phase.Live?
      modifies this, remotes
      ensures View() == Run(old(View()), [Unbook(guard), RemoveObject(guard), Unpublish(guard)])
      ensures objects == old(objects) - {r.handle}
    {
      ghost var s := View();
      remotes.Remove(r);
      unbookings := unbookings + [Unbooking(guard, |regs|)];
      regs := regs[guard := r.(phase := Unbooked)];
      assert View() == Step(s, Unbook(guard));
      ghost var s1 := View();
      objects := objects - {r.handle};
      regs := regs[guard := r.(phase := ObjectRemoved)];
      assert View() == Step(s1, RemoveObject(guard));
      if r.route.Some? {
        var at := (r.route.value, r.node);
        if at in nodes && nodes[at] == r.handle { nodes := nodes - {at}; }
      }
      regs := regs[guard := r.(phase := Gone)];
      var last := [RemoveObject(guard), Unpublish(guard)];
      RunTwo(s1, last[0], last[1]);
      assert ([Unbook(guard)] + last)[1..] == last;
    }
  }

  lemma RunTwo(s: State, a: Event, b: Event)
    ensures Run(s, [a, b]) == Step(Step(s, a), b)
  {
    assert [a, b][1..] == [b] && [b][1..] == [];
    assert Run(Step(s, a), [b]) == Run(Step(Step(s, a), b), []);
  }
}
