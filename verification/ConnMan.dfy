/** The connection manager: which connections exist, in which state, and when to open one again. */
module ConnMan {
  import opened Prelude

  type ConnId = nat
  type Time = nat
  type Role = nat
  type Transport = nat
  type SocketInfo = nat

  datatype State =
    | New(connectAt: Time)
    | Establishing
    | Established
    | Accepted
    | Failed(reconnectAt: Time)
    | Aborting

  datatype Conn = Conn(role: Role, transport: Transport, outgoing: bool, info: Option<SocketInfo>, state: State)

  /** Ids are handed out once: `next` and above were never used. */
  datatype Manager = Manager(conns: map<ConnId, Conn>, next: ConnId)

  ghost predicate Fresh(m: Manager) {
    forall id :: id in m.conns ==> id < m.next
  }

  function DeadlineOf(c: Conn): Option<Time> {
    match c.state
    case New(at) => Some(at)
    case Failed(at) => Some(at)
    case _ => None
  }

  predicate Due(c: Conn, now: Time) {
    DeadlineOf(c).Some? && DeadlineOf(c).value <= now
  }

  // === Single steps ===

  function Inserted(m: Manager, c: Conn): Manager {
    Manager(m.conns[m.next := c], m.next + 1)
  }

  function Removed(m: Manager, id: ConnId): Manager {
    m.(conns := m.conns - {id})
  }

  function Changed(m: Manager, id: ConnId, c: Conn): Manager {
    m.(conns := m.conns[id := c])
  }

  /** Entries of the transport: failed ones go at once, aborting ones stay, the others begin to abort. */
  function Aborted(m: Manager, t: Transport): Manager {
    m.(conns := map id | id in m.conns && !(m.conns[id].transport == t && m.conns[id].state.Failed?) ::
      var c := m.conns[id]; if c.transport == t then c.(state := Aborting) else c)
  }

  function AbortedIds(m: Manager, t: Transport): set<ConnId> {
    set id | id in m.conns && m.conns[id].transport == t && !m.conns[id].state.Failed? && !m.conns[id].state.Aborting?
  }

  function AfterFailure(m: Manager, id: ConnId, reconnectAt: Time): Manager {
    if id !in m.conns then m
    else
      var c := m.conns[id];
      if c.state.Failed? then m
      else if c.state.Aborting? || !c.outgoing then Removed(m, id)
      else Changed(m, id, c.(state := Failed(reconnectAt)))
  }

  function AfterEstablished(m: Manager, id: ConnId, info: SocketInfo, toSelf: bool): Manager {
    if id !in m.conns then m
    else if toSelf then Removed(m, id)
    else Changed(m, id, m.conns[id].(info := Some(info), state := Established))
  }

  function AfterAccepted(m: Manager, id: ConnId, role: Role): Manager {
    if id !in m.conns then m else Changed(m, id, m.conns[id].(role := role, state := Accepted))
  }

  /** A due entry is opened: a new one in place, a failed one under a new id. */
  function ManagedOne(m: Manager, id: ConnId, now: Time): (Manager, Option<ConnId>)
    requires id in m.conns
  {
    var c := m.conns[id];
    if !Due(c, now) then (m, None)
    else if c.state.New? then (Changed(m, id, c.(state := Establishing)), Some(id))
    else (Inserted(Removed(m, id), c.(info := None, state := Establishing)), Some(m.next))
  }

  function Earliest(a: Option<Time>, b: Option<Time>): Option<Time> {
    if a.Some? && b.Some? then Some(Min(a.value, b.value)) else if a.Some? then a else b
  }

  // === One call of `manage_connections` ===

  /** Where each entry went, what was opened, and when to wake up. */
  datatype Managing = Managing(man: Manager, moved: map<ConnId, ConnId>, opens: seq<ConnId>, wake: Option<Time>)

  function ManagedNext(s: Managing, id: ConnId, now: Time): Managing
    requires id in s.man.conns
  {
    var (man, opens) := ManagedOne(s.man, id, now);
    var wake := if Due(s.man.conns[id], now) then None else DeadlineOf(s.man.conns[id]);
    Managing(man, s.moved[id := if opens.Some? then opens.value else id],
             if opens.Some? then s.opens + [opens.value] else s.opens, Earliest(s.wake, wake))
  }

  /** The conn that an old one has become. */
  function Opened(c: Conn): Conn {
    c.(info := if c.state.New? then c.info else None, state := Establishing)
  }

  /** What holds after the entries in `done` of `old0` were managed. */
  ghost predicate Progress(old0: Manager, s: Managing, done: set<ConnId>, now: Time) {
    && s.moved.Keys == done <= old0.conns.Keys
    && old0.next <= s.man.next
    && (forall id :: id in old0.conns && id !in done ==> id in s.man.conns && s.man.conns[id] == old0.conns[id])
    && (forall id :: id in done ==> BecameOf(old0, s, id, now))
    && Distinct(s.moved)
    && (forall id :: id in s.man.conns ==> id in s.moved.Values || (id in old0.conns && id !in done))
  }

  ghost predicate BecameOf(old0: Manager, s: Managing, id: ConnId, now: Time)
    requires id in old0.conns && id in s.moved
  {
    var c, to := old0.conns[id], s.moved[id];
    && to in s.man.conns && s.man.conns[to] == (if Due(c, now) then Opened(c) else c)
    && (if Due(c, now) && c.state.Failed? then old0.next <= to < s.man.next else to == id)
  }

  ghost predicate Distinct(moved: map<ConnId, ConnId>) {
    forall a, b :: a in moved && b in moved && a != b ==> moved[a] != moved[b]
  }

  /** One entry is managed: only it and a fresh id are concerned. */
  lemma StepTouches(s: Managing, id: ConnId, now: Time)
    requires id in s.man.conns && s.man.next !in s.man.conns
    ensures var t := ManagedNext(s, id, now);
            && (forall k :: k != id && k in s.man.conns ==> k in t.man.conns && t.man.conns[k] == s.man.conns[k])
            && (forall k :: k in t.man.conns ==> k in s.man.conns || k == t.moved[id])
            && s.man.next <= t.man.next <= s.man.next + 1
            && (t.moved[id] != id ==> t.moved[id] == s.man.next < t.man.next && id !in t.man.conns)
  {
  }

  lemma MovedBelow(old0: Manager, s: Managing, done: set<ConnId>, now: Time)
    requires Fresh(old0) && Progress(old0, s, done, now)
    ensures Fresh(s.man)
    ensures forall k :: k in done ==> s.moved[k] < s.man.next && s.moved[k] in s.man.conns
    ensures forall k, id :: k in done && id in old0.conns && id !in done ==> s.moved[k] != id
  {
    forall k | k in done
      ensures s.moved[k] < s.man.next && s.moved[k] in s.man.conns
      ensures forall id :: id in old0.conns && id !in done ==> s.moved[k] != id
    {
      assert BecameOf(old0, s, k, now);
    }
    forall id | id in s.man.conns
      ensures id < s.man.next
    {
      if id in s.moved.Values {
        var k :| k in s.moved && s.moved[k] == id;
      }
    }
  }

  lemma StepBecomes(old0: Manager, s: Managing, done: set<ConnId>, id: ConnId, k: ConnId, now: Time)
    requires Fresh(old0) && Progress(old0, s, done, now) && id in old0.conns && id !in done && k in done + {id}
    ensures BecameOf(old0, ManagedNext(s, id, now), k, now)
  {
    MovedBelow(old0, s, done, now);
    StepTouches(s, id, now);
    if k != id { assert BecameOf(old0, s, k, now); }
  }

  lemma StepProgresses(old0: Manager, s: Managing, done: set<ConnId>, id: ConnId, now: Time)
    requires Fresh(old0) && Progress(old0, s, done, now) && id in old0.conns && id !in done
    ensures Progress(old0, ManagedNext(s, id, now), done + {id}, now)
  {
    var t := ManagedNext(s, id, now);
    forall k | k in done + {id}
      ensures BecameOf(old0, t, k, now)
    {
      StepBecomes(old0, s, done, id, k, now);
    }
    StepLeaves(old0, s, done, id, now);
    StepCoversAll(old0, s, done, id, now);
  }

  lemma StepLeaves(old0: Manager, s: Managing, done: set<ConnId>, id: ConnId, now: Time)
    requires Fresh(old0) && Progress(old0, s, done, now) && id in old0.conns && id !in done
    ensures var t := ManagedNext(s, id, now);
            && t.moved.Keys == done + {id} && old0.next <= t.man.next
            && forall k :: k in old0.conns && k !in done + {id} ==> k in t.man.conns && t.man.conns[k] == old0.conns[k]
  {
    MovedBelow(old0, s, done, now);
    StepTouches(s, id, now);
  }

  lemma StepCoversAll(old0: Manager, s: Managing, done: set<ConnId>, id: ConnId, now: Time)
    requires Fresh(old0) && Progress(old0, s, done, now) && id in old0.conns && id !in done
    ensures var t := ManagedNext(s, id, now);
            && Distinct(t.moved)
            && forall k :: k in t.man.conns ==> k in t.moved.Values || (k in old0.conns && k !in done + {id})
  {
    MovedBelow(old0, s, done, now);
    StepTouches(s, id, now);
    StepFrames(old0, s, ManagedNext(s, id, now), done, id);
  }

  lemma StepFrames(old0: Manager, s: Managing, t: Managing, done: set<ConnId>, id: ConnId)
    requires s.moved.Keys == done && id !in done && id in t.moved && t.moved == s.moved[id := t.moved[id]] && Distinct(s.moved)
    requires forall k :: k in done ==> s.moved[k] < s.man.next && s.moved[k] in s.man.conns && s.moved[k] != id
    requires t.moved[id] != id ==> t.moved[id] == s.man.next && id !in t.man.conns
    requires forall k :: k in t.man.conns ==> k in s.man.conns || k == t.moved[id]
    requires forall k :: k in s.man.conns ==> k in s.moved.Values || (k in old0.conns && k !in done)
    ensures Distinct(t.moved)
    ensures forall k :: k in t.man.conns ==> k in t.moved.Values || (k in old0.conns && k !in done + {id})
  {
    forall k | k in t.man.conns
      ensures k in t.moved.Values || (k in old0.conns && k !in done + {id})
    {
      StepCovers(old0, s, t, done, id, k);
    }
  }

  lemma StepCovers(old0: Manager, s: Managing, t: Managing, done: set<ConnId>, id: ConnId, k: ConnId)
    requires s.moved.Keys == done && id !in done && id in t.moved && t.moved == s.moved[id := t.moved[id]]
    requires t.moved[id] != id ==> k != id
    requires k == t.moved[id] || k in s.moved.Values || (k in old0.conns && k !in done)
    ensures k in t.moved.Values || (k in old0.conns && k !in done + {id})
  {
    if k == t.moved[id] {
      assert id in t.moved && t.moved[id] == k;
    } else if k in s.moved.Values {
      var j :| j in s.moved && s.moved[j] == k;
      assert j in t.moved && t.moved[j] == k;
    }
  }

  /** The opened ids are those of the due entries managed so far, each once. */
  ghost predicate OpensDue(old0: Manager, s: Managing, done: set<ConnId>, now: Time)
    requires done <= s.moved.Keys && done <= old0.conns.Keys
  {
    && (forall i, j :: 0 <= i < j < |s.opens| ==> s.opens[i] != s.opens[j])
    && (forall id :: id in done && Due(old0.conns[id], now) ==> s.moved[id] in s.opens)
    && (forall i :: 0 <= i < |s.opens| ==> IsOpening(old0, s.moved, done, s.opens[i], now))
  }

  ghost predicate IsOpening(old0: Manager, moved: map<ConnId, ConnId>, done: set<ConnId>, id: ConnId, now: Time)
    requires done <= moved.Keys && done <= old0.conns.Keys
  {
    exists k :: k in done && Due(old0.conns[k], now) && moved[k] == id
  }

  lemma StepOpensDue(old0: Manager, s: Managing, done: set<ConnId>, id: ConnId, now: Time)
    requires done <= s.moved.Keys && done <= old0.conns.Keys && id in old0.conns && id !in done
    requires id in s.man.conns && s.man.conns[id] == old0.conns[id] && OpensDue(old0, s, done, now)
    requires forall k :: k in done ==> s.moved[k] != ManagedNext(s, id, now).moved[id]
    ensures OpensDue(old0, ManagedNext(s, id, now), done + {id}, now)
  {
    var t, all := ManagedNext(s, id, now), done + {id};
    forall i | 0 <= i < |s.opens|
      ensures IsOpening(old0, t.moved, all, s.opens[i], now) && s.opens[i] != t.moved[id]
    {
      assert IsOpening(old0, s.moved, done, s.opens[i], now);
      var k :| k in done && Due(old0.conns[k], now) && s.moved[k] == s.opens[i];
      assert k in all && t.moved[k] == s.opens[i];
    }
    if Due(old0.conns[id], now) {
      assert id in all && IsOpening(old0, t.moved, all, t.moved[id], now);
    }
  }

  lemma StepMovesElsewhere(old0: Manager, s: Managing, done: set<ConnId>, id: ConnId, now: Time)
    requires Fresh(old0) && Progress(old0, s, done, now) && id in old0.conns && id !in done
    ensures forall k :: k in done ==> s.moved[k] != ManagedNext(s, id, now).moved[id]
  {
    MovedBelow(old0, s, done, now);
    StepTouches(s, id, now);
  }

  /** The earliest deadline among the entries that are managed and not opened. */
  ghost predicate Wakes(old0: Manager, wake: Option<Time>, done: set<ConnId>, now: Time)
    requires done <= old0.conns.Keys
  {
    && (forall id :: id in done && DeadlineOf(old0.conns[id]).Some? && !Due(old0.conns[id], now) ==>
          wake.Some? && wake.value <= DeadlineOf(old0.conns[id]).value)
    && (wake.Some? ==> exists id :: id in done && !Due(old0.conns[id], now) && DeadlineOf(old0.conns[id]) == wake)
  }

  lemma StepWakes(old0: Manager, s: Managing, done: set<ConnId>, id: ConnId, now: Time)
    requires Progress(old0, s, done, now) && id in old0.conns && id !in done && Wakes(old0, s.wake, done, now)
    ensures Wakes(old0, ManagedNext(s, id, now).wake, done + {id}, now)
  {
    var t, all := ManagedNext(s, id, now), done + {id};
    if t.wake.Some? {
      if t.wake == s.wake {
        var k :| k in done && !Due(old0.conns[k], now) && DeadlineOf(old0.conns[k]) == s.wake;
        assert k in all;
      } else {
        assert id in all && !Due(old0.conns[id], now) && DeadlineOf(old0.conns[id]) == t.wake;
      }
    }
  }

  /** The work on the entries in `done` is finished. */
  ghost predicate Halfway(old0: Manager, s: Managing, done: set<ConnId>, now: Time) {
    Progress(old0, s, done, now) && OpensDue(old0, s, done, now) && Wakes(old0, s.wake, done, now)
  }

  lemma StepGoesOn(old0: Manager, s: Managing, done: set<ConnId>, id: ConnId, now: Time)
    requires Fresh(old0) && Halfway(old0, s, done, now) && id in old0.conns && id !in done
    ensures Halfway(old0, ManagedNext(s, id, now), done + {id}, now)
  {
    StepMovesElsewhere(old0, s, done, id, now);
    StepOpensDue(old0, s, done, id, now);
    StepProgresses(old0, s, done, id, now);
    StepWakes(old0, s, done, id, now);
  }

  /** What a whole call does, in whatever order the entries are visited. */
  ghost predicate Manages(old0: Manager, s: Managing, now: Time) {
    && s.moved.Keys == old0.conns.Keys && Distinct(s.moved) && s.moved.Values == s.man.conns.Keys
    && (forall id :: id in old0.conns ==> BecameOf(old0, s, id, now))
    && OpensDue(old0, s, old0.conns.Keys, now)
    && IsWakeTime(s.man, s.wake, now)
  }

  /** Nothing is due, and the wake time is the least deadline. */
  ghost predicate IsWakeTime(m: Manager, wake: Option<Time>, now: Time) {
    && (forall id :: id in m.conns && DeadlineOf(m.conns[id]).Some? ==>
          now < DeadlineOf(m.conns[id]).value && wake.Some? && wake.value <= DeadlineOf(m.conns[id]).value)
    && (wake.Some? ==> exists id :: id in m.conns && DeadlineOf(m.conns[id]) == wake)
  }

  /** When all entries were visited, the call has done its work. */
  lemma AllManaged(old0: Manager, s: Managing, now: Time)
    requires Halfway(old0, s, old0.conns.Keys, now)
    ensures Manages(old0, s, now)
  {
    AllMoved(old0, s, now);
    AllWaiting(old0, s, now);
  }

  lemma AllMoved(old0: Manager, s: Managing, now: Time)
    requires Progress(old0, s, old0.conns.Keys, now)
    ensures s.moved.Values == s.man.conns.Keys
  {
    forall v | v in s.moved.Values
      ensures v in s.man.conns
    {
      var k :| k in s.moved && s.moved[k] == v;
      assert BecameOf(old0, s, k, now);
    }
  }

  lemma WaitingIsLater(old0: Manager, s: Managing, k: ConnId, now: Time)
    requires k in old0.conns && k in s.moved && BecameOf(old0, s, k, now) && Wakes(old0, s.wake, old0.conns.Keys, now)
    requires DeadlineOf(s.man.conns[s.moved[k]]).Some?
    ensures now < DeadlineOf(s.man.conns[s.moved[k]]).value && s.wake.Some?
            && s.wake.value <= DeadlineOf(s.man.conns[s.moved[k]]).value
  {
  }

  lemma AllWaiting(old0: Manager, s: Managing, now: Time)
    requires Progress(old0, s, old0.conns.Keys, now) && Wakes(old0, s.wake, old0.conns.Keys, now)
    ensures IsWakeTime(s.man, s.wake, now)
  {
    forall id | id in s.man.conns && DeadlineOf(s.man.conns[id]).Some?
      ensures now < DeadlineOf(s.man.conns[id]).value && s.wake.Some?
              && s.wake.value <= DeadlineOf(s.man.conns[id]).value
    {
      var k :| k in s.moved && s.moved[k] == id;
      WaitingIsLater(old0, s, k, now);
    }
    if s.wake.Some? {
      var k :| k in old0.conns && !Due(old0.conns[k], now) && DeadlineOf(old0.conns[k]) == s.wake;
      assert BecameOf(old0, s, k, now);
      assert DeadlineOf(s.man.conns[s.moved[k]]) == s.wake;
    }
  }

  /** The effect of visiting these entries in this order. */
  function ManagedSeq(m: Manager, order: seq<ConnId>, now: Time): Managing {
    if order == [] then Managing(m, map[], [], None)
    else
      var s, id := ManagedSeq(m, order[..|order| - 1], now), order[|order| - 1];
      if id in s.man.conns then ManagedNext(s, id, now) else s
  }

  /** The sequence lists the elements of the set, each once. */
  ghost predicate Lists(order: seq<ConnId>, ids: set<ConnId>) {
    && (forall i, j :: 0 <= i < j < |order| ==> order[i] != order[j])
    && (forall i :: 0 <= i < |order| ==> order[i] in ids)
    && (forall id :: id in ids ==> id in order)
  }

  lemma {:induction false} SeqIsHalfway(m: Manager, order: seq<ConnId>, done: set<ConnId>, now: Time)
    requires Fresh(m) && Lists(order, done) && done <= m.conns.Keys
    ensures Halfway(m, ManagedSeq(m, order, now), done, now)
    decreases |order|
  {
    if order == [] {
      assert done == {};
    } else {
      var before, id := order[..|order| - 1], order[|order| - 1];
      assert order == before + [id];
      SeqIsHalfway(m, before, done - {id}, now);
      StepGoesOn(m, ManagedSeq(m, before, now), done - {id}, id, now);
      assert done - {id} + {id} == done;
    }
  }

  /**
   In whatever order the entries are visited: each due one is opened exactly once, failed ones
   under an id never used before, the others stay; no entry is lost or changes its peer, nothing
   is due any more, and the wake time is the least deadline left.
   */
  lemma ManagesAll(m: Manager, order: seq<ConnId>, now: Time)
    requires Fresh(m) && Lists(order, m.conns.Keys)
    ensures Manages(m, ManagedSeq(m, order, now), now)
  {
    SeqIsHalfway(m, order, m.conns.Keys, now);
    AllManaged(m, ManagedSeq(m, order, now), now);
  }

  // === Runs ===

  datatype Event =
    | InsertNew(role: Role, transport: Transport, outgoing: bool, now: Time)
    | InsertEstablishing(role: Role, transport: Transport, outgoing: bool)
    | AbortByTransport(transport: Transport)
    | Manage(id: ConnId, now: Time)                  // one iteration of `manage_connections`
    | OnFailed(id: ConnId, reconnectAt: Time)
    | OnEstablished(id: ConnId, info: SocketInfo, toSelf: bool)
    | OnAccepted(id: ConnId, role: Role)

  function Step(m: Manager, ev: Event): Manager {
    match ev
    case InsertNew(role, t, outgoing, now) => Inserted(m, Conn(role, t, outgoing, None, New(now)))
    case InsertEstablishing(role, t, outgoing) => Inserted(m, Conn(role, t, outgoing, None, Establishing))
    case AbortByTransport(t) => Aborted(m, t)
    case Manage(id, now) => if id in m.conns then ManagedOne(m, id, now).0 else m
    case OnFailed(id, at) => AfterFailure(m, id, at)
    case OnEstablished(id, info, toSelf) => AfterEstablished(m, id, info, toSelf)
    case OnAccepted(id, role) => AfterAccepted(m, id, role)
  }

  function Run(m: Manager, events: seq<Event>): Manager
    decreases |events|
  {
    if events == [] then m else Run(Step(m, events[0]), events[1..])
  }

  /** Entries waiting to be opened can be, and entries never opened have no socket. */
  ghost predicate Inv(m: Manager) {
    && Fresh(m)
    && forall id :: id in m.conns ==>
         var c := m.conns[id];
         && (c.state.Failed? ==> c.outgoing)
         && (c.state.New? ==> c.outgoing && c.info.None?)
  }

  lemma {:induction false} RunKeeps(m: Manager, events: seq<Event>)
    requires Inv(m) && forall i :: 0 <= i < |events| && events[i].InsertNew? ==> events[i].outgoing
    ensures Inv(Run(m, events))
    decreases |events|
  {
    if events != [] { RunKeeps(Step(m, events[0]), events[1..]); }
  }

  /** In every run whose new entries are outgoing, the two debug assertions on opening hold. */
  lemma OpenedAreOutgoing(events: seq<Event>, id: ConnId, now: Time)
    requires forall i :: 0 <= i < |events| && events[i].InsertNew? ==> events[i].outgoing
    ensures var m := Run(Manager(map[], 0), events);
            && Fresh(m)
            && (id in m.conns && Due(m.conns[id], now) ==>
                  m.conns[id].outgoing && (m.conns[id].state.New? ==> m.conns[id].info.None?))
  {
    RunKeeps(Manager(map[], 0), events);
  }

  /** Nobody reports on this connection as established or accepted. */
  predicate Silent(events: seq<Event>, id: ConnId) {
    forall i :: 0 <= i < |events| ==>
      !(events[i].OnEstablished? && events[i].id == id) && !(events[i].OnAccepted? && events[i].id == id)
  }

  /** An aborting connection stays so until it is removed, and then never comes back, unless it is reported on. */
  lemma {:induction false} AbortingStays(m: Manager, events: seq<Event>, id: ConnId)
    requires id < m.next && (id in m.conns ==> m.conns[id].state.Aborting?) && Silent(events, id)
    ensures var n := Run(m, events); id < n.next && (id in n.conns ==> n.conns[id].state.Aborting?)
    decreases |events|
  {
    if events != [] {
      var n := Step(m, events[0]);
      assert id < n.next && (id in n.conns ==> n.conns[id].state.Aborting?);
      AbortingStays(n, events[1..], id);
    }
  }

  /** Such a report revives it, exactly unless the peer turns out to be this node. */
  lemma RevivedIff(m: Manager, id: ConnId, ev: Event)
    requires Fresh(m) && id in m.conns && m.conns[id].state.Aborting?
    ensures id in Step(m, ev).conns && !Step(m, ev).conns[id].state.Aborting? <==>
            (ev.OnEstablished? && ev.id == id && !ev.toSelf) || (ev.OnAccepted? && ev.id == id)
  {
  }

  // === Peers are not given up ===

  /** The outgoing connections over this transport that are not being aborted. */
  function Peers(m: Manager, t: Transport): set<ConnId> {
    set id | id in m.conns && m.conns[id].outgoing && m.conns[id].transport == t && !m.conns[id].state.Aborting?
  }

  /** Somebody wants the transport gone, or the peer turned out to be this node. */
  predicate GivesUp(ev: Event, t: Transport) {
    (ev.AbortByTransport? && ev.transport == t) || (ev.OnEstablished? && ev.toSelf)
  }

  lemma StepKeepsPeers(m: Manager, ev: Event, t: Transport)
    requires Fresh(m) && !GivesUp(ev, t)
    ensures Fresh(Step(m, ev)) && |Peers(Step(m, ev), t)| >= |Peers(m, t)|
  {
    var n := Step(m, ev);
    if ev.Manage? && ev.id in Peers(m, t) && m.conns[ev.id].state.Failed? && Due(m.conns[ev.id], ev.now) {
      assert Peers(n, t) == Peers(m, t) - {ev.id} + {m.next};
    } else {
      assert Peers(m, t) <= Peers(n, t);
      SubsetIsSmaller(Peers(m, t), Peers(n, t));
    }
  }

  /** However often connections fail, no run loses an outgoing one, unless it is given up. */
  lemma {:induction false} PeersAreKept(m: Manager, events: seq<Event>, t: Transport)
    requires Fresh(m) && forall i :: 0 <= i < |events| ==> !GivesUp(events[i], t)
    ensures |Peers(Run(m, events), t)| >= |Peers(m, t)|
    decreases |events|
  {
    if events != [] {
      StepKeepsPeers(m, events[0], t);
      PeersAreKept(Step(m, events[0]), events[1..], t);
    }
  }

  /** A failed outgoing connection is opened again under a new id, to the same peer, once it is time and not before. */
  lemma ReconnectsAfterFailure(m: Manager, id: ConnId, reconnectAt: Time, now: Time)
    requires Fresh(m) && id in m.conns && m.conns[id].outgoing && !m.conns[id].state.Failed? && !m.conns[id].state.Aborting?
    ensures var c, n := m.conns[id], Run(m, [OnFailed(id, reconnectAt), Manage(id, now)]);
            if reconnectAt <= now then
              n.conns == (m.conns - {id})[m.next := Conn(c.role, c.transport, true, None, Establishing)]
            else n.conns == m.conns[id := c.(state := Failed(reconnectAt))]
  {
    var events := [OnFailed(id, reconnectAt), Manage(id, now)];
    var m1 := Step(m, events[0]);
    assert events[1..] == [events[1]] && Run(m1, [events[1]]) == Step(m1, events[1]);
    assert (m.conns[id := m.conns[id].(state := Failed(reconnectAt))]) - {id} == m.conns - {id};
  }

  function Over(m: Manager, t: Transport): set<ConnId> {
    set id | id in m.conns && m.conns[id].transport == t
  }

  /** No new connection over the transport, and no report that one of these works. */
  predicate NoNews(events: seq<Event>, t: Transport, ids: set<ConnId>) {
    forall i :: 0 <= i < |events| ==>
      && (events[i].InsertNew? || events[i].InsertEstablishing? ==> events[i].transport != t)
      && (events[i].OnEstablished? || events[i].OnAccepted? ==> events[i].id !in ids)
  }

  ghost predicate AllAborting(m: Manager, t: Transport, ids: set<ConnId>) {
    Over(m, t) <= ids && forall id :: id in Over(m, t) ==> m.conns[id].state.Aborting?
  }

  predicate Reported(events: seq<Event>, id: ConnId) {
    exists i :: 0 <= i < |events| && events[i].OnFailed? && events[i].id == id
  }

  lemma StepKeepsAborting(m: Manager, ev: Event, t: Transport, ids: set<ConnId>)
    requires AllAborting(m, t, ids) && NoNews([ev], t, ids)
    ensures AllAborting(Step(m, ev), t, ids) && Over(Step(m, ev), t) <= Over(m, t)
    ensures ev.OnFailed? ==> ev.id !in Over(Step(m, ev), t)
  {
    assert [ev][0] == ev;
    var n := Step(m, ev);
    forall id | id in Over(n, t)
      ensures id in Over(m, t) && n.conns[id].state.Aborting?
    {
    }
  }

  lemma {:induction false} AbortingGoAway(m: Manager, events: seq<Event>, t: Transport, ids: set<ConnId>)
    requires AllAborting(m, t, ids) && NoNews(events, t, ids)
    ensures var n := Run(m, events);
            AllAborting(n, t, ids) && Over(n, t) <= Over(m, t) && forall id :: id in Over(n, t) ==> !Reported(events, id)
    decreases |events|
  {
    if events != [] {
      var next := Step(m, events[0]);
      assert NoNews([events[0]], t, ids) && NoNews(events[1..], t, ids);
      StepKeepsAborting(m, events[0], t, ids);
      AbortingGoAway(next, events[1..], t, ids);
      forall id | id in Over(Run(m, events), t)
        ensures !Reported(events, id)
      {
        assert id in Over(next, t);
        assert forall i :: 1 <= i < |events| ==> events[i] == events[1..][i - 1];
      }
    }
  }

  /**
   After a transport is aborted, whatever happens without news about it, only the connections over
   it that were there and did not report their failure are left, and they are all aborting.
   */
  lemma AbortedGoAway(m: Manager, t: Transport, events: seq<Event>)
    requires NoNews(events, t, Over(m, t))
    ensures var n := Run(m, [AbortByTransport(t)] + events);
            && (forall id :: id in Over(n, t) ==> id in Over(m, t) && n.conns[id].state.Aborting? && !Reported(events, id))
            && (forall id :: id in Over(n, t) ==> !m.conns[id].state.Failed?)
  {
    var aborted := Step(m, AbortByTransport(t));
    assert ([AbortByTransport(t)] + events)[1..] == events;
    AbortingGoAway(aborted, events, t, Over(m, t));
  }

  // === The code ===

  class ConnectionManager {
    var conns: map<ConnId, Conn>
    var next: ConnId
    const reconnectInterval: Time

    function View(): Manager
      reads this
    {
      Manager(conns, next)
    }

    constructor (reconnectInterval: Time)
      ensures View() == Manager(map[], 0) && this.reconnectInterval == reconnectInterval
    {
      conns, next := map[], 0;
      this.reconnectInterval := reconnectInterval;
    }

    method Insert(c: Conn) returns (id: ConnId)
      modifies this
      ensures id == old(next) && View() == Inserted(old(View()), c)
    {
      id := next;
      conns := conns[id := c];
      next := next + 1;
    }

    method AbortTransport(t: Transport) returns (ids: set<ConnId>)
      modifies this
      ensures View() == Aborted(old(View()), t) && ids == AbortedIds(old(View()), t)
      ensures forall id :: id in conns ==> id in old(conns) && conns[id].transport == old(conns)[id].transport
      ensures forall id :: id in old(conns) && old(conns)[id].transport != t ==> id in conns && conns[id] == old(conns)[id]
      ensures forall id :: id in old(conns) && old(conns)[id].transport == t ==>
                if old(conns)[id].state.Failed? then id !in conns && id !in ids
                else id in conns && conns[id].state.Aborting? && (id in ids <==> !old(conns)[id].state.Aborting?)
    {
      ids := {};
      var todo := conns.Keys;
      while todo != {}
        invariant todo <= old(conns).Keys && next == old(next)
        invariant forall id :: id in todo ==> id in conns && conns[id] == old(conns)[id]
        invariant forall id :: id in old(conns) && id !in todo ==>
                    var after := Aborted(old(View()), t).conns;
                    (id in conns <==> id in after) && (id in conns ==> conns[id] == after[id])
        invariant conns.Keys <= old(conns).Keys
        invariant forall id :: id in ids <==> id in AbortedIds(old(View()), t) && id !in todo
      {
        var id :| id in todo;
        todo := todo - {id};
        var c := conns[id];
        if !c.state.Aborting? && c.transport == t {
          if c.state.Failed? {
            conns := conns - {id};
          } else {
            conns := conns[id := c.(state := Aborting)];
            ids := ids + {id};
          }
        }
      }
      assert conns == Aborted(old(View()), t).conns;
    }

    method ManageConnection(id: ConnId, now: Time) returns (wake: Option<Time>, opens: Option<ConnId>)
      requires id in conns
      modifies this
      ensures (View(), opens) == ManagedOne(old(View()), id, now)
      ensures wake == if Due(old(conns)[id], now) then None else DeadlineOf(old(conns)[id])
    {
      var c := conns[id];
      match c.state {
        case New(at) =>
          if at > now { return Some(at), None; }
          conns := conns[id := c.(state := Establishing)];
          return None, Some(id);
        case Failed(at) =>
          if at > now { return Some(at), None; }
          conns := conns - {id};
          var newId := Insert(Conn(c.role, c.transport, c.outgoing, None, Establishing));
          return None, Some(newId);
        case _ => return None, None;
      }
    }

    /** Visits the entries present at the start, in any order. */
    method ManageConnections(now: Time) returns (wake: Option<Time>, opens: seq<ConnId>, ghost s: Managing)
      requires Fresh(View())
      modifies this
      ensures s.man == View() && s.opens == opens && s.wake == wake
      ensures Manages(old(View()), s, now)
    {
      wake, opens := None, [];
      var todo := conns.Keys;
      ghost var order := [];
      while todo != {}
        invariant forall id :: id in todo ==> id in conns && id < next
        invariant Lists(order, old(conns).Keys - todo) && todo <= old(conns).Keys
        invariant var t := ManagedSeq(old(View()), order, now); t.man == View() && t.opens == opens && t.wake == wake
        decreases todo
      {
        var id :| id in todo;
        var deadline, command := ManageConnection(id, now);
        wake := if wake.Some? && deadline.Some? then Some(Min(wake.value, deadline.value))
                else if wake.Some? then wake else deadline;
        if command.Some? { opens := opens + [command.value]; }
        todo := todo - {id};
        assert (order + [id])[..|order|] == order;
        order := order + [id];
      }
      s := ManagedSeq(old(View()), order, now);
      ManagesAll(old(View()), order, now);
    }

    method OnConnectionFailed(id: ConnId, now: Time)
      modifies this
      ensures View() == AfterFailure(old(View()), id, now + reconnectInterval)
      ensures id !in old(conns) || old(conns)[id].state.Failed? ==> conns == old(conns)
      ensures id in old(conns) && !old(conns)[id].state.Failed? ==>
                conns == if old(conns)[id].outgoing && !old(conns)[id].state.Aborting? then
                           old(conns)[id := old(conns)[id].(state := Failed(now + reconnectInterval))]
                         else old(conns) - {id}
    {
      if id !in conns { return; }
      var c := conns[id];
      if c.state.Failed? { return; }
      if c.state.Aborting? {
        conns := conns - {id};
        return;
      }
      var reconnectAt := now + reconnectInterval;
      if !c.outgoing {
        conns := conns - {id};
      } else {
        conns := conns[id := c.(state := Failed(reconnectAt))];
      }
    }

    method OnConnectionEstablished(id: ConnId, info: SocketInfo, toSelf: bool) returns (r: Result<bool, ConnId>)
      modifies this
      ensures View() == AfterEstablished(old(View()), id, info, toSelf)
      ensures id !in old(conns) ==> conns == old(conns)
      ensures id in old(conns) ==>
                conns == if toSelf then old(conns) - {id}
                         else old(conns)[id := old(conns)[id].(info := Some(info), state := Established)]
      ensures r == if id in old(conns) then Ok(!toSelf) else Err(id)
    {
      if id !in conns { return Err(id); }
      if toSelf {
        conns := conns - {id};
        return Ok(false);
      }
      if conns[id].info != Some(info) {
        conns := conns[id := conns[id].(info := Some(info))];
      }
      conns := conns[id := conns[id].(state := Established)];
      return Ok(true);
    }

    method OnConnectionAccepted(id: ConnId, role: Role)
      modifies this
      ensures View() == AfterAccepted(old(View()), id, role)
      ensures conns == if id in old(conns) then old(conns)[id := old(conns)[id].(role := role, state := Accepted)]
                       else old(conns)
    {
      if id !in conns { return; }
      conns := conns[id := conns[id].(role := role)];
      conns := conns[id := conns[id].(state := Accepted)];
    }
  }
}
