/**
 The mailbox of an actor: a multi-producer single-consumer queue guarded by a resizable
 semaphore, with a close protocol, a register-and-recheck wake-up protocol, and a drain that
 is done either by whoever finishes the actor or by the departing consumer.

 The semaphore, the intrusive queue, the waker and the control lock are atomic primitives
 here. The machine interleaves every atomic action of senders, closers, finishers and the
 consumer; the class runs the same primitives in the order of the methods' bodies.
 */
module Mailbox {
  import opened Prelude

  type Envelope = nat
  type TraceId = nat

  // The largest number of permits a semaphore may hold (`usize::MAX >> 3` on 64-bit targets).
  const MAX_PERMITS: nat := 0x1FFF_FFFF_FFFF_FFFF

  function ClampCapacity(capacity: nat): nat {
    Min(capacity, MAX_PERMITS)
  }

  datatype Slot = Vacant | Occupied(drainOnDrop: bool)

  /** The shared fields, with `woken` standing for the consumer's task being scheduled again. */
  datatype Core = Core(
    queue: seq<Envelope>,
    permits: nat,
    closed: bool,
    trace: Option<TraceId>,
    capacity: nat,
    slot: Slot,
    registered: bool,
    woken: bool)

  // === Atomic primitives ===

  function Fresh(capacity: nat): Core {
    Core([], ClampCapacity(capacity), false, None, ClampCapacity(capacity), Vacant, false, false)
  }

  predicate HasPermit(c: Core) {
    !c.closed && c.permits > 0
  }

  function TakePermit(c: Core): Core
    requires c.permits > 0
  {
    c.(permits := c.permits - 1)
  }

  function AddPermits(c: Core, n: nat): Core {
    c.(permits := c.permits + n)
  }

  /** `add_permits` panics in this case. */
  predicate Overflows(c: Core, n: int) {
    c.permits + n > MAX_PERMITS
  }

  function Enqueue(c: Core, e: Envelope): Core {
    c.(queue := c.queue + [e])
  }

  function Dequeue(c: Core): Core
    requires c.queue != []
  {
    c.(queue := c.queue[1..])
  }

  /** Waking the consumer also removes its registration. */
  function Notify(c: Core): Core {
    if c.registered then c.(registered := false, woken := true) else c
  }

  /** Shrinking takes back free permits only; growing is clamped. */
  function Resize(c: Core, capacity: nat): Core
    requires c.capacity <= MAX_PERMITS
  {
    if capacity < c.capacity then
      var forgotten := Min(c.permits, c.capacity - capacity);
      c.(permits := c.permits - forgotten, capacity := c.capacity - forgotten)
    else
      var added := ClampCapacity(capacity) - c.capacity;
      AddPermits(c, added).(capacity := c.capacity + added)
  }

  function ShutDown(c: Core, trace: TraceId): Core {
    if c.closed then c else Notify(c.(trace := Some(trace), closed := true))
  }

  // === The machine ===

  /** Where the consumer is inside `recv`; `again` marks the recheck after registering. */
  datatype Consumer =
    | Detached
    | Ready
    | Credit(envelope: Envelope, again: bool)
    | Emptied(again: bool)
    | Closing(again: bool)
    | AwaitTrace(again: bool)
    | Registering
    | Rechecking
    | Parked

  /** What the holder of the control lock is about to do. */
  datatype Lock =
    | Free
    | Marked(finishing: bool)
    | Shut(finishing: bool)
    | Finishing
    | Draining

  datatype Party = ByConsumer | ByDrain

  datatype Taken = Taken(envelope: Envelope, party: Party)

  /** What happened so far; it never influences a step. */
  datatype Log = Log(
    issued: set<Envelope>,
    enqueued: seq<Envelope>,
    taken: seq<Taken>,
    returned: set<Envelope>,
    cancelled: set<Envelope>,
    overdraft: nat,            // unbounded sends that found no permit
    unreturned: nat,           // envelopes taken without giving a permit back
    finishes: nat,
    drains: nat,
    stragglers: set<Envelope>) // in flight when the last drain ended

  datatype State = State(
    core: Core,
    holding: set<Envelope>,    // senders that took a permit and have not enqueued yet
    overdrawn: set<Envelope>,  // unbounded senders that found no permit
    notifying: set<Envelope>,  // senders that enqueued and have not notified yet
    consumer: Consumer,
    lock: Lock,
    log: Log)

  datatype Event =
    | Acquire(e: Envelope)
    | Overdraw(e: Envelope)
    | Refuse(e: Envelope)
    | CancelSend(e: Envelope)
    | Push(e: Envelope)
    | NotifyRx(e: Envelope)
    | SetCapacity(capacity: nat)
    | BeginClose(trace: TraceId, finishing: bool)
    | CloseSemaphore
    | CloseNotify
    | InspectSlot
    | DrainOne
    | Attach
    | Detach
    | Poll
    | GiveBack
    | CheckClosed
    | TakeAfterClose
    | ReadTrace
    | Register
    | Repoll

  function Init(capacity: nat): State {
    State(Fresh(capacity), {}, {}, {}, Detached, Free, Log({}, [], [], {}, {}, 0, 0, 0, 0, {}))
  }

  predicate IsNew(s: State, e: Envelope) {
    e !in s.log.issued
  }

  function Issue(s: State, e: Envelope): Log {
    s.log.(issued := s.log.issued + {e})
  }

  function SenderStep(s: State, ev: Event): State {
    match ev
    case Acquire(e) =>
      if IsNew(s, e) && HasPermit(s.core) then
        s.(core := TakePermit(s.core), holding := s.holding + {e}, log := Issue(s, e))
      else s
    case Overdraw(e) =>
      if IsNew(s, e) && !s.core.closed && s.core.permits == 0 then
        s.(overdrawn := s.overdrawn + {e}, log := Issue(s, e).(overdraft := s.log.overdraft + 1))
      else s
    case Refuse(e) =>
      if IsNew(s, e) && !HasPermit(s.core) then
        s.(log := Issue(s, e).(returned := s.log.returned + {e}))
      else s
    case CancelSend(e) =>
      // A waiting sender is dropped after a permit was assigned to it.
      if e in s.holding then
        s.(core := AddPermits(s.core, 1), holding := s.holding - {e},
           log := s.log.(cancelled := s.log.cancelled + {e}))
      else s
    case Push(e) =>
      if e in s.holding + s.overdrawn then
        s.(core := Enqueue(s.core, e), holding := s.holding - {e}, overdrawn := s.overdrawn - {e},
           notifying := s.notifying + {e}, log := s.log.(enqueued := s.log.enqueued + [e]))
      else s
    case NotifyRx(e) =>
      if e in s.notifying then s.(core := Notify(s.core), notifying := s.notifying - {e}) else s
    case _ => s
  }

  function Take(s: State, party: Party): State
    requires s.core.queue != []
  {
    s.(core := Dequeue(s.core), log := s.log.(taken := s.log.taken + [Taken(s.core.queue[0], party)]))
  }

  function TakeForFree(s: State, party: Party): State
    requires s.core.queue != []
  {
    var s' := Take(s, party);
    s'.(log := s'.log.(unreturned := s'.log.unreturned + 1))
  }

  function ControlStep(s: State, ev: Event): State {
    match ev
    case SetCapacity(capacity) =>
      if s.lock == Free && s.core.capacity <= MAX_PERMITS then s.(core := Resize(s.core, capacity)) else s
    case BeginClose(trace, finishing) =>
      if s.lock != Free then s
      else if s.core.closed then s.(lock := if finishing then Finishing else Free)
      else s.(core := s.core.(trace := Some(trace)), lock := Marked(finishing))
    case CloseSemaphore =>
      if s.lock.Marked? then s.(core := s.core.(closed := true), lock := Shut(s.lock.finishing)) else s
    case CloseNotify =>
      if s.lock.Shut? then s.(core := Notify(s.core), lock := if s.lock.finishing then Finishing else Free) else s
    case InspectSlot =>
      if s.lock != Finishing then s
      else
        var log := s.log.(finishes := s.log.finishes + 1);
        if s.core.slot == Vacant then s.(lock := Draining, log := log)
        else s.(core := s.core.(slot := Occupied(true)), lock := Free, log := log)
    case DrainOne =>
      if s.lock != Draining then s
      else if s.core.queue == [] then
        s.(lock := Free, log := s.log.(drains := s.log.drains + 1, stragglers := s.holding + s.overdrawn))
      else TakeForFree(s, ByDrain)
    case Attach =>
      if s.lock == Free && s.core.slot == Vacant then
        s.(core := s.core.(slot := Occupied(false)), consumer := Ready)
      else s
    case Detach =>
      if s.lock == Free && s.core.slot.Occupied? && (s.consumer == Ready || s.consumer == Parked) then
        s.(core := s.core.(slot := Vacant), consumer := Detached,
           lock := if s.core.slot.drainOnDrop then Draining else Free)
      else s
    case _ => s
  }

  /** A finished second attempt removes the registration. */
  function Return(c: Core, again: bool): Core {
    if again then c.(registered := false) else c
  }

  function ConsumerStep(s: State, ev: Event): State {
    match ev
    case Poll =>
      if s.consumer != Ready && s.consumer != Rechecking then s
      else
        var again := s.consumer == Rechecking;
        var s' := if again then s else s.(core := s.core.(woken := false));
        if s.core.queue == [] then s'.(consumer := Emptied(again))
        else Take(s', ByConsumer).(consumer := Credit(s.core.queue[0], again))
    case GiveBack =>
      if s.consumer.Credit? then
        s.(core := Return(AddPermits(s.core, 1), s.consumer.again), consumer := Ready)
      else s
    case CheckClosed =>
      if !s.consumer.Emptied? then s
      else if s.core.closed then s.(consumer := Closing(s.consumer.again))
      else s.(consumer := if s.consumer.again then Parked else Registering)
    case TakeAfterClose =>
      if !s.consumer.Closing? then s
      else if s.core.queue == [] then s.(consumer := AwaitTrace(s.consumer.again))
      else
        var s' := TakeForFree(s, ByConsumer);
        s'.(core := Return(s'.core, s.consumer.again), consumer := Ready)
    case ReadTrace =>
      if s.consumer.AwaitTrace? && s.lock == Free then
        s.(core := Return(s.core, s.consumer.again), consumer := Ready)
      else s
    case Register =>
      if s.consumer == Registering then s.(core := s.core.(registered := true), consumer := Rechecking) else s
    case Repoll =>
      // Scheduled by the waker, or polled for an unrelated reason.
      if s.consumer == Parked then s.(consumer := Ready) else s
    case _ => s
  }

  function Step(s: State, ev: Event): State {
    match ev
    case Acquire(_) => SenderStep(s, ev)
    case Overdraw(_) => SenderStep(s, ev)
    case Refuse(_) => SenderStep(s, ev)
    case CancelSend(_) => SenderStep(s, ev)
    case Push(_) => SenderStep(s, ev)
    case NotifyRx(_) => SenderStep(s, ev)
    case SetCapacity(_) => ControlStep(s, ev)
    case BeginClose(_, _) => ControlStep(s, ev)
    case CloseSemaphore => ControlStep(s, ev)
    case CloseNotify => ControlStep(s, ev)
    case InspectSlot => ControlStep(s, ev)
    case DrainOne => ControlStep(s, ev)
    case Attach => ControlStep(s, ev)
    case Detach => ControlStep(s, ev)
    case _ => ConsumerStep(s, ev)
  }

  function Run(s: State, events: seq<Event>): State
    decreases |events|
  {
    if events == [] then s else Run(Step(s, events[0]), events[1..])
  }

  function After(capacity: nat, events: seq<Event>): State {
    Run(Init(capacity), events)
  }

  // === Invariants ===

  function InHand(s: State): nat {
    if s.consumer.Credit? then 1 else 0
  }

  /** Where every permit went. */
  ghost predicate Accounts(s: State) {
    && s.core.capacity <= MAX_PERMITS
    && s.core.permits + |s.holding| + |s.overdrawn| + |s.core.queue| + InHand(s) + s.log.unreturned
       == s.core.capacity + s.log.overdraft
    && (s.log.unreturned > 0 ==> s.core.closed)
  }

  function Envelopes(taken: seq<Taken>): seq<Envelope> {
    seq(|taken|, i requires 0 <= i < |taken| => taken[i].envelope)
  }

  function Count(e: Envelope, places: set<Envelope>): nat {
    if e in places then 1 else 0
  }

  /** In how many places an envelope is; what was enqueued is in the queue or was taken from it. */
  function Places(s: State, e: Envelope): nat {
    multiset(s.log.enqueued)[e] + Count(e, s.holding) + Count(e, s.overdrawn)
    + Count(e, s.log.returned) + Count(e, s.log.cancelled)
  }

  /** Every issued envelope is in exactly one place, and leaves the queue in the order it entered. */
  ghost predicate Conserves(s: State) {
    && s.log.enqueued == Envelopes(s.log.taken) + s.core.queue
    && forall e :: Places(s, e) == Count(e, s.log.issued)
  }

  /** Who may touch the consuming end, and what closing implies. */
  ghost predicate Protocol(s: State) {
    && (s.consumer == Detached <==> s.core.slot == Vacant)
    && (s.lock == Draining ==> s.core.slot == Vacant)
    && (s.core.closed ==> s.core.trace.Some?)
    && (s.lock.Marked? ==> !s.core.closed && s.core.trace.Some?)
    && (s.lock.Shut? || s.lock == Finishing || s.lock == Draining ==> s.core.closed)
    && (s.consumer.Closing? || s.consumer.AwaitTrace? ==> s.core.closed)
    && (s.log.finishes > 0 ==> s.core.closed)
    && (s.core.slot == Occupied(true) ==> s.log.finishes > 0)
  }

  /** While the consumer sleeps or is about to, whoever added work has yet to notify it. */
  ghost predicate Wakes(s: State) {
    && (s.consumer == Rechecking && !s.core.woken ==> s.core.registered)
    && (s.consumer == Emptied(true) || s.consumer == Parked ==>
          !s.core.woken ==> s.core.registered && (s.core.queue != [] ==> s.notifying != {}))
    && (s.consumer == Parked && !s.core.woken && s.core.closed ==> s.lock.Shut?)
  }

  function DrainsOwed(s: State): nat {
    if s.lock == Draining || s.core.slot == Occupied(true) then 1 else 0
  }

  /** Drains done and owed; what is left after a drain was in flight when it ended. */
  ghost predicate Drained(s: State) {
    && s.log.drains + DrainsOwed(s) <= s.log.finishes
    && (s.log.finishes > 0 ==> s.log.drains + DrainsOwed(s) > 0)
    && (s.log.drains > 0 ==>
          (forall e :: e in s.core.queue || e in s.holding || e in s.overdrawn ==> e in s.log.stragglers))
  }

  ghost predicate Inv(s: State) {
    Accounts(s) && Conserves(s) && Protocol(s) && Wakes(s) && Drained(s)
  }

  lemma PushKeepsAccounts(s: State, e: Envelope)
    requires Accounts(s) && Places(s, e) <= 1
    ensures Accounts(SenderStep(s, Push(e)))
  {
    if e in s.holding {
      assert s.overdrawn - {e} == s.overdrawn;
    } else {
      assert s.holding - {e} == s.holding;
    }
  }

  /** A new envelope is in nobody's hands yet. */
  lemma NewIsNowhere(s: State, e: Envelope)
    requires Conserves(s) && IsNew(s, e)
    ensures e !in s.holding && e !in s.overdrawn
  {
    assert Places(s, e) == Count(e, s.log.issued);
  }

  lemma SenderKeepsAccounts(s: State, ev: Event)
    requires Accounts(s) && Conserves(s)
    ensures Accounts(SenderStep(s, ev))
  {
    match ev
    case Acquire(e) => if IsNew(s, e) { NewIsNowhere(s, e); }
    case Overdraw(e) => if IsNew(s, e) { NewIsNowhere(s, e); }
    case Push(e) =>
      assert Places(s, e) == Count(e, s.log.issued);
      PushKeepsAccounts(s, e);
    case _ =>
  }

  lemma ControlKeepsAccounts(s: State, ev: Event)
    requires Accounts(s) && Protocol(s)
    ensures Accounts(ControlStep(s, ev))
  {
  }

  lemma ConsumerKeepsAccounts(s: State, ev: Event)
    requires Accounts(s) && Protocol(s)
    ensures Accounts(ConsumerStep(s, ev))
  {
  }

  lemma StepKeepsAccounts(s: State, ev: Event)
    requires Accounts(s) && Conserves(s) && Protocol(s)
    ensures Accounts(Step(s, ev))
  {
    SenderKeepsAccounts(s, ev);
    ControlKeepsAccounts(s, ev);
    ConsumerKeepsAccounts(s, ev);
  }

  lemma StepKeepsProtocol(s: State, ev: Event)
    requires Protocol(s)
    ensures Protocol(Step(s, ev))
  {
    ControlKeepsProtocol(s, ev);
    ConsumerKeepsProtocol(s, ev);
  }

  lemma ControlKeepsProtocol(s: State, ev: Event)
    requires Protocol(s)
    ensures Protocol(ControlStep(s, ev))
  {
  }

  lemma ConsumerKeepsProtocol(s: State, ev: Event)
    requires Protocol(s)
    ensures Protocol(ConsumerStep(s, ev))
  {
  }

  lemma StepKeepsWakes(s: State, ev: Event)
    requires Inv(s)
    ensures Wakes(Step(s, ev))
  {
  }

  lemma SenderKeepsDrained(s: State, ev: Event)
    requires Protocol(s) && Drained(s)
    ensures Drained(SenderStep(s, ev))
  {
  }

  lemma ControlKeepsDrained(s: State, ev: Event)
    requires Protocol(s) && Drained(s)
    ensures Drained(ControlStep(s, ev))
  {
  }

  lemma ConsumerKeepsDrained(s: State, ev: Event)
    requires Protocol(s) && Drained(s)
    ensures Drained(ConsumerStep(s, ev))
  {
  }

  lemma StepKeepsDrained(s: State, ev: Event)
    requires Protocol(s) && Drained(s)
    ensures Drained(Step(s, ev))
  {
    SenderKeepsDrained(s, ev);
    ControlKeepsDrained(s, ev);
    ConsumerKeepsDrained(s, ev);
  }

  lemma TakeKeepsOrder(s: State, party: Party)
    requires Conserves(s) && s.core.queue != []
    ensures Conserves(Take(s, party))
  {
    var s' := Take(s, party);
    forall e
      ensures Places(s', e) == Count(e, s'.log.issued)
    {
      assert Places(s, e) == Count(e, s.log.issued);
    }
    assert Envelopes(s'.log.taken) == Envelopes(s.log.taken) + [s.core.queue[0]];
    assert s.core.queue == [s.core.queue[0]] + s'.core.queue;
  }

  lemma SenderKeepsConserves(s: State, ev: Event)
    requires Conserves(s)
    ensures Conserves(SenderStep(s, ev))
  {
    var s' := SenderStep(s, ev);
    forall e
      ensures Places(s', e) == Count(e, s'.log.issued)
    {
      assert Places(s, e) == Count(e, s.log.issued);
      if s' != s && ev.Push? { assert s'.log.enqueued == s.log.enqueued + [ev.e]; }
    }
    if s' != s && ev.Push? {
      assert Envelopes(s.log.taken) + s.core.queue + [ev.e] == Envelopes(s.log.taken) + (s.core.queue + [ev.e]);
    }
  }

  predicate SameContents(s: State, s': State) {
    && s'.log.enqueued == s.log.enqueued && s'.log.taken == s.log.taken && s'.core.queue == s.core.queue
    && s'.holding == s.holding && s'.overdrawn == s.overdrawn
    && s'.log.returned == s.log.returned && s'.log.cancelled == s.log.cancelled && s'.log.issued == s.log.issued
  }

  lemma SameContentsConserves(s: State, s': State)
    requires Conserves(s) && SameContents(s, s')
    ensures Conserves(s')
  {
    forall e
      ensures Places(s', e) == Count(e, s'.log.issued)
    {
      assert Places(s, e) == Count(e, s.log.issued);
    }
  }

  /** Steps of the lock holder and the consumer take one envelope from the queue or none. */
  lemma OtherKeepsConserves(s: State, ev: Event, s': State)
    requires Conserves(s) && (s' == ControlStep(s, ev) || s' == ConsumerStep(s, ev))
    ensures Conserves(s')
  {
    if SameContents(s, s') {
      SameContentsConserves(s, s');
    } else {
      var party := if ev == DrainOne then ByDrain else ByConsumer;
      TakeKeepsOrder(s, party);
      SameContentsConserves(Take(s, party), s');
    }
  }

  lemma StepKeepsConserves(s: State, ev: Event)
    requires Conserves(s)
    ensures Conserves(Step(s, ev))
  {
    SenderKeepsConserves(s, ev);
    OtherKeepsConserves(s, ev, ControlStep(s, ev));
    OtherKeepsConserves(s, ev, ConsumerStep(s, ev));
  }

  lemma {:induction false} RunKeeps(s: State, events: seq<Event>)
    requires Inv(s)
    ensures Inv(Run(s, events))
    decreases |events|
  {
    if events != [] {
      StepKeepsAccounts(s, events[0]);
      StepKeepsConserves(s, events[0]);
      StepKeepsProtocol(s, events[0]);
      StepKeepsWakes(s, events[0]);
      StepKeepsDrained(s, events[0]);
      RunKeeps(Step(s, events[0]), events[1..]);
    }
  }

  // === Theorems over every run ===

  lemma Reachable(capacity: nat, events: seq<Event>)
    ensures Inv(After(capacity, events))
  {
    RunKeeps(Init(capacity), events);
  }

  /** A sleeping consumer that nobody is about to wake has nothing to do. */
  lemma NoLostWakeup(capacity: nat, events: seq<Event>)
    ensures var s := After(capacity, events);
            s.consumer == Parked && !s.core.woken && s.notifying == {} && !s.lock.Shut? ==>
              s.core.queue == [] && !s.core.closed
  {
    Reachable(capacity, events);
  }

  lemma PermitAccounting(capacity: nat, events: seq<Event>)
    ensures var s := After(capacity, events);
            && s.core.capacity <= MAX_PERMITS
            && (!s.core.closed ==>
                  s.core.permits + |s.holding| + |s.overdrawn| + |s.core.queue| + InHand(s)
                  == s.core.capacity + s.log.overdraft)
  {
    Reachable(capacity, events);
  }

  function Occupancy(s: State): nat {
    |s.holding| + |s.overdrawn| + |s.core.queue| + InHand(s) + s.log.unreturned
  }

  /**
   Setting the capacity in any run: it grows to what is asked for, up to the maximum, and shrinks to
   what is asked for, but not below the places taken. What is not taken then is free.
   */
  lemma CapacityIsSet(capacity: nat, events: seq<Event>, asked: nat)
    requires After(capacity, events).lock == Free
    ensures var s, t := After(capacity, events), Run(After(capacity, events), [SetCapacity(asked)]);
            && t == s.(core := t.core) && t.core == s.core.(capacity := t.core.capacity, permits := t.core.permits)
            && t.core.permits + Occupancy(s) == t.core.capacity + s.log.overdraft
            && t.core.capacity ==
               if asked >= s.core.capacity then Min(asked, MAX_PERMITS) else Max(asked, Occupancy(s) - s.log.overdraft)
  {
    Reachable(capacity, events);
    var s := After(capacity, events);
    assert Run(s, [SetCapacity(asked)]) == Step(s, SetCapacity(asked));
  }

  /**
   Handing back the permit of a received envelope overflows the semaphore exactly when the
   capacity and the unbounded sends that found the mailbox full, less the places taken, come to the
   maximum, so never without such sends. Growing the capacity is safe for every requested value
   exactly when those sends do not outnumber the places taken, that is, when there are no more
   permits than the capacity.
   */
  lemma PermitsOverflowOnlyByOverdraft(capacity: nat, events: seq<Event>)
    ensures var s := After(capacity, events);
            s.consumer.Credit? ==>
              && (Overflows(s.core, 1) <==> s.core.capacity + s.log.overdraft >= MAX_PERMITS + Occupancy(s))
              && (s.log.overdraft == 0 ==> !Overflows(s.core, 1))
    ensures var s := After(capacity, events);
            (forall c: nat :: c >= s.core.capacity ==> !Overflows(s.core, ClampCapacity(c) - s.core.capacity))
            <==> s.log.overdraft <= Occupancy(s)
    ensures var s := After(capacity, events); s.log.overdraft <= Occupancy(s) <==> s.core.permits <= s.core.capacity
  {
    Reachable(capacity, events);
    var s := After(capacity, events);
    if s.log.overdraft > Occupancy(s) {
      assert Overflows(s.core, ClampCapacity(MAX_PERMITS) - s.core.capacity);
    }
  }

  /** One slot, filled twice and emptied: the semaphore now holds more permits than the capacity. */
  lemma OverdraftCanOverflow()
    ensures var s := After(1, FillTwice() + EmptyTwice());
            s.core.capacity == 1 && Overflows(s.core, ClampCapacity(MAX_PERMITS) - s.core.capacity)
  {
    RunUnfold(Init(1), FillTwice(), EmptyTwice());
    FilledTwice();
    EmptiedTwice(Run(Init(1), FillTwice()));
  }

  function FillTwice(): seq<Event> {
    [Acquire(0), Push(0), Overdraw(1), Push(1)]
  }

  function EmptyTwice(): seq<Event> {
    [Attach, Poll, GiveBack, Poll] + [GiveBack]
  }

  lemma FilledTwice()
    ensures var s := Run(Init(1), FillTwice());
            s.core == Fresh(1).(queue := [0, 1], permits := 0) && s.lock == Free && s.consumer == Detached
  {
    RunFour(Init(1), FillTwice());
  }

  lemma EmptiedTwice(s: State)
    requires s.core == Fresh(1).(queue := [0, 1], permits := 0) && s.lock == Free && s.consumer == Detached
    ensures var s' := Run(s, EmptyTwice());
            s'.core.permits == 2 && s'.core.capacity == 1
  {
    RunUnfold(s, [Attach, Poll, GiveBack, Poll], [GiveBack]);
    RunFour(s, [Attach, Poll, GiveBack, Poll]);
    var s2 := Step(Step(s, Attach), Poll);
    assert s2.core.queue == [1] && s2.consumer.Credit?;
    var s4 := Step(Step(s2, GiveBack), Poll);
    assert s4.core.permits == 1 && s4.consumer.Credit?;
    assert Run(s4, [GiveBack]) == Step(s4, GiveBack);
  }

  lemma {:induction false} RunUnfold(s: State, a: seq<Event>, b: seq<Event>)
    ensures Run(s, a + b) == Run(Run(s, a), b)
    decreases |a|
  {
    if a == [] {
      assert a + b == b;
    } else {
      assert (a + b)[1..] == a[1..] + b;
      RunUnfold(Step(s, a[0]), a[1..], b);
    }
  }

  lemma RunFour(s: State, e: seq<Event>)
    requires |e| == 4
    ensures Run(s, e) == Step(Step(Step(Step(s, e[0]), e[1]), e[2]), e[3])
  {
    assert e[1..][1..] == e[2..] && e[2..][1..] == e[3..] && e[3..][1..] == [];
    var s1 := Step(s, e[0]);
    var s2 := Step(s1, e[1]);
    var s3 := Step(s2, e[2]);
    assert Run(s1, e[1..]) == Run(s2, e[2..]);
    assert Run(s2, e[2..]) == Run(s3, e[3..]);
    assert Run(s3, e[3..]) == Step(s3, e[3]);
  }

  /**
   Every issued envelope is in exactly one of: in flight, queued, taken, returned to its sender,
   cancelled; and envelopes are taken in the order in which they were enqueued.
   */
  lemma Delivery(capacity: nat, events: seq<Event>, e: Envelope)
    ensures var s := After(capacity, events);
            && Envelopes(s.log.taken) + s.core.queue == s.log.enqueued
            && multiset(Envelopes(s.log.taken))[e] + multiset(s.core.queue)[e]
               + Count(e, s.holding) + Count(e, s.overdrawn) + Count(e, s.log.returned) + Count(e, s.log.cancelled)
               == Count(e, s.log.issued)
  {
    Reachable(capacity, events);
    var s := After(capacity, events);
    assert Places(s, e) == Count(e, s.log.issued);
  }

  /**
   The consumer gives up only after it saw the queue empty in a closed mailbox, and then the
   trace id is there; it never dequeues while somebody else drains.
   */
  lemma ClosedMeansEmpty(capacity: nat, events: seq<Event>, ev: Event)
    ensures var s := After(capacity, events);
            && (s.consumer.AwaitTrace? ==> s.core.closed && s.core.trace.Some?)
            && (Step(s, ev).consumer.AwaitTrace? && !s.consumer.AwaitTrace? ==> s.core.closed && s.core.queue == [])
            && (s.lock == Draining ==> s.consumer == Detached)
  {
    Reachable(capacity, events);
    GivesUpOnEmpty(After(capacity, events), ev);
  }

  lemma GivesUpOnEmpty(s: State, ev: Event)
    requires Protocol(s)
    ensures Step(s, ev).consumer.AwaitTrace? && !s.consumer.AwaitTrace? ==> s.core.closed && s.core.queue == []
  {
  }

  /**
   When an actor has finished once and its consumer is gone, in either order, exactly one drain
   took place; what the queue holds since then was in flight when that drain ended.
   */
  lemma DrainedByExactlyOne(capacity: nat, events: seq<Event>)
    requires var s := After(capacity, events);
             s.log.finishes > 0 && s.core.slot == Vacant && s.lock == Free
    ensures var s := After(capacity, events);
            && s.core.closed
            && s.log.drains > 0
            && (s.log.finishes == 1 ==> s.log.drains == 1)
            && (forall e :: e in s.core.queue ==> e in s.log.stragglers)
  {
    Reachable(capacity, events);
  }

  /** The queue stays empty from then on exactly when no sender is in flight any more. */
  lemma StaysEmptyIff(capacity: nat, events: seq<Event>)
    requires var s := After(capacity, events);
             s.core.closed && s.core.queue == []
    ensures var s := After(capacity, events);
            (forall more: seq<Event> :: Run(s, more).core.queue == []) <==> s.holding + s.overdrawn == {}
  {
    var s := After(capacity, events);
    if s.holding + s.overdrawn == {} {
      forall more: seq<Event>
        ensures Run(s, more).core.queue == []
      {
        QuietStaysEmpty(s, more);
      }
    } else {
      var e :| e in s.holding + s.overdrawn;
      assert Run(s, [Push(e)]) == Step(s, Push(e));
      assert Run(s, [Push(e)]).core.queue == [e];
    }
  }

  /** A sender that took its permit before the close is still in flight after it, and its envelope arrives late. */
  lemma LateEnvelopeIsReachable() returns (events: seq<Event>)
    ensures var s := After(1, events);
            s.core.closed && s.core.queue == [] && s.holding == {0} && Run(s, [Push(0)]).core.queue == [0]
  {
    events := [Acquire(0), BeginClose(1, false), CloseSemaphore];
    var s1 := Step(Init(1), events[0]);
    var s2 := Step(s1, events[1]);
    var s3 := Step(s2, events[2]);
    assert events[1..] == [events[1], events[2]] && events[1..][1..] == [events[2]];
    assert Run(s2, [events[2]]) == s3;
    assert Run(s1, events[1..]) == s3;
    assert After(1, events) == s3;
    assert Run(s3, [Push(0)]) == Step(s3, Push(0));
  }

  lemma {:induction false} QuietStaysEmpty(s: State, more: seq<Event>)
    requires s.core.closed && s.core.queue == [] && s.holding + s.overdrawn == {}
    ensures Run(s, more).core.queue == []
    decreases |more|
  {
    if more != [] {
      QuietStaysEmpty(Step(s, more[0]), more[1..]);
    }
  }

  // === Operations that nobody interferes with ===

  /** The class runs the steps of an operation without interruption; here they are steps of the machine. */
  lemma ClosingSteps(s: State, trace: TraceId, finishing: bool)
    requires s.lock == Free
    ensures var t := Run(s, [BeginClose(trace, finishing), CloseSemaphore, CloseNotify]);
            t == s.(core := ShutDown(s.core, trace), lock := if finishing then Finishing else Free)
  {
    RunThree(s, [BeginClose(trace, finishing), CloseSemaphore, CloseNotify]);
  }

  lemma SendingSteps(s: State, e: Envelope)
    requires IsNew(s, e) && !s.core.closed
    ensures var start := if s.core.permits > 0 then Acquire(e) else Overdraw(e);
            var c := if s.core.permits > 0 then TakePermit(s.core) else s.core;
            Run(s, [start, Push(e), NotifyRx(e)]).core == Notify(Enqueue(c, e))
  {
    var start := if s.core.permits > 0 then Acquire(e) else Overdraw(e);
    RunThree(s, [start, Push(e), NotifyRx(e)]);
  }

  lemma ReceivingSteps(s: State)
    requires s.consumer == Ready && s.core.queue != []
    ensures var t := Run(s, [Poll, GiveBack]);
            && t.core == AddPermits(Dequeue(s.core), 1).(woken := false) && t.consumer == Ready
            && t.log.taken == s.log.taken + [Taken(s.core.queue[0], ByConsumer)]
  {
    var events := [Poll, GiveBack];
    assert events[1..] == [GiveBack] && events[1..][1..] == [];
    assert Run(Step(s, Poll), [GiveBack]) == Step(Step(s, Poll), GiveBack);
  }

  function Drains(n: nat): seq<Event> {
    if n == 0 then [] else [DrainOne] + Drains(n - 1)
  }

  /** A drain takes the whole queue, in order, and gives no permit back. */
  lemma {:induction false} DrainingSteps(s: State)
    requires s.lock == Draining
    ensures var t := Run(s, Drains(|s.core.queue| + 1));
            && t.core == s.core.(queue := []) && t.lock == Free
            && Envelopes(t.log.taken) == Envelopes(s.log.taken) + s.core.queue
    decreases |s.core.queue|
  {
    var events := Drains(|s.core.queue| + 1);
    assert events[0] == DrainOne && events[1..] == Drains(|s.core.queue|);
    if s.core.queue != [] {
      DrainingSteps(Step(s, DrainOne));
    }
  }

  lemma RunThree(s: State, e: seq<Event>)
    requires |e| == 3
    ensures Run(s, e) == Step(Step(Step(s, e[0]), e[1]), e[2])
  {
    assert e[1..][1..] == e[2..] && e[2..][1..] == [];
    var s1 := Step(s, e[0]);
    var s2 := Step(s1, e[1]);
    assert Run(s1, e[1..]) == Run(s2, e[2..]);
    assert Run(s2, e[2..]) == Step(s2, e[2]);
  }

  /** Finishing an actor closes its mailbox and empties it, or leaves that to the consumer. */
  lemma FinishingSteps(s: State, trace: TraceId)
    requires s.lock == Free
    ensures var closing := [BeginClose(trace, true), CloseSemaphore, CloseNotify] + [InspectSlot];
            if s.core.slot == Vacant then
              Run(s, closing + Drains(|s.core.queue| + 1)).core == ShutDown(s.core, trace).(queue := [])
            else Run(s, closing).core == ShutDown(s.core, trace).(slot := Occupied(true))
  {
    var begin := [BeginClose(trace, true), CloseSemaphore, CloseNotify];
    ClosingSteps(s, trace, true);
    RunUnfold(s, begin, [InspectSlot]);
    var t := Run(s, begin + [InspectSlot]);
    assert t == Step(Run(s, begin), InspectSlot);
    if s.core.slot == Vacant {
      RunUnfold(s, begin + [InspectSlot], Drains(|s.core.queue| + 1));
      DrainingSteps(t);
    }
  }

  // === The mailbox as an object ===

  datatype TrySendError = Full | Closed

  datatype RecvResult = Data(envelope: Envelope) | ClosedWith(trace: TraceId)

  class Mailbox {
    var queue: seq<Envelope>
    var permits: nat
    var closed: bool
    var closedTrace: Option<TraceId>
    var capacity: nat
    var slot: Slot
    var registered: bool
    var woken: bool

    function View(): Core
      reads this
    {
      Core(queue, permits, closed, closedTrace, capacity, slot, registered, woken)
    }

    predicate Valid()
      reads this
    {
      capacity <= MAX_PERMITS && (closed ==> closedTrace.Some?)
    }

    constructor (capacity: nat)
      ensures Valid() && View() == Fresh(capacity)
      ensures this.capacity == permits == Min(capacity, MAX_PERMITS) && queue == [] && !closed && slot == Vacant
    {
      var clamped := if capacity <= MAX_PERMITS then capacity else MAX_PERMITS;
      queue, permits, closed, closedTrace := [], clamped, false, None;
      this.capacity := clamped;
      slot, registered, woken := Vacant, false, false;
    }

    method WakeRx()
      modifies this`registered, this`woken
      ensures View() == Notify(old(View()))
    {
      if registered {
        registered, woken := false, true;
      }
    }

    /** Returns how many permits were actually taken back. */
    method ForgetPermits(n: nat) returns (forgotten: nat)
      modifies this`permits
      ensures forgotten == Min(n, old(permits)) && permits == old(permits) - forgotten
    {
      forgotten := if n <= permits then n else permits;
      permits := permits - forgotten;
    }

    /** The semaphore panics instead of exceeding its maximum. */
    method GrantPermits(n: nat) returns (panicked: bool)
      modifies this`permits
      ensures panicked <==> Overflows(old(View()), n)
      ensures permits == old(permits) + if panicked then 0 else n
    {
      panicked := permits + n > MAX_PERMITS;
      if !panicked {
        permits := permits + n;
      }
    }

    method SetCapacity(capacity: nat) returns (panicked: bool)
      requires Valid()
      modifies this`permits, this`capacity
      ensures Valid()
      ensures panicked <==>
              capacity > old(this.capacity) && Overflows(old(View()), ClampCapacity(capacity) - old(this.capacity))
      ensures View() == if panicked then old(View()) else Resize(old(View()), capacity)
      ensures !panicked ==>
                this.capacity == if capacity >= old(this.capacity) then Min(capacity, MAX_PERMITS)
                                 else Max(capacity, old(this.capacity) - old(permits))
      ensures permits - old(permits) == this.capacity - old(this.capacity)
    {
      if capacity == this.capacity {
        return false;
      }
      if capacity < this.capacity {
        var realDelta := ForgetPermits(this.capacity - capacity);
        this.capacity := this.capacity - realDelta;
        return false;
      }
      var realDelta := ClampCapacity(capacity) - this.capacity;
      panicked := GrantPermits(realDelta);
      if !panicked {
        this.capacity := this.capacity + realDelta;
      }
    }

    method TrySend(e: Envelope) returns (r: Result<(), TrySendError>)
      requires Valid()
      modifies this`permits, this`queue, this`registered, this`woken
      ensures Valid()
      ensures r == if old(closed) then Err(Closed) else if old(permits) == 0 then Err(Full) else Ok(())
      ensures View() == if r.Ok? then Notify(Enqueue(TakePermit(old(View())), e)) else old(View())
    {
      if closed {
        return Err(Closed);
      }
      if permits == 0 {
        return Err(Full);
      }
      permits := permits - 1;
      queue := queue + [e];
      WakeRx();
      r := Ok(());
    }

    method UnboundedSend(e: Envelope) returns (ok: bool)
      requires Valid()
      modifies this`permits, this`queue, this`registered, this`woken
      ensures Valid() && ok == !old(closed)
      ensures !ok ==> View() == old(View())
      ensures ok ==>
                View() == Notify(Enqueue(if old(permits) == 0 then old(View()) else TakePermit(old(View())), e))
    {
      if closed {
        return false;
      }
      if permits > 0 {
        permits := permits - 1;
      }
      queue := queue + [e];
      WakeRx();
      ok := true;
    }

    method Close(trace: TraceId) returns (first: bool)
      requires Valid()
      modifies this`closed, this`closedTrace, this`registered, this`woken
      ensures Valid() && closed
      ensures first == !old(closed) && View() == ShutDown(old(View()), trace)
    {
      if closed {
        return false;
      }
      closedTrace := Some(trace);
      closed := true;
      WakeRx();
      first := true;
    }

    /** Takes everything out of the queue. */
    method Drain() returns (drained: seq<Envelope>)
      modifies this`queue
      ensures queue == [] && drained == old(queue)
    {
      drained := [];
      while queue != []
        invariant drained + queue == old(queue)
        decreases |queue|
      {
        drained := drained + [queue[0]];
        queue := queue[1..];
      }
    }

    /** Drains at once if no consumer is attached, otherwise leaves it to the consumer's detach. */
    method CloseAndTryDrain(trace: TraceId) returns (drained: bool)
      requires Valid()
      modifies this
      ensures Valid() && closed
      ensures drained == (old(slot) == Vacant)
      ensures View() == if drained then ShutDown(old(View()), trace).(queue := [])
                        else ShutDown(old(View()), trace).(slot := Occupied(true))
    {
      var _ := Close(trace);
      if slot == Vacant {
        var _ := Drain();
        return true;
      }
      slot := Occupied(true);
      drained := false;
    }

    /** The source panics if a consumer is already attached. */
    method AttachConsumer()
      requires slot == Vacant
      modifies this`slot
      ensures slot == Occupied(false)
    {
      slot := Occupied(false);
    }

    method DetachConsumer()
      requires slot.Occupied?
      modifies this`slot, this`queue
      ensures slot == Vacant
      ensures queue == if old(slot).drainOnDrop then [] else old(queue)
    {
      var previous := slot;
      slot := Vacant;
      if previous.drainOnDrop {
        var _ := Drain();
      }
    }

    /** If the permit cannot be returned, the consumer panics with the envelope already taken out. */
    method TryReceive() returns (r: Option<RecvResult>, panicked: bool)
      requires Valid()
      modifies this`queue, this`permits
      ensures Valid()
      ensures panicked <==> old(queue) != [] && Overflows(old(View()), 1)
      ensures old(queue) != [] ==>
                && r == Some(Data(old(queue)[0]))
                && View() == AddPermits(Dequeue(old(View())), if panicked then 0 else 1)
      ensures old(queue) == [] ==>
                View() == old(View()) && r == if closed then Some(ClosedWith(closedTrace.value)) else None
    {
      panicked := false;
      if queue != [] {
        r := Some(Data(queue[0]));
        queue := queue[1..];
        panicked := GrantPermits(1);
      } else if closed {
        var result := OnClose();
        r := Some(result);
      } else {
        r := None;
      }
    }

    /** Senders that hold a permit may have enqueued since the queue was found empty. */
    method OnClose() returns (r: RecvResult)
      requires Valid() && closed
      modifies this`queue
      ensures Valid()
      ensures old(queue) != [] ==> r == Data(old(queue)[0]) && View() == Dequeue(old(View()))
      ensures old(queue) == [] ==> r == ClosedWith(closedTrace.value) && View() == old(View())
    {
      if queue != [] {
        r := Data(queue[0]);
        queue := queue[1..];
      } else {
        r := ClosedWith(closedTrace.value);
      }
    }
  }
}
