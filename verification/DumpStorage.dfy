/**
 The storage of dumps: every thread appends to the active part of its own shard; full parts
 move to the shared fund, from which draining iterators take them. The number of parts is
 bounded, and at the limit the oldest part of the most filled shard is evicted.

 The machine is at the granularity of the two kinds of locks: the fund's, and the one around
 each active part. Renewing an active part holds the fund's lock throughout but lets go of
 the shard's lock between the test and the swap, so its owner may push in between.
 */
module DumpStorage {
  import opened Prelude

  const PART_CAPACITY: nat := 8191

  type ShardNo = nat

  /** A dump is identified by its number among those added by the thread that owns the shard. */
  type Dump = nat

  type Part = seq<Dump>

  /** The fund, together with everything it has evicted so far. */
  datatype Fund = Fund(
    maxPartCount: nat,
    partCount: nat,
    emptyParts: seq<Part>,
    filledParts: seq<seq<Part>>,
    evicted: seq<seq<Dump>>)

  // === The fund's operations as functions ===

  /** The last of the longest queues. */
  function MostFilled(queues: seq<seq<Part>>): (best: nat)
    requires queues != []
    ensures best < |queues|
    ensures forall j :: 0 <= j < |queues| ==> |queues[j]| <= |queues[best]|
    ensures forall j :: best < j < |queues| ==> |queues[j]| < |queues[best]|
  {
    var last := |queues| - 1;
    if last == 0 then 0
    else
      var best := MostFilled(queues[..last]);
      if |queues[last]| >= |queues[best]| then last else best
  }

  predicate CanEvict(f: Fund) {
    f.filledParts != [] && f.filledParts[MostFilled(f.filledParts)] != []
  }

  /** Drops the oldest part of the most filled shard. */
  function Evict(f: Fund): Fund
    requires CanEvict(f) && |f.evicted| == |f.filledParts|
  {
    var m := MostFilled(f.filledParts);
    f.(filledParts := f.filledParts[m := f.filledParts[m][1..]],
       evicted := f.evicted[m := f.evicted[m] + f.filledParts[m][0]])
  }

  /** The fund after an empty part is taken from it. */
  function WithoutEmpty(f: Fund): Fund
    requires |f.evicted| == |f.filledParts|
  {
    if f.emptyParts != [] then f.(emptyParts := f.emptyParts[..|f.emptyParts| - 1])
    else if f.partCount >= f.maxPartCount && CanEvict(f) then Evict(f)
    else f.(partCount := f.partCount + 1)
  }

  function WithShard(f: Fund): Fund {
    f.(filledParts := f.filledParts + [[]], evicted := f.evicted + [[]])
  }

  function WithFilled(f: Fund, i: ShardNo, part: Part): Fund
    requires i < |f.filledParts|
  {
    f.(filledParts := f.filledParts[i := f.filledParts[i] + [part]])
  }

  function WithoutFilled(f: Fund, i: ShardNo): Fund
    requires i < |f.filledParts| && f.filledParts[i] != []
  {
    f.(filledParts := f.filledParts[i := f.filledParts[i][1..]])
  }

  function WithEmpty(f: Fund, part: Part): Fund {
    f.(emptyParts := f.emptyParts + [part])
  }

  /** Frees empty parts while there are too many parts. */
  function Trimmed(f: Fund, max: nat): (g: Fund)
    ensures g.filledParts == f.filledParts && g.evicted == f.evicted
    ensures g.partCount <= max || g.emptyParts == []
    decreases |f.emptyParts|
  {
    if f.partCount > max && f.emptyParts != [] then
      Trimmed(f.(emptyParts := f.emptyParts[..|f.emptyParts| - 1], partCount := f.partCount - 1), max)
    else f
  }

  function EvictedOne(f: Fund): Fund
    requires CanEvict(f) && |f.evicted| == |f.filledParts| && f.partCount > 0
  {
    Evict(f).(partCount := f.partCount - 1)
  }

  /** Evicts filled parts while there are too many parts. */
  function EvictedDown(f: Fund, max: nat): (g: Fund)
    requires |f.evicted| == |f.filledParts|
    ensures |g.filledParts| == |f.filledParts| && |g.evicted| == |f.evicted|
    ensures g.partCount <= max || !CanEvict(g)
    decreases f.partCount
  {
    if f.partCount > max && CanEvict(f) then EvictedDown(EvictedOne(f), max) else f
  }

  function Configured(f: Fund, max: nat): Fund
    requires |f.evicted| == |f.filledParts|
  {
    EvictedDown(Trimmed(f, max), max).(maxPartCount := max)
  }

  // === The machine ===

  /** The owner of a shard must renew the active part it has just filled before it adds again. */
  datatype Owner = Idle | MustRenew

  datatype Held = Held(shard: ShardNo, part: Part)

  /** Who is between the test and the swap of an active part. */
  datatype Lock = Free | Renewing(shard: ShardNo, byOwner: bool)

  datatype State = State(
    fund: Fund,
    active: seq<Part>,
    owners: seq<Owner>,
    held: seq<Option<Held>>,    // the current part of every draining iterator
    lock: Lock,
    added: seq<nat>,            // how many dumps each shard has got so far
    emitted: seq<seq<Dump>>)    // what the iterators have returned, by shard

  datatype Event =
    | MakeShard
    | Add(shard: ShardNo)
    | TestForRenewal(shard: ShardNo, byOwner: bool)
    | Swap
    | TakeFilled(drain: nat, shard: ShardNo)
    | Emit(drain: nat)
    | ReturnEmpty(drain: nat)
    | DropDrain(drain: nat)
    | Configure(max: nat)

  function Init(max: nat, drains: nat): State {
    State(Fund(max, 0, [], [], []), [], [], seq(drains, _ => None), Free, [], [])
  }

  ghost predicate Shape(s: State) {
    && |s.fund.filledParts| == |s.active| && |s.fund.evicted| == |s.active|
    && |s.owners| == |s.active| && |s.added| == |s.active| && |s.emitted| == |s.active|
    && (forall d :: 0 <= d < |s.held| && s.held[d].Some? ==> s.held[d].value.shard < |s.active|)
    && (s.lock.Renewing? ==> s.lock.shard < |s.active|)
  }

  function StepMakeShard(s: State): State
    requires |s.fund.evicted| == |s.fund.filledParts|
  {
    s.(fund := WithoutEmpty(WithShard(s.fund)), active := s.active + [[]], owners := s.owners + [Idle],
       added := s.added + [0], emitted := s.emitted + [[]])
  }

  function StepAdd(s: State, i: ShardNo): State
    requires i < |s.active| && i < |s.owners| && i < |s.added|
  {
    var part := s.active[i] + [s.added[i]];
    s.(active := s.active[i := part],
       owners := s.owners[i := if |part| == PART_CAPACITY then MustRenew else Idle],
       added := s.added[i := s.added[i] + 1])
  }

  function StepTest(s: State, i: ShardNo, byOwner: bool): State
    requires i < |s.active| && i < |s.owners|
  {
    if (if byOwner then |s.active[i]| == PART_CAPACITY else s.active[i] != []) then
      s.(lock := Renewing(i, byOwner))
    else if byOwner then s.(owners := s.owners[i := Idle])
    else s
  }

  function StepSwap(s: State): State
    requires Shape(s) && s.lock.Renewing?
  {
    var i := s.lock.shard;
    s.(fund := WithFilled(WithoutEmpty(s.fund), i, s.active[i]),
       active := s.active[i := []],
       owners := if s.lock.byOwner then s.owners[i := Idle] else s.owners,
       lock := Free)
  }

  function StepTake(s: State, d: nat, i: ShardNo): State
    requires d < |s.held| && i < |s.fund.filledParts| && s.fund.filledParts[i] != []
  {
    s.(fund := WithoutFilled(s.fund, i), held := s.held[d := Some(Held(i, s.fund.filledParts[i][0]))])
  }

  function StepEmit(s: State, d: nat): State
    requires d < |s.held| && s.held[d].Some? && s.held[d].value.part != [] && s.held[d].value.shard < |s.emitted|
  {
    var h := s.held[d].value;
    s.(held := s.held[d := Some(h.(part := h.part[1..]))],
       emitted := s.emitted[h.shard := s.emitted[h.shard] + [h.part[0]]])
  }

  function StepReturn(s: State, d: nat): State
    requires d < |s.held| && s.held[d].Some?
  {
    s.(fund := WithEmpty(s.fund, s.held[d].value.part), held := s.held[d := None])
  }

  function StepDrop(s: State, d: nat): State
    requires d < |s.held| && s.held[d].Some? && s.held[d].value.shard < |s.fund.filledParts|
  {
    s.(fund := WithFilled(s.fund, s.held[d].value.shard, s.held[d].value.part), held := s.held[d := None])
  }

  predicate Holds(s: State, d: nat) {
    d < |s.held| && s.held[d].Some?
  }

  /** Whether the event can happen; everything that touches the fund needs its lock. */
  predicate Enabled(s: State, e: Event) {
    match e
    case MakeShard => s.lock == Free
    case Add(i) => i < |s.owners| && s.owners[i] == Idle
    case TestForRenewal(i, byOwner) => s.lock == Free && i < |s.owners| && (byOwner ==> s.owners[i] == MustRenew)
    case Swap => s.lock.Renewing?
    case TakeFilled(d, i) =>
      s.lock == Free && d < |s.held| && s.held[d] == None && i < |s.fund.filledParts| && s.fund.filledParts[i] != []
    case Emit(d) => Holds(s, d) && s.held[d].value.part != []
    case ReturnEmpty(d) => s.lock == Free && Holds(s, d) && s.held[d].value.part == []
    case DropDrain(d) => s.lock == Free && Holds(s, d) && s.held[d].value.part != []
    case Configure(_) => s.lock == Free
  }

  ghost function Step(s: State, e: Event): State
    requires Shape(s)
  {
    if !Enabled(s, e) then s
    else
      match e
      case MakeShard => StepMakeShard(s)
      case Add(i) => StepAdd(s, i)
      case TestForRenewal(i, byOwner) => StepTest(s, i, byOwner)
      case Swap => StepSwap(s)
      case TakeFilled(d, i) => StepTake(s, d, i)
      case Emit(d) => StepEmit(s, d)
      case ReturnEmpty(d) => StepReturn(s, d)
      case DropDrain(d) => StepDrop(s, d)
      case Configure(max) => s.(fund := Configured(s.fund, max))
  }

  lemma StepKeepsShape(s: State, e: Event)
    requires Shape(s)
    ensures Shape(Step(s, e)) && |Step(s, e).held| == |s.held| && |s.active| <= |Step(s, e).active|
  {
  }

  ghost function Run(s: State, events: seq<Event>): State
    requires Shape(s)
    decreases |events|
  {
    if events == [] then s
    else
      StepKeepsShape(s, events[0]);
      Run(Step(s, events[0]), events[1..])
  }

  // === Invariants ===

  /** Parts in the fund are empty or filled as their list says, and no part is overfull. */
  ghost predicate FundParts(f: Fund) {
    && (forall p :: 0 <= p < |f.emptyParts| ==> f.emptyParts[p] == [])
    && (forall i, p :: 0 <= i < |f.filledParts| && 0 <= p < |f.filledParts[i]| ==>
          0 < |f.filledParts[i][p]| <= PART_CAPACITY)
  }

  ghost predicate Parts(s: State)
    requires Shape(s)
  {
    && FundParts(s.fund)
    && (forall i :: 0 <= i < |s.active| ==>
          |s.active[i]| <= PART_CAPACITY && (|s.active[i]| == PART_CAPACITY ==> s.owners[i] == MustRenew))
    && (forall d :: 0 <= d < |s.held| && s.held[d].Some? ==> |s.held[d].value.part| <= PART_CAPACITY)
    && (s.lock.Renewing? ==> s.active[s.lock.shard] != [])
  }

  function QueueLength(q: seq<Part>): nat {
    |q|
  }

  function HeldCount(h: Option<Held>): nat {
    if h.Some? then 1 else 0
  }

  function FundCount(f: Fund): nat {
    |f.emptyParts| + SumBy(f.filledParts, QueueLength)
  }

  ghost predicate Counts(s: State) {
    s.fund.partCount == FundCount(s.fund) + |s.active| + SumBy(s.held, HeldCount)
  }

  ghost predicate Bounded(s: State) {
    s.fund.partCount <= Max(s.fund.maxPartCount, |s.active| + |s.held| + 1)
  }

  function PartCopies(k: Dump): Part -> nat {
    (p: Part) => multiset(p)[k]
  }

  function HeldCopies(i: ShardNo, k: Dump): Option<Held> -> nat {
    (h: Option<Held>) => if h.Some? && h.value.shard == i then multiset(h.value.part)[k] else 0
  }

  function FundCopies(evicted: seq<Dump>, queue: seq<Part>, k: Dump): nat {
    multiset(evicted)[k] + SumBy(queue, PartCopies(k))
  }

  /** Both funds account for the same dumps of every shard. */
  ghost predicate SameDumps(f: Fund, g: Fund) {
    && |f.evicted| == |f.filledParts| && |g.evicted| == |f.evicted| && |g.filledParts| == |f.filledParts|
    && forall i, k :: 0 <= i < |f.filledParts| ==>
         FundCopies(g.evicted[i], g.filledParts[i], k) == FundCopies(f.evicted[i], f.filledParts[i], k)
  }

  /** In how many places a dump of a shard is. */
  ghost function Copies(s: State, i: ShardNo, k: Dump): nat
    requires Shape(s) && i < |s.active|
  {
    FundCopies(s.fund.evicted[i], s.fund.filledParts[i], k) + multiset(s.active[i])[k] + multiset(s.emitted[i])[k] + SumBy(s.held, HeldCopies(i, k))
  }

  ghost predicate PlacedOnce(s: State, i: ShardNo, k: Dump)
    requires Shape(s) && i < |s.active|
  {
    Copies(s, i, k) == if k < s.added[i] then 1 else 0
  }

  ghost predicate Conserves(s: State)
    requires Shape(s)
  {
    forall i, k: nat :: 0 <= i < |s.active| ==> PlacedOnce(s, i, k)
  }

  ghost predicate Inv(s: State) {
    Shape(s) && Parts(s) && Counts(s) && Bounded(s) && Conserves(s)
  }

  // === The fund's operations keep the books ===

  lemma EvictKeeps(f: Fund)
    requires CanEvict(f) && |f.evicted| == |f.filledParts| && FundParts(f)
    ensures FundParts(Evict(f)) && FundCount(Evict(f)) == FundCount(f) - 1
  {
    var m := MostFilled(f.filledParts);
    SumByUpdate(f.filledParts, m, f.filledParts[m][1..], QueueLength);
  }

  lemma EvictKeepsDumps(f: Fund)
    requires CanEvict(f) && |f.evicted| == |f.filledParts|
    ensures SameDumps(f, Evict(f))
  {
  }

  lemma NothingToEvict(f: Fund)
    requires !CanEvict(f)
    ensures SumBy(f.filledParts, QueueLength) == 0
  {
    if f.filledParts != [] {
      SumByZero(f.filledParts, QueueLength);
    }
  }

  lemma WithoutEmptyKeeps(f: Fund)
    requires |f.evicted| == |f.filledParts| && FundParts(f)
    ensures var g := WithoutEmpty(f);
            && FundParts(g)
            && g.partCount - FundCount(g) == f.partCount - FundCount(f) + 1
            && g.maxPartCount == f.maxPartCount
            && (g.partCount > f.partCount ==> g.partCount <= f.maxPartCount || FundCount(f) == 0)
  {
    if f.emptyParts == [] {
      if CanEvict(f) { EvictKeeps(f); } else { NothingToEvict(f); }
    }
  }

  lemma WithoutEmptyKeepsDumps(f: Fund)
    requires |f.evicted| == |f.filledParts|
    ensures SameDumps(f, WithoutEmpty(f))
  {
    if CanEvict(f) { EvictKeepsDumps(f); }
  }

  lemma {:induction false} TrimmedKeeps(f: Fund, max: nat)
    requires FundParts(f)
    ensures FundParts(Trimmed(f, max)) && Trimmed(f, max).partCount - FundCount(Trimmed(f, max)) == f.partCount - FundCount(f)
    decreases |f.emptyParts|
  {
    if f.partCount > max && f.emptyParts != [] {
      TrimmedKeeps(f.(emptyParts := f.emptyParts[..|f.emptyParts| - 1], partCount := f.partCount - 1), max);
    }
  }

  lemma EvictedOneKeeps(f: Fund)
    requires CanEvict(f) && |f.evicted| == |f.filledParts| && FundParts(f) && f.partCount > 0
    ensures var g := EvictedOne(f);
            FundParts(g) && g.partCount - FundCount(g) == f.partCount - FundCount(f) && g.emptyParts == f.emptyParts
  {
    EvictKeeps(f);
  }

  lemma {:induction false} EvictedDownKeeps(f: Fund, max: nat)
    requires |f.evicted| == |f.filledParts| && FundParts(f)
    ensures var g := EvictedDown(f, max);
            && FundParts(g) && g.partCount - FundCount(g) == f.partCount - FundCount(f)
            && g.emptyParts == f.emptyParts
    decreases f.partCount
  {
    if f.partCount > max && CanEvict(f) {
      EvictedOneKeeps(f);
      EvictedDownKeeps(EvictedOne(f), max);
    }
  }

  lemma {:induction false} EvictedDownKeepsDumps(f: Fund, max: nat)
    requires |f.evicted| == |f.filledParts|
    ensures SameDumps(f, EvictedDown(f, max))
    decreases f.partCount
  {
    if f.partCount > max && CanEvict(f) {
      EvictKeepsDumps(f);
      EvictedDownKeepsDumps(EvictedOne(f), max);
    }
  }

  lemma ConfiguredKeeps(f: Fund, max: nat)
    requires |f.evicted| == |f.filledParts| && FundParts(f)
    ensures var g := Configured(f, max);
            && FundParts(g) && g.partCount - FundCount(g) == f.partCount - FundCount(f)
            && (g.partCount <= max || FundCount(g) == 0)
  {
    var t := Trimmed(f, max);
    TrimmedKeeps(f, max);
    EvictedDownKeeps(t, max);
    var g := EvictedDown(t, max);
    if !CanEvict(g) { NothingToEvict(g); }
  }

  // === Every step keeps the invariant ===

  lemma StepKeepsFundParts(s: State, e: Event)
    requires Shape(s) && Parts(s) && Enabled(s, e)
    ensures FundParts(Step(s, e).fund)
  {
    match e
    case MakeShard => WithoutEmptyKeeps(WithShard(s.fund));
    case Swap => WithoutEmptyKeeps(s.fund);
    case Configure(max) => ConfiguredKeeps(s.fund, max);
    case _ => DrainKeepsFundParts(s, e);
  }

  lemma DrainKeepsFundParts(s: State, e: Event)
    requires Shape(s) && Parts(s) && Enabled(s, e) && !e.MakeShard? && !e.Swap? && !e.Configure?
    ensures FundParts(Step(s, e).fund)
  {
  }

  lemma StepKeepsParts(s: State, e: Event)
    requires Shape(s) && Parts(s)
    ensures Shape(Step(s, e)) && Parts(Step(s, e))
  {
    StepKeepsShape(s, e);
    if Enabled(s, e) { StepKeepsFundParts(s, e); }
  }

  lemma {:induction false} HeldAtMost(held: seq<Option<Held>>)
    ensures SumBy(held, HeldCount) <= |held|
  {
    if held != [] {
      HeldAtMost(held[1..]);
    }
  }

  lemma MakeShardKeepsCounts(s: State)
    requires Shape(s) && Parts(s) && Counts(s) && Bounded(s)
    ensures Counts(StepMakeShard(s)) && Bounded(StepMakeShard(s))
  {
    HeldAtMost(s.held);
    SumByAppend(s.fund.filledParts, [[]], QueueLength);
    WithoutEmptyKeeps(WithShard(s.fund));
  }

  lemma SwapKeepsCounts(s: State)
    requires Shape(s) && Parts(s) && Counts(s) && Bounded(s) && s.lock.Renewing?
    ensures Counts(StepSwap(s)) && Bounded(StepSwap(s))
  {
    var g, i := WithoutEmpty(s.fund), s.lock.shard;
    HeldAtMost(s.held);
    WithoutEmptyKeeps(s.fund);
    SumByUpdate(g.filledParts, i, g.filledParts[i] + [s.active[i]], QueueLength);
  }

  lemma DrainKeepsCounts(s: State, e: Event)
    requires Shape(s) && Counts(s) && Bounded(s) && Enabled(s, e)
    requires e.TakeFilled? || e.Emit? || e.ReturnEmpty? || e.DropDrain?
    ensures Counts(Step(s, e)) && Bounded(Step(s, e))
  {
    SumByUpdate(s.held, e.drain, Step(s, e).held[e.drain], HeldCount);
    if e.TakeFilled? {
      SumByUpdate(s.fund.filledParts, e.shard, s.fund.filledParts[e.shard][1..], QueueLength);
    } else if e.DropDrain? {
      var h := s.held[e.drain].value;
      SumByUpdate(s.fund.filledParts, h.shard, s.fund.filledParts[h.shard] + [h.part], QueueLength);
    }
  }

  lemma StepKeepsCounts(s: State, e: Event)
    requires Shape(s) && Parts(s) && Counts(s) && Bounded(s)
    ensures Counts(Step(s, e)) && Bounded(Step(s, e))
  {
    if Enabled(s, e) {
      match e
      case MakeShard => MakeShardKeepsCounts(s);
      case Swap => SwapKeepsCounts(s);
      case Configure(max) => HeldAtMost(s.held); ConfiguredKeeps(s.fund, max);
      case Add(_) =>
      case TestForRenewal(_, _) =>
      case _ => DrainKeepsCounts(s, e);
    }
  }

  lemma QueueCopies(queue: seq<Part>, part: Part, k: Dump)
    ensures SumBy(queue + [part], PartCopies(k)) == SumBy(queue, PartCopies(k)) + multiset(part)[k]
    ensures SumBy([part] + queue, PartCopies(k)) == SumBy(queue, PartCopies(k)) + multiset(part)[k]
  {
    SumByAppend(queue, [part], PartCopies(k));
    SumByAppend([part], queue, PartCopies(k));
  }

  lemma NewShardHasNoCopies(s: State, k: Dump)
    requires Shape(s)
    ensures SumBy(s.held, HeldCopies(|s.active|, k)) == 0
  {
    SumByZero(s.held, HeldCopies(|s.active|, k));
  }

  lemma MakeShardKeepsCopies(s: State, i: ShardNo, k: Dump)
    requires Shape(s) && FundParts(s.fund) && i <= |s.active| && (i < |s.active| ==> PlacedOnce(s, i, k))
    ensures Shape(StepMakeShard(s)) && PlacedOnce(StepMakeShard(s), i, k)
  {
    var f := WithShard(s.fund);
    var g := WithoutEmpty(f);
    WithoutEmptyKeepsDumps(f);
    NewShardHasNoCopies(s, k);
    assert FundCopies(g.evicted[i], g.filledParts[i], k) == FundCopies(f.evicted[i], f.filledParts[i], k);
  }

  lemma AddKeepsCopies(s: State, j: ShardNo, i: ShardNo, k: Dump)
    requires Shape(s) && j < |s.active| && i < |s.active| && PlacedOnce(s, i, k)
    ensures Shape(StepAdd(s, j)) && PlacedOnce(StepAdd(s, j), i, k)
  {
  }

  lemma SwapKeepsCopies(s: State, i: ShardNo, k: Dump)
    requires Shape(s) && FundParts(s.fund) && s.lock.Renewing? && i < |s.active| && PlacedOnce(s, i, k)
    ensures Shape(StepSwap(s)) && PlacedOnce(StepSwap(s), i, k)
  {
    var g, j := WithoutEmpty(s.fund), s.lock.shard;
    WithoutEmptyKeepsDumps(s.fund);
    assert FundCopies(g.evicted[i], g.filledParts[i], k) == FundCopies(s.fund.evicted[i], s.fund.filledParts[i], k);
    QueueCopies(g.filledParts[j], s.active[j], k);
  }

  lemma TakeKeepsCopies(s: State, d: nat, j: ShardNo, i: ShardNo, k: Dump)
    requires Shape(s) && Enabled(s, TakeFilled(d, j)) && i < |s.active| && PlacedOnce(s, i, k)
    ensures Shape(StepTake(s, d, j)) && PlacedOnce(StepTake(s, d, j), i, k)
  {
    var q := s.fund.filledParts[j];
    assert q == [q[0]] + q[1..];
    QueueCopies(q[1..], q[0], k);
    SumByUpdate(s.held, d, Some(Held(j, q[0])), HeldCopies(i, k));
  }

  lemma EmitKeepsCopies(s: State, d: nat, i: ShardNo, k: Dump)
    requires Shape(s) && Enabled(s, Emit(d)) && i < |s.active| && PlacedOnce(s, i, k)
    ensures Shape(StepEmit(s, d)) && PlacedOnce(StepEmit(s, d), i, k)
  {
    var h := s.held[d].value;
    assert h.part == [h.part[0]] + h.part[1..];
    SumByUpdate(s.held, d, Some(h.(part := h.part[1..])), HeldCopies(i, k));
  }

  lemma ReturnKeepsCopies(s: State, d: nat, i: ShardNo, k: Dump)
    requires Shape(s) && Enabled(s, ReturnEmpty(d)) && i < |s.active| && PlacedOnce(s, i, k)
    ensures Shape(StepReturn(s, d)) && PlacedOnce(StepReturn(s, d), i, k)
  {
    SumByUpdate(s.held, d, None, HeldCopies(i, k));
  }

  lemma DropKeepsCopies(s: State, d: nat, i: ShardNo, k: Dump)
    requires Shape(s) && Enabled(s, DropDrain(d)) && i < |s.active| && PlacedOnce(s, i, k)
    ensures Shape(StepDrop(s, d)) && PlacedOnce(StepDrop(s, d), i, k)
  {
    var h := s.held[d].value;
    QueueCopies(s.fund.filledParts[h.shard], h.part, k);
    SumByUpdate(s.held, d, None, HeldCopies(i, k));
  }

  lemma ConfigureKeepsCopies(s: State, max: nat, i: ShardNo, k: Dump)
    requires Shape(s) && FundParts(s.fund) && i < |s.active| && PlacedOnce(s, i, k)
    ensures var s' := s.(fund := Configured(s.fund, max));
            Shape(s') && PlacedOnce(s', i, k)
  {
    EvictedDownKeepsDumps(Trimmed(s.fund, max), max);
    var g := Configured(s.fund, max);
    assert FundCopies(g.evicted[i], g.filledParts[i], k) == FundCopies(s.fund.evicted[i], s.fund.filledParts[i], k);
  }

  lemma StepKeepsCopies(s: State, e: Event, i: ShardNo, k: Dump)
    requires Inv(s) && Enabled(s, e) && Shape(Step(s, e)) && i < |Step(s, e).active|
    ensures PlacedOnce(Step(s, e), i, k)
  {
    assert i < |s.active| ==> PlacedOnce(s, i, k);
    match e
    case MakeShard => MakeShardKeepsCopies(s, i, k);
    case Add(j) => AddKeepsCopies(s, j, i, k);
    case TestForRenewal(_, _) =>
    case Swap => SwapKeepsCopies(s, i, k);
    case TakeFilled(d, j) => TakeKeepsCopies(s, d, j, i, k);
    case Emit(d) => EmitKeepsCopies(s, d, i, k);
    case ReturnEmpty(d) => ReturnKeepsCopies(s, d, i, k);
    case DropDrain(d) => DropKeepsCopies(s, d, i, k);
    case Configure(max) => ConfigureKeepsCopies(s, max, i, k);
  }

  lemma StepKeeps(s: State, e: Event)
    requires Inv(s)
    ensures Inv(Step(s, e))
  {
    StepKeepsParts(s, e);
    StepKeepsCounts(s, e);
    if Enabled(s, e) {
      forall i, k: nat | 0 <= i < |Step(s, e).active|
        ensures PlacedOnce(Step(s, e), i, k)
      {
        StepKeepsCopies(s, e, i, k);
      }
    }
  }

  // === Theorems over every run ===

  lemma {:induction false} RunKeeps(s: State, events: seq<Event>)
    requires Inv(s)
    ensures Inv(Run(s, events)) && |Run(s, events).held| == |s.held|
    decreases |events|
  {
    if events != [] {
      StepKeepsShape(s, events[0]);
      StepKeeps(s, events[0]);
      RunKeeps(Step(s, events[0]), events[1..]);
    }
  }

  lemma InitIsFine(max: nat, drains: nat)
    ensures Inv(Init(max, drains))
  {
    SumByZero(Init(max, drains).held, HeldCount);
  }

  ghost function After(max: nat, drains: nat, events: seq<Event>): State {
    Run(Init(max, drains), events)
  }

  /** The counter is exact, parts are never overfull or misplaced, and their number is bounded. */
  lemma PartAccounting(max: nat, drains: nat, events: seq<Event>)
    ensures var s := After(max, drains, events);
            && Shape(s) && Parts(s)
            && s.fund.partCount
               == |s.fund.emptyParts| + SumBy(s.fund.filledParts, QueueLength) + |s.active| + SumBy(s.held, HeldCount)
            && s.fund.partCount <= Max(s.fund.maxPartCount, |s.active| + drains + 1)
  {
    InitIsFine(max, drains);
    RunKeeps(Init(max, drains), events);
  }

  /** Every dump ever added is exactly once active, filled, held by an iterator, emitted or evicted. */
  lemma DumpConservation(max: nat, drains: nat, events: seq<Event>, i: ShardNo, k: Dump)
    requires i < |After(max, drains, events).active|
    ensures var s := After(max, drains, events);
            && Shape(s)
            && multiset(s.active[i])[k] + SumBy(s.fund.filledParts[i], PartCopies(k)) + SumBy(s.held, HeldCopies(i, k))
               + multiset(s.emitted[i])[k] + multiset(s.fund.evicted[i])[k]
               == if k < s.added[i] then 1 else 0
  {
    InitIsFine(max, drains);
    RunKeeps(Init(max, drains), events);
    assert PlacedOnce(After(max, drains, events), i, k);
  }

  /** A part is asked for at the limit when none is spare, or the limit is lowered below the count. */
  ghost predicate AtTheLimit(s: State, e: Event) {
    && Enabled(s, e)
    && match e
       case MakeShard => s.fund.partCount >= s.fund.maxPartCount && s.fund.emptyParts == []
       case Swap => s.fund.partCount >= s.fund.maxPartCount && s.fund.emptyParts == []
       case Configure(max) => s.fund.partCount > max
       case _ => false
  }

  ghost predicate EverAtTheLimit(s: State, events: seq<Event>)
    requires Shape(s)
    decreases |events|
  {
    events != [] && (AtTheLimit(s, events[0]) || (StepKeepsShape(s, events[0]); EverAtTheLimit(Step(s, events[0]), events[1..])))
  }

  lemma StepEvictsOnlyAtTheLimit(s: State, e: Event, i: ShardNo)
    requires Shape(s) && i < |Step(s, e).fund.evicted| && !AtTheLimit(s, e)
    ensures Step(s, e).fund.evicted[i] == if i < |s.active| then s.fund.evicted[i] else []
  {
  }

  lemma {:induction false} RunEvictsOnlyAtTheLimit(s: State, events: seq<Event>, i: ShardNo)
    requires Shape(s) && i < |Run(s, events).fund.evicted| && !EverAtTheLimit(s, events)
    ensures Run(s, events).fund.evicted[i] == if i < |s.active| then s.fund.evicted[i] else []
    decreases |events|
  {
    if events != [] {
      var t := Step(s, events[0]);
      StepKeepsShape(s, events[0]);
      RunEvictsOnlyAtTheLimit(t, events[1..], i);
      if i < |t.active| { StepEvictsOnlyAtTheLimit(s, events[0], i); }
    }
  }

  /** No run loses a dump unless it came to the limit: a part was needed and none was left, or the limit was lowered. */
  lemma EvictsOnlyAtTheLimit(max: nat, drains: nat, events: seq<Event>, i: ShardNo)
    requires i < |After(max, drains, events).fund.evicted| && After(max, drains, events).fund.evicted[i] != []
    ensures EverAtTheLimit(Init(max, drains), events)
  {
    if !EverAtTheLimit(Init(max, drains), events) {
      RunEvictsOnlyAtTheLimit(Init(max, drains), events, i);
    }
  }

  // === Order ===

  function Flat(queue: seq<Part>): seq<Dump> {
    if queue == [] then [] else queue[0] + Flat(queue[1..])
  }

  lemma {:induction false} FlatAppend(queue: seq<Part>, part: Part)
    ensures Flat(queue + [part]) == Flat(queue) + part
  {
    if queue == [] {
      assert queue + [part] == [part];
    } else {
      assert (queue + [part])[1..] == queue[1..] + [part];
      FlatAppend(queue[1..], part);
    }
  }

  function HeldLine(held: seq<Option<Held>>, i: ShardNo): seq<Dump> {
    if held == [] then []
    else (if held[0].Some? && held[0].value.shard == i then held[0].value.part else []) + HeldLine(held[1..], i)
  }

  /** The iterator has something left to read of the shard. */
  predicate Reads(h: Option<Held>, i: ShardNo) {
    h.Some? && h.value.shard == i && h.value.part != []
  }

  predicate NobodyElseReads(held: seq<Option<Held>>, d: nat, i: ShardNo) {
    forall d' :: 0 <= d' < |held| && d' != d ==> !Reads(held[d'], i)
  }

  lemma {:induction false} HeldLineOfOne(held: seq<Option<Held>>, d: nat, i: ShardNo)
    requires NobodyElseReads(held, d, i)
    ensures HeldLine(held, i) ==
            if d < |held| && held[d].Some? && held[d].value.shard == i then held[d].value.part else []
  {
    if held != [] {
      if d == 0 {
        HeldLineOfOne(held[1..], |held|, i);
      } else {
        assert !Reads(held[0], i);
        HeldLineOfOne(held[1..], d - 1, i);
      }
    }
  }

  /** The dumps of a shard in the order in which one iterator returned them and will return the rest. */
  ghost function Line(s: State, i: ShardNo): seq<Dump>
    requires Shape(s) && i < |s.active|
  {
    s.emitted[i] + HeldLine(s.held, i) + Flat(s.fund.filledParts[i]) + s.active[i]
  }

  ghost predicate InOrder(s: State, i: ShardNo)
    requires Shape(s) && i < |s.active|
  {
    Ascending(Line(s, i) + [s.added[i]])
  }

  ghost predicate OneReader(s: State) {
    forall i: ShardNo, d, d' :: 0 <= d < d' < |s.held| ==> !(Reads(s.held[d], i) && Reads(s.held[d'], i))
  }

  ghost predicate Ordered(s: State) {
    Shape(s) && OneReader(s) && forall i :: 0 <= i < |s.active| ==> InOrder(s, i)
  }

  /** No second iterator takes from a shard that is being read, and none goes away before a part with others behind it. */
  predicate OrderSafe(s: State, e: Event) {
    match e
    case TakeFilled(d, i) => NobodyElseReads(s.held, d, i)
    case DropDrain(d) =>
      Holds(s, d) && s.held[d].value.shard < |s.fund.filledParts| ==> s.fund.filledParts[s.held[d].value.shard] == []
    case _ => true
  }

  lemma EvictKeepsOrder(s: State, i: ShardNo)
    requires Shape(s) && i < |s.active| && InOrder(s, i) && CanEvict(s.fund)
    ensures InOrder(s.(fund := Evict(s.fund)), i)
  {
    var m := MostFilled(s.fund.filledParts);
    if i == m {
      var q := s.fund.filledParts[m];
      var front, back := s.emitted[i] + HeldLine(s.held, i), Flat(q[1..]) + s.active[i] + [s.added[i]];
      assert Line(s, i) + [s.added[i]] == front + q[0] + back;
      AscendingWithout(front, q[0], back);
      assert Line(s.(fund := Evict(s.fund)), i) + [s.added[i]] == front + back;
    }
  }

  lemma WithoutEmptyKeepsOrder(s: State, i: ShardNo)
    requires Shape(s) && i < |s.active| && InOrder(s, i)
    ensures InOrder(s.(fund := WithoutEmpty(s.fund)), i)
  {
    if CanEvict(s.fund) { EvictKeepsOrder(s, i); }
  }

  lemma {:induction false} EvictedDownKeepsOrder(s: State, max: nat, i: ShardNo)
    requires Shape(s) && i < |s.active| && InOrder(s, i)
    ensures InOrder(s.(fund := EvictedDown(s.fund, max)), i)
    decreases s.fund.partCount
  {
    if s.fund.partCount > max && CanEvict(s.fund) {
      EvictKeepsOrder(s, i);
      var next := s.(fund := EvictedOne(s.fund));
      assert Line(next, i) == Line(s.(fund := Evict(s.fund)), i);
      EvictedDownKeepsOrder(next, max, i);
    }
  }

  lemma ConfigureKeepsOrder(s: State, max: nat, i: ShardNo)
    requires Shape(s) && i < |s.active| && InOrder(s, i)
    ensures InOrder(s.(fund := Configured(s.fund, max)), i)
  {
    var t := s.(fund := Trimmed(s.fund, max));
    assert Line(t, i) == Line(s, i);
    EvictedDownKeepsOrder(t, max, i);
    assert Line(s.(fund := Configured(s.fund, max)), i) == Line(t.(fund := EvictedDown(t.fund, max)), i);
  }

  lemma SwapKeepsOrder(s: State, i: ShardNo)
    requires Shape(s) && s.lock.Renewing? && i < |s.active| && InOrder(s, i)
    ensures Shape(StepSwap(s)) && InOrder(StepSwap(s), i)
  {
    var t := s.(fund := WithoutEmpty(s.fund));
    WithoutEmptyKeepsOrder(s, i);
    FlatAppend(t.fund.filledParts[s.lock.shard], s.active[s.lock.shard]);
    assert Line(StepSwap(s), i) == Line(t, i);
  }

  lemma TakeKeepsOrder(s: State, d: nat, j: ShardNo, i: ShardNo)
    requires Shape(s) && Enabled(s, TakeFilled(d, j)) && NobodyElseReads(s.held, d, j) && i < |s.active| && OneReader(s)
    ensures Shape(StepTake(s, d, j)) && OneReader(StepTake(s, d, j)) && Line(StepTake(s, d, j), i) == Line(s, i)
  {
    TakeKeepsShape(s, d, j);
    if i == j {
      TakeKeepsLine(s, d, j);
    } else {
      HeldLineUpdate(s.held, d, StepTake(s, d, j).held[d], i);
    }
  }

  lemma TakeKeepsShape(s: State, d: nat, j: ShardNo)
    requires Shape(s) && Enabled(s, TakeFilled(d, j)) && NobodyElseReads(s.held, d, j) && OneReader(s)
    ensures Shape(StepTake(s, d, j)) && OneReader(StepTake(s, d, j))
  {
  }

  lemma TakeKeepsLine(s: State, d: nat, j: ShardNo)
    requires Shape(s) && Enabled(s, TakeFilled(d, j)) && NobodyElseReads(s.held, d, j) && Shape(StepTake(s, d, j))
    ensures Line(StepTake(s, d, j), j) == Line(s, j)
  {
    var s', q := StepTake(s, d, j), s.fund.filledParts[j];
    HeldLineOfOne(s.held, d, j);
    HeldLineOfOne(s'.held, d, j);
    assert Flat(q) == q[0] + Flat(q[1..]);
    MoveAcross(s.emitted[j], q[0], Flat(q[1..]), s.active[j]);
  }

  lemma MoveAcross(a: seq<Dump>, b: seq<Dump>, c: seq<Dump>, d: seq<Dump>)
    ensures a + [] + (b + c) + d == a + b + c + d
  {
  }

  /** A drain that changes from or to other shards does not matter to this one. */
  lemma {:induction false} HeldLineUpdate(held: seq<Option<Held>>, d: nat, h: Option<Held>, i: ShardNo)
    requires d < |held|
    requires (held[d].Some? ==> held[d].value.shard != i || held[d].value.part == []) && (h.Some? ==> h.value.shard != i)
    ensures HeldLine(held[d := h], i) == HeldLine(held, i)
  {
    if d > 0 {
      assert held[d := h][1..] == held[1..][d - 1 := h];
      HeldLineUpdate(held[1..], d - 1, h, i);
    } else {
      assert held[d := h][1..] == held[1..];
    }
  }

  lemma EmitAcross(a: seq<Dump>, b: seq<Dump>, c: seq<Dump>, d: seq<Dump>)
    requires b != []
    ensures a + [b[0]] + b[1..] + c + d == a + b + c + d
  {
    assert a + [b[0]] + b[1..] == a + b;
  }

  lemma SoleReader(s: State, d: nat)
    requires OneReader(s) && Holds(s, d) && s.held[d].value.part != []
    ensures NobodyElseReads(s.held, d, s.held[d].value.shard)
  {
    assert Reads(s.held[d], s.held[d].value.shard);
  }

  lemma EmitKeepsOrder(s: State, d: nat, i: ShardNo)
    requires Shape(s) && Enabled(s, Emit(d)) && OneReader(s) && i < |s.active|
    ensures Shape(StepEmit(s, d)) && OneReader(StepEmit(s, d)) && Line(StepEmit(s, d), i) == Line(s, i)
  {
    var s', h := StepEmit(s, d), s.held[d].value;
    SoleReader(s, d);
    if i == h.shard {
      HeldLineOfOne(s.held, d, i);
      HeldLineOfOne(s'.held, d, i);
      EmitAcross(s.emitted[i], h.part, Flat(s.fund.filledParts[i]), s.active[i]);
    } else {
      HeldLineUpdate(s.held, d, s'.held[d], i);
    }
  }

  lemma ReturnKeepsOrder(s: State, d: nat, i: ShardNo)
    requires Shape(s) && Enabled(s, ReturnEmpty(d)) && OneReader(s) && i < |s.active|
    ensures Shape(StepReturn(s, d)) && OneReader(StepReturn(s, d)) && Line(StepReturn(s, d), i) == Line(s, i)
  {
    HeldLineUpdate(s.held, d, None, i);
  }

  /** What a mid-part drop makes of the line of its shard. */
  lemma DropLine(s: State, d: nat)
    requires Shape(s) && Enabled(s, DropDrain(d)) && OneReader(s)
    ensures var h := s.held[d].value;
            && Line(s, h.shard)
               == s.emitted[h.shard] + h.part + Flat(s.fund.filledParts[h.shard]) + s.active[h.shard]
            && Shape(StepDrop(s, d))
            && Line(StepDrop(s, d), h.shard)
               == s.emitted[h.shard] + Flat(s.fund.filledParts[h.shard]) + h.part + s.active[h.shard]
  {
    var i, part := s.held[d].value.shard, s.held[d].value.part;
    SoleReader(s, d);
    HeldLineOfOne(s.held, d, i);
    HeldLineOfOne(StepDrop(s, d).held, d, i);
    FlatAppend(s.fund.filledParts[i], part);
    MoveAcross(s.emitted[i], Flat(s.fund.filledParts[i]), part, s.active[i]);
  }

  lemma DropKeepsOthers(s: State, d: nat, i: ShardNo)
    requires Shape(s) && Enabled(s, DropDrain(d)) && OneReader(s) && i < |s.active| && i != s.held[d].value.shard
    ensures Shape(StepDrop(s, d)) && Line(StepDrop(s, d), i) == Line(s, i)
  {
    HeldLineUpdate(s.held, d, None, i);
  }

  /** A part dropped half-read goes to the back of the queue, which is then out of order unless it was empty. */
  lemma DropKeepsLineIff(s: State, d: nat)
    requires Ordered(s) && Parts(s) && Enabled(s, DropDrain(d))
    ensures Ordered(StepDrop(s, d)) <==> s.fund.filledParts[s.held[d].value.shard] == []
  {
    var s', h := StepDrop(s, d), s.held[d].value;
    var i := h.shard;
    var q := s.fund.filledParts[i];
    DropLine(s, d);
    forall j | 0 <= j < |s.active| && j != i
      ensures InOrder(s', j)
    {
      assert InOrder(s, j);
      DropKeepsOthers(s, d, j);
    }
    assert InOrder(s, i);
    if q == [] {
      assert Line(s', i) == Line(s, i);
    } else {
      assert Flat(q) == q[0] + Flat(q[1..]) && 0 < |q[0]|;
      assert !InOrder(s', i) by { SwapBreaksOrder(s.emitted[i], h.part, Flat(q), s.active[i], [s.added[i]]); }
    }
  }

  lemma SwapBreaksOrder(a: seq<Dump>, b: seq<Dump>, c: seq<Dump>, d: seq<Dump>, e: seq<Dump>)
    requires b != [] && c != [] && Ascending(a + b + c + d + e)
    ensures !Ascending(a + c + b + d + e)
  {
    var before, after := a + b + c + d + e, a + c + b + d + e;
    assert before[|a|] == b[0] && before[|a| + |b|] == c[0];
    assert after[|a|] == c[0] && after[|a| + |c|] == b[0];
  }

  /** Taking a part of a shard that another iterator is still reading lets the two overtake each other. */
  lemma ConcurrentTakeBreaksOrder(s: State, d: nat, d': nat)
    requires Ordered(s) && Parts(s) && Holds(s, d') && s.held[d'].value.part != []
    requires Enabled(s, TakeFilled(d, s.held[d'].value.shard))
    ensures var i := s.held[d'].value.shard;
            var s2 := StepEmit(StepTake(s, d, i), d);
            Enabled(StepTake(s, d, i), Emit(d)) && Enabled(s2, Emit(d')) && !Ascending(StepEmit(s2, d').emitted[i])
  {
    var h := s.held[d'].value;
    var i := h.shard;
    var q := s.fund.filledParts[i];
    assert 0 < |q[0]|;
    SoleReader(s, d');
    HeldLineOfOne(s.held, d', i);
    assert InOrder(s, i);
    var before, a := Line(s, i) + [s.added[i]], |s.emitted[i]|;
    assert Flat(q) == q[0] + Flat(q[1..]);
    assert before[a] == h.part[0] && before[a + |h.part|] == q[0][0];
    var out := StepEmit(StepEmit(StepTake(s, d, i), d), d').emitted[i];
    assert out == s.emitted[i] + [q[0][0]] + [h.part[0]];
    assert out[a] == q[0][0] && out[a + 1] == h.part[0];
  }

  lemma AddKeepsOrder(s: State, j: ShardNo, i: ShardNo)
    requires Shape(s) && j < |s.active| && i < |s.active| && InOrder(s, i)
    ensures Shape(StepAdd(s, j)) && InOrder(StepAdd(s, j), i)
  {
    var s' := StepAdd(s, j);
    if i == j {
      assert Line(s', i) == Line(s, i) + [s.added[i]];
      AscendingAppend(Line(s, i), s.added[i], s'.added[i]);
    } else {
      assert Line(s', i) == Line(s, i);
    }
  }

  lemma MakeShardKeepsOrder(s: State, i: ShardNo)
    requires Shape(s) && i <= |s.active| && (i < |s.active| ==> InOrder(s, i))
    ensures Shape(StepMakeShard(s)) && InOrder(StepMakeShard(s), i)
  {
    var t := s.(fund := WithShard(s.fund), active := s.active + [[]], owners := s.owners + [Idle],
                added := s.added + [0], emitted := s.emitted + [[]]);
    HeldLineOfOne(s.held, |s.held|, |s.active|);
    if i < |s.active| { assert Line(t, i) == Line(s, i); }
    WithoutEmptyKeepsOrder(t, i);
  }

  lemma StepKeepsOrder(s: State, e: Event, i: ShardNo)
    requires Ordered(s) && Enabled(s, e) && OrderSafe(s, e) && Shape(Step(s, e)) && i < |Step(s, e).active|
    ensures InOrder(Step(s, e), i)
  {
    assert i < |s.active| ==> InOrder(s, i);
    match e
    case MakeShard => MakeShardKeepsOrder(s, i);
    case Add(j) => AddKeepsOrder(s, j, i);
    case TestForRenewal(j, byOwner) => assert Line(Step(s, e), i) == Line(s, i);
    case Swap => SwapKeepsOrder(s, i);
    case TakeFilled(d, j) => TakeKeepsOrder(s, d, j, i);
    case Emit(d) => EmitKeepsOrder(s, d, i);
    case ReturnEmpty(d) => ReturnKeepsOrder(s, d, i);
    case DropDrain(d) =>
      if i == s.held[d].value.shard {
        DropLine(s, d);
        assert Line(Step(s, e), i) == Line(s, i);
      } else {
        DropKeepsOthers(s, d, i);
      }
    case Configure(max) => ConfigureKeepsOrder(s, max, i);
  }

  ghost predicate SafeRun(s: State, events: seq<Event>)
    requires Shape(s)
    decreases |events|
  {
    events != [] ==>
      && OrderSafe(s, events[0])
      && Shape(Step(s, events[0]))
      && SafeRun(Step(s, events[0]), events[1..])
  }

  lemma {:induction false} SafeRunKeepsOrder(s: State, events: seq<Event>)
    requires Ordered(s) && SafeRun(s, events)
    ensures Ordered(Run(s, events))
    decreases |events|
  {
    if events != [] {
      var s' := Step(s, events[0]);
      StepKeepsShape(s, events[0]);
      if Enabled(s, events[0]) {
        forall i | 0 <= i < |s'.active|
          ensures InOrder(s', i)
        {
          StepKeepsOrder(s, events[0], i);
        }
      }
      SafeRunKeepsOrder(s', events[1..]);
    }
  }

  // === Exactly which actions break the order ===

  lemma {:induction false} RunAppend(s: State, a: seq<Event>, b: seq<Event>)
    requires Shape(s)
    ensures Shape(Run(s, a)) && Run(s, a + b) == Run(Run(s, a), b)
    ensures SafeRun(s, a) && SafeRun(Run(s, a), b) ==> SafeRun(s, a + b)
    decreases |a|
  {
    if a == [] {
      assert a + b == b;
    } else {
      assert (a + b)[1..] == a[1..] + b;
      StepKeepsShape(s, a[0]);
      RunAppend(Step(s, a[0]), a[1..], b);
    }
  }

  lemma RunOne(s: State, e: Event)
    requires Shape(s)
    ensures Shape(Step(s, e)) && Run(s, [e]) == Step(s, e) && (OrderSafe(s, e) ==> SafeRun(s, [e]))
  {
    StepKeepsShape(s, e);
    assert [e][1..] == [];
  }

  /** The state after an iterator has read its part to the end. */
  function ReadToEnd(s: State, d: nat): State
    requires Holds(s, d) && s.held[d].value.shard < |s.emitted|
  {
    var h := s.held[d].value;
    s.(held := s.held[d := Some(h.(part := []))], emitted := s.emitted[h.shard := s.emitted[h.shard] + h.part])
  }

  lemma {:induction false} ReadPart(s: State, d: nat) returns (events: seq<Event>)
    requires Shape(s) && Holds(s, d)
    ensures SafeRun(s, events) && Run(s, events) == ReadToEnd(s, d)
    decreases |s.held[d].value.part|
  {
    var h := s.held[d].value;
    if h.part == [] {
      events := [];
      assert s.emitted[h.shard] + h.part == s.emitted[h.shard];
    } else {
      var t := Step(s, Emit(d));
      StepKeepsShape(s, Emit(d));
      var rest := ReadPart(t, d);
      assert s.emitted[h.shard] + [h.part[0]] + h.part[1..] == s.emitted[h.shard] + h.part;
      events := [Emit(d)] + rest;
    }
  }

  /** One part of the queue is taken, read and returned. */
  lemma ReadNext(s: State, d: nat, i: ShardNo) returns (events: seq<Event>)
    requires Shape(s) && Enabled(s, TakeFilled(d, i)) && NobodyElseReads(s.held, d, i)
    ensures SafeRun(s, events) && Shape(Run(s, events))
    ensures var t, q := Run(s, events), s.fund.filledParts[i];
            && t.lock == Free && t.held == s.held && t.fund.filledParts == s.fund.filledParts[i := q[1..]]
            && t.emitted == s.emitted[i := s.emitted[i] + q[0]]
  {
    RunOne(s, TakeFilled(d, i));
    var s1 := Step(s, TakeFilled(d, i));
    var read := ReadPart(s1, d);
    var s2 := ReadToEnd(s1, d);
    RunAppend(s, [TakeFilled(d, i)], read);
    RunAppend(s, [TakeFilled(d, i)] + read, [ReturnEmpty(d)]);
    RunOne(s2, ReturnEmpty(d));
    assert s.held == s2.held[d := None];
    events := [TakeFilled(d, i)] + read + [ReturnEmpty(d)];
  }

  /** An idle iterator can read all filled parts of a shard, one after another. */
  lemma {:induction false} ReadQueue(s: State, d: nat, i: ShardNo) returns (events: seq<Event>)
    requires Shape(s) && s.lock == Free && d < |s.held| && s.held[d] == None && i < |s.active|
    requires NobodyElseReads(s.held, d, i)
    ensures SafeRun(s, events) && Shape(Run(s, events)) && i < |Run(s, events).active|
    ensures Run(s, events).emitted[i] == s.emitted[i] + Flat(s.fund.filledParts[i])
    decreases |s.fund.filledParts[i]|
  {
    var q := s.fund.filledParts[i];
    if q == [] {
      events := [];
      assert s.emitted[i] + Flat(q) == s.emitted[i];
    } else {
      var first := ReadNext(s, d, i);
      var t := Run(s, first);
      var rest := ReadQueue(t, d, i);
      RunAppend(s, first, rest);
      FlatNext(s.emitted[i], q);
      events := first + rest;
    }
  }

  lemma FlatNext(before: seq<Dump>, queue: seq<Part>)
    requires queue != []
    ensures before + queue[0] + Flat(queue[1..]) == before + Flat(queue)
  {
  }

  /** A part dropped half-read before others is emitted after them. */
  lemma DroppedPartIsLate(s: State, d: nat) returns (more: seq<Event>)
    requires Ordered(s) && Parts(s) && Enabled(s, DropDrain(d)) && s.fund.filledParts[s.held[d].value.shard] != []
    ensures Shape(StepDrop(s, d)) && SafeRun(StepDrop(s, d), more)
    ensures var i, t := s.held[d].value.shard, Run(StepDrop(s, d), more);
            Shape(t) && i < |t.active| && !Ascending(t.emitted[i])
  {
    var i, part, t := s.held[d].value.shard, s.held[d].value.part, StepDrop(s, d);
    var q := s.fund.filledParts[i];
    DropLine(s, d);
    SoleReader(s, d);
    more := ReadQueue(t, d, i);
    FlatAppend(q, part);
    assert InOrder(s, i);
    SwapIsSeen(s.emitted[i], part, q, s.active[i], [s.added[i]]);
  }

  lemma SwapIsSeen(a: seq<Dump>, b: Part, queue: seq<Part>, d: seq<Dump>, e: seq<Dump>)
    requires b != [] && queue != [] && queue[0] != [] && Ascending(a + b + Flat(queue) + d + e)
    ensures !Ascending(a + (Flat(queue) + b))
  {
    var c := Flat(queue);
    assert c == queue[0] + Flat(queue[1..]);
    var before, after := a + b + c + d + e, a + (c + b);
    assert before[|a|] == b[0] && before[|a| + |b|] == c[0];
    assert after[|a|] == c[0] && after[|a| + |c|] == b[0];
  }

  /** However the run goes on without an unsafe action, every shard's dumps are emitted in order. */
  ghost predicate StaysInOrder(s: State)
    requires Shape(s)
  {
    forall more: seq<Event>, i: ShardNo :: SafeRun(s, more) ==> EmitsInOrder(Run(s, more), i)
  }

  ghost predicate EmitsInOrder(s: State, i: ShardNo) {
    i < |s.emitted| ==> Ascending(s.emitted[i])
  }

  lemma OrderedEmitsInOrder(s: State, i: ShardNo)
    requires Ordered(s)
    ensures EmitsInOrder(s, i)
  {
    if i < |s.emitted| {
      assert InOrder(s, i);
      var line := Line(s, i) + [s.added[i]];
      assert forall a :: 0 <= a < |s.emitted[i]| ==> s.emitted[i][a] == line[a];
    }
  }

  lemma SafeStepStays(s: State, e: Event)
    requires Ordered(s) && Enabled(s, e) && OrderSafe(s, e)
    ensures Shape(Step(s, e)) && StaysInOrder(Step(s, e))
  {
    StepKeepsShape(s, e);
    forall more: seq<Event>, i: ShardNo | SafeRun(Step(s, e), more)
      ensures EmitsInOrder(Run(Step(s, e), more), i)
    {
      assert ([e] + more)[1..] == more;
      SafeRunKeepsOrder(s, [e] + more);
      OrderedEmitsInOrder(Run(Step(s, e), more), i);
    }
  }

  lemma ConcurrentTakeIsSeen(s: State, d: nat, i: ShardNo)
    requires Ordered(s) && Parts(s) && Enabled(s, TakeFilled(d, i)) && !NobodyElseReads(s.held, d, i)
    ensures Shape(StepTake(s, d, i)) && !StaysInOrder(StepTake(s, d, i))
  {
    StepKeepsShape(s, TakeFilled(d, i));
    var d' :| 0 <= d' < |s.held| && d' != d && Reads(s.held[d'], i);
    ConcurrentTakeBreaksOrder(s, d, d');
    var t := StepTake(s, d, i);
    var t1 := Step(t, Emit(d));
    RunOne(t, Emit(d));
    RunOne(t1, Emit(d'));
    RunAppend(t, [Emit(d)], [Emit(d')]);
    assert !EmitsInOrder(Run(t, [Emit(d)] + [Emit(d')]), i);
  }

  /**
   In a state in order, an action leaves the emission in order, however the run goes on, exactly if
   it is safe: it is not taking a part of a shard that another iterator is still reading, and not
   dropping an iterator before a part with others behind it.
   */
  lemma HarmlessIff(s: State, e: Event)
    requires Ordered(s) && Parts(s) && Enabled(s, e)
    ensures Shape(Step(s, e)) && (StaysInOrder(Step(s, e)) <==> OrderSafe(s, e))
  {
    StepKeepsShape(s, e);
    if OrderSafe(s, e) {
      SafeStepStays(s, e);
    } else if e.TakeFilled? {
      ConcurrentTakeIsSeen(s, e.drain, e.shard);
    } else {
      var i := s.held[e.drain].value.shard;
      var more := DroppedPartIsLate(s, e.drain);
      assert !EmitsInOrder(Run(Step(s, e), more), i);
    }
  }

  /** In particular, dropping an iterator in the middle of a part is harmless exactly when no part of its shard is queued. */
  lemma DropKeepsOrderIff(s: State, d: nat)
    requires Ordered(s) && Parts(s) && Enabled(s, DropDrain(d))
    ensures Shape(StepDrop(s, d))
    ensures StaysInOrder(StepDrop(s, d)) <==> s.fund.filledParts[s.held[d].value.shard] == []
    ensures Ordered(StepDrop(s, d)) <==> s.fund.filledParts[s.held[d].value.shard] == []
  {
    HarmlessIff(s, DropDrain(d));
    DropKeepsLineIff(s, d);
  }

  /** And taking a part is harmless exactly when no other iterator has something left to read of the shard. */
  lemma TakeKeepsOrderIff(s: State, d: nat, i: ShardNo)
    requires Ordered(s) && Parts(s) && Enabled(s, TakeFilled(d, i))
    ensures Shape(StepTake(s, d, i))
    ensures StaysInOrder(StepTake(s, d, i)) <==> NobodyElseReads(s.held, d, i)
  {
    HarmlessIff(s, TakeFilled(d, i));
  }

  /** Each shard's dumps are emitted in the order in which they were added. */
  lemma EmittedInOrder(max: nat, drains: nat, events: seq<Event>, i: ShardNo)
    requires SafeRun(Init(max, drains), events) && i < |After(max, drains, events).active|
    ensures Shape(After(max, drains, events)) && Ascending(After(max, drains, events).emitted[i])
  {
    SafeRunKeepsOrder(Init(max, drains), events);
    OrderedEmitsInOrder(After(max, drains, events), i);
  }

  // === Operations that nobody interferes with ===

  /** A full part, or for an iterator any with dumps, goes to the back of the queue, and an empty one takes its place. */
  lemma RenewingSteps(s: State, i: ShardNo, byOwner: bool)
    requires Shape(s) && Enabled(s, TestForRenewal(i, byOwner))
    ensures var t := Run(s, [TestForRenewal(i, byOwner), Swap]);
            && Shape(t) && t.lock == Free
            && if (if byOwner then |s.active[i]| == PART_CAPACITY else s.active[i] != []) then
                 && t.active == s.active[i := []]
                 && t.fund == WithFilled(WithoutEmpty(s.fund), i, s.active[i])
                 && (byOwner ==> t.owners[i] == Idle)
               else t.active == s.active && t.fund == s.fund && (byOwner ==> t.owners[i] == Idle)
  {
    var first := TestForRenewal(i, byOwner);
    RunOne(s, first);
    RunOne(Step(s, first), Swap);
    RunAppend(s, [first], [Swap]);
    assert [first] + [Swap] == [first, Swap];
  }

  /** Adding a dump puts it behind the others of its shard; if that fills the part, the part is renewed next. */
  lemma AddingSteps(s: State, i: ShardNo)
    requires Shape(s) && Enabled(s, Add(i)) && s.lock == Free
    ensures var part, t := s.active[i] + [s.added[i]], Run(s, [Add(i)]);
            && Shape(t) && t.active == s.active[i := part] && t.fund == s.fund
            && (Enabled(t, TestForRenewal(i, true)) <==> |part| == PART_CAPACITY)
            && (Enabled(t, Add(i)) <==> |part| != PART_CAPACITY)
  {
    RunOne(s, Add(i));
  }

  // === What is evicted ===

  /** A longest queue, and the last of them. */
  predicate IsMostFilled(queues: seq<seq<Part>>, m: ShardNo) {
    && m < |queues|
    && (forall j :: 0 <= j < |queues| ==> |queues[j]| <= |queues[m]|)
    && (forall j :: m < j < |queues| ==> |queues[j]| < |queues[m]|)
  }

  predicate SomeFilled(queues: seq<seq<Part>>) {
    exists i :: 0 <= i < |queues| && queues[i] != []
  }

  /** The oldest part of the most filled shard is lost, and nothing else is. */
  ghost predicate LosesOldest(f: Fund, g: Fund, m: ShardNo) {
    && IsMostFilled(f.filledParts, m) && f.filledParts[m] != []
    && |f.evicted| == |f.filledParts| == |g.filledParts| == |g.evicted|
    && [f.filledParts[m][0]] + g.filledParts[m] == f.filledParts[m]
    && g.evicted[m] == f.evicted[m] + f.filledParts[m][0]
    && (forall i :: 0 <= i < |f.filledParts| && i != m ==>
          g.filledParts[i] == f.filledParts[i] && g.evicted[i] == f.evicted[i])
    && g.emptyParts == f.emptyParts && g.maxPartCount == f.maxPartCount
  }

  lemma EvictLosesOldest(f: Fund)
    requires CanEvict(f) && |f.evicted| == |f.filledParts|
    ensures LosesOldest(f, Evict(f), MostFilled(f.filledParts)) && Evict(f).partCount == f.partCount
  {
    var q := f.filledParts[MostFilled(f.filledParts)];
    assert [q[0]] + q[1..] == q;
  }

  lemma CanEvictIff(f: Fund)
    ensures CanEvict(f) <==> SomeFilled(f.filledParts)
  {
  }

  /** Where an empty part comes from: the spare ones, below the limit or without filled parts a new one, else a loss. */
  ghost predicate GivesEmpty(f: Fund, g: Fund) {
    if f.emptyParts != [] then
      f.emptyParts == g.emptyParts + [f.emptyParts[|f.emptyParts| - 1]] && g == f.(emptyParts := g.emptyParts)
    else if f.partCount >= f.maxPartCount && SomeFilled(f.filledParts) then
      g.partCount == f.partCount && exists m :: LosesOldest(f, g, m)
    else g == f.(partCount := f.partCount + 1)
  }

  lemma WithoutEmptyGives(f: Fund)
    requires |f.evicted| == |f.filledParts|
    ensures GivesEmpty(f, WithoutEmpty(f))
  {
    CanEvictIff(f);
    if CanEvict(f) { EvictLosesOldest(f); }
  }

  ghost predicate LosesOne(f: Fund, g: Fund) {
    g.partCount == f.partCount - 1 && exists m :: LosesOldest(f, g, m)
  }

  /** The funds from one loss to the next. */
  ghost predicate IsChain(chain: seq<Fund>) {
    chain != [] && forall i :: 0 <= i < |chain| - 1 ==> LosesOne(chain[i], chain[i + 1])
  }

  /** So many parts are lost, one after another. */
  ghost predicate LosesInTurn(f: Fund, g: Fund, n: nat) {
    exists chain :: IsChain(chain) && |chain| == n + 1 && chain[0] == f && chain[n] == g
  }

  lemma OneMoreTurn(f: Fund, chain: seq<Fund>)
    requires IsChain(chain) && LosesOne(f, chain[0])
    ensures IsChain([f] + chain)
  {
    var longer := [f] + chain;
    assert forall i :: 1 <= i < |longer| ==> longer[i] == chain[i - 1];
  }

  lemma EvictedOneLoses(f: Fund)
    requires CanEvict(f) && |f.evicted| == |f.filledParts| && f.partCount > 0
    ensures LosesOne(f, EvictedOne(f))
  {
    EvictLosesOldest(f);
    assert LosesOldest(f, EvictedOne(f), MostFilled(f.filledParts));
  }

  lemma OneFewer(f: Fund)
    requires CanEvict(f) && |f.evicted| == |f.filledParts| && FundParts(f) && f.partCount > 0
    ensures var g := EvictedOne(f);
            && |g.evicted| == |g.filledParts| && FundParts(g) && g.partCount == f.partCount - 1
            && SumBy(g.filledParts, QueueLength) == SumBy(f.filledParts, QueueLength) - 1
  {
    EvictKeeps(f);
  }

  /** How many parts are to be lost. */
  function Surplus(f: Fund, max: nat): nat {
    Min(Max(0, f.partCount - max), SumBy(f.filledParts, QueueLength))
  }

  lemma SurplusIsOneMore(f: Fund, max: nat)
    requires CanEvict(f) && |f.evicted| == |f.filledParts| && FundParts(f) && f.partCount > max
    ensures Surplus(f, max) == Surplus(EvictedOne(f), max) + 1
  {
    OneFewer(f);
  }

  lemma NoSurplus(f: Fund, max: nat)
    requires f.partCount <= max || !CanEvict(f)
    ensures Surplus(f, max) == 0
  {
    if !CanEvict(f) { NothingToEvict(f); }
  }

  lemma {:induction false} EvictedDownLoses(f: Fund, max: nat) returns (chain: seq<Fund>)
    requires |f.evicted| == |f.filledParts| && FundParts(f)
    ensures IsChain(chain) && |chain| == Surplus(f, max) + 1
    ensures chain[0] == f && chain[|chain| - 1] == EvictedDown(f, max)
    decreases f.partCount
  {
    if f.partCount > max && CanEvict(f) {
      SurplusIsOneMore(f, max);
      OneFewer(f);
      EvictedOneLoses(f);
      chain := EvictedDownLoses(EvictedOne(f), max);
      OneMoreTurn(f, chain);
      chain := [f] + chain;
    } else {
      NoSurplus(f, max);
      chain := [f];
    }
  }

  lemma {:induction false} TrimmedBy(f: Fund, max: nat)
    ensures var n, g := Min(Max(0, f.partCount - max), |f.emptyParts|), Trimmed(f, max);
            g == f.(emptyParts := f.emptyParts[..|f.emptyParts| - n], partCount := f.partCount - n)
    decreases |f.emptyParts|
  {
    if f.partCount > max && f.emptyParts != [] {
      var k := |f.emptyParts| - 1;
      TrimmedBy(f.(emptyParts := f.emptyParts[..k], partCount := f.partCount - 1), max);
      var n := Min(Max(0, f.partCount - max), |f.emptyParts|);
      assert f.emptyParts[..k][..k - (n - 1)] == f.emptyParts[..|f.emptyParts| - n];
    } else {
      assert f.emptyParts[..|f.emptyParts|] == f.emptyParts;
    }
  }

  /** Lowering the limit frees the surplus: spare parts first, then the oldest of the most filled shards. */
  ghost predicate FreesSurplus(f: Fund, g: Fund, max: nat) {
    var surplus := Max(0, f.partCount - max);
    var spare := Min(surplus, |f.emptyParts|);
    var lost := Min(surplus - spare, SumBy(f.filledParts, QueueLength));
    var t := f.(emptyParts := f.emptyParts[..|f.emptyParts| - spare], partCount := f.partCount - spare);
    g.maxPartCount == max && LosesInTurn(t, g.(maxPartCount := f.maxPartCount), lost)
  }

  lemma ConfiguredFrees(f: Fund, max: nat)
    requires |f.evicted| == |f.filledParts| && FundParts(f)
    ensures FreesSurplus(f, Configured(f, max), max)
  {
    var t := Trimmed(f, max);
    TrimmedBy(f, max);
    TrimmedKeeps(f, max);
    var chain := EvictedDownLoses(t, max);
    EvictedDownKeepsLimit(t, max);
    assert LosesInTurn(t, EvictedDown(t, max), Surplus(t, max));
  }

  lemma {:induction false} EvictedDownKeepsLimit(f: Fund, max: nat)
    requires |f.evicted| == |f.filledParts|
    ensures EvictedDown(f, max).maxPartCount == f.maxPartCount
    decreases f.partCount
  {
    if f.partCount > max && CanEvict(f) { EvictedDownKeepsLimit(EvictedOne(f), max); }
  }

  /** Of the shard's queue these are lost, from its front. */
  ghost predicate LosesFront(f: Fund, g: Fund, i: ShardNo, lost: seq<Dump>) {
    && i < |f.evicted| == |f.filledParts| == |g.filledParts| == |g.evicted|
    && g.evicted[i] == f.evicted[i] + lost && lost + Flat(g.filledParts[i]) == Flat(f.filledParts[i])
  }

  lemma OldestIsFront(f: Fund, g: Fund, m: ShardNo, i: ShardNo) returns (lost: seq<Dump>)
    requires LosesOldest(f, g, m) && i < |f.filledParts|
    ensures LosesFront(f, g, i, lost)
  {
    lost := if i == m then f.filledParts[m][0] else [];
    if i == m {
      assert f.filledParts[m][1..] == g.filledParts[m];
    } else {
      assert g.evicted[i] == f.evicted[i] + lost;
    }
  }

  lemma FrontThenFront(f: Fund, g: Fund, h: Fund, i: ShardNo, a: seq<Dump>, b: seq<Dump>)
    requires LosesFront(f, g, i, a) && LosesFront(g, h, i, b)
    ensures LosesFront(f, h, i, a + b)
  {
    assert f.evicted[i] + a + b == f.evicted[i] + (a + b);
    assert a + b + Flat(h.filledParts[i]) == a + (b + Flat(h.filledParts[i]));
  }

  lemma {:induction false} ChainLosesFront(chain: seq<Fund>, i: ShardNo) returns (lost: seq<Dump>)
    requires IsChain(chain) && i < |chain[0].filledParts| == |chain[0].evicted|
    ensures LosesFront(chain[0], chain[|chain| - 1], i, lost)
    decreases |chain|
  {
    var f := chain[0];
    if |chain| == 1 {
      lost := [];
      assert f.evicted[i] + [] == f.evicted[i];
    } else {
      assert LosesOne(f, chain[1]);
      var m :| LosesOldest(f, chain[1], m);
      var first := OldestIsFront(f, chain[1], m, i);
      assert IsChain(chain[1..]);
      var rest := ChainLosesFront(chain[1..], i);
      FrontThenFront(f, chain[1], chain[|chain| - 1], i, first, rest);
      lost := first + rest;
    }
  }

  lemma GivingLosesFront(f: Fund, g: Fund, i: ShardNo) returns (lost: seq<Dump>)
    requires GivesEmpty(f, g) && i < |f.filledParts| == |f.evicted|
    ensures LosesFront(f, g, i, lost)
  {
    if f.emptyParts == [] && f.partCount >= f.maxPartCount && SomeFilled(f.filledParts) {
      var m :| LosesOldest(f, g, m);
      lost := OldestIsFront(f, g, m, i);
    } else {
      lost := [];
      assert f.evicted[i] + [] == f.evicted[i];
    }
  }

  /** What a step evicts of a shard is the front of what was queued there. */
  lemma StepLosesFront(s: State, e: Event, i: ShardNo) returns (lost: seq<Dump>)
    requires Shape(s) && FundParts(s.fund) && i < |s.active|
    ensures var t := Step(s, e);
            && Shape(t) && i < |t.active| && t.fund.evicted[i] == s.fund.evicted[i] + lost
            && (lost == []
                || lost + (Flat(t.fund.filledParts[i]) + t.active[i]) == Flat(s.fund.filledParts[i]) + s.active[i])
  {
    StepKeepsShape(s, e);
    lost := [];
    var t := Step(s, e);
    if Enabled(s, e) {
      match e
      case MakeShard =>
        WithoutEmptyGives(WithShard(s.fund));
        lost := GivingLosesFront(WithShard(s.fund), t.fund, i);
        Reassociate(lost, Flat(t.fund.filledParts[i]), t.active[i]);
      case Swap =>
        lost := SwapLosesFront(s, i);
      case Configure(max) =>
        lost := ConfigureLosesFront(s.fund, max, i);
        Reassociate(lost, Flat(t.fund.filledParts[i]), t.active[i]);
      case _ => assert t.fund.evicted[i] == s.fund.evicted[i] + lost;
    } else {
      assert t.fund.evicted[i] == s.fund.evicted[i] + lost;
    }
  }

  lemma Reassociate(a: seq<Dump>, b: seq<Dump>, c: seq<Dump>)
    ensures a + (b + c) == a + b + c
  {
  }

  lemma ConfigureLosesFront(f: Fund, max: nat, i: ShardNo) returns (lost: seq<Dump>)
    requires |f.evicted| == |f.filledParts| && FundParts(f) && i < |f.filledParts|
    ensures LosesFront(f, Configured(f, max), i, lost)
  {
    var t := Trimmed(f, max);
    TrimmedKeeps(f, max);
    var chain := EvictedDownLoses(t, max);
    lost := ChainLosesFront(chain, i);
  }

  lemma SwapLosesFront(s: State, i: ShardNo) returns (lost: seq<Dump>)
    requires Shape(s) && s.lock.Renewing? && i < |s.active|
    ensures var t := StepSwap(s);
            && Shape(t) && t.fund.evicted[i] == s.fund.evicted[i] + lost
            && lost + (Flat(t.fund.filledParts[i]) + t.active[i]) == Flat(s.fund.filledParts[i]) + s.active[i]
  {
    var t, g := StepSwap(s), WithoutEmpty(s.fund);
    WithoutEmptyGives(s.fund);
    lost := GivingLosesFront(s.fund, g, i);
    if i == s.lock.shard {
      FlatAppend(g.filledParts[i], s.active[i]);
      assert Flat(t.fund.filledParts[i]) + t.active[i] == Flat(g.filledParts[i]) + s.active[i];
    }
    Reassociate(lost, Flat(g.filledParts[i]), s.active[i]);
  }

  /**
   In every run without the two harmful actions, whatever a step evicts is older than everything of
   its shard that is still queued or active.
   */
  lemma EvictsTheOldest(max: nat, drains: nat, events: seq<Event>, e: Event, i: ShardNo) returns (lost: seq<Dump>)
    requires SafeRun(Init(max, drains), events) && i < |After(max, drains, events).active|
    ensures Shape(After(max, drains, events))
    ensures var s, t := After(max, drains, events), Run(After(max, drains, events), [e]);
            && Shape(t) && i < |t.active| && t.fund.evicted[i] == s.fund.evicted[i] + lost
            && forall x, y :: x in lost && y in Flat(t.fund.filledParts[i]) + t.active[i] ==> x < y
  {
    var s := After(max, drains, events);
    InitIsFine(max, drains);
    RunKeeps(Init(max, drains), events);
    SafeRunKeepsOrder(Init(max, drains), events);
    RunOne(s, e);
    lost := StepLosesFront(s, e, i);
    assert InOrder(s, i);
    if lost != [] {
      LostIsSmaller(s, i, lost, Flat(Step(s, e).fund.filledParts[i]) + Step(s, e).active[i]);
    }
  }

  lemma LostIsSmaller(s: State, i: ShardNo, lost: seq<Dump>, rest: seq<Dump>)
    requires Shape(s) && i < |s.active| && InOrder(s, i) && lost + rest == Flat(s.fund.filledParts[i]) + s.active[i]
    ensures forall x, y :: x in lost && y in rest ==> x < y
  {
    var front := s.emitted[i] + HeldLine(s.held, i);
    Reassociate(front, Flat(s.fund.filledParts[i]), s.active[i]);
    assert Line(s, i) == front + (lost + rest);
    FrontIsSmaller(front, lost, rest, [s.added[i]]);
  }

  lemma FrontIsSmaller(a: seq<Dump>, b: seq<Dump>, c: seq<Dump>, d: seq<Dump>)
    requires Ascending(a + (b + c) + d)
    ensures forall x, y :: x in b && y in c ==> x < y
  {
    var line := a + (b + c) + d;
    forall x, y | x in b && y in c
      ensures x < y
    {
      var k :| 0 <= k < |b| && b[k] == x;
      var l :| 0 <= l < |c| && c[l] == y;
      assert line[|a| + k] == x && line[|a| + |b| + l] == y;
    }
  }

  // === The fund, the registry and the iterator as objects ===

  class PartFund {
    var maxPartCount: nat
    var partCount: nat
    var emptyParts: seq<Part>
    var filledParts: seq<seq<Part>>
    ghost var evicted: seq<seq<Dump>>

    ghost function View(): Fund
      reads this
    {
      Fund(maxPartCount, partCount, emptyParts, filledParts, evicted)
    }

    ghost predicate Valid()
      reads this
    {
      |evicted| == |filledParts| && FundParts(View())
    }

    constructor (max: nat)
      ensures Valid() && View() == Fund(max, 0, [], [], [])
    {
      maxPartCount, partCount, emptyParts, filledParts, evicted := max, 0, [], [], [];
    }

    /** The first thing to go is the oldest part of the last of the longest queues. */
    method ClearMostFilled() returns (part: Option<Part>)
      requires Valid()
      modifies this`filledParts, this`evicted
      ensures Valid()
      ensures part.Some? <==> CanEvict(old(View()))
      ensures part == None ==> View() == old(View())
      ensures part.Some? ==> part.value == [] && View() == Evict(old(View()))
      ensures part.Some? <==> SomeFilled(old(filledParts))
      ensures part.Some? ==> partCount == old(partCount) && exists m :: LosesOldest(old(View()), View(), m)
    {
      CanEvictIff(View());
      if filledParts == [] {
        return None;
      }
      var candidate, j := 0, 1;
      while j < |filledParts|
        invariant 1 <= j <= |filledParts|
        invariant candidate == MostFilled(filledParts[..j])
      {
        assert filledParts[..j + 1][..j] == filledParts[..j];
        if |filledParts[j]| >= |filledParts[candidate]| {
          candidate := j;
        }
        j := j + 1;
      }
      assert filledParts[..j] == filledParts;
      if filledParts[candidate] == [] {
        return None;
      }
      DropOldest(candidate);
      part := Some([]);
    }

    method DropOldest(candidate: ShardNo)
      requires Valid() && filledParts != [] && candidate == MostFilled(filledParts) && filledParts[candidate] != []
      modifies this`filledParts, this`evicted
      ensures Valid() && View() == Evict(old(View())) && partCount == old(partCount)
      ensures LosesOldest(old(View()), View(), candidate)
    {
      EvictKeeps(View());
      EvictLosesOldest(View());
      evicted := evicted[candidate := evicted[candidate] + filledParts[candidate][0]];
      filledParts := filledParts[candidate := filledParts[candidate][1..]];
    }

    method FreeEmptyParts(max: nat)
      requires Valid()
      modifies this`emptyParts, this`partCount
      ensures Valid() && View() == Trimmed(old(View()), max)
    {
      while partCount > max && emptyParts != []
        invariant Valid()
        invariant Trimmed(View(), max) == Trimmed(old(View()), max)
        decreases |emptyParts|
      {
        emptyParts := emptyParts[..|emptyParts| - 1];
        partCount := partCount - 1;
      }
    }

    method EvictFilledParts(max: nat)
      requires Valid()
      modifies this`filledParts, this`evicted, this`partCount
      ensures Valid() && View() == EvictedDown(old(View()), max)
    {
      while partCount > max
        invariant Valid()
        invariant EvictedDown(View(), max) == EvictedDown(old(View()), max)
        decreases partCount
      {
        var more := EvictOne();
        if !more {
          break;
        }
      }
    }

    method EvictOne() returns (more: bool)
      requires Valid() && partCount > 0
      modifies this`filledParts, this`evicted, this`partCount
      ensures Valid() && more == CanEvict(old(View()))
      ensures View() == if more then EvictedOne(old(View())) else old(View())
    {
      var part := ClearMostFilled();
      if part == None {
        return false;
      }
      partCount := partCount - 1;
      return true;
    }

    method Configure(max: nat)
      requires Valid()
      modifies this
      ensures Valid() && View() == Configured(old(View()), max)
      ensures FreesSurplus(old(View()), View(), max)
    {
      ConfiguredFrees(View(), max);
      FreeEmptyParts(max);
      EvictFilledParts(max);
      maxPartCount := max;
    }

    method AddShard() returns (shard: ShardNo)
      requires Valid()
      modifies this`filledParts, this`evicted
      ensures Valid() && shard == |old(filledParts)| && View() == WithShard(old(View()))
    {
      shard := |filledParts|;
      filledParts := filledParts + [[]];
      evicted := evicted + [[]];
    }

    method AddFilledPart(shard: ShardNo, part: Part)
      requires Valid() && shard < |filledParts| && 0 < |part| <= PART_CAPACITY
      modifies this`filledParts
      ensures Valid() && View() == WithFilled(old(View()), shard, part)
    {
      filledParts := filledParts[shard := filledParts[shard] + [part]];
    }

    method GetFilledPart(shard: ShardNo) returns (part: Option<Part>)
      requires Valid() && shard < |filledParts|
      modifies this`filledParts
      ensures Valid()
      ensures old(filledParts)[shard] == [] ==> part == None && View() == old(View())
      ensures old(filledParts)[shard] != [] ==>
                part == Some(old(filledParts)[shard][0]) && View() == WithoutFilled(old(View()), shard)
    {
      if filledParts[shard] == [] {
        return None;
      }
      part := Some(filledParts[shard][0]);
      filledParts := filledParts[shard := filledParts[shard][1..]];
    }

    method AddEmptyPart(part: Part)
      requires Valid() && part == []
      modifies this`emptyParts
      ensures Valid() && View() == WithEmpty(old(View()), part)
    {
      emptyParts := emptyParts + [part];
    }

    method GetEmptyPart() returns (part: Part)
      requires Valid()
      modifies this
      ensures Valid() && part == [] && View() == WithoutEmpty(old(View()))
      ensures GivesEmpty(old(View()), View())
    {
      WithoutEmptyGives(View());
      if emptyParts != [] {
        part := emptyParts[|emptyParts| - 1];
        emptyParts := emptyParts[..|emptyParts| - 1];
        return;
      }
      // At the limit, the most filled shard gives up its oldest part.
      if partCount >= maxPartCount {
        var cleared := ClearMostFilled();
        if cleared.Some? {
          return cleared.value;
        }
      }
      partCount := partCount + 1;
      part := [];
    }
  }

  class DumpRegistry {
    const fund: PartFund
    var active: seq<Part>

    ghost predicate Valid()
      reads this, fund
    {
      && fund.Valid()
      && |fund.filledParts| == |active|
      && forall i :: 0 <= i < |active| ==> |active[i]| < PART_CAPACITY
    }

    constructor (max: nat)
      ensures Valid() && fresh(fund) && active == []
    {
      fund := new PartFund(max);
      active := [];
    }

    method MakeShard() returns (shard: ShardNo)
      requires Valid()
      modifies this`active, fund
      ensures Valid() && shard == |old(active)| && active == old(active) + [[]]
      ensures fund.View() == WithoutEmpty(WithShard(old(fund.View())))
    {
      shard := fund.AddShard();
      var part := fund.GetEmptyPart();
      active := active + [part];
    }

    method Add(shard: ShardNo, dump: Dump)
      requires Valid() && shard < |active|
      modifies this`active, fund
      ensures Valid()
      ensures var part := old(active)[shard] + [dump];
              if |part| == PART_CAPACITY then
                && active == old(active)[shard := []]
                && fund.View() == WithFilled(WithoutEmpty(old(fund.View())), shard, part)
              else active == old(active)[shard := part] && fund.View() == old(fund.View())
    {
      active := active[shard := active[shard] + [dump]];
      if |active[shard]| == PART_CAPACITY {
        var _ := RenewActivePart(shard, true);
      }
    }

    /** Moves the active part to the fund if it is full, or if it is just not empty. */
    method RenewActivePart(shard: ShardNo, onlyFull: bool) returns (renewed: bool)
      requires fund.Valid() && |fund.filledParts| == |active| && shard < |active| && |active[shard]| <= PART_CAPACITY
      modifies this`active, fund
      ensures fund.Valid() && |fund.filledParts| == |active|
      ensures renewed == if onlyFull then |old(active)[shard]| == PART_CAPACITY else old(active)[shard] != []
      ensures !renewed ==> active == old(active) && fund.View() == old(fund.View())
      ensures renewed ==>
                && active == old(active)[shard := []]
                && fund.View() == WithFilled(WithoutEmpty(old(fund.View())), shard, old(active)[shard])
    {
      renewed := if onlyFull then |active[shard]| == PART_CAPACITY else active[shard] != [];
      if renewed {
        var emptyPart := fund.GetEmptyPart();
        var activePart := active[shard];
        active := active[shard := emptyPart];
        fund.AddFilledPart(shard, activePart);
      }
    }
  }

  /** The shards without dumps. */
  function EmptyShards(filled: seq<seq<Part>>, active: seq<Part>): set<ShardNo> {
    set i | 0 <= i < |filled| && i < |active| && filled[i] == [] && active[i] == []
  }

  /** The shard is the first one with dumps among the rest of the list, then in the whole list; the rest behind it stays. */
  ghost predicate Picks(rest: seq<ShardNo>, order: seq<ShardNo>, idle: set<ShardNo>, shard: ShardNo,
                        rest': seq<ShardNo>, k: nat) {
    && k < |rest + order| && (rest + order)[k] == shard && shard !in idle
    && (forall j :: 0 <= j < k ==> (rest + order)[j] in idle)
    && rest' == if k < |rest| then rest[k + 1..] else order[k - |rest| + 1..]
  }

  /** So many shards were found without dumps. */
  ghost predicate Tried(rest: seq<ShardNo>, order: seq<ShardNo>, idle: set<ShardNo>, rest': seq<ShardNo>, k: nat,
                        again: bool) {
    && (if again then |rest| <= k <= |rest| + |order| && rest' == order[k - |rest|..]
        else k <= |rest| && rest' == rest[k..])
    && (forall j :: 0 <= j < k ==> (rest + order)[j] in idle)
  }

  /** Two parts in a row come from one shard only if no other shard has dumps by then. */
  lemma FairToShards(rest: seq<ShardNo>, order: seq<ShardNo>, idle: set<ShardNo>, shard: ShardNo, rest': seq<ShardNo>,
                     idle': set<ShardNo>, rest'': seq<ShardNo>, k: nat, l: nat)
    requires forall a, b :: 0 <= a < b < |order| ==> order[a] != order[b]
    requires |rest| <= |order| && rest == order[|order| - |rest|..]
    requires Picks(rest, order, idle, shard, rest', k) && Picks(rest', order, idle', shard, rest'', l)
    ensures forall other :: other in order && other != shard ==> other in idle'
  {
    var p := if k < |rest| then |order| - |rest| + k else k - |rest|;
    assert order[p] == shard && rest' == order[p + 1..];
    WholeRound(order, idle', p, rest'', l);
  }

  lemma WholeRound(order: seq<ShardNo>, idle: set<ShardNo>, p: nat, rest: seq<ShardNo>, l: nat)
    requires forall a, b :: 0 <= a < b < |order| ==> order[a] != order[b]
    requires p < |order| && Picks(order[p + 1..], order, idle, order[p], rest, l)
    ensures forall other :: other in order && other != order[p] ==> other in idle
  {
    var all, n := order[p + 1..] + order, |order| - p - 1;
    assert forall j :: 0 <= j < n ==> all[j] == order[p + 1 + j];
    assert l >= n + p;
    forall other | other in order && other != order[p]
      ensures other in idle
    {
      var q :| 0 <= q < |order| && order[q] == other;
      var j := if q < p then n + q else q - p - 1;
      assert all[j] == other && j < l;
    }
  }

  /** `order` is the order in which the thread-local storage lists the shards. */
  class Drain {
    const registry: DumpRegistry
    const order: seq<ShardNo>
    var rest: seq<ShardNo>
    var current: Option<Held>

    ghost predicate Valid()
      reads this, registry, registry.fund
    {
      && registry.Valid()
      && (forall k :: 0 <= k < |order| ==> order[k] < |registry.active|)
      && (forall k :: 0 <= k < |rest| ==> rest[k] < |registry.active|)
      && (current.Some? ==> current.value.shard < |registry.active| && 0 < |current.value.part| <= PART_CAPACITY)
    }

    constructor (registry: DumpRegistry, order: seq<ShardNo>)
      requires registry.Valid() && forall k :: 0 <= k < |order| ==> order[k] < |registry.active|
      ensures this.registry == registry && this.order == order && current == None && Valid()
    {
      this.registry, this.order, this.rest, this.current := registry, order, order, None;
    }

    ghost predicate IsEmpty(i: ShardNo)
      reads registry, registry.fund
      requires registry.Valid() && i < |registry.active|
    {
      registry.fund.filledParts[i] == [] && registry.active[i] == []
    }

    /** Takes the oldest filled part of the shard, or its active part if there is none. */
    method TakeFrom(shard: ShardNo)
      requires Valid() && current == None && shard < |registry.active|
      modifies this`current, registry`active, registry.fund
      ensures Valid()
      ensures current == None <==> old(IsEmpty(shard))
      ensures current == None ==>
                registry.active == old(registry.active) && registry.fund.View() == old(registry.fund.View())
      ensures current.Some? ==>
                var f, a := old(registry.fund.View()), old(registry.active);
                && |f.evicted| == |f.filledParts| && current.value.shard == shard
                && if f.filledParts[shard] != [] then
                     && current.value.part == f.filledParts[shard][0]
                     && registry.active == a && registry.fund.View() == WithoutFilled(f, shard)
                   else
                     && current.value.part == a[shard] && registry.active == a[shard := []]
                     && registry.fund.View() == WithoutEmpty(f)
    {
      // First, the filled parts.
      var part := registry.fund.GetFilledPart(shard);
      if part.Some? {
        current := Some(Held(shard, part.value));
        return;
      }

      // Then the active part, if it is not empty.
      var renewed := registry.RenewActivePart(shard, false);
      if renewed {
        WithoutEmptyLeavesEmpty(old(registry.fund.View()), shard);
        FillThenTake(WithoutEmpty(old(registry.fund.View())), shard, old(registry.active)[shard]);
        part := registry.fund.GetFilledPart(shard);
        current := Some(Held(shard, part.value));
      }
    }

    /**
     Takes the next part: the oldest filled one of the next shard, or its active part if there is
     none. Finds nothing only if every shard listed is empty.
     */
    method NextShard()
      requires Valid() && current == None
      modifies this`rest, this`current, registry`active, registry.fund
      ensures Valid()
      ensures current == None ==>
                && registry.active == old(registry.active) && registry.fund.View() == old(registry.fund.View())
                && forall k :: 0 <= k < |order| ==> IsEmpty(order[k])
      ensures current.Some? ==>
                var i, f, a := current.value.shard, old(registry.fund.View()), old(registry.active);
                && i < |f.filledParts| && |f.evicted| == |f.filledParts| && i < |a|
                && if f.filledParts[i] != [] then
                     && current.value.part == f.filledParts[i][0]
                     && registry.active == a && registry.fund.View() == WithoutFilled(f, i)
                   else
                     && current.value.part == a[i] && registry.active == a[i := []]
                     && registry.fund.View() == WithoutEmpty(f)
      ensures current.Some? ==>
                exists k :: Picks(old(rest), order, EmptyShards(old(registry.fund.filledParts), old(registry.active)),
                                  current.value.shard, rest, k)
    {
      ghost var idle := EmptyShards(registry.fund.filledParts, registry.active);
      ghost var tried := 0;
      var isRerun := false;
      while true
        invariant Valid() && current == None
        invariant registry.active == old(registry.active) && registry.fund.View() == old(registry.fund.View())
        invariant isRerun ==> |rest| <= |order| && rest == order[|order| - |rest|..]
        invariant isRerun ==> forall k :: 0 <= k < |order| - |rest| ==> IsEmpty(order[k])
        invariant Tried(old(rest), order, idle, rest, tried, isRerun)
        decreases if isRerun then 0 else 1, |rest|
      {
        if rest == [] {
          if isRerun {
            return;
          }
          isRerun := true;
          rest := order;
          continue;
        }
        var shard := rest[0];
        rest := rest[1..];
        tried := tried + 1;
        TakeFrom(shard);
        if current.Some? {
          assert Picks(old(rest), order, idle, shard, rest, tried - 1);
          return;
        }
      }
    }

    /** `timedOut` is whether the deadline has passed by now; `from` is the shard of the item. */
    method Next(timedOut: bool) returns (item: Option<Dump>, from: ShardNo)
      requires Valid()
      modifies this`rest, this`current, registry`active, registry.fund
      ensures Valid()
      ensures item == None ==>
                && current == None && old(current) == None
                && registry.active == old(registry.active) && registry.fund.View() == old(registry.fund.View())
      ensures |registry.active| == |old(registry.active)|
      ensures item == None && !timedOut ==> forall k :: 0 <= k < |order| ==> IsEmpty(order[k])
      ensures old(current).Some? ==>
                var h := old(current).value;
                && item == Some(h.part[0]) && registry.active == old(registry.active)
                && (|h.part| > 1 ==>
                      && current == Some(h.(part := h.part[1..]))
                      && registry.fund.View() == old(registry.fund.View()))
                && (|h.part| == 1 ==>
                      current == None && registry.fund.View() == WithEmpty(old(registry.fund.View()), []))
      ensures item.Some? ==>
                Pending(registry.fund.filledParts, registry.active, current)
                < Pending(old(registry.fund.filledParts), old(registry.active), old(current))
      ensures Yields(Known(old(registry.fund.View()), old(registry.active), old(current)),
                     Known(registry.fund.View(), registry.active, current), item, from)
    {
      ghost var before := Known(registry.fund.View(), registry.active, current);
      if current == None && !timedOut {
        NextShard();
        if current.Some? {
          PendingAfterTake(before.fund, before.active, current.value, registry.fund.filledParts, registry.active);
          CopiesAfterTake(before.fund, before.active, current.value, registry.fund.View(), registry.active);
        }
      }
      if current == None {
        return None, 0;
      }
      ghost var taken := Known(registry.fund.View(), registry.active, current);
      var dump;
      dump, from := Emit();
      item := Some(dump);
      CopiesAfterEmit(taken, registry.fund.View(), current);
      YieldsAfter(before, taken, Known(registry.fund.View(), registry.active, current), item, from);
    }

    /** The first dump of the current part; a part read to its end goes to the empty ones. */
    method Emit() returns (dump: Dump, from: ShardNo)
      requires Valid() && current.Some?
      modifies this`current, registry.fund
      ensures Valid() && dump == old(current).value.part[0] && from == old(current).value.shard
      ensures var h := old(current).value;
              if |h.part| > 1 then
                current == Some(h.(part := h.part[1..])) && registry.fund.View() == old(registry.fund.View())
              else
                current == None && registry.fund.View() == WithEmpty(old(registry.fund.View()), [])
    {
      var part := current.value.part;
      dump, from := part[0], current.value.shard;
      current := Some(current.value.(part := part[1..]));
      if part[1..] == [] {
        current := None;
        registry.fund.AddEmptyPart(part[1..]);
      }
    }

    /** A part that was not read to its end goes back to its shard. */
    method Drop()
      requires Valid()
      modifies this`current, registry.fund
      ensures Valid() && current == None
      ensures registry.fund.View() ==
              if old(current).Some? then
                WithFilled(old(registry.fund.View()), old(current).value.shard, old(current).value.part)
              else old(registry.fund.View())
    {
      if current.Some? {
        registry.fund.AddFilledPart(current.value.shard, current.value.part);
        current := None;
      }
    }
  }

  /** A shard without filled parts cannot lose any to an eviction. */
  lemma WithoutEmptyLeavesEmpty(f: Fund, i: ShardNo)
    requires |f.evicted| == |f.filledParts| && i < |f.filledParts| && f.filledParts[i] == []
    ensures |WithoutEmpty(f).filledParts| == |f.filledParts| && WithoutEmpty(f).filledParts[i] == []
  {
  }

  lemma FillThenTake(f: Fund, i: ShardNo, part: Part)
    requires i < |f.filledParts| && f.filledParts[i] == []
    ensures WithFilled(f, i, part).filledParts[i] == [part]
    ensures WithoutFilled(WithFilled(f, i, part), i) == f
  {
    var g := WithFilled(f, i, part);
    assert g.filledParts[i] == [part] && [part][1..] == f.filledParts[i];
    assert WithoutFilled(g, i).filledParts == f.filledParts;
  }

  function PartLength(p: Part): nat {
    |p|
  }

  function QueueDumps(q: seq<Part>): nat {
    SumBy(q, PartLength)
  }

  /** How many dumps are still to be drained. */
  function Pending(filled: seq<seq<Part>>, active: seq<Part>, current: Option<Held>): nat {
    SumBy(filled, QueueDumps) + SumBy(active, PartLength) + if current.Some? then |current.value.part| else 0
  }

  /** In how many places a dump of a shard is, as far as the fund, the registry and one iterator know. */
  ghost function ShardCopies(f: Fund, active: seq<Part>, current: Option<Held>, i: ShardNo, k: Dump): nat
    requires |f.evicted| == |f.filledParts| == |active| && i < |active|
  {
    FundCopies(f.evicted[i], f.filledParts[i], k) + multiset(active[i])[k] + HeldCopies(i, k)(current)
  }

  /** What the fund, the registry and one iterator know. */
  datatype Known = Known(fund: Fund, active: seq<Part>, current: Option<Held>)

  ghost predicate KnownShape(s: Known) {
    |s.fund.evicted| == |s.fund.filledParts| == |s.active|
  }

  /** Between the two every dump of every shard stays accounted for, and the item is the only one to go. */
  ghost predicate Yields(s: Known, t: Known, item: Option<Dump>, from: ShardNo) {
    && KnownShape(s) && KnownShape(t) && |t.active| == |s.active|
    && forall i: nat, k: Dump :: i < |s.active| ==>
         ShardCopies(t.fund, t.active, t.current, i, k) + (if item == Some(k) && from == i then 1 else 0)
         == ShardCopies(s.fund, s.active, s.current, i, k)
  }

  lemma YieldsAfter(s: Known, t: Known, u: Known, item: Option<Dump>, from: ShardNo)
    requires Yields(s, t, None, 0) && Yields(t, u, item, from)
    ensures Yields(s, u, item, from)
  {
    forall i: nat, k: Dump | i < |s.active|
      ensures ShardCopies(u.fund, u.active, u.current, i, k) + (if item == Some(k) && from == i then 1 else 0)
              == ShardCopies(s.fund, s.active, s.current, i, k)
    {
      assert ShardCopies(t.fund, t.active, t.current, i, k) == ShardCopies(s.fund, s.active, s.current, i, k);
    }
  }

  lemma CopiesAfterEmit(s: Known, g: Fund, current: Option<Held>)
    requires KnownShape(s) && s.current.Some? && s.current.value.part != []
    requires var h := s.current.value;
             if |h.part| > 1 then current == Some(h.(part := h.part[1..])) && g == s.fund
             else current == None && g == WithEmpty(s.fund, [])
    ensures Yields(s, Known(g, s.active, current), Some(s.current.value.part[0]), s.current.value.shard)
  {
    var part := s.current.value.part;
    assert part == [part[0]] + part[1..];
    if |part| == 1 { assert part[1..] == []; }
  }

  lemma CopiesAfterTake(f: Fund, a: seq<Part>, h: Held, g: Fund, active: seq<Part>)
    requires |f.evicted| == |f.filledParts| == |a| && h.shard < |a|
    requires if f.filledParts[h.shard] != [] then
               h.part == f.filledParts[h.shard][0] && active == a && g == WithoutFilled(f, h.shard)
             else h.part == a[h.shard] && active == a[h.shard := []] && g == WithoutEmpty(f)
    ensures Yields(Known(f, a, None), Known(g, active, Some(h)), None, 0)
  {
    if f.filledParts[h.shard] == [] { WithoutEmptyKeepsDumps(f); }
  }

  lemma EvictShrinks(f: Fund)
    requires CanEvict(f) && |f.evicted| == |f.filledParts|
    ensures SumBy(Evict(f).filledParts, QueueDumps) <= SumBy(f.filledParts, QueueDumps)
  {
    var m := MostFilled(f.filledParts);
    SumByUpdate(f.filledParts, m, f.filledParts[m][1..], QueueDumps);
  }

  lemma PendingAfterTake(f: Fund, a: seq<Part>, h: Held, filled: seq<seq<Part>>, active: seq<Part>)
    requires |f.evicted| == |f.filledParts| && h.shard < |f.filledParts| && h.shard < |a|
    requires if f.filledParts[h.shard] != [] then
               && h.part == f.filledParts[h.shard][0] && active == a
               && filled == WithoutFilled(f, h.shard).filledParts
             else h.part == a[h.shard] && active == a[h.shard := []] && filled == WithoutEmpty(f).filledParts
    ensures Pending(filled, active, Some(h)) <= Pending(f.filledParts, a, None)
  {
    var q := f.filledParts[h.shard];
    if q != [] {
      SumByUpdate(f.filledParts, h.shard, q[1..], QueueDumps);
    } else {
      SumByUpdate(a, h.shard, [], PartLength);
      if CanEvict(f) { EvictShrinks(f); }
    }
  }

  /**
   Draining to the end, with nobody adding and no timeout, leaves every shard empty, and yields
   every dump that was there exactly once, except those evicted on the way.
   */
  method DrainAll(registry: DumpRegistry, order: seq<ShardNo>) returns (dumps: seq<(ShardNo, Dump)>)
    requires registry.Valid()
    requires forall k :: 0 <= k < |order| ==> order[k] < |registry.active|
    requires forall i :: 0 <= i < |registry.active| ==> i in order
    modifies registry`active, registry.fund
    ensures registry.Valid() && |registry.active| == |old(registry.active)|
    ensures forall i :: 0 <= i < |registry.active| ==> registry.fund.filledParts[i] == [] && registry.active[i] == []
    ensures forall i: nat, k: Dump :: i < |registry.active| ==>
              multiset(dumps)[(i, k)] + multiset(registry.fund.evicted[i])[k]
              == ShardCopies(old(registry.fund.View()), old(registry.active), None, i, k)
  {
    ghost var shards := |registry.active|;
    assert forall i :: 0 <= i < shards ==> i in order;
    var drain := new Drain(registry, order);
    dumps := [];
    while true
      invariant drain.Valid() && drain.registry == registry && drain.order == order && fresh(drain)
      invariant |registry.active| == |old(registry.active)| == shards
      invariant forall i: nat, k: Dump :: i < shards ==>
                  multiset(dumps)[(i, k)] + ShardCopies(registry.fund.View(), registry.active, drain.current, i, k)
                  == ShardCopies(old(registry.fund.View()), old(registry.active), None, i, k)
      decreases Pending(registry.fund.filledParts, registry.active, drain.current)
    {
      var item, from := drain.Next(false);
      if item == None {
        forall i | 0 <= i < |registry.active|
          ensures registry.fund.filledParts[i] == [] && registry.active[i] == []
        {
          assert i < shards && i in order;
          var k :| 0 <= k < |order| && order[k] == i;
          assert drain.IsEmpty(order[k]);
        }
        return;
      }
      dumps := dumps + [(from, item.value)];
    }
  }
}
