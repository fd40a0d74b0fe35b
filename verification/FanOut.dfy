/**
 Fan-out of one envelope over the actors of a group.

 A visitor offers the envelope to every actor in turn. Each attempt consumes an envelope, so
 the visitor works on duplicates and keeps the original for the last actor; an envelope that
 a mailbox rejected is reused for the next attempt. The awaiting visitor finally waits for the
 mailboxes that were full. Mailboxes are inputs here: what each attempt meets is given.
 */
module FanOut {
  import opened Prelude

  /** Envelopes are told apart by number: the original is 0, duplicates are numbered from 1. */
  type Envelope = nat

  /** What the mailbox of the visited actor answers at once, and when waited for. */
  datatype Mailbox = Accepting | FullThen(accepts: bool) | Closed

  datatype Delivery = Delivery(visit: nat, envelope: Envelope)

  datatype SendError = SendError(envelope: Envelope)

  datatype TrySendError = TryFull(envelope: Envelope) | TryClosed(envelope: Envelope)

  /** Whether the awaiting visitor reaches the actor. */
  predicate Reached(m: Mailbox) {
    m == Accepting || m == FullThen(true)
  }

  function One(b: bool): nat {
    if b then 1 else 0
  }

  function Sent(deliveries: seq<Delivery>): seq<Envelope> {
    seq(|deliveries|, k requires 0 <= k < |deliveries| => deliveries[k].envelope)
  }

  function Visits(deliveries: seq<Delivery>): seq<nat> {
    seq(|deliveries|, k requires 0 <= k < |deliveries| => deliveries[k].visit)
  }

  lemma DeliveryAppend(ds: seq<Delivery>, d: Delivery)
    ensures Sent(ds + [d]) == Sent(ds) + [d.envelope] && Visits(ds + [d]) == Visits(ds) + [d.visit]
  {
  }

  /** Where all the envelopes are; `offered` is the one of the current attempt. */
  datatype Hands = Hands(
    delivered: seq<Delivery>,
    full: seq<Delivery>,
    extra: Option<Envelope>,
    offered: Option<Envelope>,
    dropped: set<Envelope>)

  function Places(h: Hands, e: Envelope): nat {
    multiset(Sent(h.delivered))[e] + multiset(Sent(h.full))[e] + One(h.extra == Some(e)) + One(h.offered == Some(e))
    + One(e in h.dropped)
  }

  /** Envelope 0 is not counted while it waits for the last actor. */
  ghost predicate EachOnce(h: Hands, next: Envelope, original: bool) {
    forall e: Envelope :: Places(h, e) == One(e < next && !(original && e == 0))
  }

  lemma Accepted(h: Hands, visit: nat, next: Envelope, original: bool)
    requires EachOnce(h, next, original) && h.offered.Some?
    ensures var d := Delivery(visit, h.offered.value);
            EachOnce(h.(delivered := h.delivered + [d], offered := None), next, original)
  {
    var d := Delivery(visit, h.offered.value);
    DeliveryAppend(h.delivered, d);
    forall e: Envelope
      ensures Places(h.(delivered := h.delivered + [d], offered := None), e) == Places(h, e)
    {
    }
  }

  lemma Postponed(h: Hands, visit: nat, next: Envelope, original: bool)
    requires EachOnce(h, next, original) && h.offered.Some?
    ensures var d := Delivery(visit, h.offered.value);
            EachOnce(h.(full := h.full + [d], offered := None), next, original)
  {
    var d := Delivery(visit, h.offered.value);
    DeliveryAppend(h.full, d);
    forall e: Envelope
      ensures Places(h.(full := h.full + [d], offered := None), e) == Places(h, e)
    {
    }
  }

  function Spared(h: Hands): set<Envelope> {
    if h.extra.Some? then h.dropped + {h.extra.value} else h.dropped
  }

  lemma Spares(h: Hands, next: Envelope, original: bool)
    requires EachOnce(h, next, original)
    ensures EachOnce(h.(extra := None, dropped := Spared(h)), next, original)
  {
    forall e: Envelope
      ensures Places(h.(extra := None, dropped := Spared(h)), e) == Places(h, e)
    {
      if h.extra.Some? { assert Places(h, h.extra.value) <= 1; }
    }
  }

  /** Keeping a rejected envelope drops the one kept before. */
  lemma Rejected(h: Hands, next: Envelope, original: bool)
    requires EachOnce(h, next, original) && h.offered.Some?
    ensures EachOnce(h.(extra := h.offered, offered := None, dropped := Spared(h)), next, original)
  {
    Spares(h, next, original);
    var h' := h.(extra := None, dropped := Spared(h));
    assert forall e: Envelope :: Places(h'.(extra := h.offered, offered := None), e) == Places(h', e);
  }

  /** What happens to the envelopes apart from being delivered: a duplicate is made, or one is dropped. */
  datatype Effect = Copied | Dropped(envelope: Envelope)

  /**
   The effects lead to this many envelopes, of which these were dropped: each once, after it was
   made, and the original not before its last duplicate.
   */
  predicate Follows(effects: seq<Effect>, next: Envelope, dropped: set<Envelope>)
    decreases |effects|
  {
    if effects == [] then next == 1 && dropped == {}
    else
      var before, last := effects[..|effects| - 1], effects[|effects| - 1];
      match last
      case Copied => next > 1 && 0 !in dropped && Follows(before, next - 1, dropped)
      case Dropped(e) => e < next && e in dropped && Follows(before, next, dropped - {e})
  }

  lemma FollowsDrop(effects: seq<Effect>, next: Envelope, dropped: set<Envelope>, e: Envelope)
    requires Follows(effects, next, dropped) && e < next && e !in dropped
    ensures Follows(effects + [Dropped(e)], next, dropped + {e})
  {
    assert (effects + [Dropped(e)])[..|effects|] == effects && dropped + {e} - {e} == dropped;
  }

  lemma FollowsCopy(effects: seq<Effect>, next: Envelope, dropped: set<Envelope>)
    requires Follows(effects, next, dropped) && 0 !in dropped && next > 0
    ensures Follows(effects + [Copied], next + 1, dropped)
  {
    assert (effects + [Copied])[..|effects|] == effects;
  }

  /** Making room for a rejected envelope drops the one kept before. */
  function Sparing(extra: Option<Envelope>): seq<Effect> {
    if extra.Some? then [Dropped(extra.value)] else []
  }

  lemma FollowsSparing(effects: seq<Effect>, h: Hands, next: Envelope, original: bool)
    requires EachOnce(h, next, original) && Follows(effects, next, h.dropped)
    ensures Follows(effects + Sparing(h.extra), next, Spared(h))
  {
    if h.extra.Some? {
      assert Places(h, h.extra.value) <= 1;
      FollowsDrop(effects, next, h.dropped, h.extra.value);
    } else {
      assert effects + [] == effects;
    }
  }

  /** The visitor behind `send`. */
  class SendGroupVisitor {
    var extra: Option<Envelope>
    var full: seq<Delivery>
    var hasOk: bool
    var next: Envelope                    // the next duplicate
    var delivered: seq<Delivery>          // what the mailboxes got
    var attempts: seq<nat>                // the visits of all attempts so far
    var effects: seq<Effect>
    ghost var offered: Option<Envelope>
    ghost var dropped: set<Envelope>
    ghost var original: bool              // the original is still to be offered

    ghost function View(): Hands
      reads this
    {
      Hands(delivered, full, extra, offered, dropped)
    }

    ghost predicate Valid()
      reads this
    {
      next > 0 && EachOnce(View(), next, original) && Follows(effects, next, dropped) && (hasOk <==> delivered != [])
    }

    constructor ()
      ensures Valid() && original && View() == Hands([], [], None, None, {}) && next == 1 && attempts == []
    {
      extra, full, hasOk, next, attempts, effects := None, [], false, 1, [], [];
      delivered, offered, dropped, original := [], None, {}, true;
    }

    /** Drops the rejected envelope, if one is kept. */
    method DropExtra()
      requires Valid()
      modifies this`extra, this`effects, this`dropped
      ensures Valid() && extra == None
    {
      ghost var h := View();
      FollowsSparing(effects, h, next, original);
      Spares(h, next, original);
      effects := effects + Sparing(extra);
      dropped := Spared(h);
      extra := None;
    }

    /** Keeps a rejected envelope in place of the one kept before. */
    method Keep(envelope: Envelope)
      requires Valid() && offered == Some(envelope)
      modifies this`extra, this`effects, this`offered, this`dropped
      ensures Valid() && offered == None && extra == Some(envelope)
    {
      DropExtra();
      ghost var h := View();
      extra := Some(envelope);
      offered := None;
      assert forall e: Envelope :: Places(View(), e) == Places(h, e);
    }

    method Discard(envelope: Envelope)
      requires Valid() && offered == Some(envelope)
      modifies this`effects, this`offered, this`dropped
      ensures Valid() && offered == None
    {
      GivenUp(View(), next, original);
      assert Places(View(), envelope) == 1;
      FollowsDrop(effects, next, dropped, envelope);
      effects := effects + [Dropped(envelope)];
      dropped := dropped + {envelope};
      offered := None;
    }

    method Deliver(d: Delivery)
      requires Valid() && offered == Some(d.envelope)
      modifies this`hasOk, this`delivered, this`offered
      ensures Valid() && offered == None && delivered == old(delivered) + [d]
    {
      Accepted(View(), d.visit, next, original);
      hasOk := true;
      delivered := delivered + [d];
      offered := None;
    }

    method TrySend(visit: nat, mailbox: Mailbox, envelope: Envelope)
      requires Valid() && offered == Some(envelope)
      modifies this`extra, this`full, this`hasOk, this`delivered, this`attempts, this`effects, this`offered, this`dropped
      ensures Valid() && offered == None && attempts == old(attempts) + [visit]
      ensures delivered == old(delivered) + if mailbox == Accepting then [Delivery(visit, envelope)] else []
      ensures full == old(full) + if mailbox.FullThen? then [Delivery(visit, envelope)] else []
      ensures extra == if mailbox == Closed then Some(envelope) else old(extra)
    {
      attempts := attempts + [visit];
      match mailbox {
        case Accepting =>
          Deliver(Delivery(visit, envelope));
        case FullThen(_) =>
          Postponed(View(), visit, next, original);
          full := full + [Delivery(visit, envelope)];
          offered := None;
        case Closed =>
          Keep(envelope);
      }
    }

    /** Offers a rejected envelope if there is one, otherwise a duplicate of the original. */
    method Visit(visit: nat, mailbox: Mailbox) returns (envelope: Envelope)
      requires Valid() && offered == None && original
      modifies this
      ensures Valid() && offered == None && original && attempts == old(attempts) + [visit]
      ensures next == old(next) + One(old(extra) == None)
      ensures envelope == if old(extra).Some? then old(extra).value else old(next)
      ensures delivered == old(delivered) + if mailbox == Accepting then [Delivery(visit, envelope)] else []
      ensures full == old(full) + if mailbox.FullThen? then [Delivery(visit, envelope)] else []
      ensures extra == if mailbox == Closed then Some(envelope) else None
    {
      envelope := next;
      ghost var h := View();
      if extra.Some? {
        envelope := extra.value;
        extra := None;
      } else {
        assert Places(h, 0) == 0;
        FollowsCopy(effects, next, dropped);
        effects := effects + [Copied];
        next := next + 1;
      }
      offered := Some(envelope);
      assert forall e: Envelope :: Places(View(), e) == Places(h, e) + One(e == envelope && h.extra == None);
      TrySend(visit, mailbox, envelope);
    }

    method VisitLast(visit: nat, mailbox: Mailbox)
      requires Valid() && offered == None && original
      modifies this
      ensures Valid() && offered == None && !original && next == old(next) && attempts == old(attempts) + [visit]
      ensures delivered == old(delivered) + if mailbox == Accepting then [Delivery(visit, 0)] else []
      ensures full == old(full) + if mailbox.FullThen? then [Delivery(visit, 0)] else []
      ensures extra == if mailbox == Closed then Some(0) else old(extra)
    {
      ghost var h := View();
      original := false;
      offered := Some(0);
      assert forall e: Envelope :: Places(View(), e) == Places(h, e) + One(e == 0);
      TrySend(visit, mailbox, 0);
    }

    /** Waits for the first of the full mailboxes. */
    method AwaitOne(mailboxes: seq<Mailbox>)
      requires Valid() && offered == None && full != []
      requires full[0].visit < |mailboxes| && mailboxes[full[0].visit].FullThen?
      modifies this
      ensures Valid() && offered == None && original == old(original) && next == old(next)
      ensures full == old(full)[1..] && (hasOk || extra.Some?) && attempts == old(attempts) + [old(full)[0].visit]
      ensures delivered == old(delivered) + if mailboxes[old(full)[0].visit].accepts then [old(full)[0]] else []
    {
      var waiting := full[0];
      attempts := attempts + [waiting.visit];
      Reoffered(View(), next, original);
      full := full[1..];
      offered := Some(waiting.envelope);
      if mailboxes[waiting.visit].accepts {
        Deliver(waiting);
      } else if !hasOk {
        Keep(waiting.envelope);
      } else {
        Discard(waiting.envelope);
      }
    }

    /** Waits for the full mailboxes, in the order of the visits. */
    method Finish(mailboxes: seq<Mailbox>) returns (r: Result<(), SendError>)
      requires Valid() && offered == None
      requires hasOk || full != [] || extra.Some?
      requires OnTrack(delivered, full, mailboxes)
      modifies this
      ensures Valid() && next == old(next) && offered == None && original == old(original)
      ensures full == [] && OnTrack(delivered, full, mailboxes)
      ensures attempts == old(attempts + Visits(full))
      ensures r.Ok? <==> delivered != []
      ensures extra == if r.Err? then Some(r.error.envelope) else None
    {
      while full != []
        invariant Valid() && offered == None && next == old(next) && original == old(original)
        invariant hasOk || full != [] || extra.Some?
        invariant OnTrack(delivered, full, mailboxes)
        invariant attempts + Visits(full) == old(attempts + Visits(full))
        decreases |full|
      {
        AwaitKeepsTrack(delivered, full, mailboxes);
        AwaitedNext(attempts, full);
        AwaitOne(mailboxes);
      }
      assert attempts + Visits([]) == attempts;
      if hasOk {
        r := Ok(());
        DropExtra();
      } else {
        r := Err(SendError(extra.value));
      }
    }
  }

  /** Once the full mailboxes are waited for, exactly the reachable actors are reached. */
  ghost predicate OnTrack(delivered: seq<Delivery>, full: seq<Delivery>, mailboxes: seq<Mailbox>) {
    && (forall i: nat ::
          multiset(Visits(delivered))[i]
          + (if i < |mailboxes| && mailboxes[i] == FullThen(true) then multiset(Visits(full))[i] else 0)
          == One(i < |mailboxes| && Reached(mailboxes[i])))
    && (forall j :: 0 <= j < |full| ==> full[j].visit < |mailboxes| && mailboxes[full[j].visit].FullThen?)
  }

  lemma AwaitKeepsTrack(delivered: seq<Delivery>, full: seq<Delivery>, mailboxes: seq<Mailbox>)
    requires full != [] && OnTrack(delivered, full, mailboxes)
    ensures OnTrack(delivered + (if mailboxes[full[0].visit].accepts then [full[0]] else []), full[1..], mailboxes)
  {
    SplitFirst(full);
    DeliveryAppend(delivered, full[0]);
    assert delivered + [] == delivered;
  }

  lemma AwaitedNext(attempts: seq<nat>, full: seq<Delivery>)
    requires full != []
    ensures attempts + [full[0].visit] + Visits(full[1..]) == attempts + Visits(full)
  {
    assert Visits(full) == [full[0].visit] + Visits(full[1..]);
  }

  lemma SplitFirst(ds: seq<Delivery>)
    requires ds != []
    ensures multiset(Sent(ds)) == multiset(Sent(ds[1..])) + multiset{ds[0].envelope}
    ensures multiset(Visits(ds)) == multiset(Visits(ds[1..])) + multiset{ds[0].visit}
  {
    assert Sent(ds) == [ds[0].envelope] + Sent(ds[1..]);
    assert Visits(ds) == [ds[0].visit] + Visits(ds[1..]);
  }

  lemma Reoffered(h: Hands, next: Envelope, original: bool)
    requires EachOnce(h, next, original) && h.offered == None && h.full != []
    ensures EachOnce(h.(full := h.full[1..], offered := Some(h.full[0].envelope)), next, original)
  {
    SplitFirst(h.full);
    forall e: Envelope
      ensures Places(h.(full := h.full[1..], offered := Some(h.full[0].envelope)), e) == Places(h, e)
    {
    }
  }

  lemma GivenUp(h: Hands, next: Envelope, original: bool)
    requires EachOnce(h, next, original) && h.offered.Some?
    ensures EachOnce(h.(offered := None, dropped := h.dropped + {h.offered.value}), next, original)
  {
    forall e: Envelope
      ensures Places(h.(offered := None, dropped := h.dropped + {h.offered.value}), e) == Places(h, e)
    {
    }
  }

  /** The first `k` mailboxes were tried: who got an envelope and who is waited for. */
  ghost predicate Offered(delivered: seq<Delivery>, full: seq<Delivery>, mailboxes: seq<Mailbox>, k: nat) {
    AcceptedBefore(delivered, mailboxes, k) && FullBefore(full, mailboxes, k)
  }

  ghost predicate FullBefore(full: seq<Delivery>, mailboxes: seq<Mailbox>, k: nat) {
    && k <= |mailboxes|
    && (forall i: nat :: multiset(Visits(full))[i] == One(i < k && mailboxes[i].FullThen?))
    && (forall j :: 0 <= j < |full| ==> full[j].visit < k && mailboxes[full[j].visit].FullThen?)
  }

  lemma OneMoreFull(full: seq<Delivery>, mailboxes: seq<Mailbox>, k: nat, e: Envelope)
    requires k < |mailboxes| && FullBefore(full, mailboxes, k)
    ensures FullBefore(full + (if mailboxes[k].FullThen? then [Delivery(k, e)] else []), mailboxes, k + 1)
  {
    DeliveryAppend(full, Delivery(k, e));
    assert full + [] == full;
  }

  lemma OneMoreOffer(delivered: seq<Delivery>, full: seq<Delivery>, delivered': seq<Delivery>, full': seq<Delivery>,
                     mailboxes: seq<Mailbox>, k: nat, e: Envelope)
    requires k < |mailboxes| && Offered(delivered, full, mailboxes, k)
    requires delivered' == delivered + if mailboxes[k] == Accepting then [Delivery(k, e)] else []
    requires full' == full + if mailboxes[k].FullThen? then [Delivery(k, e)] else []
    ensures Offered(delivered', full', mailboxes, k + 1)
  {
    OneMoreAccepted(delivered, mailboxes, k, e);
    OneMoreFull(full, mailboxes, k, e);
  }

  function UpTo(k: nat): seq<nat> {
    seq(k, i => i)
  }

  /** The places of the mailboxes that were full at first. */
  function FullOnes(mailboxes: seq<Mailbox>): seq<nat> {
    if mailboxes == [] then []
    else
      var k := |mailboxes| - 1;
      FullOnes(mailboxes[..k]) + if mailboxes[k].FullThen? then [k] else []
  }

  /** The first `k` mailboxes were tried once each, and the full ones of them are remembered. */
  ghost predicate Tried(attempts: seq<nat>, full: seq<Delivery>, mailboxes: seq<Mailbox>, k: nat) {
    k <= |mailboxes| && attempts == UpTo(k) && Visits(full) == FullOnes(mailboxes[..k])
  }

  lemma OneMoreTry(attempts: seq<nat>, full: seq<Delivery>, mailboxes: seq<Mailbox>, k: nat, e: Envelope)
    requires k < |mailboxes| && Tried(attempts, full, mailboxes, k)
    ensures Tried(attempts + [k], full + (if mailboxes[k].FullThen? then [Delivery(k, e)] else []), mailboxes, k + 1)
  {
    assert mailboxes[..k + 1][..k] == mailboxes[..k];
    DeliveryAppend(full, Delivery(k, e));
    assert full + [] == full && UpTo(k) + [k] == UpTo(k + 1);
  }

  lemma AllTried(attempts: seq<nat>, full: seq<Delivery>, mailboxes: seq<Mailbox>)
    requires Tried(attempts, full, mailboxes, |mailboxes|)
    ensures attempts + Visits(full) == UpTo(|mailboxes|) + FullOnes(mailboxes)
  {
    assert mailboxes[..|mailboxes|] == mailboxes;
  }

  /**
   Sends one envelope to the actors behind the given mailboxes, as a group does for `send`.

   Every actor that can be reached is reached exactly once and each by its own envelope; the
   result is `Ok` exactly if some actor was reached, and otherwise an envelope that nobody got
   comes back. No more envelopes are made than there are actors; those that are neither delivered
   nor returned are dropped, each once. Every actor is tried once, in order, and then the full ones
   are waited for once each, in order.
   */
  method SendToGroup(mailboxes: seq<Mailbox>)
    returns (r: Result<(), SendError>, deliveries: seq<Delivery>, made: nat, attempts: seq<nat>, effects: seq<Effect>)
    ensures forall i: nat :: multiset(Visits(deliveries))[i] == One(i < |mailboxes| && Reached(mailboxes[i]))
    ensures forall e: Envelope :: multiset(Sent(deliveries))[e] <= One(e < made)
    ensures r.Ok? <==> exists i :: 0 <= i < |mailboxes| && Reached(mailboxes[i])
    ensures r.Err? ==> r.error.envelope < made && r.error.envelope !in Sent(deliveries)
    ensures 1 <= made <= Max(1, |mailboxes|)
    ensures attempts == UpTo(|mailboxes|) + FullOnes(mailboxes)
    ensures Follows(effects, made, Lost(r, deliveries, made))
  {
    if mailboxes == [] {
      assert Lost(Err(SendError(0)), [], 1) == {};
      return Err(SendError(0)), [], 1, [], [];
    }
    var visitor := new SendGroupVisitor();
    VisitMultiple(visitor, mailboxes);
    r := visitor.Finish(mailboxes);
    deliveries, made, attempts, effects := visitor.delivered, visitor.next, visitor.attempts, visitor.effects;
    Summary(visitor.View(), made, visitor.original, mailboxes);
    LostAreDropped(visitor.View(), made, r);
  }

  /** The envelopes that were made, but neither delivered nor returned. */
  function Lost(r: Result<(), SendError>, deliveries: seq<Delivery>, made: nat): set<Envelope> {
    set e | 0 <= e < made && e !in Sent(deliveries) && !(r.Err? && e == r.error.envelope)
  }

  lemma LostAreDropped(h: Hands, made: nat, r: Result<(), SendError>)
    requires EachOnce(h, made, false) && h.full == [] && h.offered == None
    requires h.extra == if r.Err? then Some(r.error.envelope) else None
    ensures h.dropped == Lost(r, h.delivered, made)
  {
    forall e: Envelope
      ensures e in h.dropped <==> e in Lost(r, h.delivered, made)
    {
      assert Places(h, e) == One(e < made);
      assert e in Sent(h.delivered) <==> e in multiset(Sent(h.delivered));
    }
  }

  /** The actors of a group are visited in order, the last one with the original. */
  method VisitMultiple(visitor: SendGroupVisitor, mailboxes: seq<Mailbox>)
    requires mailboxes != [] && visitor.Valid() && visitor.offered == None && visitor.original && visitor.next == 1
    requires visitor.delivered == [] && visitor.full == [] && visitor.attempts == []
    modifies visitor
    ensures visitor.Valid() && visitor.offered == None && !visitor.original && 1 <= visitor.next <= |mailboxes|
    ensures visitor.hasOk || visitor.full != [] || visitor.extra.Some?
    ensures OnTrack(visitor.delivered, visitor.full, mailboxes)
    ensures visitor.attempts + Visits(visitor.full) == UpTo(|mailboxes|) + FullOnes(mailboxes)
  {
    var k := 0;
    while k + 1 < |mailboxes|
      invariant 0 <= k < |mailboxes|
      invariant visitor.Valid() && visitor.offered == None && visitor.original
      invariant 1 <= visitor.next <= k + 1
      invariant Offered(visitor.delivered, visitor.full, mailboxes, k)
      invariant Tried(visitor.attempts, visitor.full, mailboxes, k)
      decreases |mailboxes| - k
    {
      VisitOne(visitor, mailboxes, k);
      k := k + 1;
    }
    ghost var delivered, full, before := visitor.delivered, visitor.full, visitor.attempts;
    visitor.VisitLast(k, mailboxes[k]);
    LastOffer(before, delivered, full, mailboxes);
  }

  method VisitOne(visitor: SendGroupVisitor, mailboxes: seq<Mailbox>, k: nat)
    requires k < |mailboxes| && visitor.Valid() && visitor.offered == None && visitor.original
    requires Offered(visitor.delivered, visitor.full, mailboxes, k) && Tried(visitor.attempts, visitor.full, mailboxes, k)
    modifies visitor
    ensures visitor.Valid() && visitor.offered == None && visitor.original
    ensures old(visitor.next) <= visitor.next <= old(visitor.next) + 1
    ensures Offered(visitor.delivered, visitor.full, mailboxes, k + 1)
    ensures Tried(visitor.attempts, visitor.full, mailboxes, k + 1)
  {
    ghost var delivered, full, before := visitor.delivered, visitor.full, visitor.attempts;
    var e := visitor.Visit(k, mailboxes[k]);
    OneMoreOffer(delivered, full, visitor.delivered, visitor.full, mailboxes, k, e);
    OneMoreTry(before, full, mailboxes, k, e);
  }

  lemma LastOffer(attempts: seq<nat>, delivered: seq<Delivery>, full: seq<Delivery>, mailboxes: seq<Mailbox>)
    requires mailboxes != []
    requires var k := |mailboxes| - 1; Offered(delivered, full, mailboxes, k) && Tried(attempts, full, mailboxes, k)
    ensures var k := |mailboxes| - 1;
            var delivered' := delivered + if mailboxes[k] == Accepting then [Delivery(k, 0)] else [];
            var full' := full + if mailboxes[k].FullThen? then [Delivery(k, 0)] else [];
            && OnTrack(delivered', full', mailboxes)
            && attempts + [k] + Visits(full') == UpTo(|mailboxes|) + FullOnes(mailboxes)
  {
    var k := |mailboxes| - 1;
    var delivered' := delivered + if mailboxes[k] == Accepting then [Delivery(k, 0)] else [];
    var full' := full + if mailboxes[k].FullThen? then [Delivery(k, 0)] else [];
    OneMoreOffer(delivered, full, delivered', full', mailboxes, k, 0);
    OneMoreTry(attempts, full, mailboxes, k, 0);
    AllTried(attempts + [k], full', mailboxes);
    AllOffered(delivered', full', mailboxes);
  }

  lemma AllOffered(delivered: seq<Delivery>, full: seq<Delivery>, mailboxes: seq<Mailbox>)
    requires Offered(delivered, full, mailboxes, |mailboxes|)
    ensures OnTrack(delivered, full, mailboxes)
  {
  }

  lemma Summary(h: Hands, made: nat, original: bool, mailboxes: seq<Mailbox>)
    requires EachOnce(h, made, original) && OnTrack(h.delivered, [], mailboxes)
    ensures forall i: nat :: multiset(Visits(h.delivered))[i] == One(i < |mailboxes| && Reached(mailboxes[i]))
    ensures forall e: Envelope :: multiset(Sent(h.delivered))[e] <= One(e < made)
    ensures h.delivered != [] <==> exists i :: 0 <= i < |mailboxes| && Reached(mailboxes[i])
    ensures h.extra.Some? ==> h.extra.value < made && h.extra.value !in Sent(h.delivered)
  {
    forall i: nat
      ensures multiset(Visits(h.delivered))[i] == One(i < |mailboxes| && Reached(mailboxes[i]))
    {
    }
    forall e: Envelope
      ensures multiset(Sent(h.delivered))[e] <= One(e < made)
    {
      assert Places(h, e) <= 1;
    }
    if h.delivered != [] {
      var i := Visits(h.delivered)[0];
      assert i in multiset(Visits(h.delivered));
    }
    if i :| 0 <= i < |mailboxes| && Reached(mailboxes[i]) {
      assert i in multiset(Visits(h.delivered));
      assert i in Visits(h.delivered);
    }
    if h.extra.Some? {
      assert Places(h, h.extra.value) <= 1;
      assert multiset(Sent(h.delivered))[h.extra.value] == 0;
    }
  }

  /** The visitor behind `try_send`: a full mailbox is not waited for. */
  class TrySendGroupVisitor {
    var extra: Option<Envelope>
    var hasOk: bool
    var hasFull: bool
    var next: Envelope
    var delivered: seq<Delivery>
    var attempts: seq<nat>
    ghost var offered: Option<Envelope>
    ghost var dropped: set<Envelope>
    ghost var original: bool

    ghost function View(): Hands
      reads this
    {
      Hands(delivered, [], extra, offered, dropped)
    }

    ghost predicate Valid()
      reads this
    {
      next > 0 && EachOnce(View(), next, original) && (hasOk <==> delivered != [])
    }

    constructor ()
      ensures Valid() && original && View() == Hands([], [], None, None, {}) && next == 1 && !hasFull && attempts == []
    {
      extra, hasOk, hasFull, next, attempts := None, false, false, 1, [];
      delivered, offered, dropped, original := [], None, {}, true;
    }

    method TrySend(visit: nat, mailbox: Mailbox, envelope: Envelope)
      requires Valid() && offered == Some(envelope)
      modifies this`extra, this`hasOk, this`hasFull, this`delivered, this`attempts, this`offered, this`dropped
      ensures Valid() && offered == None && attempts == old(attempts) + [visit]
      ensures delivered == old(delivered) + if mailbox == Accepting then [Delivery(visit, envelope)] else []
      ensures extra == if mailbox == Accepting then old(extra) else Some(envelope)
      ensures hasFull == (old(hasFull) || mailbox.FullThen?)
    {
      ghost var h := View();
      attempts := attempts + [visit];
      offered := None;
      if mailbox == Accepting {
        Accepted(h, visit, next, original);
        hasOk := true;
        delivered := delivered + [Delivery(visit, envelope)];
        assert View() == h.(delivered := h.delivered + [Delivery(visit, envelope)], offered := None);
      } else {
        if mailbox.FullThen? {
          hasFull := true;
        }
        Rejected(h, next, original);
        dropped := Spared(h);
        extra := Some(envelope);
        assert View() == h.(extra := h.offered, offered := None, dropped := Spared(h));
      }
    }

    method Visit(visit: nat, mailbox: Mailbox) returns (envelope: Envelope)
      requires Valid() && offered == None
      modifies this
      ensures Valid() && offered == None && original == old(original) && attempts == old(attempts) + [visit]
      ensures next == old(next) + One(old(extra) == None)
      ensures delivered == old(delivered) + if mailbox == Accepting then [Delivery(visit, envelope)] else []
      ensures hasFull == (old(hasFull) || mailbox.FullThen?)
    {
      envelope := next;
      ghost var h := View();
      if extra.Some? {
        envelope := extra.value;
        extra := None;
      } else {
        next := next + 1;
      }
      offered := Some(envelope);
      assert forall e: Envelope :: Places(View(), e) == Places(h, e) + One(e == envelope && h.extra == None);
      TrySend(visit, mailbox, envelope);
    }

    method VisitLast(visit: nat, mailbox: Mailbox)
      requires Valid() && offered == None && original
      modifies this
      ensures Valid() && offered == None && next == old(next) && attempts == old(attempts) + [visit]
      ensures delivered == old(delivered) + if mailbox == Accepting then [Delivery(visit, 0)] else []
      ensures hasFull == (old(hasFull) || mailbox.FullThen?)
      ensures hasOk || extra.Some?
    {
      ghost var h := View();
      original := false;
      offered := Some(0);
      assert forall e: Envelope :: Places(View(), e) == Places(h, e) + One(e == 0);
      TrySend(visit, mailbox, 0);
    }

    method Finish() returns (r: Result<(), TrySendError>)
      requires hasOk || extra.Some?
      ensures hasOk ==> r == Ok(())
      ensures !hasOk ==> r == Err(if hasFull then TryFull(extra.value) else TryClosed(extra.value))
    {
      if hasOk {
        return Ok(());
      }
      r := Err(if hasFull then TryFull(extra.value) else TryClosed(extra.value));
    }
  }

  /**
   The same for `try_send`: only mailboxes that accept at once are reached, and if there is none
   the error says whether any was full. Every actor is tried once.
   */
  method TrySendToGroup(mailboxes: seq<Mailbox>)
    returns (r: Result<(), TrySendError>, deliveries: seq<Delivery>, made: nat, attempts: seq<nat>)
    ensures forall i: nat :: multiset(Visits(deliveries))[i] == One(i < |mailboxes| && mailboxes[i] == Accepting)
    ensures forall e: Envelope :: multiset(Sent(deliveries))[e] <= One(e < made)
    ensures r.Ok? <==> Accepting in mailboxes
    ensures r.Err? ==>
              && r.error.envelope < made && r.error.envelope !in Sent(deliveries)
              && (r.error.TryFull? <==> SomeFull(mailboxes, |mailboxes|))
    ensures 1 <= made <= Max(1, |mailboxes|)
    ensures attempts == UpTo(|mailboxes|)
  {
    if mailboxes == [] {
      return Err(TryClosed(0)), [], 1, [];
    }
    var visitor := new TrySendGroupVisitor();
    TryVisitMultiple(visitor, mailboxes);
    r := visitor.Finish();
    deliveries, made, attempts := visitor.delivered, visitor.next, visitor.attempts;
    TrySummary(visitor.View(), made, visitor.original, mailboxes);
  }

  method TryVisitMultiple(visitor: TrySendGroupVisitor, mailboxes: seq<Mailbox>)
    requires mailboxes != [] && visitor.Valid() && visitor.offered == None && visitor.original && visitor.next == 1
    requires visitor.delivered == [] && visitor.attempts == [] && !visitor.hasFull
    modifies visitor
    ensures visitor.Valid() && 1 <= visitor.next <= |mailboxes| && (visitor.hasOk || visitor.extra.Some?)
    ensures AcceptedBefore(visitor.delivered, mailboxes, |mailboxes|) && visitor.attempts == UpTo(|mailboxes|)
    ensures visitor.hasFull <==> SomeFull(mailboxes, |mailboxes|)
  {
    var k := 0;
    while k + 1 < |mailboxes|
      invariant 0 <= k < |mailboxes|
      invariant visitor.Valid() && visitor.offered == None && visitor.original
      invariant 1 <= visitor.next <= k + 1
      invariant AcceptedBefore(visitor.delivered, mailboxes, k) && visitor.attempts == UpTo(k)
      invariant visitor.hasFull <==> SomeFull(mailboxes, k)
      decreases |mailboxes| - k
    {
      ghost var delivered := visitor.delivered;
      var e := visitor.Visit(k, mailboxes[k]);
      OneMoreAccepted(delivered, mailboxes, k, e);
      OneMoreUpTo(mailboxes, k);
      k := k + 1;
    }
    ghost var delivered := visitor.delivered;
    visitor.VisitLast(k, mailboxes[k]);
    OneMoreAccepted(delivered, mailboxes, k, 0);
    OneMoreUpTo(mailboxes, k);
  }

  ghost predicate SomeFull(mailboxes: seq<Mailbox>, k: nat) {
    exists i :: 0 <= i < k && i < |mailboxes| && mailboxes[i].FullThen?
  }

  lemma OneMoreUpTo(mailboxes: seq<Mailbox>, k: nat)
    requires k < |mailboxes|
    ensures UpTo(k) + [k] == UpTo(k + 1) && (SomeFull(mailboxes, k + 1) <==> SomeFull(mailboxes, k) || mailboxes[k].FullThen?)
  {
  }

  ghost predicate AcceptedBefore(delivered: seq<Delivery>, mailboxes: seq<Mailbox>, k: nat) {
    k <= |mailboxes| && forall i: nat :: multiset(Visits(delivered))[i] == One(i < k && mailboxes[i] == Accepting)
  }

  lemma OneMoreAccepted(delivered: seq<Delivery>, mailboxes: seq<Mailbox>, k: nat, e: Envelope)
    requires k < |mailboxes| && AcceptedBefore(delivered, mailboxes, k)
    ensures AcceptedBefore(delivered + (if mailboxes[k] == Accepting then [Delivery(k, e)] else []), mailboxes, k + 1)
  {
    DeliveryAppend(delivered, Delivery(k, e));
    assert delivered + [] == delivered;
  }

  lemma TrySummary(h: Hands, made: nat, original: bool, mailboxes: seq<Mailbox>)
    requires EachOnce(h, made, original) && AcceptedBefore(h.delivered, mailboxes, |mailboxes|)
    ensures forall e: Envelope :: multiset(Sent(h.delivered))[e] <= One(e < made)
    ensures h.delivered != [] <==> Accepting in mailboxes
    ensures h.extra.Some? ==> h.extra.value < made && h.extra.value !in Sent(h.delivered)
  {
    forall e: Envelope
      ensures multiset(Sent(h.delivered))[e] <= One(e < made)
    {
      assert Places(h, e) <= 1;
    }
    if h.delivered != [] {
      assert Visits(h.delivered)[0] in multiset(Visits(h.delivered));
    }
    if Accepting in mailboxes {
      var i :| 0 <= i < |mailboxes| && mailboxes[i] == Accepting;
      assert i in multiset(Visits(h.delivered));
      assert i in Visits(h.delivered);
    }
    if h.extra.Some? {
      assert Places(h, h.extra.value) <= 1;
      assert multiset(Sent(h.delivered))[h.extra.value] == 0;
    }
  }
}
