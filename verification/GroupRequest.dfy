/**
 A request sent to a group: what the fan-out does to the envelopes, told as events of the request
 table. Every envelope carries one token, and the duplicates are numbered alike on both sides.

 Source: `elfo-core/src/object.rs`, `elfo-core/src/envelope.rs` and `elfo-core/src/context.rs`.
 */
module GroupRequest {
  import opened Prelude
  import opened FanOut
  import Requests

  /** Duplicating an envelope duplicates its token, and dropping it drops the token. */
  function EventOf(effect: Effect): Requests.Event {
    match effect
    case Copied => Requests.Duplicate(0)
    case Dropped(e) => Requests.DropToken(e)
  }

  function EventsOf(effects: seq<Effect>): seq<Requests.Event> {
    seq(|effects|, i requires 0 <= i < |effects| => EventOf(effects[i]))
  }

  /** A new request, followed by these effects on its envelope and the duplicates of it. */
  function Sending(collectAll: bool, effects: seq<Effect>): seq<Requests.Event> {
    [Requests.NewRequest(collectAll)] + EventsOf(effects)
  }

  /** The only request has these tokens, of which those in `dropped` were answered with `Failed`, each once. */
  ghost predicate Tracks(w: Requests.World, collectAll: bool, made: nat, dropped: set<Envelope>) {
    && w.registered && w.nextToken == made && 0 in w.requests && 0 in w.history
    && (forall t: nat :: t in w.tokens <==> t < made && t !in dropped)
    && (forall t :: t in w.tokens ==> w.tokens[t] == Requests.Token(0, false))
    && w.requests[0].collectAll == collectAll
    && w.requests[0].remainder + |dropped| == made
    && FailedOnceEach(w.history[0].log, dropped)
  }

  ghost predicate FailedOnceEach(log: seq<Requests.Answer>, dropped: set<Envelope>) {
    && Requests.Answered(log) == dropped && |log| == |dropped|
    && forall i :: 0 <= i < |log| ==> log[i].response == Err(Requests.Failed)
  }

  predicate Below(s: set<Envelope>, n: nat) {
    forall e :: e in s ==> e < n
  }

  lemma {:induction false} BelowIsBounded(s: set<Envelope>, n: nat)
    requires Below(s, n)
    ensures |s| <= n
    decreases n
  {
    if n > 0 {
      BelowIsBounded(s - {n - 1}, n - 1);
    } else {
      assert s == {};
    }
  }

  lemma {:induction false} RunLast(w: Requests.World, events: seq<Requests.Event>, last: Requests.Event)
    ensures Requests.Run(w, events + [last]) == Requests.Step(Requests.Run(w, events), last)
    decreases |events|
  {
    if events == [] {
      assert ([last])[1..] == [];
    } else {
      assert (events + [last])[1..] == events[1..] + [last];
      RunLast(Requests.Step(w, events[0]), events[1..], last);
    }
  }

  lemma StepCopied(w: Requests.World, collectAll: bool, made: nat, dropped: set<Envelope>)
    requires Tracks(w, collectAll, made, dropped) && made > 0 && 0 !in dropped && Below(dropped, made)
    ensures Tracks(Requests.Step(w, Requests.Duplicate(0)), collectAll, made + 1, dropped)
  {
  }

  lemma StepDropped(w: Requests.World, collectAll: bool, made: nat, dropped: set<Envelope>, e: Envelope)
    requires Tracks(w, collectAll, made, dropped) && e < made && e !in dropped && Below(dropped, made)
    ensures Tracks(Requests.Step(w, Requests.DropToken(e)), collectAll, made, dropped + {e})
  {
    BelowIsBounded(dropped + {e}, made);
    Requests.AnsweredAppend(w.history[0].log, Requests.Answer(e, Err(Requests.Failed)));
  }

  lemma SendingLast(collectAll: bool, before: seq<Effect>, last: Effect)
    ensures Requests.After(Sending(collectAll, before + [last]))
         == Requests.Step(Requests.After(Sending(collectAll, before)), EventOf(last))
  {
    assert Sending(collectAll, before + [last]) == Sending(collectAll, before) + [EventOf(last)];
    RunLast(Requests.Init(), Sending(collectAll, before), EventOf(last));
  }

  lemma {:induction false} FollowsWithin(effects: seq<Effect>, made: nat, dropped: set<Envelope>)
    requires Follows(effects, made, dropped)
    ensures made > 0 && Below(dropped, made)
    decreases |effects|
  {
    if effects != [] {
      var before, last := effects[..|effects| - 1], effects[|effects| - 1];
      match last
      case Copied => FollowsWithin(before, made - 1, dropped);
      case Dropped(e) =>
        FollowsWithin(before, made, dropped - {e});
        assert dropped == dropped - {e} + {e};
    }
  }

  lemma CopiedTracks(collectAll: bool, before: seq<Effect>, effects: seq<Effect>, made: nat, dropped: set<Envelope>)
    requires effects == before + [Copied] && Follows(before, made, dropped) && 0 !in dropped
    requires Tracks(Requests.After(Sending(collectAll, before)), collectAll, made, dropped)
    ensures Tracks(Requests.After(Sending(collectAll, effects)), collectAll, made + 1, dropped)
  {
    FollowsWithin(before, made, dropped);
    SendingLast(collectAll, before, Copied);
    StepCopied(Requests.After(Sending(collectAll, before)), collectAll, made, dropped);
  }

  lemma DroppedTracks(collectAll: bool, before: seq<Effect>, effects: seq<Effect>, made: nat, dropped: set<Envelope>,
                      e: Envelope)
    requires effects == before + [Dropped(e)] && Follows(before, made, dropped - {e}) && e < made && e in dropped
    requires Tracks(Requests.After(Sending(collectAll, before)), collectAll, made, dropped - {e})
    ensures Tracks(Requests.After(Sending(collectAll, effects)), collectAll, made, dropped)
  {
    FollowsWithin(before, made, dropped - {e});
    SendingLast(collectAll, before, Dropped(e));
    StepDropped(Requests.After(Sending(collectAll, before)), collectAll, made, dropped - {e}, e);
    assert dropped - {e} + {e} == dropped;
  }

  /** The request table keeps up with the fan-out. */
  lemma {:induction false} SendingTracks(collectAll: bool, effects: seq<Effect>, made: nat, dropped: set<Envelope>)
    requires Follows(effects, made, dropped)
    ensures Tracks(Requests.After(Sending(collectAll, effects)), collectAll, made, dropped)
    decreases |effects|
  {
    if effects == [] {
      StartTracks(collectAll, effects);
    } else {
      var before := effects[..|effects| - 1];
      match effects[|effects| - 1]
      case Copied =>
        SendingTracks(collectAll, before, made - 1, dropped);
        CopiedTracks(collectAll, before, effects, made - 1, dropped);
      case Dropped(e) =>
        SendingTracks(collectAll, before, made, dropped - {e});
        DroppedTracks(collectAll, before, effects, made, dropped, e);
    }
  }

  lemma StartTracks(collectAll: bool, effects: seq<Effect>)
    requires effects == []
    ensures Tracks(Requests.After(Sending(collectAll, effects)), collectAll, 1, {})
  {
    RunLast(Requests.Init(), [], Requests.NewRequest(collectAll));
    assert Sending(collectAll, effects) == [] + [Requests.NewRequest(collectAll)];
  }

  function Delivered(deliveries: seq<Delivery>): set<Envelope> {
    set e | e in Sent(deliveries)
  }

  function Numbers(n: nat): (r: set<Envelope>)
    ensures |r| == n && forall e: Envelope :: e in r <==> e < n
  {
    if n == 0 then {} else Numbers(n - 1) + {n - 1}
  }

  lemma LiveTokens(w: Requests.World, collectAll: bool, made: nat, dropped: set<Envelope>)
    requires Tracks(w, collectAll, made, dropped) && Below(dropped, made)
    ensures Requests.Live(w.tokens, 0) == Numbers(made) - dropped
    ensures w.requests[0].remainder == |Requests.Live(w.tokens, 0)|
  {
    assert Numbers(made) == (Numbers(made) - dropped) + dropped;
  }

  /** No envelope is delivered twice, so the deliveries can be counted by their envelopes. */
  lemma DeliveredCount(deliveries: seq<Delivery>, made: nat)
    requires forall e: Envelope :: multiset(Sent(deliveries))[e] <= One(e < made)
    ensures |Delivered(deliveries)| == |deliveries| && Below(Delivered(deliveries), made)
  {
    forall e: Envelope
      ensures multiset(Delivered(deliveries))[e] == multiset(Sent(deliveries))[e]
    {
      assert e in Delivered(deliveries) <==> e in multiset(Sent(deliveries));
    }
    assert multiset(Delivered(deliveries)) == multiset(Sent(deliveries));
    forall e | e in Delivered(deliveries)
      ensures e < made
    {
      assert multiset(Sent(deliveries))[e] > 0;
    }
  }

  /** The envelopes that are still around after the visitor is done. */
  function Left(r: Result<(), SendError>, deliveries: seq<Delivery>): set<Envelope> {
    Delivered(deliveries) + if r.Err? then {r.error.envelope} else {}
  }

  lemma LeftAreNotLost(r: Result<(), SendError>, deliveries: seq<Delivery>, made: nat)
    requires Below(Delivered(deliveries), made) && (r.Err? ==> r.error.envelope < made)
    ensures Lost(r, deliveries, made) == Numbers(made) - Left(r, deliveries)
    ensures Numbers(made) - Lost(r, deliveries, made) == Left(r, deliveries)
  {
  }

  /** The request waits for one answer to each of these, and got `Failed` once for every other envelope made. */
  ghost predicate WaitsFor(w: Requests.World, made: nat, live: set<Envelope>) {
    && 0 in w.requests && 0 in w.history
    && Requests.Live(w.tokens, 0) == live
    && w.requests[0].remainder == |live|
    && FailedOnceEach(w.history[0].log, Numbers(made) - live)
  }

  lemma TracksWaitsFor(w: Requests.World, collectAll: bool, made: nat, lost: set<Envelope>, live: set<Envelope>)
    requires Tracks(w, collectAll, made, lost) && lost == Numbers(made) - live && Numbers(made) - lost == live
    ensures WaitsFor(w, made, live)
  {
    LiveTokens(w, collectAll, made, lost);
  }

  /** After the fan-out the live tokens are those of the deliveries and of the returned envelope. */
  lemma SentToGroup(collectAll: bool, effects: seq<Effect>, made: nat, deliveries: seq<Delivery>,
                    r: Result<(), SendError>)
    requires Follows(effects, made, Lost(r, deliveries, made))
    requires Below(Delivered(deliveries), made) && (r.Err? ==> r.error.envelope < made)
    ensures WaitsFor(Requests.After(Sending(collectAll, effects)), made, Left(r, deliveries))
  {
    var lost := Lost(r, deliveries, made);
    LeftAreNotLost(r, deliveries, made);
    SendingTracks(collectAll, effects, made, lost);
    TracksWaitsFor(Requests.After(Sending(collectAll, effects)), collectAll, made, lost, Left(r, deliveries));
  }

  /** The request is cancelled, with `Failed` for each envelope ever made and no token left. */
  ghost predicate Abandoned(w: Requests.World, made: nat) {
    && 0 !in w.requests && 0 in w.history && w.history[0].outcome == Requests.Cancelled
    && Requests.Live(w.tokens, 0) == {}
    && FailedOnceEach(w.history[0].log, Numbers(made))
  }

  lemma CancelAbandons(w: Requests.World, collectAll: bool, made: nat)
    requires Tracks(w, collectAll, made, Numbers(made))
    ensures Abandoned(Requests.Step(w, Requests.Cancel(0)), made)
  {
    LiveTokens(w, collectAll, made, Numbers(made));
  }

  /** If nobody is reached, the returned envelope is dropped and the request cancelled. */
  lemma NobodyReached(collectAll: bool, effects: seq<Effect>, made: nat, e: Envelope)
    requires Follows(effects, made, Numbers(made) - {e}) && e < made
    ensures Abandoned(Requests.After(Sending(collectAll, effects + [Dropped(e)]) + [Requests.Cancel(0)]), made)
  {
    FollowsDrop(effects, made, Numbers(made) - {e}, e);
    assert Numbers(made) - {e} + {e} == Numbers(made);
    var dropped := effects + [Dropped(e)];
    SendingTracks(collectAll, dropped, made, Numbers(made));
    RunLast(Requests.Init(), Sending(collectAll, dropped), Requests.Cancel(0));
    CancelAbandons(Requests.After(Sending(collectAll, dropped)), collectAll, made);
  }

  /**
   Sends a request to a group and gives it up if nobody is reached. Otherwise the request waits for
   exactly one answer per reached actor, besides one `Failed` for every envelope that got lost.
   */
  method SendRequest(mailboxes: seq<Mailbox>, collectAll: bool)
    returns (sent: bool, deliveries: seq<Delivery>, made: nat, events: seq<Requests.Event>)
    ensures sent <==> exists i :: 0 <= i < |mailboxes| && Reached(mailboxes[i])
    ensures forall i: nat :: multiset(Visits(deliveries))[i] == One(i < |mailboxes| && Reached(mailboxes[i]))
    ensures sent ==> |Delivered(deliveries)| == |deliveries| > 0
    ensures sent ==> WaitsFor(Requests.After(events), made, Delivered(deliveries))
    ensures !sent ==> Abandoned(Requests.After(events), made)
  {
    var r, attempts, effects;
    r, deliveries, made, attempts, effects := SendToGroup(mailboxes);
    DeliveredCount(deliveries, made);
    sent := r.Ok?;
    if sent {
      events := Sending(collectAll, effects);
      SentToGroup(collectAll, effects, made, deliveries, r);
    } else {
      events := Sending(collectAll, effects + [Dropped(r.error.envelope)]) + [Requests.Cancel(0)];
      LeftAreNotLost(r, deliveries, made);
      assert deliveries == [] && Left(r, deliveries) == {r.error.envelope};
      NobodyReached(collectAll, effects, made, r.error.envelope);
    }
  }
}
