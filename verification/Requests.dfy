/**
 The request table of an actor and the response tokens handed out for its requests.

 A token is created with its request, duplicated while the request is fanned out, and
 consumed by a response or by being dropped. The table counts the outstanding tokens of
 every request, and the requester waits until that count reaches zero.

 The module has three layers: the table operations as functions on the table's contents,
 a machine whose runs interleave those operations over all tokens and waiters, and the
 imperative table and token classes, proved against the functions.
 */
module Requests {
  import opened Prelude

  type RequestId = nat
  type TokenId = nat
  type Envelope = nat

  datatype RequestError = Failed | Ignored

  type Response = Result<Envelope, RequestError>

  datatype RequestData = RequestData(remainder: nat, responses: seq<Response>, collectAll: bool)

  type Table = map<RequestId, RequestData>

  // === Table operations as functions ===

  /** `Ok` beats `Ignored`, `Ignored` beats `Failed`; the new response wins unless it is `Failed`. */
  function Preferred(prior: seq<Response>, response: Response): Response {
    if prior == [] || response.Ok? || response == Err(Ignored) then response else prior[0]
  }

  function Pushed(d: RequestData, response: Response): RequestData {
    if d.remainder == 0 then d
    else if d.collectAll then d.(remainder := d.remainder - 1, responses := d.responses + [response])
    else d.(remainder := if response.Ok? then 0 else d.remainder - 1,
            responses := if d.responses == [] then [response] else d.responses[0 := Preferred(d.responses, response)])
  }

  predicate Completes(d: RequestData, response: Response) {
    d.remainder != 0 && Pushed(d, response).remainder == 0
  }

  /** The debug assertions that guard a push. */
  predicate PushAsserts(d: RequestData, response: Response) {
    && (d.remainder == 0 ==> !d.collectAll)
    && (d.remainder != 0 && !d.collectAll ==>
          && |d.responses| <= 1
          && (d.responses != [] && (response.Ok? || response == Err(Ignored)) ==> d.responses[0].Err?))
  }

  function Resolved(t: Table, id: RequestId, response: Response): Table {
    if id in t then t[id := Pushed(t[id], response)] else t
  }

  predicate Notifies(t: Table, id: RequestId, response: Response) {
    id in t && Completes(t[id], response)
  }

  function Duplicated(t: Table, id: RequestId): Table {
    if id in t then t[id := t[id].(remainder := t[id].remainder + 1)] else t
  }

  /** What dropping a token answers on its behalf. */
  function DropError(received: bool): RequestError {
    if received then Ignored else Failed
  }

  // === The machine ===

  datatype Token = Token(request: RequestId, received: bool)

  /** A waiter first subscribes to the notifier (`Armed`), then checks the table under the lock. */
  datatype Waiter = Armed(since: nat) | Parked(since: nat)

  datatype Answer = Answer(token: TokenId, response: Response)

  datatype Outcome = Pending | Cancelled | Collected(responses: seq<Response>)

  /** What happened to one request so far; it never influences a step. */
  datatype History = History(
    collectAll: bool,
    tokens: set<TokenId>,   // every token ever created for the request
    log: seq<Answer>,       // the responses that reached the table, in order
    completions: nat,       // how often the waiters were notified
    reopenings: nat,        // duplications of an already completed request
    outcome: Outcome)

  datatype World = World(
    registered: bool,       // the requester is still in the address book
    requests: Table,
    epoch: nat,             // number of `notify_waiters` calls
    tokens: map<TokenId, Token>,
    waiters: map<RequestId, Waiter>,
    nextRequest: nat,
    nextToken: nat,
    history: map<RequestId, History>)

  datatype Event =
    | NewRequest(collectAll: bool)
    | Duplicate(token: TokenId)
    | Receive(token: TokenId)
    | Respond(token: TokenId, envelope: Envelope)
    | DropToken(token: TokenId)
    | Cancel(request: RequestId)
    | Arm(request: RequestId)
    | Check(request: RequestId)
    | Unregister

  function Init(): World {
    World(true, map[], 0, map[], map[], 0, 0, map[])
  }

  function StepNew(w: World, collectAll: bool): World {
    var id, t := w.nextRequest, w.nextToken;
    w.(requests := w.requests[id := RequestData(1, [], collectAll)],
       tokens := w.tokens[t := Token(id, false)],
       nextRequest := id + 1,
       nextToken := t + 1,
       history := w.history[id := History(collectAll, {t}, [], 0, 0, Pending)])
  }

  /** A duplicate of a stale token is forgotten at once, so no new token appears. */
  function StepDuplicate(w: World, t: TokenId): World
    requires t in w.tokens
  {
    var id := w.tokens[t].request;
    if w.registered && id in w.requests && id in w.history then
      var h := w.history[id];
      var late := if w.requests[id].remainder == 0 then 1 else 0;
      w.(requests := Duplicated(w.requests, id),
         tokens := w.tokens[w.nextToken := w.tokens[t]],
         nextToken := w.nextToken + 1,
         history := w.history[id := h.(tokens := h.tokens + {w.nextToken}, reopenings := h.reopenings + late)])
    else w
  }

  function StepAnswer(w: World, t: TokenId, response: Response): World
    requires t in w.tokens
  {
    var id := w.tokens[t].request;
    var w' := w.(tokens := w.tokens - {t});
    if w.registered && id in w.requests && id in w.history then
      var h := w.history[id];
      var notified := if Notifies(w.requests, id, response) then 1 else 0;
      w'.(requests := Resolved(w.requests, id, response),
          epoch := w.epoch + notified,
          history := w.history[id := h.(log := h.log + [Answer(t, response)], completions := h.completions + notified)])
    else w'
  }

  function StepCancel(w: World, id: RequestId): World {
    if id in w.requests && id in w.history then
      w.(requests := w.requests - {id}, history := w.history[id := w.history[id].(outcome := Cancelled)])
    else w
  }

  function StepCheck(w: World, id: RequestId): World {
    if id !in w.waiters || !w.waiters[id].Armed? || id !in w.requests || id !in w.history then w
    else if w.requests[id].remainder == 0 then
      w.(requests := w.requests - {id},
         waiters := w.waiters - {id},
         history := w.history[id := w.history[id].(outcome := Collected(w.requests[id].responses))])
    else w.(waiters := w.waiters[id := Parked(w.waiters[id].since)])
  }

  /** Only a notification after subscribing lets a parked waiter run again. */
  predicate CanArm(w: World, id: RequestId) {
    id in w.requests && (id in w.waiters && w.waiters[id].Parked? ==> w.waiters[id].since < w.epoch)
  }

  function Step(w: World, e: Event): World {
    match e
    case NewRequest(all) => StepNew(w, all)
    case Duplicate(t) => if t in w.tokens then StepDuplicate(w, t) else w
    case Receive(t) => if t in w.tokens then w.(tokens := w.tokens[t := w.tokens[t].(received := true)]) else w
    case Respond(t, envelope) => if t in w.tokens then StepAnswer(w, t, Ok(envelope)) else w
    case DropToken(t) => if t in w.tokens then StepAnswer(w, t, Err(DropError(w.tokens[t].received))) else w
    case Cancel(id) => StepCancel(w, id)
    case Arm(id) => if CanArm(w, id) then w.(waiters := w.waiters[id := Armed(w.epoch)]) else w
    case Check(id) => StepCheck(w, id)
    case Unregister => w.(registered := false)
  }

  function Run(w: World, events: seq<Event>): World
    decreases |events|
  {
    if events == [] then w else Run(Step(w, events[0]), events[1..])
  }

  // === What the answers to a request amount to ===

  function Answered(log: seq<Answer>): set<TokenId> {
    set i | 0 <= i < |log| :: log[i].token
  }

  function Responses(log: seq<Answer>): seq<Response> {
    seq(|log|, i requires 0 <= i < |log| => log[i].response)
  }

  ghost predicate HasOk(log: seq<Answer>) {
    exists i :: 0 <= i < |log| && log[i].response.Ok?
  }

  ghost predicate IsFirstOk(log: seq<Answer>, i: int) {
    0 <= i < |log| && log[i].response.Ok? && forall j :: 0 <= j < i ==> log[j].response.Err?
  }

  /** `r` is the first `Ok` if there is one, else `Ignored` if there is one, else `Failed`. */
  ghost predicate IsAnyResult(log: seq<Answer>, r: Response) {
    match r
    case Ok(_) => exists i :: IsFirstOk(log, i) && log[i].response == r
    case Err(Ignored) => !HasOk(log) && exists i :: 0 <= i < |log| && log[i].response == r
    case Err(Failed) => log != [] && forall i :: 0 <= i < |log| ==> log[i].response == r
  }

  lemma AnyResultIsUnique(log: seq<Answer>, r: Response, r': Response)
    requires IsAnyResult(log, r) && IsAnyResult(log, r')
    ensures r == r'
  {
    OkResultHasOk(log, r);
    OkResultHasOk(log, r');
    if r.Ok? && r'.Ok? {
      var i :| IsFirstOk(log, i) && log[i].response == r;
      var j :| IsFirstOk(log, j) && log[j].response == r';
      assert i == j;
    }
  }

  lemma OkResultHasOk(log: seq<Answer>, r: Response)
    requires IsAnyResult(log, r)
    ensures r.Ok? <==> HasOk(log)
  {
    if r.Ok? {
      var i :| IsFirstOk(log, i) && log[i].response == r;
      assert log[i].response.Ok?;
    }
  }

  lemma AnyResultAppend(log: seq<Answer>, a: Answer, prior: seq<Response>)
    requires log == [] ==> prior == []
    requires log != [] ==> |prior| == 1 && IsAnyResult(log, prior[0])
    ensures HasOk(log + [a]) <==> HasOk(log) || a.response.Ok?
    ensures IsAnyResult(log + [a], if HasOk(log) then prior[0] else Preferred(prior, a.response))
  {
    var log' := log + [a];
    assert forall i :: 0 <= i < |log| ==> log'[i] == log[i];
    assert log'[|log|] == a;
    if log != [] { OkResultHasOk(log, prior[0]); }
    if HasOk(log) {
      var k :| 0 <= k < |log| && log[k].response.Ok?;
      assert log'[k].response.Ok?;
      var i :| IsFirstOk(log, i) && log[i].response == prior[0];
      assert IsFirstOk(log', i);
    } else if a.response.Ok? {
      assert IsFirstOk(log', |log|);
    } else if a.response == Err(Failed) && log != [] && prior[0] == Err(Ignored) {
      var i :| 0 <= i < |log| && log[i].response == prior[0];
      assert log'[i].response == prior[0];
    } else if a.response == Err(Failed) {
      assert forall i :: 0 <= i < |log'| ==> i < |log| || log'[i] == a;
    } else {
      assert a.response.error.Ignored?;
    }
  }

  // === The invariant, one request at a time ===

  function Live(tokens: map<TokenId, Token>, id: RequestId): set<TokenId> {
    set t | t in tokens && tokens[t].request == id
  }

  ghost predicate AllConsistent(d: RequestData, h: History) {
    && d.responses == Responses(h.log)
    && |h.tokens| == d.remainder + |h.log|
    && h.completions == (if d.remainder == 0 then 1 else 0)
  }

  ghost predicate AnyConsistent(d: RequestData, h: History) {
    && (h.log == [] ==> d.responses == [])
    && (h.log != [] ==> |d.responses| == 1 && IsAnyResult(h.log, d.responses[0]))
    && (if HasOk(h.log) then d.remainder == 0 else |h.tokens| == d.remainder + |h.log|)
    && h.completions == (if d.remainder == 0 then 1 else 0)
  }

  ghost predicate DataInv(d: RequestData, h: History) {
    && d.collectAll == h.collectAll
    && d.remainder + |h.log| <= |h.tokens|
    && (h.collectAll ==> AllConsistent(d, h))
    && (!h.collectAll && h.reopenings == 0 ==> AnyConsistent(d, h))
  }

  /** What a finished `wait` has returned. */
  ghost predicate Final(h: History, responses: seq<Response>) {
    && (h.collectAll ==> responses == Responses(h.log) && Answered(h.log) == h.tokens)
    && (!h.collectAll && h.reopenings == 0 ==>
          && |responses| == 1
          && IsAnyResult(h.log, responses[0])
          && (HasOk(h.log) || Answered(h.log) == h.tokens))
  }

  ghost predicate RequestInv(live: set<TokenId>, data: Option<RequestData>, h: History, registered: bool) {
    && h.tokens != {}
    && Answered(h.log) <= h.tokens
    && |Answered(h.log)| == |h.log|
    && live <= h.tokens - Answered(h.log)
    && (h.collectAll ==> h.reopenings == 0)
    && (h.reopenings == 0 ==> h.completions <= 1)
    && (data.Some? <==> h.outcome.Pending?)
    && (data.Some? ==> DataInv(data.value, h) && (registered ==> live == h.tokens - Answered(h.log)))
    && (h.outcome.Collected? ==> Final(h, h.outcome.responses))
  }

  function Lookup(t: Table, id: RequestId): (r: Option<RequestData>)
  {
    if id in t then Some(t[id]) else None
  }

  ghost predicate Shape(w: World) {
    && w.requests.Keys <= w.history.Keys
    && (forall id :: id in w.history ==> id < w.nextRequest && forall t :: t in w.history[id].tokens ==> t < w.nextToken)
    && (forall t :: t in w.tokens ==> t < w.nextToken && w.tokens[t].request in w.history)
  }

  ghost predicate Good(w: World, id: RequestId)
    requires id in w.history
  {
    RequestInv(Live(w.tokens, id), Lookup(w.requests, id), w.history[id], w.registered)
  }

  /** No waiter sleeps through the completion of its request. */
  ghost predicate Awake(w: World) {
    && (forall id :: id in w.waiters ==> id < w.nextRequest && w.waiters[id].since <= w.epoch)
    && (forall id :: id in w.waiters && w.waiters[id].Parked? && id in w.requests && w.requests[id].remainder == 0 ==>
          w.waiters[id].since < w.epoch)
  }

  ghost predicate Inv(w: World) {
    Shape(w) && Awake(w) && forall id :: id in w.history ==> Good(w, id)
  }

  // === One request under one step ===

  lemma AnsweredAppend(log: seq<Answer>, a: Answer)
    ensures Answered(log + [a]) == Answered(log) + {a.token}
    ensures Responses(log + [a]) == Responses(log) + [a.response]
  {
    var log' := log + [a];
    forall t | t in Answered(log)
      ensures t in Answered(log')
    {
      var i :| 0 <= i < |log| && log[i].token == t;
      assert log'[i].token == t;
    }
    assert log'[|log|].token == a.token;
    assert Answered(log') <= Answered(log) + {a.token};
  }

  lemma AnswerKeepsRequest(live: set<TokenId>, d: RequestData, h: History, t: TokenId, r: Response)
    requires RequestInv(live, Some(d), h, true) && t in live
    ensures var h' := h.(log := h.log + [Answer(t, r)],
                         completions := h.completions + if Completes(d, r) then 1 else 0);
            RequestInv(live - {t}, Some(Pushed(d, r)), h', true)
  {
    AnsweredAppend(h.log, Answer(t, r));
    SubsetIsSmaller(Answered(h.log) + {t}, h.tokens);
    if !h.collectAll && h.reopenings == 0 {
      AnyResultAppend(h.log, Answer(t, r), d.responses);
    }
  }

  lemma DuplicateKeepsRequest(live: set<TokenId>, d: RequestData, h: History, t: TokenId, copy: TokenId)
    requires RequestInv(live, Some(d), h, true) && t in live && copy !in h.tokens
    ensures var h' := h.(tokens := h.tokens + {copy},
                         reopenings := h.reopenings + if d.remainder == 0 then 1 else 0);
            RequestInv(live + {copy}, Some(d.(remainder := d.remainder + 1)), h', true)
  {
    if d.remainder == 0 && h.collectAll {
      SubsetOfSameSize(Answered(h.log), h.tokens);
      assert false;
    }
  }

  lemma CollectKeepsRequest(live: set<TokenId>, d: RequestData, h: History, registered: bool)
    requires RequestInv(live, Some(d), h, registered) && d.remainder == 0
    ensures RequestInv(live, None, h.(outcome := Collected(d.responses)), registered)
  {
    if h.collectAll || !HasOk(h.log) {
      if h.collectAll || h.reopenings == 0 { SubsetOfSameSize(Answered(h.log), h.tokens); }
    }
  }

  // === Every step keeps the invariant ===

  lemma LiveAfterAdd(tokens: map<TokenId, Token>, t: TokenId, k: Token, id: RequestId)
    requires t !in tokens
    ensures Live(tokens[t := k], id) == Live(tokens, id) + if k.request == id then {t} else {}
  {
  }

  lemma LiveAfterRemove(tokens: map<TokenId, Token>, t: TokenId, id: RequestId)
    ensures Live(tokens - {t}, id) == Live(tokens, id) - {t}
  {
  }

  /** A step that leaves everything about a request alone keeps what is known about it. */
  lemma Untouched(w: World, w': World, id: RequestId)
    requires id in w.history && id in w'.history && Good(w, id)
    requires Live(w'.tokens, id) == Live(w.tokens, id) && Lookup(w'.requests, id) == Lookup(w.requests, id)
    requires w'.history[id] == w.history[id] && (w'.registered ==> w.registered)
    ensures Good(w', id)
  {
  }

  lemma NewKeeps(w: World, all: bool, id: RequestId)
    requires Inv(w) && id in StepNew(w, all).history
    ensures Good(StepNew(w, all), id)
  {
    LiveAfterAdd(w.tokens, w.nextToken, Token(w.nextRequest, false), id);
    if id != w.nextRequest { Untouched(w, StepNew(w, all), id); }
  }

  lemma DuplicateKeeps(w: World, t: TokenId, id: RequestId)
    requires Inv(w) && t in w.tokens && id in w.history
    ensures Good(StepDuplicate(w, t), id)
  {
    var w' := StepDuplicate(w, t);
    var r := w.tokens[t].request;
    LiveAfterAdd(w.tokens, w.nextToken, w.tokens[t], id);
    assert Good(w, id);
    if id == r && w.registered && r in w.requests {
      assert t in Live(w.tokens, r);
      DuplicateKeepsRequest(Live(w.tokens, r), w.requests[r], w.history[r], t, w.nextToken);
    } else {
      Untouched(w, w', id);
    }
  }

  lemma AnswerKeeps(w: World, t: TokenId, response: Response, id: RequestId)
    requires Inv(w) && t in w.tokens && id in w.history
    ensures Good(StepAnswer(w, t, response), id)
  {
    var w' := StepAnswer(w, t, response);
    var r := w.tokens[t].request;
    LiveAfterRemove(w.tokens, t, id);
    assert Good(w, id);
    if id != r {
      Untouched(w, w', id);
    } else if w.registered && r in w.requests {
      assert t in Live(w.tokens, r);
      AnswerKeepsRequest(Live(w.tokens, r), w.requests[r], w.history[r], t, response);
    }
  }

  lemma CheckKeeps(w: World, r: RequestId, id: RequestId)
    requires Inv(w) && id in w.history
    ensures Good(StepCheck(w, r), id)
  {
    var w' := StepCheck(w, r);
    assert Good(w, id);
    if id == r && id in w.requests && w.requests[id].remainder == 0 {
      CollectKeepsRequest(Live(w.tokens, id), w.requests[id], w.history[id], w.registered);
    } else {
      Untouched(w, w', id);
    }
  }

  lemma CancelKeeps(w: World, r: RequestId, id: RequestId)
    requires Inv(w) && id in w.history
    ensures Good(StepCancel(w, r), id)
  {
    assert Good(w, id);
    if id != r { Untouched(w, StepCancel(w, r), id); }
  }

  lemma ReceiveKeeps(w: World, t: TokenId, id: RequestId)
    requires Inv(w) && t in w.tokens && id in w.history
    ensures Good(Step(w, Receive(t)), id)
  {
    var w' := Step(w, Receive(t));
    assert Live(w'.tokens, id) == Live(w.tokens, id);
    Untouched(w, w', id);
  }

  /** Steps of one token. */
  lemma TokenStepKeeps(w: World, e: Event, id: RequestId)
    requires Inv(w) && id in w.history && (e.Duplicate? || e.Receive? || e.DropToken? || e.Respond?)
    ensures Good(Step(w, e), id)
  {
    assert Good(w, id);
    if e.token in w.tokens {
      match e
      case Duplicate(t) => DuplicateKeeps(w, t, id);
      case Receive(t) => ReceiveKeeps(w, t, id);
      case Respond(t, envelope) => AnswerKeeps(w, t, Ok(envelope), id);
      case DropToken(t) => AnswerKeeps(w, t, Err(DropError(w.tokens[t].received)), id);
    }
  }

  /** Steps of the requester. */
  lemma RequesterStepKeeps(w: World, e: Event, id: RequestId)
    requires Inv(w) && id in w.history && (e.Cancel? || e.Arm? || e.Check? || e.Unregister?)
    ensures Good(Step(w, e), id)
  {
    match e
    case Cancel(r) => CancelKeeps(w, r, id);
    case Check(r) => CheckKeeps(w, r, id);
    case _ => Untouched(w, Step(w, e), id);
  }

  lemma StepKeepsRequest(w: World, e: Event, id: RequestId)
    requires Inv(w) && id in Step(w, e).history
    ensures Good(Step(w, e), id)
  {
    if e.NewRequest? {
      NewKeeps(w, e.collectAll, id);
    } else {
      OnlyNewAdds(w, e, id);
      if e.Cancel? || e.Arm? || e.Check? || e.Unregister? {
        RequesterStepKeeps(w, e, id);
      } else {
        TokenStepKeeps(w, e, id);
      }
    }
  }

  lemma OnlyNewAdds(w: World, e: Event, id: RequestId)
    requires Shape(w) && !e.NewRequest? && id in Step(w, e).history
    ensures id in w.history
  {
  }

  lemma StepKeepsShape(w: World, e: Event)
    requires Shape(w)
    ensures Shape(Step(w, e))
  {
  }

  lemma StepKeepsAwake(w: World, e: Event)
    requires Shape(w) && Awake(w)
    ensures Awake(Step(w, e))
  {
  }

  lemma StepKeeps(w: World, e: Event)
    requires Inv(w)
    ensures Inv(Step(w, e))
  {
    StepKeepsShape(w, e);
    StepKeepsAwake(w, e);
    forall id | id in Step(w, e).history
      ensures Good(Step(w, e), id)
    {
      StepKeepsRequest(w, e, id);
    }
  }

  lemma {:induction false} RunKeeps(w: World, events: seq<Event>)
    requires Inv(w)
    ensures Inv(Run(w, events))
    decreases |events|
  {
    if events != [] {
      StepKeeps(w, events[0]);
      RunKeeps(Step(w, events[0]), events[1..]);
    }
  }

  // === Theorems over every run ===

  function After(events: seq<Event>): World {
    Run(Init(), events)
  }

  lemma Reachable(events: seq<Event>)
    ensures Inv(After(events))
  {
    RunKeeps(Init(), events);
  }

  lemma Outstanding(w: World, id: RequestId)
    requires id in w.history && Good(w, id) && w.registered && id in w.requests
    ensures |Live(w.tokens, id)| == |w.history[id].tokens| - |w.history[id].log|
  {
    var h := w.history[id];
    assert h.tokens == Live(w.tokens, id) + Answered(h.log);
  }

  /**
   A collect-all request counts exactly its live tokens, completes exactly once and is never
   reopened; `wait` returns one response per token ever created, in the order of arrival.
   */
  lemma CollectAll(events: seq<Event>, id: RequestId)
    requires id in After(events).history && After(events).history[id].collectAll
    ensures var h := After(events).history[id];
            h.reopenings == 0 && h.completions <= 1 && |Answered(h.log)| == |h.log|
    ensures var w := After(events);
            id in w.requests ==>
              && w.history[id].outcome == Pending
              && w.requests[id].responses == Responses(w.history[id].log)
              && (w.requests[id].remainder == 0 <==> w.history[id].completions == 1)
              && (w.registered ==> w.requests[id].remainder == |Live(w.tokens, id)|)
    ensures var w := After(events);
            w.history[id].outcome.Collected? ==>
              && w.history[id].outcome.responses == Responses(w.history[id].log)
              && Answered(w.history[id].log) == w.history[id].tokens
              && Live(w.tokens, id) == {}
  {
    Reachable(events);
    var w := After(events);
    assert Good(w, id);
    if w.registered && id in w.requests { Outstanding(w, id); }
    if w.history[id].outcome.Collected? {
      assert w.history[id].tokens - Answered(w.history[id].log) == {};
      assert Live(w.tokens, id) == {};
    }
  }

  /**
   An any-request that is not duplicated after its completion yields exactly one result: the first
   `Ok`, else `Ignored`, else `Failed`. It completes at the first `Ok` or with its last token.
   */
  lemma AnyRequest(events: seq<Event>, id: RequestId)
    requires id in After(events).history
    requires !After(events).history[id].collectAll && After(events).history[id].reopenings == 0
    ensures var w := After(events);
            id in w.requests ==>
              && w.history[id].outcome == Pending
              && (w.requests[id].remainder == 0 <==> w.history[id].completions == 1)
              && w.history[id].completions <= 1
              && (w.registered ==>
                    w.requests[id].remainder == if HasOk(w.history[id].log) then 0 else |Live(w.tokens, id)|)
    ensures var h := After(events).history[id];
            h.outcome.Collected? ==>
              && |h.outcome.responses| == 1
              && IsAnyResult(h.log, h.outcome.responses[0])
              && (HasOk(h.log) || Answered(h.log) == h.tokens)
  {
    Reachable(events);
    var w := After(events);
    assert Good(w, id);
    if w.registered && id in w.requests { Outstanding(w, id); }
  }

  /** No response that reaches the table trips an assertion of `push`. */
  lemma PushNeverAsserts(events: seq<Event>, t: TokenId, response: Response)
    requires var w := After(events);
             && w.registered && t in w.tokens && w.tokens[t].request in w.requests
             && w.tokens[t].request in w.history
             && w.history[w.tokens[t].request].reopenings == 0
    ensures var w := After(events);
            PushAsserts(w.requests[w.tokens[t].request], response)
  {
    Reachable(events);
    var w := After(events);
    var id := w.tokens[t].request;
    var d, h := w.requests[id], w.history[id];
    assert Good(w, id);
    assert t in Live(w.tokens, id);
    if d.collectAll && d.remainder == 0 {
      SubsetOfSameSize(Answered(h.log), h.tokens);
      assert false;
    }
    if !d.collectAll && h.log != [] { OkResultHasOk(h.log, d.responses[0]); }
  }

  /** Once every token is gone the request is complete, so its waiter can run and collect it. */
  lemma NobodyHangs(events: seq<Event>, id: RequestId)
    requires var w := After(events);
             w.registered && id in w.requests && Live(w.tokens, id) == {}
    ensures var w := After(events);
            var w' := Run(w, [Arm(id), Check(id)]);
            id in w'.history && w'.history[id].outcome == Collected(w.requests[id].responses)
  {
    Reachable(events);
    var w := After(events);
    assert Good(w, id);
    var h := w.history[id];
    Outstanding(w, id);
    assert w.requests[id].remainder == 0;
    assert [Arm(id), Check(id)][1..] == [Check(id)];
    var w1 := Step(w, Arm(id));
    assert Run(w1, [Check(id)]) == Run(Step(w1, Check(id)), []);
  }

  /** What `wait` returned, and everything else about a removed request, never changes again. */
  lemma StepLeavesRemoved(w: World, e: Event, id: RequestId)
    requires Shape(w) && id in w.history && id !in w.requests
    ensures id in Step(w, e).history && Step(w, e).history[id] == w.history[id]
    ensures id !in Step(w, e).requests
  {
  }

  lemma {:induction false} RemovedIsFinal(w: World, more: seq<Event>, id: RequestId)
    requires Shape(w) && id in w.history && id !in w.requests
    ensures id in Run(w, more).history && Run(w, more).history[id] == w.history[id]
    ensures id !in Run(w, more).requests
    decreases |more|
  {
    if more != [] {
      StepKeepsShape(w, more[0]);
      StepLeavesRemoved(w, more[0], id);
      RemovedIsFinal(Step(w, more[0]), more[1..], id);
    }
  }

  // === Duplicating a completed any-request ===

  /** However the run goes on without reopening the request again, `wait` returns the right result. */
  ghost predicate StaysCorrect(w: World, id: RequestId) {
    forall more: seq<Event> ::
      var w' := Run(w, more);
      id in w.history && id in w'.history && w'.history[id].reopenings == w.history[id].reopenings
      && w'.history[id].outcome.Collected? ==>
        var h := w'.history[id];
        |h.outcome.responses| == 1 && IsAnyResult(h.log, h.outcome.responses[0])
  }

  /**
   Duplicating a live token of an any-request is safe exactly when the request is still incomplete:
   if it has completed, a receiver that ignores the duplicate replaces the `Ok` by `Ignored`.
   */
  lemma DuplicateIsSafeIff(events: seq<Event>, t: TokenId)
    requires var w := After(events);
             && w.registered && t in w.tokens
             && w.tokens[t].request in w.requests && w.tokens[t].request in w.history
             && !w.requests[w.tokens[t].request].collectAll
             && w.history[w.tokens[t].request].reopenings == 0
    ensures var w := After(events);
            var id := w.tokens[t].request;
            StaysCorrect(Step(w, Duplicate(t)), id) <==> w.requests[id].remainder != 0
  {
    Reachable(events);
    var w := After(events);
    var id := w.tokens[t].request;
    var w1 := Step(w, Duplicate(t));
    StepKeeps(w, Duplicate(t));
    assert Good(w, id);
    if w.requests[id].remainder != 0 {
      forall more: seq<Event> | id in Run(w1, more).history && Run(w1, more).history[id].reopenings == 0
        ensures Good(Run(w1, more), id) && (!Run(w1, more).history[id].collectAll)
      {
        RunKeeps(w1, more);
        KindIsFixed(w1, more, id);
      }
    } else {
      LateDuplicateIsIgnored(w, t);
    }
  }

  /** The unsafe case is reached: one receiver answers while another still holds its token. */
  lemma LateDuplicateIsReachable()
    ensures var w := After([NewRequest(false), Duplicate(0), Respond(0, 5)]);
            && w.registered && 1 in w.tokens && w.tokens[1].request == 0
            && 0 in w.requests && 0 in w.history && !w.requests[0].collectAll
            && w.history[0].reopenings == 0 && w.requests[0].remainder == 0
  {
    var events := [NewRequest(false), Duplicate(0), Respond(0, 5)];
    var w1 := Step(Init(), events[0]);
    var w2 := Step(w1, events[1]);
    assert w2.requests[0].remainder == 2;
    var w3 := Step(w2, events[2]);
    assert events[1..][1..] == events[2..] && events[2..][1..] == [];
    assert Run(w2, events[2..]) == Run(w3, []) == w3;
    assert Run(w1, events[1..]) == Run(w2, events[2..]);
  }

  lemma {:induction false} KindIsFixed(w: World, more: seq<Event>, id: RequestId)
    requires Shape(w) && id in w.history
    ensures id in Run(w, more).history && Run(w, more).history[id].collectAll == w.history[id].collectAll
    decreases |more|
  {
    if more != [] {
      StepKeepsShape(w, more[0]);
      StepKeepsKind(w, more[0], id);
      KindIsFixed(Step(w, more[0]), more[1..], id);
    }
  }

  lemma StepKeepsKind(w: World, e: Event, id: RequestId)
    requires Shape(w) && id in w.history
    ensures id in Step(w, e).history && Step(w, e).history[id].collectAll == w.history[id].collectAll
  {
  }

  lemma LateDuplicateIsIgnored(w: World, t: TokenId)
    requires Inv(w) && w.registered && t in w.tokens && w.tokens[t].request in w.requests
    requires !w.requests[w.tokens[t].request].collectAll && w.requests[w.tokens[t].request].remainder == 0
    requires w.history[w.tokens[t].request].reopenings == 0
    ensures !StaysCorrect(Step(w, Duplicate(t)), w.tokens[t].request)
  {
    var id := w.tokens[t].request;
    var d, h := w.requests[id], w.history[id];
    assert Good(w, id);
    assert t in Live(w.tokens, id);
    if !HasOk(h.log) {
      SubsetOfSameSize(Answered(h.log), h.tokens);
      assert false;
    }
    OkResultHasOk(h.log, d.responses[0]);
    var a, more := LateDuplicateOverwrites(w, t);
    AnyResultAppend(h.log, a, d.responses);
    var h' := Run(Step(w, Duplicate(t)), more).history[id];
    if IsAnyResult(h'.log, Err(Ignored)) {
      AnyResultIsUnique(h'.log, Err(Ignored), d.responses[0]);
    }
  }

  lemma LateDuplicateOverwrites(w: World, t: TokenId) returns (a: Answer, more: seq<Event>)
    requires Shape(w) && Awake(w) && w.registered && t in w.tokens && w.tokens[t].request in w.requests
    requires !w.requests[w.tokens[t].request].collectAll && w.requests[w.tokens[t].request].remainder == 0
    requires |w.requests[w.tokens[t].request].responses| == 1
    ensures var id := w.tokens[t].request;
            var w' := Run(Step(w, Duplicate(t)), more);
            && id in w'.history
            && w'.history[id].reopenings == Step(w, Duplicate(t)).history[id].reopenings
            && w'.history[id].log == w.history[id].log + [a]
            && w'.history[id].outcome == Collected([Err(Ignored)])
  {
    var id, n := w.tokens[t].request, w.nextToken;
    var w1 := Step(w, Duplicate(t));
    var w2 := Step(w1, Receive(n));
    assert w2.requests[id] == w.requests[id].(remainder := 1);
    assert w2.tokens[n] == Token(id, true);
    var w3 := Step(w2, DropToken(n));
    assert w3.requests[id].remainder == 0 && w3.requests[id].responses == [Err(Ignored)];
    assert CanArm(w3, id);
    var w4 := Step(w3, Arm(id));
    var w5 := Step(w4, Check(id));
    a := Answer(n, Err(Ignored));
    more := [Receive(n), DropToken(n), Arm(id), Check(id)];
    RunFour(w1, more);
  }

  lemma RunFour(w: World, e: seq<Event>)
    requires |e| == 4
    ensures Run(w, e) == Step(Step(Step(Step(w, e[0]), e[1]), e[2]), e[3])
  {
    var w1 := Step(w, e[0]);
    var w2 := Step(w1, e[1]);
    var w3 := Step(w2, e[2]);
    assert Run(w, e) == Run(w1, e[1..]);
    assert e[1..][1..] == e[2..] && e[2..][1..] == e[3..] && e[3..][1..] == [];
    assert Run(w1, e[1..]) == Run(w2, e[2..]);
    assert Run(w2, e[2..]) == Run(w3, e[3..]);
    assert Run(w3, e[3..]) == Step(w3, e[3]);
  }

  // === The table and the tokens as objects ===

  /** Returns the updated request and whether it is done. */
  method Push(request: RequestData, response: Response) returns (request': RequestData, done: bool)
    ensures request' == Pushed(request, response)
    ensures done == Completes(request, response)
  {
    // Nothing is outstanding: the request is complete already.
    if request.remainder == 0 {
      return request, false;
    }
    request' := request.(remainder := request.remainder - 1);
    if request.collectAll {
      request' := request'.(responses := request.responses + [response]);
      return request', request'.remainder == 0;
    }
    if request.responses == [] {
      request' := request'.(responses := [response]);
    } else if response.Ok? {
      request' := request'.(responses := request.responses[0 := response]);
    } else if response == Err(Ignored) {
      request' := request'.(responses := request.responses[0 := response]);
    }
    // Whatever else is outstanding no longer counts.
    if response.Ok? {
      request' := request'.(remainder := 0);
    }
    done := request'.remainder == 0;
  }

  class RequestTable {
    var requests: Table
    var nextId: RequestId
    var epoch: nat

    ghost predicate Valid()
      reads this
    {
      forall id :: id in requests ==> id < nextId
    }

    constructor ()
      ensures Valid() && requests == map[] && epoch == 0
    {
      requests, nextId, epoch := map[], 0, 0;
    }

    method NewRequest(collectAll: bool) returns (token: ResponseToken)
      requires Valid()
      modifies this
      ensures Valid() && epoch == old(epoch)
      ensures fresh(token) && token.data.Some? && !token.received
      ensures token.data.value !in old(requests)
      ensures requests == old(requests)[token.data.value := RequestData(1, [], collectAll)]
    {
      var id := nextId;
      requests := requests[id := RequestData(1, [], collectAll)];
      nextId := nextId + 1;
      token := new ResponseToken(Some(id), false);
    }

    method CancelRequest(id: RequestId)
      requires Valid()
      modifies this
      ensures Valid() && requests == old(requests) - {id} && epoch == old(epoch)
    {
      requests := requests - {id};
    }

    /** One turn of the waiting loop, under the lock: the result, or nothing if it must sleep. */
    method PollWait(id: RequestId) returns (responses: Option<seq<Response>>)
      requires Valid() && id in requests
      modifies this
      ensures Valid() && epoch == old(epoch)
      ensures old(requests)[id].remainder == 0 ==>
                responses == Some(old(requests)[id].responses) && requests == old(requests) - {id}
      ensures old(requests)[id].remainder != 0 ==> responses == None && requests == old(requests)
    {
      responses := None;
      if requests[id].remainder == 0 {
        responses := Some(requests[id].responses);
        requests := requests - {id};
      }
    }

    method Resolve(token: ResponseToken, response: Response)
      requires Valid()
      modifies this, token
      ensures Valid() && token.data == None
      ensures old(token.data) == None ==> requests == old(requests) && epoch == old(epoch)
      ensures old(token.data).Some? ==>
                && requests == Resolved(old(requests), old(token.data).value, response)
                && epoch == old(epoch) + if Notifies(old(requests), old(token.data).value, response) then 1 else 0
    {
      // A token without data belongs to no request.
      if token.data == None {
        return;
      }
      var id := token.data.value;
      token.data := None;
      if id !in requests {
        return;
      }
      var request, done := Push(requests[id], response);
      requests := requests[id := request];
      if done {
        epoch := epoch + 1;
      }
    }
  }

  /** A token; `data` is `None` once it is forgotten or consumed. */
  class ResponseToken {
    var data: Option<RequestId>
    var received: bool

    constructor (data: Option<RequestId>, received: bool)
      ensures this.data == data && this.received == received
    {
      this.data, this.received := data, received;
    }

    method IntoReceived()
      modifies this
      ensures received && data == old(data)
    {
      received := true;
    }

    /** `requester` is what the address book finds under the sender's address. */
    method Duplicate(requester: RequestTable?) returns (token: ResponseToken)
      requires requester != null ==> requester.Valid()
      modifies requester
      ensures fresh(token) && token.received == received
      ensures requester != null ==> requester.Valid() && requester.epoch == old(requester.epoch)
      ensures requester == null || data == None ==> token.data == None
      ensures requester != null && data.Some? ==>
                && requester.requests == Duplicated(old(requester.requests), data.value)
                && token.data == if data.value in old(requester.requests) then data else None
      ensures requester != null && data == None ==> requester.requests == old(requester.requests)
    {
      token := new ResponseToken(None, received);
      if requester == null || data == None || data.value !in requester.requests {
        return;
      }
      var request := requester.requests[data.value];
      requester.requests := requester.requests[data.value := request.(remainder := request.remainder + 1)];
      token.data := data;
    }

    method Drop(requester: RequestTable?)
      requires requester != null ==> requester.Valid()
      modifies this, requester
      ensures data == None
      ensures requester != null ==> requester.Valid()
      ensures requester != null && old(data).Some? ==>
                var response := Err(DropError(old(received)));
                && requester.requests == Resolved(old(requester.requests), old(data).value, response)
                && requester.epoch ==
                     old(requester.epoch) + if Notifies(old(requester.requests), old(data).value, response) then 1 else 0
      ensures requester != null && old(data) == None ==>
                requester.requests == old(requester.requests) && requester.epoch == old(requester.epoch)
    {
      if data == None || requester == null {
        data := None;
        return;
      }
      var error := if received then Ignored else Failed;
      requester.Resolve(this, Err(error));
    }
  }
}
