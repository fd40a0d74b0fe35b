# elfo in Dafny

elfo is an actor runtime. Its difficult parts are small state machines that many threads step
concurrently, a macro that rearranges the arms of a match, and a framed wire format. Each of them
is modelled here as a module of its own:

| module | part of elfo |
|---|---|
| `Requests` | the request table and the response tokens that are copied, answered and dropped |
| `Mailbox` | the resizable mailbox: permits, overdraft, closing, draining, waking the consumer |
| `DumpStorage` | the bounded pool of dump parts shared by shards and draining iterators |
| `MsgMacro` | the rewriting of `msg!` into a chain of per-type matches |
| `FanOut` | the visitors that offer one envelope to every actor of a group |
| `GroupRequest` | a request to a group: what the fan-out does to the tokens in the request table |
| `Startup` | the configurer and the supervisors: nothing starts before it has a config |
| `Codec` | frames, the read buffer, the framed reader and writer |
| `RateLimiter` | the GCRA limiter |
| `LineBuffer` | log lines cut at character boundaries |
| `ConfigMerge` | merging defaults into configs |
| `Registry` | packed lookup keys and the maps of remote handles |
| `ConnMan` | the connection manager |
| `Prelude` | shared datatypes and facts about finite sets, sums and sorted sequences |

The concurrent parts have three layers. Spec functions describe one atomic action on values. A
machine runs them in any order: `Step` is total (an action that is not possible changes nothing)
and `Run` takes an arbitrary sequence of events, so a theorem about `Run` holds for every
interleaving. A class has the fields and the control flow of the source, and its methods are proved
to do what the spec functions say. What a lock protects in the source is one event; where the source
releases a lock or reads an atomic on its own, there is an event boundary.

Some things one would expect of the code are false. The code is kept as it is, and the exact
condition is proved instead:

- A token of an any-request may be copied after the request has completed; the copy can then turn
  the `Ok` into `Ignored`. Copying is safe exactly while the request is incomplete
  (`Requests.DuplicateIsSafeIff`).
- Unbounded sends into a full mailbox add permits when they are received, so a later growth of the
  capacity can exceed the maximum of the semaphore, exactly if those sends outnumber the places
  still taken (`Mailbox.PermitsOverflowOnlyByOverdraft`).
- After the final drain a sender that took its permit before the close may still enqueue; the queue
  stays empty exactly if no such sender is left (`Mailbox.StaysEmptyIff`,
  `Mailbox.LateEnvelopeIsReachable`).
- Dumps of a shard can be emitted out of order. An action does no harm, however the run goes on,
  exactly if it is neither dropping an iterator in the middle of a part with others queued behind it
  nor taking a part of a shard that another iterator is still reading (`DumpStorage.HarmlessIff`).
- `msg!` groups arms by the spelling of their type. An arm behind the wildcard is taken before it if
  its type occurs earlier, an arm that spells a type otherwise is skipped, and so is a wildcard inside
  a pattern that is filed under another type, as in `(A { x: 1 } | _, token)`. The meaning is preserved
  exactly if for every listed type the arms of its first spelling come before its other spellings and
  before the wildcard, and no such inner wildcard comes before the arm that the chain takes
  (`MsgMacro.MeaningPreservedIff`).
- `msg!` guesses by capital letters whether the last part of a path is a variant. A match of typical
  arms passes the type checker exactly if types are written behind lower-case names and variants
  behind their enums, which are capital (`MsgMacro.TypeChecksIff`).
- A group is started with the first config it was ever told of. If an attempt to start fails on some
  other group and the restarted configurer comes with another config, that one is ignored by the
  first update (`Startup.StartsWithStaleConfig`, `Startup.UpdateTakesEffectIff`).
- A restarted configurer can make one group start actors, which then talk to a group that has no
  config yet. This is possible exactly if the configurer is restarted, a router reacts to
  validation requests and a further group exists (`Startup.NeverSpawnsUnconfiguredIff`).
- A frame that declares size zero is not consumed (`Codec.ProgressIff`). The reader loops for ever
  exactly if, past frames it skips in silence, it meets one of size zero without readable details
  (`Codec.SpinsIff`, `Codec.StuckForEver`); four zero bytes are enough (`Codec.FourZerosSpin`). No
  encoder writes such a frame (`Codec.NeverSpins`).
- Near the end of its 64 bits the clock makes the virtual time of the rate limiter wrap around, and
  the rate bound fails. In every run of a new limiter with readings up to some time it holds exactly
  if the virtual time cannot get around (`RateLimiter.RateBoundIff`). Unless the period takes almost
  all of the 64 bits, this means that a period and a step after that time still fit
  (`RateLimiter.RateBoundUsuallyIff`).
- The step of the rate limiter is rounded up, so a burst may be smaller than the limit
  (`RateLimiter.FullBurstIff`).
- The line marker ` TRUNCATED` is also added to uncut lines if there is room
  (`LineBuffer.MarkerIsHonestIff`). The logger never shows that, since it cuts only lines that are
  too long (`LineBuffer.EventFits`).
- Merging the same defaults twice may differ from merging them once, exactly if a default is wrapped
  in a newtype or an option (`ConfigMerge.IdempotentIff`).
- An aborting connection is revived by a late report that it was established or accepted
  (`ConnMan.RevivedIff`).
- An actor that registers two remote groups at once loses the fallback lookup of both when one of
  them goes away (`Registry.SharedActorLosesFallback`). Dropping a registration leaves its actor
  served exactly if it has no other active one (`Registry.UnbookServesIff`). The only caller in the
  repository (elfo-network/src/worker/mod.rs:133) registers once per actor, so this needs another
  user of `register_remote`.

## Model

| member | source | states |
|---|---|---|
| `Requests.CollectAll` | elfo-core/src/request_table.rs:59-166 | in every run, a collect-all request counts exactly its live tokens while it is registered, completes once, is never reopened, and `wait` returns one response per token ever made, in order of arrival |
| `Requests.AnyRequest` | elfo-core/src/request_table.rs:61-99 | in every run without a copy after completion, an any-request yields exactly one result: the first Ok, otherwise Ignored if any, otherwise Failed; it completes at the first Ok or with the last token |
| `Requests.AnyResultIsUnique` | elfo-core/src/request_table.rs:79-99 | the description of the any-result by the log of answers determines it |
| `Requests.PushNeverAsserts` | elfo-core/src/request_table.rs:61-93 | in every run in which the request was not copied after its completion, the debug assertions in `push` hold for every response that reaches the table |
| `Requests.NobodyHangs` | elfo-core/src/request_table.rs:131-146 | once all tokens of a request are gone, its waiter finds it complete and collects it |
| `Requests.RemovedIsFinal` | elfo-core/src/request_table.rs:148-166 | stale tokens of a removed request change nothing about it, however the run goes on |
| `Requests.DuplicateIsSafeIff` | elfo-core/src/request_table.rs:263-276 | copying a live token of an any-request keeps the result right in every continuation exactly if the request is incomplete |
| `Requests.LateDuplicateIsReachable` | elfo-core/src/request_table.rs:263-276 | a run of three steps after which a token of a completed any-request is still live, so the unsafe case occurs |
| `Requests.LateDuplicateOverwrites` | elfo-core/src/context.rs:459-477 | the continuation after a late copy in which `wait` returns Ignored although an Ok had arrived |
| `Requests.Push` | elfo-core/src/request_table.rs:61-99 | the statement-by-statement update agrees with the specification of a pushed response and of completion |
| `Requests.RequestTable.NewRequest` | elfo-core/src/request_table.rs:111-124 | a fresh id and an entry with one outstanding response; nothing else changes |
| `Requests.RequestTable.CancelRequest` | elfo-core/src/request_table.rs:126-129 | the entry is gone, the others stay |
| `Requests.RequestTable.PollWait` | elfo-core/src/request_table.rs:131-146 | returns the responses and removes the entry exactly if nothing is outstanding |
| `Requests.RequestTable.Resolve` | elfo-core/src/request_table.rs:148-166 | pushes the response if the entry is there, and notifies exactly on completion |
| `Requests.ResponseToken.IntoReceived` | elfo-core/src/request_table.rs:239-247 | marks the token as received and keeps everything else |
| `Requests.ResponseToken.Duplicate` | elfo-core/src/request_table.rs:249-276 | one more outstanding response if requester and entry are there |
| `Requests.ResponseToken.Drop` | elfo-core/src/request_table.rs:304-325 | answers Ignored if the token was received, otherwise Failed |
| `Mailbox.NoLostWakeup` | elfo-core/src/mailbox.rs:200-340 | in every interleaving, a parked consumer that is not woken and that nobody is about to notify has an empty queue in an open mailbox |
| `Mailbox.PermitAccounting` | elfo-core/src/mailbox.rs:162-244 | in every run, permits, in-flight senders, queued envelopes and the envelope in hand add up to capacity plus overdraft while the mailbox is open; the capacity never exceeds the maximum |
| `Mailbox.CapacityIsSet` | elfo-core/src/mailbox.rs:177-198 | in every run, setting the capacity makes it what is asked for up to the maximum when growing, and what is asked for but at least the places taken less the overdraft when shrinking; permits and places taken then add up to it, and nothing else changes |
| `Mailbox.PermitsOverflowOnlyByOverdraft` | elfo-core/src/mailbox.rs:177-198 | returning a permit overflows exactly if capacity plus overdraft less the places taken reaches the maximum, so never without overdraft; growing is safe for every value exactly if the overdraft does not exceed the places taken, that is, if there are no more permits than the capacity |
| `Mailbox.OverdraftCanOverflow` | elfo-core/src/mailbox.rs:225-244 | a run of a mailbox with one slot after which growing the capacity overflows the semaphore |
| `Mailbox.Delivery` | elfo-core/src/mailbox.rs:200-244 | in every run, every envelope is in exactly one place, and envelopes leave the queue in the order they entered |
| `Mailbox.ClosedMeansEmpty` | elfo-core/src/mailbox.rs:330-354 | the consumer gives up only on an empty queue of a closed mailbox, the trace id is there then, and it never competes with a drain |
| `Mailbox.DrainedByExactlyOne` | elfo-core/src/mailbox.rs:256-369 | when the actor has finished and its consumer is gone, in either order, the queue has been drained after the close, by exactly one party if it finished once; what is left was in flight |
| `Mailbox.StaysEmptyIff` | elfo-core/src/mailbox.rs:200-210 | an empty queue of a closed mailbox stays empty in every continuation exactly if no sender is in flight |
| `Mailbox.LateEnvelopeIsReachable` | elfo-core/src/mailbox.rs:200-272 | a run of three steps after which the mailbox is closed and empty with a sender in flight, whose envelope then arrives |
| `Mailbox.ClosingSteps` | elfo-core/src/mailbox.rs:246-284 | the three steps of a close, run without interruption, are what the method does: trace, closed, consumer woken |
| `Mailbox.SendingSteps` | elfo-core/src/mailbox.rs:200-244 | the same for a send with or without a permit |
| `Mailbox.ReceivingSteps` | elfo-core/src/mailbox.rs:330-340 | the same for receiving the first envelope |
| `Mailbox.DrainingSteps` | elfo-core/src/mailbox.rs:256-272 | a drain takes the whole queue in order, in one step more than it has envelopes |
| `Mailbox.FinishingSteps` | elfo-core/src/mailbox.rs:256-272 | finishing closes and empties the mailbox, or leaves the drain to the attached consumer |
| `Mailbox.Mailbox.constructor` | elfo-core/src/mailbox.rs:162-175 | an open, empty mailbox with the clamped capacity |
| `Mailbox.Mailbox.SetCapacity` | elfo-core/src/mailbox.rs:177-198 | growing reaches what is asked for up to the maximum, shrinking what is asked for but not below the places taken, and permits change by the same amount; panics exactly if the semaphore would exceed its maximum |
| `Mailbox.Mailbox.TrySend` | elfo-core/src/mailbox.rs:212-223 | enqueues and notifies with a permit, otherwise returns the envelope as full or closed |
| `Mailbox.Mailbox.UnboundedSend` | elfo-core/src/mailbox.rs:225-244 | enqueues with or without a permit unless closed |
| `Mailbox.Mailbox.Close` | elfo-core/src/mailbox.rs:246-284 | only the first close marks the mailbox and wakes the consumer |
| `Mailbox.Mailbox.Drain` | elfo-core/src/mailbox.rs:256-272 | empties the queue and hands out its envelopes in order |
| `Mailbox.Mailbox.CloseAndTryDrain` | elfo-core/src/mailbox.rs:256-272 | closes, then drains if there is no consumer and otherwise leaves the drain to it |
| `Mailbox.Mailbox.AttachConsumer` | elfo-core/src/mailbox.rs:296-307 | takes the consuming end |
| `Mailbox.Mailbox.DetachConsumer` | elfo-core/src/mailbox.rs:357-369 | releases the consuming end and drains if that was left to it |
| `Mailbox.Mailbox.TryReceive` | elfo-core/src/mailbox.rs:330-340 | the first envelope and its permit back, or nothing, or the end of a closed mailbox; panics exactly if the permit does not fit |
| `Mailbox.Mailbox.OnClose` | elfo-core/src/mailbox.rs:342-354 | the trace id that was given to the close |
| `DumpStorage.PartAccounting` | elfo-dumper/src/dump_storage.rs:93-228 | in every run at lock granularity, the counter equals the parts there are, no part is overfull or in the wrong list, and their number is at most the limit or shards + drains + 1 |
| `DumpStorage.DumpConservation` | elfo-dumper/src/dump_storage.rs:93-228 | in every run, every added dump is exactly once active, filled, held, emitted or evicted |
| `DumpStorage.EvictsOnlyAtTheLimit` | elfo-dumper/src/dump_storage.rs:201-228 | no run evicts a dump unless it came to the limit: in some step that was possible then, a part was needed at the limit with none spare, or the limit was lowered below the count |
| `DumpStorage.EvictsTheOldest` | elfo-dumper/src/dump_storage.rs:201-228 | in every run without the two harmful actions, whatever a step evicts is older than everything of its shard that is still queued or active |
| `DumpStorage.StepLosesFront` | elfo-dumper/src/dump_storage.rs:201-228 | in any state, what a step evicts of a shard is the front of what was queued there |
| `DumpStorage.RenewingSteps` | elfo-dumper/src/dump_storage.rs:133-146 | test and swap without interruption: a full part, or for an iterator any with dumps, goes to the back of its queue |
| `DumpStorage.AddingSteps` | elfo-dumper/src/dump_storage.rs:93-104 | a dump goes behind the others of its shard, and exactly a full part is renewed before the next |
| `DumpStorage.FairToShards` | elfo-dumper/src/dump_storage.rs:272-332 | two parts in a row come from one shard only if no other shard has dumps by then |
| `DumpStorage.EmittedInOrder` | elfo-dumper/src/dump_storage.rs:285-361 | in every run without the two harmful actions, each shard's dumps are emitted in the order in which they were added |
| `DumpStorage.HarmlessIff` | elfo-dumper/src/dump_storage.rs:295-361 | from a state in order, an action keeps the emission in order in every continuation without harmful actions exactly if it is not one itself |
| `DumpStorage.TakeKeepsOrderIff` | elfo-dumper/src/dump_storage.rs:295-332 | taking a part keeps all later emission in order exactly if no other iterator has something left to read of that shard |
| `DumpStorage.DroppedPartIsLate` | elfo-dumper/src/dump_storage.rs:355-361 | the continuation in which the rest of a dropped part is emitted after the parts that were queued behind it |
| `DumpStorage.DropKeepsOrderIff` | elfo-dumper/src/dump_storage.rs:355-361 | dropping an iterator in the middle of a part keeps all later emission in order exactly if no part of that shard is queued |
| `DumpStorage.ConcurrentTakeBreaksOrder` | elfo-dumper/src/dump_storage.rs:295-332 | two iterators reading one shard emit out of order |
| `DumpStorage.MostFilled` | elfo-dumper/src/dump_storage.rs:222-228 | the last of the longest queues |
| `DumpStorage.PartFund.ClearMostFilled` | elfo-dumper/src/dump_storage.rs:222-228 | the oldest part of the last longest queue is lost and nothing else changes, exactly if any queue is non-empty |
| `DumpStorage.PartFund.Configure` | elfo-dumper/src/dump_storage.rs:169-179 | exactly the surplus is freed, as far as there are parts: spare ones first, then one by one the oldest of the most filled shard |
| `DumpStorage.PartFund.AddShard` | elfo-dumper/src/dump_storage.rs:181-185 | one more empty queue, numbered last |
| `DumpStorage.PartFund.AddFilledPart` | elfo-dumper/src/dump_storage.rs:187-190 | the part is the last of its queue |
| `DumpStorage.PartFund.GetFilledPart` | elfo-dumper/src/dump_storage.rs:192-194 | takes the oldest part of the queue, if any |
| `DumpStorage.PartFund.AddEmptyPart` | elfo-dumper/src/dump_storage.rs:196-199 | the part joins the empty ones |
| `DumpStorage.PartFund.GetEmptyPart` | elfo-dumper/src/dump_storage.rs:201-220 | an empty part: a spare one if there is one, else below the limit or without filled parts a new one, else that of the oldest part of the most filled shard |
| `DumpStorage.DumpRegistry.MakeShard` | elfo-dumper/src/dump_storage.rs:122-131 | a new shard with an empty active part |
| `DumpStorage.DumpRegistry.Add` | elfo-dumper/src/dump_storage.rs:93-104 | the dump is the last of the active part, which is replaced if it is now full |
| `DumpStorage.DumpRegistry.RenewActivePart` | elfo-dumper/src/dump_storage.rs:133-146 | moves the active part to the filled ones if the test says so |
| `DumpStorage.Drain.NextShard` | elfo-dumper/src/dump_storage.rs:295-332 | takes the oldest part of the first shard with dumps, among those left of this round and then of a whole new round; finds nothing only if every shard is empty |
| `DumpStorage.Drain.Next` | elfo-dumper/src/dump_storage.rs:337-353 | yields a dump and keeps every other dump accounted for; ends without timeout only if every shard is empty |
| `DumpStorage.Drain.Drop` | elfo-dumper/src/dump_storage.rs:355-361 | a half-read part goes to the back of its queue |
| `DumpStorage.DrainAll` | elfo-dumper/src/actor.rs:259-280 | a drain without timeout on a quiescent registry empties every shard and yields each dump exactly once, except those evicted meanwhile |
| `MsgMacro.MeaningPreservedIff` | elfo-macros-impl/src/msg.rs:226-312 | a chain that compiles picks the arm of sequential first-match for every envelope exactly if for every listed type the arms of its first spelling come before its other spellings and before the wildcard, and no pattern filed under another type that has a wildcard inside comes before the arm taken, for listed and unlisted types |
| `MsgMacro.NoWildInsideMeaningIff` | elfo-macros-impl/src/msg.rs:226-312 | without a wildcard inside a typed pattern, the first two of these conditions are exact |
| `MsgMacro.WildLastMeaningIff` | elfo-macros-impl/src/msg.rs:168-312 | with the wildcard arm last or absent, the meaning is preserved exactly if for every listed type the arms of its first spelling come before its other spellings and no inner wildcard comes before the arm taken |
| `MsgMacro.OneSpellingMeaningIff` | elfo-macros-impl/src/msg.rs:168-312 | with one spelling per type, the meaning is preserved exactly if no arm behind the wildcard is needed and no inner wildcard comes before the arm taken |
| `MsgMacro.WildLastPreservesMeaning` | elfo-macros-impl/src/msg.rs:168-312 | with the wildcard arm last or absent, one spelling per type and no wildcard inside a typed pattern, the meaning is preserved for every envelope and every order of the groups |
| `MsgMacro.ArmBehindWildcardIsTaken` | elfo-macros-impl/src/msg.rs:168-217 | a match that compiles and picks an arm behind the wildcard |
| `MsgMacro.TwoSpellingsDiffer` | elfo-macros-impl/src/msg.rs:63-113 | a match with two spellings of one type that skips an arm |
| `MsgMacro.WildcardInsideIsMissed` | elfo-macros-impl/src/msg.rs:84-106 | a match with its wildcard last and one spelling per type that skips an arm with a wildcard inside its request pattern |
| `MsgMacro.TypeChecksIff` | elfo-macros-impl/src/msg.rs:40-61 | a match of typical arms passes the type checker exactly if types are written behind lower-case names and variants behind their enums, which are capital |
| `MsgMacro.TypicalCompilesIff` | elfo-macros-impl/src/msg.rs:40-61 | the same for one alternative, bound to a variable or not, with a token or not |
| `MsgMacro.GuessedTypes` | elfo-macros-impl/src/msg.rs:115-129 | if the chain compiles, exactly the names taken for types are types |
| `MsgMacro.VariantIsFiled` | elfo-macros-impl/src/msg.rs:40-61 | patterns over the variants of a capital enum are filed under the enum and stay as they are, also in requests |
| `MsgMacro.VariantIsNative` | elfo-macros-impl/src/msg.rs:131-166 | what is left of a variant without fields matches exactly that variant |
| `MsgMacro.OtherIsFiled` | elfo-macros-impl/src/msg.rs:115-166 | other paths are filed under themselves, and those without fields become wildcards |
| `MsgMacro.VariantsAreTogether` | elfo-macros-impl/src/msg.rs:168-217 | arms about variants of one enum are in one group |
| `MsgMacro.TypicalIsReportedIff` | elfo-macros-impl/src/msg.rs:86-106 | a typical alternative is reported exactly if its token begins with an underscore |
| `MsgMacro.AlwaysReported` | elfo-macros-impl/src/msg.rs:72-111 | tuples that are not requests, hidden and forbidden patterns are reported |
| `MsgMacro.RefineMeans` | elfo-macros-impl/src/msg.rs:131-166 | the rewritten pattern matches natively exactly what the written pattern means on its type; of other types the written pattern matches all or nothing, all exactly if there is a wildcard inside |
| `MsgMacro.WildMeansAll` | elfo-macros-impl/src/msg.rs:63-113 | a pattern classified as wildcard matches every envelope |
| `MsgMacro.OthersAreCaught` | elfo-macros-impl/src/msg.rs:63-113 | a pattern that compiles for one type and matches an envelope of another has a wildcard inside, and matches everything |
| `MsgMacro.AddToGroup` | elfo-macros-impl/src/msg.rs:169-178 | the arm joins the group of its kind, or makes a new one |
| `MsgMacro.CollectPieces` | elfo-macros-impl/src/msg.rs:180-204 | an or-pattern is split by kind, keeping the order of the alternatives within a kind; exactly the alternatives without kind, or whose token is unused, are reported, and exactly those without kind are left out |
| `MsgMacro.AddGroups` | elfo-macros-impl/src/msg.rs:168-217 | whatever order the pieces are visited in, the groups stay the projections of the arms |
| `MsgMacro.GroupArms` | elfo-macros-impl/src/msg.rs:220-228 | the groups are exactly the projections of all arms; the compilation fails exactly if some alternative has no kind or an unused token; arms about variants of one enum are in one group, unchanged |
| `FanOut.SendToGroup` | elfo-core/src/object.rs:327-424 | each actor is tried once in order and each full one waited for once; each reachable actor is reached once and each by its own envelope; Ok exactly if some was reached, otherwise an unused envelope comes back; no more envelopes than actors are made; those neither delivered nor returned are dropped, each once and the original after its last copy |
| `FanOut.TrySendToGroup` | elfo-core/src/object.rs:428-486 | each actor is tried once; the same without waiting; the error is Full exactly if some mailbox was full |
| `FanOut.VisitMultiple` | elfo-core/src/supervisor.rs:252-272 | all actors are visited in order, the last with the original; who is to be waited for is remembered in order |
| `FanOut.TryVisitMultiple` | elfo-core/src/supervisor.rs:252-272 | the same for the visitor that does not wait |
| `FanOut.SendGroupVisitor.TrySend` | elfo-core/src/object.rs:337-349 | accepted, postponed or kept as the spare envelope; every envelope stays in one place |
| `FanOut.SendGroupVisitor.Visit` | elfo-core/src/object.rs:416-419 | offers the spare envelope or a copy |
| `FanOut.SendGroupVisitor.VisitLast` | elfo-core/src/object.rs:421-424 | offers the original |
| `FanOut.SendGroupVisitor.AwaitOne` | elfo-core/src/object.rs:351-399 | the waiting attempt for one full mailbox |
| `FanOut.SendGroupVisitor.Finish` | elfo-core/src/object.rs:351-399 | awaits the full ones in order; without any success an envelope is there to return, otherwise a spare one is dropped |
| `FanOut.SendGroupVisitor.Keep` | elfo-core/src/object.rs:337-349 | the rejected envelope takes the place of the spare one, which is dropped |
| `FanOut.TrySendGroupVisitor.TrySend` | elfo-core/src/object.rs:438-449 | accepted, or kept as the spare envelope with the full flag |
| `FanOut.TrySendGroupVisitor.Visit` | elfo-core/src/object.rs:478-481 | offers the spare envelope or a copy |
| `FanOut.TrySendGroupVisitor.VisitLast` | elfo-core/src/object.rs:483-486 | offers the original |
| `FanOut.TrySendGroupVisitor.Finish` | elfo-core/src/object.rs:451-463 | without any success an envelope is there to return |
| `GroupRequest.SendRequest` | elfo-core/src/context.rs:1150-1211 | a request sent to a group waits for exactly one answer per reached actor, and got Failed exactly once for every other envelope made; if nobody is reached it is cancelled with Failed for every envelope and no token left |
| `GroupRequest.SentToGroup` | elfo-core/src/object.rs:327-424 | after the fan-out of a request the live tokens are exactly those of the deliveries and of the returned envelope, the request counts them, and every other envelope made was answered Failed once |
| `GroupRequest.SendingTracks` | elfo-core/src/envelope.rs:200-221 | the request table keeps up with any sequence of copies and drops that a fan-out can make, for both kinds of requests |
| `GroupRequest.NobodyReached` | elfo-core/src/context.rs:1183-1186 | dropping the returned envelope and cancelling leaves nothing of the request |
| `Startup.NeverSpawnsUnconfiguredIff` | elfo-core/src/supervisor.rs:274-303 | no run spawns an actor in a group without config, exactly unless a restarted configurer meets a router that reacts to validation and a further group |
| `Startup.RejectedStartsNothingIff` | elfo-configurer/src/lib.rs:232-290 | as long as every validation failed, nothing but the entrypoint was started, in every run, exactly unless a restarted configurer meets such a router |
| `Startup.StartsTooEarly` | elfo-configurer/src/lib.rs:292-348 | the run in which a group starts before another has its config |
| `Startup.RunKeeps` | elfo-configurer/src/lib.rs:122-178 | validation before update: what every run of the protocol keeps, unless that router is there |
| `Startup.ConfigIsRight` | elfo-core/src/supervisor.rs:137-199 | in every run a group is started exactly if it was updated; up to its first update its config is the first one it was told of, later the one of the last update |
| `Startup.UpdateTakesEffectIff` | elfo-core/src/supervisor.rs:163-175 | after an update in any run the group has the new config exactly if it was updated before, or this is the first config it is told of, or the first one was the same |
| `Startup.StartsWithStaleConfig` | elfo-configurer/src/lib.rs:170-178 | the run in which all groups agree on a new config after a failed start, and a group is started with the old one |
| `Startup.TerminationStops` | elfo-core/src/supervisor.rs:205-214 | after a termination that stops spawning, no continuation starts an actor in the group |
| `Startup.AudienceIsAddressed` | elfo-core/src/supervisor.rs:223-250 | a message is shown exactly to the addressed actors there are |
| `Startup.Supervisor.GetOrSpawn` | elfo-core/src/supervisor.rs:61-74 | an existing actor, a new one, or nobody while spawning is stopped |
| `Startup.Supervisor.GetOrSpawnAll` | elfo-core/src/supervisor.rs:233-238 | the same for a list of keys |
| `Startup.Supervisor.Route` | elfo-core/src/supervisor.rs:223-250 | the message is shown exactly to the addressed actors there are; exactly those of a unicast or multicast are spawned, if there is a config and spawning is not stopped |
| `Startup.Supervisor.HandleValidate` | elfo-core/src/supervisor.rs:137-162 | sets the first config at once without asking the router; otherwise the config stays and the message is shown exactly to the addressed actors, by default to nobody; a config that cannot be decoded is rejected and changes nothing |
| `Startup.Supervisor.HandleUpdate` | elfo-core/src/supervisor.rs:163-199 | the first update keeps the config set by the validation and starts the group; each later one replaces it and is shown exactly to the addressed actors, by default to all; a config that cannot be decoded changes nothing |
| `Codec.StreamRoundTrip` | elfo-network/src/codec/decode.rs:51-105 | however a stream of frames is cut into chunks and whenever the reader looks, its answers are the first items in order, envelopes intact, unreadable ones with their details and other frames stepped over; it asks for more only when it has answered every item that arrived whole |
| `Codec.ReaderRoundTrip` | elfo-network/src/frame/read.rs:200-242 | however a stream is cut into chunks and whenever `read` is called, its reports are those of the first items in order: each envelope as it was sent, of unreadable ones the details; it wants more only if no whole item is left but silent ones |
| `Codec.NextIsDecoded` | elfo-network/src/frame/read.rs:228-234 | with a frame in front, the next `read` reports its envelope and leaves what follows |
| `Codec.UnreadableIsSkipped` | elfo-network/src/codec/decode.rs:225-262 | the frame of a message that cannot be read is skipped with kind, sender, recipient, request id and trace of its envelope, whatever follows |
| `Codec.FrameLayout` | elfo-network/src/codec/encode.rs:70-149 | at which bytes size, kind, sender, recipient, trace and request id are |
| `Codec.FlagsByKind` | elfo-network/src/codec/encode.rs:104-109 | the number of each kind of payload, and the flag of a last response |
| `Codec.DecodedIsValid` | elfo-network/src/codec/decode.rs:201-270 | whatever the input, what is decoded has addresses that are null or name a node and a group, a trace, and a request id with its version bit |
| `Codec.RoundTrip` | elfo-network/src/codec/decode.rs:201-270 | whatever follows an encoded frame, decoding gives the envelope back and consumes exactly the frame |
| `Codec.EnvelopeAt` | elfo-network/src/codec/decode.rs:201-270 | an envelope printed anywhere in the input is parsed back from there |
| `Codec.PrefixNeedsMore` | elfo-network/src/codec/decode.rs:51-69 | every strict prefix of a frame gives NeedMoreData, for more than is there and at most the frame |
| `Codec.SizeFits` | elfo-network/src/codec/encode.rs:43-45 | the 32-bit size field never truncates and reads back as the frame's length |
| `Codec.ProgressIff` | elfo-network/src/frame/read.rs:201-238 | a decoding step shortens the buffer exactly if the declared size is not zero |
| `Codec.SpinsIff` | elfo-network/src/frame/read.rs:201-238 | on any input the reading loop never ends exactly if, past the frames skipped in silence, there is one of size zero without readable details |
| `Codec.StuckForEver` | elfo-network/src/frame/read.rs:201-238 | at such a frame any number of decoding steps leaves the buffer as it is |
| `Codec.FourZerosSpin` | elfo-network/src/frame/read.rs:201-238 | four zero bytes keep the loop going for ever, whatever the codec of the payload |
| `Codec.ReadIsPolls` | elfo-network/src/frame/read.rs:201-238 | one `read` is a number of decoding steps on the same buffer |
| `Codec.NeverSpins` | elfo-network/src/frame/read.rs:201-238 | on a stream of frames the reading loop ends |
| `Codec.LeRoundTrip` | elfo-network/src/codec/encode.rs:104-131 | little-endian integers of any width read back as written |
| `Codec.RequestIdFromBits` | elfo-core/src/request_table.rs:20-31 | reading an id sets its version bit; it is unchanged exactly if the bit was set |
| `Codec.FlagsAndKind` | elfo-network/src/codec/encode.rs:104-109 | kind and last-response flag can be told apart again |
| `Codec.Cursor.ReadU64` | elfo-network/src/codec/decode.rs:149-156 | the integer at the cursor, or an error at the end of the input |
| `Codec.Cursor.GetNetworkAddr` | elfo-network/src/codec/decode.rs:149-152 | the same, rejecting local and invalid addresses |
| `Codec.Cursor.GetString` | elfo-network/src/codec/decode.rs:188-199 | the length-prefixed UTF-8 text at the cursor |
| `Codec.Cursor.GetAnyMessage` | elfo-network/src/codec/decode.rs:158-186 | protocol, name and a message from the rest of the whole input |
| `Codec.Cursor.DecodePayload` | elfo-network/src/codec/decode.rs:225-262 | the payload of each kind, with the details known when the message is unreadable |
| `Codec.Cursor.DoDecode` | elfo-network/src/codec/decode.rs:201-270 | the moving cursor parses what the grammar on values says |
| `Codec.Decoder.Decode` | elfo-network/src/codec/decode.rs:51-105 | one frame decoded, skipped or incomplete, and counted as such |
| `Codec.FramedWriter.WriteMsgpack` | elfo-core/src/message/repr.rs:334-366 | succeeds exactly if the serializer does and all its writes together fit the limit |
| `Codec.FramedWriter.DoEncode` | elfo-network/src/codec/encode.rs:70-149 | appends header and payload exactly if the envelope may be encoded |
| `Codec.FramedWriter.Encode` | elfo-network/src/codec/encode.rs:27-68 | appends the frame with its size patched in, exactly if the message serializes within the limit and the frame within 32 bits, or leaves the buffer exactly as it was, and counts |
| `Codec.FramedWriter.Write` | elfo-network/src/frame/write.rs:149-168 | the buffer holds the frames written since the last finalize; a flush is advised exactly above the threshold |
| `Codec.FramedWriter.Finalize` | elfo-network/src/frame/write.rs:170-174 | hands the buffer out; it is cleared by the next write only |
| `Codec.ReadBuffer.constructor` | elfo-network/src/frame/buffers.rs:11-17 | nothing is filled |
| `Codec.ReadBuffer.ExtendFilled` | elfo-network/src/frame/buffers.rs:23-27 | the bytes behind become filled |
| `Codec.ReadBuffer.ConsumeFilled` | elfo-network/src/frame/buffers.rs:29-41 | the first bytes are gone, the others stay |
| `Codec.ReadBuffer.ExtendToContain` | elfo-network/src/frame/buffers.rs:47-86 | shifting in place and growing keep the filled bytes and make the room asked for |
| `Codec.FramedReader.Receive` | elfo-network/src/frame/read.rs:240-242 | any chunk that fits is appended to the filled bytes |
| `Codec.FramedReader.Next` | elfo-network/src/frame/read.rs:200-238 | what `ReaderRoundTrip` is about: reports the next envelope or skipped one and keeps the rest; asks for more than it has and makes room for it |
| `RateLimiter.RateBound` | elfo-utils/src/rate_limiter.rs:77-107 | in any run and for any order of clock readings, N permits for readings in [a, b] satisfy (N - 1) * step < (b - a) + period |
| `RateLimiter.RateBoundIff` | elfo-utils/src/rate_limiter.rs:77-107 | for every finite limit, that bound holds in all runs of a new limiter with readings up to a given time exactly if the virtual time cannot get around 64 bits |
| `RateLimiter.RateBoundUsuallyIff` | elfo-utils/src/rate_limiter.rs:77-107 | if a period and two steps fit into 64 bits, that is exactly if a period and a step after the given time do |
| `RateLimiter.PerSecond` | elfo-utils/src/rate_limiter.rs:34-42 | with n requests per second, readings within k seconds get at most (k + 1) * n permits |
| `RateLimiter.NeverRefusesIff` | elfo-utils/src/rate_limiter.rs:34-42 | no acquire is refused exactly if the limit is unlimited, at least 10^9 per second, or not zero and at least one per nanosecond of the period modulo 2^64 |
| `RateLimiter.NeverAdmitsIff` | elfo-utils/src/rate_limiter.rs:34-42 | every acquire is refused exactly if the limit is zero, or one per longest period |
| `RateLimiter.InstantBound` | elfo-utils/src/rate_limiter.rs:77-107 | at most `limit` permits for readings of one instant |
| `RateLimiter.BurstIsExact` | elfo-utils/src/rate_limiter.rs:91-107 | m acquires at one instant on an idle limiter get exactly min(m, burst) permits |
| `RateLimiter.FullBurstIff` | elfo-utils/src/rate_limiter.rs:109-121 | the burst is at most the limit, and equals it exactly if (limit - 1) * step < period |
| `RateLimiter.ShortBurst` | elfo-utils/src/rate_limiter.rs:109-121 | four per six nanoseconds gives three at once |
| `RateLimiter.StepIsLeast` | elfo-utils/src/rate_limiter.rs:109-121 | the step is the least with which `limit` steps fill the period |
| `RateLimiter.DisabledIff` | elfo-utils/src/rate_limiter.rs:44-47 | the marker for a forbidding limit clashes with a real step for one configuration only |
| `RateLimiter.IsLeakyBucket` | elfo-utils/src/rate_limiter.rs:7-12 | while the clock does not run backwards, the limiter decides as a leaky bucket of size `period` |
| `RateLimiter.RateLimiter.constructor` | elfo-utils/src/rate_limiter.rs:51-59 | step and period of the limit, virtual time zero |
| `RateLimiter.RateLimiter.Configure` | elfo-utils/src/rate_limiter.rs:62-67 | new step and period, the virtual time stays |
| `RateLimiter.RateLimiter.Reset` | elfo-utils/src/rate_limiter.rs:70-72 | the virtual time is zero |
| `RateLimiter.RateLimiter.Acquire` | elfo-utils/src/rate_limiter.rs:77-107 | the decision and the new virtual time, with 64-bit wrap-around |
| `LineBuffer.TruncationIsOrderly` | elfo-logger/src/line_buffer.rs:64-97 | every too long UTF-8 line is cut to valid prefixes of its pieces, payload before fields before meta; at most three bytes of the limit are wasted, and nothing is kept if the marker does not fit |
| `LineBuffer.EventFits` | elfo-logger/src/actor.rs:131-146 | a formatted event is valid UTF-8, takes at most the limit plus a newline, is verbatim exactly if it fits, and is marked exactly if it was cut and the marker fits |
| `LineBuffer.PrintedFits` | elfo-logger/src/line_buffer.rs:23-39 | whatever is committed by the truncating writer fits the limit and is valid UTF-8 |
| `LineBuffer.MarkerIsHonestIff` | elfo-logger/src/line_buffer.rs:65-73 | the marker tells whether something was cut exactly if the line is near or over the limit and the marker fits |
| `LineBuffer.BoundarySplits` | elfo-logger/src/line_buffer.rs:209-217 | cutting UTF-8 at a character boundary leaves UTF-8 on both sides |
| `LineBuffer.BoundaryNear` | elfo-logger/src/line_buffer.rs:209-217 | the search for a boundary goes back three bytes at most |
| `LineBuffer.SafeTruncate` | elfo-logger/src/line_buffer.rs:209-217 | cuts at the last boundary not after the given place and says how much too much |
| `LineBuffer.LineBuffer.constructor` | elfo-logger/src/line_buffer.rs:199-206 | all buffers empty |
| `LineBuffer.LineBuffer.Clear` | elfo-logger/src/line_buffer.rs:173-177 | all buffers empty |
| `LineBuffer.LineBuffer.ProbeSizeLimit` | elfo-logger/src/line_buffer.rs:65-96 | cuts the current line and leaves the earlier lines alone |
| `LineBuffer.LineBuffer.CommitTruncating` | elfo-logger/src/line_buffer.rs:24-39 | earlier lines, the printed line, a newline; the cut pieces stay in the scratch buffers |
| `LineBuffer.LineBuffer.CommitDirect` | elfo-logger/src/line_buffer.rs:117-127 | commits exactly if the line fits and takes it back otherwise |
| `LineBuffer.LineBuffer.Rollback` | elfo-logger/src/line_buffer.rs:99-103 | earlier lines only |
| `LineBuffer.LineBuffer.FormatDirect` | elfo-logger/src/line_buffer.rs:116-127 | the line verbatim exactly if it fits, otherwise nothing |
| `LineBuffer.LineBuffer.FormatTruncating` | elfo-logger/src/line_buffer.rs:23-39 | the printed line after the earlier lines; the cut pieces stay in the scratch buffers |
| `LineBuffer.LineBuffer.FormatEvent` | elfo-logger/src/actor.rs:131-146 | earlier lines and the formatted event |
| `LineBuffer.LineBuffer.HandleEvent` | elfo-logger/src/actor.rs:86-92 | the output is this event only, whatever was left in the buffers |
| `ConfigMerge.LookupLaw` | elfo-configurer/src/helpers.rs:18-46 | at every path the merged config holds the config's leaf, nothing behind a config scalar, the merge of two tables, or the default's entry |
| `ConfigMerge.IdempotentIff` | elfo-configurer/src/helpers.rs:29-46 | merging a default twice is merging it once for every config exactly if the default wraps no value |
| `ConfigMerge.WrappersAreTransparent` | elfo-configurer/src/helpers.rs:29-46 | newtypes on either side and filled options of the config do not matter, an empty option is like nothing |
| `ConfigMerge.SelfMergeIff` | elfo-configurer/src/helpers.rs:29-46 | merging a value into itself changes nothing exactly under that condition |
| `ConfigMerge.HollowGivesWay` | elfo-configurer/src/helpers.rs:32-37 | a config gives way to the default only if it is made of wrappers around nothing |
| `ConfigMerge.AddDefaults` | elfo-configurer/src/helpers.rs:29-46 | the loop that takes entries out and puts them back computes the merge, in any order of the keys |
| `ConfigMerge.LookupValue` | elfo-configurer/src/helpers.rs:18-27 | the loop follows the path |
| `Registry.LookupFindsLatest` | elfo-core/src/address_book.rs:145-201 | in every run of overlapping registrations and drops, lookup finds the latest registration of local group, node and remote group exactly while it is active, and never a deregistered one |
| `Registry.RoutingFindsLatest` | elfo-core/src/topology.rs:372-390 | in every run, the routing map holds for each node the handle published last, exactly until its guard is dropped |
| `Registry.KeysAgreeIff` | elfo-core/src/address_book.rs:188-194 | the key of a lookup equals that of a registration exactly if all three parts agree |
| `Registry.AddrRoundTrip` | elfo-core/src/addr.rs:220-295 | taking an address to a node and back; node and group can be read off |
| `Registry.FallbackIsLatest` | elfo-core/src/address_book.rs:145-185 | in every run, the fallback of an actor is the handle of its latest booking if none of its registrations was unbooked since, and nothing otherwise |
| `Registry.ServesIff` | elfo-core/src/address_book.rs:145-201 | in every run, an actor with an active registration is found exactly if none of its registrations was unbooked since its latest booking |
| `Registry.UnbookServesIff` | elfo-core/src/address_book.rs:181-182 | dropping a registration leaves its actor served exactly if it has no other active one |
| `Registry.FallbackFinds` | elfo-core/src/address_book.rs:156-161 | in particular, while no actor has two active registrations, an actor with one is found under its handle |
| `Registry.SharedActorLosesFallback` | elfo-core/src/address_book.rs:181-182 | dropping one of two registrations of an actor removes the fallback of the other |
| `Registry.RemoteToHandleMap.Insert` | elfo-core/src/address_book.rs:145-162 | both maps have the handle |
| `Registry.RemoteToHandleMap.Remove` | elfo-core/src/address_book.rs:165-185 | the key goes only if it holds this handle, the fallback always |
| `Registry.RemoteToHandleMap.Get` | elfo-core/src/address_book.rs:188-201 | by key, otherwise by actor |
| `Registry.Topology.RegisterRemote` | elfo-core/src/topology.rs:351-398 | books and publishes the handle |
| `Registry.Topology.DropGuard` | elfo-core/src/topology.rs:524-551 | undoes the booking, removes the object, undoes the publishing |
| `ConnMan.ManagesAll` | elfo-network/src/connman.rs:187-238 | in any order of visiting, each due entry is opened exactly once, failed ones under an id never used before; no entry is lost or changes its peer, nothing stays due, and the wake time is the least deadline left |
| `ConnMan.OpenedAreOutgoing` | elfo-network/src/connman.rs:218-231 | in every run whose new entries are outgoing, the debug assertions on opening hold |
| `ConnMan.AbortingStays` | elfo-network/src/connman.rs:162-181 | an aborting entry stays so until it is removed for good, in every run without a report on it |
| `ConnMan.PeersAreKept` | elfo-network/src/connman.rs:187-277 | however often connections fail, no run has fewer outgoing connections over a transport, unless it is aborted or a peer is this node |
| `ConnMan.ReconnectsAfterFailure` | elfo-network/src/connman.rs:209-277 | a failed outgoing connection is opened again under a new id to the same peer, exactly once it is time |
| `ConnMan.AbortedGoAway` | elfo-network/src/connman.rs:162-181 | after a transport is aborted and without news about it, only those of its connections are left that were not failed and did not report a failure, and they are all aborting |
| `ConnMan.ConnectionManager.Insert` | elfo-network/src/connman.rs:132-160 | a new entry under a fresh id |
| `ConnMan.ConnectionManager.AbortTransport` | elfo-network/src/connman.rs:162-181 | of the entries of the transport failed ones go, the others are aborting, and those that just began to are reported; entries of other transports stay |
| `ConnMan.ConnectionManager.ManageConnection` | elfo-network/src/connman.rs:209-238 | one entry opened, or its deadline |
| `ConnMan.ConnectionManager.ManageConnections` | elfo-network/src/connman.rs:187-207 | the loop does what `ManagesAll` says |
| `ConnMan.ConnectionManager.OnConnectionFailed` | elfo-network/src/connman.rs:244-277 | removed if aborting or incoming, otherwise failed with a deadline |
| `ConnMan.ConnectionManager.OnConnectionEstablished` | elfo-network/src/connman.rs:279-314 | unknown, rejected if to this node, otherwise established with the socket |
| `ConnMan.ConnectionManager.OnConnectionAccepted` | elfo-network/src/connman.rs:316-321 | accepted with the role |

## Left out

- tokio, slotmap, DashMap, arc-swap, the intrusive queue and the waker are atomic primitives: counters, maps, generators of fresh ids, a flag that is registered and consumed. That a semaphore refuses more permits than its maximum, and that reading a request id sets its version bit, is taken from their documentation.
- Waiting for a permit (`send`) is one event that happens when a permit is there; fairness and timing of waiters are not modelled.
- Clocks and deadlines are parameters of the events and methods.
- Requests.ResponseToken.Duplicate: tokens of remote requesters, which are copied without counting, are not modelled, nor are `forget` and `forgotten`.
- Requests.ResponseToken.Drop: the answer of a remote token through its handle is not modelled.
- Startup.NeverSpawnsUnconfiguredIff: that a restarted configurer first waits for an envelope is not modelled; a second `try_start` on the same topology can send it, and so can any actor that knows its address.
- `UnboundedSendGroupVisitor` is the try-send visitor without the full flag; it would add no new claim.
- The thread-local publication of a new dump shard is one event with its creation.
- Macro hygiene, spans and parsing of `msg!` are not modelled; patterns are the tree the macro inspects, and what names resolve to, which fields fit a struct and what guards say are parameters.
- The payload codec (MessagePack) is a parameter with the law that a serialized message is read back whatever follows it; names longer than 255 bytes, on which the encoder panics, are excluded.
- LZ4 framing, sockets, the discovery and worker actors, telemetry, HTTP, signals and file handling are not modelled.
- RateLimiter.RateBound: assumes no reset or reconfiguration in between, and a clock for which a period and a step still fit; how late it may be is exact in `RateBoundIff`.
- RateLimiter.InstantBound: assumes the same.
- RateLimiter.BurstIsExact: assumes the same of its one reading.
- RateLimiter.IsLeakyBucket: assumes the same.
- RateLimiter.PerSecond: assumes the same.
- MsgMacro.TypeChecksIff: assumes that types are named through modules, so that nothing inside a type is a type, and is about arms that name a type, a struct or a variant; lower-case names are taken for variables, as the macro does.
- Codec.ReaderRoundTrip: of frames that are not envelopes it is about those with nothing readable in them, whatever follows; `StreamRoundTrip` is about all.
- GroupRequest.SendRequest: is about the fan-out alone; that recipients answer meanwhile is covered by the runs of `Requests`.
- ConfigMerge.LookupLaw: is about values made of tables and scalars; lookups do not look through newtypes and options, merging does (`WrappersAreTransparent`). Table keys are strings, as in TOML.
- Registry.AddrRoundTrip: leaves out the XOR of the slot with the launch id, which undoes itself.
- Registry.LookupFindsLatest: handles are assumed not to be given out again before their guards are dropped completely.
- ConnMan: logging and the contents of socket information are not modelled; ids are never reused.
- Restart backoff, permissions, set differences and the handshake are not modelled; they would add only easy members.
