# kitp server protocols in Dafny

kitp's server holds a handful of small protocols and transformations whose
correctness depends on interleavings, on whole loops, or on two components
agreeing. This project models them and proves what they promise: for every run,
every schedule and every input, not for examples.

Each component that works by changing things is modelled the way it works: a
class with the fields the source keeps, methods with the source's branches, and
loops with invariants. Each such method is tied to a specification on values
(a transition function, a fold, a declarative description), and the properties
are lemmas about that specification. `dafny verify dfyconfig.toml` checks
everything.

| component | modules |
|---|---|
| Idempotency-Key protocol | `Idempotency` (transition system, invariant, theorems), `IdempotencyAnswers` (what may be stored), `IdempotencyAlone` (one request nobody interferes with), `IdempotencyStore` (the statements and `WrapAuthed` under any schedule) |
| Batch dispatcher | `Dispatch` (grouping), `DispatchBatch` (expansion to responses), `Dedup`, `DispatchGate` and `DispatchDedup` (repeated reads), `SqlFunc` (result rows), `Scope` (authorization from preloaded cards), `Unborn` (transition system of a batch among other transactions, theorems) and `UnbornServer` (the two checks a group under any schedule) |
| Content store and reaper | `CasProtocol` (transition system), `CasAlone` (one Put or reap nobody interferes with), `CasStore` (`Put` and `reapOne` under any schedule), `CasChain` (the backend chain), `Reaper`, `ReaperFate` and `ReaperPass` (one two-layer pass) |
| Named SQL parameters | `Named` (tokens), `NamedBuilder` (the cursor scanner), `NamedLaws` (round trip, numbering, failures), `NamedPlaces` (where slots are) |
| Rate limiter | `RateLimit` (values, bounds over runs), `RateWindow` (when a key keeps its bucket), `RateRefill` (balances, and when a key may come back), `Limiter` (map and list) |
| Activity feed | `Feed` (days and groups), `FeedLines`, `FeedRollup` (lines), `FeedRules` (where each row goes and what shows of it) |
| Smaller cores | `Ledger` (migrations over boots), `SchemaGen` (schemas of recursive types), `IsoDate` and `IsoDateLaws`, `CodeSpan` and `InlineText` (literal text in Markdown), `Trusted` and `TrustedRanges` (proxies) |
| Shared | `Prelude` (runs of a transition function), `DecimalDigits`, `TextOrder` |

Results worth reading first:

- **Idempotency.** In every run in which no claim is held longer than
  `claimStale`, the committed batches of a key are its lost answers plus at most
  one that is kept (`AtMostOneKept`); `BoundIsTight` shows `claimStale` is exactly
  the bound, because a claim taken over lets a second batch run. Crashes, failed
  statements, expiry and secret results are all in the model: they are what makes
  an answer "lost". `StoredIsClean` says what may be stored or replayed at all.
- **Content store.** `GraceIsTight`: an address `Put` returned stays stored for the
  grace period counted from when that `Put` began, less however long a statement
  may take effect after its own `now()`; no longer keep can be promised.
  `portal_build_file` and `theme_file` carry no foreign key, so `StoreIsSound`
  covers such a row only if it was written inside that time; `SoftIsTight` shows
  that not a tick more can be allowed. A reaper's check may read an older snapshot
  than the lock it takes.
- **Dispatcher.** `GroupingRefines` and `DispatchRefines`: one slice call a group
  gives the state, outputs and failing leaf of one call a leaf. `AllOrNothing`
  says what every slot holds. `DedupIsExact`: leaving a repeated read out cannot be
  told exactly when no write lies between; the source does not look.
  `DedupInvisible`: then whole batches are served alike or stop at the same
  sub-request with the same error, and only the repeats of that one tell.
  `LoadedIsEnough` and `AcceptedIsComplete` treat the scope walk and the row
  indices the same way.
  `DispatchTells` says when a batch is served and, if not, which sub-request is to
  blame and why; `DecisionIs` and `PrivateComesFirst` say who may act on a card.
- **Reaper.** `PassTells`: what a whole pass leaves, said of rows, their filters and
  the parents they point at.
- **Anchors.** `ChecksNeeded`: over all batches and all runs among other
  transactions, the check after a group's statement is what is needed while no card
  in view goes, the check before it while none comes, and both, as the server makes
  them, exactly while no card comes and goes between the two. A card that does is
  seen by neither: the one way left to read an anchor nobody authorized.
- **Named parameters.** `CompileRoundTrip`: reading the placeholders back gives the
  SQL that was compiled, if and only if that SQL had no placeholder of its own.
  `SlotLaw`: which colons are slots, by the literals, quoted identifiers, comments
  and casts around them.
- **Where the code and its documentation differ**, the model follows the code:
  a backend is documented not to have written anything when it reports an address
  missing, but the pg backend may have (`ReadIsExact`, `SpillRepeats`); a code span
  framed by spaces or with a line ending does not come back as written
  (`CodeRoundTrip`); an escaped line is documented to render as literal text, but
  entity references and pairs of "~~" keep their meaning (`EscapedReadsBack`,
  `NotAllReadsBack`).

## Model

| member | source | states |
|---|---|---|
| `Idempotency.AtMostOneKept` | server/internal/obs/idempotency.go:299-342 | over every run with claims held at most claimStale, a key's committed batches number its lost answers, plus one exactly when an answer is stored or on its way to the table |
| `Idempotency.ReplaysAgree` | server/internal/obs/idempotency.go:344-368 | under a key that lost no answer, any two replays anyone got are the one committed batch's body, and were asked for with that batch's request hash |
| `Idempotency.LaterAnswers` | server/internal/obs/idempotency.go:329-335 | while an answer is stored, every request under its key not decided before is answered with it, refused as a mismatch, or told a statement failed |
| `Idempotency.RunKeepsInv` | server/internal/obs/idempotency.go:311-342 | every step keeps: one holder a key, each holder owns the claim row, nothing runs under an answered key, every commit is lost, stored or on its way, every replay is backed by a commit |
| `Idempotency.TakeoverRunsTwice` | server/internal/obs/idempotency.go:294-297 | a claim held past claimStale yields a run with two commits under one key and no lost answer |
| `Idempotency.BoundIsTight` | server/internal/obs/idempotency.go:294-297 | a bound on how long claims are held keeps a key to one kept answer in all runs if and only if it is at most claimStale |
| `IdempotencyAnswers.HandlerStep` | server/internal/obs/idempotency.go:157-182 | of one handler's turn, field by field: the answer is stored next if and only if it is a 200 with a body whose sub-responses are all ok without an error and the body parsed with no secret call; the commit is recorded if and only if the sub-responses are; either way the requester gets the answer itself |
| `IdempotencyAnswers.StoredIsClean` | server/internal/obs/idempotency.go:167-175 | in every run, each stored answer and each replay anyone got is what one committed request under that key and hash got: no secret call, 200, a body, every sub-response ok without an error |
| `IdempotencyAnswers.StaysADay` | server/internal/obs/idempotency.go:56-67 | a stored answer is there, and the same, for 24 hours, whatever else happens |
| `IdempotencyAnswers.CleanupClears` | server/internal/obs/idempotency.go:56-67 | cleanup leaves no answer or claim older than 24 hours, and every claim that is not |
| `IdempotencyAlone.NewKeyAlone` | server/internal/obs/idempotency.go:112-184 | a request nobody interferes with, under a new key or a claim older than 15 minutes: it claims, runs, stores a clean answer, gives the claim up, and answers what the handler wrote |
| `IdempotencyAlone.AnsweredKeyAlone` | server/internal/obs/idempotency.go:344-368 | under an answered key: the stored body for the same hash, the mismatch for another, and nothing changes |
| `IdempotencyAlone.BusyKeyAlone` | server/internal/obs/idempotency.go:329-342 | under a key claimed in the last 15 minutes: in progress, and nothing changes |
| `IdempotencyAlone.FailsClosed` | server/internal/obs/idempotency.go:311-342 | a failed lookup or claim runs nothing: the request is told so, and a claim it may hold is dropped |
| `IdempotencyAlone.HandlerFails` | server/internal/obs/idempotency.go:157-166 | a handler that fails is answered with the error, stored nowhere, and its claim dropped next |
| `IdempotencyAlone.StoreMayFail` | server/internal/obs/idempotency.go:176-182 | storing is best effort: the answer given is the same whether it works, does nothing, or finds one there |
| `IdempotencyAlone.CrashLeaves` | server/internal/obs/idempotency.go:294-297 | a process that dies leaves the tables and its claim; only a running batch can have committed |
| `IdempotencyStore.BatchSucceeded` | server/internal/obs/idempotency.go:211-223 | true exactly when the envelope parses and every sub-response is OK without an error |
| `IdempotencyStore.BatchHasSecret` | server/internal/obs/idempotency.go:192-203 | true exactly when the body does not parse or some call's result is secret |
| `IdempotencyStore.World.Claim` | server/internal/obs/idempotency.go:388-407 | takes the claim exactly when there is none or it is stale, writing the current time |
| `IdempotencyStore.World.Store` | server/internal/obs/idempotency.go:446-461 | inserts the answer only where none is stored |
| `IdempotencyStore.World.Cleanup` | server/internal/obs/idempotency.go:56-67 | is the two expiry steps in turn: answers, then abandoned claims, past the retention |
| `IdempotencyStore.World.Replay` | server/internal/obs/idempotency.go:347-368 | one lookup step: the stored answer for the same hash, a mismatch, a failure, or on to the next statement |
| `IdempotencyStore.World.Begin` | server/internal/obs/idempotency.go:311-342 | whatever others do between its statements, a run of the machine that ends with the request running or answered |
| `IdempotencyStore.World.RunHandler` | server/internal/obs/idempotency.go:157-182 | one step, in the outcome's own fields: goes on to store if and only if 200, non-empty, every sub-response ok without an error, and no secret or unparsed call; the requester gets the answer either way |
| `IdempotencyStore.World.WrapAuthed` | server/internal/obs/idempotency.go:112-184 | a whole keyed request under any schedule of other requests, clock and cleanup is a run of the machine ending in the answer it returns: what the handler wrote if it ran, else a stored answer, a refusal or a failure |
| `CasProtocol.StoreIsSound` | server/internal/cas/reaper.go:297-375 | over every timely run a blob row exists exactly when its bytes do, bytes hash to their address, and no reference dangles: none with a foreign key, committed or pending, and none without one that was recorded while its Put was covered |
| `CasProtocol.ReturnedStays` | server/internal/cas/cas.go:151-189 | an address a Put returned is stored until the grace period from when the Put began, less the statement lag, is over |
| `CasProtocol.ReadsBack` | server/internal/cas/pg.go:97-106 | with an injective hash, what is stored under a Put's address is what was put |
| `CasProtocol.GraceIsTight` | server/internal/cas/reaper.go:43-45 | a returned address stays stored for `keep` in all timely runs if and only if keep is at most grace less lag |
| `CasProtocol.LateAddressDangles` | server/internal/cas/reaper.go:79-89 | an address without a foreign key, recorded one tick past the guarantee, points at nothing |
| `CasProtocol.SoftIsTight` | server/internal/cas/reaper.go:79-89 | rows without a foreign key recorded up to `slack` past the guarantee never dangle, in all timely runs, if and only if slack is at most 0 |
| `CasProtocol.RunKeepsInv` | server/internal/cas/reaper.go:341-374 | the inductive invariant of Puts, references and reaps: locks hold only rows older than their cutoff, pending references are never locked, young Puts keep their rows |
| `CasProtocol.ReapKeeps` | server/internal/cas/reaper.go:341-374 | removing a row keeps the invariant because it is older than its sweep's cutoff and nothing live or recorded points at it |
| `CasAlone.PutNew` | server/internal/cas/cas.go:155-189 | a Put of data the store lacks adds exactly its row, at the current time, and its bytes, and returns |
| `CasAlone.PutAgain` | server/internal/cas/cas.go:160-184 | a Put of data it has restarts exactly that row's clock, and returns |
| `CasAlone.PutAfterReap` | server/internal/cas/cas.go:163-189 | bytes that went between Has and Touch are stored again |
| `CasAlone.PutFails` | server/internal/cas/cas.go:155-189 | a failed statement fails the Put, having had its whole effect or none |
| `CasAlone.ReapAlone` | server/internal/cas/reaper.go:304-375 | left alone, a reap removes an address if and only if its row is older than the cutoff, no live foreign-key row and no row without a foreign key refers to it, nobody holds it and no transaction is about to refer to it: the row, its bytes and the dead references, nothing else |
| `CasAlone.FinishTells` | server/internal/cas/reaper.go:350-374 | what a reaper holds goes if and only if its transaction commits and no live row came to refer to it; the lock is given up either way |
| `CasStore.Database.Put` | server/internal/cas/cas.go:155-189 | Has, then Touch, then the insert when the bytes were not there or went in between; under any schedule a run of the machine that returns the address exactly when it ends Returned |
| `CasStore.Database.TouchExisting` | server/internal/cas/cas.go:165-184 | the touch as its own statement: found, gone (store again), or failed while waiting on a reaper's lock |
| `CasStore.Database.InsertBlob` | server/internal/cas/pg.go:62-95 | row and bytes are each added only where absent |
| `CasStore.Database.Touch` | server/internal/cas/pg.go:156-168 | restarts the row's clock if it is there and says whether it was |
| `CasStore.Database.ReapOne` | server/internal/cas/reaper.go:304-375 | look, lock, delete under any schedule is a run of the machine; true means row and bytes are gone |
| `CasStore.Database.Lock` | server/internal/cas/reaper.go:341-349 | locks exactly when the row is there, still older than the cutoff, and nobody holds it |
| `CasStore.Database.Finish` | server/internal/cas/reaper.go:350-374 | deletes exactly when it commits and no live foreign key points at the row |
| `CasChain.ReadOne` | server/internal/cas/pg.go:107-135 | writes the chunks before the first it lacks, in order, and reports how it ended |
| `CasChain.GetAll` | server/internal/cas/cas.go:105-126 | the first backend not ending in NotFound decides the result, and everything the ones before wrote stays written |
| `CasChain.StopsAtFirst` | server/internal/cas/pg.go:107-135 | a read goes on to the first address that is unreadable or missing and says which it was; it works if and only if there is none |
| `CasChain.ReadIsExact` | server/internal/cas/cas.go:58-62 | an answered read gives exactly the bytes asked for if and only if no backend asked before had a non-empty chunk to write first |
| `CasChain.OneChunkIsExact` | server/internal/cas/cas.go:54-56 | a read of a single address the chain answers is always exact |
| `CasChain.SpillRepeats` | server/internal/cas/cas.go:113-124 | two backends, a read without an error, and the first chunk twice |
| `Reaper.ReapIsNeverRefused` | server/internal/cas/reaper.go:26-41 | once a parent is unused and its not-true references are deleted, no foreign key refuses its delete, whatever the filters say of NULL |
| `Reaper.UsesSurvive` | server/internal/cas/reaper.go:29-41 | removing any orphans of a layer, with what goes with them, changes no other parent's use |
| `Reaper.PassSurvivors` | server/internal/cas/reaper.go:21-27 | after a pass the files left are the young, the used and the stuck, and the blobs left the young, the stuck and those used by a row that is no chunk of a removed file (`ReaperFate.PassTells` says what used means) |
| `Reaper.OnePassSuffices` | server/internal/cas/reaper.go:101-107 | a second pass over what the first left finds only parents whose reap fails |
| `Reaper.DefaultsFit` | server/internal/cas/reaper.go:72-89 | the schema's keys and the default consumer lists meet the conditions the sweep lemmas ask for |
| `ReaperFate.PassTells` | server/internal/cas/reaper.go:21-41 | a pass, said of rows: a parent stays if and only if it is young, stuck, or pointed at by a row of its layer's consumers without a filter or with its filter true, that row itself being no chunk of a removed file; a row stays if and only if it is no reference, with its filter not true, to a removed parent, and no part of one |
| `ReaperFate.LiveStays` | server/internal/cas/reaper.go:377-390 | a row in live use keeps its parent and stays, unless it is a chunk of a removed file |
| `ReaperPass.AllConsumers` | server/internal/cas/reaper.go:201-262 | the configured consumers, then every non-cascading key into the layer they do not name, unfiltered |
| `ReaperPass.Database.FindOrphans` | server/internal/cas/reaper.go:266-295 | lists each unused parent older than the cutoff once, and nothing else |
| `ReaperPass.Database.ReapOne` | server/internal/cas/reaper.go:304-375 | removes an orphan with exactly the rows that point at it through a filter that is not true and its own parts, or changes nothing |
| `ReaperPass.Database.Sweep` | server/internal/cas/reaper.go:149-195 | removes every orphan whose reap does not fail, and counts both kinds exactly |
| `ReaperPass.Database.RunOnce` | server/internal/cas/reaper.go:101-107 | files then blobs, with the effect on every row and parent that `ReaperFate.PassTells` states; when nothing failed no orphan of either layer is left |
| `Dispatch.GroupingRefines` | server/internal/api/api.go:705-720 | for slice calls that do what their inputs would do one by one, running group by group gives the state, outputs and failing leaf of running leaf by leaf |
| `Dispatch.GroupIsAlone` | server/internal/api/api.go:649-664 | one slice call over a group equals its leaves run alone in order |
| `DispatchBatch.DispatchRefines` | server/internal/api/api.go:540-729 | the verdict on a batch, checks and transaction included, is the same whether its leaves are grouped or not |
| `DispatchBatch.AllOrNothing` | server/internal/api/api.go:1083-1105 | served: every slot OK under its own id with its leader's last output; stopped: the offender, which is no repeat, and its repeats carry the error, all others are aborted |
| `DispatchBatch.JudgeIsSound` | server/internal/api/api.go:540-604 | whichever check stops a batch, the slot it blames is one of a sub-request that ran |
| `DispatchBatch.ExpandedCovers` | server/internal/api/api.go:804-847 | expansion keeps submission order and gives each sub-request that runs exactly one last leaf |
| `DispatchBatch.ExpandTells` | server/internal/api/api.go:804-847 | one sub-request becomes its steps in order if and only if its name is known and every step is known and let through by its decode and authorization hooks; else it fails with the first such step's error |
| `DispatchBatch.EveryStep` | server/internal/api/api.go:804-847 | in an expanded batch all steps of each sub-request that runs stand together, in order, and nowhere else |
| `DispatchBatch.ExtraTells` | server/internal/api/api.go:560-575 | a batch breaks the once-a-batch rule exactly where some leaf of such a handler follows one of another sub-request, and the first such leaf is blamed |
| `DispatchBatch.DispatchTells` | server/internal/api/api.go:540-729 | a batch is served if and only if every sub-request can run, no once-a-batch leaf comes twice, the gate refuses no leaf, and begin, every slice call and commit work; else the first of these to fail decides who is blamed and for what |
| `DispatchBatch.Dispatcher.ExpandOne` | server/internal/api/api.go:804-847 | a handler is one leaf, a process its steps in order, the last marked, if and only if each is known and not refused; else the error of the first that is not |
| `DispatchBatch.Dispatcher.FindExtra` | server/internal/api/api.go:560-575 | the first leaf of a once-a-batch handler whose sub-request differs from an earlier one's |
| `DispatchBatch.Dispatcher.Abort` | server/internal/api/api.go:1094-1105 | overwrites every slot, filled or not: the error on the offender, aborted elsewhere |
| `DispatchBatch.Dispatcher.Flush` | server/internal/api/api.go:621-703 | one slice call: fills the last leaves' slots, or aborts blaming the input named (the first when none is) and keeps the state |
| `DispatchBatch.Dispatcher.RunGroups` | server/internal/api/api.go:705-720 | the accumulating loop runs exactly the maximal groups of adjacent leaves of one handler |
| `DispatchBatch.Dispatcher.Mirror` | server/internal/api/api.go:511-518 | each repeat's slot is its leader's under its own id, all others untouched |
| `DispatchBatch.Dispatcher.Dispatch` | server/internal/api/api.go:491-729 | responses and database are those of the batch's verdict, served or blamed as `DispatchTells` states; a stopped batch leaves the database as it was |
| `Dedup.DedupReads` | server/internal/api/api.go:775-797 | maps exactly the later of two sub-requests that ask for one eligible read with the same data, each to the first of its kind, which is itself no repeat |
| `Dedup.KeysTellReadsApart` | server/internal/api/api.go:786 | with names free of the separator, two sub-requests have one key if and only if endpoint, action and data are the same |
| `Dedup.DedupIsExact` | server/internal/api/api.go:503-509 | a repeat answers what its leader answers under all handlers whose reads are pure, if and only if only reads lie between |
| `DispatchDedup.DedupInvisible` | server/internal/api/api.go:503-518 | with no write between a read and its repeat, a batch is served with the shortcut exactly when it is without, in one state with equal slots; stopped, both blame one sub-request for one error, and a slot differs exactly if it repeats that one (unless the error is the aborted one) |
| `DispatchDedup.RunsAlike` | server/internal/api/api.go:545-547 | after any number of sub-requests the run without repeats and the full one have both worked, in one state with one answer a sub-request, or both stopped at a leaf of the same sub-request with the same error |
| `DispatchGate.SameStops` | server/internal/api/api.go:540-592 | expansion, the once-a-batch rule, the role gate and the authorization pass stop a batch at the same sub-request for the same reason whether or not its repeats are among the leaves |
| `DispatchGate.PassedIs` | server/internal/api/api.go:576-592 | of passes that judge leaf by leaf the first that refuses any leaf decides, by the first leaf it refuses |
| `SqlFunc.ReadRows` | server/internal/api/sqlfunc.go:86-134 | accepts exactly n rows all in range, ok and decodable; otherwise the first bad row is the failure, as itself when it is in range and refuses, else as a protocol error |
| `SqlFunc.AcceptedIsComplete` | server/internal/api/sqlfunc.go:125-134 | an accepted group has an output in every slot if and only if no index came twice, and then each slot holds its own row's result |
| `SqlFunc.DistinctFills` | server/internal/api/sqlfunc.go:131-134 | n rows in range cover n slots exactly when their indices are distinct |
| `Scope.ResolveTargetProject` | server/internal/api/authz.go:109-125 | the nearest project on the chain within sixteen cards, else 0 |
| `Scope.PrivateOwner` | server/internal/api/authz.go:88-104 | the owner of the nearest private card on the chain within sixteen cards |
| `Scope.WalkIsNearest` | server/internal/api/authz.go:106-125 | a walk finds a card if and only if it matches, is within reach, and nothing nearer on the chain does, cycles or not |
| `Scope.Preload` | server/internal/api/authz.go:158-207 | loads exactly the seeds and their ancestors up to sixteen levels |
| `Scope.LoadedIsEnough` | server/internal/api/authz.go:158-166 | from every loaded start both walks answer over the loaded cards what they answer over the whole table |
| `Scope.WalkIsPath` | server/internal/api/authz.go:88-125 | a walk is the path up from card to parent, to its first hit, if that path has no more cards than the walk may take |
| `Scope.GrantTells` | server/internal/api/authz.go:286-336 | a gated leaf is granted if and only if it has no card type, its process is not seeded, or a grant of its type and process is global or scoped to the nearest project within sixteen cards |
| `Scope.DecisionIs` | server/internal/api/authz.go:549-593 | for all cards, leaves, grants and persons: who may run a leaf and for which reason it is refused otherwise, over the nearest private card and the nearest project above the card it names |
| `Scope.PrivateComesFirst` | server/internal/api/authz.go:540-593 | under a card private to someone else nothing is allowed, whatever the grants; under one's own it is allowed if and only if the handler is an owner's or a grant covers it |
| `Scope.AuthorizeLeaf` | server/internal/api/authz.go:286-336 | allows exactly ungated leaves and those some global or in-scope grant of the right type and process covers |
| `Scope.CheckPrivate` | server/internal/api/authz.go:549-593 | someone else's private chain is refused, one's own passes only for the owner's handlers, anything else goes on to the grants, all said of the nearest private card |
| `Scope.RunAuthzPass` | server/internal/api/api.go:906-1039 | the first leaf that may not run (`DecisionIs`), its verdict, and the anchors without a card noted up to it, are those of the whole card table although only preloaded cards are read |
| `Unborn.CheckUnborn` | server/internal/api/authz.go:497-534 | the first leaf of a group whose unchecked anchor has a card now |
| `Unborn.ChecksNeeded` | server/internal/api/authz.go:486-496 | over all batches and runs with others adding, changing and deleting cards at any moment, a committed batch read gated anchors only where it was authorized on them if and only if the checks made are those the traffic calls for: after while none goes, before while none comes, both while none comes and goes, and none suffices beyond |
| `Unborn.CommittedIsAuthorized` | server/internal/api/api.go:636-664 | in any such run every gated anchor a committed batch read was in the snapshot it was authorized on, and allowed there |
| `Unborn.RunKeepsInv` | server/internal/api/sqlfunc.go:147-155 | every step keeps: only the running group has read an unchecked anchor, and such a card is still where its check after looks |
| `UnbornServer.Server.Authorize` | server/internal/api/api.go:1001-1039 | one step: goes on if and only if every leaf may run on the snapshot it takes, and notes every leaf's unchecked anchor |
| `UnbornServer.Server.Check` | server/internal/api/authz.go:497-534 | finds a card born exactly when some leaf of the group aims unchecked at an id now in view |
| `UnbornServer.Server.RunGroup` | server/internal/api/api.go:636-675 | check, statement, check again under any schedule is a run of the machine; any failure ends rolled back |
| `UnbornServer.Server.RunBatch` | server/internal/api/api.go:585-729 | a whole batch under any schedule is a run of the machine ending as it says, and safe unless a card came and went inside a group |
| `NamedBuilder.Builder.Compile` | server/internal/named/named.go:90-229 | one pass returns what the text's tokens compile to, and with each number its bound value; it works if and only if every slot (`NamedPlaces.SlotLaw`) is bound and no dollar quote opens |
| `NamedBuilder.Builder.Set` | server/internal/named/named.go:63-69 | binds the name, overwriting, and returns its slot |
| `NamedBuilder.Builder.Bind` | server/internal/named/named.go:75-80 | binds under a new counted name and returns its slot |
| `NamedBuilder.CopyLiteral` | server/internal/named/named.go:103-121 | copies a string literal whole, doubled quotes inside it |
| `NamedBuilder.CopyBlock` | server/internal/named/named.go:151-168 | copies a block comment whole, to its end or the text's |
| `NamedBuilder.IsDollarQuoteOpener` | server/internal/named/named.go:253-265 | true exactly for a dollar quote opener, tagged or not |
| `NamedLaws.TokensCover` | server/internal/named/named.go:97-222 | the tokens put together are the text |
| `NamedLaws.FailsAtFirstBad` | server/internal/named/named.go:180-210 | compiling fails if and only if some token is an unbound slot or a dollar quote opener, and blames the first |
| `NamedLaws.OrderIsByFirstAppearance` | server/internal/named/named.go:205-214 | the arguments' names are the slots' names, each once, earlier first appearance first |
| `NamedLaws.CompileRenders` | server/internal/named/named.go:200-218 | what comes out is the tokens with each slot replaced by its name's number and everything else verbatim |
| `NamedLaws.CompileRoundTrip` | server/internal/named/named.go:82-90 | reading each number back as its name restores the SQL if and only if the SQL referred to none of the numbers itself |
| `NamedLaws.BindNames` | server/internal/named/named.go:75-80 | generated names are identifiers and never collide with each other |
| `NamedPlaces.UnitIs` | server/internal/named/named.go:97-222 | what stands at a position is exactly one of a literal, a quoted identifier, a line or block comment, a cast, a slot or a plain character, each given by its delimiters, and its length is what is read |
| `NamedPlaces.SlotsAre` | server/internal/named/named.go:199-218 | a slot of that name starts at i if and only if reading comes to i, a colon with that longest identifier behind it |
| `NamedPlaces.SlotLaw` | server/internal/named/named.go:90-229 | a colon with an identifier start behind it is a slot if and only if it is inside no literal, quoted identifier or comment and is not the second colon of a cast |
| `NamedPlaces.DollarsAre` | server/internal/named/named.go:170-187 | a dollar quote is refused exactly where reading comes to its opener |
| `NamedPlaces.CompilesExactly` | server/internal/named/named.go:180-210 | compiling works if and only if every slot so placed is bound and no dollar quote opens |
| `RateLimit.RunIsSound` | server/internal/netx/ratelimit.go:48-112 | over any orderly run there is one bucket a key, at most max(1, maxKeys) of them, every balance within the burst either way |
| `RateLimit.KeepsMostRecent` | server/internal/netx/ratelimit.go:86-103 | the buckets kept are those of the keys used last, most recent first |
| `RateLimit.WindowBound` | server/internal/netx/ratelimit.go:46-57 | over any stretch in which a key stays resident, the cost let through is at most the burst plus what the stretch earned |
| `RateWindow.KeptExactly` | server/internal/netx/ratelimit.go:86-103 | after any run a key has a bucket if and only if it was used and fewer other keys than there is room for have been used since |
| `RateWindow.FrequentWindow` | server/internal/netx/ratelimit.go:46-57 | so over any stretch of any run in which fewer other keys than there is room for come between a key's uses, the cost let through is at most the burst plus what was earned |
| `RateLimit.SteadyRate` | server/internal/netx/ratelimit.go:33-43 | the limiter's own rate is a valid one and earns rate times elapsed time |
| `RateLimit.EvictionRefills` | server/internal/netx/ratelimit.go:93-102 | without residency the bound fails: an evicted key comes back full at the same instant |
| `RateLimit.ThrottledIsPure` | server/internal/netx/ratelimit.go:71-84 | listing throttled keys, which refills in steps, changes no later decision |
| `RateRefill.OwnBucket` | server/internal/netx/ratelimit.go:46-69 | a call for a key with a bucket: it holds what it held and earned since, at most the burst; lets through exactly costs it holds and takes them, charges down to minus the burst; the other buckets stay in order |
| `RateRefill.NewBucket` | server/internal/netx/ratelimit.go:86-103 | a call for a key without one: a full bucket in front, and of the others the last used that fit, so at most max(1, maxKeys) |
| `RateRefill.ComesBack` | server/internal/netx/ratelimit.go:105-112 | while only other keys are used and it keeps its bucket, a key is let through exactly from when rate times the time since its last use makes up what is missing |
| `RateRefill.WaitsCostOverRate` | server/internal/netx/ratelimit.go:105-112 | a spent key may make a call of that cost again after cost / rate and not before |
| `RateRefill.ListedAreRefused` | server/internal/netx/ratelimit.go:71-86 | the keys listed as throttled are, once each, those with a bucket whose next request at the price of one would be refused |
| `RateRefill.AnswersAre` | server/internal/netx/ratelimit.go:46-57 | the answers compared there are one for each call that asks, as the buckets were at its moment |
| `Limiter.Limiter.Allow` | server/internal/netx/ratelimit.go:48-57 | map and list still agree, and they hold and answer what the specification's call does |
| `Limiter.Limiter.Charge` | server/internal/netx/ratelimit.go:61-69 | the same for a charge, floored at minus the burst |
| `Limiter.Limiter.Throttled` | server/internal/netx/ratelimit.go:72-86 | refills every bucket where it is and lists, sorted, the keys of those below one token |
| `TextOrder.SortedIsSorted` | server/internal/netx/ratelimit.go:84 | sorting gives the same texts, in order |
| `Limiter.Limiter.Use` | server/internal/netx/ratelimit.go:86-103 | the key's bucket, refilled or new and full, at the front, the least recently used making room |
| `Feed.BuildFeed` | web/src/activity/activity-model.ts:212-251 | no row lost or reordered; each group is one card without a long gap, neighbouring groups of a day could not be one, neighbouring days differ, counts are right |
| `Feed.FeedPlainly` | web/src/activity/activity-model.ts:212-251 | rows next to each other in a group are of one card and at most three hours apart; between neighbouring groups of a day the card changes or more than three hours pass; a group's ends and a day's rows are what they say |
| `FeedRollup.BuildLines` | web/src/activity/activity-model.ts:382-505 | the loop over newest-first rows gives the lines of the roll-up oldest first, less the tag lines that came to nothing |
| `FeedRollup.LinesSay` | web/src/activity/activity-model.ts:13-24 | for any rows every line says what its rows were: attribute and tag lines as below, a creation its details and first excerpt, a comment its last text and number of edits, each its caption, moment and actors |
| `FeedRollup.EveryRowOnce` | web/src/activity/activity-model.ts:404-502 | each row is hidden, absorbed by a creation, folded into a comment, or counted in exactly one line |
| `FeedRollup.AttributeLine` | web/src/activity/activity-model.ts:450-466 | an attribute line says first old, last new, how many rows, and whether a long text was among them |
| `FeedRollup.OneLineEach` | web/src/activity/activity-model.ts:429-466 | one line an attribute of a card, one tag line a card |
| `FeedRollup.TagLine` | web/src/activity/activity-model.ts:439-447 | over a consistent history added is final minus initial, removed initial minus final, disjoint, and the line is dropped exactly when nothing changed |
| `FeedRollup.NetIsDifference` | web/src/activity/activity-model.ts:440-445 | the netting fold computes both set differences |
| `FeedRollup.StepKeeps` | web/src/activity/activity-model.ts:408-501 | every kind of row keeps the lines saying what their rows were, and the maps naming the right line |
| `FeedRules.FateIs` | web/src/activity/activity-model.ts:404-487 | a row is left out if and only if hidden; joins its card's creation if and only if it has the moment and actor of the last creation before it; is folded if and only if it edits a comment before it, into that comment's line |
| `FeedRules.SharesALine` | web/src/activity/activity-model.ts:429-466 | two counted rows are in one line if and only if they change the same attribute of a card, or the same card's tags |
| `FeedRules.CreationShows` | web/src/activity/activity-model.ts:418-428 | a creation shows, of the rows that joined it, the short values in order and the first long text; names, empty values and structures not |
| `FeedRules.CommentShows` | web/src/activity/activity-model.ts:468-498 | a comment shows the last text there is, how often it was edited, the moment of the last edit, and everyone who wrote, once each in order |
| `FeedRules.ChangeShows` | web/src/activity/activity-model.ts:432-464 | an attribute or tag line names everyone who changed it, once each in order, and the last moment |
| `FeedRules.FilterIs` | web/src/activity/activity-model.ts:503-505 | of the lines exactly the tag lines with nothing added or removed go, the others stay in order |
| `Ledger.BootAll` | server/internal/store/migrate.go:130-150 | over any boots of builds of one append-only list, failing anywhere, a commit reported as failed after it took effect included, the ledger is the baseline and a prefix of the list, and the log those migrations once, in order, behind the seed |
| `Ledger.Database.ApplySchema` | server/internal/store/migrate.go:48-173 | a boot takes effect whole, bringing the ledger to the longer of what it had and what the build knows, or leaves everything as it was; one that works takes effect, and of those that fail only one whose commit was made but not reported |
| `Ledger.Database.Baseline` | server/internal/store/migrate.go:98-121 | seeds only an empty, unrecorded database, adopts a populated one, and records either |
| `Ledger.CourseOfBoots` | server/internal/store/migrate.go:22-29 | the ledger reaches as far as the longest list of a boot that took effect, and the seed ran if and only if the database was empty and the first boot that took effect had one |
| `SchemaGen.Builder.BuildSchema` | server/internal/mcp/schema.go:228-311 | terminates, restores the set of structs under way, and returns the schema for that set |
| `SchemaGen.Builder.BuildStruct` | server/internal/mcp/schema.go:313-347 | one property a JSON name (the later field of two), and the required names in field order |
| `SchemaGen.SchemaFollowsTypes` | server/internal/mcp/schema.go:225-311 | the schema has a place for exactly the steps the types allow, and there the schema of the type there inside the structs passed |
| `SchemaGen.PropertiesAre` | server/internal/mcp/schema.go:313-347 | a struct's schema has a property for each JSON name and no other, from the last field of that name: a string when it is a number sent as text, else what its type gives inside the struct |
| `SchemaGen.RequiredAre` | server/internal/mcp/schema.go:339-344 | the required names are those of the fields on the wire that ask for it, in order |
| `SchemaGen.OpaqueIffAncestor` | server/internal/mcp/schema.go:291-307 | a struct is left opaque if and only if it is its own ancestor on the way down |
| `IsoDate.ParseDate` | server/internal/isodate/isodate.go:30-39 | accepts exactly ten-character dates that name a real day from year 1 |
| `IsoDate.TextSortsDays` | server/internal/isodate/isodate.go:1-7 | for any two accepted strings text order, calendar order and day-number order are one |
| `IsoDate.CalendarOrderIsDayOrder` | server/internal/isodate/isodate.go:4-6 | earlier in the calendar means fewer days since the start, leap years included |
| `IsoDate.TimestampShape` | server/internal/isodate/isodate.go:62-89 | accepts exactly a valid date, T, a time, one to nine fraction digits or none, and Z or an offset up to 15:59 |
| `IsoDateLaws.DayNumberCounts` | server/internal/isodate/isodate.go:4-6 | the day numbers, and with them the month lengths, agree with the usual count of days in years that begin in March |
| `IsoDateLaws.MonthTable` | server/internal/isodate/isodate.go:30-39 | the twelve month lengths, February by the Gregorian rule |
| `IsoDateLaws.DatesAreWritten` | server/internal/isodate/isodate.go:30-39 | a date is accepted if and only if it is four, two and two digits with dashes that name a real day |
| `IsoDateLaws.StampsAreWritten` | server/internal/isodate/isodate.go:62-89 | a timestamp is accepted if and only if it is such a date, T or t, hh:mm:ss, perhaps a point and one to nine digits, and Z, z or a signed offset up to 15:59 |
| `CodeSpan.LongestRun` | server/internal/mailmd/mailmd.go:565-578 | the loop computes the longest run of backticks |
| `CodeSpan.LongestIsMax` | server/internal/mailmd/mailmd.go:564-578 | some run is that long and none is longer |
| `CodeSpan.SpanIsWhole` | server/internal/mailmd/mailmd.go:549-562 | by section 6.1 of CommonMark the output is one code span to its end, holding the padded text |
| `CodeSpan.CodeRoundTrip` | server/internal/mailmd/mailmd.go:549-562 | the reader gets the text back if and only if it has no line ending ("\n", "\r" or both) and no NUL and is not framed by spaces |
| `CodeSpan.NothingInsideEnds` | server/internal/mailmd/mailmd.go:538-547 | by section 4.5 no stretch of the content ends its fence, and the fence does |
| `CodeSpan.NoLongerThanNeeded` | server/internal/mailmd/mailmd.go:538-562 | no delimiter is longer than it must be: a fence is three backticks or one more than some run inside, a code span's one more than some run, with a space only next to a backtick |
| `CodeSpan.EscapeRoundTrip` | server/internal/mailmd/mailmd.go:146-158 | by section 2.4 backslash unescaping undoes the inline escaping for every text |
| `CodeSpan.EscapeOne` | server/internal/mailmd/mailmd.go:150-158 | exactly the seven characters with inline meaning get a backslash (and `EscapeJoins`: character by character) |
| `InlineText.EscapedReadsBack` | server/internal/mailmd/mailmd.go:146-163 | by the inline rules of the renderer (web/src/editor/markdown.ts:31-33) the escaped text reads back literally if and only if the text has no line ending or NUL, no entity reference, and no run of two or more tildes that can open before one that can close |
| `InlineText.NotAllReadsBack` | server/internal/mailmd/mailmd.go:150-158 | an escaped `&lt;` and an escaped `~~a~~` do not read as written |
| `Trusted.ParseTrusted` | server/internal/netx/trusted.go:67-96 | the default for no entries; else every entry's masked range if and only if each lies inside a private range |
| `Trusted.TrustedIsPrivate` | server/internal/netx/trusted.go:62-66 | every address any accepted configuration trusts is in a private range |
| `Trusted.ClientIP` | server/internal/netx/trusted.go:147-174 | the peer, or for a trusted peer the first untrusted hop from the right, or the last trusted one before an unreadable hop or the end |
| `Trusted.HeaderIsBelievedSoFar` | server/internal/netx/trusted.go:142-146 | hops put in front never change the answer if and only if some hop there is untrusted or unreadable |
| `TrustedRanges.ListsHold` | server/internal/netx/trusted.go:16-42 | in octets: which addresses the built-in private ranges hold, and that the default leaves out carrier-grade NAT |
| `TrustedRanges.AcceptableIs` | server/internal/netx/trusted.go:67-96 | an entry is accepted if and only if it reads as a range all of whose addresses are in one of the seven private ranges, given in octets |
| `TrustedRanges.InsideIs` | server/internal/netx/trusted.go:81-93 | a range passes as inside another if and only if all its addresses are in it |

## Left out

- Postgres, its drivers and SQL function bodies: a statement is one atomic step, a transaction an atomic step or, where locks matter, a few.
- SHA-256, JSON and time parsing: uninterpreted; addresses are injective only where a lemma says so.
- The idempotency middleware for plain http handlers: it differs from `WrapAuthed` only in whose id it uses and in its error bodies.
- Idempotency.AtMostOneKept: counts an answer as lost when a statement failed, a process died, the row expired, or the result may not be kept; a batch is then free to run again, as in the source.
- Idempotency.ReplaysAgree: an answer passes through a jsonb column (idempotency.go:428, 454), so what is replayed is the same JSON value, not the same characters.
- CasProtocol.ReturnedStays: one pg backend and one clock; with more backends `Put` also touches the others, which is not modelled.
- CasProtocol.StoreIsSound: the metadata and bytes inserts of one Put are one step, as one transaction makes them.
- CasChain.GetAll: a failing write to the client ends the call in the source and is not modelled.
- ReaperPass.Database.Sweep: the catalog query, the context's cancellation between rows and logging; conditions on the consumer lists are stated (`Fits`) and shown of the defaults.
- Idle timeouts, per-group deadlines and the batch budget of the dispatcher: a group past them is a slice call that fails.
- DispatchBatch.Dispatcher.Dispatch: role gate and authorization pass are one function of the leaves that may blame one of them; `Scope` models the second. Bundle sources and areas are not modelled. The anchor checks inside a group are in `Unborn`, and count here as part of the slice call.
- DispatchDedup.DedupInvisible: about gates that judge leaf by leaf and once-a-batch handlers that are no reads, as all of the server's are; where a write lies between, `DedupIsExact` says what can be told.
- Unborn.ChecksNeeded: of row locks only that others wait for the rows this transaction wrote or deleted; a deadlock or a timeout is a rollback. What a handler reads besides its leaves' anchors is its own to check.
- Scope.Preload: the two queries see one state of the card table.
- SqlFunc.ReadRows: the PreRun and PostRun hooks and the mapping of database errors.
- NamedBuilder.Builder.Set: the panic on a bad name is a precondition; text is characters, not bytes.
- RateLimit.WindowBound: time and tokens are exact reals; what accrues is any non-decreasing function of time, and the limiter's steady rate is one.
- Feed.BuildFeed: day labels, titles and the actors of a group.
- FeedRollup.BuildLines: how values, subjects and event labels are displayed; a row carries them. The order of a tag line's names and the "(edited)" mark are kept as sets and a count.
- Ledger.BootAll: feature bundles, demo fixtures and the idempotent DDL, which run on every boot; a failure in them is a failure of the transaction.
- SchemaGen.Builder.BuildSchema: descriptions, enums, formats and bounds are passed through and not modelled.
- IsoDate.TimestampShape: the ranges of hours, minutes and seconds, which the later parse checks.
- CodeSpan.EscapeRoundTrip: the block-level escapes at the start of a line and the tree renderers.
- CodeSpan.SpanIsWhole: the inline reading; a blank line in the text ends the paragraph first.
- InlineText.EscapedReadsBack: characters that could start a code span, emphasis, a link or a tag count as doing so when they are bare; which names are entities and which characters are space or punctuation is a parameter.
- Trusted.ParseTrusted: splitting and parsing the text of the entries, and IPv6 zones.
- HTTP routing, compression, sessions, OIDC, mail transport and the web interface's drawing: plumbing without a protocol of its own.
- Bundle reconciliation: its substance is SQL that is not part of this model.
