# Verified model of Eywa's storage and provider cores

Eywa is a Go engine for conversational agents. This project models, in Dafny, the parts of it
whose correctness rests on interleavings, on invariants of stored data or on loops that rebuild a
transcript, and proves what those parts promise.

| files | what they model |
|---|---|
| `TtlStore`, `Redis` | the Redis commands the repositories issue, with expiry against a clock |
| `BondTable`, `BondManager` | `redis/bond.go`: one instance of the distributed lock provider as a class over its map of entry objects |
| `BondProtocol` | any number of instances and calls on one Redis, one event per block under `mu` or Redis command |
| `BondSequential` | a call that runs alone has, event by event, the effect the class's contract states |
| `BondOwnership` | who can touch a lock and an entry, with no assumption on callers |
| `BondExclusion`, `BondPromise` | mutual exclusion by the deadline Redis has, and by the one a caller can know |
| `BondExpiry`, `BondTracking`, `BondRelease` | local expiry against Redis expiry, when a release finds its entry, and what a release does among other calls |
| `BondScenarios` | concrete runs showing what the assumptions of those results are there for |
| `SpiritStore`, `SpiritProtocol`, `SpiritRepository` | `mongo/spirit_repository.go`: the collection, overlapping calls command by command, and the repository itself as a class |
| `LoreFilter`, `StringOrder`, `PgVector`, `Pinecone` | a LoreFilter compiled to a WHERE clause with numbered placeholders and to a nested metadata filter, and what each accepts |
| `VectorLiteral` | the vector literal printed and parsed |
| `Gemini`, `Ollama` | a transcript split into chat history and sent parts; a chunk stream against the one-shot parse |
| `Luhn` | the mod-10 check of Annex B of ISO/IEC 7812-1 |
| `Vigil`, `Idempotency` | the operator's seat on a session, and duplicate suppression, on the same TTL store |

## How runs are modelled

A run is any sequence of events; an event whose call is not at that step changes nothing. So a lemma
about every sequence of events is a lemma about every interleaving. The clock moves by `Tick` events of
any length. Every Redis command of a lock call meets a fate: answered, never arrived, or carried out with
its answer lost. Of the lock library only this is assumed: a fresh value per lock, SET NX with an expiry,
delete and expire guarded by the value, and one pool; a failed acquire that had written may or may not be
undone afterwards. Redis and the instances read one clock. Lock durations are positive.

A critical section in `BondExclusion` opens when its SET NX takes effect, before `AcquireLock` returns,
and closes when its caller releases the lock or leaves. Each caller releases and extends only its own
lock. Two deadlines are told apart. Redis has a lease: the ttl from the SET NX or from the last extend
that took effect. A caller has a promise: the ttl from its SET NX or from its last extend that
`ExtendLock` reported as successful. `BondPromise` proves mutual exclusion for callers that keep to
their promise and are careful with extends: no extend asks for less than is promised, and no two
extends of one section are on their way at once. Ownership is per instance and key, not per caller.

## What was found to fail, and when exactly

- A release by a caller that never acquired the lock, on the instance that holds it, breaks mutual
  exclusion (`ForeignReleaseBreaksExclusion`), and so does overstaying (`OverstayBreaksExclusion`).
- Keeping to the promise is not enough without that care: a shorter extend whose answer was lost, or one
  of two overlapping extends that takes effect last and whose answer was lost, lets a second section open
  inside the first (`LostExtendBreaksPromise`). `ExclusionIff` gives the exact steps.
- A reap forgets a lock Redis still holds inside an extend's window, after an extend whose answer was
  lost, and after two overlapping extends of which the one that asked for less writes its expiry last
  (`ReapForgetsLiveLock`). An entry falls behind Redis exactly by one of the last two
  (`FallsBehindIff`, `NeverBehindIff`); where none has, a reap forgets a live lock exactly inside a window
  (`ReapForgetsLiveIff`).
- An acquire that records its entry after its ttl overwrites a newer entry of its instance, and the newer
  lock then stays in Redis after an answered release (`LateInsertStrandsLock`). A release that nothing
  interrupts frees its key exactly when its entry is still stored (`ReleaseFreesIffTracked`), and an entry
  is lost exactly by a reap past its local expiry or by such an insert (`EntryIsLostIff`).
- When the lock expires between a release's claim and its delete, the key may hold the next section's lock
  by then, and the answered release leaves it there (`InterruptedReleaseSparesNext`). Under every
  interleaving the released lock itself is out of Redis for good (`ReleaseEndsItsLock`).
- The comment on `ReleaseLock` says an expired lock is no error. The code passes on whatever error the
  lock library reports for an unlock that matched nothing; `ReleaseLock` states both cases.
- `Update` succeeds exactly when the active version is the highest. After a rollback it clears the flag,
  collides with the unique index and leaves the Spirit with no active version.
- An `Activate` between an `Update`'s clear and its insert leaves two active versions
  (`ActivateInWindowBreaksSingle`). `BreaksSingleIff` gives the exact condition, over all commands; the
  next `Activate` or `RestoreVersion` of the Spirit repairs it (`PromotionHeals`).
- An `Update` that breaks off after its clear leaves the Spirit with no active version
  (`AbandonedUpdateLeavesNone`).
- `Create` refuses a name whose versions are all inactive: the lookup does not see them, the index does.
- The Pinecone filter drops an equality on a field that also has a range, and does not read numbers out of
  texts as pgvector does (`DifferenceFromPgVector` says exactly which metadata that concerns).
- A seat acquired by an operator id with a colon is not read back as acquired (`SeatRoundTrip`).

## Model

| member | source | states |
|---|---|---|
| Bond.BondManager.ReapExpired | redis/bond.go:48-56 | the map loop forgets exactly the entries whose local expiry lies strictly before the clock reading |
| Bond.BondManager.AcquireLock | redis/bond.go:59-92 | true exactly when SET NX was answered and the key was free, false without error exactly when it was held; the map gains an entry only on success, Redis keeps the value even when the call reports an error |
| Bond.BondManager.InsertEntry | redis/bond.go:86-88 | a new entry object replaces whatever the key had, and no other slot changes |
| Bond.BondManager.ReleaseLock | redis/bond.go:96-124 | the entry is gone whatever Redis answers, the delete is guarded by the entry's own value, an unknown key is no error |
| Bond.BondManager.ExtendLock | redis/bond.go:126-166 | succeeds exactly when Redis still holds the entry's value; only then is that entry object given the new expiry, its value unchanged; without an entry the error is lock-not-found, otherwise extend-failed |
| BondSequential.AcquireAlone | redis/bond.go:59-92 | the acquire's events run without interruption do to table and Redis what the class's contract says |
| BondSequential.ReleaseAlone | redis/bond.go:96-124 | likewise for a release, which leaves no call behind |
| BondSequential.ExtendAlone | redis/bond.go:126-166 | likewise for an extend |
| BondProtocol.ExecKeepsInv | redis/bond.go:32-36 | in every run every value an instance stores or carries is one it generated, entries and values are never shared between slots, and an in-flight extend agrees with the slot it read |
| BondOwnership.OnlyTheOwnerTouchesALock | redis/bond.go:99-153 | in every run a live Redis lock changes only through the unlock or extend script carrying its own value, sent for the instance that generated it |
| BondOwnership.LockLastsUntilExpiry | redis/bond.go:58-76 | a lock its own instance leaves alone stays unchanged until its expiry, whatever everybody else does |
| BondOwnership.EntryKeepsItsValue | redis/bond.go:129-162 | an entry object never moves, never changes its lock value and never comes back once forgotten |
| BondOwnership.ConfirmChangesOnlyItsEntry | redis/bond.go:155-162 | in every run the map update that ends an extend changes only the expiry of the very entry the extend read, wherever it is stored; an entry installed meanwhile by a release and re-acquire is untouched |
| BondOwnership.EntryClaimedOnce | redis/bond.go:99-104 | of any releases of a run, each stored entry is claimed by at most one |
| BondExclusion.PlayGuarded | redis/bond.go:59-166 | the invariant of disciplined runs: Redis holds exactly the lease of every open section and no pending delete carries its value |
| BondPromise.PromisedExclusion | redis/bond.go:59-165 | if every caller releases and extends only its own lock, is careful with its extends and is out before the ttl counted from its SET NX or last successful extend, no two critical sections on one key are ever open at once, on one instance or on several |
| BondPromise.LockOutlastsPromise | redis/bond.go:126-165 | in those runs every open section has its lock in Redis at least until the promised deadline |
| BondPromise.PromiseBreaksIff | redis/bond.go:142-153 | with callers only keeping to their promise and no such step so far, a step leaves an open section's lock out of Redis, or there for less than promised, exactly when it is an extend's script that takes effect below the promise and whose answer is lost |
| BondPromise.PromisesKeptIff | redis/bond.go:142-153 | Redis holds every open section's lock for as long as promised at every point of a run exactly when no step of it is one of those |
| BondPromise.CutBreaksExclusion | redis/bond.go:142-153 | after the first such step there is a way to go on, with no extend in it, that opens a second section on the key while the first is within its promise |
| BondPromise.ExclusionIff | redis/bond.go:59-165 | callers within their promises exclude each other, at every point of a run and however it goes on without extends, exactly when no step of the run is one of those |
| BondPromise.CarefulIsUncut | redis/bond.go:142-153 | callers that never ask for less than promised and have one extend of a section on its way at most never meet such a step |
| BondPromise.UncutIsDisciplined | redis/bond.go:59-166 | a run without such a step is one of the runs in which callers keep to the Redis deadlines |
| BondExclusion.MutualExclusion | redis/bond.go:59-92 | the underlying theorem: if callers keep to the deadline Redis has for their lock, no two critical sections on one key are open at once |
| BondExclusion.OpenSectionHoldsItsLock | redis/bond.go:126-165 | while a section is open its lock is live in Redis up to exactly its deadline and no SET NX on its key can succeed |
| BondExclusion.ReleaseFreesIffTracked | redis/bond.go:96-124 | at any point of a disciplined run, an uninterrupted and answered release by the section's caller removes exactly that key from Redis if and only if the instance still has the section's entry, and leaves Redis as it was otherwise |
| BondRelease.ReleaseEndsItsLock | redis/bond.go:99-112 | in every run and under every interleaving, the delete that follows the claim of an entry, whenever it reaches Redis, removes the entry's own lock if it is still there and nothing else, and that lock is never in Redis again |
| BondRelease.GoneForGood | redis/bond.go:70-147 | a value that Redis no longer holds never comes back, whatever commands are still on their way |
| BondRelease.SectionReleaseEndsItsLock | redis/bond.go:96-124 | in every disciplined run and whatever moves come between claim and delete, a release by the section's caller removes the section's lock, if still there, when its entry was stored, and removes nothing when another entry was |
| BondScenarios.InterruptedReleaseSparesNext | redis/bond.go:99-112 | a disciplined run in which the lock expires between claim and delete, and the answered release leaves the key to the next section's lock |
| BondTracking.EntryIsLostIff | redis/bond.go:48-88 | in every disciplined run a step takes the entry of an open section away exactly when it is a reap past the entry's local expiry or the insert of an acquire whose own section is over |
| BondTracking.SectionsAreTracked | redis/bond.go:62-88 | if no entry falls behind Redis, no reap falls in an extend's window and acquires are recorded while their section is open, an open section's entry is stored exactly from the moment its AcquireLock has recorded it |
| BondTracking.ReleaseFreesItsLock | redis/bond.go:94-124 | in those runs, once AcquireLock has returned true, an uninterrupted and answered ReleaseLock takes exactly its key out of Redis |
| BondRelease.TimelyReleaseEndsItsLock | redis/bond.go:94-124 | in those runs, once AcquireLock has returned true, a ReleaseLock whose delete reaches Redis takes its own lock out for good, and nobody else's, whatever happens in between |
| BondExclusion.ExtendProlongsItsLock | redis/bond.go:138-153 | in every disciplined run an extend of an open section that reaches Redis finds its lock and renews it to exactly the requested ttl from that moment |
| BondScenarios.ForeignReleaseBreaksExclusion | redis/bond.go:96-112 | a run in which a release by a caller that never acquired opens a second section inside the first |
| BondScenarios.OverstayBreaksExclusion | README.md:257-260 | a run in which a section longer than its ttl overlaps the next one, which is why the ttl must exceed the work |
| BondScenarios.LostExtendBreaksPromise | redis/bond.go:142-153 | runs in which a second section opens inside the promise of the first, after a shorter extend or one of two overlapping extends took effect with its answer lost |
| BondScenarios.ReapForgetsLiveLock | redis/bond.go:142-162 | runs in which a reap forgets a live lock: the extend's map update was late, never came, or came after that of an overlapping extend that asked for more; only the first has an extend in its window |
| BondScenarios.LateInsertStrandsLock | redis/bond.go:72-88 | a run in which a late map insert makes a later answered release leave the newer lock in Redis |
| BondExpiry.FallsBehindIff | redis/bond.go:144-162 | in any reachable state with no entry behind Redis, a step leaves one behind exactly when it is a script that renews past the entry with its answer lost, or a map update below the Redis expiry, and no other extend of the lock is in its window |
| BondExpiry.NeverBehindIff | redis/bond.go:142-162 | a run never has an entry behind Redis outside an extend's window exactly when no step of it is one of those |
| BondExpiry.ReapForgetsLiveIff | redis/bond.go:48-64 | in those runs a reap forgets a lock Redis still holds exactly when its entry is past and an extend of it on that instance is between its Redis call and its map update |
| BondExpiry.QuietRunsArePrompt | redis/bond.go:144-162 | a run with no reap or second extend in an extend's window and no lost answer to an extend that took effect is one of those |
| BondExpiry.LocalExpiryCoversRedis | redis/bond.go:86-88 | in such quiet runs an entry's local expiry is never before the Redis expiry of its value, its extend's own window apart |
| BondExpiry.ReapForgetsOnlyDeadLocks | redis/bond.go:48-64 | in quiet runs reapExpired forgets only locks Redis has dropped already |
| SpiritStore.VersionsAreContiguous | mongo/spirit_repository.go:61-71 | if each version follows a stored one, the versions of a name are exactly 1..n |
| SpiritStore.NextIsFreeIffHighest | mongo/spirit_repository.go:149-164 | the version after a stored one is free in the index exactly when that one is the highest |
| SpiritProtocol.VersionsNeverGap | mongo/spirit_repository.go:91-172 | under every interleaving, Activate and RestoreVersion anywhere, the versions of a name are exactly 1..n, each stored once |
| SpiritProtocol.VersionsAreImmutable | mongo/spirit_repository.go:373-420 | no version is ever removed or changed beyond its active flag and deactivation time |
| SpiritProtocol.OnlyNextIsMissing | mongo/spirit_repository.go:131-152 | in a collection with contiguous versions, two updates that both still miss their version have read the same one |
| SpiritProtocol.UpdatesLandInOrder | mongo/spirit_repository.go:131-168 | of any two updates of a name whose inserts take effect in a run the later one had read a higher version, so at most one of those that read the same version takes effect |
| SpiritProtocol.PromotionHeals | mongo/spirit_repository.go:373-549 | in any reachable state, two active versions included, an Activate or the transaction of a RestoreVersion leaves its document as the Spirit's only active one and other Spirits as they were |
| SpiritProtocol.ExecConsiderateSingle | mongo/spirit_repository.go:131-164 | the inductive core: while an update that cleared the flag still misses its version, its Spirit has no active one |
| SpiritProtocol.AtMostOneActive | internal/domain/ports/memory.go:10-11 | any interleaving of Create, Update and Deactivate, with Activate and RestoreVersion outside the updates' windows, keeps at most one active version per name |
| SpiritProtocol.BreaksSingleIff | mongo/spirit_repository.go:91-557 | in any reachable state with at most one active version each, a step makes two active exactly when it is an update's insert, under a fresh id, whose version is missing while something of its Spirit is active; no other command can |
| SpiritProtocol.ActivateInWindowBreaksSingle | mongo/spirit_repository.go:137-164 | a run in which an Activate in an update's window leaves versions 1 and 2 both active |
| SpiritProtocol.AbandonedUpdateLeavesNone | mongo/spirit_repository.go:137-168 | a run in which an update breaks off after its clear and leaves the Spirit with no active version and no call to give it one |
| Spirits.SpiritRepository.FindActiveByName | mongo/spirit_repository.go:174-205 | returns the one stored document of the name that is active and not deleted, not-found exactly when there is none, and refuses the empty name |
| Spirits.SpiritRepository.Find | mongo/spirit_repository.go:217-224 | the cursor yields exactly the active documents of the names asked for, in any order |
| Spirits.SpiritRepository.FindActiveByNames | mongo/spirit_repository.go:208-251 | the map holds exactly the results FindActiveByName has for the names asked for, whatever the cursor's order |
| Spirits.SpiritRepository.Create | mongo/spirit_repository.go:91-119 | succeeds exactly for a name that has no version at all, and then the active version is 1 with the client's content, change log and deactivation time, stamped now; conflicts exactly when one is active |
| Spirits.SpiritRepository.Update | mongo/spirit_repository.go:122-172 | succeeds exactly when the active version is the highest, and then the active version is one above it with the client's content, the given change log, stamped now and never deactivated; otherwise the Spirit is left with no active version; nothing else changes |
| Spirits.SpiritRepository.Activate | mongo/spirit_repository.go:357-405 | sets the active flag of exactly the named version, however many were, leaving every other field and other Spirits alone, or fails and changes nothing; the whole collection is then single-active exactly when no other Spirit had two |
| Spirits.SpiritRepository.Deactivate | mongo/spirit_repository.go:407-433 | clears the flag and stamps the time of that document only; an unknown id is no error |
| Spirits.SpiritRepository.FindVersionHistory | mongo/spirit_repository.go:467-495 | returns versions n, n-1, ..., 1 of the name, nothing missing |
| Spirits.SpiritRepository.RestoreVersion | mongo/spirit_repository.go:499-557 | makes the given document its Spirit's only active one, however many were, with its deactivation time cleared, or changes nothing |
| Spirits.PromotionIsExclusive | mongo/spirit_repository.go:373-397 | clearing a name and activating one document leaves that version the only active one, however many were, and every other Spirit as it was |
| Spirits.RollbackRestoresFormer | mongo/spirit_repository.go:131-164 | after an update, activating the version it replaced makes the lookup return the former document again |
| Spirits.CreateAlone | mongo/spirit_repository.go:100-111 | an uninterrupted create goes on to its insert unless an answered lookup found the Spirit active, and stores what Create says, stamped at the insert |
| Spirits.RestoreAlone | mongo/spirit_repository.go:508-549 | an uninterrupted restore leaves that document its Spirit's only active one, with its deactivation time cleared |
| Spirits.UpdateStarts | mongo/spirit_repository.go:126-135 | an update starts exactly with an active document of the name and remembers its version |
| Spirits.ClearGoesOn | mongo/spirit_repository.go:137-145 | the clear matches a document exactly while one of the Spirit is active, and the update goes on either way |
| Spirits.UpdateAlone | mongo/spirit_repository.go:131-164 | an uninterrupted update's clear hits the very version it read, and its three commands together give the state of the Update method |
| Spirits.ReachableIsVersioned | mongo/spirit_repository.go:61-71 | every state of every run satisfies what Activate, RestoreVersion, Deactivate and FindVersionHistory ask for |
| Spirits.ReachableIsConsistent | mongo/spirit_repository.go:61-71 | every state of a run that respects the windows satisfies what all the methods ask for |
| StringOrder.BelowIff | providers/pgvector/lore_store.go:232 | the order of the listing is the dictionary order |
| StringOrder.SortedListingIsUnique | providers/pgvector/lore_store.go:227-234 | a set of field names has one sorted listing, so map iteration order cannot show |
| PgVector.SortedRangeFields | providers/pgvector/lore_store.go:227-234 | the listing is strictly sorted and holds exactly the ranged fields |
| PgVector.AppendLoreFilter | providers/pgvector/lore_store.go:194-225 | fails exactly when some equality value cannot be encoded; otherwise appends one containment test for the equalities and one comparison per bound, in field order, which together add exactly the filter's meaning to the clause on every row |
| PgVector.SearchFiltered | providers/pgvector/lore_store.go:135-163 | fails exactly for an empty query or an equality value that cannot be encoded; otherwise every placeholder is in range, LIMIT names the last argument, which is topK or 5, and on every row the clause accepts exactly what was asked for |
| PgVector.CompiledMeans | providers/pgvector/lore_store.go:144-154 | the conjuncts hold exactly for rows of the lore with similarity at least MinScore on which all equalities and ranges hold, and raise only on a bounded range over a value without numeric reading |
| PgVector.RangeReads | providers/pgvector/lore_store.go:210-221 | a range accepts a number, or a text the database reads as one, within its bounds; a boolean or other text fails the cast, an absent field or null satisfies no bound |
| PgVector.AddRangesMeans | providers/pgvector/lore_store.go:208-222 | the loop over ranges adds exactly the meaning of the ranges to what was there |
| PgVector.WithEqualsMeans | providers/pgvector/lore_store.go:199-206 | the containment test means that every equality holds |
| PgVector.LaterArgumentsDoNotMatter | providers/pgvector/lore_store.go:204-220 | arguments appended later never change what an earlier conjunct says |
| Pinecone.PineconeFilter | providers/pinecone/lore_store.go:191-216 | nothing to filter gives no filter; an unencodable equality without a range is the only error; otherwise the nested filter, the same for every iteration order |
| Pinecone.NestedMeans | providers/pinecone/lore_store.go:196-209 | the nested filter accepts exactly what satisfies all ranges and the equalities of fields without a range |
| Pinecone.DifferenceFromPgVector | providers/pinecone/lore_store.go:197-209 | on any metadata, what pgvector accepts with no numeric text in a range is exactly what Pinecone accepts with the equalities on ranged fields holding too |
| Pinecone.AgreesWithPgVector | providers/pinecone/lore_store.go:189-216 | with no field in both parts and every range bounded, Pinecone accepts exactly what pgvector accepts, numeric texts in ranges apart |
| Pinecone.OverlapDisagrees | providers/pinecone/lore_store.go:200-208 | whenever a field's range contains a number other than the one it must equal, a row with that number is accepted by Pinecone alone |
| VectorLiteral.FormatVector | providers/pgvector/lore_store.go:247-261 | the byte loop prints the comma-separated elements between brackets |
| VectorLiteral.VectorFromString | providers/pgvector/lore_store.go:265-280 | the loop returns the parsed elements in order, or fails if any of them does |
| VectorLiteral.ParseReads | providers/pgvector/lore_store.go:266-279 | a text fails to parse exactly when something is left inside its brackets and one part between the commas is no number; otherwise each part gives its number, in order |
| VectorLiteral.SplitCuts | providers/pgvector/lore_store.go:270 | splitting cuts a text at its commas, all of them and nothing else |
| VectorLiteral.TrimSpaceTrims | providers/pgvector/lore_store.go:266-273 | trimming removes exactly the blanks around a text |
| VectorLiteral.SplitUndoesJoin | providers/pgvector/lore_store.go:270 | splitting at commas recovers exactly the printed elements |
| VectorLiteral.RoundTrip | providers/pgvector/lore_store.go:247-280 | parsing a printed vector gives the vector back, the empty one included |
| Gemini.MessageReads | providers/gemini/oracle.go:557-623 | a tool message is one function response; any other is its text, if any, then its calls in order; it has no turn exactly when it has neither |
| Gemini.ConvertToHistory | providers/gemini/oracle.go:532-555 | the nested index loops terminate and produce the history defined message by message |
| Gemini.MessageIsOwnTurn | providers/gemini/oracle.go:550-594 | any other message with text or calls adds one turn of its own parts, the model's exactly when the message is the assistant's; one with neither adds nothing |
| Gemini.RunIsOneTurn | providers/gemini/oracle.go:538-546 | a run of tool results behind something else becomes one user turn made of all their parts |
| Gemini.MaximalRunIsOneTurn | providers/gemini/oracle.go:532-555 | every maximal run of tool results is exactly one turn, between the turns of what precedes and what follows it |
| Gemini.HistorySplits | providers/gemini/oracle.go:532-555 | the history of a concatenation is the concatenation of the histories, unless the boundary falls inside a run |
| Gemini.HistoryConserves | providers/gemini/oracle.go:532-587 | the parts of the history are the parts of all messages in order, none lost, repeated or moved |
| Gemini.SplitMessagesForChat | providers/gemini/oracle.go:377-406 | history parts followed by sent parts are all parts in order, attachments follow, and the sent parts are never empty |
| Gemini.ConvertAttachmentsToParts | providers/gemini/oracle.go:629-656 | attachments with data become inline parts in order, the others are skipped |
| Gemini.AttachmentsInOrder | providers/gemini/oracle.go:629-640 | attachments are converted one by one in order |
| Gemini.AttachmentReads | providers/gemini/oracle.go:642-656 | one attachment becomes one part with its MIME type and data, or none without data |
| Gemini.BatchStartIsUnique | providers/gemini/oracle.go:380-386 | the split point is the only one that sends the trailing tool results, or else a final user message |
| Gemini.RunIsNeverSplit | providers/gemini/oracle.go:380-395 | a maximal run of tool results is wholly sent or is one turn of the history |
| Ollama.ParseResponse | providers/ollama/oracle.go:270-306 | content as is, tool calls converted in order, summed usage; the stop reason is tool calls when there are any, else length exactly for "length", else complete |
| Ollama.GenerateStream | providers/ollama/oracle.go:144-195 | whatever arrives, exactly the non-empty texts of the chunks as deltas and then one Done or Error; a Done assembles to the one-shot parse of the chunks merged up to the first done one and carries its usage and the stop reason by the same rule, an Error names the first thing that went wrong |
| Ollama.EmitChunk | providers/ollama/oracle.go:170-175 | text and tool calls so far are those of the merged chunks |
| Ollama.FinishStream | providers/ollama/oracle.go:176-188 | the finished event list assembles to the one-shot parse of the merged response |
| Ollama.ConvertedAt | providers/ollama/oracle.go:271-278 | one tool call per wire call, in order, the function's name doubling as its id |
| Ollama.ConvertedConcat | providers/ollama/oracle.go:173-175 | converting tool calls chunk by chunk is converting them all at once |
| Luhn.IsLuhnValid | internal/helpers/pii.go:89-108 | the right-to-left loop decides exactly the standard's check on the digits the text spells in characters '0' to '9', any other characters ignored |
| Luhn.DigitsAreSpelled | internal/helpers/pii.go:92-97 | the digits read from a text are exactly those it spells |
| Luhn.DigitsOfNumeral | internal/helpers/pii.go:92-97 | writing digits down and reading them gives them back |
| Luhn.SeparatorsDoNotMatter | internal/helpers/pii.go:94-96 | a number with separators inside reads as its digits alone |
| Luhn.TotalIsSum | internal/helpers/pii.go:97-104 | doubling and taking 9 away agrees with adding up the digits of the product |
| Luhn.OneCheckDigit | internal/helpers/pii.go:107 | every payload of 12 to 18 digits is completed by exactly one check digit, the standard's, and the code's sum accepts just that one |
| Luhn.SingleErrorDetected | internal/helpers/pii.go:89-108 | changing one digit of a valid number makes it invalid |
| Luhn.SwapDetectedIff | internal/helpers/pii.go:89-108 | swapping two different neighbours makes it invalid, except 0 with 9 |
| Vigil.VigilRepository.Acquire | redis/vigil_repository.go:34-45 | takes the seat exactly when it is free, else leaves it as it is |
| Vigil.VigilRepository.Release | redis/vigil_repository.go:47-52 | frees the session's key and no other |
| Vigil.VigilRepository.Refresh | redis/vigil_repository.go:89-94 | renews the expiry of a taken seat and does nothing else |
| Vigil.VigilRepository.Get | redis/vigil_repository.go:54-87 | no seat, a malformed value, a bad timestamp, or the decoded seat with the remaining ttl added to the later clock reading |
| Vigil.PrintsDecimal | redis/vigil_repository.go:36 | the printed second is decimal |
| Vigil.ParseIntReads | redis/vigil_repository.go:69 | digits parse with or without a sign exactly when they fit into 64 bits |
| Vigil.ParseUndoesPrint | redis/vigil_repository.go:69 | parsing a printed 64-bit decimal gives the number back |
| Vigil.DecodeReads | redis/vigil_repository.go:64-72 | a value is malformed exactly without a colon; otherwise the operator stands before the first colon and the rest is the second, or a bad timestamp |
| Vigil.ServicesDistinct | redis/vigil_repository.go:30-32 | no two services, environments or sessions share a key, colons in service and environment names apart |
| Vigil.SeatRoundTrip | redis/vigil_repository.go:36-73 | the value decodes to the acquiring operator and second exactly when the operator id has no colon |
| Vigil.SeatStep | redis/vigil_repository.go:34-94 | a free seat is taken only by an Acquire of that session; a taken one changes only by its Release or the clock |
| Vigil.SeatLasts | redis/vigil_repository.go:34-94 | a granted Acquire and a Refresh of a taken seat make it last exactly their ttl from then on; no call touches another session's seat |
| Vigil.SeatHasOneHolder | redis/vigil_repository.go:34-94 | in every run a taken seat has belonged to one Acquire without a break; Refresh never creates, transfers or restarts it |
| Vigil.SeatReadsBack | redis/vigil_repository.go:54-87 | in every run what is decoded from a taken seat is the operator and second of the Acquire that holds it, for ids without a colon |
| Idempotency.IdempotencyStore.Seen | redis/idempotency.go:28-34 | records a new key for its ttl and answers duplicate exactly when the key was still recorded |
| Idempotency.FirstsAreATtlApart | redis/idempotency.go:14-16 | two calls on one key that both answer "not a duplicate" are at least the first one's ttl apart |
| Idempotency.SeenIff | redis/idempotency.go:28-34 | at any point of a run a key counts as seen exactly when a call that recorded it first lies less than its ttl back |
| Idempotency.RecordExpires | redis/idempotency.go:28-34 | a free key, once recorded, is seen for exactly its ttl |

## Left out

- redsync itself: retries, drift arithmetic and quorum; its undo of a failed acquire is one optional delete by value, in `BondProtocol` only.
- Zero and negative ttls, which the Redis client reads as no expiry or keep the ttl: a `Duration` is positive.
- Different clocks: Redis and all instances read the same one, so a section's deadline means the same everywhere.
- Real concurrency in the classes: `BondManager` and `SpiritRepository` run one call at a time and take clock readings, random values, ids and command fates as parameters; overlapping calls are `BondProtocol` and `SpiritProtocol`.
- Mongo sessions and transactions: Activate and RestoreVersion take effect in one step; network failures of a command end the call (`Abandon`). A command carried out whose answer is lost is one followed by `Abandon`.
- Failing database calls in the sequential class: `SpiritRepository` has the not-found, conflict and index errors, not infrastructure errors; documents a cursor cannot decode, which FindActiveByNames skips, do not occur.
- The other Spirit fields: everything a client may set is one `content` string, the audit fields Update resets are not told apart.
- Soft deletion: the repository never sets `is_deleted` on a stored Spirit, so `Chained` has it false.
- GetVersion, ListActive, CountActive, ListAll and the handlers above them: reads that would add easy members.
- SQL as text: the WHERE clause is a sequence of conjuncts with placeholder numbers, and Postgres is an evaluator whose distance and text-to-numeric cast are parameters. ORDER BY and row decoding are not modelled.
- Floating point: scores, bounds and metadata numbers are reals; nested JSON metadata is not modelled, only scalars.
- Pinecone's storing of metadata as strings, and what its server does with an empty condition: the compiled filters are compared on the same typed metadata.
- The error sets of the two filter encoders: `Unencodable` is one class for json.Marshal and structpb.NewStruct, although some Go values, a `[]string` or a `time.Time` among them, pass the first and fail the second.
- Float printing: `VectorLiteral` takes the number printer and parser as parameters, assuming they invert each other on plain text; trimming knows the white space up to U+00A0.
- Gemini arguments, thought signatures and attachment data are carried through unread; response parsing and tool declarations are not modelled.
- JSON decoding of Ollama chunks: a line is blank, garbled or a chunk. The HTTP exchange before the stream, cancellation and closing are not modelled.
- RedactPII and its regular expressions: only the digit check they rely on.
- VigilRepository.ListAll and infrastructure errors of the Redis client in Vigil and Idempotency.
- redis/inbox.go, the Qdrant store, Rites, Rituals, the engine, webhooks and voice clients.
