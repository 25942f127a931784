# Harmost, verified

Harmost is a caching reverse proxy that protects a server-side-rendering origin.
This project models its stateful core in Dafny and proves what that core promises:

- **The bounded store** (`Shelf`, `Sweep`, `TagIndex`, `Sections`, `BoundedStore`, `Fills`, `EvictionOrder`). One byte
  budget is shared by finished entries and fills in progress. Eviction is FIFO or a clock with second chances.
  `BoundedStore` and `Fills` are the objects, updated in place; the other files are the functions that
  specify them.
- **The store under concurrency** (`StoreProtocol`, `StoreInvariant`, `StoreHistory`, `StoreEnds`). Every lock-protected
  section and every atomic action is a step of a transition system, in which fills, followers, hits, evictions,
  revalidations and purges interleave. The theorems are about every run.
- **Admission** (`Limiter`, `LimiterProtocol`, `AdmissionProtocol`, `Admission`). Resizable limiters settle
  their debt as permits return, and a request passes a route, a tier and a global ceiling in turn.
- **Cache identity and policy** (`Text`, `Folding`, `Sorting`, `Query`, `CacheKey`, `KeyBuilder`, `Codings`,
  `KeyIdentity`, `Policy`, `PolicyFacts`, `VaryAgreement`). The key's canonical text is decoded, which requests
  share a key and which responses are stored is said of the requests and responses themselves, and the key is
  checked against the policy that lets a response be shared.
- **The spool** (`Spool`, `SpoolOutcomes`, `SpoolProtocol`), **the breaker and the retry budget over a rolling window**
  (`Window`, `Breaker`, `BreakerProtocol`, `Retry`, `RetryProtocol`, `RetryOrder`), and **client addresses**
  (`Address`, `Forwarded`).

Code that the source runs in place is a class whose methods are proved against functions of the old state.
Interleavings are transition systems with a `Trace` datatype for runs. Time, randomness and input text are
parameters. `Machine` holds the 64-bit saturating operations, `Sums` the sums behind shared counters.

Some promises turned out to hold only under a condition. Each comes with a failing input or run and its exact
condition:

- The reserved variant name `~encoding` can be mistaken for a key header of that name
  (`VaryAgreement.KeysSeparateCodingsIff`).
- A `no-store` response can be stored without a route override (`Policies.NoStoreNeedsOverrideIff`).
- A limiter can grant more than its ceiling. When a queued request stops waiting, units already assigned to it go
  back to the semaphore past any debt, and a later acquire can take them (`LimiterProtocol.LeakExceedsCeiling`).
  At rest every grant stays within the ceiling exactly when nothing is available beside a debt
  (`LimiterProtocol.GrantsWithinCeilingIff`), and a step loses that exactly when it is such a leak
  (`LimiterProtocol.SettledStep`). That the semaphore assigns a waiter all of its units at once and hands
  them over in the same step is an assumption, `AllOrNothing`: even a waiter for one unit leaks it if it is
  cancelled in between. Nothing in the source guarantees the assumption, and it is stated wherever it is used.
- Two probes of a breaker can be closer than the open time when a trip or a failed probe arrives with an old stamp
  (`BreakerProtocol.StaleTripCrowdsProbes`). The spacing is lost exactly at such a backdated step
  (`BreakerProtocol.GuardedStep`, `GuardedIff`, `ProbesAreSpacedIff`), and never under a monotone clock.
- Retries can exceed their share when a charge carries an older stamp than a flag already counted
  (`RetryOrder.StaleStampOverspends`). Every run with a given sequence of flag stamps keeps the share, and the
  load within its factor of the demand, exactly when that sequence is in order (`RetryOrder.ShareKeptIff`,
  `RetryOrder.LoadKeptIff`).
- A write after the end of a fill was published is accepted by the store and takes the end back
  (`StoreEnds.LateWriteUnpublishes`). A fill is exposed to that exactly by such a write (`StoreEnds.QuietMoved`);
  without one, a follower that ended has the whole body (`StoreEnds.FollowerHasWhole`).

Where code and comments differ, the code is modelled. The comment on `normalize_accept_encoding` in
`src/cache/key.rs` speaks of three buckets; the code keeps every coding, in order, and so does `AcceptEncoding`.

## Model

| member | source | states |
|---|---|---|
| `Sweeps.SweepLoopIsReserve` | src/cache/store.rs:278-318 | the eviction loop, key by key with rotation and chances, computes the closed form `Reserve` |
| `Sweeps.ReserveTakesShortestPrefix` | src/cache/store.rs:278-318 | the victims are the shortest prefix of cold keys then hot keys, each in queue order, that makes room; every shorter prefix would not; refusal means everything was discarded |
| `Sweeps.ReserveSucceedsIff` | src/cache/store.rs:278-318 | a reservation succeeds exactly when unfinished bytes plus the request fit, so completed entries never cause a refusal |
| `Sweeps.ReserveKeeps` | src/cache/store.rs:278-318 | queue, bits and byte count stay consistent; unfinished bytes grow by exactly what was granted |
| `BoundedStores.BoundedStore.Evict` | src/cache/store.rs:287-316 | the loop in place: at most two turns per queued key, and under Clock the chances outnumber the visited keys to the end |
| `BoundedStores.BoundedStore.Reserve` | src/cache/store.rs:278-318 | the fields end as the closed form says, the tag index exact and the budget kept |
| `BoundedStores.BoundedStore.UnindexTags` | src/cache/store.rs:493-502 | the key leaves every listed tag and emptied tags disappear |
| `TagIndexes.UnindexedIsTagIndex` | src/cache/store.rs:493-502 | unindexing an entry's tags leaves exactly the index of the other entries |
| `TagIndexes.IndexedIsTagIndex` | src/cache/store.rs:326-347 | indexing an entry's tags gives exactly the index with the entry in place |
| `BoundedStores.BoundedStore.Release` | src/cache/store.rs:320-324 | a release lowers the unfinished bytes by that amount and touches no entry |
| `Sections.AdmitKeeps` | src/cache/store.rs:326-347 | admission turns charged bytes into an entry once per key at the back of the queue, replacing the old revision's bytes |
| `BoundedStores.BoundedStore.Admit` | src/cache/store.rs:326-347 | the same in place, with the reverse index following both revisions |
| `EvictionOrder.AdmittedLast` | src/cache/store.rs:326-347 | an admitted entry goes behind every other without its bit, and leaves their order and bits alone |
| `EvictionOrder.OneGoesFirst` | src/cache/store.rs:278-318 | of any two entries one goes first: under Clock one without its bit before one with it, otherwise by place in the queue |
| `EvictionOrder.FirstIsEvictedFirst` | src/cache/store.rs:278-318 | no reservation discards an entry and keeps one that goes before it |
| `EvictionOrder.FifoIsAdmissionOrder` | src/cache/store.rs:278-347 | in every run under Fifo the queue is in order of admission |
| `EvictionOrder.FifoEvictsOldest` | src/cache/store.rs:278-347 | so in every run no step makes room by discarding an entry while an earlier admitted one stays |
| `EvictionOrder.BitMeansHit` | src/cache/store.rs:506-561 | in every run an entry has its bit only if it was hit since it was admitted |
| `BoundedStores.BoundedStore.TaggedKeys` | src/cache/store.rs:361-370 | the keys read from the reverse index are exactly the entries carrying a wanted tag |
| `BoundedStores.BoundedStore.PurgeMatching` | src/cache/store.rs:446-474 | exactly the selected entries leave, with their bytes, bits and queue places; unfinished bytes are untouched, and the report counts the entries and bytes that left |
| `BoundedStores.BoundedStore.PurgeTags` | src/cache/store.rs:356-383 | exactly the entries sharing one of the given tags leave and exactly the fills sharing one are doomed; every other entry and fill is as it was, and the report counts what left |
| `BoundedStores.BoundedStore.PurgePaths` | src/cache/store.rs:421-438 | exactly the entries whose path is one of those given leave and exactly the fills on one are doomed; every other entry and fill is as it was, and the report counts what left |
| `BoundedStores.BoundedStore.PurgeAll` | src/cache/store.rs:391-402 | the cache, queue and index are empty, every fill is doomed and only unfinished bytes remain charged |
| `BoundedStores.BoundedStore.PurgeKey` | src/cache/store.rs:665-685 | that key's entry leaves and its fills are doomed, and nothing else changes; the answer says whether there was anything |
| `BoundedStores.BoundedStore.RemoveTemp` | src/cache/store.rs:476-489 | one fill leaves `temp`, with the key when it was the last, and every other fill stays |
| `BoundedStores.BoundedStore.Register` | src/cache/store.rs:610-663 | a fill is registered under a fresh id exactly when its metadata, tags and path fit beside the unfinished bytes, which then grow by exactly their lengths; a transient one keeps no tags or path |
| `Sections.UpdateMetaKeeps` | src/cache/store.rs:687-733 | metadata growth is accepted exactly when it fits without evicting, and the invariant holds either way |
| `BoundedStores.BoundedStore.UpdateMeta` | src/cache/store.rs:687-733 | the entry keeps its body under new metadata and tags, with the index following |
| `BoundedStores.BoundedStore.Lookup` | src/cache/store.rs:506-561 | a finished entry wins and gets its bit, else the newest fill, else a miss |
| `Fills.FollowableMiss.WriteBody` | src/cache/store.rs:863-880 | a chunk is appended and published exactly when it fits beside the unfinished bytes; a refused chunk changes nothing |
| `Fills.FollowableMiss.Finish` | src/cache/store.rs:882-944 | the end is published; then a transient fill is parked, a purged one given back, and any other becomes the key's entry with exactly the bytes written and its own metadata, path and tags; unfinished bytes fall by exactly what the fill held |
| `Fills.FollowableMiss.Abandon` | src/cache/store.rs:951-961 | an unfinished fill gives back everything it was charged |
| `Fills.PartialHit.ReadBody` | src/cache/store.rs:804-826 | bytes are handed on in order up to the published progress; end and error are told apart |
| `Fills.CompleteHit.ReadBody` | src/cache/store.rs:752-762 | a finished body is replayed in order and ends exactly at its length |
| `StoreInvariant.InvStep` | src/cache/store.rs:278-347 | every atomic step keeps accounting, fill progress, entry provenance, purge coverage and follower positions together |
| `StoreInvariant.AccountingStep` | src/cache/store.rs:446-502 | after every step the charged bytes are the completed bytes plus what live fills hold, within the budget |
| `StoreInvariant.FillsStep` | src/cache/store.rs:863-961 | a fill only appends, publishes ever more bytes, and is frozen once its writer has finished or gone |
| `StoreHistory.RunInv` | src/cache/store.rs:171-205 | the joint invariant holds in every reachable state |
| `StoreHistory.PurgeIsFinal` | src/cache/store.rs:356-474 | in every run, a cached entry's fill began after the last purge of its path, key or everything, and its tags were set, by that fill's registration or by a later revalidation that was accepted, after the last purge of any of them |
| `StoreHistory.DeclaredIsSet` | src/cache/store.rs:687-733 | the step recorded for an entry's tags is its admitted fill's registration or the last accepted revalidation since, never a refused or earlier one |
| `StoreHistory.PurgedFillNeverAdmitted` | src/cache/store.rs:882-944 | in every run, a fill about to be admitted was selected by no purge that ended since it began |
| `StoreHistory.FollowerSeesPrefix` | src/cache/store.rs:796-826 | in every run, whenever a follower attached, what it has handed on is a prefix of the leader's bytes, and an error means the leader is gone without an end |
| `StoreEnds.EndWasPublished` | src/cache/store.rs:804-826 | in every run a follower ends only where the leader had published an end |
| `StoreEnds.FollowerHasWhole` | src/cache/store.rs:796-826 | if nothing is written after a published end, a follower that ended has, and will always have, the whole body |
| `StoreEnds.QuietMoved` | src/cache/store.rs:863-880 | a fill's published end stands through each of its steps, and it comes to have a chunk under way past its end exactly by a late write |
| `StoreEnds.LateWriteUnpublishes` | src/cache/store.rs:863-880 | a late write carried through makes the progress partial again |
| `StoreHistory.HitIsLastAdmitted` | src/cache/store.rs:506-561 | a completed entry is, now and later, exactly the finished bytes of the last fill admitted under its key |
| `Limiters.Limiter.Resize` | src/admission/limiter.rs:181-208 | after any resize the counters are the closed form of the new ceiling and the units out |
| `Limiters.Limiter.TryAcquire` | src/admission/limiter.rs:237-253 | a grant happens exactly when the weight fits under the ceiling |
| `Limiters.Limiter.Return` | src/admission/limiter.rs:77-112 | a returned permit settles debt first and restores the closed form |
| `Limiters.Limiter.EnterQueue` | src/admission/limiter.rs:255-271 | a queue slot is refused exactly when the queue is absent or full |
| `LimiterProtocol.RunConserves` | src/admission/limiter.rs:77-112 | in every run, with acquires inside resize and return, units available and out equal ceiling plus debt |
| `LimiterProtocol.SettledStep` | src/admission/limiter.rs:181-208 | no debt beside available units survives a step exactly when the step does not return a waiter's units past a debt |
| `LimiterProtocol.AtRest` | src/admission/limiter.rs:77-112 | with the lock free, units available and out equal ceiling plus debt, and if nothing leaked both counters depend only on ceiling and units out, whatever the resize history |
| `LimiterProtocol.AtRestAllOrNothing` | src/admission/limiter.rs:237-302 | assuming waiters are assigned all their units or none: the closed form in units out alone, and a full return when nothing is out |
| `LimiterProtocol.GrantWithinCeiling` | src/admission/limiter.rs:237-302 | as long as nothing leaked, no grant takes the units out above the ceiling in force |
| `LimiterProtocol.GrantsWithinCeilingIff` | src/admission/limiter.rs:237-253 | at rest in any run, every possible grant stays within the ceiling exactly when nothing is available beside a debt |
| `LimiterProtocol.ExcessOnlyFalls` | src/admission/limiter.rs:181-208 | after a shrink the excess over the ceiling only falls |
| `LimiterProtocol.LeakExceedsCeiling` | src/admission/limiter.rs:275-281 | a run in which a partly served waiter times out past a debt and the ceiling is doubled |
| `LimiterProtocol.QueueIsBounded` | src/admission/limiter.rs:255-279 | however arrivals race between reading the bound and taking a slot, no more than the largest bound in force ever wait |
| `AdmissionProtocol.ProjectRuns` | src/admission/mod.rs:160-257 | in every run each ceiling goes through a run of the limiter protocol, acquires inside resizes and returns included, so all that is proved of those holds of it |
| `AdmissionProtocol.RunInv` | src/admission/mod.rs:211-257 | in every run a limiter's permits are exactly those of the live requests past it, and its waiters exactly requests asking for it |
| `AdmissionProtocol.UnitsOut` | src/admission/mod.rs:211-257 | each limiter's units out are the summed weights of live requests past that stage |
| `AdmissionProtocol.CountersAtRest` | src/admission/limiter.rs:77-112 | at rest, available and debt are conserved against that sum, and are its closed form if nothing leaked |
| `AdmissionProtocol.PassesWithinCeiling` | src/admission/mod.rs:234-256 | passing a stage leaves the requests past it within the ceiling in force, if nothing leaked |
| `AdmissionProtocol.TierBoundsGlobal` | src/admission/mod.rs:36-49 | global units held by a tier never exceed that tier's own units out |
| `AdmissionProtocol.GlobalIsCoveredByTiers` | src/admission/mod.rs:211-257 | global units out never exceed the three tiers' together |
| `AdmissionProtocol.NothingLeaks` | src/admission/mod.rs:211-257 | a limiter no live request is past or asking for has its queue empty and everything back: available is the limit plus any leaked debt, and exactly the limit if nothing leaked |
| `Admission.TierCeilingWithin` | src/admission/mod.rs:80-82 | a tier's share is at least one and at most the global ceiling |
| `Admission.TierCeilingExact` | src/admission/mod.rs:80-82 | a tier's share is the product in hundredths rounded down, or one if that is less, with the product saturating |
| `Admission.TierCeilingMonotone` | src/admission/mod.rs:80-82 | a larger ceiling or share never gives a smaller tier |
| `Admission.AdmissionController.Admit` | src/admission/mod.rs:211-257 | without queueing, admission happens exactly when all three ceilings fit, and a refusal leaves every one as it was |
| `Admission.RouteRegistry.Reload` | src/admission/mod.rs:174-196 | after a reload exactly the listed routes are registered, with the last ceiling listed, known limiters kept and their units out untouched |
| `Admission.AdmissionController.ApplyLimits` | src/admission/mod.rs:160-196 | every ceiling takes its new value and nothing in flight changes |
| `Queries.SameCanonicalQuery` | src/cache/key.rs:220-256 | two queries under one policy canonicalise equally exactly when their permitted pairs are the same list, or a permutation with all keys distinct |
| `Queries.SameCanonicalQueries` | src/cache/key.rs:220-256 | the same for two queries under two policies |
| `Queries.PairsAreThePieces` | src/cache/key.rs:220-256 | the raw pairs are the non-empty `&`-separated pieces, a bare key and an empty value kept apart |
| `Queries.ReadBack` | src/cache/key.rs:220-256 | a canonical query read back is the canonical pair list |
| `Queries.CanonicalQueryIdempotent` | src/cache/key.rs:220-256 | canonicalising twice changes nothing |
| `Queries.KeepsPermittedKeys` | src/cache/key.rs:220-256 | exactly the raw pairs remain whose key is listed, under an including policy, or not listed, under an excluding one |
| `Queries.Canonicalize` | src/cache/key.rs:220-256 | the source's filter, set and sort compute that canonical form |
| `CacheKeys.DecodeRender` | src/cache/key.rs:71-110 | every structural key can be decoded from its canonical text, separators, empty and absent deployment ids and any variant list included |
| `CacheKeys.RenderInjective` | src/cache/key.rs:71-110 | equal canonical texts mean equal keys |
| `CacheKeys.CanonicalString` | src/cache/key.rs:71-110 | the source's pushes build that text |
| `KeyBuilders.EscapeInjective` | src/classifier/mod.rs:101-103 | different header bytes have different escaped text |
| `KeyBuilders.HeaderValuesInjective` | src/cache/key.rs:200-211 | the joined text determines the raw values, and absence differs from every value |
| `KeyBuilders.VariantsAgree` | src/cache/key.rs:125-149 | equal variant entries mean equal raw values, or absence, of every key header |
| `KeyIdentity.SameKeyIff` | src/cache/key.rs:71-165 | two requests, each under its own rules, have one canonical key text exactly when paths and deployments are equal, schemes and methods equal up to case, hosts up to case, surrounding space and default port, the permitted query pairs the same list or a reordering without repeated keys, and the variant entries equal as multisets |
| `KeyIdentity.SameHostIff` | src/cache/key.rs:152-165 | hosts normalise equally exactly when they are equal once the space around them and one trailing default port of the scheme are dropped and case is ignored |
| `KeyIdentity.SameEntriesIff` | src/cache/key.rs:125-140 | under one list of key headers that keeps the reserved name apart, the variant entries are equal exactly when every listed header has the same raw values and the content codings agree |
| `Codings.SameEncodingIff` | src/cache/key.rs:169-198 | content codings agree exactly when, case and spaces aside, the same codings are named in the same order, none counting as `identity` |
| `Codings.EncodingIsWanted` | src/cache/key.rs:169-198 | tidying every piece between commas and semicolons is folding the whole header at once and dropping empty codings |
| `Policies.ParseCacheControl` | src/cache/policy.rs:92-115 | a flag is set by any mention of its directive, a time is that of the last mention |
| `Policies.UnsupportedVaryToken` | src/cache/policy.rs:266-284 | the scan returns the first token the key does not honour |
| `PolicyFacts.StoredIff` | src/cache/policy.rs:173-263 | a response is stored with given times exactly when it sets no cookie, its status is one of seven, every `Vary` entry is one the key tells apart, the origin says none of `no-store`, `private` and `no-cache` or is overridden, storing is on, and each time is what route and origin settle on: the route's lifetime under an override, else the last `s-maxage` or `max-age` cut to the route's maximum, and not zero |
| `PolicyFacts.SharedIff` | src/cache/policy.rs:173-263 | it may reach another client at all exactly under the same rules with a lifetime, or without one when it is only coalesced |
| `PolicyFacts.NamedIff` | src/cache/policy.rs:92-115 | a directive is recognised exactly by its name before any `=`, whatever the case and the space around it |
| `PolicyFacts.TimesIff` | src/cache/policy.rs:92-115 | a time is that of the last directive of its name, and absent if that one cannot be read |
| `Policies.NoStoreNeedsOverrideIff` | src/cache/policy.rs:200-250 | `no-store` is stored only under the route override exactly when coalescing does not disregard the origin, or nothing is stored at all |
| `VaryAgreement.SharedResponsesAgree` | src/cache/policy.rs:173-193 | if a response may be shared, every request with an equal canonical key sends the same raw values, or none, for each header its `Vary` names, and the same normalised codings (section 4.1 of RFC 9111) |
| `VaryAgreement.EncodingsAgree` | src/cache/key.rs:125-149 | equal variant entries separate the content coding from a key header under the reserved name |
| `VaryAgreement.KeysSeparateCodingsIff` | src/cache/key.rs:138-140 | keys never confuse content codings exactly when the reserved name is not listed just once, or `accept-encoding` is itself a key header |
| `Spools.SpoolBudget.Reserve` | src/proxy/spool.rs:91-106 | a claim is granted exactly when it fits, whatever spurious failures come first, and a refusal leaves no trace |
| `Spools.Spool.Offer` | src/proxy/spool.rs:193-219 | one offer ends as the specification says, and the shared budget moves by exactly what the spool reserved |
| `Spools.Spool.GiveUp` | src/proxy/spool.rs:223-233 | everything buffered goes out before the chunk that did not fit |
| `Spools.Spool.EnsureReserved` | src/proxy/spool.rs:250-265 | the claim is granted exactly when it is empty or fits |
| `Spools.Spool.ReleaseAll` | src/proxy/spool.rs:267-281 | the end of a request gives back exactly what it holds |
| `Spools.StreamPreserved` | src/proxy/spool.rs:193-248 | for every chunking and every point of exhaustion, nothing leaves while active, and after the end the outputs are the inputs |
| `SpoolOutcomes.TooLargeIff` | src/proxy/spool.rs:193-233 | over every sequence of offers a spool gives up as too large exactly if an offer took the bytes offered past the body limit while it was still holding |
| `SpoolOutcomes.ExhaustedIff` | src/proxy/spool.rs:193-265 | it gives up for want of budget exactly if bytes that fit the limit needed a larger reservation and that was refused |
| `SpoolOutcomes.CompleteIff` | src/proxy/spool.rs:193-248 | it completes exactly if the end came while it was holding, with everything fitting and nothing refused |
| `SpoolOutcomes.HoldsWhileItFits` | src/proxy/spool.rs:193-219 | a body that has not ended, fits, and is refused nothing is held back whole |
| `Spools.ClaimCoversIff` | src/proxy/spool.rs:250-265 | a rounded claim covers its need exactly when the rounding does not saturate, is less than one step more than needed, is whole steps unless it meets the body limit, and never takes the reservation past that limit |
| `Spools.OfferedCovered` | src/proxy/spool.rs:193-265 | for every body limit and every chunk a slice can hold, an offer keeps the buffer within the reservation and the reservation within the limit |
| `SpoolProtocol.BudgetConserved` | src/proxy/spool.rs:91-110 | over every interleaving of spools and compare-and-swap retries, the counter is the sum of live reservations, within the limit, and ends at zero |
| `SpoolProtocol.ReleaseNeverUnderflows` | src/proxy/spool.rs:108-110 | what a spool gives back was in the counter |
| `SpoolProtocol.EachSpool` | src/proxy/spool.rs:193-281 | in every run each spool preserves its stream and keeps buffer within reservation within body limit |
| `SpoolProtocol.RefusalsAreReal` | src/proxy/spool.rs:91-106 | a refused claim really did not fit at some moment while it was being made |
| `Windows.RollingRatio.ReadTotals` | src/upstream/window.rs:120-133 | the sum over the buckets inside the window |
| `Windows.RollingRatio.FlagOne` | src/upstream/window.rs:96-102 | the returned count includes the new flag |
| `Windows.TotalsAreWindow` | src/upstream/window.rs:78-170 | under a clock that never goes back, the ring of ten buckets reports exactly the last ten epochs of the event log, across rollovers, refunds and resets |
| `Windows.WindowCounts` | src/upstream/window.rs:78-170 | so under such a clock the totals are the number of outcomes of the last ten epochs and of the failures among them, since the last reset |
| `Breakers.Breaker.Ask` | src/upstream/breaker.rs:127-151 | a closed gate lets requests through, an open one denies them before its deadline, and past it lets one probe through under a fresh token and re-arms for the open time |
| `Breakers.Breaker.Record` | src/upstream/breaker.rs:154-170 | an ordinary outcome counts only while closed; with the clock not gone back, the gate opens exactly when the outcome is a failure and, itself included, the last ten epochs hold at least the minimum of outcomes with at least the configured percentage failed |
| `Breakers.TripsIff` | src/upstream/breaker.rs:195-218 | the window after one more failure is over the threshold exactly when the outcomes of the last ten epochs say so |
| `Breakers.TripsMonotone` | src/upstream/breaker.rs:193-204 | failures in place of successes never turn a trip into no trip |
| `Breakers.Breaker.RecordProbe` | src/upstream/breaker.rs:175-191 | only the active probe's outcome closes or re-arms |
| `BreakerProtocol.ClosesOnlyOnLatestProbe` | src/upstream/breaker.rs:127-191 | in every run an open episode ends only on success of the probe admitted last, in that same episode |
| `BreakerProtocol.TokensAreFresh` | src/upstream/breaker.rs:146-150 | every probe's token is larger than the one before it |
| `BreakerProtocol.DeadlineIsNear` | src/upstream/breaker.rs:127-224 | in every run, however many probes were lost or late, the deadline is at most the open time past the largest stamp seen |
| `BreakerProtocol.NeverWedged` | src/upstream/breaker.rs:127-191 | so from every reachable open state the first request to ask after that is admitted as a probe, and its success closes the gate |
| `BreakerProtocol.GuardedStep` | src/upstream/breaker.rs:127-224 | a deadline at least the open time past the last probe is lost exactly by a step that arms the gate with a backdated stamp |
| `BreakerProtocol.GuardedIff` | src/upstream/breaker.rs:127-151 | an open gate has such a deadline exactly when every probe it could admit next would be spaced |
| `BreakerProtocol.ProbesAreSpacedIff` | src/upstream/breaker.rs:127-224 | a run that backdated nothing has spaced its probes, and its next step keeps every next probe spaced exactly if it is not backdated |
| `BreakerProtocol.ProbesAreSpaced` | src/upstream/breaker.rs:146-191 | under a monotone clock all consecutive probes, of one episode or two, are at least the open time apart |
| `BreakerProtocol.MonotoneNeverBackdates` | src/upstream/breaker.rs:127-224 | a clock that never goes back never backdates |
| `BreakerProtocol.StaleTripCrowdsProbes` | src/upstream/breaker.rs:205-217 | a run where a trip stamped long before it lands admits two probes at one instant |
| `BreakerProtocol.TripsAreOpenings` | src/upstream/breaker.rs:195-218 | the trip counter, with swaps not yet counted, is the number of closed-to-open transitions |
| `Retries.RetryBudget.RecordAttempt` | src/upstream/retry.rs:114-118 | an enabled budget counts the attempt, unflagged, in the current bucket |
| `Retries.QuotaExact` | src/upstream/retry.rs:121-131 | the quota is the percentage of the window's requests rounded down, or the minimum if that is more, with the product saturating |
| `Retries.RetryBudget.Charge` | src/upstream/retry.rs:133-150 | an allowed charge is within quota itself included; a refused one only turns the bucket to the current epoch |
| `RetryProtocol.RetriesWithinShare` | src/upstream/retry.rs:121-150 | with flags stamped in order, however charges interleave and in whatever order and time each reads the buckets, allowed retries stay within the configured share of first attempts plus retries, or the minimum |
| `RetryOrder.ShareKeptIff` | src/upstream/retry.rs:133-150 | every run with these flag stamps, whatever else happens in it, keeps its share exactly when the stamps are in order |
| `RetryOrder.LoadKeptIff` | src/proxy/mod.rs:465-480 | with no minimum and a share below one, every such run keeps origin load within first attempts times 100/(100-p) exactly when the stamps are in order |
| `RetryOrder.StaleStampOverspends` | src/upstream/retry.rs:133-150 | for every out-of-order sequence of stamps, a run with just those flags that exceeds its share |
| `RetryProtocol.AmplificationBounded` | src/proxy/mod.rs:1005-1011 | with no minimum and a share below one, origin load is at most first attempts times 100/(100-p) |
| `RetryProtocol.RefusalsLeaveNoTrace` | src/upstream/retry.rs:144-148 | in every run, with every charge settled the flagged counts are the number of allowed retries |
| `Addresses.PrefixEqIsInteger` | src/net/forwarded.rs:122-134 | comparing octets under a mask is comparing the addresses as integers shifted down to the prefix |
| `Addresses.ShrIsQuotient` | src/net/forwarded.rs:122-134 | that shift is division by the power of two, rounded down |
| `Addresses.ContainsIsInteger` | src/net/forwarded.rs:101-119 | membership is one comparison of 128-bit integers for every family, mapped addresses included, except that no IPv6 block holds an IPv4 address |
| `Forwarding.WalkBack` | src/net/forwarded.rs:203-210 | the right-to-left search finds the last untrusted hop, else the leftmost |
| `Forwarding.UntrustedPeerIsTheClient` | src/net/forwarded.rs:167-186 | from a peer outside every trusted block any two sets of headers give the same facts, the connection's own |
| `Forwarding.TrustedPeerSpeaksFor` | src/net/forwarded.rs:167-231 | behind a trusted peer the client is a named address with only trusted hops after it, itself untrusted unless it is the first, else the peer; the scheme is the listener's, `http` or `https` |
| `Forwarding.FirstParamCounts` | src/net/forwarded.rs:293-300 | the first parameter of a name, in letters of either case, counts, without the space and quotes around its value |
| `Forwarding.LeftCannotMatter` | src/net/forwarded.rs:203-210 | nothing to the left of a part that names an untrusted hop changes the client |
| `Forwarding.LeftCannotMatterIff` | src/net/forwarded.rs:203-210 | and exactly then |
| `Forwarding.EarlierTextCannotMatter` | src/net/forwarded.rs:167-195 | earlier header lines and earlier text on the same line cannot change the resolved client |

## Left out

- Pingora hooks, sockets, TLS, DNS, metrics, the admin API, tracing and the command line: foreign calls and I/O.
- Configuration parsing and validation, the classifier's precedence, request-side policy, drain state, health streaks and upstream selection: each would only add easy members.
- `parse_tags`, hashing and fingerprints: tags, keys and metadata arrive as values; a key is its canonical text under an injective name.
- Memory orderings: every step is sequentially consistent.
- The semaphore's fairness and wake-up order: a waiter may be served, or give up, at any step.
- `visited` bits are a set of keys and a stored body is a value with its writer's id, so sharing of one allocation by several readers is not modelled.
- Counters that only feed metrics, and wrap-around of 32-bit window counters, 64-bit ids, probe tokens and queue depth, are unbounded integers.
- BoundedStores.BoundedStore.Reserve: assumes a byte budget below the largest machine integer, because at that exact value the saturating sum in the source can never exceed it. Every run of the store protocol assumes the same.
- Admission.AdmissionController.Admit: models the path without queueing; waiting, queue bounds and time-outs are steps of `LimiterProtocol` and `AdmissionProtocol`.
- Breakers.Breaker.Ask: one caller at a time; the repeated check under the lock and racing callers are steps of `BreakerProtocol`.
- RetryProtocol.RetriesWithinShare: speaks of one budget window, in which no bucket expires; expiry is `Windows.TotalsAreWindow`.
- Spools.SpoolBudget.Reserve: one caller at a time, with spurious failures; interference between the load and the swap is `SpoolProtocol`.
- LimiterProtocol.AtRestAllOrNothing: rests on the assumption that a waiter is assigned all of its units at once; `LimiterProtocol.AtRest` does without it.
- Forwarding.EarlierTextCannotMatter: the syntax of one address is a parameter, and header values arrive decoded.
- Spools.Spool.Offer: buffer lengths are unbounded integers, so the sum of a buffer's and a chunk's length does not wrap.
