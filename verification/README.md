# Verified model of mulprox

Mulprox forwards HTTP CONNECT, plain HTTP and SOCKS5 traffic through Mullvad relays. It
chooses a relay per request, retries through other relays, keeps statistics and health
records per relay, and caches transports. This project models the stateful cores of that
program and proves what they promise. `dafny verify dfyconfig.toml` checks all of it.

| File | Part of the program |
|---|---|
| `Recency.dfy`, `PausedGets.dfy`, `LinkedList.dfy`, `LruCache.dfy` | the LRU cache: its specification over traces, the interleavings of its two-lock `Get`, the linked list, the cache |
| `RelayStore.dfy`, `StatsQueue.dfy`, `StatsRun.dfy` | relay records, the update queue with `flush`, whole runs from `Start` to `Stop` |
| `StatsWindow.dfy`, `StatsScan.dfy` | rate window and ring buffers, aggregate scans while counters move |
| `Subscribers.dfy` | snapshot channels |
| `Health.dfy` | probes, circuit breaker strikes, serial and interleaved |
| `RelayList.dfy`, `RelaySelection.dfy`, `ConnString.dfy` | relay list and filter, relay choice, connection strings |
| `RequestHeaders.dfy` | the documented keys, from the text to the relay chosen |
| `Retry.dfy` | CONNECT and HTTP retry loops |
| `Breaker.dfy` | the circuit breaker from a failed CONNECT to the next selection |
| `Socks5Codec.dfy`, `Socks5Session.dfy`, `Socks5Wire.dfy` | SOCKS5 framing, the server session, and both byte by byte |
| `ByteAccounting.dfy` | `countingWriter` and the counters of `Tunnel` |
| `Wrappers.dfy`, `Sequences.dfy`, `Sums.dfy`, `Folds.dfy`, `Text.dfy` | shared helpers |

## How it is modelled

Code that changes objects in place is a class whose methods are proved against functions of
the old state: the cache and its list, the store and its records, the queue, the rate window,
the SOCKS5 connection, the counting writer. Several goroutines are a state machine: a state,
an action per critical section, atomic read or channel operation, and theorems about every
sequence of enabled actions. What happens outside (dials, DNS, relay list fetches, random
numbers, latencies, client writes, the clock) is a parameter or an environment function, so a
theorem covers every outcome. `Retry` and `Socks5Session` record what the handler does in a
log; the methods are proved to leave exactly the log, or the account of it, that the environment
calls for, and the theorems are about that account. `LruCache.Replay` and `LruCache.Interleave`
run whole traces of calls on a real cache object, which ties the theorems over traces to it.

A member whose name ends in `Law` says what a definition of the model means without naming it: on
raw fields, bytes, counts and error flags. The definitions stay as short as the code, and the laws
keep both from drifting together.

Conventions: counters are unbounded natural numbers, rates are real numbers, byte counts are
not negative, and time is a natural number with 0 for Go's zero time. A mean latency is kept as
its sum and its count. Strings are strings of
bytes with ASCII case folding and ASCII white space. The map iterations of `flush`,
`GetAggregated` and `Clear` visit the keys in an arbitrary order. `sort.Slice` is any sorted
permutation of its input. Relay hostnames are not empty.

## Where the code and its documentation differ

README.md:108 says that a relay is offline after 2 failures and back after 3 successes. The
model follows internal/stats/stats.go:757-768. With the configured thresholds the status after
a run is decided by one event, the last but one (`Health.StatusIsThePenultimateEvent`). Each
half of the sentence holds in one direction (`Health.ReadmePromiseKept`). The converse of the
first half holds exactly when the run does not end with a success right after a failure
(`Health.OfflineOnlyAfterTwoFailures`); the converse of the second never holds, because a relay
comes back after two successes or after a success and a failure
(`Health.ComesBackAfterOneOrTwoSuccesses`). `Health.ReadmeConverseFails` gives the runs.

README.md:34 calls a choice with a seed deterministic. For SOCKS5 it is
(`Socks5Session.SeededChoiceIsDetermined`). For CONNECT and plain HTTP the fallback of
internal/proxy/handler.go:644 draws without the seed, so a seed determines the relay if and only
if the first scan finds one or the fallback has at most one to choose from
(`RelaySelection.SeededResolutionIff`); `RelaySelection.FallbackIgnoresSeed` has two rolls choose
two relays.

README.md:110 speaks of 3 retries on transient errors. The code makes three attempts in all, and
CONNECT goes on to the next attempt after any error (`Retry.ConnectLoop`), plain HTTP only after a
transient one (`Retry.ProxyHTTP`).

Six more properties one might expect do not hold, and the model says exactly when they do:

- A `Get` paused across a `Clear` relinks a dead element (`LruCache.ClearDuringGet`). A cache
  that callers use in any interleaving is broken if and only if one of them moves such an
  element (`LruCache.Interleave`), which happens if and only if a `Clear` between the two locks
  of a `Get` found the element of that `Get` in the cache (`PausedGets.MovesStaleIff`).
- An update accepted from a sender that was under way at `Stop` can stay queued for ever
  (`StatsRun.LateSenderIsLeftQueued`). Everything accepted is applied however the run goes on
  if and only if no sender is under way at `Stop` (`StatsRun.StopLosesNothingIff`).
- A strike that lands while a probe is under way is overwritten by the probe's record
  (`Health.StrikesCanBeOverwritten`). It makes no difference exactly when the probe succeeds on
  a relay that already had failures (`Health.StrikesUndoneIff`).
- A `Tunnel` tick reads each counter twice, and bytes that arrive in between are never recorded
  (`ByteAccounting.InterruptedTickLoses`). A direction is recorded exactly if and only if no bytes
  were copied between the two reads of a tick that recorded (`ByteAccounting.RecordedExactlyIff`).
- When all attempts of a CONNECT fail, the error is recorded for the last relay found, which may
  never have been tried. It was tried if and only if the last selection found no relay
  (`Retry.ErrorGoesToTriedRelayIff`).
- Applying "s,t" at once differs from applying s and then t when t resets a seed, a speed or
  multihop that s sets; they agree exactly otherwise (`ConnString.ApplyingConcat`).

The SOCKS5 server answers an unsupported command with reply code 2. Section 6 of RFC 1928
assigns 7 to that case; the model keeps 2.

## Model

| member | source | states |
|---|---|---|
| Recency.RunFits | internal/util/lrucache.go:40-116 | Over any trace of calls the keys stay distinct and the length within the capacity. |
| Recency.HitLaw | internal/util/lrucache.go:56-96 | A call on a cached key, entry by entry: Get and Set move that entry to the front, Set with the new value, Delete takes it out, and nothing is evicted. |
| Recency.InsertLaw | internal/util/lrucache.go:69-85 | A Set of a new key puts it first and evicts exactly the oldest entry, only if the cache is full. |
| Recency.LookupLaw | internal/util/lrucache.go:40-96 | After a Set the key has the new value, after a Delete it has none, and no other key changes but an evicted one. |
| Recency.GoneStaysGone | internal/util/lrucache.go:88-116 | A key that was deleted or cleared is not found after any calls that do not Set it. |
| Recency.Inclusion | internal/util/lrucache.go:40-116 | For every trace and capacities 1 <= m <= n, the recency list of the smaller cache is a subsequence of the larger one's, which has at least as much room left, and every hit in the small cache is a hit on the same value in the large one. |
| Recency.WorkingSet | internal/util/lrucache.go:40-86 | A key that the trace alone shows to be kept (between any touch and the next fewer than n distinct other keys, no Delete or Clear) is found with the value last Set. |
| Recency.SetIsRetained | internal/util/lrucache.go:56-86 | A Set value is still found after any calls that touch fewer than n distinct other keys. |
| Recency.Conservation | internal/util/lrucache.go:56-116 | Every value ever Set is, with multiplicity, exactly one of: still cached, passed to onEvict, overwritten or deleted. |
| PausedGets.NextStep | internal/util/lrucache.go:40-116 | Each critical section, other than a move of an element that a Clear left behind, keeps map, list and length in agreement and changes the recency sequence as the serial calls it stands for do. |
| PausedGets.InterleavingIsSerial | internal/util/lrucache.go:40-116 | With any number of Gets paused between their locks and before their reads, every such interleaving with Set, Delete and Clear ends in the state of a serial run. |
| PausedGets.ExecutionExtends | internal/util/lrucache.go:40-116 | Every such step can be taken from every reachable state, so the theorem above covers all runs. |
| PausedGets.GetReturnsSeenValue | internal/util/lrucache.go:40-54 | In every run in which no caller moves an element that a Clear left behind: up to and at the unlocked read that ends a Get, the value found was the cached value of that key at some moment since the Get began, whatever overwrote, evicted or deleted it meanwhile, or cleared it after the move. |
| PausedGets.StaleIff | internal/util/lrucache.go:104-116 | An element is left owned by the list without being in it if and only if some Clear found it in the cache. |
| PausedGets.MovesStaleIff | internal/util/lrucache.go:40-54 | A Get moves such an element if and only if a Clear after its lookup found its element in the cache. |
| LinkedList.List.PushFront | internal/util/lrucache.go:69-72 | Links a fresh element first; the ring stays well formed and other values stay. |
| LinkedList.List.Remove | internal/util/lrucache.go:78-79 | Takes an owned element out of the ring and disowns it; ignores any other element. |
| LinkedList.List.MoveToFront | internal/util/lrucache.go:49-51 | Moves a linked element to the front and ignores a foreign one; the ring is broken afterwards if and only if the list owned the element without containing it. |
| LinkedList.List.Init | internal/util/lrucache.go:115-115 | Empties the ring without disowning its elements. |
| LruCache.Cache.constructor | internal/util/lrucache.go:23-38 | An empty cache; a capacity that is not positive becomes 50. |
| LruCache.Cache.BeginGet | internal/util/lrucache.go:41-47 | The lookup half of Get: the element stored under the key. |
| LruCache.Cache.EndGet | internal/util/lrucache.go:49-52 | The move half of Get, on any element ever created, even one evicted meanwhile: the cache stays valid if and only if no Clear left the element behind. |
| LruCache.ReadSection | internal/util/lrucache.go:53-53 | The unlocked read returns the present value of the element that the caller holds. |
| LruCache.Cache.Get | internal/util/lrucache.go:40-54 | Returns what the recency sequence holds for the key and moves it to the front. |
| LruCache.Cache.Set | internal/util/lrucache.go:56-86 | The linked structure takes exactly the Set step of the recency sequence; onEvict gets the value of the last list element exactly if the key is new and the list full, and otherwise nothing. |
| LruCache.Cache.Delete | internal/util/lrucache.go:88-96 | Takes exactly the Delete step of the recency sequence. |
| LruCache.Cache.Len | internal/util/lrucache.go:98-102 | The length of the recency sequence, within the capacity. |
| LruCache.Cache.Clear | internal/util/lrucache.go:104-116 | Empties the cache and passes every cached value to onEvict once. |
| LruCache.ClearDuringGet | internal/util/lrucache.go:104-116 | Witness: a Get paused across Clear leaves a ring that holds an element although the length is 0. |
| LruCache.Interleave | internal/util/lrucache.go:40-116 | Any interleaving of calls and parts of Gets on a cache object is an execution of the model; the object is broken if and only if it was stopped by a move of an element that a Clear left behind. |
| LruCache.Replay | internal/util/lrucache.go:40-116 | After any trace of calls a cache object holds the recency sequence of the trace, and the values Set are, with multiplicity, those it holds, those it passed to onEvict, and those overwritten or deleted. |
| LruCache.GetAfter | internal/util/lrucache.go:40-116 | On a cache object, after any trace: Get finds a value that was Set with fewer than n other keys touched since, and nothing after a Delete of the key or a Clear with no Set of it since. |
| LruCache.ContentsLaw | internal/util/lrucache.go:9-21 | The recency sequence is the list, element by element, and the map finds exactly its entries. |
| LruCache.OldestIsEvicted | internal/util/lrucache.go:75-85 | What a Set passes to onEvict is the value that its step trims off. |
| LruCache.OldestIsLast | internal/util/lrucache.go:73-85 | The value that a Set of a new key evicts is the value of the last list element, and only a full cache evicts one. |
| RelayStore.RemoteStore.GetOrCreate | internal/stats/types.go:123-142 | Returns the one record of the id, a new one only if there was none; all other records stay. |
| RelayStore.RemoteStore.PeekHealth | internal/stats/types.go:154-169 | Health is known exactly for relays with a record that was checked. |
| RelayStore.RemoteStore.RecordRemoteFailure | internal/stats/stats.go:397-402 | Strikes the record of that relay, creating it if needed, and no other; the empty id is ignored. What a strike is, RelayStore.PeekAfterStrike states. |
| RelayStore.PeekAfterStrike | internal/stats/types.go:154-182 | After a strike health is known, even of a relay never checked: one more failure, no successes, online exactly if the failures are below the threshold; of other relays PeekHealth says what it said. |
| RelayStore.StrikeThenPeek | internal/stats/types.go:154-182 | The same of the two methods, on the records of the store. |
| RelayStore.TwoStrikesTrip | internal/stats/types.go:171-182 | Two strikes at threshold 2 take a relay offline for PeekHealth, whatever was known of it before. |
| RelayStore.NeverCheckedIsUnknown | internal/stats/types.go:154-169 | Nothing is known of a relay exactly if it has no record or one that was never checked. |
| RelayStore.RemoteStore.CountFailure | internal/stats/types.go:173-182 | The critical section of a strike changes the health of one record and nothing else. |
| RelayStore.RemoteStore.SetRemoteMetadataSync | internal/stats/stats.go:374-381 | Writes host name, country and city of one record, creating it if needed. |
| RelayStore.RemoteStore.GetAggregated | internal/stats/types.go:184-210 | The totals are the sums over all records, in whatever order the map is visited. |
| RelayStore.PartialStep | internal/stats/types.go:194-208 | One turn of the scan loop extends the aggregate by one record, whichever comes next. |
| RelayStore.ScanLaw | internal/stats/types.go:184-210 | An empty store gives zeros, and one more record adds its counters, one relay, and one online and active relay if it is online. |
| RelayStore.RequestsAddUp | internal/stats/types.go:184-210 | RequestsPerRemote lists exactly the records and sums to TotalRequests; active equals online. |
| RelayStore.OneRecordPerId | internal/stats/types.go:123-142 | However callers interleave between the two locks of GetOrCreate, two of them hold the same record if and only if they asked for the same id. |
| StatsQueue.MergeCoalesce | internal/stats/stats.go:231-333 | Coalescing an update and then applying is applying and then the update; only a zero-byte update leaves a pending entry inactive. |
| StatsQueue.MergeStep | internal/stats/stats.go:222-336 | Adding an update to the batch equals applying it after the batch, for every relay. |
| StatsQueue.BatchingIsOneByOne | internal/stats/stats.go:222-336 | Applying the coalesced batch gives the same records as applying each update on its own in queue order, including last write wins, LastUsed, and no record for a lone zero-byte update. |
| StatsQueue.CountersLaw | internal/stats/stats.go:231-313 | Of every queue and relay: the request and error counters grow by the number of such updates. |
| StatsQueue.BytesLaw | internal/stats/stats.go:231-313 | The byte counters grow by the sums of the bytes reported for the relay. |
| StatsQueue.RecordsLaw | internal/stats/stats.go:291-300 | A record exists exactly if it did before or some update of the relay is not a zero-byte one. |
| StatsQueue.LastWordLaw | internal/stats/stats.go:302-333 | Egress address, metadata and health are those of the last update that sets them; requests and errors set LastUsed. |
| StatsQueue.UntouchedLaw | internal/stats/stats.go:302-333 | What no update of the relay sets stays as it was. |
| StatsQueue.InMemoryStore.SendNonBlocking | internal/stats/stats.go:338-349 | Accepts exactly when started and fewer than 10000 are queued; an accepted update goes last, otherwise the queue stays. |
| StatsQueue.InMemoryStore.Drain | internal/stats/stats.go:225-289 | Takes the whole queue, or the prefix with which more than 10000 relays are pending, coalesced per relay, and leaves the rest. |
| StatsQueue.InMemoryStore.Flush | internal/stats/stats.go:222-336 | For any map order the records become those of one-by-one application of the drained prefix. |
| StatsQueue.ApplyPending | internal/stats/stats.go:291-334 | An active pending entry changes or creates exactly one record; an inactive one nothing. |
| StatsRun.UpdatesAreConserved | internal/stats/stats.go:110-158 | Over every run: accepted = applied, then drained, then queued, in order; per kind, calls made = under way + accepted + dropped; TotalRequests plus requests not yet applied = requests accepted. |
| StatsRun.ApplyAllTotal | internal/stats/stats.go:302-313 | Applying updates raises the sum of all request counters by the number of requests. |
| StatsRun.StrikeShows | internal/stats/stats.go:397-402 | At any moment of a run a strike is applied at once, past the queue: PeekHealth shows one more failure. |
| StatsRun.FlushEmptiesFullQueue | internal/stats/stats.go:282-284 | A flush of a queue within its capacity never stops at the cutoff. |
| StatsRun.ExitAppliesAllIff | internal/stats/stats.go:143-158 | In every run that reaches the flusher's exit, everything accepted was applied if and only if some receive emptied the queue and no sender enqueued after it. |
| StatsRun.ExitWithoutCutoff | internal/stats/stats.go:222-289 | If the last receive of the final flush found the queue empty, everything accepted was applied if and only if no sender enqueued after that receive. |
| StatsRun.StopLosesNothing | internal/stats/stats.go:120-158 | If no sender is under way at Stop, then when the flusher has exited the queue is empty and everything accepted was applied. |
| StatsRun.StopLosesNothingIff | internal/stats/stats.go:120-158 | At every Stop of every run: all continuations that reach the flusher's exit apply everything accepted if and only if no sender is under way. |
| StatsRun.RunToExit | internal/stats/stats.go:143-158 | Every stopped store can run on to the flusher's exit. |
| StatsRun.ExitIsFinal | internal/stats/stats.go:143-158 | After the exit nothing more is applied and nothing leaves the queue. |
| StatsRun.LateSenderIsLeftQueued | internal/stats/stats.go:338-349 | Witness: an update whose sender was under way at Stop is in the queue after the flusher's exit, and stays there in every continuation. |
| StatsWindow.Window.UpdateWindow | internal/stats/stats.go:178-220 | Each tick writes, at the write index, the growth of requests, bytes and errors over the last min(5, t) ticks divided by that number, and keeps all ring buffers equal to the history. |
| StatsWindow.Window.GetWindow | internal/stats/stats.go:422-429 | Exactly the last 120 entries, oldest first, padded with empty entries in front. |
| StatsWindow.StatLaw | internal/stats/stats.go:178-220 | From the sixth tick on, an entry is the growth of each total over five ticks, divided by five; relays are those of the scan. |
| StatsWindow.EarlyStatLaw | internal/stats/stats.go:178-220 | Before that it is the total divided by the number of ticks. |
| StatsWindow.Tick | internal/stats/stats.go:178-220 | After a tick the window shown has 120 entries, the last with the rate of the last five ticks, and zeros for ticks before the first. |
| StatsWindow.SmoothingStep | internal/stats/stats.go:186-209 | Overwriting the oldest slot keeps the five slots equal to the latest growths, whose sum telescopes to a difference of totals. |
| StatsWindow.WindowedStep | internal/stats/stats.go:211-219 | Overwriting the oldest entry keeps the ring equal to the last 120 entries of the history. |
| StatsWindow.WindowedAt | internal/stats/stats.go:422-429 | The i-th slot after the write index is the i-th oldest entry. |
| StatsScan.ScansNeverDecrease | internal/stats/types.go:184-210 | With additions between the atomic reads of a scan, totals of successive scans never decrease and each scan's per-relay requests add up to its total. |
| StatsScan.ScansFitTheWindow | internal/stats/stats.go:178-184 | Any later scan is no smaller than an earlier one, so the unsigned subtractions of updateWindow do not wrap. |
| StatsScan.ScanIsBetween | internal/stats/types.go:184-210 | In every interleaving each total of a scan is at least what the counters showed when the scan began and at most what they show when it ends. |
| Subscribers.NoPanic | internal/stats/stats.go:456-488 | No interleaving of Subscribe, cancel, unsubscribe, broadcast and Stop sends on a closed channel or closes one twice. |
| Subscribers.PanicLaw | internal/stats/stats.go:472-488 | A panic is exactly a send on a closed channel, or a close of a closed channel that the Once does not stop. |
| Subscribers.BroadcastReachesAll | internal/stats/stats.go:479-488 | A broadcast offers the snapshot to exactly the subscribers there are when it begins, once each, whatever runs meanwhile. |
| Subscribers.StaysSubscribed | internal/stats/stats.go:456-477 | Whoever subscribed is among them until it unsubscribes or Stop begins. |
| Subscribers.SendsAreOpen | internal/stats/stats.go:479-488 | Whenever a message is sent, its channel has not been closed. |
| Subscribers.ClosesLaw | internal/stats/stats.go:472-477 | Unsubscribe and Stop close exactly their channel, and closed channels stay closed. |
| Subscribers.EveryChannelIsClosed | internal/stats/stats.go:135-140 | When no subscriber is left and no close is under way, every channel ever made is closed. |
| Health.PingServer | internal/stats/stats.go:743-793 | Computes the specified record from the measurements and the two counters it was given. |
| Health.ProbeLaw | internal/stats/stats.go:743-793 | A probe field by field: counters, status, the first two latencies that were measured, and their mean or, without any, the health latency. |
| Health.CountersAreTrailingRuns | internal/stats/stats.go:757-765 | Over serial runs, for any thresholds, the counters are the lengths of the trailing runs of failures and successes. |
| Health.ProbeOnlineIffNoPriorFailure | internal/stats/stats.go:767-768 | With both thresholds at least 2, a probe ends online if and only if the failure counter it read was 0. |
| Health.OtherThresholdsDecide | internal/stats/stats.go:767-768 | For all other thresholds that equivalence fails after some run, so the condition is exact. |
| Health.StatusIsThePenultimateEvent | internal/stats/stats.go:757-768 | With the configured thresholds a relay is online if and only if the event before the last one did not fail. |
| Health.ReadmePromiseKept | README.md:108 | Two trailing failures give offline and three (indeed two) trailing successes give online. |
| Health.OfflineOnlyAfterTwoFailures | README.md:108 | "Offline only after two failures" holds after a run if and only if the run does not end with a success right after a failure. |
| Health.ComesBackAfterOneOrTwoSuccesses | README.md:108 | An offline relay only comes back after exactly two successes, or after a success followed by a failure. |
| Health.ReadmeConverseFails | README.md:108 | Witness runs: ok, fail, ok is offline; fail, fail, ok, fail is online; fail, fail, ok, ok is online. |
| Health.NextSound | internal/stats/stats.go:329-333 | Every step of probes, drops, delayed writes and strikes keeps the health invariant. |
| Health.InterleavedHealth | internal/stats/stats.go:735-776 | In every interleaving each stored or queued record has one counter at 0, fewer failures than the larger threshold while online, and a positive counter once checked. |
| Health.OnlineShowsAtMostOneFailure | internal/stats/types.go:96-110 | With the configured thresholds an online record never shows more than one failure. |
| Health.StrikesCanBeOverwritten | internal/stats/stats.go:329-333 | Witness: the write of a probe begun before two strikes puts the relay back online. |
| Health.DelayedProbeIsSerial | internal/stats/stats.go:735-776 | A delayed probe writes what a probe at the moment of the write would, if and only if the counters it read still say the same. |
| Health.DelayedWriteIsSerial | internal/stats/stats.go:329-333 | In every run, the flush of a probe's write stores the record that a probe begun just before the flush would give, if and only if the counters that the probe read at its begin still say the same. |
| Health.StrikesUndoneIff | internal/stats/stats.go:329-333 | In every run, if only strikes change a relay's record between a probe's begin and the flush of its write, the write undoes them unless, and only unless, the probe succeeds on a relay that already had failures. |
| RelayList.StringInSlice | internal/mullvad/mullvad.go:417-424 | True exactly if some element equals the string up to case. |
| RelayList.FilterByFilter | internal/mullvad/mullvad.go:516-548 | A server is kept exactly if it is one of the countries, cities and providers asked for, up to case, has the owner, at least the speed, the port for multihop and the host name asked for; the fast path for an empty filter agrees. |
| RelayList.FilterIsSubsequence | internal/mullvad/mullvad.go:516-548 | That result is the subsequence at increasing positions, which are exactly those of the servers that match. |
| RelayList.OnlySpeedLaw | internal/mullvad/mullvad.go:536-538 | With only a minimum speed, the servers kept are all those at least that fast. |
| RelayList.FasterIsFewer | internal/mullvad/mullvad.go:536-538 | Under any filter, a higher minimum speed keeps a subset. |
| RelayList.ParseMullvadRelays | internal/mullvad/mullvad.go:634-661 | Keeps exactly the active relays, in order. |
| RelayList.ActiveCounts | internal/mullvad/mullvad.go:640-658 | A server is listed as often as it occurs as an active relay. |
| RelayList.AscendingIsUnique | internal/mullvad/mullvad.go:600-602 | A multiset of servers has at most one arrangement with strictly ascending host names. |
| RelayList.ListingIsCanonical | internal/mullvad/mullvad.go:595-602 | The sorted list does not depend on the order of the API answer or on inactive relays. |
| RelaySelection.GetFilteredServer | internal/mullvad/mullvad.go:426-450 | Chooses the match that the seeded generator points at, or the random number without a seed; fails exactly, and with the error that says why, if there is none or the list cannot be read. |
| RelaySelection.GetFilteredServerWithHealth | internal/mullvad/mullvad.go:452-487 | The same among the matches that are online. |
| RelaySelection.PickFallbackServer | internal/proxy/handler.go:615-645 | Draws, without a seed, from the matches that are neither excluded nor known to be offline, or from the offline ones that are not excluded if there are none; fails exactly if all matches are excluded or the list cannot be read. |
| RelaySelection.FallbackLaw | internal/proxy/handler.go:615-645 | The fallback draws from the matches not excluded; one known to be offline is among them only if all of them are known to be offline. |
| RelaySelection.FirstScanLaw | internal/proxy/handler.go:581-592 | The first scan chooses among exactly the matches that are neither excluded nor known to be offline. |
| RelaySelection.ResolveSOCKS5 | internal/proxy/handler.go:570-611 | The first scan decides whenever it finds a relay, by the seed if there is one, and only otherwise the fallback; the choice matches the filter of the request and is not excluded; it fails exactly if the header is invalid or neither scan finds a candidate; an offline relay only if the fallback scan saw all candidates offline. |
| RelaySelection.ResolveFromOneList | internal/proxy/handler.go:570-611 | With one readable list and a valid header the choice fails if and only if every match is excluded. |
| RequestHeaders.ResolveSpeed | internal/proxy/handler.go:570-611 | A request with "speed=n" gets a relay at least that fast that is not excluded; with no other filter it fails only if every such relay of the last list is excluded. |
| RequestHeaders.ResolveCountry | internal/proxy/handler.go:570-611 | A request with "country=v" gets a relay of one of the countries asked for; with no other filter it fails only if every relay of that country is excluded. |
| RequestHeaders.ResolveHostname | internal/proxy/handler.go:570-611 | A request with "relay-hostname=v" gets that relay or fails. |
| RelaySelection.SeededChoiceIsCanonical | internal/mullvad/mullvad.go:436-446 | For a non-zero seed the server that either provider call chooses does not depend on the order of the API answer, on inactive relays or on random numbers. |
| RelaySelection.SeededResolutionIff | internal/proxy/handler.go:570-645 | For a non-zero seed the relay of a request is the same for all random numbers, orders of the API answers and inactive relays if and only if the first scan finds a relay or the fallback has at most one to choose from. |
| RelaySelection.FallbackIgnoresSeed | internal/proxy/handler.go:644-644 | Witness: with two matches known to be offline, two random numbers choose two relays under any seed. |
| ConnString.ParseProxyAuth | internal/proxy/auth_parser.go:11-92 | The loop computes the fold of one piece after another, with the same errors. |
| RequestHeaders.ListKeysLaw | internal/proxy/auth_parser.go:53-85 | "country=v", "city=v", "provider=v" and "relay-hostname=v" give exactly that filter, for every v with nothing to unescape. |
| RequestHeaders.NumberKeysLaw | internal/proxy/auth_parser.go:58-77 | "seed=n" and "speed=n" give that number, for every 64-bit n in decimal. |
| RequestHeaders.BoolKeysLaw | internal/proxy/auth_parser.go:94-103 | true, 1, yes, false, 0 and no in any case are the values of "owned" and "multihop"; every other word is an error. |
| RequestHeaders.NoNumberLaw | internal/proxy/auth_parser.go:58-77 | A number with a byte that is no digit is an error. |
| RequestHeaders.UnknownKeyLaw | internal/proxy/auth_parser.go:86-87 | Every other key is an error. |
| RequestHeaders.OrphanLaw | internal/proxy/auth_parser.go:30-33 | A value before the first key is an error. |
| RequestHeaders.EmptyValueLaw | internal/proxy/auth_parser.go:47-51 | A key without a value says nothing. |
| RequestHeaders.SpacedItem | internal/proxy/auth_parser.go:21-47 | White space around keys and values and the case of keys do not matter. |
| RequestHeaders.EscapeLaw | internal/proxy/auth_parser.go:42-46 | In values "+" is a space and %XX the byte; anything else after % is malformed. |
| ConnString.PrintThenParse | internal/proxy/auth_parser.go:11-92 | Parsing undoes a percent-encoding printer for every filter whose values are trimmed and not empty. |
| ConnString.BareValueRepeatsKey | internal/proxy/auth_parser.go:22-38 | "k=a,b" and "k=a,k=b" parse alike in every context and for every b, blank ones and errors included. |
| ConnString.ParsingConcat | internal/proxy/auth_parser.go:11-92 | If the first non-blank piece of t has "=", then "s,t" parses if and only if s and t do, to t laid over s. |
| ConnString.ApplyTo | internal/proxy/handler.go:51-76 | Lists are appended, a seed, speed, owner or host name overrides when set, multihop is only switched on. |
| ConnString.ApplyingConcat | internal/proxy/handler.go:51-76 | Applying "s,t" equals applying s and then t on every filter if and only if t takes nothing back that s sets. |
| Retry.HandleConnect | internal/proxy/handler.go:403-518 | Refusals get exactly their one response; a hijacked CONNECT gets exactly the tries, strikes, records and closes that relays, target and client call for; in its log a relay is struck if and only if there is a store, the relay has a name, and a try of it failed with a network error, an EOF or a context that was done. |
| Retry.ConnectLoop | internal/proxy/handler.go:431-517 | The tries are, in order, the relays that selection returned with the errors of their attempts, up to the first that reaches the target; an attempt that fails at the upstream proxy is no try; lastErr is set whenever no attempt reaches the target. |
| Retry.AttemptLaw | internal/proxy/handler.go:431-490 | One attempt, on what relays and target do: an error of the relay or the target is charged to a try, excludes the relay and selects another; an error behind the relay changes nothing. |
| Retry.ReachedLaw | internal/proxy/handler.go:492-510 | How a CONNECT ends at the first attempt that reaches the target: tunnel and request record, or error record, and both connections closed once. |
| Retry.ExhaustedLaw | internal/proxy/handler.go:512-517 | How it ends when none of three attempts does: an error record for the last relay found. |
| Retry.StrikesLaw | internal/proxy/handler.go:452-481 | A CONNECT strikes a relay if and only if health is kept, the relay has a name, and a try of it failed with a network error, an EOF or a context that was done. |
| Retry.ReadLaw | internal/proxy/handler.go:403-518 | The account counts, with multiplicity, the tries, strikes, records, responses and closes of the log. |
| Breaker.TwoFailedConnectsTrip | internal/proxy/handler.go:737-745 | Two CONNECTs that fail on one relay take it offline for PeekHealth, whatever was known before, and no first scan that sees the store chooses it. |
| Breaker.FailedConnectShows | internal/proxy/handler.go:737-745 | One CONNECT that fails on a relay adds exactly one failure, visible to PeekHealth at once. |
| Breaker.OthersAreLeftAlone | internal/proxy/handler.go:737-745 | A CONNECT leaves the health of every relay alone that it does not fail on. |
| Breaker.ResolveAfterTwoStrikes | internal/proxy/handler.go:581-611 | A request that sees two strikes on a relay is only given it if the first scan finds no relay at all. |
| Retry.EveryConnectFinishes | internal/proxy/handler.go:431-517 | Of every environment: no relay is tried twice, at most three tries, all but the last failed, strikes for exactly the tries that blame their relay, the client connection closed once, and either the request or an error recorded. |
| Retry.BeforeIsFresh | internal/proxy/handler.go:431-490 | Before each attempt the relays tried are excluded and the relay to use is not among them. |
| Retry.FirstConnectedIsFirst | internal/proxy/handler.go:431-490 | The attempt that ends the loop is the first that reaches the target. |
| Retry.TunnelOpensIff | internal/proxy/handler.go:492-510 | A tunnel opens if and only if the first attempt that reaches the target can answer the client. |
| Retry.ErrorGoesToTriedRelayIff | internal/proxy/handler.go:512-517 | When all attempts fail, the relay that the error is recorded for was tried if and only if the last selection found no relay. |
| Retry.ConnectDirect | internal/proxy/handler.go:521-568 | In direct mode no strikes; a tunnel if and only if the first dial that succeeds can answer the client; an error is recorded only if all dials fail. |
| Retry.EachStrikeOnce | internal/proxy/handler.go:740-745 | Strikes of different relays change the health of each of them once, and of no other. |
| Retry.BlamedWereTried | internal/proxy/handler.go:431-490 | Only relays that were tried are blamed, each at most once. |
| Retry.OneRequestCannotTripTheBreaker | internal/proxy/handler.go:740-745 | Strikes for different relays give a relay with no failures before at most one, and do not take it offline. |
| Retry.OneConnectCannotTripTheBreaker | internal/proxy/handler.go:403-518 | So no CONNECT, whatever relays, target and client do, takes a relay offline that had no failures before it. |
| Retry.ProxyHTTP | internal/proxy/handler.go:183-215 | The account of the request is exactly that of its round trips: the n-th with the relays of the earlier ones excluded, the whole body offered each time, up to the first without a transient error or the third, then one response, one record for the last relay and a strike if it failed the relay. |
| Retry.EveryRequestIsAnswered | internal/proxy/handler.go:183-215 | Pairwise distinct relays, each try after the first preceded by a transient error, the whole body each time, exactly one response, at most one record. |
| Retry.AnsweredLaw | internal/proxy/handler.go:183-215 | Response and record are those of the last trip, and its relay is struck if and only if health is kept, it has a name, and the trip failed with a network error, an EOF or a context that was done. |
| Retry.ExcludedLaw | internal/proxy/handler.go:183-198 | Each trip avoids exactly the known relays of the trips before it. |
| Retry.LastTripIsFirstSettled | internal/proxy/handler.go:183-215 | The last round trip is the first without a transient error, or the third. |
| Retry.SuccessIff | internal/proxy/handler.go:206-208 | The target's response is passed on if and only if the first round trip without a transient error, among at most three, succeeds. |
| Retry.LogAndRespond | internal/proxy/handler.go:747-756 | One 502 response; an error and, if asked, a strike for a known relay. |
| Retry.RetryableIsRelayFailure | internal/proxy/handler.go:758-790 | The two classifications of errors coincide. |
| Socks5Codec.GreetingFraming | internal/socks5/server.go:208-220 | The greeting reader accepts exactly an encoded greeting (section 3 of RFC 1928) and reads nothing after it. |
| Socks5Codec.LoginFraming | internal/socks5/server.go:254-277 | The login reader accepts exactly an encoded login (section 2 of RFC 1929) and reads nothing after it. |
| Socks5Codec.RequestFraming | internal/socks5/server.go:301-348 | The request reader accepts exactly an encoded request (section 4 of RFC 1928), for all three address types, and reads nothing after it. |
| Socks5Wire.RequestLaw | internal/socks5/server.go:301-348 | The request frames byte by byte: version 5, command, 0, type 1, 3 or 4 with its address, and the port high byte first. |
| Socks5Codec.BuildReply | internal/socks5/server.go:350-383 | A reply is 10 or 22 bytes and decodes to code, address and port (section 6 of RFC 1928) if and only if the address has the length of an IP address. |
| Socks5Codec.ReplyRoundTrip | internal/socks5/server.go:365-380 | Decoding the assembled bytes gives back code, address and port. |
| Socks5Wire.ReplyLaw | internal/socks5/server.go:365-380 | The two reply formats byte by byte. |
| Socks5Wire.RepliesLaw | internal/socks5/server.go:350-383 | The bytes of a reply without an address, with an IPv4 and with an IPv6 address. |
| Socks5Wire.MappedLaw | internal/socks5/server.go:350-383 | An IPv4 address mapped into IPv6 is reported as IPv4. |
| Socks5Session.NegotiateAuth | internal/socks5/server.go:208-252 | Reads exactly the greeting and login, writes exactly the selection and the status, and succeeds only if both were written. Which method is selected, Socks5Wire.OfferMethods states. |
| Socks5Wire.OfferMethods | internal/socks5/server.go:222-252 | For every list of methods offered the first answer is 05 02 if a login is among them, else 05 00 if no authentication is, else 05 FF and no user. |
| Socks5Wire.LogIn | internal/socks5/server.go:234-293 | A client that offers a login, whatever else it offers, is the user it names, and exactly its login frame is consumed and confirmed. |
| Socks5Wire.NothingAcceptable | internal/socks5/server.go:249-252 | A client that offers neither gets 05 FF, no reply, and is closed. |
| Socks5Wire.ConnectThroughCountry | internal/socks5/server.go:122-201 | A client that logs in as "country=..." is only ever connected through relays of that country. |
| Socks5Wire.UserFilterLaw | internal/socks5/server.go:285-292 | A user name filters as the connection string it spells; an invalid one, and no login, leave the base filter. |
| Socks5Session.ReadPasswordAuth | internal/socks5/server.go:254-293 | Accepts any credentials in a well-formed frame and confirms them. |
| Socks5Session.ReadRequest | internal/socks5/server.go:301-348 | Consumes exactly the request frame, or fails. |
| Socks5Session.ResolveMullvad | internal/socks5/server.go:385-397 | A match not known to be offline if there is one, any match otherwise, and none only if nothing matches; both are drawn by the seed if there is one. |
| Socks5Session.SeededChoiceIsDetermined | internal/socks5/server.go:385-397 | For a non-zero seed the relay of a session does not depend on random numbers, the order of the API answers or inactive relays. |
| Socks5Session.Serve | internal/socks5/server.go:135-200 | The verdict on the request is the one the relays and the target call for, and its reply, records, tunnel and closes, those of Tunnel included, follow in order. |
| Socks5Wire.AnswerLaw | internal/socks5/server.go:135-200 | The answer to every request frame and all events around it: code 2 for another command, 1 without relay or dialer, 4 and an error record for a target not reached, 0, a request record and a tunnel for one that is. |
| Socks5Wire.UnreadableLaw | internal/socks5/server.go:137-143 | A request cut off in front, or of another version or address type, gets code 1. |
| Socks5Wire.ChoiceLaw | internal/socks5/server.go:385-397 | The relay is one of the first scan, else any match, else none. |
| Socks5Session.HandleConn | internal/socks5/server.go:122-201 | For every input stream and every outcome of writes, selection and dials the session is a greeting, then its verdict with one reply, then the deferred close of the client. |
| Socks5Session.ReplyDiscipline | internal/socks5/server.go:122-201 | After a good greeting exactly one reply; success if and only if the event before it is a dial that reached the target; a tunnel if and only if the success reply was written; a reached target is closed; records match tunnels and failed dials; the last event closes the client, which is closed twice if a tunnel was opened and once otherwise. |
| Socks5Session.ServiceIsDisciplined | internal/socks5/server.go:135-200 | Each of the six verdicts keeps that discipline. |
| ByteAccounting.CountingWriter.Write | internal/proxy/handler.go:312-323 | With a store and a relay, recorded plus pending is the bytes written, pending stays below 262144 and each record is at least that; without, nothing is recorded. |
| ByteAccounting.CountingWriter.Flush | internal/proxy/handler.go:325-333 | With a store and a relay the bytes recorded are the bytes written; without, nothing is recorded. |
| ByteAccounting.CountingWriter.CopyAll | internal/proxy/handler.go:389-399 | After copying a body, even one cut short by the client, with a store and a relay exactly the bytes that went out are recorded. |
| ByteAccounting.TunnelNeverOvercounts | internal/util/tunnel.go:66-99 | In every interleaving of the copiers with a tick, recorded <= last <= counted between ticks, recorded <= counted always, and no difference is negative. |
| ByteAccounting.CountedIsCopied | internal/util/tunnel.go:29-57 | Each counter holds exactly the bytes copied in its direction. |
| ByteAccounting.ShortfallIsMissed | internal/util/tunnel.go:66-99 | At every step, counted minus recorded is explained by the copy steps: those inside a recording tick, and those not yet read. |
| ByteAccounting.RecordedExactlyIff | internal/util/tunnel.go:66-99 | When Tunnel returns, a direction is recorded exactly if and only if no copy of bytes ran between the read and the store of that counter in a tick that recorded; otherwise what such copies moved is missing. |
| ByteAccounting.UninterruptedTickLosesNothing | internal/util/tunnel.go:76-88 | A tick that no copy interrupts catches up with both counters. |
| ByteAccounting.InterruptedTickLoses | internal/util/tunnel.go:76-88 | In either direction, from every resting state with unrecorded bytes, the bytes that arrive between the two reads of the next tick are lost. |

## Left out

- Retry.ProxyHTTP: does not model bodies over 10 MB (one unretried attempt) or a body that cannot be read, nor direct mode, where there is one upstream and nothing to exclude; status 200 stands for whatever status the target sent.
- Retry.EveryConnectFinishes: relay selection and DNS are one environment function that, as RelaySelection.ResolveSOCKS5 proves of the selection, returns a relay that is not excluded and has a name; direct mode is Retry.ConnectDirect.
- RelaySelection.ResolveSOCKS5: the base64 decoding of the header and its ":" suffix (internal/proxy/handler.go:660-676) are not modelled; the header is the decoded connection string.
- StatsRun.UpdatesAreConserved: a flush drains update by update but applies its batch in one step, and the store goes through one Start/Stop cycle, because the stop channel is not made again.
- StatsQueue.InMemoryStore.Flush: time.Now is read once for the whole flush.
- StatsScan.ScansNeverDecrease: compares the scans of the window ticker, the one goroutine that subtracts them; snapshot scans by other goroutines are not ordered with them.
- StatsWindow.Window.UpdateWindow: rates are real numbers, so rounding of float64 is not modelled.
- ByteAccounting.TunnelNeverOvercounts: each read and write of a shared counter is taken as atomic, which Go does not promise for these plain variables.
- PausedGets.GetReturnsSeenValue: does not cover the read of a Get that moves an element which a Clear left behind; that move breaks the cache, and what the broken list does afterwards is not modelled.
- LruCache.Cache.Set: AccessTime is not modelled, nothing reads it; onEvict is a log of values, so a callback that calls the cache again is not covered.
- ConnString.ApplyTo: filters are values, so Clone (internal/mullvad/mullvad.go:503-514) is the identity and sharing of slices is not modelled.
- Socks5Session.HandleConn: Tunnel closes target and client in either order, the log has them in one; deadlines after the first one, the limit of 1000 connections and the accept loop are not modelled; Tunnel is one event here and has its own model in ByteAccounting.
- Unicode: case folding and white space beyond ASCII, in filters and connection strings.
- Network and TLS work: DNS, DoH and DoT, transports, dialling, latency measurements, egress address lookup; only their outcomes appear.
- The PCG generator: an uninterpreted function of the seed and the number of candidates.
- Wall-clock limits: relay list and DNS cache lifetimes, probe schedules and idle deadlines.
- Command line, configuration, dashboard, health endpoints, the stress command and FormatBytes: plumbing with no property of this kind.
