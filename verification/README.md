# Verification of the cacheable caches

This project models the two Redis-backed caches of the `cacheable` crate and proves what they promise
and what they do not.

`CacheLayer` is cache-aside over flat keys: read, take the key's in-process lock, read again, call the
loader, write back. `GroupedCache` keeps each group in one Redis hash and adds a second level to the
same flow: a cross-node lock taken with `SET NX PX`, released by compare-and-delete, with a bounded
wait for whoever does not get it.

The heart is `Protocol.dfy`, a state machine over the awaits of both `get_or_load` methods. Any number
of cache instances and requests share one store and one source. A state holds the store with its
deadlines, the cross-node locks, the lock tables of all instances with their reference counts and mutex
owners, every request's program point, a clock and a commit counter for the source. Steps are:

- a request arrives, or makes its next move;
- a request is cancelled at any of its awaits (a dropped future; a panic unwinds the same way);
- a backend command is refused, or its reply is lost and the command lands later or never;
- time passes, the source commits, entries are invalidated or overwritten with rubbish.

A run is any sequence of enabled steps, so every theorem of the form "for all runs" covers every
interleaving of these.

| file | contents |
|---|---|
| `Texts.dfy`, `Keys.dfy` | byte strings, length-prefixed keys, `field` |
| `Ttl.dfy`, `Json.dfy` | expiry arithmetic, which payloads count as empty |
| `LockTable.dfy` | `FlightGuard` and its table on objects |
| `Flights.dfy`, `Leases.dfy` | the lock table and the cross-node lock as values |
| `Protocol.dfy` | the state machine |
| `SingleFlight.dfy`, `CrossNode.dfy` | what the two levels of single flight guarantee |
| `Story.dfy` | what a request does, told in the order of the code, and that every run follows it |
| `Effects.dfy` | what steps do to the store and the locks, what they leave alone, what lands late |
| `Agreement.dfy`, `Expiry.dfy`, `Freshness.dfy` | results agree with the source, deadlines, staleness |
| `LoadBound.dfy`, `Outcomes.dfy`, `Progress.dfy` | number of fills, errors, termination |
| `Scenarios.dfy` | runs showing that the limits are the real ones |
| `Scripts.dfy`, `Cascade.dfy` | the server-side scripts, linked invalidation |
| `GetOrLoad.dfy` | both methods as written, their steps being steps of the machine |
| `Refinement.dfy` | table object, scripts and group deletion carry out the machine's steps |

The machine keeps what the code branches on. Two fields are bookkeeping and steer nothing: the commit
a value shows, and who wrote a cell and when.

Assumptions: one clock serves the nodes and Redis; the random lock tokens are distinct (a request's
identity stands for its token) and nobody else writes the lock keys; a loader returns what the source
held at one commit between its start and its end; the codec is a partial function, and each theorem
names the round-trip property it needs; the mutex goes to any waiter, not necessarily the first.

## Where the code and its comments differ

- cacheable/src/cache.rs:412-414 says a request arriving while waiters remain builds a new lock. The
  code keeps one lock for all of them until the last leaves; `SingleFlight.TableExact` and
  `SingleFlight.Independence` state that.
- cacheable/src/cache.rs:611 calls the holder of the cross-node lock the only one in charge at that
  moment, on all nodes. `Scenarios.DegradedOverlap` and `Scenarios.OverstayedOverlap` are runs with a
  second request loading at the same moment, and `CrossNode.OverlapExplained` shows no other kind exists.
- cacheable/src/cache.rs:396 and 788 count the empty string as an empty result. An empty JSON string
  serialises to two quote characters (section 7 of RFC 8259), so it never gets the short TTL;
  `Json.EmptyPayloads` states exactly what does.

Apart from that, the lock does not make fills single: nobody re-reads the entry after winning it, so N
nodes can fill one entry N times, one after the other, with a healthy Redis. `Scenarios.FillBoundExact`
shows the number of nodes to be the exact bound.

## Model

| member | source | states |
|---|---|---|
| Keys.FlightKeyRoundTrip | cacheable/src/cache.rs:577-578 | the group and field can be read back from the single-flight key, whatever bytes they contain |
| Keys.LockKeyRoundTrip | cacheable/src/cache.rs:590-591 | the same for the distributed-lock key |
| Keys.KeyShape | cacheable/src/cache.rs:577-591 | byte by byte: a single-flight key is the decimal length of the group, a colon, the group and the field, and a lock key is that after `sf:lock:` |
| Keys.KeysInjective | cacheable/src/cache.rs:577-591 | two entries share a single-flight key or a lock key iff they are the same entry |
| Keys.FieldRoundTrip | cacheable/src/cache.rs:774-786 | splitting undoes `field` on every non-empty list of separator-free parts, across lengths |
| Keys.FieldBijective | cacheable/src/cache.rs:784-786 | every text is the field of a non-empty separator-free list, found by splitting, and of no other such list |
| Keys.FieldCollisions | cacheable/src/cache.rs:774-786 | any two lists collide iff they agree once every part is split; of two different lists that collide at least one is empty or has a part with a separator |
| Keys.FieldCollides | cacheable/src/cache.rs:774-786 | the empty list collides with one empty part, and a part containing the separator with its two halves, which are joined by one colon |
| Ttl.LayerTtlExact | cacheable/src/cache.rs:399-406 | for all u64 settings the TTL passed on is the exact sum clipped once at u64::MAX, and positive iff the exact sum is |
| Ttl.BackstopAccepts | cacheable/src/cache.rs:499-503 | `try_new` accepts exactly up to one year, and adding jitter to an accepted backstop cannot overflow |
| Ttl.EmptyBytes | cacheable/src/cache.rs:793-795 | exactly four texts, given by their bytes, count as empty |
| Json.EmptyPayloads | cacheable/src/cache.rs:793-795 | of all serialised values exactly null, the empty array and the empty object count as empty; the empty string does not |
| LockTable.Table.Enter | cacheable/src/cache.rs:73-84 | registering adds one live guard, shares the key's lock or makes a new one, and keeps count = 1 + live guards for every key |
| LockTable.Table.Drop | cacheable/src/cache.rs:98-108 | dropping gives one reference back and removes the item exactly when no live guard on the key remains |
| SingleFlight.MutualExclusion | cacheable/src/cache.rs:367-369 | in every reachable state at most one request per instance and entry is between taking and giving back the mutex |
| SingleFlight.Independence | cacheable/src/cache.rs:577-580 | two registered requests are on the same lock iff they want the same entry of the same instance |
| SingleFlight.TableExact | cacheable/src/cache.rs:62-109 | in every reachable state an entry has a table item iff somebody is registered on it, all registrants share it, and its strong count is 1 plus their number |
| SingleFlight.NoResidue | cacheable/src/cache.rs:94-109 | once all requests have finished or been cancelled the table is empty and no mutex is held |
| SingleFlight.LeaveCounts | cacheable/src/cache.rs:98-108 | the reference is given back and the last-one-out test made in one step, so counts stay exact and the item survives iff somebody else is registered |
| Leases.LeaseSurvives | cacheable/src/cache.rs:38-45 | over any run of acquires, expiries and late releases by any tokens, a lease stays in place until it expires unless its own token releases it |
| Leases.PlainDeleteBreaks | cacheable/src/cache.rs:41-43 | with an unconditional delete the same run takes away the next holder's lease and lets a third one in |
| CrossNode.OverlapExplained | cacheable/src/cache.rs:589-647 | two requests between permit to load and end of write on one field at the same moment are on different instances, and one waited out its second or the one granted the lease first has outlived it |
| CrossNode.LeaseHolds | cacheable/src/cache.rs:610-623 | a request loading or writing on an unexpired lease finds the lock under its own token; other bids and releases leave it alone, stray and late ones included |
| CrossNode.LeasesIndependent | cacheable/src/cache.rs:590-591 | bidding for one field never affects the lease of another |
| CrossNode.LocksLapse | cacheable/src/cache.rs:433-434 | in every reachable state every lock on record is free again 3000 ms later, whoever was cancelled |
| CrossNode.ReleaseFrees | cacheable/src/cache.rs:612-623 | once an owner's release is acknowledged, no live lease ever carries its token again, under any key, in any continuation |
| Story.FollowsTheCode | cacheable/src/cache.rs:571-646 | in every run the events of every request, with what it could see at each, follow a telling in the order of the code, and it is finished with an outcome iff they tell that outcome |
| Story.HitSettles | cacheable/src/cache.rs:633-635 | a read that does not fail while the store shows a value fixes that value as the outcome for good, at the first read, the second and every poll, and no loader call follows |
| Story.ReleaseExact | cacheable/src/cache.rs:610-623 | a request that finished uncancelled released the cross-node lock exactly as often as it was granted it, at most once, having called its loader once if granted, whatever came of the load |
| Story.ReleaseLast | cacheable/src/cache.rs:612-623 | no loader call follows the release |
| Effects.ActFrame | cacheable/src/cache.rs:341-416 | an action touches at most its own entry, by a write that took effect or was withdrawn, and its own lock, by an acknowledged bid or release |
| Effects.DeliverFrame | cacheable/src/cache.rs:48-60 | a command of unknown fate takes effect at most once: a write is stored or taken back whole, a bid or release touches one lock, and no request hears of it |
| Effects.FillExact | cacheable/src/cache.rs:393-410 | from the loader's return to the acknowledged write, whatever happens in between, the store gets exactly the loaded value serialised, expiring after the backstop plus the drawn jitter (fields), the null TTL (the four blank texts) or the TTL plus the drawn jitter (other keys) |
| Effects.AnyJitter | cacheable/src/cache.rs:402 | the draw ranges over 0 to 1000 ms and nothing else |
| Effects.LateWrite | cacheable/src/cache.rs:749-764 | a write whose sender was cancelled or never heard of it lands, at any later time, with the same payload and its TTL counted from then |
| Effects.LateBid | cacheable/src/cache.rs:592-608 | a lost bid landing on a free lock shuts every other token out for exactly 3000 ms |
| Effects.LateRelease | cacheable/src/cache.rs:38-45 | a lost release landing late frees the lock only under its own token |
| Effects.CorruptedMisses | cacheable/src/cache.rs:699-713 | an entry overwritten with bytes that do not decode is a miss, and no other entry is affected |
| Agreement.ResultsAgree | cacheable/src/cache.rs:341-416 | every Ok result in every run is what the source held for exactly that entry at some commit |
| Agreement.FixedSource | cacheable/src/cache.rs:683-767 | with an unchanging source every Ok result is the loader's value for exactly that key or (group, field) |
| Expiry.NoImmortals | cacheable/src/cache.rs:749-764 | every entry written by a cache has the deadline its settings call for: backstop to backstop plus one second for fields, the null TTL or TTL plus jitter for keys |
| Expiry.HitsAreYoung | cacheable/src/cache.rs:399-410 | a read never returns an entry written longer ago than its TTL |
| Freshness.RecentExact | cacheable/src/cache.rs:341-416 | in every reachable state, for every codec and all settings, later requests are safe from data older than a commit iff the store shows none now and none can still land from a load between loader start and end of its write, on any instance |
| Freshness.DeleteSuffices | cacheable/src/cache.rs:300-308 | after a delete with no older load under way, no later request ever returns anything older, whatever happens next |
| Freshness.DeleteExact | cacheable/src/cache.rs:300-308 | later requests are safe from older data iff none could still land when the delete took effect |
| Freshness.LoomingIsStale | cacheable/src/cache.rs:383-410 | with a round-tripping codec and no zero TTL, older data can still land iff a load begun on older data is between loader start and end of its write |
| Freshness.WaitExact | cacheable/src/cache.rs:422-423 | after any run up to a given time older data is out of reach iff none can still land now and what is shown now is not older or expires by then; while an old load is under way no time is enough |
| Freshness.TtlHeals | cacheable/src/cache.rs:419-424 | for fields and keys a cache has written: once no older data can still land, a TTL and a second later nothing older can be seen, without any delete and whatever happens meanwhile |
| LoadBound.OneFillPerInstance | cacheable/src/cache.rs:371-416 | while nothing takes the entry away there are exactly as many completed fills as instances that fill |
| LoadBound.AtMostOnePerNode | cacheable/src/cache.rs:573-646 | N instances complete at most N fills, however many requests arrive and whatever the cross-node lock does |
| Scenarios.EveryNodeFills | cacheable/src/cache.rs:585-624 | for every N a run with a healthy store in which N instances fill the entry N times, for keys and for fields |
| Scenarios.FillBoundExact | cacheable/src/cache.rs:371-416 | all healthy runs fill an entry at most k times iff at most k nodes serve it, for every k |
| Scenarios.DegradedOverlap | cacheable/src/cache.rs:626-646 | a run from the start in which a request loses the bid, polls 50 times in vain, 20 ms apart, and loads beside the unexpired owner, so the bound of 50 is attained |
| Scenarios.OverstayedOverlap | cacheable/src/cache.rs:433-434 | a run in which an owner outlives its lease and loads beside the next owner |
| Scenarios.StaleAfterDelete | cacheable/README.md:172-173 | for keys and fields, a run in which a commit and a delete fall into a load, and a request arriving after both still gets the older data |
| Scenarios.StaleAfterCancel | cacheable/README.md:172-173 | the same after the loading request was cancelled and is gone: its write, already sent, lands after the delete |
| Outcomes.FaultTransparency | cacheable/src/cache.rs:341-410 | a finished request failed iff its own loader ran and failed or the value did not serialise, was cancelled iff it was cancelled, and called its loader at most once, under any backend faults |
| Progress.NoDeadlock | cacheable/src/cache.rs:337-416 | in every reachable state with an unfinished request some request can act or sleeps until a known time |
| Progress.SomebodyMoves | cacheable/src/cache.rs:367-369 | the one who can act is on the same instance, and for a `CacheLayer` request it never has to wait for the clock |
| Progress.BoundedWork | cacheable/src/cache.rs:337-416 | a run's requests act at most 9 times per `CacheLayer` and 162 times per `GroupedCache` request in all |
| Progress.BoundedWait | cacheable/src/cache.rs:626-646 | at most 50 polls, each 20 ms after the last, and a degraded load starts only after the full second |
| Progress.Drains | cacheable/src/cache.rs:412-415 | from every reachable state all requests can be brought to their end without cancellation or failure, leaving the lock table empty |
| Scripts.Redis.WriteField | cacheable/src/cache.rs:48-60 | refused with nothing changed, or stored with its deadline, or taken back whole; which one when; no other field is affected |
| Scripts.Redis.VerifyFieldTtl | cacheable/src/cache.rs:453-485 | the keyspace ends as it began on every path; with a backstop, acceptance is exactly that asking for 5000 ms put an expiry of 1 to 5000 ms into effect and that it could be observed |
| Scripts.Redis.ProbedWrite | cacheable/src/cache.rs:749-764 | a cache that passed the probe leaves no field without a deadline: neither the one it writes nor, if all had one before, any other |
| Cascade.CascadeExact | cacheable/src/cache.rs:665-673 | after any registrations an invalidation reaches the group itself and exactly the groups ever named for it, one level deep |
| Cascade.CascadeOrderFree | cacheable/src/cache.rs:526-534 | order and repetition of registrations do not matter |
| Cascade.Groups.RegisterClearRef | cacheable/src/cache.rs:526-534 | adds exactly the named groups to the source group's set |
| Cascade.Groups.CascadeTargets | cacheable/src/cache.rs:803-816 | lists the target set, each group once |
| Cascade.Groups.InvalidateGroup | cacheable/src/cache.rs:665-673 | removes exactly the targets and leaves every other key unchanged |
| GetOrLoad.System.LayerGetOrLoad | cacheable/src/cache.rs:317-416 | the method, interleaved with anything at its awaits and cancelled at any of them or not at all, makes steps of the machine and returns the machine's outcome; at most one load, errors only from it; an acknowledged write has stored the loaded value at a point of its trace with the deadline its jitter calls for |
| GetOrLoad.System.GroupedGetOrLoad | cacheable/src/cache.rs:555-647 | the same for the grouped method; a finished owner whose release was acknowledged leaves no live lease under its token, and whoever loads without the lock has waited the full second |
| GetOrLoad.CarriedRuns | cacheable/src/cache.rs:341-416 | what happens during an await of either method is any run of the others' steps, taken in full |
| GetOrLoad.System.ReadEntry | cacheable/src/cache.rs:683-714 | returns what the store shows at that moment; an error, a missing, an expired and an undecodable entry all count as a miss |
| GetOrLoad.System.EnterFlight | cacheable/src/cache.rs:367-369 | registers before it waits, and ends up inside the mutex, or queued while somebody holds it, or dropped |
| GetOrLoad.System.Approach | cacheable/src/cache.rs:571-587 | both reads and the mutex between them end in a cached value, a cancellation, the queue, or a second miss inside the mutex |
| GetOrLoad.System.Unwind | cacheable/src/cache.rs:367-369 | a future dropped at any await gives back mutex and registration, in this order, and ends as cancelled |
| GetOrLoad.System.Acquire | cacheable/src/cache.rs:589-608 | acquired means an acknowledged bid that put its own token in place for 3000 ms; not acquired means an error or a live lease in the way; a bid of unknown fate is under way |
| GetOrLoad.System.FlyAcrossNodes | cacheable/src/cache.rs:610-646 | owner or not, it ends with one outcome after at most one load, or dropped; the owner has released, the other has waited out its second, and an acknowledged write has stored the value |
| GetOrLoad.System.WaitForOther | cacheable/src/cache.rs:626-637 | at most 50 polls; the first that finds the entry ends the wait with it, and its own load follows only after the full wait with every poll a miss |
| GetOrLoad.System.LoadAndFill | cacheable/src/cache.rs:725-767 | returns the loaded value even if the write fails, and with an acknowledged write the store holds it with the deadline the jitter calls for; uncancelled it fails with LoaderFailed iff the loader failed, with EncodeFailed only if the value does not serialise, and returns Ok only if it does |
| GetOrLoad.System.RunLoader | cacheable/src/cache.rs:725-748 | uncancelled it fails iff the loader or serialisation fails; the value is the source's at a commit during the call, and goes to the write with its serialised form and TTL |
| GetOrLoad.System.WriteBack | cacheable/src/cache.rs:749-764 | acknowledged, the payload is stored with its deadline; taken back, the field is gone; refused, nothing changes beyond what others did; of unknown fate, the command is under way |
| GetOrLoad.System.LoadAndRelease | cacheable/src/cache.rs:610-623 | for every outcome of the load the release is sent; acknowledged, no live lease carries its token; of unknown fate, it is under way |
| Refinement.FillByScript | cacheable/src/cache.rs:749-764 | the write script carries out the machine's write step, the reply fitting its result |
| Refinement.LookupIsHGet | cacheable/src/cache.rs:690-713 | the machine's lookup is HGET followed by decoding |
| Refinement.InvalidateByGroups | cacheable/src/cache.rs:665-673 | group deletion carries out the machine's invalidation of all fields of the groups it reaches |
| Refinement.RegisterByTable | cacheable/src/cache.rs:73-84 | entering the table object carries out the machine's registration, with the same keys and counts |
| Refinement.LeaveByTable | cacheable/src/cache.rs:98-108 | dropping the guard carries out the machine's leaving |

## Left out

- Connections, health checks and `ClusterConnectionBackend`: thin I/O; the store's commands are atomic and may fail, be refused or land late.
- Redis Cluster slot rules for a multi-key DEL: `invalidate_group` is modelled on a single store.
- The internals of DashMap, the Tokio mutex, serde_json and the random generator: table operations are atomic, the mutex has one owner, the codec is a parameter, tokens are distinct.
- Reading one key with different value types: each run has one codec.
- `GroupedCache::new` and its panic: it only wraps `try_new`.
- Logging and timing instrumentation.
- The two-level entry point, the local cache, the invalidation bus and the durable owner of the same crate, and every other crate of the repository: the properties proved here are about `cacheable/src/cache.rs`.
- Scripts.Redis.WriteField: HSET fails only for a key of the wrong type; running out of memory between the script's commands is not modelled.
- LockTable.Table.Drop: a guard is dropped once, as Rust guarantees; the early return for a guard whose lock was already taken is not modelled.
- Freshness.DeleteExact: the moment of a delete is the moment it takes effect in the store; the time until its caller hears of it is not modelled.
