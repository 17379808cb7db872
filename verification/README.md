# Ember: a verified model of the multi-tenant runtime

Ember runs WebAssembly components for many tenants in one process. Each tenant has an active component that
a background loop replaces while requests are being served; components arrive from an OCI registry through a
content-addressed cache directory; every tenant has byte-quota'd scratch storage and an egress allowlist.
This project models that behaviour in Dafny and proves what it keeps, in every run and for every input.

`dafny verify dfyconfig.toml` checks everything.

## What is modelled

- **The runtime as a state machine** (`RuntimeProtocol`): unboundedly many requests (lookup, snapshot,
  acquire, call, release or drop, count), tenant loads, any number of other processes on the cache directory,
  time, and one reload loop whose visit to a tenant is up to seven separate steps (check, pull, compile, store
  the generation, store the time, clear the counter, finish). A fetch, whether for a load or for a visit, is
  itself a sequence of steps: ask, answer, every file operation of the put, read back. All interleave. The
  directory is a state of `StoreProtocol`, which this process and the others move step by step.
  `RuntimeInvariant`, `RuntimeOwnership` and `RuntimeHistory` hold what each step keeps; `RuntimeSafety`,
  `RuntimeIsolation`, `RuntimePasses` and `RuntimeCapacity` hold the theorems about whole runs.
- **The same code as it runs sequentially** (`Runtime`, `Pool`): `poll_once`, `load_tenant`, `invoke`,
  `acquire` and `release` as methods on objects, proved against functions (`Reload`, `Pool`) that the state
  machine is built from. `RuntimeRefinement` shows that the machine has an uninterrupted pass, load and request
  with the outcome of each method's specification; `RuntimePasses` shows that every pass of the machine,
  whatever interleaves with it, is a fold of independent turns.
- **The content store** (`Disk`, `StoreProtocol`, `Store`, `Distribution`): the directory as names and inodes,
  the write-temp / sync / rename protocol with any number of writers, crashes and power loss, the store as a
  class, and pulls with pins on top.
- **Scratch quota accounting** (`Sandbox`, `ScratchProtocol`, `Linker`): the fixed-width signed test, the file
  map and the separate counter as a class, and the same at the level of atomic steps of many threads.
- **Egress rules and configuration** (`Bridge`, `Configuration`, `Tenancy`): rule matching against its
  string-level meaning, size parsing, validation and clamping.

Machines are given by `Enabled`, `Step`, `Legal` and `Exec` over sequences of events, so a theorem about a run is
a lemma about every legal sequence.

## Assumptions

- SHA-256 (section 6.2 of FIPS 180-4) is an arbitrary function from bytes to 32 bytes. It is not assumed
  injective, which no such function is; results that need it ask for no collision among the finitely many blobs
  they are about (`CollisionFree`).
- Validating, parsing and compiling a component are deterministic functions of its bytes. The registry may
  answer anything at any time. Every operation of a put may fail, and a failing write leaves a prefix behind.
- One reload loop runs, as `spawn_reload_loop` arranges; its passes follow each other. Fetches of this process
  do not overlap: tenants are loaded one after the other before the loop starts (`src/runtime.rs:208-219`) and
  the loop pulls one component at a time.
- Every other process on the cache directory runs the same protocol, one put at a time, under a process id of
  its own. Power losses, and an earlier process with the same id, belong to the time before the process has
  loaded a tenant.
- A load brings a scratch filesystem that no tenant has, as `Runtime.Runtime.LoadTenant` proves (`fresh`).
- The engine's allocator, which serves all tenants, grants an instance as long as fewer than its capacity are
  alive (`src/runtime/engine.rs:86-92`); a prepared instance takes one place. It may fail for other reasons.
- Strings are sequences of characters, file names are exact, paths are already normalised. Targets are 64-bit
  and arithmetic wraps as in a release build.

## Where code and documentation differ

The model follows the code.

- A contract or compile error ends the whole pass; later tenants are not visited (`src/runtime.rs:330-333`).
- "Parked" only logs: a tenant over its failure budget is polled as before (`src/runtime.rs:337-350`, against
  `docs/design/hot-reload.md:72-75`). `ParkedTenantsAreStillPolled`.
- `scratch-write` never answers `invalid-path` (`src/component/linker.rs:102-106`, against
  `docs/component-contract.md:70`).
- A tenant's `max_instances` bounds its idle pooled instances, not its live ones
  (`src/runtime/invoke.rs:89-94`); those are bounded by the engine only. `CapacityBoundsInstancesIff`: it bounds
  them after all if and only if the engine has no more room than that.
- Outbound requests are checked by host only (`src/http/bridge.rs:187-188`), so a rule's scheme and port do not
  restrict them. For a host with neither ':' nor ']', `BareHostIsProjection` says exactly what is checked.
- An IPv6 literal is checked with its brackets, and its last group is then taken for a port. Its own rule matches
  it, but under no scheme and port, and the wildcard rule matches it too, against
  `src/http/bridge.rs:106-107`. `Ipv6LiteralIsTornApart`, and `ProjectionIff` for the exact condition.
- Upper-case hexadecimal digits pass the pin check (`src/registry/oci.rs:175`), which section "SHA-256" of the
  OCI Image Format Specification's Content Descriptors excludes. `PinCanMatchIff`: an accepted pin can match if
  and only if it has no such digit; with one it never pulls (`UpperCasePinNeverPulls`).
- The temporary file name holds only the process id (`src/registry/store.rs:54`), so crash safety needs one put
  at a time in each process: `CrashSafeIffOneWriterPerProcess` proves the equivalence, with the failing run, and
  `StoreProtocol.RunKeeps` covers writers of one process that take turns.
- The quota test compares as `i64`: `SignedTestIsExactIff` says for which inputs it is right,
  `SignedTestCanBeWrong` names inputs where it is not, and `HugeQuotaStoresNothing` what a quota of 2^63 does.

## Model

| member | source | states |
|---|---|---|
| RuntimeSafety.ServedByItsGeneration | src/runtime/invoke.rs:103-151 | in every interleaving a served request took its snapshot when that generation was active, and was served by an instance of its own tenant built from bytes with that generation's digest, hence from exactly its bytes unless SHA-256 collides on what the tenant has run |
| RuntimeSafety.ActiveComponentsAreSound | src/runtime.rs:225-335 | for arbitrary registry answers, while other processes work in the cache directory, every tenant's active component always has the digest of its bytes, was compiled from them, passed the contract and respects the pin, whether its blob was cached or freshly pulled |
| RuntimeSafety.CacheIsAuthentic | src/registry/oci.rs:123-139 | at every point of every run, with this process's fetches and everyone else's puts interleaved, the directory is sound and what is read back under a digest has it |
| RuntimeSafety.PinnedTenantsNeverSwap | src/runtime.rs:328-334 | a pinned tenant runs its pin and never leaves its first generation, however its tag moves |
| RuntimeSafety.SwapsAreSpaced | src/runtime.rs:314-326 | the moments at which a tenant's active generation changes in a run, the creation of its record included, are at least the debounce interval apart, so a window of length W holds at most W/debounce + 1 |
| RuntimeSafety.FailureCountIsExact | src/runtime.rs:328-351 | the failure counter is the number of pulls of the tenant that failed in the run since its last successful visit ended or its activation, whatever skips and aborted passes lie between; in the last phase of a visit, between the swap and the end, it may be zero already |
| RuntimeSafety.InvocationsAreServedRequests | src/runtime/invoke.rs:138-151 | the invocation counter of a tenant is the number of requests it has served to the end |
| RuntimeSafety.PullsKeepGenerations | src/runtime.rs:328-351 | no pull by itself changes a generation; a failed one counts once, a contract violation ends the pass, other tenants do not notice |
| RuntimeSafety.InstancesAreInOnePlace | src/runtime/invoke.rs:43-95 | every instance ever built is in exactly one of a pool, a request in flight, or dropped; pools stay within capacity and hold only their own tenant's identity and scratch |
| RuntimeSafety.PoolsAreRefilledByReturnedCallsOnly | src/runtime/invoke.rs:129-143 | an instance enters a pool only when the request that held it releases it after a normal return, into its own tenant's pool; dropped instances stay dropped |
| RuntimeSafety.StaleCameFrom | src/runtime/invoke.rs:70-94 | with no older request in flight and no further swap, a stale instance in the pool was there from the start, and every acquire has brought it at least one place forward, whatever interleaves |
| RuntimeSafety.StaleInstanceIsDropped | src/runtime/invoke.rs:70-94 | the stale instance at index i is dropped within i + 1 acquires, never to serve or return |
| RuntimeSafety.RunDrains | src/runtime/invoke.rs:70-94 | each acquire moves the last possible stale place one forward |
| RuntimeSafety.PoolIsDrainedAfterCapacityAcquires | src/runtime/invoke.rs:70-94 | after as many acquires as the pool has places it holds no stale instance |
| RuntimeIsolation.RequestsStayInTheirTenant | src/component/linker.rs:62-75 | the instance a request holds carries the tenant id the request was looked up by, sees that tenant's configuration and limits, and reaches that tenant's scratch space and no other's |
| RuntimeIsolation.RunKeepsApart | src/runtime.rs:226-262 | routes lead to the tenants they name in every run, and, as each load brings a new scratch filesystem, tenants never come to share one |
| RuntimePasses.EveryPassIsFold | src/runtime.rs:314-354 | every pass, whatever requests, loads and processes interleave with it, gives the tenants their own independent turns in order, each with the outcome of its own pull and the clock readings of the run, ends with the first turn that is an error and leaves that tenant and all later ones as they were |
| RuntimePasses.PassIsSequential | src/runtime.rs:314-354 | a finished pass whose pulls came back with what sequential ones would have has the outcome of the sequential pass, whatever else went on |
| RuntimeRefinement.PassIsRun | src/runtime.rs:314-354 | for all answers, faults and clock readings the machine has a pass, through all the steps of its fetches, with exactly the outcome of the fold over the snapshot |
| RuntimeRefinement.LoadIsRun | src/runtime.rs:225-266 | for all answers and faults the machine has a load with the directory and the tenant, or none, that the sequential load has |
| RuntimeCapacity.EngineBoundsInstances | src/runtime/engine.rs:86-92 | in every run the instances of all tenants that are alive, idle or serving, stay within the engine's capacity |
| RuntimeCapacity.OneTenantCanTakeAllRoom | src/runtime/invoke.rs:70-94 | from every reachable state in which a tenant is registered, its requests alone can come to hold as many further instances as the engine has room for, while its pool keeps to its capacity |
| RuntimeCapacity.CapacityBoundsInstancesIff | src/runtime/invoke.rs:89-94 | the instances of tenants with a given capacity stay within it in every run if and only if the engine's capacity is no larger, for every tenant that can be loaded at all |
| Runtime.Runtime.PollOnce | src/runtime.rs:314-354 | the loop over the tenants: up to some position each took its own step, the first error ends the pass with its tenant as it was, everything later is untouched |
| Runtime.Runtime.VisitTenant | src/runtime.rs:317-351 | one tenant's turn equals the visit function on its reloading state and the cache directory |
| Runtime.Runtime.Swap | src/runtime.rs:284-310 | compiling first, so a component that does not compile leaves the tenant as it was; otherwise generation, time and counter are all replaced |
| Runtime.Runtime.SnapshotTenants | src/runtime.rs:274-276 | every registered tenant exactly once |
| Runtime.Runtime.LoadTenant | src/runtime.rs:225-266 | equals the load function in outcome, error and directory; success registers a fresh tenant with its own pool, its configuration, limits and an empty scratch space with its quota, and a sound first generation, failure changes no tenant |
| RuntimeRefinement.RequestIsRun | src/runtime/invoke.rs:103-151 | for every outcome of conversion, host context, instantiation (where the engine has room) and call the machine has a request that is served by the same instance, or gone where the sequential invoke fails, and leaves the same pool and counter |
| Runtime.Runtime.Invoke | src/runtime/invoke.rs:103-151 | a request serves from its own tenant's pool, active component and sandbox, fails with the kind of error each stage has, the host context included, and is counted only if served |
| Pool.ServeMeaning | src/runtime/invoke.rs:62-143 | by the first queued instance of the active digest: who serves, which instances are gone, what order the rest keep, when the serving instance goes back, and which error a trap, a timeout and a failed instantiation give |
| Reload.TurnMeaning | src/runtime.rs:317-351 | a turn, case by case: not an OCI tenant or less than the debounce interval since the last swap, failed pull, contract not met, same digest, not compilable, new generation |
| Reload.VisitMeaning | src/runtime.rs:317-335 | a visit that is due does that with the outcome of its own pull, any other touches nothing |
| Reload.DueTenantRunsWhatItPulled | src/runtime.rs:314-352 | in a pass, an OCI tenant whose debounce interval is over and whose pull yields a component that serves guests and compiles runs it afterwards, unless an earlier tenant's error ended the pass |
| Reload.LoadSucceedsIff | src/runtime.rs:225-247 | a load succeeds if and only if the id has 1 to 64 permitted characters, the four limits are positive, the bridge is built, the artifact is there, serves guests and compiles; with which generation it begins, and which error it fails with otherwise |
| Reload.ArtifactOf | src/runtime.rs:234-239 | the artifact of a registry source is its pull, that of a file the record of its bytes or the error of what is wrong with them |
| Reload.LoadMeaning | src/runtime.rs:225-247 | a load fails with a configuration or limit error exactly if the id, the limits or the egress bridge fail, and then fetches nothing; a loaded generation is sound and respects the pin |
| Reload.VisitKeepsTenantsSound | src/runtime.rs:328-335 | a visit installs only sound generations that respect the pin, and never moves a pinned tenant |
| Reload.ParkedTenantsAreStillPolled | src/runtime.rs:337-350 | neither the failure count nor the failure budget changes what a visit does |
| Reload.PassPrefixStep | src/runtime.rs:317-352 | one more visit extends the prefix of error-free visits or ends the pass |
| Reload.PassOutcomeUnique | src/runtime.rs:314-354 | the position where a pass ends and everything it leaves behind are determined |
| Pool.InstancePool.Acquire | src/runtime/invoke.rs:62-86 | returns the first match, drops exactly the stale prefix, keeps the rest in order; builds only if nothing matched, leaving the queue empty |
| Pool.InstancePool.Release | src/runtime/invoke.rs:89-94 | appends if there is room and never exceeds capacity |
| Pool.InstancePool.constructor | src/runtime/invoke.rs:51-56 | an empty pool has capacity at least one |
| Pool.AcquireDrains | src/runtime/invoke.rs:70-85 | an acquire leaves an end of the queue, each instance at least one place forward |
| StoreProtocol.CrashSafeIffOneWriterPerProcess | src/registry/store.rs:47-67 | in all runs with crashes, partial writes and power loss every published name holds complete synced bytes with that hash, if and only if no two writers share a process |
| StoreProtocol.RunKeeps | src/registry/store.rs:47-67 | the protocol's invariant holds at every step of every run in which the writers of a process take turns |
| StoreProtocol.SharedProcessPublishesTruncatedFile | src/registry/store.rs:54-61 | two concurrent puts of one process have, for every blob that is not empty, a run that publishes an empty unsynced file under its hash |
| StoreProtocol.CachedReadsAreAuthentic | src/registry/store.rs:70-73 | at any point of any run in which turns are taken, bytes read back under a digest have that digest |
| Disk.BlobNamesAreNotTemporary | src/registry/store.rs:54-54 | no blob's file name is a temporary name |
| Disk.TmpNameInjective | src/registry/store.rs:54-54 | different processes use different temporary names |
| Disk.ReadsAreAuthentic | src/registry/oci.rs:133-139 | under the store's invariant reading back needs no rehash |
| Store.ContentStore.Put | src/registry/store.rs:47-67 | success publishes the blob unless its name is taken, failure publishes nothing, the invariant stays whichever operation fails |
| Store.ContentStore.DiskUsage | src/registry/store.rs:81-91 | the loop over the listing yields the total length of the published blobs |
| Store.PutPublishes | src/registry/store.rs:47-67 | when a put succeeds, what readers see afterwards, and that a published put leaves no temporary file |
| Store.PutIsProtocolRun | src/registry/store.rs:47-67 | a sequential put, with any fault and wherever the other writers are, is a run of the step-by-step protocol, which stops short exactly if the put fails |
| Store.StoreIsIndex | src/registry/store.rs:47-67 | after any sequence of puts readers see one entry per hash of the blobs stored successfully |
| Store.StoreServesWhatWasPut | src/registry/store.rs:70-91 | get, contains and disk usage agree with the set of blobs stored, after any sequence of puts with any faults |
| Digests.DigestMeaning | src/registry/store.rs:22-24 | a digest is the scheme and two lower-case hexadecimal digits for each byte of the hash, high digit first |
| Digests.DigestGrammar | src/registry/oci.rs:171-179 | the pin check and the file-name check accept exactly `sha256:` and 64 hexadecimal digits of either case |
| Digests.DigestOfIsWellFormed | src/registry/store.rs:22-24 | every computed digest is accepted by the file-name and pin checks, in lower case |
| Digests.SanitizeDigest | src/registry/store.rs:96-106 | accepts exactly the scheme followed by 64 hexadecimal digits and returns those digits |
| Digests.ParseDigest | src/registry/oci.rs:171-179 | accepts the same strings as the file-name check, with a configuration error otherwise |
| Digests.SameDigestIffSameHash | src/component/loader.rs:101-103 | digests are equal exactly when the hashes are: the printed form loses nothing |
| Digests.PinCanMatchIff | src/registry/oci.rs:171-179 | a pin that is accepted is the printed form of some hash value if and only if it has no upper-case digit |
| Digests.UpperCasePinNeverVerifies | src/registry/oci.rs:155-164 | an upper-case digest matches no blob |
| Distribution.OciClient.FetchComponent | src/registry/oci.rs:111-141 | equals the pull function without a pin, keeps the store's invariant, and returns only records derived from their own bytes |
| Distribution.Registry.Pull | src/registry.rs:47-54 | with a pin, success means the bytes have the pinned digest, even on a damaged cache |
| Distribution.PullSucceedsIff | src/registry/oci.rs:111-141 | a pull succeeds if and only if its first layer is cached, or sent under its own digest and stored, and the blob is a valid component with exports that has the pinned digest if there is a pin |
| Distribution.PullOfCached | src/registry/oci.rs:123-140 | a cached layer is neither downloaded nor written, whatever the registry sends: the result is the record of the cached bytes |
| Distribution.PullOfUncached | src/registry/oci.rs:123-140 | a layer not cached: no blob, wrong digest and failed store each with its error; otherwise the blob is published under its digest and its record returned |
| Distribution.OnlyVerifiedBlobsAreStored | src/registry/oci.rs:123-131 | whatever the registry sends, a pull publishes nothing or one blob that has the announced digest, under it; an uncached layer with a wrong blob is refused with a digest mismatch and the directory stays as it is |
| Distribution.ResolveKeepsDisk | src/registry/oci.rs:123-131 | and it keeps the store's invariant |
| Distribution.PulledIsAuthentic | src/registry/oci.rs:133-140 | a finished pull is a record derived from its own bytes under the resolved digest, which is the pin if there is one |
| Distribution.PinAssignmentIsIdentity | src/registry.rs:49-52 | assigning the pin over the fetched digest never changes the record; any other pin is refused |
| Distribution.UpperCasePinNeverPulls | src/registry.rs:47-54 | a pin with an upper-case digit fails every pull |
| Distribution.PullErrors | src/registry/oci.rs:111-141 | a pull never fails with a configuration or limit error |
| Loader.FromBytes | src/component/loader.rs:46-78 | succeeds exactly on a valid component with readable exports, with a validation error otherwise or an error for an unreadable one; every field of the record is derived from the bytes |
| Loader.ContractMeaning | src/component/loader.rs:112-140 | the contract check accepts exactly the artifacts with an export named `ember-guest`, `#ember-guest`, `ember-handler` or `handler`, or containing `:runtime/handler` |
| Loader.WorldMeaning | src/component/loader.rs:60-64 | the recorded world is what follows the marker in the first export that begins with it |
| Loader.GuestWorldSatisfiesContract | src/component/loader.rs:112-140 | an artifact recorded as targeting the guest world passes the contract; one without exports never does |
| Sandbox.SignedTestIsExactIff | src/wasi/sandbox.rs:184-195 | the quota test decides what is meant if and only if the file does not grow or quota and new usage fit in `i64` |
| Sandbox.SignedTestCanBeWrong | src/wasi/sandbox.rs:188-195 | inputs on which the test refuses too much and accepts too much |
| Sandbox.MemFs.Write | src/wasi/sandbox.rs:177-203 | files and counter agree up to 64 bits always; while lengths fit, a write succeeds exactly if the path is valid and the files stay within the quota |
| Sandbox.MemFs.Remove | src/wasi/sandbox.rs:211-216 | returns and frees exactly the file |
| Sandbox.LimitsMeaning | src/wasi/sandbox.rs:89-103 | limits are accepted exactly if memory, wall-clock time, instances and scratch quota are positive |
| Sandbox.ClampExact | src/wasi/sandbox.rs:107-111 | what clamping makes of each limit |
| Sandbox.ClampMeaning | src/wasi/sandbox.rs:107-111 | clamping enforces the caps, keeps the verdict of validation, and changes nothing that is within |
| Sandbox.NewSandbox | src/wasi/sandbox.rs:237-251 | fails exactly on invalid limits; otherwise an empty scratch space with the configured quota |
| ScratchProtocol.UsageIsExactInEveryRun | src/wasi/sandbox.rs:165-216 | at every atomic step of any number of threads: usage within quota, equal to the files up to the lock holder's pending difference, no subtraction wraps, shrinking is never refused |
| ScratchProtocol.AlwaysExactIff | src/wasi/sandbox.rs:184-201 | in all runs with files of at most a given length counting is exact and within the quota, if and only if the quota and one such file together fit in `i64` |
| ScratchProtocol.RunAgreesUpToWidth | src/wasi/sandbox.rs:177-216 | without any assumption on lengths the counter agrees with the files modulo 2^64 |
| ScratchProtocol.HugeQuotaStoresNothing | src/wasi/sandbox.rs:188-195 | under a quota of 2^63 or more no run stores a byte |
| ScratchProtocol.WriteIsCriticalSection | src/wasi/sandbox.rs:177-203 | the sequential write is one critical section of the step-by-step protocol |
| ScratchProtocol.RemoveIsCriticalSection | src/wasi/sandbox.rs:211-216 | so is the sequential remove |
| Linker.ScratchWrite | src/component/linker.rs:97-108 | what a guest sees of a write: nothing but success or an exceeded quota, also for invalid paths |
| Ascii.EqIgnoreCaseMeaning | src/http/bridge.rs:130-135 | strings are equal ignoring case exactly if they are letter for letter of the alphabet |
| Bridge.RuleMeaning | src/http/bridge.rs:72-96 | a rule matches an authority exactly if the hosts match, and schemes, ignoring case, and ports agree wherever both state one |
| Bridge.AllowsMeaning | src/http/bridge.rs:45-55 | a policy allows what one of its rules matches, everything if it is open, and everything if `*` is one of its rules |
| Bridge.NewEgressPolicy | src/wasi/sandbox.rs:114-119 | a tenant's policy has the rules of its limits, and refuses everything else exactly if they say so |
| Bridge.LoneWildcardMeansAnyHost | src/http/bridge.rs:120-122 | `*` matches every host |
| Bridge.PatternKinds | src/http/bridge.rs:116-136 | every pattern is `*`, begins with `*.`, or begins with another segment |
| Bridge.WildcardMeansSubdomain | src/http/bridge.rs:123-131 | `*.S` matches exactly S and what ends with `.S`, ignoring ASCII case |
| Bridge.PlainPatternMeansEqual | src/http/bridge.rs:132-135 | a pattern without wildcard segments matches exactly its own spellings |
| Bridge.InnerWildcardMeansOneSegment | src/http/bridge.rs:132-135 | any other pattern matches exactly the hosts obtained by one dot-free string for each `*` |
| Bridge.BareHostIsProjection | src/http/bridge.rs:72-112 | for a host with neither ':' nor ']', a rule matches it bare if and only if it matches it under some scheme and port |
| Bridge.ProjectionIff | src/http/bridge.rs:72-112 | for hosts with no slash and no wildcard: all rules match bare exactly what they match under some scheme and port, if and only if the host has neither ':' nor ']' |
| Bridge.Ipv6LiteralIsTornApart | src/http/bridge.rs:104-112 | the input where it fails: the last group of `[::1]` is taken for a port |
| Bridge.EgressPolicy.Extend | src/http/bridge.rs:58-61 | the merged policy allows what either's rules allow, and anything else only if both were open |
| Bridge.JoinSplit | src/http/bridge.rs:117-118 | splitting into segments loses nothing |
| Configuration.ParseMemoryIsExact | src/config.rs:292-317 | a size is accepted with result n exactly if it is digits and a unit (empty, or k, m, g with or without b or ib, in any case) denoting n, with white space around, and n fits in 64 bits |
| Configuration.UnitMeaning | src/config.rs:304-310 | what each unit is worth in bytes |
| Configuration.WhiteSpaceMeaning | src/config.rs:293-293 | the characters that are trimmed |
| Numerals.ValueMeaning | src/config.rs:301-303 | the value of a decimal numeral, digit by digit |
| Configuration.ParseMemoryInvertsPrinting | src/config.rs:292-317 | printing any 64-bit count and parsing it gives the count |
| Configuration.Config.Validate | src/config.rs:251-288 | returns the first offence in order and changes nothing, or clamps every tenant |
| Configuration.Config.ClampTenants | src/config.rs:114-118 | the loop clamps each tenant once and nothing else |
| Configuration.ValidatedConfig | src/config.rs:251-288 | after success every tenant is valid, within the caps and loadable; validating again accepts and changes nothing |
| Configuration.AcceptedIff | src/config.rs:251-288 | acceptance holds exactly if engine memory and instances are positive and every tenant has a permitted id, positive limits, and a named component whose pin, if any, is a digest |
| Configuration.RefusedFor | src/config.rs:251-288 | a refusal is for the engine, or with the error of the first tenant that fails, its limits before anything else |
| Tenancy.TenantIdMeaning | src/runtime.rs:50-70 | an id has 1 to 64 letters, digits, hyphens and underscores |

## Left out

- WebAssembly compilation, validation and execution, WASI contexts and preopens: foreign code, present as functions of the bytes and as call outcomes.
- The HTTP ingress, header conversion, status mapping, outbound sending and registry transport: input and output.
- Telemetry, logging, the command line, TOML decoding and environment overrides.
- The contents of error messages; only their kinds are kept.
- `PinSet` and `require_pinned`: not consulted by the reload loop.
- The epoch ticker, epoch deadlines and pooling-allocator sizing: their guarantees lie in the WebAssembly engine.
- Reference syntax (`OciClient::resolve`): an unresolvable reference is one of the registry's failing answers.
- Counters of failures, invocations and disk usage are unbounded; they would have to exceed 64 bits to differ.
- A power loss can undo a rename in the model but not restore the entry that rename replaced.
- RuntimeRefinement.RequestIsRun: the machine keeps no error kinds of requests; `Runtime.Runtime.Invoke` has them.
- Linker.ScratchRead and Linker.ScratchBytes: plain reads, stated by their definitions.
