# A verified model of the Thunder device plugin

Thunder lends GPUs to Kubernetes workloads. Two programs do it. The *operator* publishes what each Thunder zone offers
as ResourceSlices and cleans up after claims that vanished. The *node daemon* keeps a node enrolled, prepares a
ResourceClaim by minting an enrollment token for it, and takes the claim down again; a CDI hook, started once per
container, spends that token and stages the resulting client. This project models the parts of both where state,
failing calls and other processes meet, and proves what they guarantee over whole runs.

`dafny verify dfyconfig.toml` checks everything.

## The modules

* `Lifecycle`, `Enrollment`, `Driver`, `Preparation`, `Reuse`, `Teardown`, `Clients`: the enrollment of one claim as a protocol. The state
  is Thunder's (tokens minted, revoked and spent; clients revoked), the API server's (the ThunderClient with its
  finalizers, deletion mark and resource version; the Secret), the claim's directory, and where daemon, hook and
  reapers stand. Every external call is one step that is done, fails without effect, or takes effect and still
  reports an error; any process may die between two steps. `Driver.Driver` runs `prepareOne` and `unprepareOne` against
  that protocol with arbitrary steps of the others between any two calls.
* `Hook`: many hooks over one claim's directory, from its creation to its removal.
* `HookArgs`, `Flags`: the hook's command line, as the daemon prints it and the hook parses it.
* `Reaper`, `Orphans`: what a pass of the operator over the records does, and when exactly a record is reaped.
* `Pools`, `Capacity`, `Names`, `Slices`, `Listing`, `Sync`, `Stability`, `Generations`, `HalfApplied`: from the Thunder inventory to
  the published slices and back; one reconcile, and repeated ones.
* `Reconciler`: the node repair state machine and its backoff.
* `Library`: the node's download cache.
* `Text`, `Sequences`, `Temps`, `Wrappers`, `Outcomes`: Go's string functions on ASCII, facts about rearranged sequences,
  names of temporary files, optional values, and how a call can end.

## What the code turns out to do

* A teardown revokes the client that the claim's directory names. It reads that name without the hook's lock
  (`internal/daemon/store.go:529-543`), and reads an unreadable or unfinished config as "no client". So it can forget a
  client: `Clients.TeardownForgetsExactlyAnUncachedClient` says, over all runs, that it does exactly if its own scan
  failed on a client not revoked yet or a hook cached one since. The comment there says an empty answer means no
  container ever started; `Clients.AnUncachedClientIsReachable` is a teardown in which no call fails and it means a
  hook is about to exchange the token.
* A prepare that finds a complete record hands the claim out as it is (`internal/daemon/driver.go:182-186`), whatever has
  become of its Secret, directory and token: `Reuse.AReusedRecordIsUsableExactly` says when a container can start from
  it, and `Reuse.AnEmptyClaimIsPrepared` is a claim with none of the three that is prepared: the upsert's answer was
  lost, and the rollback went through.
* A hook that is killed, or whose answer is lost, between exchanging the token and renaming the config into place
  leaves a claim no later hook can start: `Hook.ClaimIsOrphanedOnlyByAnUncachedExchange`, with a run in
  `Hook.AKilledHookOrphansItsClaim`.
* Convergence of a reconcile needs no assumption about names (`Stability.SelfStabilises`): where two pools want one
  slice name for different slices, some API call is refused. But desired pools are keyed by raw zone and type, and
  listed ones by their labels. With one zone or type name that is not a DNS label, every reconcile deletes that pool
  and creates it again: `Stability.SecondSyncIsQuiet` is an equivalence, and `Generations.AnUnlabelledZoneIsNotQuiet` a
  zone "US-East". Only the cache carries such a pool's generation on, so a restart starts it over at 1:
  `Generations.GenerationFallsExactly`, with a run in `Generations.ARestartLowersAGeneration`.
* A slice's name joins prefix, zone and type with dashes, so two pools can want one name: zone "eu" with type "rtx-4090"
  and zone "eu-rtx" with type "4090" (`Slices.TwoPoolsWantOneName`; `Slices.SliceNamesAgreeExactly` says when). Then no
  reconcile succeeds: `Stability.AClashIsAnError`.
* A pass that fails on a pool may have changed its slices, but the cache keeps the definition and generation from
  before. So the next pass can publish other devices under the same generation, or fall back:
  `HalfApplied.OneNumberForDifferentSpecsExactly`, with a run in `HalfApplied.HalfAppliedReusesItsNumber`.
* Where one zone name stands for several zones that disagree on the oversubscription target, the pool's target depends
  on the order they are listed in: `Pools.ZoneOrderIsIrrelevantIfTheyAgree`, also an equivalence, and
  `Pools.DisagreeingZonesShow` two such zones.
* The operator's reap revokes the token only, not the client made of it (`internal/operator/clients.go:118-122`), and
  with the record gone an unprepare finds nothing to do. So a reaped claim's client stays alive unless the claim is
  prepared anew: `Clients.NothingIsRevokedWithoutARecord`, with a run in `Clients.AReapedClientStaysAlive`.
* Hosts of a zone whose rounded-down offer is zero and that has no clients are not counted in the pool's host capacity:
  `Pools.HostsAreConserved`, and `Pools.UncountedHostsShow` such a zone.
* The doubling in the backoff wraps around for some maxima above 2^62 nanoseconds, 146 years:
  `Reconciler.BackoffIsExact` says for which. That is a property of the function only; the program calls it with
  constants of seconds and minutes (`internal/daemon/runtime.go:48`, `internal/daemon/logs.go:75`).

## Assumptions

One serialised daemon per claim (`internal/daemon/start.go:38`); Thunder's token IDs are fresh and not blank; the API
server refuses writes with an old resource version, and negative pool generations; nobody else removes our finalizer;
a listing names each object once. SHA-256 is an uninterpreted function, oversubscription targets are reals.

## Model

| member | source | states |
|---|---|---|
| Lifecycle.StepKeepsInv | internal/daemon/driver.go:172-279 | every step of daemon, operator, hook and outsiders, failed or not, keeps the protocol's invariant: records are complete, a record whose token is alive is held by our finalizer, and every copy a process took of it still agrees |
| Lifecycle.DeleteFollows | internal/daemon/store.go:131-133 | a delete only marks a held object, so it never drops a record whose token is alive |
| Lifecycle.ReleaseFollows | internal/daemon/store.go:118-130 | taking our finalizer off through an up-to-date copy of a revoked record never loses a live token |
| Lifecycle.OperatorKeepsInv | internal/operator/clients.go:114-138 | reap, revoking first, then releasing, then deleting, is safe against everything the daemon does meanwhile |
| Lifecycle.DaemonUntouched | internal/daemon/driver.go:226-279 | what the daemon knows between two of its calls survives whatever others do to the API objects |
| Enrollment.RunKeepsInv | internal/daemon/driver.go:172-279 | the invariant holds in every state of every run |
| Enrollment.LiveTokenStaysRecorded | internal/thunderclient/thunderclient.go:16-23 | in every interleaving, with any failures and crashes: as long as a recorded token is not revoked, its record stays in the API, complete, unchanged, under our finalizer |
| Enrollment.UpsertNeverOverwrites | internal/daemon/store.go:55-81 | prepare's upsert always finds no record, so it never overwrites a token |
| Enrollment.StepAbandons | internal/daemon/driver.go:192-218 | exactly which tokens a step abandons: one whose mint was answered by an error, one in hand when the daemon dies, one whose rollback revoke fails; none is ever recovered |
| Enrollment.TokensAreConserved | internal/daemon/driver.go:182-218 | over any run the abandoned tokens, those minted and neither revoked, recorded nor in hand, are exactly as many as the events that drop one (that these four make up the minted tokens is how abandoned is defined) |
| Driver.Driver.Attempt | internal/daemon/driver.go:172-279 | one external call among arbitrary steps of the others, waiting for the directory's lock where the call takes it |
| Driver.Driver.PrepareOne | internal/daemon/driver.go:172-224 | among arbitrary steps of the others: it fails exactly if a call of its own did not go well; a prepared claim has a complete record naming the device handed out, missing later only once its token is revoked; one prepared with a fresh token has it in its Secret, its directory and spec, and a token file or config to start from, unless a hook from before strays in; a claim whose record is found is left as it is; a failure after the mint takes back what its rollback calls take; one token at most is minted, and none if a live one is recorded |
| Driver.StraysComeFrom | internal/daemon/store.go:545-564 | a hook that would drop a token file it did not spend comes only of a removal without the lock, or of a failed create that cleared the directory |
| Driver.Driver.Load | internal/daemon/driver.go:182-188 | a complete record ends the prepare; it goes on to mint only if no record is stored, so any earlier one had its token revoked |
| Driver.Driver.Stage | internal/daemon/driver.go:192-216 | the calls after the mint, each with its rollback: success means the record is stored with Secret, directory and spec in place; on failure every rollback call that took effect has revoked the token, removed the Secret, or removed the directory |
| Driver.Driver.Upsert | internal/daemon/store.go:55-81 | read, then create or update; success means the record with this token is stored or its token revoked since |
| Driver.Driver.Put | internal/daemon/store.go:55-81 | the write after the look-up is a create that goes through, or starts the rollback |
| Driver.Driver.UnprepareOne | internal/daemon/driver.go:226-279 | among arbitrary steps of the others it fails exactly if a call of its own did not go well, or released through a copy gone stale; that there is no record is no failure. Success means there was none, or the client read from the directory and the token are revoked, directory and Secret are gone and our finalizer is off; a failure leaves any record with a live token in place |
| Driver.Driver.Revoke | internal/daemon/driver.go:239-255 | success means the client read from the directory, if any, and then the token are revoked; it fails exactly if one of these calls does, and that ends the unprepare before anything is removed |
| Driver.Driver.Remove | internal/daemon/driver.go:257-273 | success means directory and Secret are gone, in that order, and then our finalizer is off the record; it fails exactly if a call does |
| Driver.Driver.DeleteRecord | internal/daemon/store.go:106-134 | re-read, release our finalizer, delete, against concurrent writers |
| Driver.Driver.Release | internal/daemon/store.go:118-130 | the update without our finalizer is refused on a stale copy and fine on an object already gone |
| Preparation.PrepareCompletes | internal/daemon/driver.go:172-224 | a prepare without failures leaves exactly the token in Secret and directory, the CDI spec, and the record held by our finalizer, and changes nothing else |
| Preparation.RollbackCompletes | internal/daemon/driver.go:192-216 | a rollback without failures revokes the token and takes back the Secret, and the directory if it had come that far, and changes nothing else |
| Preparation.UnprepareUndoesPrepare | internal/daemon/driver.go:226-279 | unprepare after prepare, from any reachable state, leaves no Secret, directory or record, and the token revoked |
| Reuse.ARecordIsWholeExactly | internal/daemon/driver.go:208-273 | over any run, a claim with a record has its Secret, directory and spec if and only if no rollback and no teardown has taken any of them since the record was stored |
| Reuse.HookStagesExactly | internal/daemon/cdihook.go:137-212 | a hook in which nothing fails ends with a client cached if and only if one was, or the directory holds a token neither revoked nor spent |
| Reuse.ReuseChangesNothing | internal/daemon/driver.go:182-186 | a prepare that finds a record changes nothing |
| Reuse.AReusedRecordIsUsableExactly | internal/daemon/driver.go:182-186 | over any run, a claim prepared from a found record can start its container if and only if nothing was taken away since the record was stored, and a client is cached or the token file is there and its token neither revoked nor spent |
| Reuse.AnEmptyClaimIsPrepared | internal/daemon/driver.go:182-218 | a run that leaves a complete record held by our finalizer with its token revoked and neither Secret nor directory, which the next prepare hands out |
| Teardown.UnprepareCompletes | internal/daemon/driver.go:226-279 | teardown is retryable: whatever failed before, one unprepare without failures and without a hook in flight revokes token and named client and removes directory, Secret and record, or leaves only other controllers' finalizers |
| Teardown.ReapCompletes | internal/operator/clients.go:114-138 | a reap without failures revokes the token first and takes the record away, or leaves it to others' finalizers, and changes nothing else |
| Clients.StepKeepsClientInv | internal/daemon/cdihook.go:173-212 | a hook about to cache a client holds one that is not revoked, no config is there while it does, and the directory names only clients Thunder made |
| Clients.RunTracks | internal/daemon/driver.go:236-261 | in every state of every run: while the scanned client is being revoked nothing was missed; from then to the removal the directory names a client not revoked if and only if the scan missed it or a hook cached it since |
| Clients.TeardownForgetsExactlyAnUncachedClient | internal/daemon/store.go:529-564 | over any run, an unprepare that removes the file naming a client removes it unrevoked exactly if its own scan failed on a client not revoked yet, or a hook cached one since that scan |
| Clients.UnprepareRevokesBeforeRemoving | internal/daemon/driver.go:236-261 | so an attempt in which neither happened revokes the client first, whatever earlier attempts missed |
| Clients.AnUncachedClientIsReachable | internal/daemon/driver.go:239-261 | a run without failures in which a hook exchanges the token after the scan, and the teardown forgets its client |
| Clients.StepStrands | internal/daemon/cdihook.go:173-212 | exactly which client a step strands: an exchange whose answer is lost, a hook that ends before it cached its client, a file removed while it names a client not revoked; none is ever recovered |
| Clients.ClientsAreConserved | internal/daemon/driver.go:226-279 | over any run the clients neither revoked, nor named by the directory, nor held by the hook are exactly as many as the steps that strand one, and only grow |
| Clients.OperatorTouchesNoClient | internal/operator/clients.go:114-138 | no step of the operator revokes a client or touches the directory or the hook |
| Clients.NothingIsRevokedWithoutARecord | internal/daemon/driver.go:226-234 | once the record is gone and the daemon idle, no client is ever revoked unless the claim is prepared anew, and the directory goes on naming its client |
| Clients.AReapedClientStaysAlive | internal/operator/clients.go:118-136 | a run without failures that ends with the record reaped, the token revoked and the client alive for good |
| Hook.DirectoryIsAlwaysUsable | internal/daemon/cdihook.go:137-212 | whatever hooks start, fail or die, the directory holds the token or a whole config of the one client enrolled, and one hook at most is past the lock |
| Hook.StepKeepsInv | internal/daemon/cdihook.go:409-428 | every step of every hook keeps that; a temporary file is renamed into place only when whole |
| Hook.EnrollmentIsFinal | internal/daemon/cdihook.go:220-253 | once Thunder enrolled a client the claim never gets another, and a cached config stays cached |
| Hook.HooksAgree | internal/daemon/cdihook.go:165-212 | all hooks that succeed stage the same client |
| Hook.ClaimIsOrphanedOnlyByAnUncachedExchange | internal/daemon/cdihook.go:196-206 | a claim is orphaned exactly when an exchange's answer is lost or its hook ends before the rename, and then no hook ever succeeds |
| Hook.AKilledHookOrphansItsClaim | internal/daemon/cdihook.go:196-206 | a run that reaches the window: a hook killed right after its exchange |
| Hook.ClaimHook.RunCDIHook | internal/daemon/cdihook.go:128-171 | one hook among the others: what it delivers is the enrolled client, cached whole; with a client cached beforehand it asks Thunder for nothing; it goes without the lock only while another holds it; with the lock it delivers exactly if its own calls go well, or else it had to ask and Thunder no longer takes the token |
| Hook.ClaimHook.ExchangeWithRetry | internal/daemon/cdihook.go:220-253 | at least one request and at most five; a client is returned exactly if one of the five is answered, all before it having failed with time for another, unless Thunder no longer takes the token |
| Hook.ClaimHook.Ask | internal/daemon/cdihook.go:224-240 | one request: a client, a final rejection, or a failure worth another attempt while any are left |
| Hook.ClaimHook.Publish | internal/daemon/cdihook.go:409-428 | write beside, rename, drop the token, deliver; it fails exactly if writing, renaming or staging does |
| HookArgs.ParseCDIHookArgs | internal/daemon/cdihook.go:78-120 | the loop computes the meaning of the arguments, read from the left |
| Flags.ParsesExactly | internal/daemon/cdihook.go:78-120 | for all arguments what parsing returns: options exactly if the arguments are settings of known flags, each as "--flag=value" or as two, the options are what was set last of each, and a state directory is among them; a missing value, an unknown flag or a missing state directory exactly where that comes first |
| HookArgs.SortArgPairs | internal/daemon/store.go:680-689 | the in-place sort of flag and value pairs leaves the other arguments alone and the pairs sorted and complete |
| HookArgs.SortedOrderIsUnique | internal/daemon/store.go:680-689 | pairs with different flags have one sorted order |
| HookArgs.Hooks | internal/daemon/store.go:633-667 | the command line is the same for every order the map is iterated in, blank settings left out |
| HookArgs.ParserUndoesPrinter | internal/daemon/store.go:633-667 | parsing the printed command line gives back every setting verbatim that is not blank, whatever characters it holds |
| Reaper.Operator.ReapOrphanedClients | internal/operator/clients.go:29-82 | a pass over the listing against its specification: orphans remembered and forgotten, reaps, the first error ending it |
| Orphans.ReapsExactly | internal/operator/clients.go:29-111 | over any passes, with any listings, answers, clocks and errors: a pass reaps a record exactly if it finds its claim missing, or under another UID than the one recorded, and so did an earlier pass, the first since the record was last settled, the grace period before; settled means not listed, found alive, or reaped |
| Orphans.ALiveClaimIsNeverReaped | internal/operator/clients.go:105-108 | a record whose claim every pass finds under its UID is never reaped |
| Orphans.PassSucceeds | internal/operator/clients.go:29-82 | a pass succeeds exactly if the records can be listed, every claim asked about is answered for, and every reap due goes through |
| Orphans.GetsToExactly | internal/operator/clients.go:48-74 | a pass gets to a record exactly if all listed before it went well |
| Orphans.SweepDecides | internal/operator/clients.go:54-73 | what a pass does about each record it gets to; a failed reap is remembered and tried again |
| Pools.CountServers | internal/operator/inventory.go:75-80 | the accumulated counts are, for every type, the sum over healthy servers of positive counts of that type |
| Pools.CountClients | internal/operator/inventory.go:87-96 | likewise over clients that are not decommissioned |
| Pools.AddGPUCount | internal/operator/inventory.go:204-210 | one entry adds its count to its normalized type only, and nothing without a type or with a count that is not positive |
| Pools.ZoneOversubscription | internal/operator/inventory.go:155-174 | the last target given for a type stands; a failed read means none and a default of 1 |
| Pools.TargetFor | internal/operator/inventory.go:142-150 | the lookup in the accumulated targets resolves as specified |
| Pools.For | internal/operator/inventory.go:142-150 | the target is always positive |
| Pools.AddZone | internal/operator/inventory.go:100-126 | one zone changes exactly the pools of its name that it offers something of, in whatever order types are visited; Capacity.PoolIsWhatItsZonesOffer says how much that is |
| Pools.BuildDesiredPools | internal/operator/inventory.go:46-129 | fails exactly if the zones, or servers or clients of a named zone, cannot be read; otherwise every pool is what its zones make of it, which Capacity.PoolIsWhatItsZonesOffer gives |
| Pools.PoolsAreSums | internal/operator/inventory.go:104-126 | conservation: client capacity is all live clients of the type over the zones of that name, capacity the sum of what each offers, hence no less; a pool exists exactly if that is positive |
| Capacity.PoolIsWhatItsZonesOffer | internal/operator/inventory.go:53-126 | against the inventory itself: each zone of the pool's name offers its hosts times its target, rounded down, or what its clients hold, whichever is more; a pool exists exactly if that is positive over all zones, and then has the sums of offers, of clients and of the hosts that count, at the target of the last zone that offers |
| Capacity.HostedIs | internal/operator/inventory.go:199-214 | a server counts exactly if its status, without spaces and case, is blank or one of four, for its positive number of GPUs of the type it reads as |
| Capacity.HeldIs | internal/operator/inventory.go:87-96 | a client counts exactly if it is not decommissioned, likewise |
| Capacity.TargetsAre | internal/operator/inventory.go:142-174 | the last target given for a type holds if it is positive, else the zone's default if that is, else 1; 1 if targets cannot be read |
| Capacity.NamedExactly | internal/operator/inventory.go:54-64 | a zone goes by its trimmed display name, or its trimmed ID if that is blank, and is passed over if both are |
| Pools.DesiredIsWellFormed | internal/operator/inventory.go:104-126 | every pool is under its own key, with positive capacity and target, and no less capacity than clients |
| Pools.HostsAreConserved | internal/operator/inventory.go:112-124 | hosts are all counted if and only if no zone of the name has hosts and offers nothing |
| Pools.UncountedHostsShow | internal/operator/inventory.go:112-124 | two zones of three hosts that make a pool of two |
| Pools.ListingOrderIsIrrelevant | internal/operator/inventory.go:69-98 | the order servers and clients are listed in changes nothing |
| Pools.ZoneOrderMovesOnlyTheTarget | internal/operator/inventory.go:53-126 | the order of the zones changes a pool at most in its target |
| Pools.ZoneOrderIsIrrelevantIfTheyAgree | internal/operator/inventory.go:124 | it changes nothing if and only if the zones that add to the pool agree on the target |
| Pools.DisagreeingZonesShow | internal/operator/inventory.go:124 | two zones of one name whose order decides the target |
| Names.DnsLabelIsLabel | internal/operator/resourceslice.go:167-175 | every string is turned into a well-formed DNS label |
| Names.FixedPointsAreLabels | internal/operator/resourceslice.go:167-175 | exactly the well-formed labels are left as they are, so labelling twice is labelling once |
| Names.GapsBecomeDashes | internal/operator/resourceslice.go:167-175 | whatever stands between two labels that a label cannot hold becomes one dash, and case is lost |
| Names.CutLabelsTellHashes | internal/operator/resourceslice.go:179-186 | labels that were cut are the same only if their hashes are |
| Names.TruncatedIsLabel | internal/operator/resourceslice.go:179-186 | cutting a label and appending its hash keeps it a label within the limit |
| Names.PoolNameIsRecognised | internal/operator/operator.go:258-264 | a published pool name reads back as the labelled zone and type |
| Names.KeysAreRead | internal/operator/operator.go:258-264 | exactly the names of two parts, neither empty, around one slash are pool names |
| Names.NumberedNameIsLabel | internal/operator/resourceslice.go:153-161 | a numbered name is a label of at most 63 characters however long its base is |
| Names.NumberedNamesAreDistinct | internal/operator/resourceslice.go:153-161 | different numbers give different names, although the cut depends on the number's length |
| Text.ParseFormatted | internal/operator/operator.go:311-317 | a number survives its label if and only if it fits in 64 bits, or else reads as 0 |
| Text.DigitsAreRead | internal/operator/operator.go:311-317 | digits with or without a sign read as their number if that fits in 64 bits |
| Text.NothingElseIsRead | internal/operator/operator.go:311-317 | anything else reads as 0 |
| Text.TrimSpaceTrims | internal/operator/inventory.go:54-58 | trimming takes away the spaces around a string, all of them and nothing else |
| Slices.LabelsTellThousandths | internal/operator/resourceslice.go:144-151 | two targets have the same label if and only if they agree to the thousandth |
| Slices.ThousandthsAreNearest | internal/operator/resourceslice.go:144-151 | the label stands for the target's nearest thousandth, ties going to the even one, and 1 for a target not positive |
| Slices.LabelIsDecimal | internal/operator/resourceslice.go:144-151 | it is that number as a decimal of three digits, without zeros at the end and without a point there |
| Slices.BuildResourceSlices | internal/operator/resourceslice.go:57-79 | the sharding loop builds the specified slices |
| Slices.ShardingPartitions | internal/operator/resourceslice.go:57-79 | n devices make ceil(n/128) slices of 1 to 128, which put together are devices 0 to n-1 in order; each states the true number of slices |
| Slices.SlicesSay | internal/operator/resourceslice.go:81-140 | every slice carries the operator's labels, driver, pool name and generation, selects the nodes of the pool's zone, and each of its devices is of the pool's type, in capitals, and in its zone |
| Slices.SlicesCount | internal/operator/resourceslice.go:90-99 | the capacities and the number on its labels read back |
| Slices.WholeName | internal/operator/resourceslice.go:153-156 | where prefix, zone and type make a label with room for it, the slice's name is these and its number, with dashes between |
| Slices.WholeDeviceName | internal/operator/resourceslice.go:158-161 | likewise a device's name is its type and its number |
| Slices.SliceNamesAgreeExactly | internal/operator/resourceslice.go:153-156 | where no hash is involved, slices of two pools have one name exactly if they have one number and zone and type joined by a dash are the same; so not for one type, or types without dashes |
| Slices.TwoPoolsWantOneName | internal/operator/resourceslice.go:153-156 | two pools whose slices have the same names |
| Slices.SliceNamesAreDistinct | internal/operator/resourceslice.go:153-156 | the slices of a pool have different names |
| Slices.DeviceNamesAreDistinct | internal/operator/resourceslice.go:158-161 | the devices of a pool have different names |
| Slices.PublishedNamesAreLabels | internal/operator/resourceslice.go:153-161 | all of them are valid labels, however long zone and type are |
| Slices.DefinitionFromResourceSlices | internal/operator/operator.go:290-309 | the device-counting loop reads back the specified definition |
| Slices.PoolReadsBack | internal/operator/operator.go:290-309 | round trip: slices listed in any order read back as what was published, except the target; under its own key if zone and type are labels |
| Listing.SortByName | internal/operator/operator.go:246 | slices sorted by name, none lost |
| Listing.MembersOnly | internal/operator/operator.go:232-256 | however a pool's slices were collected, sorting them gives the same list |
| Listing.ExistingIsPartition | internal/operator/operator.go:232-241 | every slice of a recognised pool is in that pool's list alone, and no listed pool is empty |
| Sync.Operator.ListExistingResourceSlices | internal/operator/operator.go:220-256 | the pools found and the cache filled in are the same for every listing order |
| Listing.OwnExactly | internal/operator/operator.go:220-264 | the slices taken for the operator's are exactly those with both labels, its driver and a pool named zone/type |
| Sync.GroupByPool | internal/operator/operator.go:232-241 | the grouping loop puts each listed slice in its pool once |
| Sync.Operator.GenerationFor | internal/operator/operator.go:201-218 | the generation against its specification: matching slices, cache, first slice |
| Sync.CurrentDefinitionMatches | internal/operator/operator.go:270-286 | spec by spec comparison with the rebuilt pool |
| Sync.Operator.ApplyPool | internal/operator/operator.go:144-191 | touches no name the pool did not have, except to create wanted ones that nobody had; without error the pool holds the wanted slices and no other; makes a changing call if and only if the slices differ |
| Sync.Operator.DeleteSlice | internal/operator/operator.go:193-199 | a slice already gone counts as deleted |
| Sync.Operator.DeleteStale | internal/operator/operator.go:89-106 | unwanted pools go, in any order, a failing one not stopping the others |
| Sync.Operator.ApplyAll | internal/operator/operator.go:108-122 | wanted pools are brought to their slices in any order, a failing one not stopping the others; the cache advances for those that succeed only |
| Sync.StepKeepsProgress | internal/operator/operator.go:85-122 | visiting one pool, failed or not, spoils neither the others' slices, nor pools already done, nor those to come |
| Sync.Operator.Sync | internal/operator/operator.go:77-139 | a whole reconcile with any calls failing: a slice without both labels, our driver and a zone/type pool name is there unchanged whatever the outcome; every pool that did not fail exactly as wanted; after one without errors every slice with all of these is a wanted one; the cache exactly advanced; calls that change anything made if and only if something is to do; and as many calls in error as pools that failed, so none fails without one |
| Stability.SelfStabilises | internal/operator/operator.go:77-191 | from any slices and any cache, a reconcile without errors leaves every slice that is not the operator's by its fields as it was, and a slice there is the operator's if and only if it is wanted; each pool at one generation |
| Stability.AClashIsAnError | internal/operator/operator.go:144-191 | where pools of two zones want one slice name, every reconcile is in error on one of them |
| Stability.FoundAsPublished | internal/operator/operator.go:220-264 | the next listing finds under each pool name just the slices of the pools labelled so |
| Stability.SanityIsKept | internal/operator/operator.go:201-218 | every reconcile, failed or not, leaves generations Kubernetes admits and a cache the generation rule can rely on |
| Stability.GenerationsArePositive | internal/operator/operator.go:201-218 | every generation given is at least 1 |
| Stability.SecondSyncIsQuiet | internal/operator/operator.go:121-122 | after a reconcile without errors a second one with the same inventory changes nothing and keeps every generation, for pools of any size, if and only if every zone and type is a label |
| Generations.AnUnlabelledZoneIsNotQuiet | internal/operator/operator.go:258-264 | a first reconcile without errors of a zone "US-East" after which the same inventory is not quiet |
| Generations.NextNeverFalls | internal/operator/operator.go:201-218 | a pool found as published gets a later generation, or the same one for the same number of devices |
| Generations.UnlabelledStep | internal/operator/operator.go:201-218 | a pool whose name is no label is never found again: its generation stays, or goes up by one, with the cache, and is 1 without |
| Generations.ARestartLowersAGeneration | internal/operator/operator.go:201-256 | a run of reconciles without errors in which a zone "US-East" goes from generation 2 back to 1 by a restart |
| Generations.EveryProcessFollows | internal/operator/operator.go:43-56 | the same process and a new one, each also after a pass that listed the slices but got no inventory, start from caches the theorems allow |
| Generations.MatchingIsSameSize | internal/operator/operator.go:270-286 | found slices match a definition only if it has as many devices |
| Generations.GenerationsNeverFall | internal/operator/operator.go:201-256 | over any run of reconciles without errors a pool's generation never falls and the same generation means the same specs, devices and slice count: through any restarts if its name is a label and its alone, and for a name that is no label as long as the process remembers it |
| Generations.GenerationFallsExactly | internal/operator/operator.go:201-256 | for pools of any name, exactly when the next generation is lower: the process does not remember the pool, and it is not found and was past 1, or it shares its label, does not match, and the slice listed first is of a generation too low |
| HalfApplied.FailureKeepsTheCache | internal/operator/operator.go:117-121 | a remembered pool that a pass failed on is remembered by the next one as it was before |
| HalfApplied.OneNumberForDifferentSpecsExactly | internal/operator/operator.go:201-218 | after a pass that failed on a remembered pool, both passes finding it changed: they give one number to different specs if and only if they want different sizes and neither wants what is remembered; the number falls if and only if only the second wants that |
| HalfApplied.TheAnswerIsLost | internal/operator/operator.go:117-121 | a pass whose calls all took effect but whose answer for the pool was lost |
| HalfApplied.HalfAppliedReusesItsNumber | internal/operator/operator.go:201-218 | the pass after it publishes other devices under the same generation |
| Reconciler.Node.EnsureEnrolled | internal/daemon/reconcile.go:161-230 | one check against the specified step of the four counters, with what it does about the node |
| Reconciler.Node.Reconcile | internal/daemon/reconcile.go:121-155 | an enrollment is only asked for in the Thunder zone looked up for the zone the labels name in that pass |
| Reconciler.RepairsExactly | internal/daemon/reconcile.go:161-230 | after any run: a check repairs exactly if the node is not healthy, not waited for (up to 30 checks), and was never healthy or is down for the third check since it was last healthy or repaired; and then it restarts rather than enrolls a node that answers and is enrolled, exactly unless two restarts were tried since it was last healthy or enrolled anew |
| Reconciler.CountersAreHistory | internal/daemon/reconcile.go:161-230 | each of the four counters is what the history of checks and deeds says |
| Reconciler.HealthRestoresRestarts | internal/daemon/reconcile.go:164-175 | the first repair after a healthy check, of a node that answers and is enrolled, tries a restart, whatever went before |
| Reconciler.BoundedRepair | internal/daemon/reconcile.go:161-230 | from every reachable state, 33 checks in a row that are not healthy contain a repair and 99 an enrollment |
| Reconciler.BoundsAreTight | internal/daemon/reconcile.go:23-41 | 32 and 98 need not |
| Reconciler.GraceAfterHealth | internal/daemon/reconcile.go:191-202 | after a healthy check the third one that is not healthy is the earliest to repair |
| Reconciler.RestartsPayForReenrollments | internal/daemon/reconcile.go:204-229 | while the node answers, is enrolled and restarts work, restarts minus twice the completed enrollments is never below the restarts counter |
| Reconciler.ReenrollmentsAreAtMostHalfTheRestarts | internal/daemon/reconcile.go:204-229 | so enrollments are at most half the restarts |
| Reconciler.Backoff | internal/daemon/reconcile.go:384-396 | the doubling loop against its specification on 64-bit durations that wrap around, for every base, maximum and number of failures |
| Reconciler.BackoffIsExact | internal/daemon/reconcile.go:384-396 | the delay is min(max, base * 2^(f-1)) for every f if and only if the base is not negative and no doubling of it lands in [2^62, max); so for every maximum up to 2^62 |
| Reconciler.BackoffIsMonotone | internal/daemon/reconcile.go:384-396 | the computed delay never exceeds the maximum; for a base that is not negative it never shrinks while failures go on if and only if no doubling overflows, and for any base exactly also if it starts at the maximum or beyond, or wraps around once to a delay from which no doubling overflows |
| Reconciler.Loop | internal/daemon/reconcile.go:89-117 | the interval after every success; after a failure the backoff for the number of failures in a row since the last success or the start |
| Library.StepKeepsInv | internal/daemon/libthunder.go:163-231 | every step of every process keeps the cache verified and the lock exclusive |
| Library.CacheIsVerified | internal/daemon/libthunder.go:155-231 | over any interleaving, crashes and any downloaded bytes: a file at a digest's path hashes to it, every path returned names such a file, and one download is under way at most |
| Library.PublishedOnceAndForAll | internal/daemon/libthunder.go:168-187 | once a non-empty build is published it never changes and is never downloaded again |
| Library.LibthunderCache.Resolve | internal/daemon/libthunder.go:83-108 | memoised, and a pin never consults the installer |
| Library.LibthunderCache.Ensure | internal/daemon/libthunder.go:163-231 | one call among the others: the path it returns is verified; a build that was cached is returned without lock or download; it goes without the lock only while another holds it, and with it fails exactly if the build is still not there and its own download fails or does not hash to the digest |

## Left out

- Stability.SecondSyncIsQuiet: is about the slices; DeviceClasses and the reaping that follow in the same pass are not part of it.
- Generations.GenerationsNeverFall: is about passes without errors; HalfApplied.OneNumberForDifferentSpecsExactly says what a failed one does to a remembered pool, and nothing is said of a failed one on a pool not remembered. Nor is it about two wanted pools that share one label, for which Generations.GenerationFallsExactly gives the single step.
- Sync.Operator.Sync: slices have no resource versions here, since within a pass nobody else is assumed to write the operator's slices; int64 overflow of generations and capacity sums is not modelled.
- Clients.ClientsAreConserved: the protocol has one hook at a time, the one past the directory's lock. A hook that starts after a removal makes a new directory and a new lock file, and can run beside an older one; neither that hook nor the new directory is modelled.
- Hook.DirectoryIsAlwaysUsable: holds between a claim's creation and its removal, because removal unlinks the lock file.
- Failing to open a lock file: a process that never gets a lock is one killed while it waits for another.
- The order of pools within a reconcile: every order is covered, so the sort of the keys is not modelled.
- HTTP, TLS, JSON, JWT and Kubernetes client plumbing: a call is its outcome and its effect.
- Decoding of allocations, and several claims at once: one claim is modelled, and two claims of the same name sharing a Secret are not.
- Preparing one claim on two nodes at once.
- DeviceClass syncing, version comparison, environment configuration, command execution, logging and status parsing.
- The CA bundle, CDI environment and mounts, the guest script, and copying into the container's file system.
- Reading the installer script for a digest: its answer is a parameter.
- Rounding of floating-point products, random jitter, and writes lost in a power failure.
- Labels that are absent are read as empty, and strings are ASCII.
- Hash collisions between shortened names: the hash is uninterpreted, so names of different bases are not shown to differ.
- An empty build with a matching digest would be downloaded again each time; the cache theorems speak of non-empty ones.
