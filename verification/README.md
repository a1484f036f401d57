# Razdacha: models and proofs

The daemon shares a WireGuard network (and public REALITY access) through a generated sing-box
configuration and a kernel nft table. This project models the parts of it whose correctness is hardest to
see in one function, and proves what they are for:

- **Guarded publication and revocation.** `Policies`, `Publication`, `PublicationGate`, `ApplyGate`,
  `Ingress`, `NetworkState`. The daemon, the startup hook that runs beside it under a file lock, the
  runtime, crashes and reboots are one state machine. `PublicationGate.Host` records every state it is ever
  in; `ApplyGate.Gate` is the daemon, written step by step as in the source, with every effect able to fail
  before or after it happened. `ApplyGate.AnyRun` shows every state of every run safe: an open guard means
  that configuration, runtime, kernel table and committed record are of one generation; open public access
  means that the running configuration lets in live users only; the startup hook would accept the
  configuration on disk; an old seed is dead; a committed policy was decided by an explicit Apply or a seed.
- **The native rule-set compiler.** `Ipv4`, `Subnets`, `NativeRules`, `NativeProjection`, `NativeRegex`,
  `NativeCompiler`, `NativeProject`, and the check of the compiled domain matcher in `SrsTrie`. The match
  semantics of nested rules is written out, and the split into a domain rule, an address set and a
  TCP/UDP envelope is proved against it by induction over AND, OR and NOT.
- **The kernel table.** `NftTable` gives the chains a packet semantics, `NftIntervals` the writer and the
  reader of interval sets, `NativeCoverage` joins compiler and table.
- **The QR encoder.** `QrField` (GF(256) and its tables), `Polynomials`, `RingPowers`, `PowerSums`,
  `QrReedSolomon` and `QrDistance` (error correction, and the damage it detects), `QrTables`, `QrBch`,
  `QrBits`, `QrBlocks`, `QrStream`, `QrEncoder`, `QrSkeleton`, `QrZigzag`, `QrCapacity`, `QrPlace`,
  `QrPicture`, `QrSymbol`, after ISO/IEC 18004:2015. Whoever looks at the finished symbol can read the text
  back: `QrSymbol.Encode` and `QrSymbol.SymbolReads`.
- **Pool merge.** `PoolMerge` is the merge with its loops, `PoolLaws` what it guarantees once, repeated, and
  over any sequence of crawls.
- **Small concurrent machines.** `ListSources` (ownership tokens), `ProbeBroker` (shared probes),
  `TunnelEvents` (confirmed and limited messages).

`Options`, `Basics` and `Sorting` hold what several of them share.

Where the code keeps state and changes it step by step, the model is a class or a method with loops, proved
against a function of its inputs; the laws are lemmas about that function.

## What is not as one might expect

Properties that do not hold as one would first state them; each has an input that shows it and the exact
condition under which it holds.

- A packet matched by a native rule is not always marked: from a whole-Internet-egress source, anything but
  TCP and UDP, and everything for the resolver's address, stays unmarked (`NativeCoverage.MatchedIsMarked`
  gives the exact mark, `NativeCoverage.EgressPingStaysUnmarked` an input and
  `NativeCoverage.PingIsServed` a table for it).
- The proxy chain and the DNS redirection can both take a packet that arrives with the mark already on it
  (`NftTable.BothActExactly`, `NftTable.PremarkedIsTakenTwice`).
- Merging the same crawl twice may change the pool twice: a stored record that the filter rejects hides an
  allowed card of the same URL once (`PoolLaws.SecondMergeIsQuiet`, `PoolLaws.RenamedServerComesBack`).
- Against the comment at `internal/lists/pool.go:479`, a rejected server's place in the window is not taken by
  a candidate: the code drops the place (`internal/lists/pool.go:508`) and the servers after it move up. `PoolLaws.RejectedPlaceIsLost` gives an input, `PoolLaws.WindowStep` the exact condition
  under which a server keeps its slot in one crawl, `PoolLaws.WindowIsStable` over any number of them.
- A power loss during `Invalidate` can give an old seed its authority back when the seed was removed
  before without the removal being synced, because a file that is gone is passed over without a sync
  (`NetworkState.InvalidateExactly`, `NetworkState.OldSeedCanReturn`). Over whole runs that is the only way
  (`NetworkState.OldSeedRulesExactly`).

## Model

| member | source | states |
|---|---|---|
| ApplyGate.AnyRun | cmd/razdachad/network_generation.go:60-247 | over any run from a fresh host, with any step failing, crashes, reboots and the startup hook between any two steps, every state the host was ever in is safe |
| ApplyGate.Gate.StagePublic | cmd/razdachad/reality.go:39-95 | a staged candidate is approved beside the configuration on disk, and public access is shut for the listeners of both; on any other outcome no record changed |
| ApplyGate.Gate.ReleasePublic | cmd/razdachad/reality.go:104-134 | may be called only with everything of one generation and live users only; on success some state had both ways open and a manifest naming the candidate alone |
| ApplyGate.Gate.Prepare | internal/singbox/apply.go:214-275 | a prepared candidate was generated from the policy with at most pool members left out and admits none but the given users; it is marked changed exactly when it differs from the disk |
| ApplyGate.Gate.Commit | internal/singbox/apply.go:167-192 | a commit leaves every other record alone; on success the disk holds the candidate and the runtime is down or runs what is on disk |
| ApplyGate.Gate.Exchange | cmd/razdachad/network_generation.go:185-232 | between closing and opening: on success configuration, kernel table and committed record are of the new generation, the seed is gone and WireGuard is still shut |
| ApplyGate.Gate.CheckActive | cmd/razdachad/network_generation.go:67-83 | a broken active artifact leaves the gate uncertain, and when both guards report that they are shut, nothing can be reached by either way; an intact one leaves the host as it was |
| ApplyGate.Gate.Publish | cmd/razdachad/network_generation.go:60-247 | keeps the gate's memory truthful in every outcome; on success the gate is certain of exactly this policy and these lists |
| ApplyGate.Gate.Apply | cmd/razdachad/apply.go:39-43 | the one operation by which a new policy becomes the applied one |
| ApplyGate.Gate.ApplyPools | cmd/razdachad/apply.go:45-57 | a pool update leaves the applied policy, pool membership erased, as it was |
| ApplyGate.Gate.RefreshLists | cmd/razdachad/network_generation.go:249-256 | a list refresh publishes under the policy already applied |
| ApplyGate.Gate.Recover | cmd/razdachad/apply.go:162-193 | a successful recovery has published exactly the committed generation, or a seed that never had a committed record beside it; a host without a record, or with a first-version record that needs native lists, is left as it was |
| ApplyGate.Gate.CloseForRevocation | cmd/razdachad/reality.go:142-153 | on success the guard covers every listener that disk or runtime could open, and the gate is uncertain, before anything in the database changes |
| ApplyGate.Gate.WriteDatabase | cmd/razdachad/reality.go:163-192 | done means exactly the new database; a change that takes access away may be written only while public access is shut |
| ApplyGate.Gate.PatchPeer | cmd/razdachad/reality.go:163-192 | the row is patched as asked, and after a revoking patch no credential of the peer is live |
| ApplyGate.Gate.DeletePeer | cmd/razdachad/reality.go:194-215 | the row is gone and no credential of the peer is live |
| ApplyGate.Gate.RotateReality | cmd/razdachad/reality.go:217-238 | every credential of the peer that was live is live no more |
| ApplyGate.Gate.SaveSettings | cmd/razdachad/reality.go:246-268 | switching public access off leaves no live credential |
| ApplyGate.Gate.CreatePeer | cmd/razdachad/network_generation.go:314-332 | refused without an applied policy or when the WireGuard addresses are not the applied ones; otherwise the row is added, which takes access from nobody |
| ApplyGate.Gate.EmergencyPublicGuard | cmd/razdachad/reality.go:378-390 | when reported done, the saved manifest is marked guarded and otherwise as it was, the guard covers all it lists, and nothing on disk or running can be reached; no record is touched either way |
| ApplyGate.Gate.StartDaemon | cmd/razdachad/main.go:96-122 | a daemon that stays up either has published exactly the saved generation or has nothing to publish and keeps both ways shut; every outcome keeps every state safe |
| ApplyGate.Gate.ShutDoors | cmd/razdachad/main.go:96-112 | before recovery the saved manifest is marked and guarded and WireGuard is up but shut |
| ApplyGate.Gate.GuardSaved | internal/packaging/ingress.go:51-63 | a manifest without a configuration is refused; otherwise the guard covers all that the saved manifest lists |
| PublicationGate.Host.Perform | cmd/razdachad/network_generation.go:60-247 | one effect of the daemon: it happens, fails before or after it happened, or is the last thing before a crash, amid any number of outside events; the invariant holds throughout |
| PublicationGate.Host.Event | internal/ingressguard/startup.go:172-194 | one thing outside the daemon (runtime stop or start, startup hook whole or half, crash, reboot) keeps the invariant; under the file lock manifest and guard stand still |
| Publication.InvIsSafe | cmd/razdachad/network_generation.go:60-247 | the invariant implies all that must hold in every state |
| Publication.AnyEvent | internal/ingressguard/startup.go:172-194 | every event outside the daemon keeps the invariant |
| Publication.ReplaceKeepsInv | cmd/razdachad/reality.go:39-95 | a staged candidate may replace the configuration on disk |
| Publication.DatabaseKeepsInv | cmd/razdachad/reality.go:142-268 | the database may change when public access is shut or the change takes access from nobody |
| Publication.StartupKeepsInv | internal/ingressguard/startup.go:172-194 | the startup hook keeps the invariant and leaves the guard over every listener |
| Publication.RebootKeepsInv | internal/ingressguard/startup.go:147-194 | losing kernel state and processes and keeping the disk keeps the invariant |
| Publication.InvalidationKeepsInv | internal/networkstate/state.go:137-157 | taking authority from the seed first and the record second keeps the invariant |
| Publication.HookAccepts | internal/ingressguard/startup.go:110-140 | in every safe state the manifest on disk, in whatever order it lists things, authorizes the configuration on disk |
| Policies.WithPoolServers | cmd/razdachad/apply.go:59-82 | only the servers of known pools are carried over; with pools erased the policy is unchanged |
| Policies.CarriedErases | cmd/razdachad/apply.go:59-82 | carrying pools over is invisible once pools are erased |
| Policies.RealityRuntime | internal/store/reality.go:204-253 | the loops yield exactly the users that the policy admits, holds active and that are live; refused exactly for a foreign identity or an invalid or repeated admission |
| Policies.OtherChangesKeepLive | cmd/razdachad/reality.go:163-268 | the branches that skip the closing take access from nobody |
| Policies.RevokedIsNotLive | cmd/razdachad/reality.go:163-268 | each revoking change ends the access it is about |
| NetworkState.Records.Write | internal/networkstate/state.go:92-129 | the exact states a write goes through; done means renamed and synced |
| NetworkState.Records.DiscardBootstrap | internal/networkstate/state.go:159-166 | the exact states of discarding the seed |
| NetworkState.Records.Invalidate | internal/networkstate/state.go:137-157 | the exact states of an invalidation; done leaves no authority |
| NetworkState.InvalidateExactly | internal/networkstate/state.go:137-157 | no power loss during an invalidation revives a dead seed if and only if the seed is not removed with the removal unsynced |
| NetworkState.OldSeedCanReturn | internal/networkstate/state.go:137-166 | a discard cut before its sync, an invalidation cut by a power loss, and the seed rules |
| NetworkState.OldSeedRulesExactly | internal/networkstate/state.go:92-166 | over any run of writes, discards and invalidations, each cut anywhere, with power losses between them: a seed can rule in some state of the run if and only if some invalidation begins while the seed is removed and the removal unsynced |
| NetworkState.RulesAfterLoss | internal/networkstate/state.go:92-166 | a seed can rule in a state exactly when some power loss there makes recovery read it |
| NetworkState.WrittenNeverRules | internal/networkstate/state.go:92-129 | once a write is done the record rules, and discarding the seed never exposes it |
| NetworkState.CheckFreshDirectory | internal/networkstate/state.go:178-187 | accepted exactly when no record has authority |
| Ingress.NormalizeEndpoints | internal/ingressguard/endpoint.go:22-52 | refused exactly for too many or invalid listeners; otherwise their endpoints, each once, sorted by address text and port |
| Ingress.NormalIsUnique | internal/ingressguard/endpoint.go:22-52 | two lists of listeners have the same normal form if and only if they have the same endpoints |
| Ingress.NormalizeManifest | internal/ingressguard/manifest.go:40-69 | accepted exactly with the right version, valid listeners and one to eight valid hashes; hashes and endpoints are those written |
| Ingress.CoverageIsHearing | internal/ingressguard/endpoint.go:63-72 | an endpoint covers another if and only if it hears every packet the other hears |
| Ingress.NormalHearsSame | internal/ingressguard/endpoint.go:22-53 | normalizing changes nothing about which packets are heard |
| Ingress.GuardPlan | internal/netstack/public_guard.go:19-41 | the planned rules drop a TCP packet if and only if one of the listeners hears it |
| Ingress.ValidateConfig | internal/ingressguard/startup.go:110-135 | accepted exactly when the manifest is valid, lists the hash and covers every listener of a configuration whose listeners are supported |
| Ingress.ApprovedIsGuarded | internal/ingressguard/startup.go:172-194 | the guard for the endpoints of an authorizing manifest drops every TCP packet the configuration could receive |
| Ipv4.MergeMembers | internal/netstack/nft_rules.go:381-414 | a built interval set holds exactly the addresses of its ranges |
| Ipv4.CanonicalUnique | internal/netstack/nft_rules.go:381-414 | two built sets with the same addresses are the same list of ranges |
| Ipv4.PrefixesExact | internal/lists/native.go:143-166 | the prefixes of a set hold exactly its addresses |
| Subnets.MergeSubnets | internal/netstack/nft_rules.go:381-414 | canonical intervals of all usable entries, and the count of the others |
| Subnets.MergedMembers | internal/netstack/nft_rules.go:381-414 | an address is in the merged set if and only if some usable entry holds it |
| NativeCompiler.Budget.Charge | internal/lists/native.go:59-72 | refuses exactly what exceeds the remaining work and spends exactly what it admits |
| NativeCompiler.Budget.AdmitRegex | internal/lists/native_regex.go:38-67 | admitted exactly when its operations are known and two copies of it, with repetitions written out, fit the budgets left; then charged exactly that |
| NativeRegex.EstimateNativeRegex | internal/lists/native_regex.go:71-135 | the estimate in capped arithmetic is the true size of tree and program with all repetitions written out, as far as that is below the cap; none exactly for an unknown operation |
| NativeRegex.CappedVerdict | internal/lists/native_regex.go:23-67 | capping changes neither a verdict of the budget nor what an admitted expression is charged |
| NativeCompiler.IntersectRanges | internal/lists/native.go:479-500 | the two-index merge yields sorted disjoint ranges of exactly the common addresses |
| NativeCompiler.UnionSets | internal/lists/native.go:396-405 | the union of sibling sets, or an exhausted budget |
| NativeCompiler.IntersectSets | internal/lists/native.go:406-424 | the intersection of sibling sets, or an exhausted budget |
| NativeCompiler.InvertNative | internal/lists/native.go:444-477 | the inversion selects exactly the complement; refused only for a shape that cannot be inverted |
| NativeCompiler.CombinePlain | internal/lists/native.go:365-441 | without context AND and OR of projections are exact |
| NativeCompiler.CombineAndContext | internal/lists/native.go:311-343 | an AND with context stays between what it must and what it may select |
| NativeCompiler.CombineOrContext | internal/lists/native.go:344-364 | an OR with context stays between what it must and what it may select |
| NativeCompiler.CombineNative | internal/lists/native.go:301-442 | every combination of siblings, with the parts its shape foretells; an unsupported shape is refused and nothing else is |
| NativeProjection.CombinedIsFaithful | internal/lists/native.go:301-442 | combining faithful projections of the parts gives a faithful projection of the logical rule |
| NativeProject.CompileDefault | internal/lists/native.go:196-299 | one default rule: domain and address items are alternatives, ports and network restrict, inversion last |
| NativeProject.CompileNative | internal/lists/native.go:173-299 | for a rule of any nesting the result selects only what the rule matches and intercepts all of it, paid node by node and value by value |
| NativeProject.ProjectNative | internal/lists/native.go:78-171 | an accepted set is split so that DNS hits and subnets are matches and every match is a DNS hit, a subnet or a TCP/UDP transport subnet; without context there is no transport part; an error tells why truthfully |
| NativeProject.ExactSplit | internal/lists/native.go:126-171 | without context a connection matches if and only if its domain or its address is listed |
| NativeProject.CheckBounded | internal/lists/native.go:130-166 | refuses splits that take in all addresses, only those without context being certain to |
| NativeProject.ContextOfShape | internal/lists/native.go:286-294 | a transport part arises exactly from network or port fields |
| NativeRules.DomainOnlyIgnoresRest | internal/lists/native.go:74-77 | a domain rule depends on the domain alone |
| SrsTrie.AcceptedExactlyTrees | internal/lists/native_srs.go:200-234 | labels and bits are accepted if and only if they are the code of an ordered rooted tree, and then of one only |
| SrsTrie.CheckStructure | internal/lists/native_srs.go:206-234 | the nested loops accept exactly those codes and compute the depths |
| SrsTrie.DepthsAreLengths | internal/lists/native_srs.go:222-225 | the computed depths are the distances from the root |
| SrsTrie.PathsAreNodes | internal/lists/native_srs.go:200-234 | node paths are pairwise different and exactly the paths of the tree |
| SrsTrie.CodeSize | internal/lists/native_srs.go:200-205 | n labels, n + 1 nodes, 2n + 1 bits |
| SrsTrie.Preflight.Matcher | internal/lists/native_srs.go:177-253 | accepts exactly zero-padded tree codes within both budgets, and charges every leaf its true length |
| SrsTrie.AcceptedIsOneTree | internal/lists/native_srs.go:200-253 | an accepted matcher is one tree whose encoding is what was read, with n + 1 nodes and true depths |
| NftIntervals.SetElements | internal/netstack/nft.go:189-206 | the written elements: a start, and an end marker unless the range reaches the last address |
| NftIntervals.DiagRanges | internal/netstack/diag_nft_linux.go:109-159 | the sort and scan compute the reference reading of a dump |
| NftIntervals.CollectBounds | internal/netstack/diag_nft_linux.go:110-128 | whole ranges and separate bounds of a dump, in its order |
| NftIntervals.PairBounds | internal/netstack/diag_nft_linux.go:136-155 | sorted bounds pair up to intervals; an end marker with nothing to close is none, and a start that is never closed reaches the last address |
| NftIntervals.DumpRoundTrip | internal/netstack/diag_nft_linux.go:109-159 | any order of the written elements, with stray end markers in gaps, reads back as the same ranges |
| NftIntervals.Missing | internal/netstack/diag.go:101-133 | the loop collects the reference list of missing entries, in order |
| NftIntervals.MissingMeaning | internal/netstack/diag.go:101-133 | an entry is reported if and only if some address of it is not loaded |
| NftIntervals.LoadedIsNeverMissing | internal/netstack/diag.go:81-133 | what was merged and loaded is never reported, whatever order the kernel dumps |
| NftTable.BuildNftRuleset | internal/netstack/nft_rules.go:195-348 | refused exactly for an unusable configuration; a built table does to every packet, chain by chain, what one closed form says |
| NftTable.BothActExactly | internal/netstack/nft_rules.go:277-313 | proxy and DNS redirection both act if and only if a redirected packet arrives already marked |
| NftTable.OrderIsIrrelevant | internal/netstack/nft_rules.go:277-313 | for packets that arrive unmarked the order of the two chains does not matter |
| NftTable.PremarkedIsTakenTwice | internal/netstack/nft_rules.go:277-313 | a packet that both chains take |
| NftTable.RedirectIsIdempotent | internal/netstack/nft_rules.go:296-303 | a redirected query is not redirected again |
| NftTable.EgressIsNeverForwarded | internal/netstack/nft_rules.go:323-337 | no IPv4 packet of a whole-Internet source is ever forwarded |
| NativeCoverage.CarriedPrefix | internal/lists/native.go:143-166 | entries that carry a compiled prefix hold its addresses |
| NativeCoverage.MatchedIsMarked | internal/netstack/nft_rules.go:249-313 | the exact mark of every matched packet, and when it reaches the proxy |
| NativeCoverage.EgressPingStaysUnmarked | internal/netstack/nft_rules.go:249-313 | a matched packet that stays unmarked, in any table that serves its configuration |
| NativeCoverage.PingIsServed | internal/netstack/nft_rules.go:249-313 | the daemon builds a table that serves that configuration |
| PoolMerge.IndexCards | internal/lists/pool.go:482-491 | the first allowed card of every URL |
| PoolMerge.Survey | internal/lists/pool.go:499-543 | the window with its freed places, the servers waiting beyond it, and the known URLs |
| PoolMerge.CollectNew | internal/lists/pool.go:545-553 | allowed new URLs once each, in the crawl's order |
| PoolMerge.SamePool | internal/lists/pool.go:592-602 | the comparison of pools is equality |
| PoolMerge.MergePool | internal/lists/pool.go:481-579 | the merge is the reference merge, and a change is reported exactly when the list differs |
| PoolLaws.MergedUrls | internal/lists/pool.go:481-579 | each URL at most once, and exactly the surviving allowed stored ones and the allowed new ones |
| PoolLaws.MergedRecords | internal/lists/pool.go:512-529 | which record stands for a URL |
| PoolLaws.BestCandidatesFirst | internal/lists/pool.go:554-576 | freed places and the tail hold all candidates in (ping, URL) order |
| PoolLaws.WindowStep | internal/lists/pool.go:481-579 | whatever was stored, one crawl moves a surviving window server to no later slot, and leaves it in its slot if and only if all records before it stand and there are candidates for all the places they free |
| PoolLaws.RejectedPlaceIsLost | internal/lists/pool.go:499-510 | a rejected record gives its place up although a candidate is there: the survivor after it moves from slot 1 to slot 0 |
| PoolLaws.CoveredHolds | internal/lists/pool.go:531-576 | in a clean pool every window server keeps its slot when candidates cover all freed places |
| PoolLaws.WindowIsStable | internal/lists/pool.go:481-579 | over any sequence of crawls a window server that never misses three in a row is never dropped and never moves down, and is in its slot at the end if and only if every merge holds it there |
| PoolLaws.CoveredAlwaysHolds | internal/lists/pool.go:481-579 | from a clean pool every merge holds it there as long as candidates cover the freed places |
| PoolLaws.OneInThreeSuffices | internal/lists/pool.go:526-529 | appearing in one of any three crawls in a row is enough for that |
| PoolLaws.SecondMergeIsQuiet | internal/lists/pool.go:481-579 | merging the same crawl again changes nothing if and only if all survivors are in it and no rejected record hides an allowed card |
| PoolLaws.RenamedServerComesBack | internal/lists/pool.go:499-510 | a pool that the second merge of one crawl still changes |
| ListSources.Manager.Reconcile | internal/lists/manager.go:139-169 | tokens follow continuous ownership; exactly the plain sources nobody owns lose content and state |
| ListSources.Manager.SetSources | internal/lists/manager.go:120-128 | committed sources keep token and content |
| ListSources.Manager.SetCommittedSources | internal/lists/manager.go:130-137 | requested sources keep their tokens |
| ListSources.Manager.Begin | internal/lists/manager.go:241-247 | a refresh captures the token of every owned source |
| ListSources.Manager.Finish | internal/lists/manager.go:250-270 | content and state are written if and only if the source was owned at every moment since the capture |
| ListSources.SameTokenMeansOwned | internal/lists/manager.go:139-169 | a token from some moment is held again if and only if the source was owned ever since |
| ProbeBroker.Broker.Enter | internal/clash/probe_broker.go:35-55 | cancelled, refused when 32 jobs are listed, joined to the job of the tag, or a new job; exactly these |
| ProbeBroker.Broker.Acquire | internal/clash/probe_broker.go:64-77 | a slot is given exactly when fewer than two are taken |
| ProbeBroker.Broker.Wake | internal/clash/probe_broker.go:56-61 | a caller gets its own cancellation, or outcome and start of the job it joined |
| ProbeBroker.Broker.Anything | internal/clash/probe_broker.go:35-98 | under any interleaving jobs keep tag, start and outcome, and an answer never changes |
| ProbeBroker.MoveKeeps | internal/clash/probe_broker.go:64-98 | every phase change of a job keeps map, slots and callers consistent |
| ProbeBroker.FewProbes | internal/clash/probe_broker.go:35-98 | at most two probes at once, and at most one for a tag |
| TunnelEvents.Events.Observe | internal/api/notify_events.go:85-140 | the decision about one check by the last observations and the counted changes |
| TunnelEvents.PruneBefore | internal/api/notify_events.go:153-161 | keeps exactly the times after the edge |
| TunnelEvents.HourlyLimit | internal/api/notify_events.go:85-140 | any hour of a limited history holds at most four ordinary messages and one warning |
| TunnelEvents.LimitHolds | internal/api/notify_events.go:85-140 | in every run any hour holds at most four ordinary messages and one warning about a tunnel |
| TunnelEvents.MessageIsConfirmed | internal/api/notify_events.go:85-140 | a message follows three checks in a row that agree on its event |
| QrField.TimesLaws | internal/qr/qr.go:558-582 | multiplication modulo 0x11d is associative and commutative, distributes over addition, and has a zero and a one |
| QrField.OrderIs255 | internal/qr/qr.go:563-570 | no power of x below the 255th is one |
| RingPowers.OrderOf | internal/qr/qr.go:563-570 | an element of any commutative ring whose 255th power is one and whose 15th, 51st and 85th are not has order 255 |
| QrField.EveryByteIsPower | internal/qr/qr.go:563-570 | every nonzero byte is a power of x, so that its logarithm exists |
| QrField.BuildTables | internal/qr/qr.go:559-575 | both tables: all 512 powers, and the logarithm of every nonzero byte |
| QrField.GfMul | internal/qr/qr.go:577-582 | the product by logarithms is polynomial multiplication modulo 0x11d, for all bytes |
| QrField.GfLawful | internal/qr/qr.go:558-582 | GF(256) satisfies the laws the division rests on |
| QrReedSolomon.GenPoly | internal/qr/qr.go:545-556 | the loop builds the product of (x - x^i) for i below n |
| QrReedSolomon.RsRemainder | internal/qr/qr.go:528-542 | the in-place division computes the remainder |
| QrReedSolomon.CodewordDivides | internal/qr/qr.go:528-542 | a block followed by its remainder is a multiple of the generator |
| QrReedSolomon.CodewordVanishes | internal/qr/qr.go:528-542 | hence it vanishes at x^0 to x^(n-1), for every block and every n |
| QrReedSolomon.RemainderIsUnique | internal/qr/qr.go:528-542 | no other words complete the block to a multiple |
| QrReedSolomon.CodewordIsClean | internal/qr/qr.go:528-542 | a block with its error-correction words passes the reader's check |
| QrDistance.DamageIsSeen | internal/qr/qr.go:528-542 | a word of up to 255 bytes of which between 1 and n are not zero never passes the check: damage in up to n places is seen |
| QrDistance.BlocksAreFarApart | internal/qr/qr.go:528-542 | the codewords of two different blocks differ in more than n places |
| QrDistance.EveryBlockIsShort | internal/qr/qr.go:30-46 | both hold for the blocks of every version, none longer than 255 bytes |
| PowerSums.SomeSumIsNotZero | internal/qr/qr.go:545-556 | of the first t power sums of t weighted, different elements some is not zero, which is why the roots of the generator detect damage |
| Polynomials.EvalProduct | internal/qr/qr.go:528-556 | the value of a product is the product of the values |
| Polynomials.DataAndRest | internal/qr/qr.go:528-542 | the same division over any ring of characteristic two |
| QrTables.PickVersion | internal/qr/qr.go:146-157 | the smallest version that holds the text, and none exactly above 2953 bytes |
| QrBch.Push | internal/qr/qr.go:175-179 | appends the lowest bits of a number, the highest first |
| QrBch.DigitsNumber | internal/qr/qr.go:175-179 | the lowest n bits of a number below 2^n are that number |
| QrBch.Bch | internal/qr/qr.go:271-290 | both BCH loops compute data followed by the remainder over GF(2) |
| QrBch.WordDivides | internal/qr/qr.go:271-290 | a BCH word is a multiple of its polynomial |
| QrBch.BchFormat | internal/qr/qr.go:271-279 | the 15 bits of the format field for level L and a mask |
| QrBch.BchVersion | internal/qr/qr.go:282-290 | the 18 bits of the version field |
| QrBch.MaskIsRead | internal/qr/qr.go:410 | the format field names its mask |
| QrBch.VersionIsRead | internal/qr/qr.go:282-290 | the first 6 bits of the version field are the version |
| QrBlocks.InterleaveColumns | internal/qr/qr.go:223-235 | first elements, then second ones, and so on, skipping blocks that have ended |
| QrBlocks.DealRestores | internal/qr/qr.go:223-235 | dealing the interleaved elements out again restores the blocks |
| QrBlocks.LensSum | internal/qr/qr.go:208-221 | the blocks' lengths add up to all codewords |
| QrStream.CodewordsRead | internal/qr/qr.go:174-204 | the data codewords, header and padding included, hold the text |
| QrStream.StreamDecodes | internal/qr/qr.go:166-244 | for every text that fits, reading the stream finds every block clean and returns the text |
| QrEncoder.CutBlocks | internal/qr/qr.go:206-221 | blocks with the longer ones last, each with its remainder |
| QrEncoder.BitStream | internal/qr/qr.go:166-244 | the loops compute the stream, bit for bit |
| QrSkeleton.Skeleton | internal/qr/qr.go:294-370 | every module is drawn or left free exactly as the pattern it lies on says |
| QrZigzag.WalkIsExact | internal/qr/qr.go:378-407 | the walk visits every module off the sixth column exactly once, and no other |
| QrCapacity.DataFits | internal/qr/qr.go:294-370 | in all 40 versions the patterns leave at least 8 modules for every codeword |
| QrPlace.PlaceStream | internal/qr/qr.go:378-407 | the k-th free module of the walk shows bit k of the stream under the mask |
| QrPlace.DrawFormat | internal/qr/qr.go:409-429 | both copies of the format word, every bit in its place, and nothing else changes |
| QrPicture.StreamIsRead | internal/qr/qr.go:372-432 | unmasking the walked modules returns the stream, untouched by the format bits |
| QrPicture.FormatIsRead | internal/qr/qr.go:409-429 | both copies of the format field read as the format word |
| QrPicture.FieldsAreRead | internal/qr/qr.go:361-368 | both version fields read as the word the patterns show |
| QrSymbol.DataModulesOnce | internal/qr/qr.go:372-407 | every module that no pattern occupies is filled exactly once |
| QrSymbol.RoomForStream | internal/qr/qr.go:30-46 | the stream of every version fits on its symbol |
| QrSymbol.Place | internal/qr/qr.go:374-432 | patterns, masked stream and format field together are the symbol |
| QrSymbol.SymbolReads | internal/qr/qr.go:120-142 | reading a symbol of any version and mask that shows a text returns the text |
| QrSymbol.VersionIsNamed | internal/qr/qr.go:361-368 | from version 7 on both version fields of a symbol read the same word, which names its version |
| QrSymbol.Encode | internal/qr/qr.go:120-142 | none exactly above 2953 bytes; otherwise the smallest version that holds the text, its drawing with the first mask of the lowest penalty, and whoever sees the canvas reads the text |

## Left out

- SQLite store, HTTP handlers, JSON and YAML decoding, zlib, TLS, systemd units, Telegram and Clash HTTP calls: input and output; what they decide enters as a parameter or a free choice.
- The sing-box configuration generator and `sing-box check`: the generator is an unknown function of policy, lists and admitted users (`Publication.Generator`), the checker a free choice; the generator is taken to admit nobody it was not given.
- SHA-256 of configurations: configurations stand for their own hashes in the manifest.
- File permissions, ownership checks and temporary files: one step that may fail. Renames and directory syncs are kept apart only in `NetworkState`; in `ApplyGate` a write is one step.
- The exact errors returned by `publish` and the log lines: only success and failure.
- WireGuard peer configuration and its diff: the interface is up or down, its guard on or off.
- Administrative reset and uninstall, which drop the guards on purpose.
- Address and domain strings of rule sets: entries arrive parsed; IPv6 entries add nothing to an IPv4 set, and IPv6 packets appear only where the chains treat them.
- How an address is written: an unknown naming of addresses by texts orders the endpoints (`Ingress.Naming`).
- NormalizeManifest: keeps the hashes in the order written, where the source sorts them by text; nothing depends on their order.
- ConfigEndpoints (`internal/ingressguard/startup.go:16-71`): the listeners of a configuration are an unknown function of it, none when the configuration is refused.
- Go's parser of regular expressions: a parameter of the compiler (`NativeRegex.RegexParser`).
- The canonical re-encoding of a compiled domain matcher through the sing library (`internal/lists/native_srs.go:254-265`): the shape check before it is modelled.
- Go's integer overflow in budgets: the budgets are far below it and integers here are unbounded.
- The QR penalty rules (`internal/qr/qr.go:436-524`) and terminal drawing: the penalty is an unknown function of the drawn symbol; which mask wins by it is proved.
- The QR symbol's flat module slices: two-dimensional arrays stand for them.
- Goroutine scheduling and channels: every critical section or channel operation is one step of `ProbeBroker` or `ListSources`, in any order.
- `forget` of deleted tunnels in the message limiter: a run without it is what the hourly limit is about.
