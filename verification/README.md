# decenzed-node, verified

A Dafny model of the parts of decenzed-node that carry state, concurrency,
translation or accounting, with proofs of what they promise over every input,
every schedule and every run. `dafny verify dfyconfig.toml` checks all of it.

| part | files |
|---|---|
| per-user throttle | TokenBucket, LimitedCopy, LimiterMap, ProxyRun, ProxyBounds |
| concurrent scan | ScanPool |
| filter compiler | Routing, Resolution, DomainList, DomainListLaws, SourceLaws, FilterPipeline, FilterLaws |
| traffic accounting | Traffic, SlidingWindow, Accounting, AccountingRuns |
| log file and log viewer | Lines, LogRotate, LogFollow, LogSession |
| certificate files | CertIssue |
| shared helpers | Octets, Options, Text, Sums |

Objects that the program updates in place are classes whose methods are proved
against specification functions: the bucket, the limiter map, the copy loop, the
resolver's collector, the tick of the node, the load window, the log file, the
follower, the certificate directory. Concurrency is modelled as step machines
over every interleaving: the proxy's connections (ProxyRun) and the scan's
goroutines (ScanPool). Whole histories with faults are runs of steps:
AccountingRuns, LogRotate, LogFollow, LogSession, CertIssue. Time and tokens are real
numbers; what a domain or address matcher means, what DNS answers and what a
certificate authority issues are parameters.

## Where the code does not do what is said of it

For each of these a lemma says exactly when the code does meet the property, for
all inputs, and another gives an input on which it does not.

- A cap of (k+1) bursts plus rate times length on the bytes written in a window
  with k re-creations of the entry (src/internal/throttle/proxy.go:14-17) holds
  from the start of the proxy (`WholeRunWrites`), where it is reached for every k
  (`CapReached`). It holds for grants in every window, but not for writes in
  every window: a chunk that was paid for before the window and stalls inside
  its write comes on top. `WindowCapExact` gives the condition, `Drain` shows
  that the corrected bound is reached, `StalledWriteReachable` gives a run into a
  failing state.
- README.md:237 of the repository and src/internal/throttle/proxy.go:39-45 speak of
  one cap for each user. Each public inbound has a proxy of its own
  (src/internal/commands/node.go:118-131), so the cap holds for each inbound:
  `AllProxiesWrite` bounds what an address writes on all of them together, and
  `AllProxiesReach` shows that on P proxies it can write P times the cap.
- src/internal/xraygen/xraygen.go:224-225 says that unfiltered users are unaffected
  by the filters of others. In one pass that is so (`NonInterference`), but the
  second pass is switched on for everybody by anybody's country source
  (src/internal/commands/node.go:484-501). `RouteNonInterference` says exactly
  when a decision stays the same; in `BobsFilterBlocksAlice` it does not.
- README.md:232-234 says that blocking private ranges keeps users out of the
  node's own network. For a domain that resolves to a private address this works
  exactly as `PrivateBlockIff` says: by default, without resolution, it does not
  (`BobsFilterBlocksAlice`, before Bob), and a whitelisted domain gets through
  even with it (`WhitelistReachesPrivate`).
- README.md:446-449 says that a country source also applies to domain traffic.
  For blacklists that is so (`ResolutionFaithful`). For a whitelist it never is:
  the catch-all rule decides in the first pass (`WhitelistRoute`).
  `ResolutionForWhitelist` says for which connections this makes no difference,
  `CountryWhitelistMissesDomains` gives one for which it does.
- src/internal/traffic/traffic.go:28-33 detects a restart of xray between two
  readings by a lower counter. A reset goes unnoticed when the counter has passed
  its previous reading by the next tick, and then traffic is lost, never
  invented: `ExactAcrossResets`, `NeverOverCounts`; `TenBytesLost` is a run. This
  is about what the traffic package documents: the daemon as it stands starts
  xray once per process (src/internal/commands/node.go:94) and begins with no
  previous reading (node.go:134), so in it no reset falls between two ticks.
- src/internal/nodelog/nodelog.go:132-135 says that no line is cut. A rotation
  cuts one exactly when the tail it looks at holds no newline and does not start
  a line (`SuffixOnCleanRotate`; `RotationCutsLine` is a file); when all writes
  end with a newline this never happens (`FileIsRecentLines`).
- src/internal/commands/logs.go:58-60 restarts the viewer when the file was
  rotated. It notices only while fewer bytes were logged since than the rotation
  dropped, and then repeats the kept lines; otherwise it skips as many new bytes
  as were dropped. `RotateShowsAllIff` and, with a filter, `RotateShowsOnceIff`
  say when each new line is shown exactly once; `KeptLineShownAgain` and
  `NewLinesNeverShown` are two rotations where it is not. Over whole runs,
  `EachPollShowsNewIff` for polls between rotations; a poll that falls into one
  finds the emptied file and starts over (`PollInsideRotation`). With polls
  anywhere and reads of any length, `TakesInOnceIff` and `ShowsEachLineOnce`.
- Started in the middle of a line, the viewer shows that line in two pieces:
  `FollowKeepsLines`, `FollowSplitsLine`.
- Without a filter, the tail that `logs` prints drops trailing blank lines, and of
  an empty log it prints one blank line: `TailExact`, `EmptyLogShowsBlank`.
- A renewal with the same certificate authority that is cut off between
  certificate and key leaves a pair that does not fit and is taken for good
  (`CutSafeIff`; `RenewalCutUnsafe` is such a cut). A switch of environment that
  is cut off before its marker is in place is taken for good when the earlier
  build comes back (`SwitchBackIff`): either the other environment's certificate
  with the old key, or a whole pair of the other environment under the old marker
  (`SwitchBackUnsafe`).

## Model

| member | source | states |
|---|---|---|
| TokenBucket.AdmitStep | src/internal/throttle/throttle.go:37-57 | one call, with any clock reading: the level stays within 0 and burst, `last` never goes back, and granted bytes plus tokens left are exactly what was there plus what the time earned, up to the burst |
| TokenBucket.BoundsKept | src/internal/throttle/throttle.go:44-56 | over every history of calls 0 <= tokens <= burst, and `last` is at or after every clock reading seen, even when the clock steps back |
| TokenBucket.WindowBound | src/internal/throttle/throttle.go:37-57 | between any two points of any history the grants are at most the tokens at the start plus rate times the elapsed time |
| TokenBucket.PlainAdmit | src/internal/throttle/throttle.go:37-57 | with the rate written out: a call is granted iff it is within the burst and within the tokens left plus rate times the seconds since the last call |
| TokenBucket.PlainBound | src/internal/throttle/throttle.go:37-57 | with the rate written out: over any window of any history the grants are within the tokens at its start plus rate times its length |
| TokenBucket.RefillIsTightestWindow | src/internal/throttle/throttle.go:34-51 | lazy refilling computes the tightest of all window limits since the bucket was created full |
| TokenBucket.AdmissionExact | src/internal/throttle/throttle.go:34-57 | a request is granted if and only if granting it overruns no window that starts at an earlier call: never too much, never refused without need |
| TokenBucket.AboveBurstNeverAdmitted | src/internal/throttle/throttle.go:62-63 | a request above the burst is refused after every history, which is why callers must stay below it |
| TokenBucket.Bucket.constructor | src/internal/throttle/throttle.go:25-32 | a new bucket is full at the time it is made |
| TokenBucket.Bucket.AllowN | src/internal/throttle/throttle.go:37-57 | refines the admission function on the object's two fields; unlimited when the rate is 0 |
| TokenBucket.Bucket.WaitN | src/internal/throttle/throttle.go:62-71 | a sole waiter gets through, pays in full, and needs at most about n / (rate * 2 ms) polls |
| LimitedCopy.LimitedCopy | src/internal/throttle/proxy.go:14-37 | for every chunking, data returned together with the end included, and every write failure: what arrives is an in-order prefix of the source and the whole of it unless a write failed, the count is right, and all of it was paid to the bucket |
| LimitedCopy.BurstFor | src/internal/throttle/proxy.go:67-73 | the burst is a quarter second's worth and never below four chunks, so a chunk can always be paid for |
| LimiterMap.OpenCounts | src/internal/throttle/proxy.go:76-86 | counting a new connection keeps: an address has an entry iff it has an open connection, and the count is their number |
| LimiterMap.CloseCounts | src/internal/throttle/proxy.go:88-96 | letting go keeps the same, and frees the entry exactly with the last connection |
| LimiterMap.Proxy.Sharing | src/internal/throttle/proxy.go:39-60 | two open connections share a limiter iff they come from one address, otherwise no bucket; no bucket serves both directions; refs is the number of open connections |
| LimiterMap.Proxy.EntryIff | src/internal/throttle/proxy.go:55-60 | an address is in the map iff it has an open connection |
| LimiterMap.Proxy.Acquire | src/internal/throttle/proxy.go:75-86 | keeps the sharing invariant; hands out the limiter the neighbours hold, or a fresh one with two full buckets |
| LimiterMap.Proxy.Release | src/internal/throttle/proxy.go:88-96 | keeps the sharing invariant for a matched release, whatever the order; an unknown address changes nothing |
| ProxyRun.StepInv | src/internal/throttle/proxy.go:76-96 | every step of every connection keeps the counts, the sharing, the bucket levels and the flows right |
| ProxyRun.RunInv | src/internal/throttle/proxy.go:125-151 | in every reachable state each open connection pays the current limiter of its address, so none pays one that was freed |
| ProxyRun.StepBound | src/internal/throttle/proxy.go:76-96 | grants are paid from the tokens at hand, from elapsed time, or from an eviction, which is worth at most one burst |
| ProxyRun.GrantBound | src/internal/throttle/proxy.go:76-96 | whole-run bound on grants under every interleaving: tokens at hand plus rate times length plus one burst for each eviction |
| ProxyRun.RunConserves | src/internal/throttle/proxy.go:24-28 | every byte paid for is written, dropped by a failed write, or still waiting to be written |
| ProxyRun.WriteMayFail | src/internal/throttle/proxy.go:24-28 | a write may fail after any part of a paid chunk; just the rest is lost, and the copy loop ends |
| ProxyRun.RunCounts | src/internal/throttle/proxy.go:79-95 | over any run an address gets as many entries as it loses, but for one it may begin or end with |
| ProxyBounds.WindowWrites | src/internal/throttle/proxy.go:14-17 | in any window of any run the bytes written, those still to be written and the tokens left come from what was there, from time, and from new entries at one burst each; the bytes granted are within the cap itself |
| ProxyBounds.WholeRunWrites | src/internal/throttle/proxy.go:39-45 | from the start of the proxy, an address whose entry is freed and re-created k times over time dt writes at most (k+1) * burst + rate * dt in either direction; what it has not used of the last bucket counts too |
| ProxyBounds.Drain | src/internal/throttle/proxy.go:18-37 | from every reachable state with an open copy loop some schedule without evictions writes all that the bound allows |
| ProxyBounds.CapReached | src/internal/throttle/proxy.go:76-96 | the cap is tight: for every k some run from the start has k re-creations and writes exactly (k+1) * burst + rate * dt |
| ProxyBounds.AllProxiesWrite | src/internal/commands/node.go:118-131 | on P proxies with k re-creations in all an address writes at most k + P bursts and P times what the time earns |
| ProxyBounds.AllProxiesReach | src/internal/commands/node.go:118-131 | on any number of proxies an address can write that many times the cap of one |
| ProxyBounds.WindowCapExact | src/internal/throttle/proxy.go:14-17 | the plain cap on writes holds for all runs from a state iff paid-but-unwritten bytes plus tokens at hand are within one burst |
| ProxyBounds.StalledWriteReachable | src/internal/throttle/proxy.go:24-25 | a run into a state where the plain cap fails |
| ScanPool.StepInv | src/internal/realityscan/realityscan.go:162-196 | every step keeps: each index in at most one hand, delivered at most once, and lost only to a cancelled worker, at most one each |
| ScanPool.RunInv | src/internal/realityscan/realityscan.go:162-196 | the same after every run, for every worker count and schedule |
| ScanPool.NoSendAfterClose | src/internal/realityscan/realityscan.go:176-191 | `out` is closed only after every worker has returned, so nobody sends on it afterwards, cancelled or not |
| ScanPool.Progress | src/internal/realityscan/realityscan.go:162-196 | no deadlock: until Scan has returned and the producer is gone, some step other than a cancellation can happen |
| ScanPool.Terminates | src/internal/realityscan/realityscan.go:154-203 | no run has more than five steps a host plus one a worker plus four, and one that cannot go on has returned with producer and workers gone |
| ScanPool.ResultIsHits | src/internal/realityscan/realityscan.go:193-202 | sorting recovers the input order: the result is the hits among the delivered indices, ascending, each once |
| ScanPool.ScanExact | src/internal/realityscan/realityscan.go:152-203 | without cancellation the result is the candidates of exactly the hosts that qualify, each once and in input order, whatever the worker count and schedule |
| ScanPool.ScanCancelled | src/internal/realityscan/realityscan.go:169-174 | with cancellation it is that list with entries left out; of the indices handed out, at most one a worker is missing |
| ScanPool.AllAtWork | src/internal/realityscan/realityscan.go:154-166 | as many hosts as the worker count asks for (twelve by default) can be probed at once, if there are that many, and never more |
| ScanPool.NoProbeAfterCancel | src/internal/realityscan/realityscan.go:169-174 | under no schedule does a probe start after a cancellation |
| ScanPool.FewHandedAfterCancel | src/internal/realityscan/realityscan.go:182-189 | after a cancellation at most one more index a worker is handed out, whatever the schedule |
| Routing.Generate | src/internal/xraygen/xraygen.go:226-275 | the rule list of the specification, for every input; the strategy resolves iff asked to |
| Routing.UserRulesMean | src/internal/xraygen/xraygen.go:277-308 | first-match evaluation of one user's rules is the meaning of the policy: blacklist, whitelist, or nothing for an empty or unknown one |
| Routing.UserRulesPlain | src/internal/xraygen/xraygen.go:277-308 | in the policy's own matchers: others are untouched; a blacklist blocks what one of them hits; a whitelist lets that through and blocks the rest on both networks; an unknown mode, an empty list or an unnamed user filters nothing |
| Routing.CompiledMeans | src/internal/xraygen/xraygen.go:211-265 | for any list of policies, evaluating the generated rules gives the global block or else the first verdict |
| Routing.CompiledIsPolicy | src/internal/xraygen/xraygen.go:211-225 | for distinct users the decision is the declarative policy: bittorrent, global addresses, that user's own list, else direct |
| Routing.NonInterference | src/internal/xraygen/xraygen.go:262-264 | given the addresses, what one pass matches depends only on the global rules and the user's own policies |
| Routing.SameMatchInAnyOrder | src/internal/xraygen/xraygen.go:262-264 | given the addresses, permuting the policies of distinct users changes no match of one pass |
| Resolution.BlacklistRoute | src/internal/xraygen/xraygen.go:231-249 | under two-pass resolution a domain connection of a user without a whitelist is blocked iff pass one blocks it or a resolved address is on the global or an own list |
| Resolution.WhitelistRoute | src/internal/xraygen/xraygen.go:297-305 | a whitelist user's decision is always the first pass's, whatever DNS says |
| Resolution.RouteInterference | src/internal/xraygen/xraygen.go:224-249 | with the user's own policies and the global rules fixed, the routed decision is the same iff resolution is on in both or neither, or the connection never comes to a second pass, or that pass lets it through |
| Resolution.OrderOfUsersIrrelevant | src/internal/xraygen/xraygen.go:262-264 | permuting the policies of distinct users changes no decision through both passes |
| Resolution.ResolutionFaithful | src/internal/xraygen/xraygen.go:35-39 | without a whitelist, domain traffic is decided as if its addresses had been known |
| Resolution.ResolutionForWhitelist | src/internal/xraygen/xraygen.go:35-39 | for a whitelist user this holds iff a condition on the matchers and the DNS answer |
| Resolution.CountryWhitelistMissesDomains | README.md:446-449 | a whitelist of one country blocks a domain whose address is in that country, and lets the address through |
| DomainList.ListsStayInDirectory | src/internal/domainlist/domainlist.go:217-241 | whatever name or URL a source gives, the file it stands for is one plain path element |
| DomainList.ListReadsOneFile | src/internal/domainlist/domainlist.go:217-259 | a list depends on that one file of the directory and on no other |
| DomainList.ReadListFile | src/internal/domainlist/domainlist.go:227-259 | the trimmed entries without comments, or which error |
| DomainList.ReadNamedList | src/internal/domainlist/domainlist.go:217-225 | succeeds iff the name is usable and the file it stands for can be read; the entries are exactly what is left of the lines of that file, none blank, untrimmed or with a comment |
| DomainList.NamedListIs | src/internal/domainlist/domainlist.go:217-259 | the same for the list a source is resolved to, and exactly when it is a bad name, no directory or no such file instead |
| DomainList.Collector.Classify | src/internal/domainlist/domainlist.go:99-132 | adds what the token stands for, keeping both outputs duplicate-free |
| DomainList.Resolve | src/internal/domainlist/domainlist.go:84-163 | the resolver with its seen sets computes the de-duplicated projection of what the sources stand for, which the SourceLaws rows pin down for each kind of source |
| DomainListLaws.ResolveAppend | src/internal/domainlist/domainlist.go:84-88 | resolving a ++ b is resolving a followed by exactly the entries of b not seen in a, field by field, warnings concatenated; one bad source never affects the others |
| DomainListLaws.ResolveComplete | src/internal/domainlist/domainlist.go:88-163 | a matcher is in the result iff some source stands for it |
| DomainListLaws.ResolveClean | src/internal/domainlist/domainlist.go:99-132 | no duplicates, no list reference survives, addresses are literal private ranges or installed countries |
| DomainListLaws.ResolveIdempotent | src/internal/domainlist/domainlist.go:88-163 | resolving the domain output again returns it unchanged with no addresses and no warnings |
| SourceLaws.SpacesDoNotMatter | src/internal/domainlist/domainlist.go:134-137 | spaces around a source change nothing, and a blank one stands for nothing |
| SourceLaws.PlainSource | src/internal/domainlist/domainlist.go:99-132 | a source with no mark is a domain matcher and resolves to itself alone |
| SourceLaws.GeositeSource | src/internal/domainlist/domainlist.go:167-170 | a geosite category stands for itself iff geosite.dat is a non-empty file or no directory is known, else for one warning |
| SourceLaws.CountrySource | src/internal/domainlist/domainlist.go:118-132 | a country is an address matcher on the same terms for geoip.dat |
| SourceLaws.PrivateSource | src/internal/domainlist/domainlist.go:114-119 | the private ranges resolve to exactly the literal ranges, without any data file |
| SourceLaws.PrivateInCapitals | src/internal/domainlist/domainlist.go:114-119 | in any case of letters, for instance capitals |
| SourceLaws.ExternalSource | src/internal/domainlist/domainlist.go:171-175 | a category of an external file depends on just that file |
| SourceLaws.ExternalUnnamed | src/internal/domainlist/domainlist.go:171-175 | without file name or category it depends on no file and is taken for a domain |
| SourceLaws.RemoteList | src/internal/domainlist/domainlist.go:149-159 | a cached remote list resolves to what its lines would as sources, except that a line that refers to a list adds exactly one warning and nothing else; a list that cannot be read gives one warning and nothing else |
| SourceLaws.CustomList | src/internal/domainlist/domainlist.go:138-148 | the same for a custom list under each of its three marks |
| SourceLaws.FlatAll | src/internal/domainlist/domainlist.go:105-113 | a list stands for its lines one to one iff no line refers to a list |
| SourceLaws.SameCacheFile | src/internal/domainlist/domainlist.go:149-150 | spaces around a URL lead to the same cache file |
| SourceLaws.ListFileName | src/internal/domainlist/domainlist.go:217-225 | a plain name with or without its ending means the same file |
| SourceLaws.CommentCut | src/internal/domainlist/domainlist.go:246-254 | a line counts up to its first comment sign, without the spaces around what is left |
| SourceLaws.LinesInOrder | src/internal/domainlist/domainlist.go:244-258 | the entries of a file are those of its lines in order |
| Text.BaseOfPath | src/internal/domainlist/domainlist.go:217-241 | of a path in a list name only the last element counts |
| Text.TrimCuts | src/internal/domainlist/domainlist.go:101-104 | trimming cuts off spaces only, and all of them at both ends |
| FilterPipeline.NeedsIPResolve | src/internal/commands/node.go:491-501 | true iff some entry is a country |
| FilterPipeline.BlocksBittorrent | src/internal/config/config.go:435-442 | true iff the protocol is listed |
| FilterPipeline.UserDomainPolicies | src/internal/commands/node.go:465-489 | one policy for each filtered client whose sources resolve to something, in order; resolution on iff any names a country |
| FilterPipeline.InputFromConfig | src/internal/commands/node.go:443-457 | the routing input of a config |
| FilterPipeline.ResolutionEnabledIff | src/internal/commands/node.go:484-501 | resolution is on iff a filtered client's resolved list holds an address matcher that is not a literal range |
| FilterPipeline.VerdictIsWanted | src/internal/commands/node.go:459-489 | the compiled policies give each client the verdict its mode and sources want |
| FilterPipeline.EndToEnd | src/internal/commands/node.go:443-501 | for every config with distinct non-empty ids and every state of the files, the rules decide as the global blocks and then the client's mode applied to its sources demand |
| FilterPipeline.EndToEndRoute | src/internal/commands/node.go:443-501 | the same through both passes of resolution, exactly when a connection is blocked |
| FilterPipeline.EmptyFilterIsNoFilter | src/internal/config/config.go:64-69 | a client with no filter, or whose sources all stand for nothing, meets only the global blocks |
| FilterPipeline.RouteNonInterference | src/internal/commands/node.go:465-501 | other clients change how a client's connection is routed only by switching resolution on or off, and exactly when the first pass leaves it open and the second would block it |
| FilterPipeline.BobsFilterBlocksAlice | src/internal/commands/node.go:484-501 | an unfiltered client's connection that another client's country filter turns from let through to blocked |
| FilterPipeline.ClientOrderIrrelevant | src/internal/commands/node.go:465-489 | permuting the clients of a config changes no routed decision, for anybody |
| FilterPipeline.PrivateBlockIff | src/internal/config/config.go:430-432 | a domain that resolves to a private address is blocked iff the first pass blocks it or resolution is on and the first pass leaves it open |
| FilterPipeline.WhitelistReachesPrivate | src/internal/config/config.go:430-432 | a whitelisted domain with a private address that is let through with resolution on |
| FilterLaws.NodeBlocks | src/internal/commands/node.go:443-457 | bittorrent, where listed, and an address in a private range are blocked whoever asks |
| FilterLaws.UnfilteredGoes | src/internal/commands/node.go:465-470 | with no such block a client without a list, or with any other mode, is let through everywhere, whatever others have configured |
| FilterLaws.DomainsFilter | src/internal/commands/node.go:443-489 | from the config on: a blacklist of plain domains blocks exactly the domains on it, a whitelist lets exactly these through, whatever DNS says and others have configured |
| FilterLaws.ListFilter | src/internal/commands/node.go:443-489 | the same for a client whose one source is a list file or cached remote list of plain domains |
| FilterLaws.CountryFilter | src/internal/commands/node.go:443-501 | a blacklist of one country blocks exactly its addresses and the domains that DNS places there; a whitelist lets exactly its addresses through and no domain |
| Traffic.ComputeDeltas | src/internal/traffic/traffic.go:26-52 | per-user deltas for any two snapshots, in any map order |
| Traffic.Stats | src/internal/xrayrt/xray.go:131-154 | the snapshot of the tracked ids, those with two zero counters left out |
| Traffic.ReportedIs | src/internal/xrayrt/xray.go:131-198 | a tracked id is in the snapshot iff one of its raw counters is positive, with these counters, a negative one counted as zero |
| Traffic.OmissionHarmless | src/internal/xrayrt/xray.go:145-151 | although all-zero users are left out, the delta of every tracked id is that of its two readings |
| SlidingWindow.LoadWindow.Add | src/internal/commands/node.go:560-580 | drops the old front, never ends up empty, and returns the rate that WindowRate pins down |
| SlidingWindow.WindowIsRecent | src/internal/commands/node.go:560-580 | with non-decreasing times the window is exactly the additions of the last ten minutes |
| SlidingWindow.WindowSpans | src/internal/commands/node.go:560-580 | in numbers: the window starts at the first addition no older than 600 seconds |
| SlidingWindow.WindowRate | src/internal/commands/node.go:560-580 | over every ordered history the rate times the seconds since the oldest kept addition (30 when less than one) is the total of all bytes ever added less the total before that addition |
| SlidingWindow.Activity.ActiveSince | src/internal/commands/node.go:582-592 | prunes its argument to the recent users and lists each of them once |
| SlidingWindow.ActivityExact | src/internal/commands/node.go:582-592 | over every history of ticks the map holds exactly the users with traffic in the last thirty minutes, each with its latest time |
| Accounting.NodeStats.constructor | src/internal/commands/node.go:134-153 | a node starts from the stored totals with no snapshot |
| Accounting.NodeStats.CreditClients | src/internal/commands/node.go:184-195 | the loop over users, in any map order, moves totals, window bytes, per-client entries and activity as specified |
| Accounting.NodeStats.CreditInbounds | src/internal/commands/node.go:199-208 | the loop over inbounds, in any map order, credits each display name with the deltas of its tags |
| Accounting.NodeStats.Tick | src/internal/commands/node.go:175-215 | a whole tick, or nothing at all when reading fails |
| Accounting.CreditConserves | src/internal/commands/node.go:184-195 | crediting users adds exactly the sum of the deltas to the sum of the entries |
| Accounting.InboundsConserve | src/internal/commands/node.go:197-210 | the same for inbounds though tags may share a display name, and each name gains just its own |
| Accounting.OneInbound | src/internal/commands/node.go:199-208 | the bytes of an inbound go to its display name if it has a non-empty one, else to its tag |
| Accounting.TickConserves | src/internal/commands/node.go:181-212 | at every tick the totals, the per-client entries together and the load window grow by the same bytes; entries of users that no longer report stay fixed |
| Accounting.RecentRate | src/internal/commands/node.go:209-213 | over every run of ticks in order, the reported rate times the seconds since the oldest tick of the last ten minutes is what the node's totals gained since before that tick |
| Accounting.TickMarks | src/internal/commands/node.go:184-213 | after a tick exactly the users with traffic in it, in either direction, or seen within 30 minutes before are active, each with its latest time |
| AccountingRuns.OwnShare | src/internal/traffic/traffic.go:34-52 | each user's share of the state moves independently of all others |
| AccountingRuns.NeverOverCounts | src/internal/traffic/traffic.go:28-33 | over every run of traffic, resets, failed reads, ticks, saves and restarts, recorded and saved totals never exceed the stored start plus the bytes carried |
| AccountingRuns.ExactWithoutReset | src/internal/traffic/traffic.go:26-27 | with no reset, recorded totals equal the stored start plus the bytes carried by the last successful tick, and saved totals those as of the last save |
| AccountingRuns.ExactAcrossResets | src/internal/traffic/traffic.go:28-33 | between any two ticks the second is exact iff xray is stopped then and nothing was carried, or it runs and was not reset, or all bytes since the first came after the last reset and the counter is still below the first reading, or that was zero; it never adds too much |
| AccountingRuns.RebootRestores | src/internal/commands/node.go:137-153 | a process restart takes the stored totals over if they can be read, and only then |
| AccountingRuns.RebootThenTick | src/internal/commands/node.go:137-153 | after it the next tick leaves exactly the stored totals plus the bytes carried since |
| AccountingRuns.ResetUnnoticed | src/internal/traffic/traffic.go:46-52 | c bytes, a reset and at least as many again: the c bytes are not recorded |
| AccountingRuns.TenBytesLost | src/internal/traffic/traffic.go:46-52 | a run in which 35 bytes are carried and 25 recorded |
| LogRotate.RotatingFile.Write | src/internal/nodelog/nodelog.go:120-124 | appends, or appends a prefix |
| LogRotate.RotatingFile.Rotate | src/internal/nodelog/nodelog.go:136-161 | the file after any outcome of its system calls, pinned down by the rows below |
| LogRotate.SuffixOnCleanRotate | src/internal/nodelog/nodelog.go:132-135 | a rotation leaves a suffix; it starts a line iff the tail looked at has a newline or starts a line |
| LogRotate.RotationSize | src/internal/nodelog/nodelog.go:143-156 | with lines of at most L bytes it leaves at most keep and at least keep - L bytes |
| LogRotate.RotateLeavesAlone | src/internal/nodelog/nodelog.go:136-156 | a file within the cap stays as it is, and so does one whose rotation fails before it is emptied |
| LogRotate.RotateKeepsHalf | src/internal/nodelog/nodelog.go:143-156 | a faultless rotation of a file over the cap leaves at most half the cap and at most one line less; half the file when the cap is below two bytes |
| LogRotate.RotateLeavesPiece | src/internal/nodelog/nodelog.go:136-161 | whatever fails, one contiguous piece of the file is left |
| LogRotate.RunRotationSize | src/internal/nodelog/nodelog.go:120-161 | the size in numbers at every rotation of a run, for the longest line ever written |
| LogRotate.RotationCutsLine | src/internal/nodelog/nodelog.go:132-135 | a file of which a rotation keeps part of a line |
| LogRotate.RunKeepsLines | src/internal/nodelog/nodelog.go:120-161 | over any mix of writes and rotations the file is the history from the start of some line on |
| LogRotate.FileIsRecentLines | src/internal/nodelog/nodelog.go:120-161 | so its lines are the last lines ever written: none cut, skipped, repeated or reordered |
| Lines.LinesRejoin | src/internal/commands/logs.go:112-126 | cutting into complete lines and a rest loses nothing |
| Lines.LinesUnique | src/internal/commands/logs.go:112-126 | there is no other way to cut |
| LogFollow.EntryMatches | src/internal/commands/logs.go:128-136 | the filter reads back the source the logger wrote, whatever the message holds |
| LogFollow.ShortEntryMatches | src/internal/commands/logs.go:128-136 | so it does for a line of just three fields |
| LogFollow.UntaggedNeverMatches | src/internal/commands/logs.go:128-136 | a line with fewer than two tabs, such as of a stack trace, passes no filter |
| LogFollow.PrintStream | src/internal/commands/logs.go:112-126 | prints the matching complete lines in order and returns the bytes after the last newline |
| LogFollow.PrintTail | src/internal/commands/logs.go:95-110 | prints an end piece of the matching lines, in order, as long as the limit allows |
| LogFollow.TailShowsLast | src/internal/commands/logs.go:96-110 | with a filter these are the last matching lines of the file, a trailing partial line included, for every file |
| LogFollow.TailExact | src/internal/commands/logs.go:96-110 | without a filter, for every file, the tail is its lines, a trailing partial one included, iff something was logged and no blank line ends it |
| LogFollow.EmptyLogShowsBlank | src/internal/commands/logs.go:96-110 | of an empty log one blank line is printed |
| LogFollow.TailMatches | src/internal/commands/logs.go:96-110 | the same for every filter: any filter makes the tail exact |
| LogFollow.StreamStep | src/internal/commands/logs.go:112-126 | streaming equals batch: one more chunk shows just the matching lines it completes |
| LogFollow.Follower.Poll | src/internal/commands/logs.go:53-66 | one turn of the follow loop, for any file and any short read |
| LogFollow.FollowExact | src/internal/commands/logs.go:52-66 | on a file that only grows, all polls together print the matching lines among the bytes taken in, in order and once each, whatever the chunking |
| LogFollow.FollowKeepsLines | src/internal/commands/logs.go:39-42 | the lines followed are the lines logged iff following started at the end of a line or completed none |
| LogFollow.FollowSplitsLine | src/internal/commands/logs.go:39-42 | a line shown without its first letter |
| LogFollow.FollowAcrossRotation | src/internal/commands/logs.go:58-60 | what a poll after a rotation shows: kept lines again, or the new bytes less as many as the rotation dropped |
| LogFollow.RotationShowsOnceIff | src/internal/commands/logs.go:58-66 | with any filter, each new matching line is shown exactly once iff the rotation is noticed and no kept line matches, or it is not and the skipped bytes are expendable |
| LogFollow.RotationShowsAllIff | src/internal/commands/logs.go:58-66 | without a filter: iff nothing was dropped, or everything was and it is noticed, or no line was completed since |
| LogFollow.SessionShows | src/internal/commands/logs.go:39-66 | tail then follow, with or without a filter: the last 200 matching lines so far when a filter or a last line that is not blank makes the tail exact, then the matching lines among the bytes added; these are the lines logged iff the session began at the end of a line or none was completed |
| LogSession.RotateShowsOnceIff | src/internal/commands/logs.go:53-66 | the condition for one rotation in terms of the file that Rotate leaves, with any filter |
| LogSession.RotateShowsAllIff | src/internal/commands/logs.go:53-66 | without a filter: iff the rotation dropped nothing, or everything and the file is shorter than it was, or no line was completed since |
| LogSession.TakesInOnceIff | src/internal/commands/logs.go:52-66 | over every mix of writes, rotations in any number of visible steps, and polls, the viewer takes in every byte logged after its start exactly once and in order iff no poll reads at a place that rotations have moved |
| LogSession.ShowsEpochs | src/internal/commands/logs.go:52-66 | exactly what is shown over every such run: the matching lines of the bytes taken in since each restart |
| LogSession.ShowsEachLineOnce | src/internal/commands/logs.go:52-66 | when no poll slips, the matching lines logged since the start, once each and in order, up to the byte reached |
| LogSession.EachPollShowsNewIff | src/internal/commands/logs.go:52-66 | over every run with whole polls between rotations, each poll shows exactly the lines logged since the one before iff rotations since had dropped nothing, or all the file held then and more than was logged |
| LogSession.ShownSoFar | src/internal/commands/logs.go:52-66 | all polls together have then shown the lines logged up to the last one |
| LogSession.PollInsideRotation | src/internal/nodelog/nodelog.go:157-160 | after a poll between truncation and rewrite the next shows the kept lines again, so just the new ones iff nothing was kept |
| LogSession.KeptLineShownAgain | src/internal/commands/logs.go:58-60 | a rotation after which a line is shown twice |
| LogSession.NewLinesNeverShown | src/internal/commands/logs.go:58-60 | a rotation after which three new lines are never shown |
| CertIssue.CertDir.WriteFileAtomic | src/internal/acme/acme.go:390-398 | the file system after any number of its calls took effect |
| CertIssue.CertDir.Obtain | src/internal/acme/acme.go:230-237 | the same for the three writes in sequence |
| CertIssue.CertDir.EnsureCert | src/internal/acme/acme.go:114-134 | which of the five outcomes, and the files in each: as one attempt of the runs below leaves them |
| CertIssue.AcceptedIff | src/internal/acme/acme.go:138-170 | the files count as good iff there is a certificate for the domain with 30 days left and a marker that can be read and names this build's environment |
| CertIssue.CutEffect | src/internal/acme/acme.go:230-237 | wherever the sequence is cut off each file is as before or new, never partial, and they change in order |
| CertIssue.FinishedIssue | src/internal/acme/acme.go:138-154 | a finished issue is accepted by its own build iff the certificate is good, and never by the other build |
| CertIssue.CutSafeIff | src/internal/acme/acme.go:150-152 | interrupting an issue is safe at every point iff the marker did not match before, or the new certificate is not good anyway |
| CertIssue.MarkerStays | src/internal/acme/acme.go:237-237 | any number of cut-off attempts leaves the marker as it was |
| CertIssue.FirstIssueSafe | src/internal/acme/acme.go:109-134 | on first issue or a switch of environment, after any number of cut-off attempts, no renewal needed implies that certificate, key and marker of one issue are in place |
| CertIssue.FirstCutNeedsRenewal | src/internal/acme/acme.go:165-170 | on a disk without a marker, an issue cut off anywhere before its marker is in place is not accepted |
| CertIssue.SwitchCutNeedsRenewal | src/internal/acme/acme.go:165-170 | nor on one whose marker is unreadable or names another environment |
| CertIssue.OtherMarker | src/internal/acme/acme.go:156-170 | the marker that the other build writes names another environment |
| CertIssue.FreshIssueSafe | src/internal/acme/acme.go:109-134 | on such disks, after any number of cut-off attempts, only an attempt that got through makes the files count as good, and then all three are its own |
| CertIssue.RenewalCutUnsafe | src/internal/acme/acme.go:230-237 | a renewal cut off after the certificate: it stands beside the old key and is accepted |
| CertIssue.SwitchBackIff | src/internal/acme/acme.go:165-170 | after a switch cut off anywhere, the earlier build asks for a renewal or finds one issue complete iff the cut was before the first rename or after the last, or the new certificate is not good |
| CertIssue.SwitchBackUnsafe | src/internal/acme/acme.go:165-170 | otherwise it accepts the other environment's certificate, with the old key or with its own, under the old marker |

## Left out

- xray-core, its DNS and its matchers: routing is modelled from the semantics the generator documents; matchers and DNS answers are parameters.
- Probing, certificate orders, DuckDNS, downloads, the HTTP site, setup, prompts, services, share links: network clients and user interface, or easy members.
- Inbounds, logging and statistics sections of the generated config: they do not take part in routing decisions.
- Floating point: times, rates and tokens are real numbers, so rounding is not captured.
- Integer widths: byte counts and totals are unbounded; wrap-around of uint64 totals and int64 sizes is not captured.
- Mutexes: a section guarded by one is a single step of ProxyRun or a single method call.
- ProxyRun: each poll of a copy loop may ask for any size up to a chunk, so it has more runs than the program, where a waiter repeats its size; the upper bounds hold all the more, and `Drain` and `StalledWriteReachable` use no failing poll.
- ProxyRun: the dialled backend, accept loop and half-closing only decide when connections come and go, which is arbitrary here; a rate of 0, for which no proxy is started, is not covered.
- TokenBucket.Bucket.WaitN: assumes a clock that never steps back, as Go's monotonic readings do; fairness between waiters is not claimed.
- LimitedCopy.LimitedCopy: reader and writer are scripts of what each call returns; a reader that returns no bytes and no error forever is not covered.
- ScanPool: probing is a function of the index, so a probe that never returns is not covered; sort.Slice is any ordering by rising index.
- DomainList: list files are given as the lines the scanner yields and whether it fails; data files are looked up by name in the directory, so asset names with separators are not covered; paths use slashes; the digest in cache names is a parameter; warnings are values, not texts.
- SlidingWindow.LoadWindow.Add: the branch for an empty window is dropped, since the window just had a sample added that is never before the cutoff.
- Accounting.NodeStats.Tick: saving, address refresh, certificate check and log rotation at the end of a tick are not part of it; saving is a step of AccountingRuns.
- AccountingRuns: counters are read at one instant; traffic between the readings of two users in one tick is not split.
- LogRotate.FileIsRecentLines: assumes that writes are whole and that no rotation is cut short in its read or rewrite, as do the whole-run results of LogSession; the other outcomes are in Rotate.
- LogFollow: printing, the pause between polls and the key that ends following are left out; the file seen by one poll does not change during it, apart from a short read.
- CertIssue: a certificate is its domains and expiry, so host name matching and parsing are not modelled; whether the certificate authority answers is the number of calls that take effect; the account key is not part of this model.
