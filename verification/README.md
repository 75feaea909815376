# eShield: a verified model of its stateful core

eShield is an XDP packet filter with a control plane and a policy hub. This
project models the four parts of it that hold state machines and arithmetic,
in Dafny 4.11, and proves what they promise over whole runs. `dafny verify
dfyconfig.toml` checks everything.

Where the program changes state in place, the model is a class whose methods
do the same, statement by statement, and whose `ensures` equate the new state
with a specification function. What the program promises is then proved about
those functions, for all inputs and all runs.

**The policy hub** (`HubKeys`, `HubStore`, `HubInvariant`, `HubHistory`,
`HubPull`, `HubLimiter`). A store of block policies in three tables: policies
keyed by big-endian (last seen, family, address), an index from address to
key, and tombstones. Tables are maps, transactions are atomic, and a scan
visits the sorted keys. Clients page through the store by timestamp while other
nodes write. Per-node token buckets limit the requests.

**Rates** (`RateCounter`, `PortRate`, `PortLimits`). The per-source counter with exponential
decay per tick, and the fixed window per port, with the 64-bit wrap-around and
saturation of the code written out. `PortLimits` carries the window's bound
through the pipeline and any run.

**The packet pipeline and blocking** (`DataPlane`, `Pipeline`, `DataPlaneRuns`,
`Accounting`, `CountedOnce`, `PoliteSources`, `FloodingSources`, `TrustRange`,
`Blocking`, `NewBlocks`, `Sampling`, `ConnTracking`, `Verdicts`, `Handshake`,
`BlockMerge`, `ProjectPolicy`, `ProjectVerdicts`, `SynCookie`, `Checksum`).
`DataPlane` says what each of the eleven checks decides and what carrying a
decision out does; `Pipeline` is the program with its maps and counters, proved
equal to it; the other modules prove properties of single packets and of any
run of packets and control-plane blocks. `PoliteSources` joins the parts: the
arithmetic bound of the rate counter, carried through every check and any run,
shows that a source that keeps to its rate is never blocked, and
`FloodingSources` that one whose counted packets exceed it within a tick is.
`Verdicts` gives a second reading of the pipeline, by the causes for which a
packet may be dropped, and shows that they are exactly those for which it is;
`ProjectVerdicts` reads the protection projects from their own texts.

**Chains and sync** (`AuditChain`, `BlacklistSync`). The audit file with its
hash chain, and the protocol that copies the data plane's blacklist to the
persistent store.

## Where the code does not give the expected property

Each of these is proved, with the exact condition.

- A delete on a store without index leaves the row exactly if the stored padding
  differs (`HubInvariant.DeleteMissesIff`).
- The clock is read before the write transaction starts, so a merge or delete may
  commit at or below a cursor handed out meanwhile. A delete is then lost to that
  client unless its tombstones had been delivered before; a merge unless each row
  it names is past the cursor, stays as it is, or had been delivered before
  (`HubPull.LateDeleteIsLostIff`, `HubPull.LateMergeIsLostIff`,
  `HubPull.LostForGood`).
- Beyond rates a 64-bit count can hold, the limiter's truncated quotient can
  refuse a call that has waited long enough (`HubLimiter.EmptyAdmitsIff`,
  `HubLimiter.TruncationStarves`).
- Cutting a gap of whole ticks in two changes the decay of some counter exactly if
  neither piece is empty and the gap is longer than 64 ticks
  (`RateCounter.SplitsIff`, `RateCounter.CapIsVisible`).
- A SYN of a challenged source, while no cookie secret is loaded, passes and is
  counted as dropped (`Accounting.PassCountsAsDropIff`).
- A cookie made while rotation lags the minute is good only if cookies collide,
  unless the next rotation comes just in the following minute; without a rotation
  and with a lag of two minutes or more it never is (`SynCookie.LaggingRotation`,
  `SynCookie.LaggingRotationRejects`).
- After a rotation the audit file verifies only if there was nothing before it,
  and not after the next append (`AuditChain.RotationIsVerifiableIff`,
  `AuditChain.AppendAfterRotationIsRejected`); a comment in the code claims
  otherwise (`eshield/src/audit.rs:305-306`).
- The canonical text of an audit record does not separate its fields: it belongs
  to one entry alone exactly if no field has a bar and there is a source
  (`AuditChain.TextIsUniqueIff`, `AuditChain.MovedBarIsInvisible`).
- A live entry over a hub-owned row that has expired ends up without any stored
  row, until a pass writes it (`BlacklistSync.UncoveredIff`,
  `BlacklistSync.ExpiredHubRowUncovers`).
- One more 16-bit word than 131074 bytes hold can overflow the checksum
  (`Checksum.LongerOverflowsIff`).

Two comments disagree with the code, and the model follows the code. The one
on `query_since` says that a full page is completed with the rest of its last
row's timestamp group (`eshield-hub/src/store.rs:137-142`); the loop takes the
group of the row after it, so a page may hold one group more. The one on the
cookie gives it 8 bits of MSS index (`eshield-common/src/pure.rs:88`); it has 2.

## Model

| member | source | states |
|---|---|---|
| `HubKeys.CompositeKey` | eshield-hub/src/store.rs:17-23 | A row key decodes back to its timestamp and to the address and family it was built from |
| `HubKeys.FromToBE` | eshield-hub/src/store.rs:19 | Big-endian bytes of a number that fits read back as that number |
| `HubKeys.LexIsNumeric` | eshield-hub/src/store.rs:17-23 | For byte strings of equal length, lexicographic order is numeric order |
| `HubKeys.LexAgreesWithTime` | eshield-hub/src/store.rs:137-142 | Among row keys, an earlier timestamp always sorts first, and sorting first never means a later timestamp: a key scan is a scan in time order |
| `HubKeys.SortedKeys` | eshield-hub/src/store.rs:165 | The scan order of a table: every key once, strictly ascending |
| `HubKeys.AscendingUnique` | eshield-hub/src/store.rs:165 | There is only one such order |
| `HubStore.Store.Merge` | eshield-hub/src/store.rs:43-53 | A push is cut into chunks of 1000, each its own transaction with its own clock reading; the store and the result are those of the chunks in turn, and a failing chunk leaves the earlier ones committed |
| `HubStore.Store.MergeChunk` | eshield-hub/src/store.rs:55-135 | One transaction: on success all three tables are those of the specified merge, on a missing row nothing changes |
| `HubStore.Store.RebuildIndex` | eshield-hub/src/store.rs:67-79 | The rebuild of an absent index yields the specified index of the scanned rows |
| `HubStore.Store.DeletePolicies` | eshield-hub/src/store.rs:254-309 | Rows and index entries of the addresses go, by index or by scan, tombstones at the clock reading are added, and the count is that of the rows removed |
| `HubStore.Store.Prune` | eshield-hub/src/store.rs:205-248 | Exactly the expired rows, their index entries and the old tombstones go; both counts are returned |
| `HubStore.Store.QuerySince` | eshield-hub/src/store.rs:143-188 | The page is the rows with since < last_seen <= cursor in key order; fewer than the limit are never returned while there are more, and the rows below the cursor are at most the limit, which together fix the cursor |
| `HubStore.Store.QueryTombstonesSince` | eshield-hub/src/store.rs:322-366 | The same for tombstones, with the addresses decoded from the keys |
| `HubStore.ScanPage` | eshield-hub/src/store.rs:164-187 | The scan loop with its cutoff returns the keys between the old cursor and the specified new one |
| `HubStore.ScanDelete` | eshield-hub/src/store.rs:278-291 | The fallback scan removes exactly the rows whose stored address is equal, padding included |
| `HubStore.PageIsBetween` | eshield-hub/src/store.rs:164-187 | A contiguous stretch of the scan that starts after all older keys and ends at a change of timestamp is the set of keys between the cursors |
| `HubStore.PageEndIsPage` | eshield-hub/src/store.rs:143-188 | The cursor the loop computes makes a page: the rows between the cursors, at most `limit` of them older than the new cursor, and more than `limit` in all if anything lies beyond |
| `HubStore.PageIsUnique` | eshield-hub/src/store.rs:143-188 | Those properties fix the page and the cursor: no other pair has them |
| `HubInvariant.MergeOneKeeps` | eshield-hub/src/store.rs:81-131 | Merging one item keeps one row per address and the index inverse, succeeds, and changes the row of that address only |
| `HubInvariant.MergeTxnKeeps` | eshield-hub/src/store.rs:55-135 | A merge transaction, with or without index rebuild, succeeds and keeps the invariant; each row becomes the fold of the pushes for its address |
| `HubInvariant.RebuiltIsInverse` | eshield-hub/src/store.rs:67-79 | The rebuilt index is the inverse of the policy table |
| `HubInvariant.SplitMerge` | eshield-hub/src/store.rs:43-53 | Two transactions, at any two times, leave every row as one would, apart from its times |
| `HubInvariant.ChunkingIsInvisible` | eshield-hub/src/store.rs:43-53 | However a push is cut into chunks, each with its own clock reading, every row ends up as in one transaction at any time, apart from its times |
| `HubInvariant.PushIsOneMerge` | eshield-hub/src/store.rs:43-53 | In particular the cut into chunks of 1000; and if the clock stood still, all three tables are the same |
| `HubInvariant.ChunkSizes` | eshield-hub/src/store.rs:43-53 | All chunks but the last have 1000 items, and the last no more |
| `HubInvariant.DeleteOneKeeps` | eshield-hub/src/store.rs:265-295 | Deleting one address keeps the invariant and removes exactly the row it is said to remove |
| `HubInvariant.DeleteTxnKeeps` | eshield-hub/src/store.rs:254-309 | A delete transaction keeps the invariant, adds exactly the tombstones of its addresses and, in a store with an index, removes exactly their rows |
| `HubInvariant.DeleteMissesIff` | eshield-hub/src/store.rs:278-293 | A delete leaves the row of its address behind exactly when the store still has no index and the stored padding differs |
| `HubInvariant.ExpiredMeans` | eshield-hub/src/store.rs:215-221 | Saturating arithmetic never decides: a row expires exactly when last_seen + ttl lies in the past, never with ttl 0 |
| `HubInvariant.PruneTxnKeeps` | eshield-hub/src/store.rs:205-248 | Prune keeps the invariant and removes exactly the expired rows and tombstones |
| `HubHistory.ReachableIsWellFormed` | eshield-hub/src/store.rs:55-309 | Every state reachable by merges, deletes and prunes keeps the invariant, so a merge never meets an index entry without its row |
| `HubHistory.FoldsExtends` | eshield-hub/src/store.rs:90-106 | Absorbing one more push extends the fold: max, min, join of ttls with 0 on top, union of nodes |
| `HubHistory.RowsFoldTheirHistory` | eshield-hub/src/store.rs:81-131 | After any history, an address has a row exactly if it was pushed since a delete last named it or a prune found its pushes lapsed, and the row is the fold of those pushes |
| `HubHistory.FoldIgnoresOrder` | eshield-hub/src/store.rs:90-106 | Rows that fold the same pushes, in any order and at any times, agree in hit count, trust, ttl and nodes, and in their times if the pushes do |
| `HubPull.PageIsExact` | eshield-hub/src/store.rs:143-188 | One pull delivers exactly the rows between the cursors, at most `limit` of them below the new cursor and more than `limit` in all if any are left, and moves the cursor if anything newer exists |
| `HubPull.WritesAreNew` | eshield-hub/src/store.rs:55-309 | What a transaction writes carries its commit time or a later one; everything older is untouched |
| `HubPull.StepKeepsGood` | eshield-hub/src/store.rs:55-366 | One write or pull keeps every row up to the cursor delivered in its current version, and no key delivered twice |
| `HubPull.NoLossNoRepeat` | eshield-hub/src/store.rs:137-366 | Over any interleaving of transactions in clock order with pulls, the client has every policy row and tombstone up to its cursors in the current version, and none twice |
| `HubPull.StartIsGood` | eshield-hub/src/store.rs:151-155 | A fresh client on any well-formed store starts that way exactly if no row or tombstone is dated 0 |
| `HubPull.NewerIsExact` | eshield-hub/src/store.rs:143-188 | The newer rows of a table are each there once, in ascending order of keys |
| `HubPull.DrainIsComplete` | eshield-hub/src/store.rs:137-188 | Pulling an unchanged table finishes, and delivers each newer row once, in order |
| `HubPull.LateMergeIsLostIff` | eshield-hub/src/store.rs:56-57 | A merge keeps a client exact exactly when its time is above the cursor, or every address it names has a row past the cursor, keeps its row as it is, or was delivered before as it is written; reading the clock before the transaction allows the other case |
| `HubPull.LateDeleteIsLostIff` | eshield-hub/src/store.rs:258-309 | A delete never harms the delivered rows; its tombstones reach the client exactly when its time is above the tombstone cursor or they were all delivered before |
| `HubPull.LostForGood` | eshield-hub/src/store.rs:143-188 | A row or tombstone at or below its cursor that was not delivered never is, whatever is written or pulled later |
| `HubLimiter.RateLimiter.Check` | eshield-hub/src/limiter.rs:24-56 | Each node has its own bucket; a call leaves it, and answers, as specified, and leaves other nodes' buckets alone |
| `HubLimiter.TokensNeverExceedBurst` | eshield-hub/src/limiter.rs:36-46 | Tokens never exceed the burst |
| `HubLimiter.WindowCovered` | eshield-hub/src/limiter.rs:24-56 | Every admission in a stretch of calls is paid for by the tokens at its start and what its duration earned |
| `HubLimiter.AdmissionsAreBounded` | eshield-hub/src/limiter.rs:24-56 | In any stretch of calls, at most burst + 1 + rate per second of its length are admitted |
| `HubLimiter.FirstCallsAreAdmitted` | eshield-hub/src/limiter.rs:24-56 | The first calls of a node, up to the burst, are all admitted, at whatever times they come |
| `HubLimiter.BurstRunsOut` | eshield-hub/src/limiter.rs:24-56 | At one instant the burst is all: the next call is refused |
| `HubLimiter.EmptyAdmitsIff` | eshield-hub/src/limiter.rs:30-55 | Exactly when an empty bucket admits a call, with the 64-bit truncation of earned tokens |
| `HubLimiter.WaitingIsEnough` | eshield-hub/src/limiter.rs:30-55 | At up to 10^9 calls per second, a call that waited the time of one token is admitted |
| `HubLimiter.TruncationStarves` | eshield-hub/src/limiter.rs:36-40 | Beyond that it may not be: an input that waits over four seconds and is refused |
| `RateCounter.DecayCounter` | eshield-common/src/pure.rs:240-258 | The decay loop applies the specified number of decays, at most 64, with wrapping multiplication |
| `RateCounter.TicksAppliedInFull` | eshield-ebpf/src/rate_counter.rs:40-61 | Over a run, exactly the whole ticks since the first packet are applied, and the last decay time stays less than one tick behind |
| `RateCounter.NextPacket` | eshield-ebpf/src/rate_counter.rs:40-61 | The ticks applied at a packet are the tick cells since the previous one |
| `RateCounter.CounterStaysBelow` | eshield-ebpf/src/rate_counter.rs:37-68 | With at most k packets per cell the counter keeps room for the rest of the cell |
| `RateCounter.NeverOverThreshold` | eshield-ebpf/src/rate_counter.rs:37-68 | Such a source is never over threshold, for runs of any length and gaps of any size |
| `RateCounter.DefaultAllows250PerTick` | eshield/src/config.rs:602-613 | With the default setting, decay 7/8 per 100 ms and threshold 2000, this is 250 packets per tick |
| `RateCounter.CounterCountsTheCell` | eshield-ebpf/src/rate_counter.rs:37-68 | The counter is never below the number of packets in the current cell |
| `RateCounter.FloodIsFlagged` | eshield-ebpf/src/rate_counter.rs:37-68 | More than threshold packets in one cell are flagged, whatever the decay |
| `RateCounter.SplittingAGap` | eshield-common/src/pure.rs:250-257 | A gap of at most 64 whole ticks decays the same in one call or two |
| `RateCounter.CapIsVisible` | eshield-common/src/pure.rs:250-257 | Beyond 64 ticks every split in two shows, at a counter that loses one per tick |
| `RateCounter.SplitsIff` | eshield-common/src/pure.rs:250-257 | A gap decays the same in one call as in two, for all counters and settings, exactly if one piece is empty or the whole is at most 64 ticks |
| `RateCounter.DecayIsGeometric` | eshield-common/src/pure.rs:240-257 | For num < den and while c * num does not wrap, n applied ticks multiply the counter by (num/den)^n, less at most den - 1, stated by powers on both sides |
| `RateCounter.GapForgets` | eshield-common/src/pure.rs:240-257 | The same for a gap in nanoseconds, whose whole ticks are applied up to 64 |
| `RateCounter.DefaultForgets` | eshield/src/config.rs:602-613 | With the default setting a counter of 2000 is down to 525 after a second of silence |
| `RateCounter.ModulationTightens` | eshield-ebpf/src/rate_counter.rs:166-181 | For factors up to 1000 modulation never wraps and never raises the threshold |
| `PortRate.WindowsArePaced` | eshield-ebpf/src/port_rate.rs:25-52 | Windows that close in a stretch are at least one window apart, each passes at most the threshold, and one that was open before passes at least one less |
| `PortRate.PassedIsBounded` | eshield-ebpf/src/port_rate.rs:18-52 | In any stretch of packets of length L fewer than threshold * (L / window + 2) pass, and none for threshold 0 |
| `PortRate.CountsItsWindow` | eshield-ebpf/src/port_rate.rs:25-52 | The stored count is that of the packets since the open window began, which is less than one window ago |
| `PortRate.BoundIsMet` | eshield-ebpf/src/port_rate.rs:35-52 | That bound is met, for every threshold, every window of at least 2 ns and every number of windows; within one nanosecond 2 * threshold - 1 packets can pass |
| `PortLimits.EachPacketMeetsItsPort` | eshield-ebpf/src/main.rs:306-710 | A packet is counted at most once under its protocol and port, fragments and ICMP under port 0, and if counted is refused there exactly if the window is full |
| `PortLimits.NothingPassesUncounted` | eshield-ebpf/src/main.rs:524-710 | With the limit on, a TCP, UDP or ICMP packet that neither the SYN proxy nor a project takes is dropped or counted there, unless whitelisted |
| `PortLimits.PortLimitHolds` | eshield-ebpf/src/main.rs:524-710 | Through the pipeline and over any run under one setting: of the packets of a protocol and port counted in a stretch of length L, at most threshold * (L / window + 2) - 1 are handed on |
| `PortLimits.RefusedIffOverLimit` | eshield-ebpf/src/main.rs:524-710 | After any run a counted packet is refused exactly if, with it, more than the threshold of its key came since the open window began, less than one window ago |
| `BlockMerge.BlocksNeverShorten` | eshield-common/src/pure.rs:25-44 | No merge moves an expiry earlier, with 0 (permanent) as the latest |
| `BlockMerge.LiveBlocksKeepHits` | eshield-common/src/pure.rs:25-44 | A live entry keeps its hits and its first time; a lapsed one starts with none |
| `BlockMerge.EntrySumsCurrentRequests` | eshield-common/src/pure.rs:17-73 | After any requests the entry is the fold of those since its last lapse: first time, latest expiry, first or last explicit cause, and as the other cause the loser of the latest dispute |
| `ProjectPolicy.ControlPlane.InitProtectionProjects` | eshield/src/control.rs:1423-1567 | An expansion error leaves table and flag as they were; a complete expansion replaces both, unless the kernel refuses an insert: then the table holds the entries up to it and the flag is unchanged |
| `ProjectPolicy.PushTargets` | eshield/src/control.rs:1484-1530 | The loop over a project's targets yields the specified entries or the first error |
| `ProjectPolicy.FitsIn32` | eshield/src/ip.rs:53-64 | A target of prefix 24 to 32 has 1 to 256 hosts, none beyond the last address |
| `ProjectPolicy.HostsMeanContains` | eshield/src/ip.rs:53-64 | The expanded hosts of a target are exactly the addresses that agree with it in its prefix bits |
| `ProjectPolicy.ProjectsExpand` | eshield/src/control.rs:1423-1535 | Expansion succeeds exactly when every project is well formed and all hosts together fit 8192 entries |
| `ProjectPolicy.TableMeansLastMatch` | eshield/src/control.rs:1536-1547 | The filled table holds, for each key, the policy of the last project of that class that contains the address |
| `ProjectPolicy.Lookup` | eshield-ebpf/src/main.rs:394-425 | The four-step loop finds the first of the four class keys that is present |
| `ProjectPolicy.ExpansionPreservesMeaning` | eshield-ebpf/src/main.rs:394-428 | Looking a packet up in the expanded table gives the policy of the last listed project in the most specific class that has one |
| `ProjectVerdicts.PortRoundTrip` | eshield/src/control.rs:1447-1453 | Every port written in decimal is read as that port, and "any" as 0 |
| `ProjectVerdicts.ModulesAreNamed` | eshield/src/control.rs:1463-1482 | The flags a defended packet carries have a module on exactly if the project lists its name, or lists no known name |
| `ProjectVerdicts.DeciderIsFound` | eshield-ebpf/src/main.rs:394-428 | The lookup finds the policy of the last listed project of the most specific rank that names the packet, with rank and match stated by the texts of the project |
| `ProjectVerdicts.ProjectGovernsPacket` | eshield-ebpf/src/main.rs:372-463 | For a packet that gets as far as the projects, the action text of the deciding project decides: "pass" passes and counts it, "drop" drops or resets and counts it, and under "defend" no module that is off counts, marks, blocks or stops anything |
| `ProjectVerdicts.ListedModulesRun` | eshield-ebpf/src/main.rs:440-463 | And under "defend" the later checks run with exactly the listed modules on |
| `ProjectVerdicts.OutsideProjects` | eshield-ebpf/src/main.rs:429-439 | A packet no project is for meets every check |
| `SynCookie.PackingRoundTrip` | eshield-common/src/pure.rs:149-169 | The two packed registers carry the whole flow and the minute, so the cookie is the packed hash of them |
| `SynCookie.MixInjective` | eshield-common/src/pure.rs:77-81 | The mixing step is injective in the state and in the word |
| `SynCookie.CookieWordsFix` | eshield-common/src/pure.rs:111-143 | The nine hashed words determine flow, minute, MSS index and the whole secret |
| `SynCookie.SecretsTell` | eshield-common/src/pure.rs:111-143 | Secrets that differ in one of their four words never give the same hash |
| `SynCookie.ForgedAckIff` | eshield-ebpf/src/syn_cookie.rs:214-258 | An ACK made with any secret for any minute is good exactly if its thirty bits coincide with those of a secret the table serves for this minute or the last |
| `SynCookie.ForgedAckIsRejected` | eshield-ebpf/src/syn_cookie.rs:214-258 | And they need not: tables that differ in one byte of the secret disagree about a concrete ACK |
| `SynCookie.MssIndexRecovered` | eshield-common/src/pure.rs:121-143 | The MSS index comes back from the top two bits |
| `SynCookie.MssIsClosest` | eshield-common/src/pure.rs:173-182 | The index stands for the largest of 536, 1300 and 1460 within the MSS of the client, or for 536 |
| `SynCookie.CookieCarriesMss` | eshield-common/src/pure.rs:121-169 | Every cookie carries its MSS index in the top two bits |
| `SynCookie.CookieKeeper.constructor` | eshield/src/main.rs:1015-1035 | Two fresh secrets for the current minute |
| `SynCookie.CookieKeeper.RotateCookieSecrets` | eshield/src/main.rs:1048-1077 | A rotation in a new minute shifts the secrets, otherwise nothing changes |
| `SynCookie.CheckAck` | eshield-ebpf/src/syn_cookie.rs:214-258 | The bucket loop accepts exactly the ACKs one above a cookie of this minute or the last |
| `SynCookie.MarkLivesHalfAMinute` | eshield-ebpf/src/syn_cookie.rs:191-259 | Within 30 s of the mark exactly the good ACKs pass and clear it; from then on none passes and the mark goes |
| `SynCookie.ServedIff` | eshield-ebpf/src/syn_cookie.rs:161-171 | A secret table serves a minute exactly while its index is that minute or the next |
| `SynCookie.RotationsKeepServing` | eshield/src/main.rs:1048-1077 | Rotations within this minute and the next keep serving the same secret for this minute |
| `SynCookie.HandshakeCompletes` | eshield-ebpf/src/syn_cookie.rs:121-259 | A challenge issued with a fresh table is answered: the ACK of cookie + 1 within the mark's 30 s is accepted and clears the source, across any rotations |
| `SynCookie.LaggingRotation` | eshield-ebpf/src/syn_cookie.rs:161-171 | With a table behind the minute of the challenge, and any rotations since, exactly which ACKs are good: by collision of cookies, or for certain if the first rotation came in the next minute |
| `SynCookie.LaggingRotationRejects` | eshield-ebpf/src/syn_cookie.rs:161-171 | Without a collision they are not: a concrete challenge whose ACK is rejected |
| `Handshake.ChallengedClientGetsThrough` | eshield-ebpf/src/main.rs:124-241 | Through the pipeline: a SYN is answered with a challenge, any events follow but an ACK of that source with a good cookie, and the ACK of cookie + 1, if it reaches the proxy while the mark is live, passes and clears the mark, across rotations |
| `Handshake.RunKeepsMark` | eshield-ebpf/src/syn_cookie.rs:93-115 | Over any such events the mark of the source stays as the challenge left it |
| `Handshake.SynIsChallengedIff` | eshield-ebpf/src/syn_cookie.rs:53-189 | A SYN that reaches the proxy is challenged exactly if its source has a mark of the last 30 s or the SYN takes it over its threshold, the headers are plain, the options readable, secrets are loaded and the answer can be sent; the cookie carries the index for the MSS, and a source that is no suspect keeps no mark |
| `AuditChain.VerifyChain` | eshield/src/audit.rs:159-207 | The verifier's loop gives the specified report, with the first broken line |
| `AuditChain.VerifyAcceptsChained` | eshield/src/audit.rs:159-207 | The verifier accepts exactly the files in which every line continues the chain before it |
| `AuditChain.FirstBadIsReported` | eshield/src/audit.rs:159-207 | A refused file is refused for its first line that does not fit: with its number, or as no JSON or no entry, and the count of records up to it |
| `AuditChain.FileAuditBackend.constructor` | eshield/src/audit.rs:210-229 | A restart resumes number and hash from the end of the file |
| `AuditChain.FileAuditBackend.Append` | eshield/src/audit.rs:271-345 | An append writes the next line of the chain; after a rotation it goes to an empty file and the chain restarts |
| `AuditChain.RunsStayVerifiable` | eshield/src/audit.rs:122-301 | Without rotation, any mix of appends and restarts keeps an accepted file accepted, with every record counted |
| `AuditChain.NumbersRunOn` | eshield/src/audit.rs:210-301 | Over appends and restarts of any file the entries are written in order, and their numbers run on by one from the last record |
| `AuditChain.RotationIsVerifiableIff` | eshield/src/audit.rs:286-314 | A rotated file is accepted exactly if there was no chain to continue |
| `AuditChain.AppendAfterRotationIsRejected` | eshield/src/audit.rs:286-314 | And the next append, which starts again at number 1, breaks it in any case |
| `AuditChain.ChainTextInjective` | eshield/src/audit.rs:287 | The hashed text determines number, previous hash and canonical text |
| `AuditChain.LastHashFixesFile` | eshield/src/audit.rs:159-207 | With an injective hash without bars and empty outputs, two accepted, fully hashed files with the same last hash agree record by record |
| `AuditChain.CanonicalFixesEntry` | eshield/src/audit.rs:122-133 | Among entries without a bar in any field but the detail, the canonical text fixes all but the difference between no source and an empty one |
| `AuditChain.TextIsUniqueIff` | eshield/src/audit.rs:122-133 | Among all entries, one is the only one with its text exactly if no field has a bar and the source is not empty |
| `AuditChain.MovedBarIsInvisible` | eshield/src/audit.rs:122-133 | Any other entry has a rival with the same text: a bar moved to the next field, or an empty source for none |
| `BlacklistSync.StepKeepsGood` | eshield/src/blacklist_sync.rs:67-182 | Every step of an insert or of a pass keeps the protocol's invariant |
| `BlacklistSync.HitsAreScanned` | eshield/src/blacklist_sync.rs:67-84 | If only hits have moved, a pass scans exactly from 60 s after the last scan on |
| `NewBlocks.NewBlockIsSynced` | eshield/src/blacklist_sync.rs:67-182 | A packet changes who is listed only by getting its own unlisted source blocked: with a fresh entry for the penalty, announced by the generation, dropped and counted under cause 2, 3, 8 or 9 as fits its protocol, each of which a pass stores as a local block; soft limits block for SYN floods only |
| `BlacklistSync.QuietMeansSynced` | eshield/src/blacklist_sync.rs:67-182 | When nothing is in flight and the recorded counter is current, every live entry of a synced reason is stored with its expiry, reason and origin, unless the hub owned a row for it and no pass has written it since; then the hub's row is there as it was or, exactly if it had expired by the last prune, no row is |
| `BlacklistSync.UncoveredIff` | eshield/src/blacklist_sync.rs:132-176 | So exactly when such an entry has no row |
| `BlacklistSync.ExpiredHubRowUncovers` | eshield/src/blacklist_sync.rs:132-176 | It happens: over any hub row that expires there is a run to a quiet state with a live synced entry and no row |
| `Checksum.Compute` | eshield-common/src/pure.rs:185-203 | The checksum is the complement of the one's complement sum; up to 131074 bytes nothing overflows |
| `Checksum.FoldCarries` | eshield-common/src/pure.rs:196-201 | The bounded fold reaches 16 bits and keeps the residue |
| `Checksum.TcpChecksum` | eshield-common/src/pure.rs:207-232 | The same with the pseudo-header, up to 65535 bytes |
| `Checksum.StoredChecksumVerifies` | eshield-common/src/pure.rs:185-232 | Storing the checksum in a zeroed field at an even offset makes the checksum of the whole 0 |
| `Checksum.ComputeTwice` | eshield-common/src/pure.rs:185-203 | The method itself: compute, store, compute again gives 0 |
| `Checksum.TcpTwice` | eshield-common/src/pure.rs:207-232 | The same for TCP segments |
| `Checksum.LongerOverflowsIff` | eshield-common/src/pure.rs:185-195 | The length bound is exact: for buffers of ones, the sum fits 32 bits exactly up to 131074 bytes |
| `Pipeline.Program.TryEshield` | eshield-ebpf/src/main.rs:124-241 | A packet runs the checks in order until one decides; state and verdict are those of the specification |
| `Pipeline.Program.DropOrReset` | eshield-ebpf/src/main.rs:268-301 | A drop lowers trust, samples the ranking and resets TCP when configured |
| `Pipeline.Program.RaiseTrust` | eshield-ebpf/src/trust.rs:16-36 | A pass raises trust as specified |
| `Pipeline.Program.RaiseTrustSampled` | eshield-ebpf/src/main.rs:246-258 | Only every 64th pass is written, with weight 64 |
| `Pipeline.Program.LowerTrust` | eshield-ebpf/src/trust.rs:42-77 | A drop lowers trust, and once at 0 only every 16th is written |
| `Pipeline.Program.UpdateRateCounter` | eshield-ebpf/src/rate_counter.rs:21-87 | The source's counter decays by whole ticks, counts the packet and is compared with the modulated threshold |
| `Pipeline.Program.UpdateRateCounterPort` | eshield-ebpf/src/rate_counter.rs:94-163 | The same per source and port |
| `Pipeline.Program.PortRateExceeded` | eshield-ebpf/src/port_rate.rs:18-52 | The fixed window per port |
| `Pipeline.Program.Block` | eshield-ebpf/src/blacklist.rs:69-99 | A detector's block merges into the list, moves the generation and takes all trust away |
| `Pipeline.Program.Blacklisted` | eshield-ebpf/src/blacklist.rs:25-61 | A live entry hits, with sampled hit counts; a lapsed one is removed and trust starts afresh |
| `Pipeline.Program.BlockIpRaw` | eshield/src/control.rs:333-362 | A control-plane block merges into the list, explicit for API and static blocks |
| `Pipeline.Program.PortAclDrops` | eshield-ebpf/src/port_acl.rs:14-46 | The list drops exactly if its first matching entry says so |
| `Pipeline.Program.CheckFragmentDrop` | eshield-ebpf/src/main.rs:306-343 | Fragments: pass, drop, or count against port 0 |
| `Pipeline.Program.CheckProjectPolicy` | eshield-ebpf/src/main.rs:372-463 | Pass, drop, or restrict the modules of later checks, as the project stage of the specification does; what that means is `ProjectVerdicts.ProjectGovernsPacket` |
| `Pipeline.Program.CheckGeoipDrop` | eshield-ebpf/src/main.rs:466-487 | Blocked countries, or all but the allowed |
| `Pipeline.Program.CheckConnTrackDrop` | eshield-ebpf/src/main.rs:491-521 | Half-open handshakes over the threshold |
| `Pipeline.Program.ChallengedOrTriggered` | eshield-ebpf/src/syn_cookie.rs:93-115 | A live mark or a rate over threshold puts the source under challenge |
| `Pipeline.Program.AnswerAck` | eshield-ebpf/src/syn_cookie.rs:191-259 | An ACK with a good cookie clears the mark |
| `Pipeline.Program.CheckTcpDrop` | eshield-ebpf/src/main.rs:524-616 | SYN proxy or SYN flood detector, then the port limit |
| `Pipeline.Program.CheckUdpDrop` | eshield-ebpf/src/main.rs:619-662 | UDP flood detector, then the port limit |
| `Pipeline.Program.CheckIcmpDrop` | eshield-ebpf/src/main.rs:665-710 | ICMP flood detector, then the limit of port 0 |
| `Pipeline.Program.CheckL7Drop` | eshield-ebpf/src/main.rs:713-729 | A pattern in the first payload bytes |
| `Pipeline.Program.ScanL7` | eshield-ebpf/src/l7_scan.rs:13-71 | The scan hits exactly if one of the loaded patterns matches |
| `Pipeline.Program.CheckRateLimitDrop` | eshield-ebpf/src/main.rs:732-752 | The per-source limit, unless a protocol check has counted the packet |
| `Pipeline.Program.CheckBlacklistDrop` | eshield-ebpf/src/main.rs:755-768 | Listed sources are dropped |
| `Pipeline.Program.CheckPortAclDrop` | eshield-ebpf/src/main.rs:346-363 | The port list drops |
| `Accounting.FinishSettles` | eshield-ebpf/src/main.rs:268-301 | Carrying out a check's decision raises exactly one outcome |
| `Accounting.EachPacketIsSettled` | eshield-ebpf/src/main.rs:127-241 | A packet is counted once, and dropped, passed or challenged according to its verdict; only the SYN of a challenged source without any cookie secret passes and counts as dropped |
| `Accounting.PassCountsAsDropIff` | eshield-ebpf/src/syn_cookie.rs:156-159 | Exactly when verdict and counter disagree |
| `Accounting.PacketsAreConserved` | eshield-ebpf/src/main.rs:127-778 | Over any run, packets counted are those that arrived, each passed, dropped, challenged or without configuration; the four protocol counters grow as the drops do |
| `CountedOnce.StageCountsOnce` | eshield-ebpf/src/main.rs:524-752 | A check counts a packet only if none before it has, and says so |
| `CountedOnce.EachPacketCountsOnce` | eshield-ebpf/src/main.rs:524-752 | A packet updates at most one of the per-source rate counters, by one packet |
| `PoliteSources.CountsLow` | eshield-ebpf/src/rate_counter.rs:37-68 | A counter that has seen some of the packets of a polite source is within the threshold |
| `PoliteSources.StagesAreQuiet` | eshield-ebpf/src/main.rs:124-241 | A packet that leaves its counters within threshold goes through all checks unlisted, and no rate, blacklist or SYN check drops it |
| `PoliteSources.PoliteSourceIsNeverBlocked` | eshield-ebpf/src/main.rs:69-241 | A source that starts unknown and sends at most k packets per tick, k * den <= threshold * (den - num), is never blacklisted, challenged or dropped for its rate in any run; with trust modulation on, for the threshold at the least trust and the greatest danger |
| `FloodingSources.CounterIsRun` | eshield-ebpf/src/rate_counter.rs:37-68 | After any run, a source's counter is the counter of the packets counted for it |
| `FloodingSources.FloodIsBlocked` | eshield-ebpf/src/main.rs:524-752 | After any run, a packet that is counted for its source and takes the counted packets of its tick cell over the threshold is dropped and its source blocked for the configured time, whatever its trust, unless limits are soft or the SYN proxy takes the packet |
| `TrustRange.RunInRange` | eshield-ebpf/src/trust.rs:16-77 | Trust scores stay within 0..1000 over any run |
| `TrustRange.ThresholdOnlyTightens` | eshield-ebpf/src/rate_counter.rs:70-84 | So after any run the effective threshold is at most the configured one |
| `TrustRange.ThresholdFollowsTrust` | eshield-ebpf/src/rate_counter.rs:70-84 | The higher score, under no more danger, never has the lower threshold |
| `TrustRange.TrustFollowsVerdict` | eshield-ebpf/src/main.rs:246-301 | A packet moves the trust of its own source only: not down when it passes, not up when it is dropped, not at all when it is challenged, from the score it had or afresh once a block has lapsed |
| `Sampling.PassesAreConserved` | eshield-ebpf/src/main.rs:246-258 | Passes written plus passes pending grow by one with each pass |
| `Sampling.DropsAreConserved` | eshield-ebpf/src/trust.rs:42-77 | The same for drops, written each time or every 16th time |
| `Sampling.HitsAreConserved` | eshield-ebpf/src/blacklist.rs:25-61 | The same for hits on a listed source, and the hit generation moves exactly when they are written |
| `Sampling.RankingIsConserved` | eshield-ebpf/src/main.rs:268-301 | The same for the ranking of attackers |
| `ConnTracking.OpenIsPeak` | eshield-common/src/pure.rs:320-345 | The half-open count is the largest surplus of SYNs over ACKs and RSTs in a tail of the stretch since the last idle window |
| `ConnTracking.MapShowsOpen` | eshield-ebpf/src/conn_track.rs:14-62 | After any run the map holds, for a source, the count of its tracked packets, and no entry for 0 |
| `ConnTracking.HalfOpenFloodIsDropped` | eshield-ebpf/src/main.rs:491-521 | After any run a tracked packet is dropped and counted by this check exactly if it completes such a surplus over the threshold |
| `Verdicts.ListDropsIff` | eshield-common/src/pure.rs:276-309 | The access list drops exactly if, of its configured entries and at most 32, the first that allows or drops and covers protocol and port says drop |
| `Verdicts.ObjectionDecides` | eshield-ebpf/src/main.rs:124-241 | A packet that meets one of twelve causes to object is dropped, or reset if that is configured and possible, and counted under that cause and no other |
| `Verdicts.DroppedIffObjected` | eshield-ebpf/src/main.rs:124-241 | A packet is dropped exactly if a check that it reaches has such a cause, or it is a suspect SYN that cannot be challenged |
| `Verdicts.WhitelistedPasses` | eshield-ebpf/src/main.rs:136-140 | A whitelisted source passes and no check looks at the packet |
| `Blocking.StageHolds` | eshield-ebpf/src/main.rs:306-752 | No check shortens or removes a live block, and a new block is for the configured time and drops the packet |
| `Blocking.HeldIsDropped` | eshield-ebpf/src/main.rs:137-157 | A packet of a held source is dropped and counted so, whatever the other tables say |
| `Blocking.HeldStaysHeld` | eshield-ebpf/src/blacklist.rs:25-99 | A held source stays held over any events before the expiry |
| `Blocking.DetectedSourceStaysOut` | eshield-ebpf/src/blacklist.rs:25-99 | Once a detector has blacklisted a source, every later packet of it before the merged expiry, which is not before the requested one, is dropped, unless whitelisted |
| `Blocking.BlockedSourceStaysOut` | eshield/src/control.rs:333-362 | The same for blocks from the control plane |

## Left out

- BlacklistSync.QuietMeansSynced: `sync_once` is modelled as steps of a state machine over values, because its await points interleave with the data plane; taking the snapshot is one step, and the generation counters do not wrap. Blocks and unblocks by the hub or the control plane, which write blacklist and store themselves and do not move the generation, are not steps.
- PoliteSources.PoliteSourceIsNeverBlocked: the source may still be dropped by the other checks, two of which also look at it: the connection tracker, by its half-open handshakes, and geoip, by its address. With trust modulation on, thresholds are at most 2^64 / 1000, above which the modulation is not monotone.
- PortLimits.PortLimitHolds: the port has no entry at the start of the run, its packets meet one setting, and their times do not go back.
- ConnTracking.HalfOpenFloodIsDropped: the source has no entry at the start of the run, and its packets meet one window.
- FloodingSources.FloodIsBlocked: with soft limits a flood is dropped and not blocked, and under the SYN proxy it is challenged; only the SYN detector ignores the soft setting, which the statement does not use.
- Handshake.ChallengedClientGetsThrough: runs with another good ACK of that source before the client's are not covered; that ACK clears the mark.
- AuditChain.LastHashFixesFile: SHA-256 is a function parameter; injectivity, non-empty output and absence of bars in its output are hypotheses.
- SynCookie.HandshakeCompletes: random bytes and the clock are parameters; a rotation reads the clock between challenge and ACK.
- ProjectPolicy.ExpansionPreservesMeaning: targets are given parsed (IPv4 address and prefix, IPv6, or malformed), byte order of keys is abstracted, and lower-casing is that of ASCII.
- Pipeline.Program.TryEshield: packets are given parsed; packets that do not parse pass uncounted and are not part of this model. The statistics that only grow are unbounded counters.
- Pipeline.Program.BlockIpRaw: `block_ip_keys_batch` repeats it per key and is not modelled separately.
- HubStore.Store.MergeChunk: redb, JSON encoding and their errors are left out; a transaction is atomic, and the clock readings are arguments. The model covers stores whose three tables exist.
- Eviction from LRU maps and races between CPUs: maps hold their entries, and packets are processed one at a time.
- Address tries (whitelist, geoip) are sets of addresses.
- The bytes written by `send_synack` and `tcp_reset`, event ring buffers and packet sampling: kernel I/O; only whether sending succeeded matters to the model.
- The IPv6 branch of `parse_cidr`, which leaves one byte unmasked when the prefix is a multiple of 8: project targets are expanded for IPv4 only.
- Failed audit writes, the size test for rotation (an argument), and JSON reading of audit lines, which are given as records, text that is not a hashed record, or text that is not JSON.
- Node-side convergence with the hub, HTTP handlers, authentication, configuration checks, metrics, alerts and the consoles: I/O around the core.
- Unblocking and configuration reload within a run of `Blocking`: they release sources on purpose. Each packet carries the tables in force, so whitelist, settings and secrets may change between packets.
