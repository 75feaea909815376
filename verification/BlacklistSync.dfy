/**
 Copying the data plane's blacklist to the persistent store. The data plane
 inserts an entry and then bumps a generation counter; a sync pass reads the
 counter, takes a snapshot, persists what changed and records the counter it
 read. Every await point is a step, so passes and inserts interleave freely;
 a pass may also fail at any step.
 */
module BlacklistSync {
  import opened Words
  import opened BlockMerge

  const SCAN_NS := 60_000_000_000

  datatype Origin = Local | Api | Adaptive | ThreatIntel | Hub

  datatype Row = Row(until: u64, reason: u8, firstSeenNs: u64, origin: Origin)

  datatype Cached = Cached(until: u64, hitCount: u32, reason: u8)

  /** Rule numbers of the detectors; other reasons are not synced. */
  function BlockReasonToOrigin(reason: u8): Option<Origin>
  {
    match reason
    case 2 => Some(Local) // rate limit
    case 3 => Some(Local) // SYN flood
    case 8 => Some(Local) // UDP flood
    case 9 => Some(Local) // ICMP flood
    case 5 => Some(Adaptive)
    case 6 => Some(Api)
    case 11 => Some(ThreatIntel)
    case _ => None
  }

  predicate Publishable(o: Origin) { !o.Hub? }

  predicate Synced?(reason: u8)
  {
    var o := BlockReasonToOrigin(reason);
    o.Some? && Publishable(o.value)
  }

  datatype Gens = Gens(add: nat, hit: nat)

  /** Where a sync pass stands. `read` is the counter value when the pass started, `readable` whether it could see it. */
  datatype Phase =
    | Idle
    | Started(now: u64, read: Gens, readable: bool)
    | Snapped(now: u64, read: Gens, readable: bool, snap: map<IpKey, BlockEntry>, todo: set<IpKey>)
    | Persisting(now: u64, read: Gens, readable: bool, snap: map<IpKey, BlockEntry>, todo: set<IpKey>, hubOwned: set<IpKey>)

  datatype State = State(
    clock: u64,
    blacklist: map<IpKey, BlockEntry>, gens: Gens, inserted: multiset<IpKey>,
    store: map<IpKey, Row>, cache: map<IpKey, Cached>,
    lastGen: nat, lastHitGen: nat, lastHitScanNs: u64, lastPruneNs: u64,
    phase: Phase)

  datatype Step =
    | Tick(now: u64)
    | Insert(k: IpKey, until: u64, reason: u8)
    | Bump(k: IpKey)
    | Hit(k: IpKey, hitCount: u32)
    | Expire(k: IpKey)
    | Begin(readable: bool)
    | Snapshot
    | LoadOrigins
    | Persist(k: IpKey)
    | Finish
    | Fail

  predicate Enabled(s: State, step: Step)
  {
    match step
    case Tick(now) => s.clock <= now
    case Insert(k, until, reason) => true
    case Bump(k) => k in s.inserted
    case Hit(k, n) => k in s.blacklist
    case Expire(k) => k in s.blacklist && !s.blacklist[k].Live(s.clock)
    case Begin(_) => s.phase.Idle?
    case Snapshot => s.phase.Started?
    case LoadOrigins => s.phase.Snapped?
    case Persist(k) => s.phase.Persisting? && k in s.phase.todo
    case Finish => s.phase.Persisting? && s.phase.todo == {}
    case Fail => !s.phase.Idle?
  }

  predicate NeedScan(s: State, readable: bool)
  {
    || !readable
    || s.gens.add != s.lastGen
    || (s.gens.hit != s.lastHitGen && SatSub(s.clock, s.lastHitScanNs) >= SCAN_NS)
    || s.cache == map[]
  }

  function CachedOf(e: BlockEntry): Cached { Cached(e.blockedUntilNs, e.hitCount, e.blockReason) }

  /** The entries a pass has to persist: synced reasons that differ from what it wrote last. */
  function Changed(s: State): set<IpKey>
  {
    set k | k in s.blacklist && Synced?(s.blacklist[k].blockReason)
         && !(k in s.cache && s.cache[k] == CachedOf(s.blacklist[k]))
  }

  function Pruned(store: map<IpKey, Row>, now: u64): map<IpKey, Row>
  {
    map k | k in store && (store[k].until == BLOCK_PERMANENT || store[k].until > now) :: store[k]
  }

  /** The end of a pass: what a scan read is recorded, and once a minute expired rows are pruned. */
  function Finished(s: State, now: u64): State
  {
    var t := s.(phase := Idle);
    if SatSub(now, s.lastPruneNs) >= SCAN_NS then t.(store := Pruned(s.store, now), lastPruneNs := now) else t
  }

  function Next(s: State, step: Step): State
    requires Enabled(s, step)
  {
    match step
    case Tick(now) => s.(clock := now)
    case Insert(k, until, reason) =>
      var prev := if k in s.blacklist then Some(s.blacklist[k]) else None;
      s.(blacklist := s.blacklist[k := MergeBlockEntry(prev, s.clock, until, reason, false)],
         inserted := s.inserted + multiset{k})
    case Bump(k) => s.(gens := s.gens.(add := s.gens.add + 1), inserted := s.inserted - multiset{k})
    case Hit(k, n) => s.(blacklist := s.blacklist[k := s.blacklist[k].(hitCount := n)], gens := s.gens.(hit := s.gens.hit + 1))
    case Expire(k) => s.(blacklist := s.blacklist - {k})
    case Begin(readable) =>
      if NeedScan(s, readable) then s.(phase := Started(s.clock, s.gens, readable)) else Finished(s, s.clock)
    case Snapshot =>
      var p := s.phase;
      s.(phase := Snapped(p.now, p.read, p.readable, s.blacklist, Changed(s)))
    case LoadOrigins =>
      var p := s.phase;
      s.(phase := Persisting(p.now, p.read, p.readable, p.snap, p.todo,
                             set k | k in p.todo && k in s.store && s.store[k].origin.Hub?))
    case Persist(k) =>
      var p := s.phase;
      var t := s.(phase := p.(todo := p.todo - {k}));
      if k in p.hubOwned || k !in p.snap || BlockReasonToOrigin(p.snap[k].blockReason).None? then t
      else
        var e := p.snap[k];
        t.(store := s.store[k := Row(e.blockedUntilNs, e.blockReason, e.firstSeenNs, BlockReasonToOrigin(e.blockReason).value)],
           cache := s.cache[k := CachedOf(e)])
    case Finish =>
      var p := s.phase;
      var t := if p.readable then s.(lastGen := p.read.add, lastHitGen := p.read.hit, lastHitScanNs := p.now) else s;
      Finished(t, p.now)
    case Fail => s.(phase := Idle)
  }

  ghost predicate Runs(s: State, steps: seq<Step>, t: State)
    decreases |steps|
  {
    if steps == [] then s == t
    else Enabled(s, steps[0]) && Runs(Next(s, steps[0]), steps[1..], t)
  }

  /** Hits alone are taken up by a pass that begins a minute after the last scan or later, and by no earlier one. */
  lemma HitsAreScanned(s: State, now: u64)
    requires s.phase.Idle? && s.clock == now && s.lastHitScanNs <= now && s.gens.add == s.lastGen && s.cache != map[]
    ensures Next(s, Begin(true)).phase.Started? <==> s.gens.hit != s.lastHitGen && now >= s.lastHitScanNs + 60_000_000_000
  {
  }

  // ----- The invariant -----

  /** An entry the store should have: live and of a synced reason. */
  ghost predicate Due(s: State, k: IpKey)
  {
    k in s.blacklist && Synced?(s.blacklist[k].blockReason) && s.blacklist[k].Live(s.clock)
  }

  ghost predicate Stored(s: State, k: IpKey)
    requires k in s.blacklist
  {
    k in s.store && Copies(s.store[k], s.blacklist[k].blockedUntilNs, s.blacklist[k].blockReason)
  }

  /** The row is for this block: its expiry, its cause, and the origin that goes with the cause. */
  predicate Copies(row: Row, until: u64, reason: u8)
  {
    row.until == until && row.reason == reason && BlockReasonToOrigin(reason) == Some(row.origin)
  }

  /** The snapshot of the running pass is current for k, and k is stored, about to be, or left to the hub. */
  ghost predicate InHand(s: State, k: IpKey)
    requires k in s.blacklist
  {
    var p := s.phase;
    (p.Snapped? || p.Persisting?)
    && k in p.snap && p.snap[k].blockedUntilNs == s.blacklist[k].blockedUntilNs && p.snap[k].blockReason == s.blacklist[k].blockReason
    && (k in p.todo || Stored(s, k) || (p.Persisting? && k in p.hubOwned))
  }

  /** What a stored cache entry vouches for, until it expires. */
  ghost predicate CacheHonest(s: State)
  {
    forall k :: k in s.cache && (s.cache[k].until == BLOCK_PERMANENT || s.cache[k].until > s.clock) ==>
      k in s.store && Copies(s.store[k], s.cache[k].until, s.cache[k].reason)
  }

  /** The rows the hub owned at the start; one is gone once a prune has come after its expiry. */
  type HubRows = map<IpKey, Row>

  ghost predicate Gone(s: State, hub: HubRows, k: IpKey)
    requires k in hub
  {
    hub[k].until != BLOCK_PERMANENT && hub[k].until <= s.lastPruneNs
  }

  /** The sync has not written k, and will not while the hub's row is there. */
  ghost predicate Shielded(s: State, hub: HubRows, k: IpKey) { k in hub && k !in s.cache }

  ghost predicate HubOk(s: State, hub: HubRows)
  {
    && (forall k :: k in hub ==> hub[k].origin.Hub?)
    && (forall k :: k in s.store && s.store[k].origin.Hub? ==> Shielded(s, hub, k))
    && (forall k :: Shielded(s, hub, k) ==> if Gone(s, hub, k) then k !in s.store else k in s.store && s.store[k] == hub[k])
    && (forall k :: k in hub && k in s.cache ==> Gone(s, hub, k))
    && (s.phase.Persisting? ==>
          && (forall k :: k in s.phase.hubOwned ==> Shielded(s, hub, k))
          && (forall k :: k in s.phase.todo && k in hub && k !in s.phase.hubOwned ==> Gone(s, hub, k)))
  }

  ghost predicate PassOk(s: State)
  {
    && s.lastGen <= s.gens.add
    && (!s.phase.Idle? ==> s.lastGen <= s.phase.read.add <= s.gens.add && s.phase.now <= s.clock)
    && (s.phase.Snapped? || s.phase.Persisting? ==>
          forall k :: k in s.phase.todo ==> k in s.phase.snap && Synced?(s.phase.snap[k].blockReason))
  }

  ghost predicate Good(s: State, hub: HubRows)
  {
    && PassOk(s) && HubOk(s, hub) && CacheHonest(s)
    && (forall k :: Due(s, k) ==> Stored(s, k) || k in s.inserted || s.gens.add > s.lastGen || Shielded(s, hub, k))
    && (s.phase.Snapped? || s.phase.Persisting? ==>
          forall k :: Due(s, k) ==> InHand(s, k) || k in s.inserted || s.gens.add > s.phase.read.add)
  }

  lemma SameStoreKeepsHubOk(s: State, t: State, hub: HubRows)
    requires HubOk(s, hub) && t.store == s.store && t.cache == s.cache && t.lastPruneNs == s.lastPruneNs && t.phase == s.phase
    ensures HubOk(t, hub)
  {
  }

  /** The data plane touches neither store nor cache, and time only weakens what they have to vouch for. */
  lemma DataPlaneKeepsStore(s: State, hub: HubRows, step: Step)
    requires Good(s, hub) && Enabled(s, step) && (step.Tick? || step.Insert? || step.Bump? || step.Hit? || step.Expire?)
    ensures HubOk(Next(s, step), hub) && CacheHonest(Next(s, step)) && PassOk(Next(s, step))
  {
    SameStoreKeepsHubOk(s, Next(s, step), hub);
  }

  lemma InsertKeepsGood(s: State, hub: HubRows, k: IpKey, until: u64, reason: u8)
    requires Good(s, hub)
    ensures Good(Next(s, Insert(k, until, reason)), hub)
  {
    var t := Next(s, Insert(k, until, reason));
    DataPlaneKeepsStore(s, hub, Insert(k, until, reason));
    forall j | Due(t, j) && j != k ensures Due(s, j) {}
    assert k in t.inserted;
  }

  lemma PrunedKeepsHubOk(s: State, hub: HubRows, now: u64)
    requires HubOk(s, hub)
    ensures HubOk(Finished(s, now), hub)
  {
  }

  lemma PrunedKeepsCacheHonest(s: State, now: u64)
    requires CacheHonest(s) && now <= s.clock
    ensures CacheHonest(Finished(s, now))
  {
  }

  /** Pruning removes only rows that no live entry is waiting for. */
  lemma FinishedKeepsGood(s: State, hub: HubRows, now: u64)
    requires Good(s, hub) && now <= s.clock
    ensures Good(Finished(s, now), hub)
  {
    var t := Finished(s, now);
    PrunedKeepsHubOk(s, hub, now);
    PrunedKeepsCacheHonest(s, now);
    forall k | Due(t, k) ensures Due(s, k) && (Stored(s, k) ==> Stored(t, k)) {}
  }

  lemma RecordKeepsGood(s: State, hub: HubRows)
    requires Good(s, hub) && Enabled(s, Finish)
    ensures var p := s.phase; Good(s.(lastGen := p.read.add, lastHitGen := p.read.hit, lastHitScanNs := p.now), hub)
  {
    var t := s.(lastGen := s.phase.read.add, lastHitGen := s.phase.read.hit, lastHitScanNs := s.phase.now);
    forall k ensures (Due(t, k) <==> Due(s, k)) && (Due(s, k) ==> (Stored(t, k) <==> Stored(s, k)) && (InHand(t, k) <==> InHand(s, k))) {}
  }

  lemma FinishKeepsGood(s: State, hub: HubRows)
    requires Good(s, hub) && Enabled(s, Finish)
    ensures Good(Next(s, Finish), hub)
  {
    RecordKeepsGood(s, hub);
    var p := s.phase;
    var t := if p.readable then s.(lastGen := p.read.add, lastHitGen := p.read.hit, lastHitScanNs := p.now) else s;
    FinishedKeepsGood(t, hub, p.now);
  }

  lemma BeginKeepsGood(s: State, hub: HubRows, readable: bool)
    requires Good(s, hub) && s.phase.Idle?
    ensures Good(Next(s, Begin(readable)), hub)
  {
    if NeedScan(s, readable) {
      var t := Next(s, Begin(readable));
      forall k ensures (Due(t, k) <==> Due(s, k)) && (Due(s, k) ==> (Stored(t, k) <==> Stored(s, k))) {}
    } else {
      FinishedKeepsGood(s, hub, s.clock);
    }
  }

  lemma FailKeepsGood(s: State, hub: HubRows)
    requires Good(s, hub) && Enabled(s, Fail)
    ensures Good(Next(s, Fail), hub)
  {
    var t := Next(s, Fail);
    forall k | Due(t, k) ensures Due(s, k) && (Stored(s, k) ==> Stored(t, k)) {}
  }

  lemma LoadKeepsHubOk(s: State, hub: HubRows)
    requires Good(s, hub) && Enabled(s, LoadOrigins)
    ensures HubOk(Next(s, LoadOrigins), hub)
  {
  }

  lemma LoadKeepsGood(s: State, hub: HubRows)
    requires Good(s, hub) && Enabled(s, LoadOrigins)
    ensures Good(Next(s, LoadOrigins), hub)
  {
    var t := Next(s, LoadOrigins);
    LoadKeepsHubOk(s, hub);
    forall k ensures (Due(t, k) <==> Due(s, k)) && (Due(s, k) ==> (Stored(t, k) <==> Stored(s, k)) && (InHand(s, k) ==> InHand(t, k))) {}
  }

  lemma SnapshotKeepsGood(s: State, hub: HubRows)
    requires Good(s, hub) && s.phase.Started?
    ensures Good(Next(s, Snapshot), hub)
  {
    var t := Next(s, Snapshot);
    forall k | Due(t, k) ensures InHand(t, k) {
      if k !in t.phase.todo {
        assert s.cache[k] == CachedOf(s.blacklist[k]);
      }
    }
  }

  lemma PersistKeepsCacheHonest(s: State, hub: HubRows, k: IpKey)
    requires Good(s, hub) && Enabled(s, Persist(k))
    ensures CacheHonest(Next(s, Persist(k)))
  {
  }

  lemma PersistKeepsHubOk(s: State, hub: HubRows, k: IpKey)
    requires Good(s, hub) && Enabled(s, Persist(k))
    ensures HubOk(Next(s, Persist(k)), hub)
  {
    var p, t := s.phase, Next(s, Persist(k));
    if k in p.hubOwned || k !in p.snap || BlockReasonToOrigin(p.snap[k].blockReason).None? {
      SparedKeepsHubOk(s, hub, k);
    } else {
      WrittenKeepsHubOk(s, hub, k, t.store[k], t.cache[k]);
    }
  }

  lemma SparedKeepsHubOk(s: State, hub: HubRows, k: IpKey)
    requires HubOk(s, hub) && s.phase.Persisting?
    ensures HubOk(s.(phase := s.phase.(todo := s.phase.todo - {k})), hub)
  {
  }

  lemma WrittenKeepsHubOk(s: State, hub: HubRows, k: IpKey, row: Row, c: Cached)
    requires HubOk(s, hub) && s.phase.Persisting? && k in s.phase.todo && k !in s.phase.hubOwned && !row.origin.Hub?
    ensures HubOk(s.(phase := s.phase.(todo := s.phase.todo - {k}), store := s.store[k := row], cache := s.cache[k := c]), hub)
  {
  }

  lemma PersistKeepsInHand(s: State, hub: HubRows, k: IpKey, j: IpKey)
    requires Good(s, hub) && Enabled(s, Persist(k)) && Due(Next(s, Persist(k)), j)
    ensures var t := Next(s, Persist(k)); InHand(t, j) || j in t.inserted || t.gens.add > t.phase.read.add
  {
    assert Due(s, j);
  }

  lemma PersistKeepsStored(s: State, hub: HubRows, k: IpKey, j: IpKey)
    requires Good(s, hub) && Enabled(s, Persist(k)) && Due(Next(s, Persist(k)), j)
    ensures var t := Next(s, Persist(k)); Stored(t, j) || j in t.inserted || t.gens.add > t.lastGen || Shielded(t, hub, j)
  {
    assert Due(s, j);
  }

  lemma PersistKeepsGood(s: State, hub: HubRows, k: IpKey)
    requires Good(s, hub) && Enabled(s, Persist(k))
    ensures Good(Next(s, Persist(k)), hub)
  {
    var t := Next(s, Persist(k));
    PersistKeepsCacheHonest(s, hub, k);
    PersistKeepsHubOk(s, hub, k);
    forall j | Due(t, j)
      ensures Stored(t, j) || j in t.inserted || t.gens.add > t.lastGen || Shielded(t, hub, j)
      ensures InHand(t, j) || j in t.inserted || t.gens.add > t.phase.read.add
    {
      PersistKeepsInHand(s, hub, k, j);
      PersistKeepsStored(s, hub, k, j);
    }
  }

  lemma StepKeepsGood(s: State, hub: HubRows, step: Step)
    requires Good(s, hub) && Enabled(s, step)
    ensures Good(Next(s, step), hub)
  {
    match step
    case Insert(k, until, reason) => InsertKeepsGood(s, hub, k, until, reason);
    case Snapshot => SnapshotKeepsGood(s, hub);
    case Persist(k) => PersistKeepsGood(s, hub, k);
    case Begin(readable) => BeginKeepsGood(s, hub, readable);
    case LoadOrigins => LoadKeepsGood(s, hub);
    case Finish => FinishKeepsGood(s, hub);
    case Fail => FailKeepsGood(s, hub);
    case _ => SourceKeepsGood(s, hub, step);
  }

  lemma SourceKeepsGood(s: State, hub: HubRows, step: Step)
    requires Good(s, hub) && Enabled(s, step) && (step.Tick? || step.Bump? || step.Hit? || step.Expire?)
    ensures Good(Next(s, step), hub)
  {
    var t := Next(s, step);
    DataPlaneKeepsStore(s, hub, step);
    forall j | Due(t, j) ensures Due(s, j) && (Stored(s, j) ==> Stored(t, j)) && (InHand(s, j) ==> InHand(t, j)) {}
  }

  lemma {:induction false} RunKeepsGood(s: State, hub: HubRows, steps: seq<Step>, t: State)
    requires Good(s, hub) && Runs(s, steps, t)
    ensures Good(t, hub)
    decreases |steps|
  {
    if steps != [] {
      StepKeepsGood(s, hub, steps[0]);
      RunKeepsGood(Next(s, steps[0]), hub, steps[1..], t);
    }
  }

  /** A fresh process: nothing blocked or cached yet, any store, of which the hub owns some rows. */
  ghost predicate Initial(s: State)
  {
    && s.blacklist == map[] && s.cache == map[] && s.gens == Gens(0, 0) && s.lastGen == 0 && s.lastPruneNs == 0
    && s.inserted == multiset{} && s.phase.Idle?
  }

  ghost function HubRowsOf(store: map<IpKey, Row>): HubRows { map k | k in store && store[k].origin.Hub? :: store[k] }

  /** No insert and no pass is in flight, and the recorded counter is the current one. */
  ghost predicate Quiet(t: State) { t.phase.Idle? && t.inserted == multiset{} && t.lastGen == t.gens.add }

  /**
   Main result: whenever all is quiet, every live entry of a synced reason is in
   the store with its expiry and reason, unless the hub owned a row for it and no
   pass has written it since. Then the hub's row is still there as it was, or,
   exactly if it had expired by the last prune, there is no row.
   */
  lemma QuietMeansSynced(s: State, steps: seq<Step>, t: State, k: IpKey)
    requires Initial(s) && Runs(s, steps, t) && Quiet(t) && Due(t, k)
    ensures var hub := HubRowsOf(s.store);
            if k !in hub || k in t.cache then Stored(t, k)
            else if hub[k].until != BLOCK_PERMANENT && hub[k].until <= t.lastPruneNs then k !in t.store
            else k in t.store && t.store[k] == hub[k]
  {
    var hub := HubRowsOf(s.store);
    assert Good(s, hub);
    RunKeepsGood(s, hub, steps, t);
  }

  /** So an entry is without any row exactly when its hub row expired unnoticed: pruned, and not yet written over. */
  lemma UncoveredIff(s: State, steps: seq<Step>, t: State, k: IpKey)
    requires Initial(s) && Runs(s, steps, t) && Quiet(t) && Due(t, k)
    ensures var hub := HubRowsOf(s.store);
            k !in t.store <==> k in hub && k !in t.cache && hub[k].until != BLOCK_PERMANENT && hub[k].until <= t.lastPruneNs
  {
    QuietMeansSynced(s, steps, t, k);
  }

  ghost predicate Leads(s: State, step: Step, t: State) { Enabled(s, step) && t == Next(s, step) }

  lemma OneMore(s: State, step: Step, m: State, steps: seq<Step>, t: State)
    requires Leads(s, step, m) && Runs(m, steps, t)
    ensures Runs(s, [step] + steps, t)
  {
    assert ([step] + steps)[1..] == steps;
  }

  /** A pass that meets a hub row spares it, prunes it if it has expired, and records the counter. */
  lemma PassSpares(s: State, k: IpKey, row: Row) returns (steps: seq<Step>, t: State)
    requires s.phase.Idle? && s.store == map[k := row] && row.origin.Hub? && row.until != BLOCK_PERMANENT
    requires s.cache == map[] && s.blacklist.Keys == {k} && Due(s, k)
    requires row.until <= s.clock && SatSub(s.clock, s.lastPruneNs) >= SCAN_NS
    ensures Runs(s, steps, t) && t == s.(store := map[], lastPruneNs := s.clock, lastGen := s.gens.add, lastHitGen := s.gens.hit, lastHitScanNs := s.clock)
  {
    var s4 := Next(s, Begin(true));
    var s5 := Next(s4, Snapshot);
    assert s5.phase.todo == {k};
    var s6 := Next(s5, LoadOrigins);
    assert s6.phase.hubOwned == {k};
    var s7 := Next(s6, Persist(k));
    t := Next(s7, Finish);
    assert t.store == map[];
    assert Runs(t, [], t);
    OneMore(s7, Finish, t, [], t);
    steps := [Finish] + [];
    OneMore(s6, Persist(k), s7, steps, t);
    steps := [Persist(k)] + steps;
    OneMore(s5, LoadOrigins, s6, steps, t);
    steps := [LoadOrigins] + steps;
    OneMore(s4, Snapshot, s5, steps, t);
    steps := [Snapshot] + steps;
    OneMore(s, Begin(true), s4, steps, t);
    steps := [Begin(true)] + steps;
  }

  /**
   It happens: over any hub row that expires, there is a run to a quiet state with
   a live synced entry and no row. The entry comes while the row is there, the
   pass spares it for the hub, and then prunes the row and records the counter.
   */
  lemma ExpiredHubRowUncovers(k: IpKey, row: Row) returns (s: State, steps: seq<Step>, t: State)
    requires row.origin.Hub? && row.until != BLOCK_PERMANENT
    ensures Initial(s) && s.store == map[k := row] && Runs(s, steps, t) && Quiet(t) && Due(t, k) && k !in t.store
  {
    var now: u64 := Max(row.until, SCAN_NS);
    s := State(0, map[], Gens(0, 0), multiset{}, map[k := row], map[], 0, 0, 0, 0, Idle);
    var s1 := Next(s, Insert(k, BLOCK_PERMANENT, 2));
    var s2 := Next(s1, Bump(k));
    var s3 := Next(s2, Tick(now));
    steps, t := PassSpares(s3, k, row);
    OneMore(s2, Tick(now), s3, steps, t);
    steps := [Tick(now)] + steps;
    OneMore(s1, Bump(k), s2, steps, t);
    steps := [Bump(k)] + steps;
    OneMore(s, Insert(k, BLOCK_PERMANENT, 2), s1, steps, t);
    steps := [Insert(k, BLOCK_PERMANENT, 2)] + steps;
  }
}
