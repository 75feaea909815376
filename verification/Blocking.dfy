/**
 Blocking: once a source is on the blacklist it stays there until the merged
 expiry, whatever packets arrive and whatever the control plane blocks; all that
 time its packets are dropped.
 */
module Blocking {
  import opened Words
  import opened BlockMerge
  import opened DataPlane
  import opened DataPlaneRuns

  /** Key k is listed with an expiry that is not earlier than `until`. */
  ghost predicate Held(m: Maps, k: IpKey, until: u64)
  {
    k in m.blacklist && NotEarlier(until, m.blacklist[k].blockedUntilNs)
  }

  ghost predicate Before(now: u64, until: u64) { until == BLOCK_PERMANENT || now < until }

  /** What the data plane asks for when it blocks the source of p. */
  function Penalty(t: Tables, p: Packet): u64
  {
    RequestedUntil(p.now, if t.rateCfg.Some? then t.rateCfg.value.blockDurationS else 0)
  }

  /** The step of a check: it holds what was held, and a new block is for the penalty and drops the packet. */
  ghost predicate Holds(t: Tables, p: Packet, m: Maps, d: Decision, k: IpKey, until: u64)
  {
    && (Held(m, k, until) && (k == p.src ==> Before(p.now, until)) ==> Held(d.m, k, until))
    && (d.m.aux.blacklistGen != m.aux.blacklistGen ==> d.verdict.Discard? && Held(d.m, p.src, Penalty(t, p)))
  }

  lemma AddHolds(t: Tables, m: Maps, p: Packet, reason: u8, k: IpKey, until: u64)
    ensures var m' := BlockIf(true, t, m, p.src, p.now, reason);
            Held(m', p.src, Penalty(t, p)) && (Held(m, k, until) ==> Held(m', k, until))
  {
    if p.src in m.blacklist {
      BlocksNeverShorten(m.blacklist[p.src], p.now, Penalty(t, p), reason, false);
    }
  }

  lemma FloodHolds(t: Tables, cfg: Config, p: Packet, m: Maps, c: Ctx, k: Flood, counts: bool, soft: bool, dport: u16, key: IpKey, until: u64)
    ensures Holds(t, p, m, FloodCheck(t, cfg, p, m, c, k, counts, soft, dport), key, until)
  {
    AddHolds(t, UpdateRate(t, cfg, m, p.src, p.now).0, p, FloodReason(k), key, until);
  }

  lemma SynProxyHolds(t: Tables, cfg: Config, p: Packet, m: Maps, c: Ctx, k: IpKey, until: u64)
    ensures Holds(t, p, m, SynProxy(t, cfg, p, m, c), k, until)
  {
    SameListHolds(t, p, m, SynProxy(t, cfg, p, m, c), k, until);
  }

  lemma RateLimitHolds(t: Tables, cfg: Config, p: Packet, m: Maps, c: Ctx, k: IpKey, until: u64)
    ensures Holds(t, p, m, RateLimitStage(t, cfg, p, m, c), k, until)
  {
    AddHolds(t, UpdateRate(t, cfg, m, p.src, p.now).0, p, R_RATE_LIMIT, k, until);
    AddHolds(t, UpdateRatePort(t, cfg, m, p.src, p.dport, p.now).0, p, R_RATE_LIMIT, k, until);
  }

  lemma BlacklistHolds(t: Tables, cfg: Config, p: Packet, m: Maps, c: Ctx, k: IpKey, until: u64)
    ensures Holds(t, p, m, BlacklistStage(t, cfg, p, m, c), k, until)
  {
    LookupHolds(m, p.src, p.now, k, until);
  }

  /** Looking a source up only removes its own entry, once that has lapsed. */
  lemma LookupHolds(m: Maps, src: IpKey, now: u64, k: IpKey, until: u64)
    ensures var m' := IsBlacklisted(m, src, now).0;
            && m'.aux.blacklistGen == m.aux.blacklistGen
            && (Held(m, k, until) && (k == src ==> Before(now, until)) ==> Held(m', k, until))
  {
  }

  lemma EarlyStageHolds(i: nat, t: Tables, cfg: Config, p: Packet, m: Maps, c: Ctx, k: IpKey, until: u64)
    requires i < 6
    ensures Holds(t, p, m, Stage(i, t, cfg, p, m, c), k, until)
  {
    if i == 1 {
      BlacklistHolds(t, cfg, p, m, c, k, until);
    } else {
      EarlyStageLeavesList(i, t, cfg, p, m, c);
      SameListHolds(t, p, m, Stage(i, t, cfg, p, m, c), k, until);
    }
  }

  lemma EarlyStageLeavesList(i: nat, t: Tables, cfg: Config, p: Packet, m: Maps, c: Ctx)
    requires i < 6 && i != 1
    ensures var d := Stage(i, t, cfg, p, m, c); d.m.blacklist == m.blacklist && d.m.aux == m.aux
  {
  }

  lemma SameListHolds(t: Tables, p: Packet, m: Maps, d: Decision, k: IpKey, until: u64)
    requires d.m.blacklist == m.blacklist && d.m.aux.blacklistGen == m.aux.blacklistGen
    ensures Holds(t, p, m, d, k, until)
  {
  }

  lemma StageHolds(i: nat, t: Tables, cfg: Config, p: Packet, m: Maps, c: Ctx, k: IpKey, until: u64)
    requires i < STAGES
    ensures Holds(t, p, m, Stage(i, t, cfg, p, m, c), k, until)
  {
    if i < 6 {
      EarlyStageHolds(i, t, cfg, p, m, c, k, until);
    } else if i == 6 {
      SynProxyHolds(t, cfg, p, m, c, k, until);
      FloodHolds(t, cfg, p, m, c, SynF, p.IsSyn(), false, p.dport, k, until);
    } else if i == 7 {
      FloodHolds(t, cfg, p, m, c, UdpF, cfg.udpFloodEnabled, cfg.rateLimitSoft, p.dport, k, until);
    } else if i == 8 {
      FloodHolds(t, cfg, p, m, c, IcmpF, cfg.icmpFloodEnabled, cfg.rateLimitSoft, 0, k, until);
    } else if i == 10 {
      RateLimitHolds(t, cfg, p, m, c, k, until);
    }
  }

  /** Carrying a decision out leaves the blacklist and its generation alone. */
  lemma FinishLeavesBlacklist(cfg: Config, p: Packet, d: Decision)
    ensures var out := Finish(cfg, p, d);
            && out.m.blacklist == d.m.blacklist && out.m.aux.blacklistGen == d.m.aux.blacklistGen
            && (d.verdict.Next? <==> out.action.None?)
            && (d.verdict.Discard? ==> out.action.value in {Drop, Reset} && out.m.totals == CountDrop(d.m.totals, p.protocol))
  {
    match d.verdict
    case Discard(b) => DropIsBookkeeping(cfg, p, d.m.(blocked := b, totals := CountDrop(d.m.totals, p.protocol)));
    case Accept => PassIsBookkeeping(cfg, p, d.m);
    case _ =>
  }

  lemma {:induction false} StagesHold(i: nat, t: Tables, cfg: Config, p: Packet, m: Maps, c: Ctx, k: IpKey, until: u64)
    requires i <= STAGES
    ensures var out := StagesFrom(i, t, cfg, p, m, c);
            && (Held(m, k, until) && (k == p.src ==> Before(p.now, until)) ==> Held(out.m, k, until))
            && (out.m.aux.blacklistGen != m.aux.blacklistGen ==> Held(out.m, p.src, Penalty(t, p)))
    decreases STAGES - i
  {
    if i == STAGES {
      FinishLeavesBlacklist(cfg, p, Decision(m, c, Accept));
    } else {
      var d := Stage(i, t, cfg, p, m, c);
      StageHolds(i, t, cfg, p, m, c, k, until);
      FinishLeavesBlacklist(cfg, p, d);
      StagesHold(i + 1, t, cfg, p, d.m, d.c, k, until);
    }
  }

  lemma PacketHolds(t: Tables, p: Packet, m: Maps, k: IpKey, until: u64)
    ensures var m' := Process(t, p, m).0;
            && (Held(m, k, until) && (k == p.src ==> Before(p.now, until)) ==> Held(m', k, until))
            && (m'.aux.blacklistGen != m.aux.blacklistGen ==> Held(m', p.src, Penalty(t, p)))
  {
    if t.config.Some? {
      var cfg := t.config.value;
      var m1 := Arrived(m);
      FinishLeavesBlacklist(cfg, p, Decision(m1, Ctx(false, FLAGS_ALL), Accept));
      StagesHold(0, t, cfg, p, m1, Ctx(false, FLAGS_ALL), k, until);
    }
  }

  // ----- Dropping what is held -----

  lemma HeldIsListed(m: Maps, src: IpKey, now: u64, until: u64)
    requires Held(m, src, until) && Before(now, until)
    ensures IsBlacklisted(m, src, now).1
    ensures IsBlacklisted(m, src, now).0.totals == m.totals
  {
  }

  /** A packet of a held source is counted as dropped, whatever else the tables say. */
  lemma HeldIsDropped(t: Tables, p: Packet, m: Maps, until: u64)
    requires Held(m, p.src, until) && Before(p.now, until)
    requires t.config.Some? && p.src !in t.whitelist
    ensures var (m', a) := Process(t, p, m);
            && a in {Drop, Reset}
            && m'.totals == CountDrop(Arrived(m).totals, p.protocol)
  {
    var cfg := t.config.value;
    var m1 := Arrived(m);
    FirstTwoChecks(0, t, cfg, p, m1, Ctx(false, FLAGS_ALL), until);
  }

  /** The access list can only drop, and the blacklist comes second. */
  lemma FirstTwoChecks(i: nat, t: Tables, cfg: Config, p: Packet, m: Maps, c: Ctx, until: u64)
    requires i <= 1 && Held(m, p.src, until) && Before(p.now, until)
    ensures var out := StagesFrom(i, t, cfg, p, m, c);
            out.action in {Some(Drop), Some(Reset)} && out.m.totals == CountDrop(m.totals, p.protocol)
    decreases 1 - i
  {
    var d := Stage(i, t, cfg, p, m, c);
    HeldIsListed(m, p.src, p.now, until);
    FinishLeavesBlacklist(cfg, p, d);
    if d.verdict.Next? { FirstTwoChecks(i + 1, t, cfg, p, m, c, until); }
  }

  // ----- Runs -----

  /** Every packet of source k in the run comes before the expiry; anything else may happen. */
  ghost predicate AllBefore(es: seq<Event>, k: IpKey, until: u64)
  {
    forall i :: 0 <= i < |es| && es[i].Arrive? && es[i].p.src == k ==> Before(es[i].p.now, until)
  }

  lemma {:induction false} HeldStaysHeld(es: seq<Event>, m: Maps, k: IpKey, until: u64)
    requires Held(m, k, until) && AllBefore(es, k, until)
    ensures Held(RunAll(es, m), k, until)
  {
    if es != [] {
      var front, e := es[..|es| - 1], es[|es| - 1];
      HeldStaysHeld(front, m, k, until);
      var m1 := RunAll(front, m);
      match e
      case Arrive(t, p) => PacketHolds(t, p, m1, k, until);
      case Block(key, at, durationS, reason) => ControlHolds(m1, key, at, durationS, reason, k, until);
    }
  }

  lemma ControlHolds(m: Maps, key: IpKey, at: u64, durationS: u64, reason: u8, k: IpKey, until: u64)
    ensures var m' := ControlBlock(m, key, at, durationS, reason);
            Held(m', key, RequestedUntil(at, durationS)) && (Held(m, k, until) ==> Held(m', k, until))
  {
    var requested, explicit := RequestedUntil(at, durationS), reason == R_API_BLOCK || reason == R_BLACKLIST;
    var prev := if key in m.blacklist then Some(m.blacklist[key]) else None;
    MergeHolds(prev, at, requested, reason, explicit);
    assert ControlBlock(m, key, at, durationS, reason).blacklist == m.blacklist[key := MergeBlockEntry(prev, at, requested, reason, explicit)];
  }

  lemma MergeHolds(prev: Option<BlockEntry>, at: u64, requested: u64, reason: u8, explicit: bool)
    requires requested == BLOCK_PERMANENT || at <= requested
    ensures var e := MergeBlockEntry(prev, at, requested, reason, explicit);
            NotEarlier(requested, e.blockedUntilNs) && (prev.Some? ==> NotEarlier(prev.value.blockedUntilNs, e.blockedUntilNs))
  {
    if prev.Some? { BlocksNeverShorten(prev.value, at, requested, reason, explicit); }
  }

  /** The merged expiry of a listed key. */
  function Expiry(m: Maps, k: IpKey): u64 { if k in m.blacklist then m.blacklist[k].blockedUntilNs else BLOCK_PERMANENT }

  lemma HeldToExpiry(m: Maps, k: IpKey, until: u64)
    requires Held(m, k, until)
    ensures Held(m, k, Expiry(m, k)) && NotEarlier(until, Expiry(m, k))
  {
  }

  /**
   Main result: once a check has blacklisted the source of a packet (the
   generation moved), every later packet of that source before the merged expiry,
   which is not before the one asked for, is dropped and counted as such, after any
   events in between, unless it is whitelisted by then.
   */
  lemma DetectedSourceStaysOut(t: Tables, p: Packet, m: Maps, es: seq<Event>, t': Tables, p': Packet)
    requires Process(t, p, m).0.aux.blacklistGen != m.aux.blacklistGen
    requires AllBefore(es, p.src, Expiry(Process(t, p, m).0, p.src))
    requires p'.src == p.src && Before(p'.now, Expiry(Process(t, p, m).0, p.src))
    requires t'.config.Some? && p'.src !in t'.whitelist
    ensures NotEarlier(Penalty(t, p), Expiry(Process(t, p, m).0, p.src))
    ensures var m1 := RunAll(es, Process(t, p, m).0);
            var (m2, a) := Process(t', p', m1);
            a in {Drop, Reset} && m2.totals == CountDrop(Arrived(m1).totals, p'.protocol)
  {
    PacketHolds(t, p, m, p.src, Penalty(t, p));
    HeldStaysOut(Process(t, p, m).0, p.src, Penalty(t, p), es, t', p');
  }

  /** The same for a block from the control plane. */
  lemma BlockedSourceStaysOut(m: Maps, key: IpKey, at: u64, durationS: u64, reason: u8, es: seq<Event>, t: Tables, p: Packet)
    requires var until := Expiry(ControlBlock(m, key, at, durationS, reason), key);
             AllBefore(es, key, until) && Before(p.now, until)
    requires p.src == key && t.config.Some? && p.src !in t.whitelist
    ensures NotEarlier(RequestedUntil(at, durationS), Expiry(ControlBlock(m, key, at, durationS, reason), key))
    ensures var m1 := RunAll(es, ControlBlock(m, key, at, durationS, reason));
            var (m2, a) := Process(t, p, m1);
            a in {Drop, Reset} && m2.totals == CountDrop(Arrived(m1).totals, p.protocol)
  {
    ControlHolds(m, key, at, durationS, reason, key, RequestedUntil(at, durationS));
    HeldStaysOut(ControlBlock(m, key, at, durationS, reason), key, RequestedUntil(at, durationS), es, t, p);
  }

  lemma HeldStaysOut(m: Maps, k: IpKey, until: u64, es: seq<Event>, t: Tables, p: Packet)
    requires Held(m, k, until) && AllBefore(es, k, Expiry(m, k)) && p.src == k && Before(p.now, Expiry(m, k))
    requires t.config.Some? && p.src !in t.whitelist
    ensures NotEarlier(until, Expiry(m, k))
    ensures var m1 := RunAll(es, m);
            var (m2, a) := Process(t, p, m1);
            a in {Drop, Reset} && m2.totals == CountDrop(Arrived(m1).totals, p.protocol)
  {
    HeldToExpiry(m, k, until);
    HeldStaysHeld(es, m, k, Expiry(m, k));
    HeldIsDropped(t, p, RunAll(es, m), Expiry(m, k));
  }
}
