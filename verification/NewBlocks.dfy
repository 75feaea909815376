/**
 What the data plane puts on the blacklist: never anything silently, and always a
 fresh entry for the penalty, with a cause that is copied to the persistent store.
 */
module NewBlocks {
  import opened Words
  import opened BlockMerge
  import opened DataPlane
  import opened DataPlaneRuns
  import BlacklistSync
  import Blocking
  import PortLimits

  /** The entry of a source blocked for this cause. */
  function Fresh(t: Tables, p: Packet, reason: u8): BlockEntry
  {
    BlockEntry(Blocking.Penalty(t, p), p.now, 0, reason, 0)
  }

  /** The counter that goes with a cause. */
  function CountFor(b: Blocked, reason: u8): nat
  {
    if reason == 2 then b.rateLimited else if reason == 3 then b.synFloodBlocked
    else if reason == 8 then b.udpFloodBlocked else b.icmpFloodBlocked
  }

  /** The cause fits the packet, and a soft limit blocks for SYN floods only. */
  predicate Fits(cfg: Config, p: Packet, reason: u8)
  {
    && reason in {2, 3, 8, 9}
    && (reason == 3 ==> p.protocol == 6 && p.IsSyn())
    && (reason == 8 ==> p.protocol == 17)
    && (reason == 9 ==> p.protocol == 1 || p.protocol == 58)
    && (cfg.rateLimitSoft ==> reason == 3)
  }

  ghost predicate Silent(m: Maps, m': Maps) { m'.blacklist == m.blacklist && m'.aux.blacklistGen == m.aux.blacklistGen }

  /** The source is blocked for this cause, the list is announced as changed, and the source's trust is gone. */
  ghost predicate Announced(t: Tables, cfg: Config, p: Packet, m: Maps, m': Maps, reason: u8)
  {
    && Fits(cfg, p, reason) && m'.blacklist == m.blacklist[p.src := Fresh(t, p, reason)]
    && m'.aux.blacklistGen == Wrap64(m.aux.blacklistGen + 1)
  }

  /** A check blocks nobody, or the source with a fresh entry, and then stops the packet for the same cause. */
  ghost predicate BlocksFor(t: Tables, cfg: Config, p: Packet, m: Maps, d: Decision, reason: u8)
  {
    || Silent(m, d.m)
    || (d.verdict.Discard? && Announced(t, cfg, p, m, d.m, reason)
        && CountFor(d.verdict.blocked, reason) == CountFor(m.blocked, reason) + 1)
  }

  lemma BlockIsFresh(t: Tables, m: Maps, p: Packet, reason: u8)
    requires p.src !in m.blacklist
    ensures var m' := BlockIf(true, t, m, p.src, p.now, reason);
            m'.blacklist == m.blacklist[p.src := Fresh(t, p, reason)] && m'.aux.blacklistGen == Wrap64(m.aux.blacklistGen + 1)
    ensures Silent(m, BlockIf(false, t, m, p.src, p.now, reason))
  {
  }

  lemma DetectBlocks(t: Tables, cfg: Config, p: Packet, m: Maps, reason: u8, soft: bool)
    requires p.src !in m.blacklist && (!soft ==> Fits(cfg, p, reason))
    ensures var (m', over) := Detect(t, cfg, m, p.src, p.now, reason, soft);
            m'.blocked == m.blocked && (Silent(m, m') || (over && Announced(t, cfg, p, m, m', reason)))
  {
    BlockIsFresh(t, UpdateRate(t, cfg, m, p.src, p.now).0, p, reason);
  }

  lemma PortRateIsSilent(t: Tables, cfg: Config, p: Packet, dport: u16, m: Maps, c: Ctx)
    ensures Silent(m, PortRateCheck(t, cfg, p, dport, m, c).m)
  {
  }

  lemma FloodBlocks(t: Tables, cfg: Config, p: Packet, m: Maps, c: Ctx, k: Flood, counts: bool, soft: bool, dport: u16)
    requires p.src !in m.blacklist && (counts && !soft ==> Fits(cfg, p, FloodReason(k)))
    ensures BlocksFor(t, cfg, p, m, FloodCheck(t, cfg, p, m, c, k, counts, soft, dport), FloodReason(k))
  {
    if counts {
      DetectBlocks(t, cfg, p, m, FloodReason(k), soft);
      PortRateIsSilent(t, cfg, p, dport, Detect(t, cfg, m, p.src, p.now, FloodReason(k), soft).0, c.(rateCounted := true));
    } else {
      PortRateIsSilent(t, cfg, p, dport, m, c);
    }
  }

  lemma RateLimitBlocks(t: Tables, cfg: Config, p: Packet, m: Maps, c: Ctx)
    requires p.src !in m.blacklist
    ensures BlocksFor(t, cfg, p, m, RateLimitStage(t, cfg, p, m, c), 2)
  {
    BlockIsFresh(t, UpdateRate(t, cfg, m, p.src, p.now).0, p, R_RATE_LIMIT);
    BlockIsFresh(t, UpdateRatePort(t, cfg, m, p.src, p.dport, p.now).0, p, R_RATE_LIMIT);
  }

  lemma SynProxyIsSilent(t: Tables, cfg: Config, p: Packet, m: Maps, c: Ctx)
    ensures Silent(m, SynProxy(t, cfg, p, m, c).m)
  {
  }

  lemma OtherIsSilent(i: nat, t: Tables, cfg: Config, p: Packet, m: Maps, c: Ctx)
    requires (i < 6 && i != 1) || i == 9
    ensures Silent(m, Stage(i, t, cfg, p, m, c).m)
  {
  }

  function ReasonAt(i: nat): u8 { if i == 6 then 3 else if i == 7 then 8 else if i == 8 then 9 else 2 }

  lemma OwnBlocks(i: nat, t: Tables, cfg: Config, p: Packet, m: Maps, c: Ctx)
    requires 6 <= i <= 8 && p.src !in m.blacklist
    ensures BlocksFor(t, cfg, p, m, Stage(i, t, cfg, p, m, c), ReasonAt(i))
  {
    if i == 6 {
      SynProxyIsSilent(t, cfg, p, m, c);
      if p.protocol == TCP { FloodBlocks(t, cfg, p, m, c, SynF, p.IsSyn(), false, p.dport); }
    } else if i == 7 {
      if p.protocol == UDP { FloodBlocks(t, cfg, p, m, c, UdpF, cfg.udpFloodEnabled, cfg.rateLimitSoft, p.dport); }
    } else {
      if p.protocol == ICMP || p.protocol == ICMPV6 { FloodBlocks(t, cfg, p, m, c, IcmpF, cfg.icmpFloodEnabled, cfg.rateLimitSoft, 0); }
    }
  }

  lemma StageBlocks(i: nat, t: Tables, cfg: Config, p: Packet, m: Maps, c: Ctx)
    requires 2 <= i < STAGES && p.src !in m.blacklist
    ensures BlocksFor(t, cfg, p, m, Stage(i, t, cfg, p, m, c), ReasonAt(i))
  {
    if i < 6 || i == 9 {
      OtherIsSilent(i, t, cfg, p, m, c);
    } else if i == 10 {
      RateLimitBlocks(t, cfg, p, m, c);
    } else {
      OwnBlocks(i, t, cfg, p, m, c);
    }
  }

  // ----- The whole packet -----

  /** The packet got its source blocked for this cause: a fresh entry, dropped, and counted under the cause. */
  ghost predicate Caused(t: Tables, cfg: Config, p: Packet, m: Maps, m': Maps, a: Option<Action>, reason: u8)
  {
    && a in {Some(Drop), Some(Reset)} && Announced(t, cfg, p, m, m', reason)
    && CountFor(m'.blocked, reason) == CountFor(m.blocked, reason) + 1
  }

  lemma FinishCauses(cfg: Config, p: Packet, d: Decision)
    ensures var out := Finish(cfg, p, d);
            && Silent(d.m, out.m) && (d.verdict.Next? <==> out.action.None?)
            && (d.verdict.Next? ==> out.m == d.m && out.c == d.c)
            && (d.verdict.Discard? ==> out.action in {Some(Drop), Some(Reset)} && out.m.blocked == d.verdict.blocked)
  {
    match d.verdict
    case Discard(b) => DropIsBookkeeping(cfg, p, d.m.(blocked := b, totals := CountDrop(d.m.totals, p.protocol)));
    case Accept => PassIsBookkeeping(cfg, p, d.m);
    case _ =>
  }

  lemma CausedBy(t: Tables, cfg: Config, p: Packet, m: Maps, d: Decision, m': Maps, a: Option<Action>, reason: u8)
    requires BlocksFor(t, cfg, p, m, d, reason) && !Silent(m, d.m)
    requires Silent(d.m, m') && m'.blocked == d.verdict.blocked && a in {Some(Drop), Some(Reset)}
    ensures Caused(t, cfg, p, m, m', a, reason)
  {
  }

  /** Counters of a check that hands the packet on are as before. */
  lemma HandsOnUncounted(i: nat, t: Tables, cfg: Config, p: Packet, m: Maps, c: Ctx)
    requires i < STAGES
    ensures Stage(i, t, cfg, p, m, c).m.blocked == m.blocked
  {
    PortLimits.StagePorts(i, t, cfg, p, m, c);
  }

  /** The cause a packet may have its source blocked for, from check i on. */
  lemma {:induction false} StagesBlock(i: nat, t: Tables, cfg: Config, p: Packet, m: Maps, c: Ctx) returns (reason: u8)
    requires 2 <= i <= STAGES && p.src !in m.blacklist
    ensures var out := StagesFrom(i, t, cfg, p, m, c);
            Silent(m, out.m) || Caused(t, cfg, p, m, out.m, out.action, reason)
    decreases STAGES - i
  {
    reason := 2;
    if i == STAGES {
      FinishCauses(cfg, p, Decision(m, c, Accept));
    } else {
      var d := Stage(i, t, cfg, p, m, c);
      StageBlocks(i, t, cfg, p, m, c);
      FinishCauses(cfg, p, d);
      HandsOnUncounted(i, t, cfg, p, m, c);
      if d.verdict.Next? {
        reason := StagesBlock(i + 1, t, cfg, p, d.m, d.c);
        StillCaused(t, cfg, p, m, d.m, StagesFrom(i, t, cfg, p, m, c), reason);
      } else if !Silent(m, d.m) {
        reason := ReasonAt(i);
        CausedBy(t, cfg, p, m, d, Finish(cfg, p, d).m, Finish(cfg, p, d).action, reason);
      }
    }
  }

  lemma StillCaused(t: Tables, cfg: Config, p: Packet, m: Maps, m1: Maps, out: Out, reason: u8)
    requires Silent(m, m1) && m1.blocked == m.blocked
    requires Silent(m1, out.m) || Caused(t, cfg, p, m1, out.m, out.action, reason)
    ensures Silent(m, out.m) || Caused(t, cfg, p, m, out.m, out.action, reason)
  {
  }

  /** The entry is as before, but for hits counted. */
  predicate SameBlock(e: BlockEntry, e': BlockEntry) { e' == e.(hitCount := e'.hitCount) && e.hitCount <= e'.hitCount }

  /** Nobody is newly listed; an entry that is gone is the packet's source's and has lapsed. */
  ghost predicate NobodyListed(p: Packet, m: Maps, m': Maps)
  {
    && m'.aux.blacklistGen == m.aux.blacklistGen
    && (forall k :: k in m'.blacklist ==> k in m.blacklist && SameBlock(m.blacklist[k], m'.blacklist[k]))
    && (forall k :: k in m.blacklist && k !in m'.blacklist ==> k == p.src && !Listed(m, k, p.now))
  }

  /** The source, and nobody else, is newly listed for this cause. */
  ghost predicate SourceListed(t: Tables, p: Packet, m: Maps, m': Maps, reason: u8)
  {
    && m'.blacklist == m.blacklist[p.src := Fresh(t, p, reason)]
    && m'.aux.blacklistGen == Wrap64(m.aux.blacklistGen + 1)
    && CountFor(m'.blocked, reason) == CountFor(m.blocked, reason) + 1
  }

  lemma LookupListsNobody(p: Packet, m: Maps)
    ensures var m1 := IsBlacklisted(m, p.src, p.now).0;
            NobodyListed(p, m, m1) && m1.blocked == m.blocked
    ensures !Listed(m, p.src, p.now) ==>
              var m1 := IsBlacklisted(m, p.src, p.now).0;
              p.src !in m1.blacklist && m1.blacklist == m.blacklist - {p.src}
  {
  }

  lemma Relisted(t: Tables, p: Packet, m: Maps, reason: u8)
    ensures (m.blacklist - {p.src})[p.src := Fresh(t, p, reason)] == m.blacklist[p.src := Fresh(t, p, reason)]
  {
  }

  lemma SilentListsNobody(p: Packet, m: Maps, m1: Maps, m2: Maps)
    requires NobodyListed(p, m, m1) && Silent(m1, m2)
    ensures NobodyListed(p, m, m2)
  {
  }

  lemma FirstTwoBlock(t: Tables, cfg: Config, p: Packet, m: Maps, c: Ctx, i: nat) returns (reason: u8)
    requires i <= 1
    ensures var out := StagesFrom(i, t, cfg, p, m, c);
            ListOutcome(t, cfg, p, m, out.m, out.action, reason)
    decreases 1 - i
  {
    var d := Stage(i, t, cfg, p, m, c);
    reason := 2;
    FinishCauses(cfg, p, d);
    HandsOnUncounted(i, t, cfg, p, m, c);
    if i == 0 {
      OtherIsSilent(i, t, cfg, p, m, c);
      if d.verdict.Next? { reason := FirstTwoBlock(t, cfg, p, m, c, 1); }
    } else {
      LookupListsNobody(p, m);
      if d.verdict.Next? {
        reason := StagesBlock(i + 1, t, cfg, p, d.m, d.c);
        Relisted(t, p, m, reason);
      }
      if Silent(d.m, StagesFrom(i, t, cfg, p, m, c).m) { SilentListsNobody(p, m, d.m, StagesFrom(i, t, cfg, p, m, c).m); }
    }
  }

  /** What becomes of the list when this packet is processed. */
  ghost predicate ListOutcome(t: Tables, cfg: Config, p: Packet, m: Maps, m': Maps, a: Option<Action>, reason: u8)
  {
    || NobodyListed(p, m, m')
    || (SourceListed(t, p, m, m', reason) && Fits(cfg, p, reason) && a in {Some(Drop), Some(Reset)} && !Listed(m, p.src, p.now))
  }

  lemma SinceArrival(t: Tables, cfg: Config, p: Packet, m: Maps, m': Maps, a: Option<Action>, reason: u8)
    requires ListOutcome(t, cfg, p, Arrived(m), m', a, reason)
    ensures ListOutcome(t, cfg, p, m, m', a, reason)
  {
  }

  lemma SilentOutcome(t: Tables, cfg: Config, p: Packet, m: Maps, m': Maps, a: Option<Action>, reason: u8)
    requires Silent(m, m')
    ensures ListOutcome(t, cfg, p, m, m', a, reason)
  {
  }

  lemma CausesAreSynced(cfg: Config, p: Packet, reason: u8)
    requires Fits(cfg, p, reason)
    ensures BlacklistSync.Synced?(reason) && BlacklistSync.BlockReasonToOrigin(reason) == Some(BlacklistSync.Local)
  {
  }

  /**
   Main result: a packet changes who is listed only by getting its own, so far
   unlisted source blocked: with a fresh entry for the penalty, announced, counted
   and dropped under one of four causes, each of which a sync pass copies to the
   persistent store.
   */
  lemma NewBlockIsSynced(t: Tables, p: Packet, m: Maps) returns (reason: u8)
    requires t.config.Some?
    ensures var (m', a) := Process(t, p, m);
            ListOutcome(t, t.config.value, p, m, m', Some(a), reason)
    ensures BlacklistSync.Synced?(reason) && BlacklistSync.BlockReasonToOrigin(reason) == Some(BlacklistSync.Local)
  {
    var cfg, c := t.config.value, Ctx(false, FLAGS_ALL);
    var (m', a) := Process(t, p, m);
    reason := 2;
    FinishCauses(cfg, p, Decision(Arrived(m), c, Accept));
    if p.src in t.whitelist {
      SilentOutcome(t, cfg, p, Arrived(m), m', Some(a), reason);
    } else {
      reason := FirstTwoBlock(t, cfg, p, Arrived(m), c, 0);
      PortLimits.SomeVerdict(0, t, cfg, p, Arrived(m), c);
      if !NobodyListed(p, Arrived(m), m') { CausesAreSynced(cfg, p, reason); } else { reason := 2; }
    }
    SinceArrival(t, cfg, p, m, m', Some(a), reason);
  }

  /** Without a configuration nobody is listed. */
  lemma UnconfiguredListsNobody(t: Tables, p: Packet, m: Maps)
    requires t.config.None?
    ensures NobodyListed(p, m, Process(t, p, m).0)
  {
  }
}
