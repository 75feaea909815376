/**
 A source that keeps to its rate is never blocked, challenged or dropped for its
 rate, whatever else the network and the control plane do: the rate counter's
 bound, carried through the whole pipeline and any run of packets.
 */
module PoliteSources {
  import opened Words
  import opened RateCounter
  import opened DataPlane
  import opened DataPlaneRuns
  import opened CountedOnce
  import TrustRange

  // ----- Traces and their samples -----

  /** `us` holds no more than `ts` in any window, and ends no later. */
  ghost predicate Sampled(us: seq<u64>, ts: seq<u64>, len: nat)
  {
    && NonDecreasing(us)
    && (us != [] ==> ts != [] && us[|us| - 1] <= ts[|ts| - 1])
    && forall a: nat :: InWindow(us, a, len) <= InWindow(ts, a, len)
  }

  /** The entry is what the counter makes of some of the times. */
  ghost predicate CountsSome(e: Option<Counter>, r: RateLimitConfig, ts: seq<u64>)
    requires MsToNs(r.tickMs) > 0
  {
    exists us: seq<u64> :: Sampled(us, ts, MsToNs(r.tickMs)) && RateCounter.Run(MsToNs(r.tickMs), r.decayNum, r.decayDen, us) == e
  }

  lemma CountsLater(e: Option<Counter>, r: RateLimitConfig, ts: seq<u64>, now: u64)
    requires MsToNs(r.tickMs) > 0 && CountsSome(e, r, ts)
    requires ts != [] ==> ts[|ts| - 1] <= now
    ensures CountsSome(e, r, ts + [now])
  {
    var tick := MsToNs(r.tickMs);
    var us: seq<u64> :| Sampled(us, ts, tick) && RateCounter.Run(tick, r.decayNum, r.decayDen, us) == e;
    forall a: nat ensures InWindow(us, a, tick) <= InWindow(ts + [now], a, tick) { WindowSnoc(ts, now, a, tick); }
    assert Sampled(us, ts + [now], tick);
  }

  lemma SampleOneMore(us: seq<u64>, ts: seq<u64>, now: u64, len: nat)
    requires Sampled(us, ts, len) && (ts != [] ==> ts[|ts| - 1] <= now)
    ensures Sampled(us + [now], ts + [now], len)
  {
    forall a: nat ensures InWindow(us + [now], a, len) <= InWindow(ts + [now], a, len) {
      WindowSnoc(us, now, a, len);
      WindowSnoc(ts, now, a, len);
    }
  }

  lemma CountsOneMore(e: Option<Counter>, r: RateLimitConfig, ts: seq<u64>, now: u64)
    requires MsToNs(r.tickMs) > 0 && CountsSome(e, r, ts)
    requires ts != [] ==> ts[|ts| - 1] <= now
    ensures CountsSome(Some(Bump(e, MsToNs(r.tickMs), r.decayNum, r.decayDen, now)), r, ts + [now])
  {
    var tick := MsToNs(r.tickMs);
    var us: seq<u64> :| Sampled(us, ts, tick) && RateCounter.Run(tick, r.decayNum, r.decayDen, us) == e;
    RunSnoc(tick, r.decayNum, r.decayDen, us, now);
    SampleOneMore(us, ts, now, tick);
  }

  /** A tick cell is a window. */
  lemma {:induction false} CellIsWindow(us: seq<u64>, first: u64, tick: u64, m: nat)
    requires tick > 0 && forall i :: 0 <= i < |us| ==> first <= us[i]
    ensures 0 <= m * tick
    ensures CountInCell(us, first, tick, m) == InWindow(us, first + m * tick, tick)
  {
    MulMono(tick, 0, m);
    if us != [] {
      var n := |us| - 1;
      CellIsWindow(us[..n], first, tick, m);
      InCellIff(first, tick, us[n], m);
    }
  }

  lemma InCellIff(first: u64, tick: u64, u: u64, m: nat)
    requires tick > 0 && first <= u
    ensures Cell(first, tick, u) == m <==> first + m * tick <= u < first + m * tick + tick
  {
    WholeTicks(u - first, tick);
    if first + m * tick <= u < first + m * tick + tick {
      assert tick * (m + 1) == m * tick + tick;
      DivUnique(u - first, tick, m);
    }
  }

  /** At most k packets of this source in any tick, and a decay that makes room for k per tick. */
  ghost predicate Sustainable(r: RateLimitConfig, k: nat)
  {
    && MsToNs(r.tickMs) > 0 && r.decayNum < r.decayDen
    && k * r.decayDen <= r.threshold * (r.decayDen - r.decayNum)
    && r.threshold * r.decayNum <= U64_MAX
  }

  ghost predicate AtMost(ts: seq<u64>, len: nat, k: nat)
  {
    forall a: nat :: InWindow(ts, a, len) <= k
  }

  lemma CountsLow(e: Counter, r: RateLimitConfig, ts: seq<u64>, k: nat)
    requires Sustainable(r, k) && AtMost(ts, MsToNs(r.tickMs), k) && CountsSome(Some(e), r, ts)
    ensures e.counter <= r.threshold
  {
    var tick := MsToNs(r.tickMs);
    var us: seq<u64> :| Sampled(us, ts, tick) && RateCounter.Run(tick, r.decayNum, r.decayDen, us) == Some(e);
    forall m: nat ensures CountInCell(us, us[0], tick, m) <= k {
      CellIsWindow(us, us[0], tick, m);
      assert InWindow(us, us[0] + m * tick, tick) <= InWindow(ts, us[0] + m * tick, tick) <= k;
    }
    NeverOverThreshold(tick, r.decayNum, r.decayDen, r.threshold, k, us);
  }

  // ----- One packet -----

  /** r counts like the setting in force, and its threshold is at most what trust and danger can make of that one. */
  ghost predicate Floor(t: Tables, cfg: Config, r: RateLimitConfig)
  {
    SameDecay(t, r) &&
    var full := t.rateCfg.value.threshold;
    if cfg.trustEnabled then full <= U64_MAX / 1000 && r.threshold <= ModulateThreshold(full, 333, 500) else r.threshold <= full
  }

  ghost predicate SameDecay(t: Tables, r: RateLimitConfig)
  {
    t.rateCfg.Some? && t.rateCfg.value == r.(threshold := t.rateCfg.value.threshold, blockDurationS := t.rateCfg.value.blockDurationS)
  }

  lemma FactorsAtLowest(full: u64, trustF: u64, dangerF: u64)
    requires 333 <= trustF <= 1000 && 500 <= dangerF <= 1000 && full <= U64_MAX / 1000
    ensures ModulateThreshold(full, 333, 500) <= ModulateThreshold(full, trustF, dangerF)
  {
    StepGrows(full, full, 333, trustF);
    StepGrows(ModulateStep(full, 333), ModulateStep(full, trustF), 500, dangerF);
  }

  lemma StepGrows(x: u64, y: u64, f: u64, g: u64)
    requires x <= y <= U64_MAX / 1000 && f <= g <= 1000
    ensures ModulateStep(x, f) <= ModulateStep(y, g) <= y
  {
    SmallStep(x, f);
    SmallStep(y, g);
    MulMono(x, f, g);
    MulMono(g, x, y);
    DivGrows(x * f, y * g);
  }

  lemma DivGrows(a: nat, b: nat)
    requires a <= b
    ensures a / 1000 <= b / 1000
  {
  }

  lemma FloorHolds(t: Tables, cfg: Config, m: Maps, src: IpKey, r: RateLimitConfig)
    requires Floor(t, cfg, r) && TrustRange.InRange(m.trust)
    ensures r.threshold <= Threshold(cfg, m, src, t.rateCfg.value.threshold)
  {
    TrustRange.FactorsInRange(m, src, cfg.dangerLevel);
    if cfg.trustEnabled { FactorsAtLowest(t.rateCfg.value.threshold, TrustFactor(m, src), DangerFactor(cfg.dangerLevel)); }
  }

  /** Counting one more packet of the source leaves it within the threshold of r. */
  ghost predicate Calm(t: Tables, cfg: Config, p: Packet, m: Maps, r: RateLimitConfig)
  {
    && MsToNs(r.tickMs) > 0 && Floor(t, cfg, r) && TrustRange.InRange(m.trust)
    && Counted(t, m.rate, p.src, p.now)[p.src].counter <= r.threshold
    && Counted(t, m.ratePort, (p.src, p.dport), p.now)[(p.src, p.dport)].counter <= r.threshold
  }

  lemma CalmIsNotOver(t: Tables, cfg: Config, p: Packet, m: Maps, r: RateLimitConfig)
    requires Calm(t, cfg, p, m, r)
    ensures !UpdateRate(t, cfg, m, p.src, p.now).1 && !UpdateRatePort(t, cfg, m, p.src, p.dport, p.now).1
  {
    FloorHolds(t, cfg, m, p.src, r);
  }

  ghost predicate Unlisted(s: IpKey, m: Maps) { s !in m.blacklist && s !in m.challenged }

  /** None of the counters of the blacklist, the SYN proxy and the per-source rate checks has moved. */
  ghost predicate Unblamed(b: Blocked, b': Blocked)
  {
    b' == b.(l7Blocked := b'.l7Blocked, geoipBlocked := b'.geoipBlocked, fragmentBlocked := b'.fragmentBlocked,
             portRateBlocked := b'.portRateBlocked, connTrackBlocked := b'.connTrackBlocked)
  }

  ghost predicate Quiet(p: Packet, m: Maps, d: Decision)
  {
    && Unlisted(p.src, d.m) && d.m.blocked == m.blocked && !d.verdict.Answer?
    && (d.verdict.Discard? ==> Unblamed(m.blocked, d.verdict.blocked))
  }

  lemma FloodKeepsLists(t: Tables, cfg: Config, p: Packet, m: Maps, c: Ctx, k: Flood, counts: bool, soft: bool, dport: u16)
    requires !UpdateRate(t, cfg, m, p.src, p.now).1
    ensures var d := FloodCheck(t, cfg, p, m, c, k, counts, soft, dport);
            && d.m.blacklist == m.blacklist && d.m.challenged == m.challenged && d.m.blocked == m.blocked
            && d.verdict in {Next, Discard(m.blocked.(portRateBlocked := m.blocked.portRateBlocked + 1))}
  {
  }

  lemma FloodIsQuiet(t: Tables, cfg: Config, p: Packet, m: Maps, c: Ctx, k: Flood, counts: bool, soft: bool, dport: u16, r: RateLimitConfig)
    requires Unlisted(p.src, m) && Calm(t, cfg, p, m, r)
    ensures Quiet(p, m, FloodCheck(t, cfg, p, m, c, k, counts, soft, dport))
  {
    CalmIsNotOver(t, cfg, p, m, r);
    FloodKeepsLists(t, cfg, p, m, c, k, counts, soft, dport);
  }

  lemma SynProxyIsQuiet(t: Tables, cfg: Config, p: Packet, m: Maps, c: Ctx, r: RateLimitConfig)
    requires Unlisted(p.src, m) && Calm(t, cfg, p, m, r)
    ensures Quiet(p, m, SynProxy(t, cfg, p, m, c))
  {
    CalmIsNotOver(t, cfg, p, m, r);
    assert !IsChallengedOrTrigger(t, cfg, m, p.src, p.now).1;
  }

  lemma RateLimitIsQuiet(t: Tables, cfg: Config, p: Packet, m: Maps, c: Ctx, r: RateLimitConfig)
    requires Unlisted(p.src, m) && (!c.rateCounted ==> Calm(t, cfg, p, m, r))
    ensures Quiet(p, m, RateLimitStage(t, cfg, p, m, c))
  {
    if !c.rateCounted {
      CalmIsNotOver(t, cfg, p, m, r);
      assert !CheckRateLimit(t, cfg, p, m).1;
    }
  }

  lemma BlacklistIsQuiet(t: Tables, cfg: Config, p: Packet, m: Maps, c: Ctx)
    requires Unlisted(p.src, m)
    ensures Quiet(p, m, BlacklistStage(t, cfg, p, m, c))
  {
    assert !IsBlacklisted(m, p.src, p.now).1;
  }

  /** A check that has no part in blocking, challenging or counting sources. */
  ghost predicate KeepsLists(m: Maps, d: Decision)
  {
    && d.m.blacklist == m.blacklist && d.m.challenged == m.challenged && d.m.blocked == m.blocked && !d.verdict.Answer?
    && (d.verdict.Discard? ==> Unblamed(m.blocked, d.verdict.blocked))
  }

  lemma LateStageKeepsLists(i: nat, t: Tables, cfg: Config, p: Packet, m: Maps, c: Ctx)
    requires i == 4 || i == 5 || i == 9
    ensures KeepsLists(m, Stage(i, t, cfg, p, m, c))
  {
  }

  lemma AclKeepsLists(t: Tables, cfg: Config, p: Packet, m: Maps, c: Ctx)
    ensures KeepsLists(m, AclStage(t, cfg, p, m, c))
  {
  }

  lemma FragmentKeepsLists(t: Tables, cfg: Config, p: Packet, m: Maps, c: Ctx)
    ensures KeepsLists(m, FragmentStage(t, cfg, p, m, c))
  {
  }

  lemma ProjectKeepsLists(t: Tables, cfg: Config, p: Packet, m: Maps, c: Ctx)
    ensures KeepsLists(m, ProjectStage(t, cfg, p, m, c))
  {
  }

  lemma OtherStageKeepsLists(i: nat, t: Tables, cfg: Config, p: Packet, m: Maps, c: Ctx)
    requires (i < 6 && i != 1) || i == 9
    ensures KeepsLists(m, Stage(i, t, cfg, p, m, c))
  {
    if i == 0 { AclKeepsLists(t, cfg, p, m, c); }
    if i == 2 { FragmentKeepsLists(t, cfg, p, m, c); }
    if i == 3 { ProjectKeepsLists(t, cfg, p, m, c); }
    if i >= 4 { LateStageKeepsLists(i, t, cfg, p, m, c); }
  }

  lemma OtherStageIsQuiet(i: nat, t: Tables, cfg: Config, p: Packet, m: Maps, c: Ctx)
    requires ((i < 6 && i != 1) || i == 9) && Unlisted(p.src, m)
    ensures Quiet(p, m, Stage(i, t, cfg, p, m, c))
  {
    OtherStageKeepsLists(i, t, cfg, p, m, c);
  }

  lemma TcpStageIsQuiet(t: Tables, cfg: Config, p: Packet, m: Maps, c: Ctx, r: RateLimitConfig)
    requires Unlisted(p.src, m) && Calm(t, cfg, p, m, r)
    ensures Quiet(p, m, TcpStage(t, cfg, p, m, c))
  {
    SynProxyIsQuiet(t, cfg, p, m, c, r);
    FloodIsQuiet(t, cfg, p, m, c, SynF, p.IsSyn(), false, p.dport, r);
  }

  lemma OwnStageIsQuiet(t: Tables, cfg: Config, p: Packet, m: Maps, c: Ctx, r: RateLimitConfig)
    requires Unlisted(p.src, m) && Calm(t, cfg, p, m, r)
    ensures Quiet(p, m, Stage(Own(p), t, cfg, p, m, c))
  {
    if p.protocol == TCP {
      TcpStageIsQuiet(t, cfg, p, m, c, r);
    } else if p.protocol == UDP {
      FloodIsQuiet(t, cfg, p, m, c, UdpF, cfg.udpFloodEnabled, cfg.rateLimitSoft, p.dport, r);
    } else {
      FloodIsQuiet(t, cfg, p, m, c, IcmpF, cfg.icmpFloodEnabled, cfg.rateLimitSoft, 0, r);
    }
  }

  lemma ForeignStageSkips(i: nat, t: Tables, cfg: Config, p: Packet, m: Maps, c: Ctx)
    requires 6 <= i <= 8 && i != Own(p)
    ensures Stage(i, t, cfg, p, m, c) == Decision(m, c, Next)
  {
  }

  lemma StageIsQuiet(i: nat, t: Tables, cfg: Config, p: Packet, m: Maps, c: Ctx, r: RateLimitConfig)
    requires i < STAGES && Unlisted(p.src, m)
    requires if c.rateCounted then i > Own(p) else Calm(t, cfg, p, m, r)
    ensures Quiet(p, m, Stage(i, t, cfg, p, m, c))
  {
    if i == 1 {
      BlacklistIsQuiet(t, cfg, p, m, c);
    } else if i < 6 || i == 9 {
      OtherStageIsQuiet(i, t, cfg, p, m, c);
    } else if i == 10 {
      RateLimitIsQuiet(t, cfg, p, m, c, r);
    } else if i == Own(p) {
      OwnStageIsQuiet(t, cfg, p, m, c, r);
    } else {
      ForeignStageSkips(i, t, cfg, p, m, c);
    }
  }

  lemma CalmIsAboutRates(t: Tables, cfg: Config, p: Packet, m: Maps, m': Maps, r: RateLimitConfig)
    requires Calm(t, cfg, p, m, r) && NoUpdate(m, m') && TrustRange.InRange(m'.trust)
    ensures Calm(t, cfg, p, m', r)
  {
  }

  lemma {:induction false} StagesAreQuiet(i: nat, t: Tables, cfg: Config, p: Packet, m: Maps, c: Ctx, r: RateLimitConfig)
    requires i <= STAGES && Unlisted(p.src, m)
    requires if c.rateCounted then i > Own(p) else Calm(t, cfg, p, m, r)
    ensures var out := StagesFrom(i, t, cfg, p, m, c);
            Unlisted(p.src, out.m) && Unblamed(m.blocked, out.m.blocked) && out.action.Some? && !out.action.value.Challenge?
    decreases STAGES - i
  {
    if i == STAGES {
      FinishLeavesRates(cfg, p, Decision(m, c, Accept));
    } else {
      var d := Stage(i, t, cfg, p, m, c);
      StageIsQuiet(i, t, cfg, p, m, c, r);
      StageCountsOnce(i, t, cfg, p, m, c);
      FinishLeavesRates(cfg, p, d);
      if d.verdict.Next? && i < STAGES - 1 {
        if !d.c.rateCounted {
          TrustRange.StageInRange(i, t, cfg, p, m, c);
          CalmIsAboutRates(t, cfg, p, m, d.m, r);
        }
        StagesAreQuiet(i + 1, t, cfg, p, d.m, d.c, r);
      } else if d.verdict.Next? {
        FinishLeavesRates(cfg, p, Decision(d.m, d.c, Accept));
      }
    }
  }

  lemma CalmPacketIsQuiet(t: Tables, p: Packet, m: Maps, r: RateLimitConfig)
    requires Unlisted(p.src, m) && (t.config.Some? ==> Calm(t, t.config.value, p, m, r))
    ensures var (m', a) := Process(t, p, m);
            Unlisted(p.src, m') && Unblamed(m.blocked, m'.blocked) && !a.Challenge?
  {
    if t.config.Some? {
      var cfg, c := t.config.value, Ctx(false, FLAGS_ALL);
      FinishLeavesRates(cfg, p, Decision(Arrived(m), c, Accept));
      CalmIsAboutRates(t, cfg, p, m, Arrived(m), r);
      StagesAreQuiet(0, t, cfg, p, Arrived(m), c, r);
    }
  }

  // ----- Packets of other sources -----

  ghost predicate Apart(s: IpKey, m: Maps, m': Maps)
  {
    (s in m'.blacklist <==> s in m.blacklist) && (s in m'.challenged <==> s in m.challenged)
  }

  lemma FloodIsApart(s: IpKey, t: Tables, cfg: Config, p: Packet, m: Maps, c: Ctx, k: Flood, counts: bool, soft: bool, dport: u16)
    requires p.src != s
    ensures Apart(s, m, FloodCheck(t, cfg, p, m, c, k, counts, soft, dport).m)
  {
  }

  lemma SynProxyIsApart(s: IpKey, t: Tables, cfg: Config, p: Packet, m: Maps, c: Ctx)
    requires p.src != s
    ensures Apart(s, m, SynProxy(t, cfg, p, m, c).m)
  {
  }

  lemma RateLimitIsApart(s: IpKey, t: Tables, cfg: Config, p: Packet, m: Maps, c: Ctx)
    requires p.src != s
    ensures Apart(s, m, RateLimitStage(t, cfg, p, m, c).m)
  {
  }

  lemma BlacklistIsApart(s: IpKey, t: Tables, cfg: Config, p: Packet, m: Maps, c: Ctx)
    requires p.src != s
    ensures Apart(s, m, BlacklistStage(t, cfg, p, m, c).m)
  {
  }

  lemma StageIsApart(s: IpKey, i: nat, t: Tables, cfg: Config, p: Packet, m: Maps, c: Ctx)
    requires i < STAGES && p.src != s
    ensures Apart(s, m, Stage(i, t, cfg, p, m, c).m)
  {
    if i == 1 {
      BlacklistIsApart(s, t, cfg, p, m, c);
    } else if i < 6 || i == 9 {
      OtherStageKeepsLists(i, t, cfg, p, m, c);
    } else if i == 10 {
      RateLimitIsApart(s, t, cfg, p, m, c);
    } else if i == 6 {
      SynProxyIsApart(s, t, cfg, p, m, c);
      FloodIsApart(s, t, cfg, p, m, c, SynF, p.IsSyn(), false, p.dport);
    } else if i == 7 {
      FloodIsApart(s, t, cfg, p, m, c, UdpF, cfg.udpFloodEnabled, cfg.rateLimitSoft, p.dport);
    } else {
      FloodIsApart(s, t, cfg, p, m, c, IcmpF, cfg.icmpFloodEnabled, cfg.rateLimitSoft, 0);
    }
  }

  lemma {:induction false} StagesAreApart(s: IpKey, i: nat, t: Tables, cfg: Config, p: Packet, m: Maps, c: Ctx)
    requires i <= STAGES && p.src != s
    ensures Apart(s, m, StagesFrom(i, t, cfg, p, m, c).m)
    decreases STAGES - i
  {
    if i == STAGES {
      FinishLeavesRates(cfg, p, Decision(m, c, Accept));
    } else {
      var d := Stage(i, t, cfg, p, m, c);
      StageIsApart(s, i, t, cfg, p, m, c);
      FinishLeavesRates(cfg, p, d);
      if d.verdict.Next? { StagesAreApart(s, i + 1, t, cfg, p, d.m, d.c); }
    }
  }

  lemma PacketIsApart(s: IpKey, t: Tables, p: Packet, m: Maps)
    requires p.src != s
    ensures Apart(s, m, Process(t, p, m).0)
  {
    if t.config.Some? {
      FinishLeavesRates(t.config.value, p, Decision(Arrived(m), Ctx(false, FLAGS_ALL), Accept));
      StagesAreApart(s, 0, t, t.config.value, p, Arrived(m), Ctx(false, FLAGS_ALL));
    }
  }

  // ----- Runs -----

  /** Arrival times of the packets of source s. */
  function TimesOf(es: seq<Event>, s: IpKey): seq<u64>
  {
    if es == [] then []
    else
      var e := es[|es| - 1];
      TimesOf(es[..|es| - 1], s) + if e.Arrive? && e.p.src == s then [e.p.now] else []
  }

  /** The control plane does not block s, and packets of s meet settings for which r is a floor. */
  ghost predicate Undisturbed(e: Event, s: IpKey, r: RateLimitConfig)
  {
    match e
    case Arrive(t, p) => p.src == s ==> SameDecay(t, r) && (t.config.Some? ==> Floor(t, t.config.value, r))
    case Block(key, _, _, _) => key != s
  }

  /** A run in which s sends, in time order, at most k packets per tick. */
  ghost predicate Polite(es: seq<Event>, s: IpKey, r: RateLimitConfig, k: nat)
  {
    && Sustainable(r, k)
    && (forall i :: 0 <= i < |es| ==> Undisturbed(es[i], s, r))
    && NonDecreasing(TimesOf(es, s)) && AtMost(TimesOf(es, s), MsToNs(r.tickMs), k)
  }

  ghost predicate Clean(m: Maps, s: IpKey, r: RateLimitConfig, ts: seq<u64>)
    requires MsToNs(r.tickMs) > 0
  {
    && Unlisted(s, m) && TrustRange.InRange(m.trust)
    && CountsSome(Lookup(m.rate, s), r, ts)
    && forall d: u16 :: CountsSome(Lookup(m.ratePort, (s, d)), r, ts)
  }

  lemma CountsAfterOwn(t: Tables, p: Packet, m: Maps, m': Maps, r: RateLimitConfig, ts: seq<u64>, d: u16)
    requires MsToNs(r.tickMs) > 0 && SameDecay(t, r) && Clean(m, p.src, r, ts)
    requires NoUpdate(m, m') || OneUpdate(t, p, m, m')
    requires ts != [] ==> ts[|ts| - 1] <= p.now
    ensures CountsSome(Lookup(m'.rate, p.src), r, ts + [p.now]) && CountsSome(Lookup(m'.ratePort, (p.src, d)), r, ts + [p.now])
  {
    CountsLater(Lookup(m.rate, p.src), r, ts, p.now);
    CountsOneMore(Lookup(m.rate, p.src), r, ts, p.now);
    CountsLater(Lookup(m.ratePort, (p.src, d)), r, ts, p.now);
    CountsOneMore(Lookup(m.ratePort, (p.src, d)), r, ts, p.now);
  }

  lemma TrustAfter(t: Tables, p: Packet, m: Maps)
    requires TrustRange.InRange(m.trust)
    ensures TrustRange.InRange(Process(t, p, m).0.trust)
  {
    var es := [Arrive(t, p)];
    assert es[..0] == [] && RunAll(es[..0], m) == m;
    TrustRange.RunInRange(es, m);
  }

  lemma CleanAfterOwn(t: Tables, p: Packet, m: Maps, r: RateLimitConfig, k: nat, ts: seq<u64>)
    requires Sustainable(r, k) && Undisturbed(Arrive(t, p), p.src, r) && Clean(m, p.src, r, ts)
    requires NonDecreasing(ts + [p.now]) && AtMost(ts + [p.now], MsToNs(r.tickMs), k)
    ensures var (m', a) := Process(t, p, m);
            Clean(m', p.src, r, ts + [p.now]) && Unblamed(m.blocked, m'.blocked) && !a.Challenge?
  {
    assert ts != [] ==> (ts + [p.now])[|ts| - 1] <= (ts + [p.now])[|ts|];
    OwnIsCalm(t, p, m, r, k, ts);
    CalmPacketIsQuiet(t, p, m, r);
    EachPacketCountsOnce(t, p, m);
    TrustAfter(t, p, m);
    forall d: u16 { CountsAfterOwn(t, p, m, Process(t, p, m).0, r, ts, d); }
    CountsAfterOwn(t, p, m, Process(t, p, m).0, r, ts, 0);
  }

  lemma OwnIsCalm(t: Tables, p: Packet, m: Maps, r: RateLimitConfig, k: nat, ts: seq<u64>)
    requires Sustainable(r, k) && Undisturbed(Arrive(t, p), p.src, r) && Clean(m, p.src, r, ts)
    requires ts != [] ==> ts[|ts| - 1] <= p.now
    requires AtMost(ts + [p.now], MsToNs(r.tickMs), k)
    ensures t.config.Some? ==> Calm(t, t.config.value, p, m, r)
  {
    var s, now := p.src, p.now;
    CountsOneMore(Lookup(m.rate, s), r, ts, now);
    CountsLow(Counted(t, m.rate, s, now)[s], r, ts + [now], k);
    CountsOneMore(Lookup(m.ratePort, (s, p.dport)), r, ts, now);
    CountsLow(Counted(t, m.ratePort, (s, p.dport), now)[(s, p.dport)], r, ts + [now], k);
  }

  lemma CleanAfterOther(s: IpKey, t: Tables, p: Packet, m: Maps, r: RateLimitConfig, ts: seq<u64>)
    requires p.src != s && MsToNs(r.tickMs) > 0 && Clean(m, s, r, ts)
    ensures Clean(Process(t, p, m).0, s, r, ts)
  {
    PacketIsApart(s, t, p, m);
    EachPacketCountsOnce(t, p, m);
    TrustAfter(t, p, m);
    var m' := Process(t, p, m).0;
    assert Lookup(m'.rate, s) == Lookup(m.rate, s);
    forall d: u16 ensures CountsSome(Lookup(m'.ratePort, (s, d)), r, ts) {
      assert Lookup(m'.ratePort, (s, d)) == Lookup(m.ratePort, (s, d));
    }
  }

  lemma PolitePrefix(es: seq<Event>, s: IpKey, r: RateLimitConfig, k: nat)
    requires es != [] && Polite(es, s, r, k)
    ensures Polite(es[..|es| - 1], s, r, k)
  {
    var front, e := es[..|es| - 1], es[|es| - 1];
    if e.Arrive? && e.p.src == s {
      PoliteTimes(TimesOf(front, s), e.p.now, MsToNs(r.tickMs), k);
    } else {
      assert TimesOf(es, s) == TimesOf(front, s);
    }
  }

  lemma PoliteTimes(ts: seq<u64>, now: u64, len: nat, k: nat)
    requires NonDecreasing(ts + [now]) && AtMost(ts + [now], len, k)
    ensures NonDecreasing(ts) && AtMost(ts, len, k)
  {
    forall i, j | 0 <= i <= j < |ts| ensures ts[i] <= ts[j] { assert (ts + [now])[i] <= (ts + [now])[j]; }
    forall a: nat ensures InWindow(ts, a, len) <= k { WindowSnoc(ts, now, a, len); }
  }

  /** A polite source stays off both lists, and its counters count only its own packets. */
  lemma {:induction false} PoliteStaysClean(es: seq<Event>, m: Maps, s: IpKey, r: RateLimitConfig, k: nat)
    requires Polite(es, s, r, k) && Clean(m, s, r, [])
    ensures Clean(RunAll(es, m), s, r, TimesOf(es, s))
  {
    if es != [] {
      var front, e := es[..|es| - 1], es[|es| - 1];
      PolitePrefix(es, s, r, k);
      PoliteStaysClean(front, m, s, r, k);
      var m1, ts := RunAll(front, m), TimesOf(front, s);
      match e
      case Arrive(t, p) =>
        if p.src == s {
          assert TimesOf(es, s) == ts + [p.now];
          CleanAfterOwn(t, p, m1, r, k, ts);
        } else {
          assert TimesOf(es, s) == ts;
          CleanAfterOther(s, t, p, m1, r, ts);
        }
      case Block(key, at, durationS, reason) =>
        assert TimesOf(es, s) == ts;
    }
  }

  /**
   Main result: a source that starts unknown and sends at most k packets per tick,
   where k * den <= threshold * (den - num), is not blacklisted, not challenged and
   not dropped for its rate, in any run. With trust modulation on, the threshold is
   the one for the least trust and the greatest danger.
   */
  lemma PoliteSourceIsNeverBlocked(es: seq<Event>, t: Tables, p: Packet, m: Maps, r: RateLimitConfig, k: nat)
    requires Polite(es + [Arrive(t, p)], p.src, r, k)
    requires Unlisted(p.src, m) && p.src !in m.rate && (forall d :: (p.src, d) !in m.ratePort) && TrustRange.InRange(m.trust)
    ensures var m1 := RunAll(es, m);
            var (m2, a) := Process(t, p, m1);
            Unlisted(p.src, m2) && Unblamed(m1.blocked, m2.blocked) && !a.Challenge?
  {
    var all, s := es + [Arrive(t, p)], p.src;
    assert all[..|es|] == es;
    assert Sampled([], [], MsToNs(r.tickMs));
    assert RateCounter.Run(MsToNs(r.tickMs), r.decayNum, r.decayDen, []) == None;
    assert CountsSome(None, r, []);
    PolitePrefix(all, s, r, k);
    PoliteStaysClean(es, m, s, r, k);
    assert TimesOf(all, s) == TimesOf(es, s) + [p.now];
    assert all[|es|] == Arrive(t, p);
    CleanAfterOwn(t, p, RunAll(es, m), r, k, TimesOf(es, s));
  }
}
