/**
 Per-source rates across the whole pipeline: whatever checks a packet goes
 through, it updates at most one rate counter, and that one once.
 */
module CountedOnce {
  import opened Words
  import opened DataPlane
  import opened DataPlaneRuns

  /** The check that counts packets of this protocol for itself. */
  function Own(p: Packet): nat { if p.protocol == TCP then 6 else if p.protocol == UDP then 7 else 8 }

  ghost predicate NoUpdate(m: Maps, m': Maps) { m'.rate == m.rate && m'.ratePort == m.ratePort }

  /** One more packet was counted, either for the source or for the source and port. */
  ghost predicate OneUpdate(t: Tables, p: Packet, m: Maps, m': Maps)
  {
    || (m'.rate == Counted(t, m.rate, p.src, p.now) && m'.ratePort == m.ratePort)
    || (m'.rate == m.rate && m'.ratePort == Counted(t, m.ratePort, (p.src, p.dport), p.now))
  }

  /** A check counts only if none has, and then says so, unless it is the last. */
  ghost predicate CountsOnce(i: nat, t: Tables, p: Packet, m: Maps, c: Ctx, d: Decision)
  {
    && (NoUpdate(m, d.m) || (OneUpdate(t, p, m, d.m) && !c.rateCounted && (d.c.rateCounted || i == STAGES - 1)))
    && (c.rateCounted ==> d.c.rateCounted)
    && (d.c.rateCounted ==> c.rateCounted || i == Own(p))
  }

  lemma FloodUpdates(t: Tables, cfg: Config, p: Packet, m: Maps, c: Ctx, k: Flood, counts: bool, soft: bool, dport: u16)
    ensures var d := FloodCheck(t, cfg, p, m, c, k, counts, soft, dport);
            && (d.m.rate == if counts then Counted(t, m.rate, p.src, p.now) else m.rate)
            && d.m.ratePort == m.ratePort
            && d.c.rateCounted == (counts || c.rateCounted)
  {
  }

  lemma SynProxyUpdates(t: Tables, cfg: Config, p: Packet, m: Maps, c: Ctx)
    ensures var d := SynProxy(t, cfg, p, m, c);
            && (d.m.rate == m.rate || (p.IsSyn() && d.m.rate == Counted(t, m.rate, p.src, p.now)))
            && d.m.ratePort == m.ratePort
            && d.c.rateCounted == (p.IsSyn() || c.rateCounted)
  {
  }

  lemma RateLimitUpdates(t: Tables, cfg: Config, p: Packet, m: Maps, c: Ctx)
    ensures var d := RateLimitStage(t, cfg, p, m, c);
            var counts := Has(c.flags, M_RATE_LIMIT) && !c.rateCounted && cfg.rateLimitEnabled;
            && (d.m.rate == if counts && !cfg.dportGrouping then Counted(t, m.rate, p.src, p.now) else m.rate)
            && (d.m.ratePort == if counts && cfg.dportGrouping then Counted(t, m.ratePort, (p.src, p.dport), p.now) else m.ratePort)
            && d.c == c
  {
  }

  lemma EarlyStageUpdatesNone(i: nat, t: Tables, cfg: Config, p: Packet, m: Maps, c: Ctx)
    requires i < 6 || i == 9
    ensures var d := Stage(i, t, cfg, p, m, c); d.m.rate == m.rate && d.m.ratePort == m.ratePort && d.c.rateCounted == c.rateCounted
  {
  }

  lemma TcpCountsOnce(t: Tables, cfg: Config, p: Packet, m: Maps, c: Ctx)
    requires !c.rateCounted && Own(p) == 6
    ensures CountsOnce(6, t, p, m, c, TcpStage(t, cfg, p, m, c))
  {
    SynProxyUpdates(t, cfg, p, m, c);
    FloodUpdates(t, cfg, p, m, c, SynF, p.IsSyn(), false, p.dport);
  }

  lemma StageCountsOnce(i: nat, t: Tables, cfg: Config, p: Packet, m: Maps, c: Ctx)
    requires i < STAGES && (c.rateCounted ==> i > Own(p))
    ensures CountsOnce(i, t, p, m, c, Stage(i, t, cfg, p, m, c))
  {
    if i < 6 || i == 9 {
      EarlyStageUpdatesNone(i, t, cfg, p, m, c);
    } else if i == 10 {
      RateLimitUpdates(t, cfg, p, m, c);
    } else if i == Own(p) {
      if i == 6 {
        TcpCountsOnce(t, cfg, p, m, c);
      } else if i == 7 {
        FloodUpdates(t, cfg, p, m, c, UdpF, cfg.udpFloodEnabled, cfg.rateLimitSoft, p.dport);
      } else {
        FloodUpdates(t, cfg, p, m, c, IcmpF, cfg.icmpFloodEnabled, cfg.rateLimitSoft, 0);
      }
    }
  }

  lemma FinishLeavesRates(cfg: Config, p: Packet, d: Decision)
    ensures var out := Finish(cfg, p, d);
            && NoUpdate(d.m, out.m) && out.m.blacklist == d.m.blacklist && out.m.challenged == d.m.challenged
            && (d.verdict.Next? <==> out.action.None?)
            && (d.verdict.Accept? || d.verdict.Next? ==> out.m.blocked == d.m.blocked)
            && (d.verdict.Accept? ==> out.action == Some(Pass))
            && (d.verdict.Discard? ==> out.m.blocked == d.verdict.blocked && out.action.value in {Drop, Reset})
  {
    match d.verdict
    case Discard(b) => DropIsBookkeeping(cfg, p, d.m.(blocked := b, totals := CountDrop(d.m.totals, p.protocol)));
    case Accept => PassIsBookkeeping(cfg, p, d.m);
    case _ =>
  }

  lemma ThenOnce(i: nat, t: Tables, p: Packet, m: Maps, c: Ctx, d: Decision, m': Maps)
    requires CountsOnce(i, t, p, m, c, d)
    requires NoUpdate(d.m, m') || (i < STAGES - 1 && !d.c.rateCounted && OneUpdate(t, p, d.m, m'))
    ensures NoUpdate(m, m') || (!c.rateCounted && OneUpdate(t, p, m, m'))
  {
  }

  lemma {:induction false} StagesCountOnce(i: nat, t: Tables, cfg: Config, p: Packet, m: Maps, c: Ctx)
    requires i <= STAGES && (c.rateCounted ==> i > Own(p))
    ensures var m' := StagesFrom(i, t, cfg, p, m, c).m;
            NoUpdate(m, m') || (i < STAGES && !c.rateCounted && OneUpdate(t, p, m, m'))
    decreases STAGES - i
  {
    if i == STAGES {
      FinishLeavesRates(cfg, p, Decision(m, c, Accept));
    } else {
      var d := Stage(i, t, cfg, p, m, c);
      StageCountsOnce(i, t, cfg, p, m, c);
      FinishLeavesRates(cfg, p, d);
      if d.verdict.Next? { StagesCountOnce(i + 1, t, cfg, p, d.m, d.c); }
      ThenOnce(i, t, p, m, c, d, StagesFrom(i, t, cfg, p, m, c).m);
    }
  }

  /** Main result: whatever checks it goes through, a packet is counted at most once. */
  lemma EachPacketCountsOnce(t: Tables, p: Packet, m: Maps)
    ensures var m' := Process(t, p, m).0; NoUpdate(m, m') || OneUpdate(t, p, m, m')
  {
    if t.config.Some? {
      FinishLeavesRates(t.config.value, p, Decision(Arrived(m), Ctx(false, FLAGS_ALL), Accept));
      StagesCountOnce(0, t, t.config.value, p, Arrived(m), Ctx(false, FLAGS_ALL));
    }
  }
}
