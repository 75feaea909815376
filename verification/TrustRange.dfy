/**
 Trust scores stay within 0..1000 over any run, so the modulated threshold never
 exceeds the configured one and never wraps.
 */
module TrustRange {
  import opened Words
  import opened RateCounter
  import opened DataPlane
  import opened DataPlaneRuns

  ghost predicate InRange(trust: map<IpKey, TrustEntry>)
  {
    forall k :: k in trust ==> trust[k].trustScore <= TRUST_MAX
  }

  lemma RaisedInRange(e: TrustEntry, now: u64, addDivisor: u32, weight: u32)
    requires addDivisor > 0
    ensures Raised(e, now, addDivisor, weight).trustScore <= TRUST_MAX
  {
  }

  lemma LoweredInRange(e: TrustEntry, now: u64, subDivisor: u32, bonus: u32)
    requires subDivisor > 0 && e.trustScore <= TRUST_MAX
    ensures Lowered(e, now, subDivisor, bonus).trustScore <= TRUST_MAX
  {
    DivShrinks(e.trustScore, subDivisor);
  }

  lemma TrustDropInRange(m: Maps, src: IpKey, now: u64, subDivisor: u32)
    requires subDivisor > 0 && InRange(m.trust)
    ensures InRange(TrustDrop(m, src, now, subDivisor).trust)
  {
    LoweredInRange(TrustOf(m, src), now, subDivisor, 0);
    LoweredInRange(TrustOf(m, src), now, subDivisor, 15);
  }

  lemma DiscardInRange(cfg: Config, p: Packet, d: Decision)
    requires InRange(d.m.trust) && d.verdict.Discard?
    ensures InRange(Finish(cfg, p, d).m.trust)
  {
    var m := d.m.(blocked := d.verdict.blocked, totals := CountDrop(d.m.totals, p.protocol));
    TrustDropInRange(m, p.src, p.now, Max(cfg.trustSubDivisor, 1));
    assert Finish(cfg, p, d).m.trust == TrustDrop(m, p.src, p.now, Max(cfg.trustSubDivisor, 1)).trust;
  }

  lemma AcceptInRange(cfg: Config, p: Packet, d: Decision)
    requires InRange(d.m.trust) && d.verdict.Accept?
    ensures InRange(Finish(cfg, p, d).m.trust)
  {
    RaisedInRange(TrustOf(d.m, p.src), p.now, Max(cfg.trustAddDivisor, 1), 64);
  }

  lemma FinishInRange(cfg: Config, p: Packet, d: Decision)
    requires InRange(d.m.trust)
    ensures InRange(Finish(cfg, p, d).m.trust)
  {
    if d.verdict.Discard? {
      DiscardInRange(cfg, p, d);
    } else if d.verdict.Accept? {
      AcceptInRange(cfg, p, d);
    }
  }

  lemma FloodInRange(t: Tables, cfg: Config, p: Packet, m: Maps, c: Ctx, k: Flood, counts: bool, soft: bool, dport: u16)
    requires InRange(m.trust)
    ensures InRange(FloodCheck(t, cfg, p, m, c, k, counts, soft, dport).m.trust)
  {
  }

  lemma BlacklistInRange(t: Tables, cfg: Config, p: Packet, m: Maps, c: Ctx)
    requires InRange(m.trust)
    ensures InRange(BlacklistStage(t, cfg, p, m, c).m.trust)
  {
  }

  lemma RateLimitInRange(t: Tables, cfg: Config, p: Packet, m: Maps, c: Ctx)
    requires InRange(m.trust)
    ensures InRange(RateLimitStage(t, cfg, p, m, c).m.trust)
  {
  }

  lemma SynProxyLeavesTrust(t: Tables, cfg: Config, p: Packet, m: Maps, c: Ctx)
    ensures SynProxy(t, cfg, p, m, c).m.trust == m.trust
  {
  }

  lemma OtherStageLeavesTrust(i: nat, t: Tables, cfg: Config, p: Packet, m: Maps, c: Ctx)
    requires (i < 6 && i != 1) || i == 9
    ensures Stage(i, t, cfg, p, m, c).m.trust == m.trust
  {
  }

  lemma StageInRange(i: nat, t: Tables, cfg: Config, p: Packet, m: Maps, c: Ctx)
    requires i < STAGES && InRange(m.trust)
    ensures InRange(Stage(i, t, cfg, p, m, c).m.trust)
  {
    if i == 1 {
      BlacklistInRange(t, cfg, p, m, c);
    } else if i < 6 || i == 9 {
      OtherStageLeavesTrust(i, t, cfg, p, m, c);
    } else if i == 10 {
      RateLimitInRange(t, cfg, p, m, c);
    } else if i == 6 {
      SynProxyLeavesTrust(t, cfg, p, m, c);
      FloodInRange(t, cfg, p, m, c, SynF, p.IsSyn(), false, p.dport);
    } else if i == 7 {
      FloodInRange(t, cfg, p, m, c, UdpF, cfg.udpFloodEnabled, cfg.rateLimitSoft, p.dport);
    } else {
      FloodInRange(t, cfg, p, m, c, IcmpF, cfg.icmpFloodEnabled, cfg.rateLimitSoft, 0);
    }
  }

  lemma {:induction false} StagesInRange(i: nat, t: Tables, cfg: Config, p: Packet, m: Maps, c: Ctx)
    requires i <= STAGES && InRange(m.trust)
    ensures InRange(StagesFrom(i, t, cfg, p, m, c).m.trust)
    decreases STAGES - i
  {
    if i == STAGES {
      FinishInRange(cfg, p, Decision(m, c, Accept));
    } else {
      var d := Stage(i, t, cfg, p, m, c);
      StageInRange(i, t, cfg, p, m, c);
      FinishInRange(cfg, p, d);
      if d.verdict.Next? { StagesInRange(i + 1, t, cfg, p, d.m, d.c); }
    }
  }

  lemma {:induction false} RunInRange(es: seq<Event>, m: Maps)
    requires InRange(m.trust)
    ensures InRange(RunAll(es, m).trust)
  {
    if es != [] {
      var front, e := es[..|es| - 1], es[|es| - 1];
      RunInRange(front, m);
      if e.Arrive? && e.t.config.Some? {
        var m1, cfg, c := Arrived(RunAll(front, m)), e.t.config.value, Ctx(false, FLAGS_ALL);
        FinishInRange(cfg, e.p, Decision(m1, c, Accept));
        StagesInRange(0, e.t, cfg, e.p, m1, c);
      }
    }
  }

  lemma FactorsInRange(m: Maps, src: IpKey, level: u8)
    requires InRange(m.trust)
    ensures 333 <= TrustFactor(m, src) <= 1000 && 500 <= DangerFactor(level) <= 1000
  {
  }

  /** Main result: after any run, trust and danger only ever tighten a source's threshold. */
  lemma ThresholdOnlyTightens(es: seq<Event>, m: Maps, cfg: Config, src: IpKey, threshold: u64)
    requires InRange(m.trust)
    ensures Threshold(cfg, RunAll(es, m), src, threshold) <= threshold
  {
    RunInRange(es, m);
    FactorsInRange(RunAll(es, m), src, cfg.dangerLevel);
    if cfg.trustEnabled {
      ModulationTightens(threshold, TrustFactor(RunAll(es, m), src), DangerFactor(cfg.dangerLevel));
    }
  }

  // ----- Which way trust and thresholds move -----

  /** More trust means more allowance: the factor grows with the score, from a third to the whole. */
  lemma FactorGrows(m: Maps, m': Maps, src: IpKey)
    requires TrustOf(m, src).trustScore <= TrustOf(m', src).trustScore
    ensures TrustFactor(m, src) <= TrustFactor(m', src)
    ensures TrustOf(m, src).trustScore == 0 ==> TrustFactor(m, src) == 333
    ensures TrustOf(m, src).trustScore == 1000 ==> TrustFactor(m, src) == 1000
    ensures src !in m.trust ==> TrustFactor(m, src) == 666
  {
  }

  /** A higher level of danger, of the three there are, means less allowance. */
  lemma DangerShrinks(level: u8, level': u8)
    requires level <= level' <= 2
    ensures DangerFactor(level') <= DangerFactor(level)
    ensures DangerFactor(0) == 1000 && DangerFactor(1) == 750 && DangerFactor(2) == 500
  {
  }

  lemma Scaled(x: nat, f: nat, y: nat, g: nat)
    requires x <= y && f <= g
    ensures x * f / 1000 <= y * g / 1000
  {
    assert x * f <= y * g;
  }

  /** Of two sources the one with the higher score, under less danger, never has the lower threshold. */
  lemma ThresholdFollowsTrust(cfg: Config, cfg': Config, m: Maps, m': Maps, src: IpKey, threshold: u64)
    requires InRange(m.trust) && InRange(m'.trust) && threshold <= U64_MAX / 1000
    requires cfg.trustEnabled && cfg'.trustEnabled && cfg'.dangerLevel <= cfg.dangerLevel <= 2
    requires TrustOf(m, src).trustScore <= TrustOf(m', src).trustScore
    ensures Threshold(cfg, m, src, threshold) <= Threshold(cfg', m', src, threshold)
  {
    var f, f', g, g' := TrustFactor(m, src), TrustFactor(m', src), DangerFactor(cfg.dangerLevel), DangerFactor(cfg'.dangerLevel);
    FactorsInRange(m, src, cfg.dangerLevel);
    FactorsInRange(m', src, cfg'.dangerLevel);
    FactorGrows(m, m', src);
    DangerShrinks(cfg'.dangerLevel, cfg.dangerLevel);
    ModulationTightens(threshold, f, g);
    ModulationTightens(threshold, f', g');
    Scaled(threshold, f, threshold, f');
    Scaled(threshold * f / 1000, g, threshold * f' / 1000, g');
  }

  function ScoreOf(m: Maps, src: IpKey): u32 { TrustOf(m, src).trustScore }

  /** The score from which a packet starts: a lapsed block has its source start afresh. */
  function StartScore(m: Maps, p: Packet): u32
  {
    if p.src in m.blacklist && !Listed(m, p.src, p.now) then 500 else ScoreOf(m, p.src)
  }

  ghost predicate OthersKeep(m: Maps, m': Maps, src: IpKey)
  {
    forall k :: k != src ==> Lookup(m'.trust, k) == Lookup(m.trust, k)
  }

  /** A check leaves the score alone or, if it stops the packet, does not raise it. */
  ghost predicate Tends(p: Packet, m: Maps, d: Decision)
  {
    && OthersKeep(m, d.m, p.src)
    && (if d.verdict.Discard? then ScoreOf(d.m, p.src) <= ScoreOf(m, p.src) else d.m.trust == m.trust)
  }

  lemma DetectTends(t: Tables, cfg: Config, m: Maps, src: IpKey, now: u64, reason: u8, soft: bool)
    ensures var (m', over) := Detect(t, cfg, m, src, now, reason, soft);
            OthersKeep(m, m', src) && ScoreOf(m', src) <= ScoreOf(m, src) && (!over ==> m'.trust == m.trust)
  {
  }

  lemma PortRateLeavesTrust(t: Tables, cfg: Config, p: Packet, dport: u16, m: Maps, c: Ctx)
    ensures PortRateCheck(t, cfg, p, dport, m, c).m.trust == m.trust
  {
  }

  lemma FloodTends(t: Tables, cfg: Config, p: Packet, m: Maps, c: Ctx, k: Flood, counts: bool, soft: bool, dport: u16)
    ensures Tends(p, m, FloodCheck(t, cfg, p, m, c, k, counts, soft, dport))
  {
    DetectTends(t, cfg, m, p.src, p.now, FloodReason(k), soft);
    PortRateLeavesTrust(t, cfg, p, dport, m, c);
    PortRateLeavesTrust(t, cfg, p, dport, Detect(t, cfg, m, p.src, p.now, FloodReason(k), soft).0, c.(rateCounted := true));
  }

  lemma RateLimitTends(t: Tables, cfg: Config, p: Packet, m: Maps, c: Ctx)
    ensures Tends(p, m, RateLimitStage(t, cfg, p, m, c))
  {
  }

  lemma SynProxyTends(t: Tables, cfg: Config, p: Packet, m: Maps, c: Ctx)
    ensures Tends(p, m, SynProxy(t, cfg, p, m, c))
  {
  }

  lemma StageTends(i: nat, t: Tables, cfg: Config, p: Packet, m: Maps, c: Ctx)
    requires i < STAGES && i != 1
    ensures Tends(p, m, Stage(i, t, cfg, p, m, c))
  {
    if i < 6 || i == 9 {
      OtherStageLeavesTrust(i, t, cfg, p, m, c);
    } else if i == 10 {
      RateLimitTends(t, cfg, p, m, c);
    } else if i == 6 {
      SynProxyTends(t, cfg, p, m, c);
      FloodTends(t, cfg, p, m, c, SynF, p.IsSyn(), false, p.dport);
    } else if i == 7 {
      FloodTends(t, cfg, p, m, c, UdpF, cfg.udpFloodEnabled, cfg.rateLimitSoft, p.dport);
    } else {
      FloodTends(t, cfg, p, m, c, IcmpF, cfg.icmpFloodEnabled, cfg.rateLimitSoft, 0);
    }
  }

  lemma LookupTends(t: Tables, cfg: Config, p: Packet, m: Maps, c: Ctx)
    ensures var d := BlacklistStage(t, cfg, p, m, c);
            OthersKeep(m, d.m, p.src) && ScoreOf(d.m, p.src) == StartScore(m, p)
  {
  }

  lemma RaisedNotLower(e: TrustEntry, now: u64, addDivisor: u32, weight: u32)
    requires addDivisor > 0 && e.trustScore <= 1000
    ensures Raised(e, now, addDivisor, weight).trustScore >= e.trustScore
  {
  }

  lemma LoweredNotHigher(e: TrustEntry, now: u64, subDivisor: u32, bonus: u32)
    requires subDivisor > 0
    ensures Lowered(e, now, subDivisor, bonus).trustScore <= e.trustScore
  {
    DivShrinks(e.trustScore, subDivisor);
  }

  lemma TrustDropTends(m: Maps, src: IpKey, now: u64, subDivisor: u32)
    requires subDivisor > 0
    ensures var m' := TrustDrop(m, src, now, subDivisor); OthersKeep(m, m', src) && ScoreOf(m', src) <= ScoreOf(m, src)
  {
    LoweredNotHigher(TrustOf(m, src), now, subDivisor, 0);
    LoweredNotHigher(TrustOf(m, src), now, subDivisor, 15);
  }

  /** How the verdict moves the score. */
  ghost predicate Follows(src: IpKey, start: u32, m': Maps, a: Option<Action>)
  {
    match a
    case Some(Pass) => ScoreOf(m', src) >= start
    case Some(Drop) => ScoreOf(m', src) <= start
    case Some(Reset) => ScoreOf(m', src) <= start
    case _ => ScoreOf(m', src) == start
  }

  lemma DiscardFollows(cfg: Config, p: Packet, d: Decision)
    requires d.verdict.Discard?
    ensures var out := Finish(cfg, p, d);
            && OthersKeep(d.m, out.m, p.src) && ScoreOf(out.m, p.src) <= ScoreOf(d.m, p.src)
            && out.action in {Some(Drop), Some(Reset)}
  {
    var m := d.m.(blocked := d.verdict.blocked, totals := CountDrop(d.m.totals, p.protocol));
    TrustDropTends(m, p.src, p.now, Max(cfg.trustSubDivisor, 1));
    DropIsBookkeeping(cfg, p, m);
    assert Finish(cfg, p, d).m.trust == TrustDrop(m, p.src, p.now, Max(cfg.trustSubDivisor, 1)).trust;
  }

  lemma AcceptFollows(cfg: Config, p: Packet, d: Decision)
    requires d.verdict.Accept? && InRange(d.m.trust)
    ensures var out := Finish(cfg, p, d);
            && OthersKeep(d.m, out.m, p.src) && ScoreOf(out.m, p.src) >= ScoreOf(d.m, p.src)
            && out.action == Some(Pass)
  {
    RaisedNotLower(TrustOf(d.m, p.src), p.now, Max(cfg.trustAddDivisor, 1), 64);
  }

  lemma FinishFollows(cfg: Config, p: Packet, d: Decision, start: u32)
    requires InRange(d.m.trust)
    requires if d.verdict.Discard? then ScoreOf(d.m, p.src) <= start else ScoreOf(d.m, p.src) == start
    ensures var out := Finish(cfg, p, d);
            && OthersKeep(d.m, out.m, p.src) && Follows(p.src, start, out.m, out.action)
            && (d.verdict.Next? <==> out.action.None?)
  {
    match d.verdict
    case Discard(_) => DiscardFollows(cfg, p, d);
    case Accept => AcceptFollows(cfg, p, d);
    case Next => assert Finish(cfg, p, d).m == d.m;
    case Answer(_) => assert Finish(cfg, p, d).m.trust == d.m.trust;
  }

  lemma {:induction false} StagesFollow(i: nat, t: Tables, cfg: Config, p: Packet, m: Maps, c: Ctx)
    requires 2 <= i <= STAGES && InRange(m.trust)
    ensures var out := StagesFrom(i, t, cfg, p, m, c);
            out.action.Some? && OthersKeep(m, out.m, p.src) && Follows(p.src, ScoreOf(m, p.src), out.m, out.action)
    decreases STAGES - i
  {
    if i == STAGES {
      FinishFollows(cfg, p, Decision(m, c, Accept), ScoreOf(m, p.src));
    } else {
      var d := Stage(i, t, cfg, p, m, c);
      StageTends(i, t, cfg, p, m, c);
      StageInRange(i, t, cfg, p, m, c);
      FinishFollows(cfg, p, d, ScoreOf(m, p.src));
      if d.verdict.Next? { StagesFollow(i + 1, t, cfg, p, d.m, d.c); }
    }
  }

  lemma FirstTwoFollow(t: Tables, cfg: Config, p: Packet, m: Maps, c: Ctx, i: nat)
    requires i <= 1 && InRange(m.trust)
    ensures var out := StagesFrom(i, t, cfg, p, m, c);
            && out.action.Some? && OthersKeep(m, out.m, p.src)
            && (Follows(p.src, StartScore(m, p), out.m, out.action) || (i == 0 && Follows(p.src, ScoreOf(m, p.src), out.m, out.action)))
    decreases 1 - i
  {
    var d := Stage(i, t, cfg, p, m, c);
    StageInRange(i, t, cfg, p, m, c);
    if i == 0 {
      FinishFollows(cfg, p, d, ScoreOf(m, p.src));
      if d.verdict.Next? { FirstTwoFollow(t, cfg, p, m, c, 1); }
    } else {
      LookupTends(t, cfg, p, m, c);
      FinishFollows(cfg, p, d, StartScore(m, p));
      if d.verdict.Next? { StagesFollow(i + 1, t, cfg, p, d.m, d.c); }
    }
  }

  /**
   Main result: a packet moves the trust of its own source only, and by its verdict:
   never down when it passes, never up when it is dropped, and not at all when it is
   challenged. It starts from the score it has, or afresh once a block has lapsed.
   */
  lemma TrustFollowsVerdict(t: Tables, p: Packet, m: Maps)
    requires InRange(m.trust)
    ensures var (m', a) := Process(t, p, m);
            && OthersKeep(m, m', p.src)
            && (Follows(p.src, StartScore(m, p), m', Some(a)) || Follows(p.src, ScoreOf(m, p.src), m', Some(a)))
  {
    if t.config.Some? {
      var cfg, c := t.config.value, Ctx(false, FLAGS_ALL);
      FinishFollows(cfg, p, Decision(Arrived(m), c, Accept), ScoreOf(m, p.src));
      FirstTwoFollow(t, cfg, p, Arrived(m), c, 0);
    }
  }
}
