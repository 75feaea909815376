/**
 The converse of PoliteSources: over any run, a source's counter is what the
 packets counted for it make of it, and a counted packet that exceeds the
 threshold within one tick cell is dropped and its source blocked, whatever its
 trust.
 */
module FloodingSources {
  import opened Words
  import opened RateCounter
  import opened DataPlane
  import opened DataPlaneRuns
  import opened CountedOnce
  import Blocking
  import TrustRange

  /** Times of the packets of s that were counted for the source (and not for one of its ports, or not at all). */
  function CountedTimes(es: seq<Event>, m: Maps, s: IpKey): seq<u64>
  {
    if es == [] then []
    else
      var front, e := es[..|es| - 1], es[|es| - 1];
      var times := CountedTimes(front, m, s);
      if WasCounted(e, RunAll(front, m), s) then times + [e.p.now] else times
  }

  predicate WasCounted(e: Event, m: Maps, s: IpKey) { e.Arrive? && e.p.src == s && Step(e, m).rate != m.rate }

  /** Packets of s meet rate setting r. */
  ghost predicate SameSetting(es: seq<Event>, s: IpKey, r: RateLimitConfig)
  {
    forall i :: 0 <= i < |es| && es[i].Arrive? && es[i].p.src == s ==> es[i].t.rateCfg == Some(r)
  }

  lemma StepCounts(e: Event, m: Maps, s: IpKey, r: RateLimitConfig)
    requires MsToNs(r.tickMs) > 0 && (e.Arrive? && e.p.src == s ==> e.t.rateCfg == Some(r))
    ensures var rate, rate' := m.rate, Step(e, m).rate;
            Lookup(rate', s) == if WasCounted(e, m, s)
                                then Some(Bump(Lookup(rate, s), MsToNs(r.tickMs), r.decayNum, r.decayDen, e.p.now))
                                else Lookup(rate, s)
  {
    if e.Arrive? {
      EachPacketCountsOnce(e.t, e.p, m);
      var m' := Step(e, m);
      assert m'.rate == m.rate || m'.rate == Counted(e.t, m.rate, e.p.src, e.p.now);
    }
  }

  /** The counter of a source is the counter of its counted packets. */
  lemma {:induction false} CounterIsRun(es: seq<Event>, m: Maps, s: IpKey, r: RateLimitConfig)
    requires MsToNs(r.tickMs) > 0 && SameSetting(es, s, r) && s !in m.rate
    ensures Lookup(RunAll(es, m).rate, s) == RateCounter.Run(MsToNs(r.tickMs), r.decayNum, r.decayDen, CountedTimes(es, m, s))
  {
    if es != [] {
      var front, e := es[..|es| - 1], es[|es| - 1];
      CounterIsRun(front, m, s, r);
      StepCounts(e, RunAll(front, m), s, r);
      if WasCounted(e, RunAll(front, m), s) {
        RunSnoc(MsToNs(r.tickMs), r.decayNum, r.decayDen, CountedTimes(front, m, s), e.p.now);
      }
    }
  }

  /** A counter over the configured threshold is over the modulated one. */
  lemma OverIsOver(t: Tables, cfg: Config, m: Maps, src: IpKey, now: u64, r: RateLimitConfig)
    requires t.rateCfg == Some(r) && MsToNs(r.tickMs) > 0 && TrustRange.InRange(m.trust)
    requires Bump(Lookup(m.rate, src), MsToNs(r.tickMs), r.decayNum, r.decayDen, now).counter > r.threshold
    ensures UpdateRate(t, cfg, m, src, now).1
  {
    TrustRange.ThresholdOnlyTightens([], m, cfg, src, r.threshold);
    assert RunAll([], m) == m;
  }

  /** What counting the packet does when that takes the source over its threshold: it is dropped and blocked. */
  ghost predicate Blocks(t: Tables, p: Packet, m: Maps, d: Decision)
  {
    d.m.rate != m.rate ==> d.verdict.Discard? && Blocking.Held(d.m, p.src, Blocking.Penalty(t, p))
  }

  lemma FloodBlocks(t: Tables, cfg: Config, p: Packet, m: Maps, c: Ctx, k: Flood, counts: bool, dport: u16)
    requires UpdateRate(t, cfg, m, p.src, p.now).1
    ensures Blocks(t, p, m, FloodCheck(t, cfg, p, m, c, k, counts, false, dport))
  {
    FloodUpdates(t, cfg, p, m, c, k, counts, false, dport);
    Blocking.AddHolds(t, UpdateRate(t, cfg, m, p.src, p.now).0, p, FloodReason(k), p.src, 0);
  }

  lemma RateLimitBlocks(t: Tables, cfg: Config, p: Packet, m: Maps, c: Ctx)
    requires UpdateRate(t, cfg, m, p.src, p.now).1 && !cfg.rateLimitSoft
    ensures Blocks(t, p, m, RateLimitStage(t, cfg, p, m, c))
  {
    RateLimitUpdates(t, cfg, p, m, c);
    Blocking.AddHolds(t, UpdateRate(t, cfg, m, p.src, p.now).0, p, R_RATE_LIMIT, p.src, 0);
  }

  /** The packet is not left to soft limits or to the SYN proxy. */
  predicate Hard(cfg: Config, p: Packet)
  {
    !cfg.rateLimitSoft && !(cfg.synProxyEnabled && p.src.family == IPV4 && p.protocol == TCP && p.IsSyn())
  }

  lemma StageBlocks(i: nat, t: Tables, cfg: Config, p: Packet, m: Maps, c: Ctx)
    requires i < STAGES && Hard(cfg, p) && UpdateRate(t, cfg, m, p.src, p.now).1
    ensures Blocks(t, p, m, Stage(i, t, cfg, p, m, c))
  {
    if i < 6 || i == 9 {
      EarlyStageUpdatesNone(i, t, cfg, p, m, c);
    } else if i == 10 {
      RateLimitBlocks(t, cfg, p, m, c);
    } else if i == 6 {
      SynProxyUpdates(t, cfg, p, m, c);
      FloodBlocks(t, cfg, p, m, c, SynF, p.IsSyn(), p.dport);
    } else if i == 7 {
      FloodBlocks(t, cfg, p, m, c, UdpF, cfg.udpFloodEnabled, p.dport);
    } else {
      FloodBlocks(t, cfg, p, m, c, IcmpF, cfg.icmpFloodEnabled, 0);
    }
  }

  /** One more packet counted for the source takes it over the configured threshold. */
  ghost predicate Over(t: Tables, p: Packet, m: Maps, r: RateLimitConfig)
    requires MsToNs(r.tickMs) > 0
  {
    && t.rateCfg == Some(r) && TrustRange.InRange(m.trust)
    && Bump(Lookup(m.rate, p.src), MsToNs(r.tickMs), r.decayNum, r.decayDen, p.now).counter > r.threshold
  }

  lemma {:induction false} StagesBlock(i: nat, t: Tables, cfg: Config, p: Packet, m: Maps, c: Ctx, r: RateLimitConfig)
    requires i <= STAGES && Hard(cfg, p) && MsToNs(r.tickMs) > 0 && Over(t, p, m, r)
    ensures var out := StagesFrom(i, t, cfg, p, m, c);
            out.m.rate != m.rate ==>
              out.action in {Some(Drop), Some(Reset)} && Blocking.Held(out.m, p.src, Blocking.Penalty(t, p))
    decreases STAGES - i
  {
    if i == STAGES {
      FinishLeavesRates(cfg, p, Decision(m, c, Accept));
    } else {
      var d := Stage(i, t, cfg, p, m, c);
      OverIsOver(t, cfg, m, p.src, p.now, r);
      StageBlocks(i, t, cfg, p, m, c);
      FinishLeavesRates(cfg, p, d);
      if d.verdict.Next? {
        TrustRange.StageInRange(i, t, cfg, p, m, c);
        StagesBlock(i + 1, t, cfg, p, d.m, d.c, r);
      }
    }
  }

  /**
   Main result: after any run, a packet that is counted for its source, and takes
   the counted packets of its tick cell over the threshold, is dropped, and the
   source is blocked for the configured time, whatever its trust.
   */
  lemma FloodIsBlocked(es: seq<Event>, m0: Maps, t: Tables, p: Packet, r: RateLimitConfig)
    requires MsToNs(r.tickMs) > 0 && r.threshold < U64_MAX && SameSetting(es, p.src, r) && t.rateCfg == Some(r)
    requires p.src !in m0.rate && TrustRange.InRange(m0.trust)
    requires t.config.Some? && Hard(t.config.value, p) && WasCounted(Arrive(t, p), RunAll(es, m0), p.src)
    requires var times := CountedTimes(es, m0, p.src) + [p.now];
             NonDecreasing(times) && CountInCell(times, times[0], MsToNs(r.tickMs), Cell(times[0], MsToNs(r.tickMs), times[|times| - 1])) > r.threshold
    ensures var (m2, a) := Process(t, p, RunAll(es, m0));
            a in {Drop, Reset} && Blocking.Held(m2, p.src, Blocking.Penalty(t, p))
  {
    var tick, us, m := MsToNs(r.tickMs), CountedTimes(es, m0, p.src), RunAll(es, m0);
    CounterIsRun(es, m0, p.src, r);
    RunSnoc(tick, r.decayNum, r.decayDen, us, p.now);
    FloodIsFlagged(tick, r.decayNum, r.decayDen, r.threshold, us + [p.now]);
    TrustRange.RunInRange(es, m0);
    var cfg, c := t.config.value, Ctx(false, FLAGS_ALL);
    FinishLeavesRates(cfg, p, Decision(Arrived(m), c, Accept));
    StagesBlock(0, t, cfg, p, Arrived(m), c, r);
  }
}
