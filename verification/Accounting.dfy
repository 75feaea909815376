/**
 Accounting: every packet ends in exactly one of the counters for passed and
 dropped packets or in a SYN challenge, and the per-protocol drop counters add
 up to the total, over any run.
 */
module Accounting {
  import opened Words
  import opened DataPlane
  import opened DataPlaneRuns

  function CountPass(s: Totals): Totals { s.(totalPassed := s.totalPassed + 1) }

  /** What a verdict (or none yet) means for the counters. Only a SYN that cannot be challenged for want of a key passes and counts as dropped. */
  ghost predicate Settles(t: Tables, p: Packet, s: Totals, s': Totals, a: Option<Action>)
  {
    match a
    case None => s' == s
    case Some(Challenge(_)) => s' == s
    case Some(Pass) => s' == CountPass(s) || (t.secrets.None? && p.IsSyn() && s' == CountDrop(s, p.protocol))
    case _ => s' == CountDrop(s, p.protocol)
  }

  /** A check leaves the totals to whoever carries out its decision, and answers only SYNs. */
  ghost predicate LeavesTotals(t: Tables, p: Packet, m: Maps, d: Decision)
  {
    && d.m.totals == m.totals
    && (d.verdict.Answer? ==> p.IsSyn() && p.protocol == TCP && !d.verdict.action.Reset?)
    && (d.verdict == Answer(Pass) ==> t.secrets.None?)
  }

  lemma FloodLeavesTotals(t: Tables, cfg: Config, p: Packet, m: Maps, c: Ctx, k: Flood, counts: bool, soft: bool, dport: u16)
    ensures LeavesTotals(t, p, m, FloodCheck(t, cfg, p, m, c, k, counts, soft, dport))
  {
  }

  lemma SynProxyLeavesTotals(t: Tables, cfg: Config, p: Packet, m: Maps, c: Ctx)
    requires p.protocol == TCP
    ensures LeavesTotals(t, p, m, SynProxy(t, cfg, p, m, c))
  {
  }

  lemma RateLimitLeavesTotals(t: Tables, cfg: Config, p: Packet, m: Maps, c: Ctx)
    ensures LeavesTotals(t, p, m, RateLimitStage(t, cfg, p, m, c))
  {
  }

  lemma EarlyStageLeavesTotals(i: nat, t: Tables, cfg: Config, p: Packet, m: Maps, c: Ctx)
    requires i < 6
    ensures LeavesTotals(t, p, m, Stage(i, t, cfg, p, m, c))
  {
  }

  lemma StageLeavesTotals(i: nat, t: Tables, cfg: Config, p: Packet, m: Maps, c: Ctx)
    requires i < STAGES
    ensures LeavesTotals(t, p, m, Stage(i, t, cfg, p, m, c))
  {
    if i < 6 {
      EarlyStageLeavesTotals(i, t, cfg, p, m, c);
    } else if i == 6 {
      if p.protocol == TCP { SynProxyLeavesTotals(t, cfg, p, m, c); }
      FloodLeavesTotals(t, cfg, p, m, c, SynF, p.IsSyn(), false, p.dport);
    } else if i == 7 {
      FloodLeavesTotals(t, cfg, p, m, c, UdpF, cfg.udpFloodEnabled, cfg.rateLimitSoft, p.dport);
    } else if i == 8 {
      FloodLeavesTotals(t, cfg, p, m, c, IcmpF, cfg.icmpFloodEnabled, cfg.rateLimitSoft, 0);
    } else if i == 10 {
      RateLimitLeavesTotals(t, cfg, p, m, c);
    }
  }

  lemma FinishSettles(t: Tables, cfg: Config, p: Packet, d: Decision)
    requires d.verdict.Answer? ==> p.IsSyn() && p.protocol == TCP && !d.verdict.action.Reset?
    requires d.verdict == Answer(Pass) ==> t.secrets.None?
    ensures var out := Finish(cfg, p, d);
            Settles(t, p, d.m.totals, out.m.totals, out.action) && (out.action.None? <==> d.verdict.Next?)
  {
    match d.verdict
    case Discard(b) => DropIsBookkeeping(cfg, p, d.m.(blocked := b, totals := CountDrop(d.m.totals, p.protocol)));
    case Accept => PassIsBookkeeping(cfg, p, d.m);
    case _ =>
  }

  lemma {:induction false} StagesSettle(i: nat, t: Tables, cfg: Config, p: Packet, m: Maps, c: Ctx)
    requires i <= STAGES
    ensures var out := StagesFrom(i, t, cfg, p, m, c); out.action.Some? && Settles(t, p, m.totals, out.m.totals, out.action)
    decreases STAGES - i
  {
    if i == STAGES {
      FinishSettles(t, cfg, p, Decision(m, c, Accept));
    } else {
      StageLeavesTotals(i, t, cfg, p, m, c);
      var d := Stage(i, t, cfg, p, m, c);
      FinishSettles(t, cfg, p, d);
      StagesSettle(i + 1, t, cfg, p, d.m, d.c);
    }
  }

  /** Each packet is counted once in total and settled by its verdict; without a configuration it is only counted. */
  lemma EachPacketIsSettled(t: Tables, p: Packet, m: Maps)
    ensures var (m', a) := Process(t, p, m);
            var s := Arrived(m).totals;
            if t.config.None? then m'.totals == s && a == Pass else Settles(t, p, s, m'.totals, Some(a))
  {
    if t.config.Some? {
      var cfg := t.config.value;
      var m1 := Arrived(m);
      FinishSettles(t, cfg, p, Decision(m1, Ctx(false, FLAGS_ALL), Accept));
      StagesSettle(0, t, cfg, p, m1, Ctx(false, FLAGS_ALL));
    }
  }

  /** A SYN that is well formed for a challenge, when no cookie secret is loaded. */
  predicate Unkeyed(t: Tables, p: Packet)
  {
    && p.IsSyn() && t.secrets.None?
    && p.ipHdrLen == 20 && 20 <= p.tcpHdrLen <= 60 && p.ipTotLen == p.ipHdrLen + p.tcpHdrLen
    && (p.tcpHdrLen == 24 ==> p.optionsReadable)
  }

  /** Exactly when verdict and counter disagree: the SYN of a challenged source passes, yet counts as dropped. */
  lemma PassCountsAsDropIff(t: Tables, cfg: Config, p: Packet, m: Maps, c: Ctx)
    ensures var out := Finish(cfg, p, SynProxy(t, cfg, p, m, c));
            out.action == Some(Pass) && out.m.totals.totalDropped == m.totals.totalDropped + 1
            <==> Unkeyed(t, p) && IsChallengedOrTrigger(t, cfg, m, p.src, p.now).1
  {
    var d := SynProxy(t, cfg, p, m, c);
    if d.verdict.Accept? { PassIsBookkeeping(cfg, p, d.m); }
  }

  // ----- Runs -----

  /** Packets of the run that were answered with a SYN challenge. */
  function Challenges(es: seq<Event>, m: Maps): nat
  {
    if es == [] then 0
    else
      var front, e := es[..|es| - 1], es[|es| - 1];
      Challenges(front, m) + if e.Arrive? && Process(e.t, e.p, RunAll(front, m)).1.Challenge? then 1 else 0
  }

  /** Packets of the run for which `counts` holds. */
  function Arrivals(es: seq<Event>, counts: Event -> bool): nat
  {
    if es == [] then 0
    else
      var e := es[|es| - 1];
      Arrivals(es[..|es| - 1], counts) + if e.Arrive? && counts(e) then 1 else 0
  }

  function Any(): Event -> bool { (e: Event) => true }
  function Unconfigured(): Event -> bool { (e: Event) => e.Arrive? && e.t.config.None? }

  function ProtocolDrops(s: Totals): nat { s.tcpDropped + s.udpDropped + s.icmpDropped + s.otherDropped }

  /**
   Main result: over any run, the packets counted are the packets that arrived,
   and each was passed, dropped, challenged, or met no configuration; the four
   protocol counters grow exactly as the total of drops does.
   */
  lemma {:induction false} PacketsAreConserved(es: seq<Event>, m: Maps)
    ensures var s, s' := m.totals, RunAll(es, m).totals;
            && s'.totalPackets - s.totalPackets == Arrivals(es, Any())
            && s'.totalPackets - s.totalPackets
               == (s'.totalPassed - s.totalPassed) + (s'.totalDropped - s.totalDropped) + Challenges(es, m) + Arrivals(es, Unconfigured())
            && ProtocolDrops(s') - ProtocolDrops(s) == s'.totalDropped - s.totalDropped
  {
    if es != [] {
      var front, e := es[..|es| - 1], es[|es| - 1];
      PacketsAreConserved(front, m);
      if e.Arrive? {
        EachPacketIsSettled(e.t, e.p, RunAll(front, m));
        SettlingAddsOne(e.t, e.p, RunAll(front, m));
      }
    }
  }

  lemma SettlingAddsOne(t: Tables, p: Packet, m: Maps)
    ensures var (m', a) := Process(t, p, m);
            var s, s' := m.totals, m'.totals;
            && s'.totalPackets == s.totalPackets + 1
            && (s'.totalPassed - s.totalPassed) + (s'.totalDropped - s.totalDropped)
               == (if t.config.None? || a.Challenge? then 0 else 1)
            && ProtocolDrops(s') - ProtocolDrops(s) == s'.totalDropped - s.totalDropped
            && (t.config.None? ==> !a.Challenge?)
  {
    EachPacketIsSettled(t, p, m);
  }
}
