/**
 The port limit through the whole pipeline: of the packets of one protocol and
 port that reach their port check, in any stretch of a run no more are handed on
 than the limit allows, and one is refused only if too many came in its window.
 */
module PortLimits {
  import opened Words
  import opened RateCounter
  import PR = PortRate
  import opened DataPlane
  import opened DataPlaneRuns
  import opened CountedOnce

  /** The key a packet is counted under: fragments and ICMP have no port. */
  function PortKey(p: Packet): (u8, u16)
  {
    (p.protocol, if p.fragment || p.protocol == ICMP || p.protocol == ICMPV6 then 0 else p.dport)
  }

  /** The one check that may count the packet. */
  function PortCheckOf(p: Packet): nat { if p.fragment then 2 else Own(p) }

  function Refusals(b: Blocked): nat { b.portRateBlocked + b.fragmentBlocked }

  // ----- One check -----

  /** The check does not count, and if it may not, it refuses nothing for the port's sake. */
  ghost predicate LeavesPorts(m: Maps, d: Decision, here: bool)
  {
    d.m.portRate == m.portRate && (!here && d.verdict.Discard? ==> Refusals(d.verdict.blocked) == Refusals(m.blocked))
  }

  /** The check counts, and refuses exactly what is over the limit. */
  ghost predicate CountsPort(t: Tables, p: Packet, m: Maps, d: Decision)
  {
    && d.m.portRate == PortWindow(t, m, PortKey(p), p.now)
    && (if PortExceeded(t, m, PortKey(p), p.now)
        then d.verdict.Discard? && Refusals(d.verdict.blocked) == Refusals(m.blocked) + 1
        else d.verdict.Next?)
  }

  ghost predicate Ports(t: Tables, p: Packet, m: Maps, d: Decision, here: bool)
  {
    d.m.blocked == m.blocked && (LeavesPorts(m, d, here) || (here && CountsPort(t, p, m, d)))
  }

  lemma PortRatePorts(t: Tables, cfg: Config, p: Packet, m: Maps, c: Ctx)
    ensures var d := PortRateCheck(t, cfg, p, PortKey(p).1, m, c);
            d.m.blocked == m.blocked && (if cfg.portRateEnabled then CountsPort(t, p, m, d) else LeavesPorts(m, d, true))
  {
  }

  lemma FloodPorts(t: Tables, cfg: Config, p: Packet, m: Maps, c: Ctx, k: Flood, counts: bool, soft: bool, dport: u16)
    requires dport == PortKey(p).1
    ensures Ports(t, p, m, FloodCheck(t, cfg, p, m, c, k, counts, soft, dport), true)
  {
    var m1 := if counts then Detect(t, cfg, m, p.src, p.now, FloodReason(k), soft).0 else m;
    PortRatePorts(t, cfg, p, m1, if counts then c.(rateCounted := true) else c);
  }

  lemma SynProxyPorts(t: Tables, cfg: Config, p: Packet, m: Maps, c: Ctx)
    ensures var d := SynProxy(t, cfg, p, m, c); d.m.portRate == m.portRate && d.m.blocked == m.blocked && !d.verdict.Discard?
  {
  }

  lemma RateLimitPorts(t: Tables, cfg: Config, p: Packet, m: Maps, c: Ctx)
    ensures var d := RateLimitStage(t, cfg, p, m, c);
            LeavesPorts(m, d, false) && d.m.blocked == m.blocked
  {
  }

  lemma FragmentPorts(t: Tables, cfg: Config, p: Packet, m: Maps, c: Ctx)
    ensures Ports(t, p, m, FragmentStage(t, cfg, p, m, c), p.fragment)
  {
  }

  lemma OtherPorts(i: nat, t: Tables, cfg: Config, p: Packet, m: Maps, c: Ctx)
    requires (i < 6 && i != 2) || i == 9
    ensures var d := Stage(i, t, cfg, p, m, c);
            LeavesPorts(m, d, false) && d.m.blocked == m.blocked
  {
  }

  lemma SkippedFlood(i: nat, t: Tables, cfg: Config, p: Packet, m: Maps, c: Ctx)
    requires 6 <= i <= 8 && i != PortCheckOf(p)
    ensures Stage(i, t, cfg, p, m, c) == Decision(m, c, Next)
  {
  }

  lemma TcpPorts(t: Tables, cfg: Config, p: Packet, m: Maps, c: Ctx)
    requires p.protocol == TCP && !p.fragment
    ensures Ports(t, p, m, TcpStage(t, cfg, p, m, c), true)
  {
    if p.src.family == IPV4 && cfg.synProxyEnabled {
      SynProxyPorts(t, cfg, p, m, c);
    } else {
      FloodPorts(t, cfg, p, m, c, SynF, p.IsSyn(), false, p.dport);
    }
  }

  lemma UdpPorts(t: Tables, cfg: Config, p: Packet, m: Maps, c: Ctx)
    requires p.protocol == UDP && !p.fragment
    ensures Ports(t, p, m, UdpStage(t, cfg, p, m, c), true)
  {
    FloodPorts(t, cfg, p, m, c, UdpF, cfg.udpFloodEnabled, cfg.rateLimitSoft, p.dport);
  }

  lemma IcmpPorts(t: Tables, cfg: Config, p: Packet, m: Maps, c: Ctx)
    requires p.protocol != TCP && p.protocol != UDP && !p.fragment
    ensures Ports(t, p, m, IcmpStage(t, cfg, p, m, c), true)
  {
    if p.protocol == ICMP || p.protocol == ICMPV6 {
      FloodPorts(t, cfg, p, m, c, IcmpF, cfg.icmpFloodEnabled, cfg.rateLimitSoft, 0);
    }
  }

  lemma OwnPorts(i: nat, t: Tables, cfg: Config, p: Packet, m: Maps, c: Ctx)
    requires 6 <= i <= 8 && i == PortCheckOf(p)
    ensures Ports(t, p, m, Stage(i, t, cfg, p, m, c), true)
  {
    if p.protocol == TCP {
      TcpPorts(t, cfg, p, m, c);
    } else if p.protocol == UDP {
      UdpPorts(t, cfg, p, m, c);
    } else {
      IcmpPorts(t, cfg, p, m, c);
    }
  }

  lemma {:induction false} StagePorts(i: nat, t: Tables, cfg: Config, p: Packet, m: Maps, c: Ctx)
    requires i < STAGES
    ensures Ports(t, p, m, Stage(i, t, cfg, p, m, c), i == PortCheckOf(p))
  {
    if i == 2 {
      FragmentPorts(t, cfg, p, m, c);
    } else if i < 6 || i == 9 {
      OtherPorts(i, t, cfg, p, m, c);
    } else if i == 10 {
      RateLimitPorts(t, cfg, p, m, c);
    } else if i == PortCheckOf(p) {
      OwnPorts(i, t, cfg, p, m, c);
    } else {
      SkippedFlood(i, t, cfg, p, m, c);
    }
  }

  // ----- One packet -----

  lemma FinishPorts(cfg: Config, p: Packet, d: Decision)
    ensures var out := Finish(cfg, p, d);
            && out.m.portRate == d.m.portRate
            && Refusals(out.m.blocked) == Refusals(if d.verdict.Discard? then d.verdict.blocked else d.m.blocked)
            && (d.verdict.Next? <==> out.action.None?) && (d.verdict.Discard? ==> out.action.value in {Drop, Reset})
  {
    match d.verdict
    case Discard(b) => DropIsBookkeeping(cfg, p, d.m.(blocked := b, totals := CountDrop(d.m.totals, p.protocol)));
    case Accept => PassIsBookkeeping(cfg, p, d.m);
    case _ =>
  }

  /** What the packet does to the ports: nothing, or it is counted and refused exactly if that is over the limit. */
  ghost predicate PortOutcome(t: Tables, p: Packet, m: Maps, m': Maps, a: Action)
  {
    || m'.portRate == m.portRate
    || (&& m'.portRate == PortWindow(t, m, PortKey(p), p.now)
        && (if PortExceeded(t, m, PortKey(p), p.now) then Refused(m, m') && a in {Drop, Reset} else !Refused(m, m')))
  }

  ghost predicate Refused(m: Maps, m': Maps) { Refusals(m'.blocked) > Refusals(m.blocked) }

  lemma {:induction false} PastPorts(i: nat, t: Tables, cfg: Config, p: Packet, m: Maps, c: Ctx)
    requires PortCheckOf(p) < i <= STAGES
    ensures var out := StagesFrom(i, t, cfg, p, m, c);
            out.m.portRate == m.portRate && Refusals(out.m.blocked) == Refusals(m.blocked)
    decreases STAGES - i
  {
    if i == STAGES {
      FinishPorts(cfg, p, Decision(m, c, Accept));
    } else {
      var d := Stage(i, t, cfg, p, m, c);
      StagePorts(i, t, cfg, p, m, c);
      FinishPorts(cfg, p, d);
      if d.verdict.Next? { PastPorts(i + 1, t, cfg, p, d.m, d.c); }
    }
  }

  lemma HereOrOn(t: Tables, cfg: Config, p: Packet, m: Maps, d: Decision, m': Maps, a: Action, here: bool)
    requires Ports(t, p, m, d, here)
    requires d.verdict.Discard? ==> m'.portRate == d.m.portRate && Refusals(m'.blocked) == Refusals(d.verdict.blocked) && a in {Drop, Reset}
    requires !d.verdict.Discard? && (here || !d.verdict.Next?) ==> m'.portRate == d.m.portRate && Refusals(m'.blocked) == Refusals(d.m.blocked)
    requires !here && d.verdict.Next? ==> PortOutcome(t, p, d.m, m', a)
    ensures PortOutcome(t, p, m, m', a)
  {
  }

  lemma {:induction false} StagesPorts(i: nat, t: Tables, cfg: Config, p: Packet, m: Maps, c: Ctx)
    requires i <= PortCheckOf(p)
    ensures var out := StagesFrom(i, t, cfg, p, m, c);
            out.action.Some? && PortOutcome(t, p, m, out.m, out.action.value)
    decreases STAGES - i
  {
    var d := Stage(i, t, cfg, p, m, c);
    StagePorts(i, t, cfg, p, m, c);
    FinishPorts(cfg, p, d);
    SomeVerdict(i, t, cfg, p, m, c);
    if d.verdict.Next? {
      if i < PortCheckOf(p) {
        StagesPorts(i + 1, t, cfg, p, d.m, d.c);
      } else {
        PastPorts(i + 1, t, cfg, p, d.m, d.c);
      }
    }
    var out := StagesFrom(i, t, cfg, p, m, c);
    HereOrOn(t, cfg, p, m, d, out.m, out.action.value, i == PortCheckOf(p));
  }

  lemma {:induction false} SomeVerdict(i: nat, t: Tables, cfg: Config, p: Packet, m: Maps, c: Ctx)
    requires i <= STAGES
    ensures StagesFrom(i, t, cfg, p, m, c).action.Some?
    decreases STAGES - i
  {
    if i < STAGES {
      var d := Stage(i, t, cfg, p, m, c);
      SomeVerdict(i + 1, t, cfg, p, d.m, d.c);
    }
  }

  lemma EachPacketMeetsItsPort(t: Tables, p: Packet, m: Maps)
    ensures var (m', a) := Process(t, p, m); PortOutcome(t, p, m, m', a)
  {
    if t.config.Some? {
      var cfg, c := t.config.value, Ctx(false, FLAGS_ALL);
      FinishPorts(cfg, p, Decision(Arrived(m), c, Accept));
      StagesPorts(0, t, cfg, p, Arrived(m), c);
    }
  }

  // ----- Nothing gets past uncounted -----

  predicate HasPortCheck(cfg: Config, p: Packet)
  {
    && cfg.portRateEnabled && !p.fragment && p.protocol in {TCP, UDP, ICMP, ICMPV6}
    && !(p.protocol == TCP && p.src.family == IPV4 && cfg.synProxyEnabled)
    && !(cfg.projectEnabled && p.src.family == IPV4)
  }

  lemma OwnCounts(t: Tables, cfg: Config, p: Packet, m: Maps, c: Ctx)
    requires HasPortCheck(cfg, p) && c.flags == FLAGS_ALL
    ensures var d := Stage(Own(p), t, cfg, p, m, c);
            d.verdict.Discard? || (d.verdict.Next? && d.m.portRate == PortWindow(t, m, PortKey(p), p.now))
  {
    AllFlags();
    if p.protocol == TCP {
      FloodCounts(t, cfg, p, m, c, SynF, p.IsSyn(), false, p.dport);
    } else if p.protocol == UDP {
      FloodCounts(t, cfg, p, m, c, UdpF, cfg.udpFloodEnabled, cfg.rateLimitSoft, p.dport);
    } else {
      FloodCounts(t, cfg, p, m, c, IcmpF, cfg.icmpFloodEnabled, cfg.rateLimitSoft, 0);
    }
  }

  lemma AllFlags()
    ensures Has(FLAGS_ALL, M_SYN_FLOOD) && Has(FLAGS_ALL, M_UDP_FLOOD) && Has(FLAGS_ALL, M_ICMP_FLOOD)
  {
  }

  lemma FloodCounts(t: Tables, cfg: Config, p: Packet, m: Maps, c: Ctx, k: Flood, counts: bool, soft: bool, dport: u16)
    requires cfg.portRateEnabled && dport == PortKey(p).1
    ensures var d := FloodCheck(t, cfg, p, m, c, k, counts, soft, dport);
            d.verdict.Discard? || (d.verdict.Next? && d.m.portRate == PortWindow(t, m, PortKey(p), p.now))
  {
    var m1 := if counts then Detect(t, cfg, m, p.src, p.now, FloodReason(k), soft).0 else m;
    PortRatePorts(t, cfg, p, m1, if counts then c.(rateCounted := true) else c);
  }

  lemma EarlyHandsOn(i: nat, t: Tables, cfg: Config, p: Packet, m: Maps, c: Ctx)
    requires i < 6 && HasPortCheck(cfg, p)
    ensures var d := Stage(i, t, cfg, p, m, c);
            d.verdict.Discard? || (d.verdict.Next? && d.m.portRate == m.portRate && d.c == c)
  {
  }

  lemma {:induction false} StagesCountPort(i: nat, t: Tables, cfg: Config, p: Packet, m: Maps, c: Ctx)
    requires i <= Own(p) && HasPortCheck(cfg, p) && c.flags == FLAGS_ALL
    ensures var out := StagesFrom(i, t, cfg, p, m, c);
            out.action in {Some(Drop), Some(Reset)} || out.m.portRate == PortWindow(t, m, PortKey(p), p.now)
    decreases STAGES - i
  {
    var d := Stage(i, t, cfg, p, m, c);
    FinishPorts(cfg, p, d);
    if i == Own(p) {
      OwnCounts(t, cfg, p, m, c);
      if d.verdict.Next? { PastPorts(i + 1, t, cfg, p, d.m, d.c); }
    } else {
      if i < 6 { EarlyHandsOn(i, t, cfg, p, m, c); } else { SkippedFlood(i, t, cfg, p, m, c); }
      if d.verdict.Next? { StagesCountPort(i + 1, t, cfg, p, d.m, d.c); }
    }
  }

  /** With the port limit on, a packet that has a port check is dropped or counted there, unless whitelisted. */
  lemma NothingPassesUncounted(t: Tables, p: Packet, m: Maps)
    requires t.config.Some? && HasPortCheck(t.config.value, p) && p.src !in t.whitelist
    ensures var (m', a) := Process(t, p, m); a in {Drop, Reset} || m'.portRate == PortWindow(t, m, PortKey(p), p.now)
  {
    StagesCountPort(0, t, t.config.value, p, Arrived(m), Ctx(false, FLAGS_ALL));
  }

  /** And being counted shows, until the counter is full. */
  lemma CountingShows(t: Tables, m: Maps, k: (u8, u16), now: u64)
    requires t.portRateCfg.Some? && MsToNs(t.portRateCfg.value.tickMs) > 0
    requires k in m.portRate ==> m.portRate[k].counter < U64_MAX && m.portRate[k].lastDecayNs <= now
    ensures PortWindow(t, m, k, now) != m.portRate
  {
    assert PortWindow(t, m, k, now)[k] == PR.Count(Lookup(m.portRate, k), MsToNs(t.portRateCfg.value.tickMs), now);
  }

  // ----- Runs -----

  /** The event is a packet of key k that is counted at its port. */
  predicate AtPort(e: Event, m: Maps, k: (u8, u16))
  {
    e.Arrive? && PortKey(e.p) == k && Step(e, m).portRate != m.portRate
  }

  function PortTimes(es: seq<Event>, m: Maps, k: (u8, u16)): seq<u64>
  {
    if es == [] then []
    else
      var front, e := es[..|es| - 1], es[|es| - 1];
      var times := PortTimes(front, m, k);
      if AtPort(e, RunAll(front, m), k) then times + [e.p.now] else times
  }

  /** Packets of key k meet one port setting. */
  ghost predicate OneSetting(es: seq<Event>, k: (u8, u16), r: RateLimitConfig)
  {
    forall i :: 0 <= i < |es| && es[i].Arrive? && PortKey(es[i].p) == k ==> es[i].t.portRateCfg == Some(r)
  }

  lemma StepAtPort(e: Event, m: Maps, k: (u8, u16), r: RateLimitConfig)
    requires MsToNs(r.tickMs) > 0 && (e.Arrive? && PortKey(e.p) == k ==> e.t.portRateCfg == Some(r))
    ensures var old', new' := Lookup(m.portRate, k), Lookup(Step(e, m).portRate, k);
            new' == if AtPort(e, m, k) then Some(PR.Count(old', MsToNs(r.tickMs), e.p.now)) else old'
    ensures AtPort(e, m, k) ==>
            (Refused(m, Step(e, m)) <==> !PR.Passes(Lookup(m.portRate, k), MsToNs(r.tickMs), r.threshold, e.p.now))
  {
    if e.Arrive? { EachPacketMeetsItsPort(e.t, e.p, m); }
  }

  /** The entry of a key is the window count of its counted packets. */
  lemma {:induction false} EntryIsAfter(es: seq<Event>, m: Maps, k: (u8, u16), r: RateLimitConfig)
    requires MsToNs(r.tickMs) > 0 && OneSetting(es, k, r) && k !in m.portRate
    ensures Lookup(RunAll(es, m).portRate, k) == PR.After(MsToNs(r.tickMs), PortTimes(es, m, k))
  {
    if es != [] {
      var front, e := es[..|es| - 1], es[|es| - 1];
      EntryIsAfter(front, m, k, r);
      StepAtPort(e, RunAll(front, m), k, r);
      if AtPort(e, RunAll(front, m), k) { AfterSnoc(MsToNs(r.tickMs), PortTimes(front, m, k), e.p.now); }
    }
  }

  lemma AfterSnoc(window: u64, times: seq<u64>, now: u64)
    ensures PR.After(window, times + [now]) == Some(PR.Count(PR.After(window, times), window, now))
  {
    assert (times + [now])[..|times|] == times;
  }

  /** The event is a packet of key k that was counted at its port and handed on. */
  predicate HandedOn(e: Event, m: Maps, k: (u8, u16))
  {
    AtPort(e, m, k) && Refusals(Step(e, m).blocked) <= Refusals(m.blocked)
  }

  /** How many there are from event n on. */
  function Handed(es: seq<Event>, m: Maps, k: (u8, u16), n: nat): nat
  {
    if |es| <= n then 0
    else
      var front := es[..|es| - 1];
      Handed(front, m, k, n) + if HandedOn(es[|es| - 1], RunAll(front, m), k) then 1 else 0
  }

  lemma StepHands(e: Event, m: Maps, k: (u8, u16), r: RateLimitConfig, times: seq<u64>)
    requires MsToNs(r.tickMs) > 0 && (e.Arrive? && PortKey(e.p) == k ==> e.t.portRateCfg == Some(r))
    requires Lookup(m.portRate, k) == PR.After(MsToNs(r.tickMs), times)
    ensures HandedOn(e, m, k) <==> AtPort(e, m, k) && PR.Passes(PR.After(MsToNs(r.tickMs), times), MsToNs(r.tickMs), r.threshold, e.p.now)
  {
    StepAtPort(e, m, k, r);
  }

  lemma {:induction false} HandedIsPassed(es: seq<Event>, m: Maps, k: (u8, u16), r: RateLimitConfig, n: nat)
    requires MsToNs(r.tickMs) > 0 && OneSetting(es, k, r) && k !in m.portRate && n <= |es|
    ensures var a, times := |PortTimes(es[..n], m, k)|, PortTimes(es, m, k);
            && a <= |times|
            && Handed(es, m, k, n) == PR.Passed(MsToNs(r.tickMs), r.threshold, times, a, |times|)
  {
    if n == |es| {
      assert es[..n] == es;
    } else {
      var front, e := es[..|es| - 1], es[|es| - 1];
      assert front[..n] == es[..n];
      HandedIsPassed(front, m, k, r, n);
      EntryIsAfter(front, m, k, r);
      NextHanded(es, m, k, r, n);
    }
  }

  lemma NextHanded(es: seq<Event>, m: Maps, k: (u8, u16), r: RateLimitConfig, n: nat)
    requires MsToNs(r.tickMs) > 0 && OneSetting(es, k, r) && n < |es|
    requires var front := es[..|es| - 1];
             var a, times := |PortTimes(es[..n], m, k)|, PortTimes(front, m, k);
             && a <= |times| && Lookup(RunAll(front, m).portRate, k) == PR.After(MsToNs(r.tickMs), times)
             && Handed(front, m, k, n) == PR.Passed(MsToNs(r.tickMs), r.threshold, times, a, |times|)
    ensures var a, times := |PortTimes(es[..n], m, k)|, PortTimes(es, m, k);
            a <= |times| && Handed(es, m, k, n) == PR.Passed(MsToNs(r.tickMs), r.threshold, times, a, |times|)
  {
    var front, e := es[..|es| - 1], es[|es| - 1];
    var times := PortTimes(front, m, k);
    StepHands(e, RunAll(front, m), k, r, times);
    if AtPort(e, RunAll(front, m), k) {
      PassedSnoc(MsToNs(r.tickMs), r.threshold, times, e.p.now, |PortTimes(es[..n], m, k)|);
    }
  }

  lemma PassedSnoc(window: u64, threshold: u64, times: seq<u64>, now: u64, a: nat)
    requires a <= |times|
    ensures PR.Passed(window, threshold, times + [now], a, |times| + 1)
            == PR.Passed(window, threshold, times, a, |times|) + if PR.Passes(PR.After(window, times), window, threshold, now) then 1 else 0
  {
    PassedPrefix(window, threshold, times, now, a, |times|);
    assert (times + [now])[..|times|] == times;
  }

  lemma {:induction false} PassedPrefix(window: u64, threshold: u64, times: seq<u64>, now: u64, a: nat, b: nat)
    requires a <= b <= |times|
    ensures PR.Passed(window, threshold, times + [now], a, b) == PR.Passed(window, threshold, times, a, b)
    decreases b - a
  {
    if a < b {
      PassedPrefix(window, threshold, times, now, a, b - 1);
      assert (times + [now])[..b - 1] == times[..b - 1];
    }
  }

  /**
   Main result: over any run under one port setting, from event n on, fewer packets
   of a key than threshold * (L / window + 2) are handed on by their port check,
   where L is the time between the first and the last that reached it.
   */
  lemma {:induction false} PortLimitHolds(es: seq<Event>, m: Maps, k: (u8, u16), r: RateLimitConfig, n: nat)
    requires MsToNs(r.tickMs) > 0 && OneSetting(es, k, r) && k !in m.portRate && n <= |es|
    requires NonDecreasing(PortTimes(es, m, k)) && |PortTimes(es, m, k)| <= U64_MAX
    requires |PortTimes(es[..n], m, k)| < |PortTimes(es, m, k)|
    ensures var times, a := PortTimes(es, m, k), |PortTimes(es[..n], m, k)|;
            Handed(es, m, k, n) <= PR.Bound(MsToNs(r.tickMs), r.threshold, times[|times| - 1] - times[a])
  {
    HandedIsPassed(es, m, k, r, n);
    var times := PortTimes(es, m, k);
    PR.PassedIsBounded(MsToNs(r.tickMs), r.threshold, times, |PortTimes(es[..n], m, k)|, |times|);
  }

  /**
   And a packet that reaches its port check after any run is refused there exactly
   if, with it, more than `threshold` have come since the open window began, which
   is less than one window ago.
   */
  lemma {:induction false} RefusedIffOverLimit(es: seq<Event>, m: Maps, t: Tables, p: Packet, r: RateLimitConfig) returns (start: u64)
    requires MsToNs(r.tickMs) > 0 && OneSetting(es, PortKey(p), r) && t.portRateCfg == Some(r) && PortKey(p) !in m.portRate
    requires AtPort(Arrive(t, p), RunAll(es, m), PortKey(p))
    requires var times := PortTimes(es, m, PortKey(p)) + [p.now]; NonDecreasing(times) && |times| <= U64_MAX
    ensures start <= p.now < start + MsToNs(r.tickMs)
    ensures var before := RunAll(es, m);
            Refused(before, Process(t, p, before).0)
            <==> InWindow(PortTimes(es, m, PortKey(p)) + [p.now], start, MsToNs(r.tickMs)) > r.threshold
  {
    var k, window, times := PortKey(p), MsToNs(r.tickMs), PortTimes(es, m, PortKey(p));
    EntryIsAfter(es, m, k, r);
    StepAtPort(Arrive(t, p), RunAll(es, m), k, r);
    AfterSnoc(window, times, p.now);
    PR.CountsItsWindow(window, times + [p.now]);
    start := PR.After(window, times + [p.now]).value.lastDecayNs;
  }
}
