/**
 The pipeline as the program runs it: each check reads and overwrites the shared
 maps and counters in place. Every method is proved to leave exactly the state
 its specification in DataPlane describes.
 */
module Pipeline {
  import opened Words
  import opened RateCounter
  import PR = PortRate
  import opened BlockMerge
  import PP = ProjectPolicy
  import SC = SynCookie
  import opened DataPlane

  class Program {
    const t: Tables
    var totals: Totals
    var blocked: Blocked
    var aux: Aux
    var blacklist: map<IpKey, BlockEntry>
    var trust: map<IpKey, TrustEntry>
    var rate: map<IpKey, Counter>
    var ratePort: map<(IpKey, u16), Counter>
    var portRate: map<(u8, u16), Counter>
    var challenged: map<IpKey, u64>
    var connTrack: map<IpKey, ConnEntry>
    var top: map<IpKey, u64>

    ghost function State(): Maps
      reads this
    {
      Maps(totals, blocked, aux, blacklist, trust, rate, ratePort, portRate, challenged, connTrack, top)
    }

    constructor (t: Tables, m: Maps)
      ensures this.t == t && State() == m
    {
      this.t := t;
      totals, blocked, aux := m.totals, m.blocked, m.aux;
      blacklist, trust, rate, ratePort := m.blacklist, m.trust, m.rate, m.ratePort;
      portRate, challenged, connTrack, top := m.portRate, m.challenged, m.connTrack, m.top;
    }

    // ----- Trust and dropping -----

    method ReadTrust(src: IpKey) returns (e: TrustEntry)
      ensures e == TrustOf(State(), src)
    {
      e := if src in trust then trust[src] else TrustEntry(0, TRUST_DEFAULT, 0, 0, 0);
    }

    method RaiseTrust(src: IpKey, now: u64, addDivisor: u32, weight: u32)
      requires addDivisor > 0
      modifies this`trust
      ensures State() == TrustPass(old(State()), src, now, addDivisor, weight)
    {
      var e := ReadTrust(src);
      e := e.(passCount := Sat32(e.passCount + weight));
      e := e.(trustScore := Min(e.trustScore + Gain(e.trustScore, addDivisor, weight), TRUST_MAX));
      e := e.(lastUpdateNs := now, level := TrustLevel(e.trustScore));
      trust := trust[src := e];
    }

    method RaiseTrustSampled(src: IpKey, now: u64, addDivisor: u32)
      requires addDivisor > 0
      modifies this`trust, this`aux
      ensures State() == TrustPassSampled(old(State()), src, now, addDivisor)
    {
      aux := aux.(trustPassSample := Wrap32(aux.trustPassSample + 1));
      var due := aux.trustPassSample % 64 == 0;
      if due {
        RaiseTrust(src, now, addDivisor, 64);
      }
    }

    method LowerTrust(src: IpKey, now: u64, subDivisor: u32)
      requires subDivisor > 0
      modifies this`trust, this`aux
      ensures State() == TrustDrop(old(State()), src, now, subDivisor)
    {
      var e := ReadTrust(src);
      e := e.(dropCount := Sat32(e.dropCount + 1));
      DivShrinks(e.trustScore, subDivisor);
      e := e.(trustScore := e.trustScore - e.trustScore / subDivisor);
      e := e.(lastUpdateNs := now, level := TrustLevel(e.trustScore));
      if e.trustScore == 0 {
        aux := aux.(trustDropSample := Wrap32(aux.trustDropSample + 1));
        if aux.trustDropSample % 16 != 0 {
          return;
        }
        e := e.(dropCount := Sat32(e.dropCount + 15));
      }
      trust := trust[src := e];
    }

    method Penalise(cfg: Config, p: Packet)
      modifies this`trust, this`aux, this`top
      ensures State() == Penalised(cfg, p, old(State()))
    {
      if p.protocol == TCP {
        aux := aux.(tcpRstAttempt := aux.tcpRstAttempt + 1);
      }
      aux := aux.(topAttackerSample := Wrap32(aux.topAttackerSample + 1));
      var due := aux.topAttackerSample % 16 == 0;
      LowerTrust(p.src, p.now, Max(cfg.trustSubDivisor, 1));
      if due {
        var prev := if p.src in top then top[p.src] else 0;
        top := top[p.src := SatAdd(prev, 16)];
      }
    }

    method DropOrReset(cfg: Config, p: Packet) returns (a: Action)
      modifies this`trust, this`aux, this`top
      ensures (State(), a) == DropPacket(cfg, p, old(State()))
    {
      Penalise(cfg, p);
      if cfg.tcpResetOnDrop && p.protocol == TCP {
        if p.ipHdrLen == 20 && p.resetSent {
          aux := aux.(tcpRstSent := aux.tcpRstSent + 1);
          a := Reset;
        } else {
          aux := aux.(tcpRstFail := aux.tcpRstFail + 1);
          a := Drop;
        }
      } else {
        a := Drop;
      }
    }

    /** Count and drop, after the check has raised its own counter. */
    method CountAndDiscard(cfg: Config, p: Packet) returns (a: Option<Action>)
      modifies this`trust, this`totals, this`aux, this`top
      ensures a.Some? && (State(), a.value) == CountedDrop(cfg, p, old(State()))
    {
      totals := totals.(totalDropped := totals.totalDropped + 1);
      totals := IncProtocolDropped(totals, p.protocol);
      var v := DropOrReset(cfg, p);
      a := Some(v);
    }

    method CountAndPass(cfg: Config, p: Packet) returns (a: Option<Action>)
      modifies this`trust, this`totals, this`aux
      ensures a == Some(Pass) && State() == CountedPass(cfg, p, old(State()))
    {
      totals := totals.(totalPassed := totals.totalPassed + 1);
      RaiseTrustSampled(p.src, p.now, Max(cfg.trustAddDivisor, 1));
      a := Some(Pass);
    }

    // ----- Rates and the blacklist -----

    method EffectiveThreshold(cfg: Config, src: IpKey, threshold: u64) returns (x: u64)
      ensures x == Threshold(cfg, State(), src, threshold)
    {
      x := threshold;
      if cfg.trustEnabled {
        var e := ReadTrust(src);
        x := ModulateThreshold(threshold, (500 + e.trustScore) * 1000 / 1500, DangerFactor(cfg.dangerLevel));
      }
    }

    method NextCounter(entry: Option<Counter>, r: RateLimitConfig, tick: u64, now: u64) returns (e: Counter)
      requires tick > 0
      ensures e == Bump(entry, tick, r.decayNum, r.decayDen, now)
    {
      var counter, last := 1, now;
      if entry.Some? {
        var elapsed := SatSub(now, entry.value.lastDecayNs);
        var decayed := DecayCounter(entry.value.counter, elapsed, tick, r.decayNum, r.decayDen);
        counter := SatAdd(decayed, 1);
        last := Min(WrapAdd(entry.value.lastDecayNs, TicksNs(elapsed / tick, tick)), now);
      }
      e := Counter(counter, last);
    }

    method UpdateRateCounter(cfg: Config, src: IpKey, now: u64) returns (over: bool)
      modifies this`rate
      ensures (State(), over) == UpdateRate(t, cfg, old(State()), src, now)
    {
      if t.rateCfg.None? { return false; }
      var r := t.rateCfg.value;
      var tick := MsToNs(r.tickMs);
      if tick == 0 { return false; }
      var e := NextCounter(if src in rate then Some(rate[src]) else None, r, tick, now);
      rate := rate[src := e];
      var threshold := EffectiveThreshold(cfg, src, r.threshold);
      over := e.counter > threshold;
    }

    method UpdateRateCounterPort(cfg: Config, src: IpKey, dport: u16, now: u64) returns (over: bool)
      modifies this`ratePort
      ensures (State(), over) == UpdateRatePort(t, cfg, old(State()), src, dport, now)
    {
      if t.rateCfg.None? { return false; }
      var r := t.rateCfg.value;
      var tick := MsToNs(r.tickMs);
      if tick == 0 { return false; }
      var key := (src, dport);
      var e := NextCounter(if key in ratePort then Some(ratePort[key]) else None, r, tick, now);
      ratePort := ratePort[key := e];
      var threshold := EffectiveThreshold(cfg, src, r.threshold);
      over := e.counter > threshold;
    }

    method PortRateExceeded(protocol: u8, dport: u16, now: u64) returns (over: bool)
      modifies this`portRate
      ensures (State(), over) == CheckPortRate(t, old(State()), protocol, dport, now)
    {
      if t.portRateCfg.None? { return false; }
      var window := MsToNs(t.portRateCfg.value.tickMs);
      if window == 0 { return false; }
      var key := (protocol, dport);
      var count, start := 1, now;
      if key in portRate {
        var entry := portRate[key];
        if SatSub(now, entry.lastDecayNs) < window {
          count, start := SatAdd(entry.counter, 1), entry.lastDecayNs;
        }
      }
      portRate := portRate[key := Counter(count, start)];
      over := count > t.portRateCfg.value.threshold;
    }

    method Block(src: IpKey, now: u64, reason: u8)
      modifies this`blacklist, this`aux, this`trust
      ensures State() == BlockIf(true, t, old(State()), src, now, reason)
    {
      var duration := if t.rateCfg.Some? then t.rateCfg.value.blockDurationS else 0;
      var until := RequestedUntil(now, duration);
      var prev := if src in blacklist then Some(blacklist[src]) else None;
      blacklist := blacklist[src := MergeBlockEntry(prev, now, until, reason, false)];
      aux := aux.(blacklistGen := Wrap64(aux.blacklistGen + 1));
      trust := trust[src := TrustEntry(now, 0, 0, 0, 0)];
    }

    method Blacklisted(src: IpKey, now: u64) returns (hit: bool)
      modifies this`blacklist, this`aux, this`trust
      ensures (State(), hit) == IsBlacklisted(old(State()), src, now)
    {
      if src !in blacklist {
        assert blacklist - {src} == blacklist;
        return false;
      }
      var entry := blacklist[src];
      if entry.Live(now) {
        aux := aux.(blacklistHitSample := Wrap32(aux.blacklistHitSample + 1));
        if aux.blacklistHitSample % 16 == 0 {
          blacklist := blacklist[src := entry.(hitCount := Sat32(entry.hitCount + 16))];
          aux := aux.(blacklistHitGen := Wrap64(aux.blacklistHitGen + 1));
        }
        return true;
      }
      blacklist := blacklist - {src};
      trust := trust[src := TrustEntry(0, TRUST_DEFAULT, 0, 0, 0)];
      hit := false;
    }

    /** `block_ip_raw`: a block from the control plane; API and static blocks are explicit. */
    method BlockIpRaw(key: IpKey, now: u64, durationS: u64, reason: u8)
      modifies this`blacklist
      ensures State() == ControlBlock(old(State()), key, now, durationS, reason)
    {
      var until := RequestedUntil(now, durationS);
      var explicit := reason == R_API_BLOCK || reason == R_BLACKLIST;
      var prev := if key in blacklist then Some(blacklist[key]) else None;
      blacklist := blacklist[key := MergeBlockEntry(prev, now, until, reason, explicit)];
    }

    // ----- The checks -----

    method PortAclDrops(protocol: u8, dport: u16, count: nat) returns (drop: bool)
      ensures drop == AclDrops(t.acl, count, protocol, dport, 0)
      ensures drop <==> exists k :: 0 <= k < Min(count, |t.acl|) && MatchAcl(protocol, dport, t.acl[k]) == Some(true)
                                    && forall j :: 0 <= j < k ==> MatchAcl(protocol, dport, t.acl[j]) == None
    {
      FirstMatchDecides(t.acl, count, protocol, dport, 0);
      var i := 0;
      while i < count
        invariant 0 <= i <= count
        invariant AclDrops(t.acl, count, protocol, dport, 0) == AclDrops(t.acl, count, protocol, dport, i)
      {
        if i < |t.acl| {
          var r := MatchAcl(protocol, dport, t.acl[i]);
          if r.Some? { return r.value; }
        }
        i := i + 1;
      }
      drop := false;
    }

    method CheckPortAclDrop(cfg: Config, p: Packet, c: Ctx) returns (a: Option<Action>)
      modifies this
      ensures Out(State(), c, a) == Finish(cfg, p, AclStage(t, cfg, p, old(State()), c))
    {
      var count := Min(cfg.portAclCount, MAX_PORT_ACL);
      if count == 0 || p.fragment { return None; }
      var drop := PortAclDrops(p.protocol, p.dport, count);
      if !drop { return None; }
      a := CountAndDiscard(cfg, p);
    }

    method CheckBlacklistDrop(cfg: Config, p: Packet, c: Ctx) returns (a: Option<Action>)
      modifies this
      ensures Out(State(), c, a) == Finish(cfg, p, BlacklistStage(t, cfg, p, old(State()), c))
    {
      var hit := Blacklisted(p.src, p.now);
      if !hit { return None; }
      blocked := blocked.(blacklistBlocked := blocked.blacklistBlocked + 1);
      a := CountAndDiscard(cfg, p);
    }

    method CheckFragmentDrop(cfg: Config, p: Packet, c: Ctx) returns (a: Option<Action>)
      modifies this
      ensures Out(State(), c, a) == Finish(cfg, p, FragmentStage(t, cfg, p, old(State()), c))
    {
      if !p.fragment || cfg.fragmentPolicy == 0 { return None; }
      if cfg.fragmentPolicy == 2 {
        a := CountFragment(cfg, p);
        return;
      }
      a := None;
      if cfg.portRateEnabled {
        var over := PortRateExceeded(p.protocol, 0, p.now);
        if over {
          a := CountFragment(cfg, p);
        }
      }
    }

    method CountFragment(cfg: Config, p: Packet) returns (a: Option<Action>)
      modifies this
      ensures var m := old(State());
              a.Some? && (State(), a.value) ==
              CountedDrop(cfg, p, m.(blocked := m.blocked.(fragmentBlocked := m.blocked.fragmentBlocked + 1)))
    {
      blocked := blocked.(fragmentBlocked := blocked.fragmentBlocked + 1);
      a := CountAndDiscard(cfg, p);
    }

    method CheckProjectPolicy(cfg: Config, p: Packet, c: Ctx) returns (a: Option<Action>, c': Ctx)
      modifies this
      ensures Out(State(), c', a) == Finish(cfg, p, ProjectStage(t, cfg, p, old(State()), c))
    {
      a, c' := None, c;
      if !cfg.projectEnabled || p.fragment || p.src.family != IPV4 { return; }
      var policy := PP.Lookup(t.projects, p.daddr, p.dport, p.protocol);
      if policy.None? { return; }
      if policy.value.action == PP.PASS {
        a := CountAndPass(cfg, p);
      } else if policy.value.action == PP.DROP {
        a := CountAndDiscard(cfg, p);
      } else if policy.value.action == PP.DEFEND {
        c' := c.(flags := if policy.value.flags == 0 then FLAGS_ALL else policy.value.flags);
      }
    }

    method CheckGeoipDrop(cfg: Config, p: Packet, c: Ctx) returns (a: Option<Action>)
      modifies this
      ensures Out(State(), c, a) == Finish(cfg, p, GeoipStage(t, cfg, p, old(State()), c))
    {
      if !cfg.geoipEnabled || !Has(c.flags, M_GEOIP) { return None; }
      var shouldDrop := p.src in t.geoBlocked || (cfg.geoipDefaultDrop && p.src !in t.geoAllowed);
      if !shouldDrop { return None; }
      blocked := blocked.(geoipBlocked := blocked.geoipBlocked + 1);
      a := CountAndDiscard(cfg, p);
    }

    method ConnTrackExceeded(cfg: Config, p: Packet) returns (over: bool)
      modifies this`connTrack
      ensures (State(), over) == CheckConnTrack(cfg, old(State()), p)
    {
      if !p.IsSyn() && !p.IsAckOrRst() { return false; }
      var e := if p.src in connTrack then connTrack[p.src] else ConnEntry(0, 0);
      var step := ConnTrackStep(e, p.now, p.IsSyn(), p.IsAckOrRst(), MsToNs(Max(cfg.connTrackWindowMs, 1)));
      if step.halfOpen == 0 {
        connTrack := connTrack - {p.src};
      } else {
        connTrack := connTrack[p.src := step];
      }
      over := step.halfOpen > Max(cfg.connTrackThreshold, 1);
    }

    method CheckConnTrackDrop(cfg: Config, p: Packet, c: Ctx) returns (a: Option<Action>)
      modifies this
      ensures Out(State(), c, a) == Finish(cfg, p, ConnTrackStage(t, cfg, p, old(State()), c))
    {
      if !cfg.connTrackEnabled || p.fragment || p.protocol != TCP || !Has(c.flags, M_CONN_TRACK) { return None; }
      var over := ConnTrackExceeded(cfg, p);
      if !over { return None; }
      blocked := blocked.(connTrackBlocked := blocked.connTrackBlocked + 1);
      a := CountAndDiscard(cfg, p);
    }

    method ChallengedOrTriggered(cfg: Config, src: IpKey, now: u64) returns (yes: bool)
      modifies this
      ensures (State(), yes) == IsChallengedOrTrigger(t, cfg, old(State()), src, now)
    {
      if src in challenged {
        if SatSub(now, challenged[src]) < SC.CHALLENGE_TIMEOUT_NS {
          return true;
        }
      }
      challenged := challenged - {src};
      yes := UpdateRateCounter(cfg, src, now);
      if yes {
        challenged := challenged[src := now];
        assert challenged == old(challenged)[src := now];
      }
    }

    method AnswerAck(p: Packet) returns (good: bool)
      modifies this`challenged
      ensures (State(), good) == HandleAck(t, p, old(State()))
    {
      if !p.ack || p.syn { return false; }
      if p.src !in challenged { return false; }
      if SatSub(p.now, challenged[p.src]) >= SC.CHALLENGE_TIMEOUT_NS {
        challenged := challenged - {p.src};
        return false;
      }
      if t.secrets.None? { return false; }
      good := SC.CheckAck(SC.Cookie, t.secrets.value, p.flow, p.now, p.ackNo);
      if good {
        challenged := challenged - {p.src};
      }
    }

    method RunSynProxy(cfg: Config, p: Packet, c: Ctx) returns (a: Option<Action>, c': Ctx)
      modifies this
      ensures Out(State(), c', a) == Finish(cfg, p, SynProxy(t, cfg, p, old(State()), c))
    {
      c' := if p.IsSyn() then c.(rateCounted := true) else c;
      a := None;
      if p.IsSyn() {
        var challenge := ChallengedOrTriggered(cfg, p.src, p.now);
        if challenge {
          a := SynChallenge(t, p);
        }
      }
      assert (State(), a) == HandleSyn(t, cfg, p, old(State()));
      if a.Some? {
        CountAnswer(p, a.value);
        return;
      }
      ghost var m1 := State();
      var good := AnswerAck(p);
      assert (State(), good) == HandleAck(t, p, m1);
      if good {
        a := CountAndPass(cfg, p);
      }
    }

    /** A challenge counts as such; any other answer to a SYN is a drop. */
    method CountAnswer(p: Packet, a: Action)
      modifies this`blocked, this`totals
      ensures State() == Answered(p, old(State()), a)
    {
      blocked := blocked.(synFloodBlocked := blocked.synFloodBlocked + 1);
      if !a.Challenge? {
        totals := totals.(totalDropped := totals.totalDropped + 1);
        totals := IncProtocolDropped(totals, TCP);
      }
    }

    method FloodDetected(cfg: Config, src: IpKey, now: u64, reason: u8, soft: bool) returns (over: bool)
      modifies this
      ensures (State(), over) == Detect(t, cfg, old(State()), src, now, reason, soft)
    {
      over := UpdateRateCounter(cfg, src, now);
      if over && !soft {
        Block(src, now, reason);
      }
    }

    method PortRateDrop(cfg: Config, p: Packet, dport: u16, c: Ctx) returns (a: Option<Action>)
      modifies this
      ensures Out(State(), c, a) == Finish(cfg, p, PortRateCheck(t, cfg, p, dport, old(State()), c))
    {
      if !cfg.portRateEnabled { return None; }
      ghost var d := PortRateCheck(t, cfg, p, dport, State(), c);
      var over := PortRateExceeded(p.protocol, dport, p.now);
      if !over { return None; }
      blocked := blocked.(portRateBlocked := blocked.portRateBlocked + 1);
      assert d.verdict == Discard(blocked) && State() == d.m.(blocked := blocked);
      a := CountAndDiscard(cfg, p);
    }

    method RunFloodCheck(cfg: Config, p: Packet, c: Ctx, k: Flood, counts: bool, soft: bool, dport: u16)
      returns (a: Option<Action>, c': Ctx)
      modifies this
      ensures Out(State(), c', a) == Finish(cfg, p, FloodCheck(t, cfg, p, old(State()), c, k, counts, soft, dport))
    {
      c' := c;
      if counts {
        c' := c.(rateCounted := true);
        var over := FloodDetected(cfg, p.src, p.now, FloodReason(k), soft);
        if over {
          blocked := RaiseFlood(blocked, k);
          a := CountAndDiscard(cfg, p);
          return;
        }
      }
      a := PortRateDrop(cfg, p, dport, c');
    }

    method CheckTcpDrop(cfg: Config, p: Packet, c: Ctx) returns (a: Option<Action>, c': Ctx)
      modifies this
      ensures Out(State(), c', a) == Finish(cfg, p, TcpStage(t, cfg, p, old(State()), c))
    {
      a, c' := None, c;
      if p.protocol != TCP || !Has(c.flags, M_SYN_FLOOD) || p.fragment { return; }
      if p.src.family == IPV4 && cfg.synProxyEnabled {
        a, c' := RunSynProxy(cfg, p, c);
      } else {
        a, c' := RunFloodCheck(cfg, p, c, SynF, p.IsSyn(), false, p.dport);
      }
    }

    method CheckUdpDrop(cfg: Config, p: Packet, c: Ctx) returns (a: Option<Action>, c': Ctx)
      modifies this
      ensures Out(State(), c', a) == Finish(cfg, p, UdpStage(t, cfg, p, old(State()), c))
    {
      a, c' := None, c;
      if p.protocol != UDP || p.fragment || !Has(c.flags, M_UDP_FLOOD) { return; }
      a, c' := RunFloodCheck(cfg, p, c, UdpF, cfg.udpFloodEnabled, cfg.rateLimitSoft, p.dport);
    }

    method CheckIcmpDrop(cfg: Config, p: Packet, c: Ctx) returns (a: Option<Action>, c': Ctx)
      modifies this
      ensures Out(State(), c', a) == Finish(cfg, p, IcmpStage(t, cfg, p, old(State()), c))
    {
      a, c' := None, c;
      if (p.protocol != ICMP && p.protocol != ICMPV6) || p.fragment || !Has(c.flags, M_ICMP_FLOOD) { return; }
      a, c' := RunFloodCheck(cfg, p, c, IcmpF, cfg.icmpFloodEnabled, cfg.rateLimitSoft, 0);
    }

    method ScanL7(chunk: bv64, count: nat) returns (hit: bool)
      ensures hit == L7Hit(t.patterns, count, chunk, 0)
      ensures hit <==> exists k :: 0 <= k < Min(count, |t.patterns|) && PatternHit(t.patterns[k], chunk)
    {
      HitMeansSomePattern(t.patterns, count, chunk, 0);
      var i := 0;
      while i < count
        invariant 0 <= i <= count
        invariant L7Hit(t.patterns, count, chunk, 0) == L7Hit(t.patterns, count, chunk, i)
      {
        if i < |t.patterns| {
          if PatternHit(t.patterns[i], chunk) { return true; }
        }
        i := i + 1;
      }
      hit := false;
    }

    method CheckL7Drop(cfg: Config, p: Packet, c: Ctx) returns (a: Option<Action>)
      modifies this
      ensures Out(State(), c, a) == Finish(cfg, p, L7Stage(t, cfg, p, old(State()), c))
    {
      var count := Min(cfg.l7PatternCount, MAX_L7_PATTERNS);
      if !cfg.l7ScanEnabled || count == 0 || !Has(c.flags, M_L7_SCAN) || p.fragment { return None; }
      if p.protocol != TCP || p.payload.None? { return None; }
      var hit := ScanL7(p.payload.value, count);
      if !hit { return None; }
      blocked := blocked.(l7Blocked := blocked.l7Blocked + 1);
      a := CountAndDiscard(cfg, p);
    }

    method RateLimitExceeded(cfg: Config, p: Packet) returns (over: bool)
      modifies this
      ensures (State(), over) == CheckRateLimit(t, cfg, p, old(State()))
    {
      if !cfg.rateLimitEnabled { return false; }
      if cfg.dportGrouping {
        over := UpdateRateCounterPort(cfg, p.src, p.dport, p.now);
      } else {
        over := UpdateRateCounter(cfg, p.src, p.now);
      }
      if over && !cfg.rateLimitSoft {
        Block(p.src, p.now, R_RATE_LIMIT);
      }
    }

    method CheckRateLimitDrop(cfg: Config, p: Packet, c: Ctx) returns (a: Option<Action>)
      modifies this
      ensures Out(State(), c, a) == Finish(cfg, p, RateLimitStage(t, cfg, p, old(State()), c))
    {
      if !Has(c.flags, M_RATE_LIMIT) || c.rateCounted { return None; }
      var over := RateLimitExceeded(cfg, p);
      if !over { return None; }
      blocked := blocked.(rateLimited := blocked.rateLimited + 1);
      a := CountAndDiscard(cfg, p);
    }

    /** Check number i, with the context it leaves for the next one. */
    method RunCheck(i: nat, cfg: Config, p: Packet, c: Ctx) returns (a: Option<Action>, c': Ctx)
      requires i < STAGES
      modifies this
      ensures Out(State(), c', a) == Finish(cfg, p, Stage(i, t, cfg, p, old(State()), c))
    {
      c' := c;
      match i {
        case 0 => a := CheckPortAclDrop(cfg, p, c);
        case 1 => a := CheckBlacklistDrop(cfg, p, c);
        case 2 => a := CheckFragmentDrop(cfg, p, c);
        case 3 => a, c' := CheckProjectPolicy(cfg, p, c);
        case 4 => a := CheckGeoipDrop(cfg, p, c);
        case 5 => a := CheckConnTrackDrop(cfg, p, c);
        case 6 => a, c' := CheckTcpDrop(cfg, p, c);
        case 7 => a, c' := CheckUdpDrop(cfg, p, c);
        case 8 => a, c' := CheckIcmpDrop(cfg, p, c);
        case 9 => a := CheckL7Drop(cfg, p, c);
        case _ => a := CheckRateLimitDrop(cfg, p, c);
      }
    }

    /** `try_eshield` on a parsed packet. */
    method TryEshield(p: Packet) returns (verdict: Action)
      modifies this
      ensures (State(), verdict) == Process(t, p, old(State()))
    {
      totals := totals.(totalPackets := totals.totalPackets + 1);
      if t.config.None? {
        return Pass;
      }
      var cfg := t.config.value;
      var a: Option<Action>;
      if p.src in t.whitelist {
        a := CountAndPass(cfg, p);
        return a.value;
      }
      var c := Ctx(false, FLAGS_ALL);
      ghost var start := State();
      var i := 0;
      while i < STAGES
        invariant 0 <= i <= STAGES
        invariant StagesFrom(0, t, cfg, p, start, Ctx(false, FLAGS_ALL)) == StagesFrom(i, t, cfg, p, State(), c)
      {
        a, c := RunCheck(i, cfg, p, c);
        if a.Some? {
          return a.value;
        }
        i := i + 1;
      }
      a := CountAndPass(cfg, p);
      verdict := a.value;
    }
  }
}
