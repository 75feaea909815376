/**
 The packet pipeline: ordered checks over shared maps and counters. The functions
 say what each check makes of the maps, so that runs of packets can be reasoned
 about; module Pipeline holds the program that does it in place.
 */
module DataPlane {
  import opened Words
  import opened RateCounter
  import PR = PortRate
  import opened BlockMerge
  import PP = ProjectPolicy
  import SC = SynCookie

  const TCP: u8 := 6
  const UDP: u8 := 17
  const ICMP: u8 := 1
  const ICMPV6: u8 := 58
  const IPV4: u8 := 4

  const TRUST_MAX: u32 := 1000
  const TRUST_DEFAULT: u32 := 500
  const MAX_PORT_ACL := 32
  const MAX_L7_PATTERNS := 8

  const FLAGS_ALL: bv16 := 0xffff
  const M_SYN_FLOOD: bv16 := 1
  const M_UDP_FLOOD: bv16 := 2
  const M_ICMP_FLOOD: bv16 := 4
  const M_RATE_LIMIT: bv16 := 8
  const M_L7_SCAN: bv16 := 32
  const M_GEOIP: bv16 := 64
  const M_CONN_TRACK: bv16 := 512

  const R_BLACKLIST: u8 := 1
  const R_RATE_LIMIT: u8 := 2
  const R_SYN_FLOOD: u8 := 3
  const R_API_BLOCK: u8 := 6
  const R_UDP_FLOOD: u8 := 8
  const R_ICMP_FLOOD: u8 := 9

  datatype Config = Config(
    trustAddDivisor: u32, trustSubDivisor: u32, connTrackThreshold: u32, connTrackWindowMs: u64,
    rateLimitEnabled: bool, synProxyEnabled: bool, l7ScanEnabled: bool, udpFloodEnabled: bool, icmpFloodEnabled: bool,
    geoipEnabled: bool, geoipDefaultDrop: bool, tcpResetOnDrop: bool, trustEnabled: bool, dangerLevel: u8,
    projectEnabled: bool, portAclCount: u8, l7PatternCount: u8, portRateEnabled: bool, connTrackEnabled: bool,
    dportGrouping: bool, fragmentPolicy: u8, rateLimitSoft: bool)

  datatype AclEntry = AclEntry(protocol: u8, dportLow: u16, dportHigh: u16, action: u8)
  datatype Pattern = Pattern(signature: bv64, mask: bv64, length: u8)

  /** What the control plane provides; the address lists stand for their prefix tries. */
  datatype Tables = Tables(
    config: Option<Config>, rateCfg: Option<RateLimitConfig>, portRateCfg: Option<RateLimitConfig>,
    whitelist: set<IpKey>, geoBlocked: set<IpKey>, geoAllowed: set<IpKey>,
    acl: seq<AclEntry>, patterns: seq<Pattern>, projects: PP.PolicyTable, secrets: Option<SC.CookieSecret>)

  /**
   A parsed packet. `flow` holds addresses and ports as the cookie uses them,
   `optionsReadable`, `synackSent` and `resetSent` the outcome of kernel helpers.
   */
  datatype Packet = Packet(
    now: u64, src: IpKey, daddr: u32, protocol: u8, dport: u16, ipHdrLen: nat, ipTotLen: nat, fragment: bool,
    syn: bool, ack: bool, rst: bool, tcpHdrLen: nat, ackNo: bv32, mss: Option<u16>, flow: SC.Flow, payload: Option<bv64>,
    optionsReadable: bool, synackSent: bool, resetSent: bool)
  {
    predicate IsSyn() { syn && !ack }
    predicate IsAckOrRst() { ack || rst }
  }

  /** The program's one record of counters, split by what they are for. */
  datatype Totals = Totals(
    totalPackets: nat, totalDropped: nat, totalPassed: nat,
    tcpDropped: nat, udpDropped: nat, icmpDropped: nat, otherDropped: nat)

  datatype Blocked = Blocked(
    synFloodBlocked: nat, rateLimited: nat, l7Blocked: nat, udpFloodBlocked: nat, icmpFloodBlocked: nat,
    geoipBlocked: nat, blacklistBlocked: nat, fragmentBlocked: nat, portRateBlocked: nat, connTrackBlocked: nat)

  datatype Aux = Aux(
    tcpRstAttempt: nat, tcpRstSent: nat, tcpRstFail: nat, blacklistGen: u64, blacklistHitGen: u64,
    trustPassSample: u32, trustDropSample: u32, blacklistHitSample: u32, topAttackerSample: u32)

  datatype TrustEntry = TrustEntry(lastUpdateNs: u64, trustScore: u32, passCount: u32, dropCount: u32, level: u8)
  datatype ConnEntry = ConnEntry(lastSeenNs: u64, halfOpen: u32)

  /** The mutable maps. */
  datatype Maps = Maps(
    totals: Totals, blocked: Blocked, aux: Aux, blacklist: map<IpKey, BlockEntry>, trust: map<IpKey, TrustEntry>,
    rate: map<IpKey, Counter>, ratePort: map<(IpKey, u16), Counter>, portRate: map<(u8, u16), Counter>,
    challenged: map<IpKey, u64>, connTrack: map<IpKey, ConnEntry>, top: map<IpKey, u64>)

  /** XDP verdicts; a reset and a SYN challenge are both sent back. */
  datatype Action = Pass | Drop | Reset | Challenge(cookie: bv32)

  /** What checks hand on to later checks of the same packet. */
  datatype Ctx = Ctx(rateCounted: bool, flags: bv16)

  /**
   What a check decides: hand on to the next check, drop with the check's own
   counter raised, pass, or answer a SYN.
   */
  datatype Verdict = Next | Discard(blocked: Blocked) | Accept | Answer(action: Action)

  /** The maps and context a check leaves, and its decision. */
  datatype Decision = Decision(m: Maps, c: Ctx, verdict: Verdict)

  /** The same once the decision is carried out. */
  datatype Out = Out(m: Maps, c: Ctx, action: Option<Action>)

  /** Is a module enabled for this packet? */
  predicate Has(flags: bv16, bit: bv16) { flags & bit != 0 }

  // ----- Counters -----

  function Wrap32(x: nat): u32 { x % (U32_MAX + 1) }
  function Sat32(x: nat): u32 { Min(x, U32_MAX) }
  function Wrap64(x: nat): u64 { x % (U64_MAX + 1) }

  function IncProtocolDropped(s: Totals, protocol: u8): Totals
  {
    if protocol == TCP then s.(tcpDropped := s.tcpDropped + 1)
    else if protocol == UDP then s.(udpDropped := s.udpDropped + 1)
    else if protocol == ICMP || protocol == ICMPV6 then s.(icmpDropped := s.icmpDropped + 1)
    else s.(otherDropped := s.otherDropped + 1)
  }

  function CountDrop(s: Totals, protocol: u8): Totals
  {
    IncProtocolDropped(s.(totalDropped := s.totalDropped + 1), protocol)
  }

  // ----- Trust -----

  function TrustOf(m: Maps, src: IpKey): TrustEntry
  {
    if src in m.trust then m.trust[src] else TrustEntry(0, TRUST_DEFAULT, 0, 0, 0)
  }

  function TrustLevel(score: u32): u8
  {
    if score >= 700 then 1 else if score >= 300 then 2 else if score >= 100 then 3 else 4
  }

  /** How much `weight` passes are worth at this score. */
  function Gain(score: u32, addDivisor: u32, weight: u32): u32
    requires addDivisor > 0
  {
    DivShrinks(Max(TRUST_MAX - score, 0), addDivisor);
    var delta := Max(TRUST_MAX - score, 0) / addDivisor;
    assert 0 <= delta * weight;
    Sat32(delta * weight)
  }

  function Raised(e: TrustEntry, now: u64, addDivisor: u32, weight: u32): TrustEntry
    requires addDivisor > 0
  {
    var score := Min(e.trustScore + Gain(e.trustScore, addDivisor, weight), TRUST_MAX);
    TrustEntry(now, score, Sat32(e.passCount + weight), e.dropCount, TrustLevel(score))
  }

  function TrustPass(m: Maps, src: IpKey, now: u64, addDivisor: u32, weight: u32): Maps
    requires addDivisor > 0
  {
    m.(trust := m.trust[src := Raised(TrustOf(m, src), now, addDivisor, weight)])
  }

  function TrustPassSampled(m: Maps, src: IpKey, now: u64, addDivisor: u32): Maps
    requires addDivisor > 0
  {
    var sample := Wrap32(m.aux.trustPassSample + 1);
    m.(aux := m.aux.(trustPassSample := sample),
       trust := if sample % 64 == 0 then m.trust[src := Raised(TrustOf(m, src), now, addDivisor, 64)] else m.trust)
  }

  /** The source's entry after a drop; `bonus` makes up for drops that were not written. */
  function Lowered(e: TrustEntry, now: u64, subDivisor: u32, bonus: u32): TrustEntry
    requires subDivisor > 0
  {
    DivShrinks(e.trustScore, subDivisor);
    var score := e.trustScore - e.trustScore / subDivisor;
    TrustEntry(now, score, e.passCount, Sat32(Sat32(e.dropCount + 1) + bonus), TrustLevel(score))
  }

  /** Once a score is 0, only every 16th drop is written. */
  function TrustDrop(m: Maps, src: IpKey, now: u64, subDivisor: u32): Maps
    requires subDivisor > 0
  {
    var e := Lowered(TrustOf(m, src), now, subDivisor, 0);
    var sample := if e.trustScore == 0 then Wrap32(m.aux.trustDropSample + 1) else m.aux.trustDropSample;
    m.(aux := m.aux.(trustDropSample := sample),
       trust := if e.trustScore != 0 then m.trust[src := e]
                else if sample % 16 != 0 then m.trust
                else m.trust[src := Lowered(TrustOf(m, src), now, subDivisor, 15)])
  }

  function TrustFactor(m: Maps, src: IpKey): u64
  {
    (500 + TrustOf(m, src).trustScore) * 1000 / 1500
  }

  function DangerFactor(level: u8): u64 { if level == 2 then 500 else if level == 1 then 750 else 1000 }

  // ----- Dropping -----

  /** What a drop does to the source's trust and to the ranking of attackers. */
  function Penalised(cfg: Config, p: Packet, m: Maps): Maps
  {
    var sample := Wrap32(m.aux.topAttackerSample + 1);
    var rst := m.aux.tcpRstAttempt + if p.protocol == TCP then 1 else 0;
    var m1 := TrustDrop(m, p.src, p.now, Max(cfg.trustSubDivisor, 1));
    var prev := if p.src in m.top then m.top[p.src] else 0;
    m1.(aux := m1.aux.(tcpRstAttempt := rst, topAttackerSample := sample),
        top := if sample % 16 == 0 then m.top[p.src := SatAdd(prev, 16)] else m.top)
  }

  function ResetOrDrop(cfg: Config, p: Packet, m: Maps): (Maps, Action)
  {
    if cfg.tcpResetOnDrop && p.protocol == TCP then
      if p.ipHdrLen == 20 && p.resetSent then (m.(aux := m.aux.(tcpRstSent := m.aux.tcpRstSent + 1)), Reset)
      else (m.(aux := m.aux.(tcpRstFail := m.aux.tcpRstFail + 1)), Drop)
    else (m, Drop)
  }

  function DropPacket(cfg: Config, p: Packet, m: Maps): (Maps, Action)
  {
    ResetOrDrop(cfg, p, Penalised(cfg, p, m))
  }

  function CountedDrop(cfg: Config, p: Packet, m: Maps): (Maps, Action)
  {
    DropPacket(cfg, p, m.(totals := CountDrop(m.totals, p.protocol)))
  }

  function CountedPass(cfg: Config, p: Packet, m: Maps): Maps
  {
    var m1 := m.(totals := m.totals.(totalPassed := m.totals.totalPassed + 1));
    TrustPassSampled(m1, p.src, p.now, Max(cfg.trustAddDivisor, 1))
  }

  function Answered(p: Packet, m: Maps, a: Action): Maps
  {
    m.(blocked := m.blocked.(synFloodBlocked := m.blocked.synFloodBlocked + 1),
       totals := if a.Challenge? then m.totals else CountDrop(m.totals, TCP))
  }

  function Finish(cfg: Config, p: Packet, d: Decision): Out
  {
    match d.verdict
    case Next => Out(d.m, d.c, None)
    case Discard(b) => var (m, a) := CountedDrop(cfg, p, d.m.(blocked := b)); Out(m, d.c, Some(a))
    case Accept => Out(CountedPass(cfg, p, d.m), d.c, Some(Pass))
    case Answer(a) => Out(Answered(p, d.m, a), d.c, Some(a))
  }

  // ----- Rates -----

  function Threshold(cfg: Config, m: Maps, src: IpKey, threshold: u64): u64
  {
    if cfg.trustEnabled then ModulateThreshold(threshold, TrustFactor(m, src), DangerFactor(cfg.dangerLevel)) else threshold
  }

  /** Counting one more packet under key `k`; without a configured tick nothing is counted. */
  function Counted<K>(t: Tables, table: map<K, Counter>, k: K, now: u64): map<K, Counter>
  {
    if t.rateCfg.None? || MsToNs(t.rateCfg.value.tickMs) == 0 then table
    else
      var r := t.rateCfg.value;
      table[k := Bump(if k in table then Some(table[k]) else None, MsToNs(r.tickMs), r.decayNum, r.decayDen, now)]
  }

  /** Is the counter just written under key `k` over the source's threshold? */
  predicate Exceeds<K>(t: Tables, cfg: Config, m: Maps, src: IpKey, table: map<K, Counter>, k: K)
  {
    t.rateCfg.Some? && MsToNs(t.rateCfg.value.tickMs) != 0 && k in table
    && table[k].counter > Threshold(cfg, m, src, t.rateCfg.value.threshold)
  }

  /** `update_rate_counter`: the maps and whether the source is over its threshold. */
  function UpdateRate(t: Tables, cfg: Config, m: Maps, src: IpKey, now: u64): (Maps, bool)
  {
    var rate := Counted(t, m.rate, src, now);
    (m.(rate := rate), Exceeds(t, cfg, m, src, rate, src))
  }

  function UpdateRatePort(t: Tables, cfg: Config, m: Maps, src: IpKey, dport: u16, now: u64): (Maps, bool)
  {
    var ratePort := Counted(t, m.ratePort, (src, dport), now);
    (m.(ratePort := ratePort), Exceeds(t, cfg, m, src, ratePort, (src, dport)))
  }

  function PortWindow(t: Tables, m: Maps, k: (u8, u16), now: u64): map<(u8, u16), Counter>
  {
    if t.portRateCfg.None? || MsToNs(t.portRateCfg.value.tickMs) == 0 then m.portRate
    else m.portRate[k := PR.Count(if k in m.portRate then Some(m.portRate[k]) else None, MsToNs(t.portRateCfg.value.tickMs), now)]
  }

  predicate PortExceeded(t: Tables, m: Maps, k: (u8, u16), now: u64)
  {
    t.portRateCfg.Some? && MsToNs(t.portRateCfg.value.tickMs) != 0
    && !PR.Passes(if k in m.portRate then Some(m.portRate[k]) else None, MsToNs(t.portRateCfg.value.tickMs), t.portRateCfg.value.threshold, now)
  }

  /** `check_port_rate`: the maps and whether the packet is over the port's limit. */
  function CheckPortRate(t: Tables, m: Maps, protocol: u8, dport: u16, now: u64): (Maps, bool)
  {
    (m.(portRate := PortWindow(t, m, (protocol, dport), now)), PortExceeded(t, m, (protocol, dport), now))
  }

  // ----- Blacklist -----

  /** `add_to_blacklist`, if `block`: merge a block into the list, announce it, and take all trust away. */
  function BlockIf(block: bool, t: Tables, m: Maps, src: IpKey, now: u64, reason: u8): Maps
  {
    var duration := if t.rateCfg.Some? then t.rateCfg.value.blockDurationS else 0;
    var prev := if src in m.blacklist then Some(m.blacklist[src]) else None;
    var entry := MergeBlockEntry(prev, now, RequestedUntil(now, duration), reason, false);
    m.(blacklist := if block then m.blacklist[src := entry] else m.blacklist,
       aux := if block then m.aux.(blacklistGen := Wrap64(m.aux.blacklistGen + 1)) else m.aux,
       trust := if block then m.trust[src := TrustEntry(now, 0, 0, 0, 0)] else m.trust)
  }

  /** A block from the control plane; blocks by the API or the static list take over the reason. */
  function ControlBlock(m: Maps, key: IpKey, now: u64, durationS: u64, reason: u8): Maps
  {
    var prev := if key in m.blacklist then Some(m.blacklist[key]) else None;
    var explicit := reason == R_API_BLOCK || reason == R_BLACKLIST;
    m.(blacklist := m.blacklist[key := MergeBlockEntry(prev, now, RequestedUntil(now, durationS), reason, explicit)])
  }

  predicate Listed(m: Maps, src: IpKey, now: u64) { src in m.blacklist && m.blacklist[src].Live(now) }

  /** A live entry counts every 16th hit; a lapsed one is removed and the source's trust starts afresh. */
  function IsBlacklisted(m: Maps, src: IpKey, now: u64): (Maps, bool)
  {
    var hit := Listed(m, src, now);
    (m.(blacklist := if hit then HitCounted(m, src) else m.blacklist - {src},
        aux := if hit then HitSampled(m.aux) else m.aux,
        trust := if src in m.blacklist && !hit then m.trust[src := TrustEntry(0, TRUST_DEFAULT, 0, 0, 0)] else m.trust), hit)
  }

  function HitSampled(aux: Aux): Aux
  {
    var sample := Wrap32(aux.blacklistHitSample + 1);
    aux.(blacklistHitSample := sample,
         blacklistHitGen := if sample % 16 == 0 then Wrap64(aux.blacklistHitGen + 1) else aux.blacklistHitGen)
  }

  function HitCounted(m: Maps, src: IpKey): map<IpKey, BlockEntry>
    requires src in m.blacklist
  {
    var e := m.blacklist[src];
    if HitSampled(m.aux).blacklistHitSample % 16 == 0 then m.blacklist[src := e.(hitCount := Sat32(e.hitCount + 16))] else m.blacklist
  }

  // ----- The checks, in their order -----

  function MatchAcl(protocol: u8, dport: u16, e: AclEntry): Option<bool>
  {
    if e.action == 0 then None
    else if e.protocol != 0 && e.protocol != protocol then None
    else if e.dportLow != 0 && e.dportHigh != 0 && !(e.dportLow <= dport <= e.dportHigh) then None
    else if e.dportLow != 0 && e.dportHigh == 0 && dport != e.dportLow then None
    else if e.action == 1 then Some(false)
    else if e.action == 2 then Some(true)
    else None
  }

  /** First match from entry i on: does the list drop the packet? */
  function AclDrops(acl: seq<AclEntry>, count: nat, protocol: u8, dport: u16, i: nat): bool
    decreases count - i
  {
    if i >= count then false
    else if i >= |acl| then AclDrops(acl, count, protocol, dport, i + 1)
    else match MatchAcl(protocol, dport, acl[i])
      case Some(drop) => drop
      case None => AclDrops(acl, count, protocol, dport, i + 1)
  }

  /** The list drops exactly if its first entry that matches says so. */
  lemma {:induction false} FirstMatchDecides(acl: seq<AclEntry>, count: nat, protocol: u8, dport: u16, i: nat)
    ensures AclDrops(acl, count, protocol, dport, i) <==>
              exists k :: i <= k < Min(count, |acl|) && MatchAcl(protocol, dport, acl[k]) == Some(true)
                          && forall j :: i <= j < k ==> MatchAcl(protocol, dport, acl[j]) == None
    decreases count - i
  {
    if i < count { FirstMatchDecides(acl, count, protocol, dport, i + 1); }
  }

  function AclStage(t: Tables, cfg: Config, p: Packet, m: Maps, c: Ctx): Decision
  {
    var count := Min(cfg.portAclCount, MAX_PORT_ACL);
    Decision(m, c, if count > 0 && !p.fragment && AclDrops(t.acl, count, p.protocol, p.dport, 0) then Discard(m.blocked) else Next)
  }

  function BlacklistStage(t: Tables, cfg: Config, p: Packet, m: Maps, c: Ctx): Decision
  {
    var (m1, hit) := IsBlacklisted(m, p.src, p.now);
    Decision(m1, c, if hit then Discard(m.blocked.(blacklistBlocked := m.blocked.blacklistBlocked + 1)) else Next)
  }

  /** Policy 0 lets fragments pass, 2 drops them, anything else counts them against the port limit of port 0. */
  function FragmentStage(t: Tables, cfg: Config, p: Packet, m: Maps, c: Ctx): Decision
  {
    var limited := p.fragment && cfg.fragmentPolicy != 0 && cfg.fragmentPolicy != 2 && cfg.portRateEnabled;
    var over := PortExceeded(t, m, (p.protocol, 0), p.now);
    Decision(m.(portRate := if limited then PortWindow(t, m, (p.protocol, 0), p.now) else m.portRate), c,
             if (p.fragment && cfg.fragmentPolicy == 2) || (limited && over)
             then Discard(m.blocked.(fragmentBlocked := m.blocked.fragmentBlocked + 1)) else Next)
  }

  function ProjectPolicyOf(t: Tables, cfg: Config, p: Packet): Option<PP.Policy>
  {
    if !cfg.projectEnabled || p.fragment || p.src.family != IPV4 then None
    else PP.LookupFrom(t.projects, p.daddr, p.dport, p.protocol, 0)
  }

  function ProjectStage(t: Tables, cfg: Config, p: Packet, m: Maps, c: Ctx): Decision
  {
    match ProjectPolicyOf(t, cfg, p)
    case None => Decision(m, c, Next)
    case Some(policy) =>
      Decision(m,
               if policy.action == PP.DEFEND then c.(flags := if policy.flags == 0 then FLAGS_ALL else policy.flags) else c,
               if policy.action == PP.PASS then Accept else if policy.action == PP.DROP then Discard(m.blocked) else Next)
  }

  function GeoipStage(t: Tables, cfg: Config, p: Packet, m: Maps, c: Ctx): Decision
  {
    Decision(m, c, if cfg.geoipEnabled && Has(c.flags, M_GEOIP)
                      && (p.src in t.geoBlocked || (cfg.geoipDefaultDrop && p.src !in t.geoAllowed))
                   then Discard(m.blocked.(geoipBlocked := m.blocked.geoipBlocked + 1)) else Next)
  }

  function ConnTrackStep(e: ConnEntry, now: u64, isSyn: bool, isAckOrRst: bool, windowNs: u64): ConnEntry
  {
    var open := if windowNs != 0 && SatSub(now, e.lastSeenNs) > windowNs then 0 else e.halfOpen;
    ConnEntry(now, if isSyn then Sat32(open + 1) else if isAckOrRst then Max(open - 1, 0) else open)
  }

  function NextConn(cfg: Config, m: Maps, p: Packet): ConnEntry
  {
    var e := if p.src in m.connTrack then m.connTrack[p.src] else ConnEntry(0, 0);
    ConnTrackStep(e, p.now, p.IsSyn(), p.IsAckOrRst(), MsToNs(Max(cfg.connTrackWindowMs, 1)))
  }

  /** Only SYN, ACK and RST packets are tracked; an entry without open handshakes is removed. */
  function CheckConnTrack(cfg: Config, m: Maps, p: Packet): (Maps, bool)
  {
    var tracked, e := p.IsSyn() || p.IsAckOrRst(), NextConn(cfg, m, p);
    (m.(connTrack := if !tracked then m.connTrack
                     else if e.halfOpen == 0 then m.connTrack - {p.src} else m.connTrack[p.src := e]),
     tracked && e.halfOpen > Max(cfg.connTrackThreshold, 1))
  }

  function ConnTrackStage(t: Tables, cfg: Config, p: Packet, m: Maps, c: Ctx): Decision
  {
    var checks := cfg.connTrackEnabled && !p.fragment && p.protocol == TCP && Has(c.flags, M_CONN_TRACK);
    var (m1, over) := CheckConnTrack(cfg, m, p);
    Decision(m.(connTrack := if checks then m1.connTrack else m.connTrack), c,
             if checks && over then Discard(m.blocked.(connTrackBlocked := m.blocked.connTrackBlocked + 1)) else Next)
  }

  predicate Marked(m: Maps, src: IpKey, now: u64)
  {
    src in m.challenged && SatSub(now, m.challenged[src]) < SC.CHALLENGE_TIMEOUT_NS
  }

  /** A live mark, or a rate over threshold, which sets a new one; otherwise a lapsed mark is removed. */
  function IsChallengedOrTrigger(t: Tables, cfg: Config, m: Maps, src: IpKey, now: u64): (Maps, bool)
  {
    var marked := Marked(m, src, now);
    var over := UpdateRate(t, cfg, m, src, now).1;
    (m.(rate := if marked then m.rate else UpdateRate(t, cfg, m, src, now).0.rate,
        challenged := if marked then m.challenged else if over then m.challenged[src := now] else m.challenged - {src}),
     marked || over)
  }

  /** The verdict on a SYN of a challenged source. */
  function SynChallenge(t: Tables, p: Packet): Option<Action>
  {
    if p.ipHdrLen != 20 then Some(Drop)
    else if !(20 <= p.tcpHdrLen <= 60) then Some(Drop)
    else if p.ipTotLen != p.ipHdrLen + p.tcpHdrLen then Some(Drop)
    else if p.tcpHdrLen == 24 && !p.optionsReadable then None
    else if t.secrets.None? then Some(Pass)
    else if p.synackSent then
      Some(Challenge(SC.Challenge(SC.Cookie, t.secrets.value, p.flow, p.now, SC.MssToIdx(if p.tcpHdrLen == 24 then p.mss else None))))
    else Some(Drop)
  }

  function HandleSyn(t: Tables, cfg: Config, p: Packet, m: Maps): (Maps, Option<Action>)
  {
    if !p.IsSyn() then (m, None)
    else
      var (m1, challenge) := IsChallengedOrTrigger(t, cfg, m, p.src, p.now);
      (m1, if challenge then SynChallenge(t, p) else None)
  }

  function HandleAck(t: Tables, p: Packet, m: Maps): (Maps, bool)
  {
    var (marks, good) := SC.HandleAck(SC.Cookie, m.challenged, p.src, t.secrets, p.flow, p.now, p.ackNo);
    var acks := p.ack && !p.syn;
    (m.(challenged := if acks then marks else m.challenged), acks && good)
  }

  function SynProxy(t: Tables, cfg: Config, p: Packet, m: Maps, c: Ctx): Decision
  {
    var (m1, verdict) := HandleSyn(t, cfg, p, m);
    var (m2, good) := HandleAck(t, p, m1);
    Decision(if verdict.Some? then m1 else m2,
             c.(rateCounted := p.IsSyn() || c.rateCounted),
             if verdict.Some? then Answer(verdict.value) else if good then Accept else Next)
  }

  /** One per-source detector: over threshold means blocked (unless soft) and dropped. */
  function Detect(t: Tables, cfg: Config, m: Maps, src: IpKey, now: u64, reason: u8, soft: bool): (Maps, bool)
  {
    var (m1, over) := UpdateRate(t, cfg, m, src, now);
    (BlockIf(over && !soft, t, m1, src, now, reason), over)
  }

  datatype Flood = SynF | UdpF | IcmpF

  function FloodReason(k: Flood): u8
  {
    match k case SynF => R_SYN_FLOOD case UdpF => R_UDP_FLOOD case IcmpF => R_ICMP_FLOOD
  }

  function RaiseFlood(b: Blocked, k: Flood): Blocked
  {
    match k
    case SynF => b.(synFloodBlocked := b.synFloodBlocked + 1)
    case UdpF => b.(udpFloodBlocked := b.udpFloodBlocked + 1)
    case IcmpF => b.(icmpFloodBlocked := b.icmpFloodBlocked + 1)
  }

  /** A protocol's per-source detector, if it counts this packet, and then its per-port limit. */
  function FloodCheck(t: Tables, cfg: Config, p: Packet, m: Maps, c: Ctx, k: Flood, counts: bool, soft: bool, dport: u16): Decision
  {
    if !counts then PortRateCheck(t, cfg, p, dport, m, c)
    else
      var c1 := c.(rateCounted := true);
      var (m1, over) := Detect(t, cfg, m, p.src, p.now, FloodReason(k), soft);
      if over then Decision(m1, c1, Discard(RaiseFlood(m1.blocked, k)))
      else PortRateCheck(t, cfg, p, dport, m1, c1)
  }

  /** The per-port limit shared by the protocol checks. */
  function PortRateCheck(t: Tables, cfg: Config, p: Packet, dport: u16, m: Maps, c: Ctx): Decision
  {
    var k := (p.protocol, dport);
    Decision(m.(portRate := if cfg.portRateEnabled then PortWindow(t, m, k, p.now) else m.portRate), c,
             if cfg.portRateEnabled && PortExceeded(t, m, k, p.now)
             then Discard(m.blocked.(portRateBlocked := m.blocked.portRateBlocked + 1)) else Next)
  }

  function TcpStage(t: Tables, cfg: Config, p: Packet, m: Maps, c: Ctx): Decision
  {
    if p.protocol != TCP || !Has(c.flags, M_SYN_FLOOD) || p.fragment then Decision(m, c, Next)
    else if p.src.family == IPV4 && cfg.synProxyEnabled then SynProxy(t, cfg, p, m, c)
    else FloodCheck(t, cfg, p, m, c, SynF, p.IsSyn(), false, p.dport)
  }

  function UdpStage(t: Tables, cfg: Config, p: Packet, m: Maps, c: Ctx): Decision
  {
    if p.protocol != UDP || p.fragment || !Has(c.flags, M_UDP_FLOOD) then Decision(m, c, Next)
    else FloodCheck(t, cfg, p, m, c, UdpF, cfg.udpFloodEnabled, cfg.rateLimitSoft, p.dport)
  }

  function IcmpStage(t: Tables, cfg: Config, p: Packet, m: Maps, c: Ctx): Decision
  {
    if (p.protocol != ICMP && p.protocol != ICMPV6) || p.fragment || !Has(c.flags, M_ICMP_FLOOD) then Decision(m, c, Next)
    else FloodCheck(t, cfg, p, m, c, IcmpF, cfg.icmpFloodEnabled, cfg.rateLimitSoft, 0)
  }

  predicate PatternHit(pat: Pattern, chunk: bv64)
  {
    pat.length != 0 && chunk & pat.mask == pat.signature & pat.mask
  }

  /** Does one of the patterns i, ..., count - 1 match the first eight payload bytes? */
  function L7Hit(patterns: seq<Pattern>, count: nat, chunk: bv64, i: nat): bool
    decreases count - i
  {
    if i >= count then false
    else if i < |patterns| && PatternHit(patterns[i], chunk) then true
    else L7Hit(patterns, count, chunk, i + 1)
  }

  lemma {:induction false} HitMeansSomePattern(patterns: seq<Pattern>, count: nat, chunk: bv64, i: nat)
    ensures L7Hit(patterns, count, chunk, i) <==> exists k :: i <= k < Min(count, |patterns|) && PatternHit(patterns[k], chunk)
    decreases count - i
  {
    if i < count { HitMeansSomePattern(patterns, count, chunk, i + 1); }
  }

  function L7Stage(t: Tables, cfg: Config, p: Packet, m: Maps, c: Ctx): Decision
  {
    var count := Min(cfg.l7PatternCount, MAX_L7_PATTERNS);
    Decision(m, c, if cfg.l7ScanEnabled && count > 0 && Has(c.flags, M_L7_SCAN) && !p.fragment
                      && p.protocol == TCP && p.payload.Some? && L7Hit(t.patterns, count, p.payload.value, 0)
                   then Discard(m.blocked.(l7Blocked := m.blocked.l7Blocked + 1)) else Next)
  }

  function CheckRateLimit(t: Tables, cfg: Config, p: Packet, m: Maps): (Maps, bool)
  {
    if !cfg.rateLimitEnabled then (m, false)
    else
      var (m1, over) := if cfg.dportGrouping then UpdateRatePort(t, cfg, m, p.src, p.dport, p.now) else UpdateRate(t, cfg, m, p.src, p.now);
      (BlockIf(over && !cfg.rateLimitSoft, t, m1, p.src, p.now, R_RATE_LIMIT), over)
  }

  function RateLimitStage(t: Tables, cfg: Config, p: Packet, m: Maps, c: Ctx): Decision
  {
    if !Has(c.flags, M_RATE_LIMIT) || c.rateCounted then Decision(m, c, Next)
    else
      var (m1, over) := CheckRateLimit(t, cfg, p, m);
      Decision(m1, c, if over then Discard(m.blocked.(rateLimited := m.blocked.rateLimited + 1)) else Next)
  }

  const STAGES := 11

  function Stage(i: nat, t: Tables, cfg: Config, p: Packet, m: Maps, c: Ctx): Decision
    requires i < STAGES
  {
    match i
    case 0 => AclStage(t, cfg, p, m, c)
    case 1 => BlacklistStage(t, cfg, p, m, c)
    case 2 => FragmentStage(t, cfg, p, m, c)
    case 3 => ProjectStage(t, cfg, p, m, c)
    case 4 => GeoipStage(t, cfg, p, m, c)
    case 5 => ConnTrackStage(t, cfg, p, m, c)
    case 6 => TcpStage(t, cfg, p, m, c)
    case 7 => UdpStage(t, cfg, p, m, c)
    case 8 => IcmpStage(t, cfg, p, m, c)
    case 9 => L7Stage(t, cfg, p, m, c)
    case _ => RateLimitStage(t, cfg, p, m, c)
  }

  /** The first check from i on with a verdict decides; a packet no check decides passes. */
  function StagesFrom(i: nat, t: Tables, cfg: Config, p: Packet, m: Maps, c: Ctx): Out
    requires i <= STAGES
    decreases STAGES - i, p
  {
    if i == STAGES then Finish(cfg, p, Decision(m, c, Accept))
    else
      var out := Finish(cfg, p, Stage(i, t, cfg, p, m, c));
      if out.action.Some? then out else StagesFrom(i + 1, t, cfg, p, out.m, out.c)
  }

  function Arrived(m: Maps): Maps { m.(totals := m.totals.(totalPackets := m.totals.totalPackets + 1)) }

  /** The whitelist exempts from all checks. */
  function Filtered(t: Tables, cfg: Config, p: Packet, m: Maps, c: Ctx): Out
  {
    if p.src in t.whitelist then Finish(cfg, p, Decision(m, c, Accept)) else StagesFrom(0, t, cfg, p, m, c)
  }

  /** One parsed packet. */
  function Process(t: Tables, p: Packet, m: Maps): (Maps, Action)
  {
    if t.config.None? then (Arrived(m), Pass)
    else
      var out := Filtered(t, t.config.value, p, Arrived(m), Ctx(false, FLAGS_ALL));
      (out.m, if out.action.Some? then out.action.value else Pass)
  }
}
