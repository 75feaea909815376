/**
 Why packets are dropped: a packet is dropped exactly if some check that it reaches
 has a cause to object to it, and it is then counted under that cause alone.
 */
module Verdicts {
  import opened Words
  import PP = ProjectPolicy
  import opened DataPlane
  import opened DataPlaneRuns
  import opened CountedOnce
  import opened Handshake
  import Accounting
  import ConnTracking
  import PortLimits

  datatype Cause =
    | AclEntryDrops | SourceListed | FragmentUnwanted | ProjectDrops | CountryBlocked | TooManyHalfOpen
    | SynFlood | UdpFlood | IcmpFlood | PortBusy | PatternFound | SourceBusy
  {
    /** The check that objects for this cause. */
    function Check(p: Packet): nat
    {
      match this
      case AclEntryDrops => 0 case SourceListed => 1 case FragmentUnwanted => 2 case ProjectDrops => 3
      case CountryBlocked => 4 case TooManyHalfOpen => 5 case SynFlood => 6 case UdpFlood => 7 case IcmpFlood => 8
      case PortBusy => Own(p) case PatternFound => 9 case SourceBusy => 10
    }

    /** The counter it raises; the access list and the projects have none. */
    function Raise(b: Blocked): Blocked
    {
      match this
      case AclEntryDrops => b
      case ProjectDrops => b
      case SourceListed => b.(blacklistBlocked := b.blacklistBlocked + 1)
      case FragmentUnwanted => b.(fragmentBlocked := b.fragmentBlocked + 1)
      case CountryBlocked => b.(geoipBlocked := b.geoipBlocked + 1)
      case TooManyHalfOpen => b.(connTrackBlocked := b.connTrackBlocked + 1)
      case SynFlood => b.(synFloodBlocked := b.synFloodBlocked + 1)
      case UdpFlood => b.(udpFloodBlocked := b.udpFloodBlocked + 1)
      case IcmpFlood => b.(icmpFloodBlocked := b.icmpFloodBlocked + 1)
      case PortBusy => b.(portRateBlocked := b.portRateBlocked + 1)
      case PatternFound => b.(l7Blocked := b.l7Blocked + 1)
      case SourceBusy => b.(rateLimited := b.rateLimited + 1)
    }
  }

  // ----- What the causes mean -----

  /** The entry is about packets like this one: 0 stands for any protocol or port, and no upper port for a single one. */
  predicate Covers(e: AclEntry, p: Packet)
  {
    && (e.protocol == 0 || e.protocol == p.protocol)
    && (e.dportLow == 0 || e.dportLow <= p.dport <= (if e.dportHigh == 0 then e.dportLow else e.dportHigh))
  }

  /** It decides: 1 lets the packet on, 2 drops it. */
  predicate Decides(e: AclEntry, p: Packet) { e.action in {1, 2} && Covers(e, p) }

  /** Entry k decides first, of the configured ones and at most 32. */
  predicate DecidesFirst(t: Tables, cfg: Config, p: Packet, k: nat)
  {
    && k < |t.acl| && k < cfg.portAclCount && k < 32 && Decides(t.acl[k], p)
    && forall j :: 0 <= j < k ==> !Decides(t.acl[j], p)
  }

  /** Counting this packet takes its source over its threshold. */
  predicate RateOver(t: Tables, cfg: Config, p: Packet, m: Maps)
  {
    Exceeds(t, cfg, m, p.src, Counted(t, m.rate, p.src, p.now), p.src)
  }

  predicate PortRateOver(t: Tables, cfg: Config, p: Packet, m: Maps)
  {
    Exceeds(t, cfg, m, p.src, Counted(t, m.ratePort, (p.src, p.dport), p.now), (p.src, p.dport))
  }

  /** The packet is one that its protocol's own check looks at itself, rather than the SYN proxy. */
  predicate OwnLooks(cfg: Config, p: Packet, c: Ctx)
  {
    && !p.fragment
    && (if p.protocol == 6 then Has(c.flags, 1) && !(p.src.family == IPV4 && cfg.synProxyEnabled)
        else if p.protocol == 17 then Has(c.flags, 2)
        else (p.protocol == 1 || p.protocol == 58) && Has(c.flags, 4))
  }

  /** And counts for its source. */
  predicate OwnCounts(cfg: Config, p: Packet)
  {
    if p.protocol == 6 then p.IsSyn() else if p.protocol == 17 then cfg.udpFloodEnabled else cfg.icmpFloodEnabled
  }

  predicate Flooding(t: Tables, cfg: Config, p: Packet, m: Maps, c: Ctx)
  {
    OwnLooks(cfg, p, c) && OwnCounts(cfg, p) && RateOver(t, cfg, p, m)
  }

  predicate Busy(t: Tables, cfg: Config, p: Packet, m: Maps, c: Ctx)
  {
    OwnLooks(cfg, p, c) && !Flooding(t, cfg, p, m, c) && cfg.portRateEnabled && PortExceeded(t, m, PortLimits.PortKey(p), p.now)
  }

  ghost predicate SomePattern(t: Tables, cfg: Config, chunk: bv64)
  {
    exists k :: 0 <= k < |t.patterns| && k < cfg.l7PatternCount && k < 8 && PatternHit(t.patterns[k], chunk)
  }

  /** There is this cause to object to the packet, in the state in which the check finds it. */
  ghost predicate Objects(cause: Cause, t: Tables, cfg: Config, p: Packet, m: Maps, c: Ctx)
  {
    match cause
    case AclEntryDrops => !p.fragment && exists k: nat :: DecidesFirst(t, cfg, p, k) && t.acl[k].action == 2
    case SourceListed => p.src in m.blacklist && (m.blacklist[p.src].blockedUntilNs == 0 || p.now < m.blacklist[p.src].blockedUntilNs)
    case FragmentUnwanted =>
      p.fragment && (cfg.fragmentPolicy == 2
                     || (cfg.fragmentPolicy != 0 && cfg.portRateEnabled && PortExceeded(t, m, PortLimits.PortKey(p), p.now)))
    case ProjectDrops =>
      && cfg.projectEnabled && !p.fragment && p.src.family == IPV4
      && PP.LookupFrom(t.projects, p.daddr, p.dport, p.protocol, 0).Some?
      && PP.LookupFrom(t.projects, p.daddr, p.dport, p.protocol, 0).value.action == PP.DROP
    case CountryBlocked =>
      cfg.geoipEnabled && Has(c.flags, 64) && (p.src in t.geoBlocked || (cfg.geoipDefaultDrop && p.src !in t.geoAllowed))
    case TooManyHalfOpen => ConnTracking.ChecksTrack(cfg, p, c) && ConnTracking.TooMany(cfg, ConnTracking.TrackedEntry(cfg, m, p))
    case SynFlood => p.protocol == 6 && Flooding(t, cfg, p, m, c)
    case UdpFlood => p.protocol == 17 && Flooding(t, cfg, p, m, c)
    case IcmpFlood => p.protocol != 6 && p.protocol != 17 && Flooding(t, cfg, p, m, c)
    case PortBusy => Busy(t, cfg, p, m, c)
    case PatternFound =>
      && cfg.l7ScanEnabled && Has(c.flags, 32) && !p.fragment && p.protocol == 6
      && p.payload.Some? && SomePattern(t, cfg, p.payload.value)
    case SourceBusy =>
      && cfg.rateLimitEnabled && Has(c.flags, 8) && !c.rateCounted
      && (if cfg.dportGrouping then PortRateOver(t, cfg, p, m) else RateOver(t, cfg, p, m))
  }

  // ----- The checks object for these causes -----

  /** The check objects for this cause, or for none. */
  ghost predicate ObjectsIff(cause: Cause, t: Tables, cfg: Config, p: Packet, m: Maps, c: Ctx, d: Decision)
  {
    if Objects(cause, t, cfg, p, m, c) then d.verdict == Discard(cause.Raise(m.blocked)) else !d.verdict.Discard?
  }

  lemma EntryMeans(e: AclEntry, p: Packet)
    ensures MatchAcl(p.protocol, p.dport, e) == Some(true) <==> e.action == 2 && Covers(e, p)
    ensures MatchAcl(p.protocol, p.dport, e) == None <==> !Decides(e, p)
  {
  }

  lemma ListDropsIff(t: Tables, cfg: Config, p: Packet)
    ensures AclDrops(t.acl, Min(cfg.portAclCount, 32), p.protocol, p.dport, 0)
            <==> exists k: nat :: DecidesFirst(t, cfg, p, k) && t.acl[k].action == 2
  {
    var count := Min(cfg.portAclCount, 32);
    FirstMatchDecides(t.acl, count, p.protocol, p.dport, 0);
    forall k | 0 <= k < |t.acl|
      ensures MatchAcl(p.protocol, p.dport, t.acl[k]) == Some(true) <==> t.acl[k].action == 2 && Covers(t.acl[k], p)
      ensures MatchAcl(p.protocol, p.dport, t.acl[k]) == None <==> !Decides(t.acl[k], p)
    {
      EntryMeans(t.acl[k], p);
    }
    if AclDrops(t.acl, count, p.protocol, p.dport, 0) {
      var k :| 0 <= k < Min(count, |t.acl|) && MatchAcl(p.protocol, p.dport, t.acl[k]) == Some(true)
               && forall j :: 0 <= j < k ==> MatchAcl(p.protocol, p.dport, t.acl[j]) == None;
      assert DecidesFirst(t, cfg, p, k);
    }
    if k: nat :| DecidesFirst(t, cfg, p, k) && t.acl[k].action == 2 {
      assert MatchAcl(p.protocol, p.dport, t.acl[k]) == Some(true);
      assert forall j :: 0 <= j < k ==> MatchAcl(p.protocol, p.dport, t.acl[j]) == None;
      assert k < Min(count, |t.acl|);
    }
  }

  lemma AclObjects(t: Tables, cfg: Config, p: Packet, m: Maps, c: Ctx)
    ensures ObjectsIff(AclEntryDrops, t, cfg, p, m, c, AclStage(t, cfg, p, m, c))
  {
    ListDropsIff(t, cfg, p);
    if Min(cfg.portAclCount, 32) == 0 { assert !AclDrops(t.acl, 0, p.protocol, p.dport, 0); }
  }

  lemma ListObjects(t: Tables, cfg: Config, p: Packet, m: Maps, c: Ctx)
    ensures ObjectsIff(SourceListed, t, cfg, p, m, c, BlacklistStage(t, cfg, p, m, c))
  {
  }

  lemma FragmentObjects(t: Tables, cfg: Config, p: Packet, m: Maps, c: Ctx)
    ensures ObjectsIff(FragmentUnwanted, t, cfg, p, m, c, FragmentStage(t, cfg, p, m, c))
  {
  }

  lemma ProjectObjects(t: Tables, cfg: Config, p: Packet, m: Maps, c: Ctx)
    ensures ObjectsIff(ProjectDrops, t, cfg, p, m, c, ProjectStage(t, cfg, p, m, c))
  {
  }

  lemma GeoipObjects(t: Tables, cfg: Config, p: Packet, m: Maps, c: Ctx)
    ensures ObjectsIff(CountryBlocked, t, cfg, p, m, c, GeoipStage(t, cfg, p, m, c))
  {
  }

  lemma HalfOpenObjects(t: Tables, cfg: Config, p: Packet, m: Maps, c: Ctx)
    ensures ObjectsIff(TooManyHalfOpen, t, cfg, p, m, c, ConnTrackStage(t, cfg, p, m, c))
  {
    ConnTracking.TrackStage(t, cfg, p, m, c);
  }

  lemma PatternObjects(t: Tables, cfg: Config, p: Packet, m: Maps, c: Ctx)
    ensures ObjectsIff(PatternFound, t, cfg, p, m, c, L7Stage(t, cfg, p, m, c))
  {
    if p.payload.Some? { HitMeansSomePattern(t.patterns, Min(cfg.l7PatternCount, MAX_L7_PATTERNS), p.payload.value, 0); }
  }

  lemma RateObjects(t: Tables, cfg: Config, p: Packet, m: Maps, c: Ctx)
    ensures ObjectsIff(SourceBusy, t, cfg, p, m, c, RateLimitStage(t, cfg, p, m, c))
  {
  }

  /** The cause of an own check: a flood first, and then the port. */
  function OwnCause(t: Tables, cfg: Config, p: Packet, m: Maps, c: Ctx): Cause
  {
    if !Flooding(t, cfg, p, m, c) then PortBusy else FloodCause(p)
  }

  function FloodCause(p: Packet): Cause { if p.protocol == 6 then SynFlood else if p.protocol == 17 then UdpFlood else IcmpFlood }

  lemma FloodObjects(t: Tables, cfg: Config, p: Packet, m: Maps, c: Ctx, k: Flood, counts: bool, soft: bool, dport: u16)
    requires dport == PortLimits.PortKey(p).1
    ensures var d := FloodCheck(t, cfg, p, m, c, k, counts, soft, dport);
            if counts && RateOver(t, cfg, p, m) then d.verdict == Discard(RaiseFlood(m.blocked, k))
            else if cfg.portRateEnabled && PortExceeded(t, m, PortLimits.PortKey(p), p.now) then d.verdict == Discard(PortBusy.Raise(m.blocked))
            else d.verdict == Next
  {
    if counts { DetectTells(t, cfg, m, p, FloodReason(k), soft); }
  }

  lemma DetectTells(t: Tables, cfg: Config, m: Maps, p: Packet, reason: u8, soft: bool)
    ensures var (m', over) := Detect(t, cfg, m, p.src, p.now, reason, soft);
            (over <==> RateOver(t, cfg, p, m)) && m'.blocked == m.blocked && m'.portRate == m.portRate
  {
  }

  /** An own check looks for a flood first, and then at the port. */
  lemma OwnVerdict(t: Tables, cfg: Config, p: Packet, m: Maps, c: Ctx)
    ensures var d := Stage(Own(p), t, cfg, p, m, c);
            if !OwnLooks(cfg, p, c) then !d.verdict.Discard?
            else if OwnCounts(cfg, p) && RateOver(t, cfg, p, m) then d.verdict == Discard(FloodCause(p).Raise(m.blocked))
            else if cfg.portRateEnabled && PortExceeded(t, m, PortLimits.PortKey(p), p.now) then d.verdict == Discard(PortBusy.Raise(m.blocked))
            else d.verdict == Next
  {
    if !OwnLooks(cfg, p, c) {
      PortLimits.SynProxyPorts(t, cfg, p, m, c);
    } else if p.protocol == 6 {
      FloodObjects(t, cfg, p, m, c, SynF, p.IsSyn(), false, p.dport);
    } else if p.protocol == 17 {
      FloodObjects(t, cfg, p, m, c, UdpF, cfg.udpFloodEnabled, cfg.rateLimitSoft, p.dport);
    } else {
      FloodObjects(t, cfg, p, m, c, IcmpF, cfg.icmpFloodEnabled, cfg.rateLimitSoft, 0);
    }
  }

  lemma FloodIsCause(cause: Cause, t: Tables, cfg: Config, p: Packet, m: Maps, c: Ctx)
    requires cause == FloodCause(p)
    ensures Objects(cause, t, cfg, p, m, c) <==> Flooding(t, cfg, p, m, c)
  {
    assert cause.SynFlood? || cause.UdpFlood? || cause.IcmpFlood?;
  }

  lemma OwnObjects(t: Tables, cfg: Config, p: Packet, m: Maps, c: Ctx)
    ensures ObjectsIff(OwnCause(t, cfg, p, m, c), t, cfg, p, m, c, Stage(Own(p), t, cfg, p, m, c))
  {
    OwnVerdict(t, cfg, p, m, c);
    if Flooding(t, cfg, p, m, c) {
      FloodIsCause(FloodCause(p), t, cfg, p, m, c);
    } else {
      assert Objects(PortBusy, t, cfg, p, m, c) <==> Busy(t, cfg, p, m, c);
    }
  }

  /** The one cause for which check i may object. */
  function CauseAt(i: nat, t: Tables, cfg: Config, p: Packet, m: Maps, c: Ctx): Cause
  {
    match i
    case 0 => AclEntryDrops case 1 => SourceListed case 2 => FragmentUnwanted case 3 => ProjectDrops
    case 4 => CountryBlocked case 5 => TooManyHalfOpen case 9 => PatternFound case 10 => SourceBusy
    case _ => OwnCause(t, cfg, p, m, c)
  }

  /** A flood check of another protocol looks away. */
  predicate LooksAway(i: nat, p: Packet) { 6 <= i <= 8 && i != Own(p) }

  lemma StageObjects(i: nat, t: Tables, cfg: Config, p: Packet, m: Maps, c: Ctx)
    requires i < STAGES && !LooksAway(i, p)
    ensures ObjectsIff(CauseAt(i, t, cfg, p, m, c), t, cfg, p, m, c, Stage(i, t, cfg, p, m, c))
  {
    match i
    case 0 => AclObjects(t, cfg, p, m, c);
    case 1 => ListObjects(t, cfg, p, m, c);
    case 2 => FragmentObjects(t, cfg, p, m, c);
    case 3 => ProjectObjects(t, cfg, p, m, c);
    case 4 => GeoipObjects(t, cfg, p, m, c);
    case 5 => HalfOpenObjects(t, cfg, p, m, c);
    case 9 => PatternObjects(t, cfg, p, m, c);
    case 10 => RateObjects(t, cfg, p, m, c);
    case _ => OwnObjects(t, cfg, p, m, c);
  }

  predicate IsOwn(cause: Cause) { cause in {SynFlood, UdpFlood, IcmpFlood, PortBusy} }

  lemma BusyMeans(cause: Cause, t: Tables, cfg: Config, p: Packet, m: Maps, c: Ctx)
    requires cause == PortBusy && Objects(cause, t, cfg, p, m, c)
    ensures Busy(t, cfg, p, m, c)
  {
  }

  lemma FloodMeans(cause: Cause, t: Tables, cfg: Config, p: Packet, m: Maps, c: Ctx)
    requires cause.SynFlood? || cause.UdpFlood? || cause.IcmpFlood?
    requires Objects(cause, t, cfg, p, m, c)
    ensures cause == FloodCause(p) && Flooding(t, cfg, p, m, c)
  {
  }

  lemma OwnCauseIs(cause: Cause, t: Tables, cfg: Config, p: Packet, m: Maps, c: Ctx)
    requires IsOwn(cause) && Objects(cause, t, cfg, p, m, c)
    ensures cause == OwnCause(t, cfg, p, m, c)
  {
    if cause == PortBusy {
      BusyMeans(cause, t, cfg, p, m, c);
    } else {
      FloodMeans(cause, t, cfg, p, m, c);
    }
  }

  lemma FloodCheckIsOwn(p: Packet)
    ensures FloodCause(p).Check(p) == Own(p) && PortBusy.Check(p) == Own(p) && Own(p) in {6, 7, 8}
  {
  }

  lemma OtherIsAt(cause: Cause, t: Tables, cfg: Config, p: Packet, m: Maps, c: Ctx)
    requires !IsOwn(cause)
    ensures cause.Check(p) !in {6, 7, 8} && cause.Check(p) < STAGES && CauseAt(cause.Check(p), t, cfg, p, m, c) == cause
  {
  }

  /** Check i is the one that objects for this cause. */
  predicate IsAt(cause: Cause, i: nat, t: Tables, cfg: Config, p: Packet, m: Maps, c: Ctx)
  {
    i < STAGES && !LooksAway(i, p) && CauseAt(i, t, cfg, p, m, c) == cause
  }

  lemma OwnIsAt(cause: Cause, i: nat, t: Tables, cfg: Config, p: Packet, m: Maps, c: Ctx)
    requires cause == OwnCause(t, cfg, p, m, c) && i == cause.Check(p)
    ensures IsAt(cause, i, t, cfg, p, m, c)
  {
    FloodCheckIsOwn(p);
  }

  lemma CauseIsAt(cause: Cause, i: nat, t: Tables, cfg: Config, p: Packet, m: Maps, c: Ctx)
    requires Objects(cause, t, cfg, p, m, c) && i == cause.Check(p)
    ensures IsAt(cause, i, t, cfg, p, m, c)
  {
    if IsOwn(cause) {
      OwnCauseIs(cause, t, cfg, p, m, c);
      OwnIsAt(cause, i, t, cfg, p, m, c);
    } else {
      OtherIsAt(cause, t, cfg, p, m, c);
    }
  }

  lemma CauseHasCheck(i: nat, t: Tables, cfg: Config, p: Packet, m: Maps, c: Ctx)
    requires i < STAGES && !LooksAway(i, p)
    ensures CauseAt(i, t, cfg, p, m, c).Check(p) == i
  {
    FloodCheckIsOwn(p);
  }

  // ----- The whole packet -----

  lemma {:induction false} UptoCountsNothing(i: nat, j: nat, t: Tables, cfg: Config, p: Packet, m: Maps, c: Ctx)
    requires i <= j <= STAGES && Upto(i, j, t, cfg, p, m, c).Some?
    ensures var m' := Upto(i, j, t, cfg, p, m, c).value.0; m'.blocked == m.blocked && m'.totals == m.totals
    decreases j - i
  {
    if i < j {
      PortLimits.StagePorts(i, t, cfg, p, m, c);
      Accounting.StageLeavesTotals(i, t, cfg, p, m, c);
      var d := Stage(i, t, cfg, p, m, c);
      UptoCountsNothing(i + 1, j, t, cfg, p, d.m, d.c);
    }
  }

  /** A dropped TCP packet is reset if resets are on, it has a plain IP header and the reset can be sent. */
  predicate IsReset(cfg: Config, p: Packet) { cfg.tcpResetOnDrop && p.protocol == 6 && p.ipHdrLen == 20 && p.resetSent }

  /** The packet is dropped and counted, once in total and for its protocol, and under the cause. */
  ghost predicate DroppedFor(cause: Cause, cfg: Config, p: Packet, m: Maps, m': Maps, a: Action)
  {
    && a == (if IsReset(cfg, p) then Reset else Drop)
    && m'.blocked == cause.Raise(m.blocked)
    && m'.totals == CountDrop(m.totals, p.protocol)
  }

  lemma DiscardDrops(cfg: Config, p: Packet, d: Decision)
    requires d.verdict.Discard?
    ensures var out := Finish(cfg, p, d);
            && out.action == Some(if IsReset(cfg, p) then Reset else Drop)
            && out.m.blocked == d.verdict.blocked && out.m.totals == CountDrop(d.m.totals, p.protocol)
  {
    DropIsBookkeeping(cfg, p, d.m.(blocked := d.verdict.blocked, totals := CountDrop(d.m.totals, p.protocol)));
  }

  lemma ObjectionDrops(cause: Cause, i: nat, t: Tables, cfg: Config, p: Packet, m: Maps, c: Ctx)
    requires Objects(cause, t, cfg, p, m, c) && i == cause.Check(p) && i < STAGES
    ensures var out := StagesFrom(i, t, cfg, p, m, c);
            out.action.Some? && DroppedFor(cause, cfg, p, m, out.m, out.action.value)
  {
    var d := Stage(i, t, cfg, p, m, c);
    CauseIsAt(cause, i, t, cfg, p, m, c);
    StageObjects(i, t, cfg, p, m, c);
    Accounting.StageLeavesTotals(i, t, cfg, p, m, c);
    DiscardDrops(cfg, p, d);
  }

  /** The packet gets as far as the check that objects for this cause, and there is such a cause. */
  ghost predicate Meets(cause: Cause, t: Tables, p: Packet, m: Maps)
  {
    t.config.Some? && p.src !in t.whitelist && cause.Check(p) < STAGES &&
    var cfg := t.config.value;
    var at := Upto(0, cause.Check(p), t, cfg, p, Arrived(m), Ctx(false, FLAGS_ALL));
    at.Some? && Objects(cause, t, cfg, p, at.value.0, at.value.1)
  }

  /** A packet that meets an objection is dropped, and counted for that cause and no other. */
  lemma ObjectionDecides(cause: Cause, t: Tables, p: Packet, m: Maps)
    requires Meets(cause, t, p, m)
    ensures var (m', a) := Process(t, p, m); DroppedFor(cause, t.config.value, p, Arrived(m), m', a)
  {
    var cfg, c, i := t.config.value, Ctx(false, FLAGS_ALL), cause.Check(p);
    UptoContinues(0, i, t, cfg, p, Arrived(m), c);
    UptoCountsNothing(0, i, t, cfg, p, Arrived(m), c);
    var (m1, c1) := Upto(0, i, t, cfg, p, Arrived(m), c).value;
    ObjectionDrops(cause, i, t, cfg, p, m1, c1);
  }

  /** What stops the packet from check i on: an objection of check j, or the SYN proxy that drops its SYN. */
  ghost predicate StoppedAt(i: nat, j: nat, cause: Cause, t: Tables, cfg: Config, p: Packet, m: Maps, c: Ctx)
    requires i <= j <= STAGES
  {
    var at := Upto(i, j, t, cfg, p, m, c);
    at.Some? && j < STAGES &&
    var (m1, c1) := at.value;
    || (cause.Check(p) == j && Objects(cause, t, cfg, p, m1, c1))
    || (j == 6 && Proxied(cfg, p, c1) && SynProxy(t, cfg, p, m1, c1).verdict == Answer(Drop))
  }

  lemma DropTells(cfg: Config, p: Packet, d: Decision)
    requires Finish(cfg, p, d).action in {Some(Drop), Some(Reset)}
    ensures d.verdict.Discard? || d.verdict == Answer(Drop) || d.verdict == Answer(Reset)
  {
  }

  lemma ProxyNeverResets(t: Tables, cfg: Config, p: Packet, m: Maps, c: Ctx)
    ensures SynProxy(t, cfg, p, m, c).verdict != Answer(Reset) && !SynProxy(t, cfg, p, m, c).verdict.Discard?
  {
  }

  lemma StageStops(i: nat, t: Tables, cfg: Config, p: Packet, m: Maps, c: Ctx) returns (cause: Cause)
    requires i < STAGES && Finish(cfg, p, Stage(i, t, cfg, p, m, c)).action in {Some(Drop), Some(Reset)}
    ensures StoppedAt(i, i, cause, t, cfg, p, m, c)
  {
    var d := Stage(i, t, cfg, p, m, c);
    cause := CauseAt(i, t, cfg, p, m, c);
    DropTells(cfg, p, d);
    if LooksAway(i, p) {
      PortLimits.SkippedFlood(i, t, cfg, p, m, c);
    } else if d.verdict.Discard? {
      StageObjects(i, t, cfg, p, m, c);
      CauseHasCheck(i, t, cfg, p, m, c);
    } else if i == 6 && Proxied(cfg, p, c) {
      ProxyNeverResets(t, cfg, p, m, c);
    } else {
      OtherStageKeepsMarks(i, t, cfg, p, m, c);
    }
  }

  lemma {:induction false} DropHasStop(i: nat, t: Tables, cfg: Config, p: Packet, m: Maps, c: Ctx) returns (j: nat, cause: Cause)
    requires i <= STAGES && StagesFrom(i, t, cfg, p, m, c).action in {Some(Drop), Some(Reset)}
    ensures i <= j < STAGES && StoppedAt(i, j, cause, t, cfg, p, m, c)
    decreases STAGES - i
  {
    if i == STAGES {
      FinishLeavesRates(cfg, p, Decision(m, c, Accept));
      assert false;
    } else {
      var d := Stage(i, t, cfg, p, m, c);
      FinishLeavesRates(cfg, p, d);
      if d.verdict.Next? {
        j, cause := DropHasStop(i + 1, t, cfg, p, d.m, d.c);
      } else {
        j := i;
        cause := StageStops(i, t, cfg, p, m, c);
      }
    }
  }

  /** The packet is a suspect's SYN that the proxy drops for want of a challenge. */
  ghost predicate UnchallengedSyn(t: Tables, p: Packet, m: Maps)
  {
    && ReachesProxy(t, p, m) && p.IsSyn()
    && Suspect(t, t.config.value, p, AtProxy(t, p, m))
    && (!Plain(p) || (t.secrets.Some? && !p.synackSent && !OptionsLost(p)))
  }

  /**
   Main result: a packet is dropped exactly if a check that it reaches has a cause
   to object, or it is a SYN that should be challenged and cannot be.
   */
  lemma DroppedIffObjected(t: Tables, p: Packet, m: Maps)
    requires PastMark(m, p)
    ensures Process(t, p, m).1 in {Drop, Reset} <==> (exists cause :: Meets(cause, t, p, m)) || UnchallengedSyn(t, p, m)
  {
    if cause :| Meets(cause, t, p, m) { ObjectionDecides(cause, t, p, m); }
    if UnchallengedSyn(t, p, m) { SynIsChallengedIff(t, p, m); }
    if Process(t, p, m).1 in {Drop, Reset} { DropHasCause(t, p, m); }
  }

  lemma DropHasCause(t: Tables, p: Packet, m: Maps)
    requires PastMark(m, p) && Process(t, p, m).1 in {Drop, Reset}
    ensures (exists cause :: Meets(cause, t, p, m)) || UnchallengedSyn(t, p, m)
  {
    var cfg, c := t.config.value, Ctx(false, FLAGS_ALL);
    FinishLeavesRates(cfg, p, Decision(Arrived(m), c, Accept));
    PortLimits.SomeVerdict(0, t, cfg, p, Arrived(m), c);
    var j, cause := DropHasStop(0, t, cfg, p, Arrived(m), c);
    var (m1, c1) := Upto(0, j, t, cfg, p, Arrived(m), c).value;
    if cause.Check(p) == j && Objects(cause, t, cfg, p, m1, c1) {
      assert Meets(cause, t, p, m);
    } else {
      ProxyStop(t, p, m, j);
    }
  }

  lemma ProxyStop(t: Tables, p: Packet, m: Maps, j: nat)
    requires j == 6 && ReachesProxy(t, p, m) && PastMark(m, p)
    requires var (m1, c1) := Upto(0, j, t, t.config.value, p, Arrived(m), Ctx(false, FLAGS_ALL)).value;
             SynProxy(t, t.config.value, p, m1, c1).verdict == Answer(Drop)
    ensures UnchallengedSyn(t, p, m)
  {
    var cfg, c := t.config.value, Ctx(false, FLAGS_ALL);
    var (m1, c1) := Upto(0, j, t, cfg, p, Arrived(m), c).value;
    UptoKeepsMarks(0, j, t, cfg, p, Arrived(m), c);
    AnsweredSyn(t, cfg, p, m1, c1);
    ProxyOnSyn(t, cfg, p, m1, c1);
  }

  lemma AnsweredSyn(t: Tables, cfg: Config, p: Packet, m: Maps, c: Ctx)
    requires SynProxy(t, cfg, p, m, c).verdict.Answer?
    ensures p.IsSyn()
  {
  }

  /** A whitelisted source passes, and no check so much as looks at the packet. */
  lemma WhitelistedPasses(t: Tables, p: Packet, m: Maps)
    requires t.config.Some? && p.src in t.whitelist
    ensures var (m', a) := Process(t, p, m);
            && a == Pass && m'.blocked == m.blocked && Bookkeeping(m, m')
            && m'.totals == m.totals.(totalPackets := m.totals.totalPackets + 1, totalPassed := m.totals.totalPassed + 1)
  {
    PassIsBookkeeping(t.config.value, p, Arrived(m));
  }
}
