/**
 What a protection project makes of a packet, from its own words: the project that
 decides lets the packet pass, has it dropped, or leaves it to the modules it lists.
 */
module ProjectVerdicts {
  import opened Words
  import PP = ProjectPolicy
  import opened DataPlane
  import opened DataPlaneRuns
  import opened CountedOnce
  import PortLimits

  // ----- Modules -----

  predicate Known(name: string)
  {
    name in {"syn_flood", "udp_flood", "icmp_flood", "rate_limit", "adaptive", "l7_scan", "geoip", "tcp_reset", "port_acl", "conn_track"}
  }

  /** A module is on if the list names it, or names none that is known. */
  predicate On(ms: seq<string>, name: string) { name in ms || NoneKnown(ms) }

  predicate NoneKnown(ms: seq<string>) { forall x :: x in ms ==> !Known(x) }

  /** The modules with a check after the project's. */
  datatype Module = Syn | Udp | Icmp | Rate | L7 | Geo | Conn
  {
    function Name(): string
    {
      match this
      case Syn => "syn_flood" case Udp => "udp_flood" case Icmp => "icmp_flood" case Rate => "rate_limit"
      case L7 => "l7_scan" case Geo => "geoip" case Conn => "conn_track"
    }

    function Mask(): bv16
    {
      match this
      case Syn => M_SYN_FLOOD case Udp => M_UDP_FLOOD case Icmp => M_ICMP_FLOOD case Rate => M_RATE_LIMIT
      case L7 => M_L7_SCAN case Geo => M_GEOIP case Conn => M_CONN_TRACK
    }
  }

  function And(f: bv16, g: bv16): bv16 { f & g }
  function Or(f: bv16, g: bv16): bv16 { f | g }

  lemma AndOr(f: bv16, g: bv16, b: bv16)
    ensures And(Or(f, g), b) == Or(And(f, b), And(g, b))
  {
  }

  lemma OrZero(f: bv16, g: bv16)
    ensures Or(f, g) == 0 <==> f == 0 && g == 0
  {
  }

  lemma OrHas(f: bv16, g: bv16, b: bv16)
    ensures Has(Or(f, g), b) <==> Has(f, b) || Has(g, b)
  {
    AndOr(f, g, b);
    OrZero(And(f, b), And(g, b));
  }

  predicate NameHas(x: string, n: Module) { Has(PP.ModuleBit(x), n.Mask()) }
  predicate ListHas(ms: seq<string>, n: Module) { Has(PP.ModuleFlags(ms), n.Mask()) }
  predicate NameEmpty(x: string) { PP.ModuleBit(x) == 0 }
  predicate ListEmpty(ms: seq<string>) { PP.ModuleFlags(ms) == 0 }

  lemma BitOfName(x: string, n: Module)
    ensures NameHas(x, n) <==> x == n.Name()
  {
  }

  lemma KnownHasBit(x: string)
    ensures NameEmpty(x) <==> !Known(x)
  {
  }

  lemma EmptyList(n: Module)
    ensures !ListHas([], n) && ListEmpty([])
  {
  }

  lemma FlagsSnoc(ms: seq<string>)
    requires ms != []
    ensures PP.ModuleFlags(ms) == Or(PP.ModuleFlags(ms[..|ms| - 1]), PP.ModuleBit(ms[|ms| - 1]))
  {
  }

  lemma ListSnoc(ms: seq<string>, n: Module)
    requires ms != []
    ensures ListHas(ms, n) <==> ListHas(ms[..|ms| - 1], n) || NameHas(ms[|ms| - 1], n)
    ensures ListEmpty(ms) <==> ListEmpty(ms[..|ms| - 1]) && NameEmpty(ms[|ms| - 1])
  {
    var front, x := ms[..|ms| - 1], ms[|ms| - 1];
    FlagsSnoc(ms);
    OrHas(PP.ModuleFlags(front), PP.ModuleBit(x), n.Mask());
    OrZero(PP.ModuleFlags(front), PP.ModuleBit(x));
  }

  lemma {:induction false} FlagsMean(ms: seq<string>, n: Module)
    ensures ListHas(ms, n) <==> n.Name() in ms
    ensures ListEmpty(ms) <==> NoneKnown(ms)
  {
    if ms == [] {
      EmptyList(n);
    } else {
      var front, x := ms[..|ms| - 1], ms[|ms| - 1];
      FlagsMean(front, n);
      BitOfName(x, n);
      KnownHasBit(x);
      ListSnoc(ms, n);
      assert forall y :: y in ms <==> y in front || y == x;
    }
  }

  /** The flags a packet of a defending project carries. */
  function DefendFlags(ms: seq<string>): bv16
  {
    if PP.ModuleFlags(ms) == 0 then FLAGS_ALL else PP.ModuleFlags(ms)
  }

  lemma AllOn(n: Module)
    ensures Has(FLAGS_ALL, n.Mask())
  {
  }

  lemma ModulesAreNamed(ms: seq<string>, n: Module)
    ensures Has(DefendFlags(ms), n.Mask()) <==> On(ms, n.Name())
  {
    FlagsMean(ms, n);
    AllOn(n);
    if n.Name() in ms { assert Known(n.Name()); }
  }

  // ----- Words and numbers -----

  /** The word in any mixture of upper and lower case. */
  predicate Spells(s: string, word: string)
  {
    |s| == |word| && forall i :: 0 <= i < |s| ==> SameLetter(s[i], word[i])
  }

  predicate SameLetter(a: char, b: char) { a == b || ('a' <= b <= 'z' && a as int + 32 == b as int) }

  predicate InLowerCase(word: string) { forall i :: 0 <= i < |word| ==> !('A' <= word[i] <= 'Z') }

  lemma LowerSpells(s: string, word: string)
    requires InLowerCase(word)
    ensures PP.Lower(s) == word <==> Spells(s, word)
  {
    if Spells(s, word) {
      assert forall i :: 0 <= i < |s| ==> PP.Lower(s)[i] == word[i];
    }
    if PP.Lower(s) == word {
      forall i | 0 <= i < |s| ensures SameLetter(s[i], word[i]) { assert PP.Lower(s)[i] == word[i]; }
    }
  }

  lemma ActionIsRead(s: string)
    ensures PP.ParseAction(s) == Some(PP.PASS) <==> Spells(s, "pass")
    ensures PP.ParseAction(s) == Some(PP.DROP) <==> Spells(s, "drop")
    ensures PP.ParseAction(s) == Some(PP.DEFEND) <==> Spells(s, "defend")
    ensures PP.ParseAction(s).Some? ==> Spells(s, "pass") || Spells(s, "drop") || Spells(s, "defend")
  {
    LowerSpells(s, "pass");
    LowerSpells(s, "drop");
    LowerSpells(s, "defend");
  }

  lemma {:induction false} DigitsRoundTrip(n: nat)
    ensures PP.ParseDigits(Decimal(n)) == Some(n)
  {
    if n >= 10 {
      DigitsRoundTrip(n / 10);
      assert Decimal(n)[..|Decimal(n)| - 1] == Decimal(n / 10);
    }
  }

  predicate AllDigits(s: string) { forall i :: 0 <= i < |s| ==> '0' <= s[i] <= '9' }

  lemma {:induction false} DecimalIsDigits(n: nat)
    ensures AllDigits(Decimal(n)) && Decimal(n) != []
  {
    if n >= 10 { DecimalIsDigits(n / 10); }
  }

  lemma PortRoundTrip(n: u16)
    ensures PP.ParseDport(Decimal(n)) == Some(n) && PP.ParseDport("any") == Some(0)
  {
    DigitsRoundTrip(n);
    DecimalIsDigits(n);
  }

  // ----- The project that decides -----

  /** The project names this protocol; 0 stands for any. */
  predicate NamesProtocol(s: string, protocol: u8)
  {
    || (protocol == 0 && Spells(s, "any"))
    || (protocol == 6 && Spells(s, "tcp"))
    || (protocol == 17 && Spells(s, "udp"))
    || (protocol == 1 && Spells(s, "icmp"))
    || (protocol == 58 && Spells(s, "icmpv6"))
  }

  lemma ProtocolIsRead(s: string, protocol: u8)
    ensures PP.ParseProtocol(s) == Some(protocol) <==> NamesProtocol(s, protocol)
  {
    LowerSpells(s, "any");
    LowerSpells(s, "tcp");
    LowerSpells(s, "udp");
    LowerSpells(s, "icmp");
    LowerSpells(s, "icmpv6");
  }

  /**
   The project is for this destination with rank 0, 1, 2 or 3: it names port and
   protocol, the port only, the protocol only, or neither.
   */
  ghost predicate ForRank(p: PP.Project, addr: u32, dport: u16, protocol: u8, rank: nat)
  {
    && (exists t :: t in p.targets && PP.Contains(t, addr))
    && PP.ParseDport(p.dport) == Some(if rank == 0 || rank == 1 then dport else 0)
    && NamesProtocol(p.protocol, if rank == 0 || rank == 2 then protocol else 0)
  }

  /** Project j is the last one listed of the lowest rank that has any. */
  ghost predicate Decides(ps: seq<PP.Project>, addr: u32, dport: u16, protocol: u8, j: nat, rank: nat)
  {
    && j < |ps| && rank < 4 && ForRank(ps[j], addr, dport, protocol, rank)
    && (forall i :: j < i < |ps| ==> !ForRank(ps[i], addr, dport, protocol, rank))
    && (forall i, r :: 0 <= i < |ps| && 0 <= r < rank ==> !ForRank(ps[i], addr, dport, protocol, r))
  }

  lemma MatchesIsRank(p: PP.Project, addr: u32, dport: u16, protocol: u8, rank: nat)
    requires PP.GoodProject(p) && rank < 4
    ensures PP.Matches(p, PP.ClassKey(addr, dport, protocol, rank)) <==> ForRank(p, addr, dport, protocol, rank)
  {
    ProtocolIsRead(p.protocol, if rank == 0 || rank == 2 then protocol else 0);
  }

  lemma {:induction false} LastMatchIs(ps: seq<PP.Project>, k: PP.PolicyKey, j: nat)
    requires j < |ps| && PP.Matches(ps[j], k) && forall i :: j < i < |ps| ==> !PP.Matches(ps[i], k)
    ensures PP.LastMatch(ps, k) == Some(PP.Compile(ps[j]).value.policy)
  {
    if j == 0 { NoMatch(ps[1..], k); } else { LastMatchIs(ps[1..], k, j - 1); }
  }

  lemma {:induction false} NoMatch(ps: seq<PP.Project>, k: PP.PolicyKey)
    requires forall i :: 0 <= i < |ps| ==> !PP.Matches(ps[i], k)
    ensures PP.LastMatch(ps, k) == None
  {
    if ps != [] { NoMatch(ps[1..], k); }
  }

  lemma RankHasNone(ps: seq<PP.Project>, addr: u32, dport: u16, protocol: u8, rank: nat)
    requires rank < 4 && forall p :: p in ps ==> PP.GoodProject(p)
    requires forall i :: 0 <= i < |ps| ==> !ForRank(ps[i], addr, dport, protocol, rank)
    ensures PP.LastMatch(ps, PP.ClassKey(addr, dport, protocol, rank)) == None
  {
    var k := PP.ClassKey(addr, dport, protocol, rank);
    forall i | 0 <= i < |ps| ensures !PP.Matches(ps[i], k) { MatchesIsRank(ps[i], addr, dport, protocol, rank); }
    NoMatch(ps, k);
  }

  lemma RankHasLast(ps: seq<PP.Project>, addr: u32, dport: u16, protocol: u8, j: nat, rank: nat)
    requires (forall p :: p in ps ==> PP.GoodProject(p)) && Decides(ps, addr, dport, protocol, j, rank)
    ensures PP.GoodProject(ps[j])
    ensures PP.LastMatch(ps, PP.ClassKey(addr, dport, protocol, rank)) == Some(PP.Compile(ps[j]).value.policy)
  {
    var k := PP.ClassKey(addr, dport, protocol, rank);
    forall i | j <= i < |ps| ensures PP.Matches(ps[i], k) <==> ForRank(ps[i], addr, dport, protocol, rank) {
      MatchesIsRank(ps[i], addr, dport, protocol, rank);
    }
    LastMatchIs(ps, k, j);
  }

  lemma AllGood(ps: seq<PP.Project>)
    requires PP.Expand(ps).Ok?
    ensures forall p :: p in ps ==> PP.GoodProject(p)
  {
    PP.ProjectsExpand(ps, 0, []);
  }

  lemma DeciderDecides(ps: seq<PP.Project>, addr: u32, dport: u16, protocol: u8, j: nat, rank: nat)
    requires (forall p :: p in ps ==> PP.GoodProject(p)) && Decides(ps, addr, dport, protocol, j, rank)
    ensures PP.GoodProject(ps[j])
    ensures PP.PolicyFor(ps, addr, dport, protocol) == Some(PP.Compile(ps[j]).value.policy)
  {
    RankHasLast(ps, addr, dport, protocol, j, rank);
    if rank > 0 { RankHasNone(ps, addr, dport, protocol, 0); }
    if rank > 1 { RankHasNone(ps, addr, dport, protocol, 1); }
    if rank > 2 { RankHasNone(ps, addr, dport, protocol, 2); }
  }

  lemma DeciderIsFound(ps: seq<PP.Project>, addr: u32, dport: u16, protocol: u8, j: nat, rank: nat)
    requires PP.Expand(ps).Ok? && Decides(ps, addr, dport, protocol, j, rank)
    ensures PP.GoodProject(ps[j])
    ensures PP.LookupFrom(PP.TableOf(PP.Expand(ps).value), addr, dport, protocol, 0) == Some(PP.Compile(ps[j]).value.policy)
  {
    AllGood(ps);
    DeciderDecides(ps, addr, dport, protocol, j, rank);
    PP.ExpansionPreservesMeaning(ps, addr, dport, protocol);
  }

  lemma NoneDecides(ps: seq<PP.Project>, addr: u32, dport: u16, protocol: u8)
    requires forall p :: p in ps ==> PP.GoodProject(p)
    requires forall i, r :: 0 <= i < |ps| && 0 <= r < 4 ==> !ForRank(ps[i], addr, dport, protocol, r)
    ensures PP.PolicyFor(ps, addr, dport, protocol) == None
  {
    RankHasNone(ps, addr, dport, protocol, 0);
    RankHasNone(ps, addr, dport, protocol, 1);
    RankHasNone(ps, addr, dport, protocol, 2);
    RankHasNone(ps, addr, dport, protocol, 3);
  }

  /** Without a decider the packet is in no project. */
  lemma NoDecider(ps: seq<PP.Project>, addr: u32, dport: u16, protocol: u8)
    requires PP.Expand(ps).Ok?
    requires forall i, r :: 0 <= i < |ps| && 0 <= r < 4 ==> !ForRank(ps[i], addr, dport, protocol, r)
    ensures PP.LookupFrom(PP.TableOf(PP.Expand(ps).value), addr, dport, protocol, 0) == None
  {
    AllGood(ps);
    NoneDecides(ps, addr, dport, protocol);
    PP.ExpansionPreservesMeaning(ps, addr, dport, protocol);
  }

  lemma PolicyIsRead(p: PP.Project)
    requires PP.Compile(p).Ok?
    ensures var policy := PP.Compile(p).value.policy;
            && policy.flags == PP.ModuleFlags(p.enabledModules)
            && (policy.action == PP.PASS <==> Spells(p.action, "pass"))
            && (policy.action == PP.DROP <==> Spells(p.action, "drop"))
            && (policy.action == PP.DEFEND <==> Spells(p.action, "defend"))
  {
    ActionIsRead(p.action);
  }

  // ----- Modules that are off -----

  /** Nothing the module owns has changed: its maps and the counters of what it stopped. */
  ghost predicate Untouched(n: Module, m: Maps, m': Maps)
  {
    UntouchedCounts(n, m.blocked, m'.blocked) && UntouchedMaps(n, m, m')
  }

  ghost predicate UntouchedCounts(n: Module, b: Blocked, b': Blocked)
  {
    match n
    case Syn => b'.synFloodBlocked == b.synFloodBlocked
    case Udp => b'.udpFloodBlocked == b.udpFloodBlocked
    case Icmp => b'.icmpFloodBlocked == b.icmpFloodBlocked
    case Rate => b'.rateLimited == b.rateLimited
    case L7 => b'.l7Blocked == b.l7Blocked
    case Geo => b'.geoipBlocked == b.geoipBlocked
    case Conn => b'.connTrackBlocked == b.connTrackBlocked
  }

  ghost predicate UntouchedMaps(n: Module, m: Maps, m': Maps)
  {
    match n
    case Syn => m'.challenged == m.challenged
    case Rate => m'.ratePort == m.ratePort
    case Conn => m'.connTrack == m.connTrack
    case _ => true
  }

  /** The flood module that counts packets of this protocol. */
  function OwnModule(p: Packet): Option<Module>
  {
    if p.protocol == TCP then Some(Syn) else if p.protocol == UDP then Some(Udp)
    else if p.protocol == ICMP || p.protocol == ICMPV6 then Some(Icmp) else None
  }

  /** The limit of the packet's port was not asked. */
  ghost predicate PortUntouched(m: Maps, m': Maps)
  {
    m'.portRate == m.portRate && m'.blocked.portRateBlocked == m.blocked.portRateBlocked
  }

  /** Nobody was counted or blocked. */
  ghost predicate RatesUntouched(m: Maps, m': Maps)
  {
    m'.rate == m.rate && m'.ratePort == m.ratePort && m'.blacklist == m.blacklist && m'.aux.blacklistGen == m.aux.blacklistGen
  }

  /** Which modules a packet's flags turn on. */
  predicate Off(c: Ctx, n: Module) { !Has(c.flags, n.Mask()) }
  predicate OwnOff(c: Ctx, p: Packet) { OwnModule(p) == None || Off(c, OwnModule(p).value) }

  /** What a step leaves alone under these flags. */
  ghost predicate Within(n: Module, p: Packet, c: Ctx, m: Maps, m': Maps)
  {
    && (Off(c, n) ==> Untouched(n, m, m'))
    && (OwnOff(c, p) ==> PortUntouched(m, m'))
    && (OwnOff(c, p) && Off(c, Rate) ==> RatesUntouched(m, m'))
  }

  lemma ThenWithin(n: Module, p: Packet, c: Ctx, m: Maps, m1: Maps, m2: Maps)
    requires Within(n, p, c, m, m1) && Within(n, p, c, m1, m2)
    ensures Within(n, p, c, m, m2)
  {
  }

  /** The state once the decision's own counter is raised. */
  function Ruled(d: Decision): Maps
  {
    match d.verdict
    case Discard(b) => d.m.(blocked := b)
    case Answer(_) => d.m.(blocked := d.m.blocked.(synFloodBlocked := d.m.blocked.synFloodBlocked + 1))
    case _ => d.m
  }

  lemma FinishIsWithin(n: Module, cfg: Config, p: Packet, d: Decision, c: Ctx)
    ensures var out := Finish(cfg, p, d);
            && Within(n, p, c, Ruled(d), out.m) && out.m.blocked == Ruled(d).blocked
            && (d.verdict.Next? <==> out.action.None?) && (d.verdict.Accept? ==> out.action == Some(Pass))
            && (d.verdict.Discard? ==> out.action.value in {Drop, Reset})
            && (d.verdict.Next? ==> out.m == d.m && out.c == d.c)
  {
    match d.verdict
    case Discard(b) => DropIsBookkeeping(cfg, p, d.m.(blocked := b, totals := CountDrop(d.m.totals, p.protocol)));
    case Accept => PassIsBookkeeping(cfg, p, d.m);
    case _ =>
  }

  /** A check that stops a packet raises a counter, and it belongs to a module that is on or to the port limit. */
  ghost predicate StageWithin(n: Module, p: Packet, m: Maps, c: Ctx, d: Decision)
  {
    && Within(n, p, c, m, Ruled(d)) && d.c.flags == c.flags && d.m.blocked == m.blocked
    && (d.verdict.Discard? ==> d.verdict.blocked != m.blocked)
  }

  lemma SynProxyChanges(t: Tables, cfg: Config, p: Packet, m: Maps, c: Ctx)
    ensures var d := SynProxy(t, cfg, p, m, c);
            && d.m == m.(rate := d.m.rate, challenged := d.m.challenged)
            && !d.verdict.Discard? && d.c.flags == c.flags
  {
  }

  lemma SynProxyWithin(n: Module, t: Tables, cfg: Config, p: Packet, m: Maps, c: Ctx)
    requires p.protocol == TCP && !Off(c, Syn)
    ensures StageWithin(n, p, m, c, SynProxy(t, cfg, p, m, c))
  {
    SynProxyChanges(t, cfg, p, m, c);
    ChangesWithin(n, p, m, c, SynProxy(t, cfg, p, m, c));
  }

  /** A decision of the proxy, by the fields it may change. */
  lemma ChangesWithin(n: Module, p: Packet, m: Maps, c: Ctx, d: Decision)
    requires OwnModule(p) == Some(Syn) && !Off(c, Syn) && !d.verdict.Discard? && d.c.flags == c.flags
    requires d.m == m.(rate := d.m.rate, challenged := d.m.challenged)
    ensures StageWithin(n, p, m, c, d)
  {
    ProxiedWithin(n, p, m, c, Ruled(d));
  }

  lemma ProxiedWithin(n: Module, p: Packet, m: Maps, c: Ctx, m': Maps)
    requires OwnModule(p) == Some(Syn) && !Off(c, Syn)
    requires m' == m.(rate := m'.rate, challenged := m'.challenged,
                      blocked := m.blocked.(synFloodBlocked := m'.blocked.synFloodBlocked))
    ensures Within(n, p, c, m, m')
  {
    OthersUntouched(n, m, m');
  }

  lemma OthersUntouched(n: Module, m: Maps, m': Maps)
    requires m' == m.(rate := m'.rate, challenged := m'.challenged,
                      blocked := m.blocked.(synFloodBlocked := m'.blocked.synFloodBlocked))
    ensures n == Syn || Untouched(n, m, m')
  {
  }

  lemma PortRateChanges(t: Tables, cfg: Config, p: Packet, m: Maps, c: Ctx, dport: u16)
    ensures var d := PortRateCheck(t, cfg, p, dport, m, c);
            && d.m == m.(portRate := d.m.portRate) && d.c == c
            && (d.verdict == Next || d.verdict == Discard(m.blocked.(portRateBlocked := m.blocked.portRateBlocked + 1)))
  {
  }

  lemma DetectChanges(t: Tables, cfg: Config, m: Maps, src: IpKey, now: u64, reason: u8, soft: bool)
    ensures var m1 := Detect(t, cfg, m, src, now, reason, soft).0;
            m1 == m.(rate := m1.rate, blacklist := m1.blacklist, aux := m1.aux, trust := m1.trust)
  {
  }

  ghost predicate FloodChange(k: Flood, m: Maps, c: Ctx, d: Decision)
  {
    && d.m == m.(rate := d.m.rate, blacklist := d.m.blacklist, aux := d.m.aux, trust := d.m.trust, portRate := d.m.portRate)
    && d.c.flags == c.flags
    && (d.verdict == Next || d.verdict == Discard(RaiseFlood(m.blocked, k))
        || d.verdict == Discard(m.blocked.(portRateBlocked := m.blocked.portRateBlocked + 1)))
  }

  lemma FloodChanges(t: Tables, cfg: Config, p: Packet, m: Maps, c: Ctx, k: Flood, counts: bool, soft: bool, dport: u16)
    ensures FloodChange(k, m, c, FloodCheck(t, cfg, p, m, c, k, counts, soft, dport))
  {
    if counts {
      DetectChanges(t, cfg, m, p.src, p.now, FloodReason(k), soft);
      PortRateChanges(t, cfg, p, Detect(t, cfg, m, p.src, p.now, FloodReason(k), soft).0, c.(rateCounted := true), dport);
    } else {
      PortRateChanges(t, cfg, p, m, c, dport);
    }
  }

  function ModuleOf(k: Flood): Module { match k case SynF => Syn case UdpF => Udp case IcmpF => Icmp }

  lemma FloodWithin(n: Module, p: Packet, m: Maps, c: Ctx, k: Flood, d: Decision)
    requires OwnModule(p) == Some(ModuleOf(k)) && !Off(c, ModuleOf(k)) && FloodChange(k, m, c, d)
    ensures StageWithin(n, p, m, c, d)
  {
  }

  ghost predicate RateChange(m: Maps, c: Ctx, d: Decision)
  {
    && d.m == m.(rate := d.m.rate, ratePort := d.m.ratePort, blacklist := d.m.blacklist, aux := d.m.aux, trust := d.m.trust)
    && d.c == c && (d.verdict == Next || d.verdict == Discard(m.blocked.(rateLimited := m.blocked.rateLimited + 1)))
    && (Off(c, Rate) ==> d == Decision(m, c, Next))
  }

  lemma RateLimitChanges(t: Tables, cfg: Config, p: Packet, m: Maps, c: Ctx)
    ensures RateChange(m, c, RateLimitStage(t, cfg, p, m, c))
  {
  }

  lemma RateLimitWithin(n: Module, p: Packet, m: Maps, c: Ctx, d: Decision)
    requires RateChange(m, c, d)
    ensures StageWithin(n, p, m, c, d)
  {
  }

  lemma NothingWithin(n: Module, p: Packet, m: Maps, c: Ctx)
    ensures StageWithin(n, p, m, c, Decision(m, c, Next))
  {
  }

  lemma GeoipWithin(n: Module, t: Tables, cfg: Config, p: Packet, m: Maps, c: Ctx)
    ensures StageWithin(n, p, m, c, GeoipStage(t, cfg, p, m, c))
  {
  }

  lemma ConnTrackWithin(n: Module, t: Tables, cfg: Config, p: Packet, m: Maps, c: Ctx)
    ensures StageWithin(n, p, m, c, ConnTrackStage(t, cfg, p, m, c))
  {
  }

  lemma L7Within(n: Module, t: Tables, cfg: Config, p: Packet, m: Maps, c: Ctx)
    ensures StageWithin(n, p, m, c, L7Stage(t, cfg, p, m, c))
  {
  }

  lemma Idle(i: nat, t: Tables, cfg: Config, p: Packet, m: Maps, c: Ctx)
    requires 6 <= i <= 8 && (i != Own(p) || OwnOff(c, p))
    ensures Stage(i, t, cfg, p, m, c) == Decision(m, c, Next)
  {
  }

  lemma OwnWithin(n: Module, t: Tables, cfg: Config, p: Packet, m: Maps, c: Ctx)
    requires !OwnOff(c, p)
    ensures StageWithin(n, p, m, c, Stage(Own(p), t, cfg, p, m, c))
  {
    var d := Stage(Own(p), t, cfg, p, m, c);
    if p.protocol == TCP && p.src.family == IPV4 && cfg.synProxyEnabled && !p.fragment {
      SynProxyWithin(n, t, cfg, p, m, c);
    } else if p.fragment {
      NothingWithin(n, p, m, c);
    } else {
      var k := if p.protocol == TCP then SynF else if p.protocol == UDP then UdpF else IcmpF;
      OwnFlood(t, cfg, p, m, c, k);
      FloodWithin(n, p, m, c, k, d);
    }
  }

  lemma OwnFlood(t: Tables, cfg: Config, p: Packet, m: Maps, c: Ctx, k: Flood)
    requires !OwnOff(c, p) && !p.fragment && OwnModule(p) == Some(ModuleOf(k))
    requires !(p.protocol == TCP && p.src.family == IPV4 && cfg.synProxyEnabled)
    ensures FloodChange(k, m, c, Stage(Own(p), t, cfg, p, m, c))
  {
    if p.protocol == TCP {
      FloodChanges(t, cfg, p, m, c, SynF, p.IsSyn(), false, p.dport);
    } else if p.protocol == UDP {
      FloodChanges(t, cfg, p, m, c, UdpF, cfg.udpFloodEnabled, cfg.rateLimitSoft, p.dport);
    } else {
      FloodChanges(t, cfg, p, m, c, IcmpF, cfg.icmpFloodEnabled, cfg.rateLimitSoft, 0);
    }
  }

  lemma StageIsWithin(n: Module, i: nat, t: Tables, cfg: Config, p: Packet, m: Maps, c: Ctx)
    requires 4 <= i < STAGES
    ensures StageWithin(n, p, m, c, Stage(i, t, cfg, p, m, c))
  {
    if i == 4 {
      GeoipWithin(n, t, cfg, p, m, c);
    } else if i == 5 {
      ConnTrackWithin(n, t, cfg, p, m, c);
    } else if i == 9 {
      L7Within(n, t, cfg, p, m, c);
    } else if i == 10 {
      RateLimitChanges(t, cfg, p, m, c);
      RateLimitWithin(n, p, m, c, RateLimitStage(t, cfg, p, m, c));
    } else if i != Own(p) || OwnOff(c, p) {
      Idle(i, t, cfg, p, m, c);
      NothingWithin(n, p, m, c);
    } else {
      OwnWithin(n, t, cfg, p, m, c);
    }
  }

  // ----- The whole packet -----

  lemma {:induction false} StagesWithin(n: Module, i: nat, t: Tables, cfg: Config, p: Packet, m: Maps, c: Ctx)
    requires 4 <= i <= STAGES
    ensures var out := StagesFrom(i, t, cfg, p, m, c);
            && Within(n, p, c, m, out.m)
            && (out.action == Some(Pass) || out.m.blocked != m.blocked)
    decreases STAGES - i
  {
    if i == STAGES {
      FinishIsWithin(n, cfg, p, Decision(m, c, Accept), c);
    } else {
      var d := Stage(i, t, cfg, p, m, c);
      StageIsWithin(n, i, t, cfg, p, m, c);
      FinishIsWithin(n, cfg, p, d, c);
      if d.verdict.Next? {
        StagesWithin(n, i + 1, t, cfg, p, d.m, d.c);
        SameFlags(n, p, c, d.c, d.m, StagesFrom(i, t, cfg, p, m, c).m);
      }
      ThenWithin(n, p, c, m, Ruled(d), StagesFrom(i, t, cfg, p, m, c).m);
    }
  }

  lemma SameFlags(n: Module, p: Packet, c: Ctx, c': Ctx, m: Maps, m': Maps)
    requires c.flags == c'.flags && Within(n, p, c', m, m')
    ensures Within(n, p, c, m, m')
  {
  }

  /** The packet gets as far as the projects: nothing before them spares or stops it. */
  predicate MeetsProjects(t: Tables, p: Packet, m: Maps)
  {
    && t.config.Some? && t.config.value.projectEnabled && p.src.family == IPV4 && !p.fragment
    && p.src !in t.whitelist && !Listed(m, p.src, p.now)
    && !AclDrops(t.acl, Min(t.config.value.portAclCount, 32), p.protocol, p.dport, 0)
  }

  /** The state the project check finds: the packet is counted and a lapsed block of its source is gone. */
  function AtProjects(p: Packet, m: Maps): Maps { IsBlacklisted(Arrived(m), p.src, p.now).0 }

  lemma EarlyHandOn(t: Tables, p: Packet, m: Maps)
    requires MeetsProjects(t, p, m)
    ensures var cfg, c, m1 := t.config.value, Ctx(false, FLAGS_ALL), AtProjects(p, m);
            && Stage(0, t, cfg, p, Arrived(m), c) == Decision(Arrived(m), c, Next)
            && Stage(1, t, cfg, p, Arrived(m), c) == Decision(m1, c, Next)
            && Stage(2, t, cfg, p, m1, c) == Decision(m1, c, Next)
  {
  }

  lemma NextContinues(i: nat, t: Tables, cfg: Config, p: Packet, m: Maps, c: Ctx, m1: Maps, c1: Ctx)
    requires i < STAGES && Stage(i, t, cfg, p, m, c) == Decision(m1, c1, Next)
    ensures StagesFrom(i, t, cfg, p, m, c) == StagesFrom(i + 1, t, cfg, p, m1, c1)
  {
  }

  lemma ReachesProjects(t: Tables, p: Packet, m: Maps)
    requires MeetsProjects(t, p, m)
    ensures StagesFrom(0, t, t.config.value, p, Arrived(m), Ctx(false, FLAGS_ALL))
         == StagesFrom(3, t, t.config.value, p, AtProjects(p, m), Ctx(false, FLAGS_ALL))
  {
    var cfg, c, m1 := t.config.value, Ctx(false, FLAGS_ALL), AtProjects(p, m);
    EarlyHandOn(t, p, m);
    NextContinues(0, t, cfg, p, Arrived(m), c, Arrived(m), c);
    NextContinues(1, t, cfg, p, Arrived(m), c, m1, c);
    NextContinues(2, t, cfg, p, m1, c, m1, c);
  }

  lemma ProcessIs(t: Tables, p: Packet, m: Maps, out: Out)
    requires t.config.Some? && p.src !in t.whitelist && out.action.Some?
    requires StagesFrom(0, t, t.config.value, p, Arrived(m), Ctx(false, FLAGS_ALL)) == out
    ensures Process(t, p, m) == (out.m, out.action.value)
  {
  }

  /** What a project's policy makes of a packet that reaches it. */
  lemma PolicyRules(t: Tables, p: Packet, m: Maps, policy: PP.Policy)
    requires MeetsProjects(t, p, m) && PP.LookupFrom(t.projects, p.daddr, p.dport, p.protocol, 0) == Some(policy)
    ensures var cfg, c, m1 := t.config.value, Ctx(false, FLAGS_ALL), AtProjects(p, m);
            var d := Stage(3, t, cfg, p, m1, c);
            && d.m == m1
            && (policy.action == PP.PASS ==> d.verdict == Accept)
            && (policy.action == PP.DROP ==> d.verdict == Discard(m1.blocked))
            && (policy.action == PP.DEFEND ==>
                  d.verdict == Next && d.c == Ctx(false, if policy.flags == 0 then FLAGS_ALL else policy.flags))
  {
  }

  lemma FinishTells(cfg: Config, p: Packet, d: Decision)
    ensures var out := Finish(cfg, p, d);
            && (d.verdict.Accept? ==>
                  out.action == Some(Pass) && out.m.blocked == d.m.blocked
                  && out.m.totals == d.m.totals.(totalPassed := d.m.totals.totalPassed + 1))
            && (d.verdict.Discard? ==>
                  out.action in {Some(Drop), Some(Reset)} && out.m.blocked == d.verdict.blocked
                  && out.m.totals == CountDrop(d.m.totals, p.protocol))
  {
    match d.verdict
    case Discard(b) => DropIsBookkeeping(cfg, p, d.m.(blocked := b, totals := CountDrop(d.m.totals, p.protocol)));
    case Accept => PassIsBookkeeping(cfg, p, d.m);
    case _ =>
  }

  /** The packet is passed, and counted as such. */
  ghost predicate Passed(m: Maps, m': Maps, a: Action)
  {
    && a == Pass && m'.blocked == m.blocked
    && m'.totals == m.totals.(totalPackets := m.totals.totalPackets + 1, totalPassed := m.totals.totalPassed + 1)
  }

  /** The packet is dropped, and counted as such. */
  ghost predicate Stopped(p: Packet, m: Maps, m': Maps, a: Action)
  {
    && a in {Drop, Reset} && m'.blocked == m.blocked
    && m'.totals == CountDrop(m.totals.(totalPackets := m.totals.totalPackets + 1), p.protocol)
  }

  lemma PassOrDrop(t: Tables, p: Packet, m: Maps, policy: PP.Policy)
    requires MeetsProjects(t, p, m) && PP.LookupFrom(t.projects, p.daddr, p.dport, p.protocol, 0) == Some(policy)
    requires policy.action == PP.PASS || policy.action == PP.DROP
    ensures var (m', a) := Process(t, p, m);
            if policy.action == PP.PASS then Passed(m, m', a) else Stopped(p, m, m', a)
  {
    var cfg, c, m1 := t.config.value, Ctx(false, FLAGS_ALL), AtProjects(p, m);
    ReachesProjects(t, p, m);
    PolicyRules(t, p, m, policy);
    FinishTells(cfg, p, Stage(3, t, cfg, p, m1, c));
    ProcessIs(t, p, m, Finish(cfg, p, Stage(3, t, cfg, p, m1, c)));
  }

  /** The checks after the project's, under these flags. */
  function Checks(t: Tables, p: Packet, m: Maps, flags: bv16): Out
    requires t.config.Some?
  {
    StagesFrom(4, t, t.config.value, p, AtProjects(p, m), Ctx(false, flags))
  }

  lemma Defends(t: Tables, p: Packet, m: Maps, policy: PP.Policy)
    requires MeetsProjects(t, p, m) && PP.LookupFrom(t.projects, p.daddr, p.dport, p.protocol, 0) == Some(policy)
    requires policy.action == PP.DEFEND
    ensures var out := Checks(t, p, m, if policy.flags == 0 then FLAGS_ALL else policy.flags);
            out.action.Some? && Process(t, p, m) == (out.m, out.action.value)
  {
    var cfg, c, m1 := t.config.value, Ctx(false, FLAGS_ALL), AtProjects(p, m);
    var c1 := Ctx(false, if policy.flags == 0 then FLAGS_ALL else policy.flags);
    ReachesProjects(t, p, m);
    PolicyRules(t, p, m, policy);
    NextContinues(3, t, cfg, p, m1, c, m1, c1);
    PortLimits.SomeVerdict(4, t, cfg, p, m1, c1);
    ProcessIs(t, p, m, StagesFrom(4, t, cfg, p, m1, c1));
  }

  /** Only modules of the list, and the port limit that goes with one of them, touch or stop the packet. */
  ghost predicate LeftToModules(ms: seq<string>, p: Packet, m: Maps, m': Maps, a: Action)
  {
    && (forall n: Module :: !On(ms, n.Name()) ==> Untouched(n, m, m'))
    && (!OwnOn(ms, p) ==> PortUntouched(m, m'))
    && (!OwnOn(ms, p) && !On(ms, "rate_limit") ==> NobodyCounted(p, m, m'))
    && (a == Pass || m'.blocked != m.blocked)
  }

  /** The list turns on the flood module of the packet's protocol. */
  predicate OwnOn(ms: seq<string>, p: Packet)
  {
    (p.protocol == 6 && On(ms, "syn_flood")) || (p.protocol == 17 && On(ms, "udp_flood"))
    || ((p.protocol == 1 || p.protocol == 58) && On(ms, "icmp_flood"))
  }

  /** The source is not counted and not blocked; a lapsed block of it goes. */
  ghost predicate NobodyCounted(p: Packet, m: Maps, m': Maps)
  {
    m'.rate == m.rate && m'.ratePort == m.ratePort && m'.blacklist == m.blacklist - {p.src} && m'.aux.blacklistGen == m.aux.blacklistGen
  }

  lemma DefendedByModules(t: Tables, p: Packet, m: Maps, ms: seq<string>)
    requires MeetsProjects(t, p, m)
    ensures var out := Checks(t, p, m, DefendFlags(ms));
            out.action.Some? ==> LeftToModules(ms, p, m, out.m, out.action.value)
  {
    var cfg, c, m1 := t.config.value, Ctx(false, DefendFlags(ms)), AtProjects(p, m);
    forall n: Module
      ensures Off(c, n) <==> !On(ms, n.Name())
      ensures Within(n, p, c, m1, StagesFrom(4, t, cfg, p, m1, c).m)
    {
      ModulesAreNamed(ms, n);
      StagesWithin(n, 4, t, cfg, p, m1, c);
    }
    StagesWithin(Syn, 4, t, cfg, p, m1, c);
    OwnIsNamed(ms, p, c);
    AtProjectsKeeps(t, p, m);
  }

  lemma OwnIsNamed(ms: seq<string>, p: Packet, c: Ctx)
    requires forall n: Module :: Off(c, n) <==> !On(ms, n.Name())
    ensures OwnOff(c, p) <==> !OwnOn(ms, p)
  {
    assert Off(c, Syn) <==> !On(ms, Syn.Name());
    assert Off(c, Udp) <==> !On(ms, Udp.Name());
    assert Off(c, Icmp) <==> !On(ms, Icmp.Name());
  }

  lemma AtProjectsKeeps(t: Tables, p: Packet, m: Maps)
    requires !Listed(m, p.src, p.now)
    ensures var m1 := AtProjects(p, m);
            && m1 == m.(totals := m1.totals, blacklist := m.blacklist - {p.src}, trust := m1.trust)
  {
  }

  /**
   Main result: what the deciding project's own words mean for a packet that
   reaches it. "pass" passes it, "drop" drops it, and under "defend" no module the
   project leaves out counts, marks, blocks or stops it.
   */
  lemma ProjectGovernsPacket(t: Tables, ps: seq<PP.Project>, p: Packet, m: Maps, j: nat, rank: nat)
    requires MeetsProjects(t, p, m) && PP.Expand(ps).Ok? && t.projects == PP.TableOf(PP.Expand(ps).value)
    requires Decides(ps, p.daddr, p.dport, p.protocol, j, rank)
    ensures var (m', a) := Process(t, p, m);
            || (Spells(ps[j].action, "pass") && Passed(m, m', a))
            || (Spells(ps[j].action, "drop") && Stopped(p, m, m', a))
            || (Spells(ps[j].action, "defend") && LeftToModules(ps[j].enabledModules, p, m, m', a))
  {
    DeciderIsFound(ps, p.daddr, p.dport, p.protocol, j, rank);
    var policy := PP.Compile(ps[j]).value.policy;
    PolicyIsRead(ps[j]);
    ActionIsRead(ps[j].action);
    if policy.action == PP.DEFEND {
      Defends(t, p, m, policy);
      DefendedByModules(t, p, m, ps[j].enabledModules);
    } else {
      PassOrDrop(t, p, m, policy);
    }
  }

  /** And the modules that are on do their work: the later checks run under flags that mean the list. */
  lemma ListedModulesRun(t: Tables, ps: seq<PP.Project>, p: Packet, m: Maps, j: nat, rank: nat) returns (flags: bv16)
    requires MeetsProjects(t, p, m) && PP.Expand(ps).Ok? && t.projects == PP.TableOf(PP.Expand(ps).value)
    requires Decides(ps, p.daddr, p.dport, p.protocol, j, rank) && Spells(ps[j].action, "defend")
    ensures forall n: Module :: Has(flags, n.Mask()) <==> On(ps[j].enabledModules, n.Name())
    ensures var out := Checks(t, p, m, flags); out.action.Some? && Process(t, p, m) == (out.m, out.action.value)
  {
    DeciderIsFound(ps, p.daddr, p.dport, p.protocol, j, rank);
    var policy := PP.Compile(ps[j]).value.policy;
    PolicyIsRead(ps[j]);
    flags := DefendFlags(ps[j].enabledModules);
    Defends(t, p, m, policy);
    forall n: Module ensures Has(flags, n.Mask()) <==> On(ps[j].enabledModules, n.Name()) {
      ModulesAreNamed(ps[j].enabledModules, n);
    }
  }

  /** A packet of no project meets every check. */
  lemma OutsideProjects(t: Tables, ps: seq<PP.Project>, p: Packet, m: Maps)
    requires MeetsProjects(t, p, m) && PP.Expand(ps).Ok? && t.projects == PP.TableOf(PP.Expand(ps).value)
    requires forall i, r :: 0 <= i < |ps| && 0 <= r < 4 ==> !ForRank(ps[i], p.daddr, p.dport, p.protocol, r)
    ensures var out := Checks(t, p, m, FLAGS_ALL); out.action.Some? && Process(t, p, m) == (out.m, out.action.value)
  {
    var cfg, c, m1 := t.config.value, Ctx(false, FLAGS_ALL), AtProjects(p, m);
    NoDecider(ps, p.daddr, p.dport, p.protocol);
    ReachesProjects(t, p, m);
    NextContinues(3, t, cfg, p, m1, c, m1, c);
    PortLimits.SomeVerdict(4, t, cfg, p, m1, c);
    ProcessIs(t, p, m, StagesFrom(4, t, cfg, p, m1, c));
  }
}
