/**
 Protection projects: the control plane expands every IPv4 target of every
 project to exact addresses, and the data plane looks a packet up in four steps
 from exact to wildcard. Expansion preserves meaning, and a list of projects
 that cannot be expanded leaves the old table in force.
 */
module ProjectPolicy {
  import opened Words

  const MAX_ENTRIES := 8192

  /** A target after textual parsing; IPv6 targets parse but are not expanded. */
  datatype Target = V4(addr: u32, prefix: nat) | V6 | Malformed

  datatype Project = Project(
    protocol: string, dport: string, action: string, enabledModules: seq<string>, targets: seq<Target>)

  datatype PolicyKey = PolicyKey(addr: u32, dport: u16, protocol: u8)
  datatype Policy = Policy(flags: bv16, action: u8)
  type PolicyTable = map<PolicyKey, Policy>
  type Entry = (PolicyKey, Policy)

  datatype Problem = BadProtocol | BadDport | BadAction | BadTarget | TooBroad | TooMany

  /** The first problem, and the project it is in, or a kernel map that refuses an entry. */
  datatype Error = Error(project: nat, problem: Problem) | WriteFailed

  const PASS: u8 := 1
  const DROP: u8 := 2
  const DEFEND: u8 := 3

  // ----- Reading a project -----

  function Lower(s: string): string
  {
    seq(|s|, i requires 0 <= i < |s| => if 'A' <= s[i] <= 'Z' then (s[i] as int + 32) as char else s[i])
  }

  function ParseProtocol(s: string): Option<u8>
  {
    var t := Lower(s);
    if t == "any" then Some(0) else if t == "tcp" then Some(6) else if t == "udp" then Some(17)
    else if t == "icmp" then Some(1) else if t == "icmpv6" then Some(58) else None
  }

  function ParseAction(s: string): Option<u8>
  {
    var t := Lower(s);
    if t == "pass" then Some(PASS) else if t == "drop" then Some(DROP) else if t == "defend" then Some(DEFEND) else None
  }

  /** The value of a non-empty string of decimal digits. */
  function ParseDigits(s: string): Option<nat>
  {
    if s == [] || !('0' <= s[|s| - 1] <= '9') then None
    else
      var d := s[|s| - 1] as int - '0' as int;
      if |s| == 1 then Some(d)
      else match ParseDigits(s[..|s| - 1]) case Some(n) => Some(n * 10 + d) case None => None
  }

  function ParseDport(s: string): Option<u16>
  {
    if s == "any" then Some(0)
    else match ParseDigits(if s != [] && s[0] == '+' then s[1..] else s)
      case Some(n) => if n < 0x1_0000 then Some(n) else None
      case None => None
  }

  function ModuleBit(m: string): bv16
  {
    match m
    case "syn_flood" => 1
    case "udp_flood" => 2
    case "icmp_flood" => 4
    case "rate_limit" => 8
    case "adaptive" => 16
    case "l7_scan" => 32
    case "geoip" => 64
    case "tcp_reset" => 128
    case "port_acl" => 256
    case "conn_track" => 512
    case _ => 0
  }

  function ModuleFlags(ms: seq<string>): bv16
  {
    if ms == [] then 0 else ModuleFlags(ms[..|ms| - 1]) | ModuleBit(ms[|ms| - 1])
  }

  /** The class a project applies to (0 stands for any) and its policy. */
  datatype Compiled = Compiled(dport: u16, protocol: u8, policy: Policy)

  function Compile(p: Project): Result<Compiled, Problem>
  {
    match ParseProtocol(p.protocol)
    case None => Err(BadProtocol)
    case Some(protocol) =>
      match ParseDport(p.dport)
      case None => Err(BadDport)
      case Some(dport) =>
        match ParseAction(p.action)
        case None => Err(BadAction)
        case Some(action) => Ok(Compiled(dport, protocol, Policy(ModuleFlags(p.enabledModules), action)))
  }

  // ----- Expansion -----

  /** Number of hosts of a prefix. */
  function Size(prefix: nat): (n: nat)
    requires prefix <= 32
    ensures n > 0
    decreases 32 - prefix
  {
    if prefix == 32 then 1 else 2 * Size(prefix + 1)
  }

  /** The address with its host bits masked off. */
  function Base(addr: u32, prefix: nat): u32
    requires prefix <= 32
  {
    ModBounds(addr, Size(prefix));
    addr - addr % Size(prefix)
  }

  lemma ModBounds(a: nat, d: nat)
    requires d > 0
    ensures 0 <= a % d <= a
  {
  }

  function Host(c: Compiled, base: u32, h: nat): Entry
    requires base + h <= U32_MAX
  {
    (PolicyKey(base + h, c.dport, c.protocol), c.policy)
  }

  function Hosts(c: Compiled, addr: u32, prefix: nat): seq<Entry>
    requires 24 <= prefix <= 32
  {
    FitsIn32(addr, prefix);
    seq(Size(prefix), h requires 0 <= h < Size(prefix) => Host(c, Base(addr, prefix), h))
  }

  lemma FitsIn32(addr: u32, prefix: nat)
    requires 24 <= prefix <= 32
    ensures Size(prefix) in {1, 2, 4, 8, 16, 32, 64, 128, 256}
    ensures Base(addr, prefix) + Size(prefix) <= U32_MAX + 1
  {
    SizesOf(prefix);
    var blocks := BlocksOf(Size(prefix));
    LastBlock(addr, Size(prefix), blocks);
  }

  lemma SizesOf(prefix: nat)
    requires 24 <= prefix <= 32
    ensures Size(prefix) in {1, 2, 4, 8, 16, 32, 64, 128, 256}
  {
    assert Size(32) == 1 && Size(31) == 2 && Size(30) == 4 && Size(29) == 8 && Size(28) == 16;
    assert Size(27) == 32 && Size(26) == 64 && Size(25) == 128 && Size(24) == 256;
  }

  /** How many blocks of this size make up the address space. */
  lemma BlocksOf(size: nat) returns (blocks: nat)
    requires size in {1, 2, 4, 8, 16, 32, 64, 128, 256}
    ensures size * blocks == 0x1_0000_0000
  {
    blocks := match size
      case 1 => 0x1_0000_0000 case 2 => 0x8000_0000 case 4 => 0x4000_0000
      case 8 => 0x2000_0000 case 16 => 0x1000_0000 case 32 => 0x800_0000
      case 64 => 0x400_0000 case 128 => 0x200_0000 case _ => 0x100_0000;
  }

  lemma LastBlock(addr: nat, size: nat, blocks: nat)
    requires size > 0 && addr < size * blocks
    ensures addr - addr % size + size <= size * blocks
  {
    var q := addr / size;
    assert addr == size * q + addr % size;
    if q < blocks { AtMostTimes(size, q + 1, blocks); } else { AtMostTimes(size, blocks, q); }
  }

  lemma AtMostTimes(k: nat, a: nat, b: nat)
    requires a <= b
    ensures k * a <= k * b
  {
  }

  function CheckTarget(t: Target, used: nat): Option<Problem>
  {
    match t
    case Malformed => Some(BadTarget)
    case V6 => None
    case V4(addr, prefix) =>
      if prefix > 32 then Some(BadTarget)
      else if prefix < 24 then Some(TooBroad)
      else if used + Size(prefix) > MAX_ENTRIES then Some(TooMany)
      else None
  }

  function TargetEntries(c: Compiled, t: Target): seq<Entry>
  {
    if t.V4? && 24 <= t.prefix <= 32 then Hosts(c, t.addr, t.prefix) else []
  }

  function ExpandTargets(c: Compiled, ts: seq<Target>, i: nat, acc: seq<Entry>): Result<seq<Entry>, Error>
    decreases |ts|
  {
    if ts == [] then Ok(acc)
    else match CheckTarget(ts[0], |acc|)
      case Some(e) => Err(Error(i, e))
      case None => ExpandTargets(c, ts[1..], i, acc + TargetEntries(c, ts[0]))
  }

  function ExpandFrom(ps: seq<Project>, i: nat, acc: seq<Entry>): Result<seq<Entry>, Error>
    decreases |ps|
  {
    if ps == [] then Ok(acc)
    else match Compile(ps[0])
      case Err(e) => Err(Error(i, e))
      case Ok(c) =>
        match ExpandTargets(c, ps[0].targets, i, acc)
        case Err(e) => Err(e)
        case Ok(acc') => ExpandFrom(ps[1..], i + 1, acc')
  }

  function Expand(ps: seq<Project>): Result<seq<Entry>, Error> { ExpandFrom(ps, 0, []) }

  /** Inserting entries in order: a later entry for the same key wins. */
  function TableOf(es: seq<Entry>): PolicyTable
  {
    if es == [] then map[] else TableOf(es[..|es| - 1])[es[|es| - 1].0 := es[|es| - 1].1]
  }

  class ControlPlane {
    var projectPolicy: PolicyTable
    var projectEnabled: bool

    constructor ()
      ensures projectPolicy == map[] && !projectEnabled
    {
      projectPolicy, projectEnabled := map[], false;
    }

    /**
     Expand everything in memory first; only a complete expansion touches the table.
     The table is cleared and filled entry by entry; `writable` is how many inserts
     the kernel accepts.
     */
    method InitProtectionProjects(projects: seq<Project>, writable: nat) returns (r: Result<(), Error>)
      modifies this
      ensures match Expand(projects)
              case Err(e) => r == Err(e) && projectPolicy == old(projectPolicy) && projectEnabled == old(projectEnabled)
              case Ok(es) =>
                if |es| <= writable then r == Ok(()) && projectPolicy == TableOf(es) && projectEnabled == (es != [])
                else r == Err(WriteFailed) && projectPolicy == TableOf(es[..writable]) && projectEnabled == old(projectEnabled)
    {
      var entries: seq<Entry> := [];
      for i := 0 to |projects|
        invariant unchanged(this)
        invariant Expand(projects) == ExpandFrom(projects[i..], i, entries)
      {
        assert projects[i..][0] == projects[i] && projects[i..][1..] == projects[i + 1..];
        var c :- CompileProject(projects[i], i);
        entries :- PushTargets(c, projects[i].targets, i, entries);
      }
      r := Refill(entries, writable);
      if r.Ok? {
        projectEnabled := |entries| > 0;
      }
    }

    method Refill(entries: seq<Entry>, writable: nat) returns (r: Result<(), Error>)
      modifies this`projectPolicy
      ensures if |entries| <= writable then r == Ok(()) && projectPolicy == TableOf(entries)
              else r == Err(WriteFailed) && projectPolicy == TableOf(entries[..writable])
    {
      projectPolicy := map[];
      for j := 0 to |entries|
        invariant j <= writable && projectPolicy == TableOf(entries[..j])
      {
        if j == writable {
          return Err(WriteFailed);
        }
        assert entries[..j + 1][..j] == entries[..j];
        projectPolicy := projectPolicy[entries[j].0 := entries[j].1];
      }
      assert entries[..|entries|] == entries;
      r := Ok(());
    }
  }

  datatype Try<+T> = Fine(value: T) | Failed(r: Result<(), Error>)
  {
    predicate IsFailure() { Failed? }
    function PropagateFailure(): Result<(), Error> requires Failed? { r }
    function Extract(): T requires Fine? { value }
  }

  method CompileProject(p: Project, i: nat) returns (t: Try<Compiled>)
    ensures match Compile(p) case Ok(c) => t == Fine(c) case Err(e) => t == Failed(Err(Error(i, e)))
  {
    var r := Compile(p);
    t := if r.Ok? then Fine(r.value) else Failed(Err(Error(i, r.error)));
  }

  method PushTargets(c: Compiled, ts: seq<Target>, i: nat, acc: seq<Entry>) returns (t: Try<seq<Entry>>)
    ensures match ExpandTargets(c, ts, i, acc) case Ok(es) => t == Fine(es) case Err(e) => t == Failed(Err(e))
  {
    var entries := acc;
    for k := 0 to |ts|
      invariant ExpandTargets(c, ts, i, acc) == ExpandTargets(c, ts[k..], i, entries)
    {
      assert ts[k..][0] == ts[k] && ts[k..][1..] == ts[k + 1..];
      var bad := CheckTarget(ts[k], |entries|);
      if bad.Some? {
        return Failed(Err(Error(i, bad.value)));
      }
      if ts[k].V4? {
        entries := PushHosts(c, ts[k].addr, ts[k].prefix, entries);
      } else {
        assert entries + [] == entries;
      }
    }
    t := Fine(entries);
  }

  method PushHosts(c: Compiled, addr: u32, prefix: nat, acc: seq<Entry>) returns (entries: seq<Entry>)
    requires 24 <= prefix <= 32
    ensures entries == acc + Hosts(c, addr, prefix)
  {
    var base, count := Base(addr, prefix), Size(prefix);
    FitsIn32(addr, prefix);
    entries := acc;
    for h := 0 to count
      invariant entries == acc + Hosts(c, addr, prefix)[..h]
    {
      entries := entries + [Host(c, base, h)];
    }
  }

  // ----- Lookup -----

  /** The four keys a packet is looked up under, most specific first. */
  function ClassKey(addr: u32, dport: u16, protocol: u8, idx: nat): PolicyKey
  {
    PolicyKey(addr, if idx < 2 then dport else 0, if idx % 2 == 0 then protocol else 0)
  }

  function LookupFrom(table: PolicyTable, addr: u32, dport: u16, protocol: u8, idx: nat): Option<Policy>
    requires idx <= 4
    decreases 4 - idx
  {
    if idx == 4 then None
    else
      var k := ClassKey(addr, dport, protocol, idx);
      if k in table then Some(table[k]) else LookupFrom(table, addr, dport, protocol, idx + 1)
  }

  method Lookup(table: PolicyTable, addr: u32, dport: u16, protocol: u8) returns (policy: Option<Policy>)
    ensures policy == LookupFrom(table, addr, dport, protocol, 0)
  {
    policy := None;
    var idx := 0;
    while idx < 4
      invariant 0 <= idx <= 4
      invariant policy == None
      invariant LookupFrom(table, addr, dport, protocol, 0) == LookupFrom(table, addr, dport, protocol, idx)
    {
      var best := PolicyKey(addr, 0, 0);
      match idx {
        case 0 => best := best.(dport := dport, protocol := protocol);
        case 1 => best := best.(dport := dport);
        case 2 => best := best.(protocol := protocol);
        case _ =>
      }
      if best in table {
        policy := Some(table[best]);
        break;
      }
      idx := idx + 1;
    }
  }

  // ----- What the projects mean -----

  /** The destination agrees with the target in its leading bits. */
  predicate Contains(t: Target, addr: u32)
  {
    t.V4? && t.prefix <= 32 && addr / Size(t.prefix) == t.addr / Size(t.prefix)
  }

  predicate Matches(p: Project, k: PolicyKey)
  {
    var c := Compile(p);
    c.Ok? && c.value.dport == k.dport && c.value.protocol == k.protocol && exists t :: t in p.targets && Contains(t, k.addr)
  }

  /** The policy of the last listed project of exactly this class with a target that contains the address. */
  function LastMatch(ps: seq<Project>, k: PolicyKey): Option<Policy>
  {
    if ps == [] then None
    else
      var later := LastMatch(ps[1..], k);
      if later.Some? then later
      else if Matches(ps[0], k) then Some(Compile(ps[0]).value.policy)
      else None
  }

  /** The most specific class that has a matching project decides. */
  function PolicyFor(ps: seq<Project>, addr: u32, dport: u16, protocol: u8): Option<Policy>
  {
    var exact := LastMatch(ps, PolicyKey(addr, dport, protocol));
    if exact.Some? then exact else
    var anyProtocol := LastMatch(ps, PolicyKey(addr, dport, 0));
    if anyProtocol.Some? then anyProtocol else
    var anyPort := LastMatch(ps, PolicyKey(addr, 0, protocol));
    if anyPort.Some? then anyPort else
    LastMatch(ps, PolicyKey(addr, 0, 0))
  }

  // ----- Expansion preserves meaning -----

  function Get(table: PolicyTable, k: PolicyKey): Option<Policy> { if k in table then Some(table[k]) else None }

  lemma {:induction false} LaterWins(xs: seq<Entry>, ys: seq<Entry>, k: PolicyKey)
    ensures Get(TableOf(xs + ys), k) == if k in TableOf(ys) then Some(TableOf(ys)[k]) else Get(TableOf(xs), k)
  {
    if ys == [] {
      assert xs + ys == xs;
    } else {
      var n := |ys| - 1;
      LaterWins(xs, ys[..n], k);
      assert (xs + ys)[..|xs + ys| - 1] == xs + ys[..n];
    }
  }

  lemma {:induction false} TableMembers(es: seq<Entry>, k: PolicyKey)
    ensures k in TableOf(es) ==> (k, TableOf(es)[k]) in es
    ensures forall i :: 0 <= i < |es| && es[i].0 == k ==> k in TableOf(es)
  {
    if es != [] {
      var n := |es| - 1;
      TableMembers(es[..n], k);
      assert es[n] == (es[n].0, es[n].1) && es[n] in es;
      assert forall i :: 0 <= i < n ==> es[..n][i] == es[i];
    }
  }

  lemma SameBlock(addr: u32, t: u32, size: nat)
    requires size in {1, 2, 4, 8, 16, 32, 64, 128, 256}
    ensures addr / size == t / size <==> t - t % size <= addr < t - t % size + size
  {
  }

  /** The table of one expanded target holds its class for exactly the addresses it contains. */
  lemma HostsMeanContains(c: Compiled, t: Target, k: PolicyKey)
    requires GoodTarget(t)
    ensures var table := TableOf(TargetEntries(c, t));
            && (k in table <==> k.dport == c.dport && k.protocol == c.protocol && Contains(t, k.addr))
            && (k in table ==> table[k] == c.policy)
  {
    var es := TargetEntries(c, t);
    TableMembers(es, k);
    if t.V4? {
      FitsIn32(t.addr, t.prefix);
      SameBlock(k.addr, t.addr, Size(t.prefix));
      if k.dport == c.dport && k.protocol == c.protocol && Contains(t, k.addr) {
        assert es[k.addr - Base(t.addr, t.prefix)].0 == k;
      }
    }
  }

  function AllTargets(c: Compiled, ts: seq<Target>): seq<Entry>
  {
    if ts == [] then [] else TargetEntries(c, ts[0]) + AllTargets(c, ts[1..])
  }

  function ProjectEntries(p: Project): seq<Entry>
  {
    match Compile(p) case Ok(c) => AllTargets(c, p.targets) case Err(_) => []
  }

  function AllProjects(ps: seq<Project>): seq<Entry>
  {
    if ps == [] then [] else ProjectEntries(ps[0]) + AllProjects(ps[1..])
  }

  predicate GoodTarget(t: Target) { t.V6? || (t.V4? && 24 <= t.prefix <= 32) }

  predicate GoodTargets(ts: seq<Target>) { forall t :: t in ts ==> GoodTarget(t) }

  predicate GoodProject(p: Project)
  {
    Compile(p).Ok? && GoodTargets(p.targets)
  }

  lemma Regroup(a: seq<Entry>, b: seq<Entry>, c: seq<Entry>)
    ensures (a + b) + c == a + (b + c)
  {
  }

  lemma {:induction false} TargetsExpand(c: Compiled, ts: seq<Target>, i: nat, acc: seq<Entry>)
    requires |acc| <= MAX_ENTRIES
    ensures var r := ExpandTargets(c, ts, i, acc);
            if GoodTargets(ts) && |acc| + |AllTargets(c, ts)| <= MAX_ENTRIES then r == Ok(acc + AllTargets(c, ts)) else r.Err?
    decreases |ts|
  {
    if ts == [] {
      assert acc + [] == acc;
    } else {
      var es := TargetEntries(c, ts[0]);
      FirstTarget(ts);
      TargetStep(c, ts, i, acc);
      Regroup(acc, es, AllTargets(c, ts[1..]));
      if GoodTarget(ts[0]) && |acc + es| <= MAX_ENTRIES { TargetsExpand(c, ts[1..], i, acc + es); }
    }
  }

  lemma FirstTarget(ts: seq<Target>)
    requires ts != []
    ensures GoodTargets(ts) <==> GoodTarget(ts[0]) && GoodTargets(ts[1..])
  {
    assert ts[0] in ts;
    assert forall t :: t in ts <==> t == ts[0] || t in ts[1..];
  }

  lemma TargetStep(c: Compiled, ts: seq<Target>, i: nat, acc: seq<Entry>)
    requires ts != [] && |acc| <= MAX_ENTRIES
    ensures var r, es := ExpandTargets(c, ts, i, acc), TargetEntries(c, ts[0]);
            if GoodTarget(ts[0]) && |acc| + |es| <= MAX_ENTRIES then r == ExpandTargets(c, ts[1..], i, acc + es) else r.Err?
  {
  }

  /** Every project is well formed, and all hosts together fit the table beside the `used` entries it has. */
  ghost predicate Fits(ps: seq<Project>, used: nat)
  {
    (forall p :: p in ps ==> GoodProject(p)) && used + |AllProjects(ps)| <= 8192
  }

  /** An expansion succeeds exactly when the projects fit, and then it is the expansion of each in turn. */
  lemma {:induction false} ProjectsExpand(ps: seq<Project>, i: nat, acc: seq<Entry>)
    requires |acc| <= MAX_ENTRIES
    ensures var r := ExpandFrom(ps, i, acc); if Fits(ps, |acc|) then r == Ok(acc + AllProjects(ps)) else r.Err?
    decreases |ps|
  {
    if ps == [] {
      assert acc + [] == acc;
    } else {
      var es := ProjectEntries(ps[0]);
      ProjectStep(ps, i, acc);
      FirstFits(ps, |acc|);
      Regroup(acc, es, AllProjects(ps[1..]));
      if FirstOk(ps[0], |acc|) { ProjectsExpand(ps[1..], i + 1, acc + es); }
    }
  }

  ghost predicate FirstOk(p: Project, used: nat) { GoodProject(p) && used + |ProjectEntries(p)| <= MAX_ENTRIES }

  lemma FirstFits(ps: seq<Project>, used: nat)
    requires ps != []
    ensures Fits(ps, used) <==> FirstOk(ps[0], used) && Fits(ps[1..], used + |ProjectEntries(ps[0])|)
  {
    assert |AllProjects(ps)| == |ProjectEntries(ps[0])| + |AllProjects(ps[1..])|;
    assert ps[0] in ps;
    assert forall q :: q in ps <==> q == ps[0] || q in ps[1..];
  }

  lemma ProjectStep(ps: seq<Project>, i: nat, acc: seq<Entry>)
    requires |acc| <= MAX_ENTRIES && ps != []
    ensures var r := ExpandFrom(ps, i, acc);
            if FirstOk(ps[0], |acc|)
            then r == ExpandFrom(ps[1..], i + 1, acc + ProjectEntries(ps[0]))
            else r.Err?
  {
    OneProjectExpands(ps[0], i, acc);
  }

  lemma OneProjectExpands(p: Project, i: nat, acc: seq<Entry>)
    requires |acc| <= MAX_ENTRIES
    ensures Compile(p).Ok? ==>
      var r := ExpandTargets(Compile(p).value, p.targets, i, acc);
      if FirstOk(p, |acc|) then r == Ok(acc + ProjectEntries(p)) else r.Err?
  {
    if Compile(p).Ok? {
      TargetsExpand(Compile(p).value, p.targets, i, acc);
    }
  }

  lemma {:induction false} TargetsMean(c: Compiled, ts: seq<Target>, k: PolicyKey)
    requires forall t :: t in ts ==> GoodTarget(t)
    ensures var table := TableOf(AllTargets(c, ts));
            && (k in table <==> k.dport == c.dport && k.protocol == c.protocol && exists t :: t in ts && Contains(t, k.addr))
            && (k in table ==> table[k] == c.policy)
  {
    if ts != [] {
      assert forall t :: t in ts <==> t == ts[0] || t in ts[1..];
      TargetsMean(c, ts[1..], k);
      LaterWins(TargetEntries(c, ts[0]), AllTargets(c, ts[1..]), k);
      HostsMeanContains(c, ts[0], k);
    }
  }

  lemma {:induction false} TableMeansLastMatch(ps: seq<Project>, k: PolicyKey)
    requires forall p :: p in ps ==> GoodProject(p)
    ensures Get(TableOf(AllProjects(ps)), k) == LastMatch(ps, k)
  {
    if ps != [] {
      assert GoodProject(ps[0]);
      TableMeansLastMatch(ps[1..], k);
      TargetsMean(Compile(ps[0]).value, ps[0].targets, k);
      LaterWins(ProjectEntries(ps[0]), AllProjects(ps[1..]), k);
    }
  }

  /** Main result: looking a packet up in the expanded table is reading the project list. */
  lemma ExpansionPreservesMeaning(ps: seq<Project>, addr: u32, dport: u16, protocol: u8)
    requires Expand(ps).Ok?
    ensures LookupFrom(TableOf(Expand(ps).value), addr, dport, protocol, 0) == PolicyFor(ps, addr, dport, protocol)
  {
    ProjectsExpand(ps, 0, []);
    assert Expand(ps).value == AllProjects(ps);
    var table := TableOf(AllProjects(ps));
    forall k ensures Get(table, k) == LastMatch(ps, k) { TableMeansLastMatch(ps, k); }
    LookupSteps(table, addr, dport, protocol);
  }

  lemma LookupSteps(table: PolicyTable, addr: u32, dport: u16, protocol: u8)
    ensures LookupFrom(table, addr, dport, protocol, 0) ==
      var a, b := Get(table, PolicyKey(addr, dport, protocol)), Get(table, PolicyKey(addr, dport, 0));
      var c, d := Get(table, PolicyKey(addr, 0, protocol)), Get(table, PolicyKey(addr, 0, 0));
      if a.Some? then a else if b.Some? then b else if c.Some? then c else d
  {
    assert LookupFrom(table, addr, dport, protocol, 4) == None;
    assert LookupFrom(table, addr, dport, protocol, 3) == Get(table, PolicyKey(addr, 0, 0));
    assert LookupFrom(table, addr, dport, protocol, 2) ==
      if PolicyKey(addr, 0, protocol) in table then Get(table, PolicyKey(addr, 0, protocol))
      else LookupFrom(table, addr, dport, protocol, 3);
  }
}
