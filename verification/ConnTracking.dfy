/**
 Half-open connections: over any run, a tracked packet is dropped by this check
 exactly if, within the current stretch without an idle window, some tail of the
 source's tracked packets has too many more SYNs than ACKs and RSTs.
 */
module ConnTracking {
  import opened Words
  import opened DataPlane
  import opened DataPlaneRuns
  import opened CountedOnce
  import opened Handshake

  // ----- Counting -----

  /** A tracked packet: a SYN, or else an ACK or RST. */
  datatype Tracked = Tracked(at: u64, syn: bool)

  function Open(ts: seq<Tracked>, windowNs: u64): ConnEntry
  {
    if ts == [] then ConnEntry(0, 0)
    else
      var last := ts[|ts| - 1];
      ConnTrackStep(Open(ts[..|ts| - 1], windowNs), last.at, last.syn, !last.syn, windowNs)
  }

  /** SYNs less ACKs and RSTs. */
  function Balance(ts: seq<Tracked>): int
  {
    if ts == [] then 0 else Balance(ts[..|ts| - 1]) + Delta(ts[|ts| - 1])
  }

  function Delta(x: Tracked): int { if x.syn then 1 else -1 }

  predicate Idle(ts: seq<Tracked>, windowNs: u64, j: nat)
    requires 0 < j < |ts|
  {
    ts[j].at - ts[j - 1].at > windowNs
  }

  /** The current stretch starts at j: an idle window before it, and none since. */
  ghost predicate Stretch(ts: seq<Tracked>, windowNs: u64, j: nat)
  {
    && j < |ts| && (j == 0 || Idle(ts, windowNs, j))
    && forall i :: j < i < |ts| ==> !Idle(ts, windowNs, i)
  }

  /** The number is the largest balance of a tail that starts at j or later, the empty one included. */
  ghost predicate IsPeak(n: int, ts: seq<Tracked>, j: nat)
    requires j <= |ts|
  {
    && (forall k :: j <= k <= |ts| ==> Balance(ts[k..]) <= n)
    && (exists k :: j <= k <= |ts| && Balance(ts[k..]) == n)
  }

  lemma BalanceSnoc(ts: seq<Tracked>, x: Tracked, k: nat)
    requires k <= |ts|
    ensures Balance((ts + [x])[k..]) == Balance(ts[k..]) + Delta(x)
  {
    assert (ts + [x])[k..] == ts[k..] + [x];
    assert (ts[k..] + [x])[..|ts| - k] == ts[k..];
  }

  lemma PeakSnoc(n: int, ts: seq<Tracked>, x: Tracked, j: nat)
    requires j <= |ts| && IsPeak(n, ts, j)
    ensures IsPeak(Max(n + Delta(x), 0), ts + [x], j)
  {
    var all := ts + [x];
    forall k | j <= k <= |all| ensures Balance(all[k..]) <= Max(n + Delta(x), 0) {
      if k <= |ts| { BalanceSnoc(ts, x, k); } else { assert all[k..] == []; }
    }
    var k :| j <= k <= |ts| && Balance(ts[k..]) == n;
    BalanceSnoc(ts, x, k);
    assert all[|all|..] == [];
    assert Balance(all[if n + Delta(x) >= 0 then k else |all|..]) == Max(n + Delta(x), 0);
  }

  lemma EmptyPeak(ts: seq<Tracked>)
    ensures IsPeak(0, ts, |ts|)
  {
    assert ts[|ts|..] == [];
  }

  lemma {:induction false} LastSeen(ts: seq<Tracked>, windowNs: u64)
    requires ts != []
    ensures Open(ts, windowNs).lastSeenNs == ts[|ts| - 1].at && Open(ts, windowNs).halfOpen <= |ts|
  {
    if |ts| > 1 { LastSeen(ts[..|ts| - 1], windowNs); }
  }

  lemma FrontStretch(ts: seq<Tracked>, windowNs: u64, j: nat)
    requires Stretch(ts, windowNs, j) && j < |ts| - 1
    ensures Stretch(ts[..|ts| - 1], windowNs, j) && !Idle(ts, windowNs, |ts| - 1)
  {
    var front := ts[..|ts| - 1];
    forall i | j < i < |front| ensures !Idle(front, windowNs, i) { assert !Idle(ts, windowNs, i); }
  }

  lemma StepAdds(e: ConnEntry, x: Tracked, windowNs: u64)
    requires windowNs > 0 && e.halfOpen < U32_MAX && x.at - e.lastSeenNs <= windowNs
    ensures ConnTrackStep(e, x.at, x.syn, !x.syn, windowNs).halfOpen == Max(e.halfOpen + Delta(x), 0)
  {
  }

  lemma StepRestarts(e: ConnEntry, x: Tracked, windowNs: u64)
    requires windowNs > 0 && (x.at - e.lastSeenNs > windowNs || e == ConnEntry(0, 0))
    ensures ConnTrackStep(e, x.at, x.syn, !x.syn, windowNs).halfOpen == Max(Delta(x), 0)
  {
  }

  lemma OpenSnoc(ts: seq<Tracked>, x: Tracked, windowNs: u64)
    ensures Open(ts + [x], windowNs) == ConnTrackStep(Open(ts, windowNs), x.at, x.syn, !x.syn, windowNs)
  {
    assert (ts + [x])[..|ts|] == ts;
  }

  lemma FirstPeak(ts: seq<Tracked>, x: Tracked, windowNs: u64)
    requires windowNs > 0 && (ts == [] || x.at - Open(ts, windowNs).lastSeenNs > windowNs)
    ensures IsPeak(Open(ts + [x], windowNs).halfOpen, ts + [x], |ts|)
  {
    EmptyPeak(ts);
    PeakSnoc(0, ts, x, |ts|);
    OpenSnoc(ts, x, windowNs);
    StepRestarts(Open(ts, windowNs), x, windowNs);
  }

  lemma NextPeak(ts: seq<Tracked>, x: Tracked, windowNs: u64, j: nat)
    requires windowNs > 0 && j <= |ts| && IsPeak(Open(ts, windowNs).halfOpen, ts, j)
    requires Open(ts, windowNs).halfOpen < U32_MAX && x.at - Open(ts, windowNs).lastSeenNs <= windowNs
    ensures IsPeak(Open(ts + [x], windowNs).halfOpen, ts + [x], j)
  {
    PeakSnoc(Open(ts, windowNs).halfOpen, ts, x, j);
    OpenSnoc(ts, x, windowNs);
    StepAdds(Open(ts, windowNs), x, windowNs);
  }

  /** The count of half-open connections is the peak of the current stretch. */
  lemma {:induction false} OpenIsPeak(ts: seq<Tracked>, windowNs: u64, j: nat)
    requires Stretch(ts, windowNs, j) && windowNs > 0 && |ts| <= U32_MAX
    ensures IsPeak(Open(ts, windowNs).halfOpen, ts, j)
  {
    var n := |ts| - 1;
    var front, x := ts[..n], ts[n];
    assert ts == front + [x];
    if n > 0 { LastSeen(front, windowNs); }
    if j == n {
      FirstPeak(front, x, windowNs);
    } else {
      FrontStretch(ts, windowNs, j);
      OpenIsPeak(front, windowNs, j);
      NextPeak(front, x, windowNs, j);
    }
  }

  // ----- One packet -----

  /** The check reaches the packet in context c and tracks it. */
  predicate ChecksTrack(cfg: Config, p: Packet, c: Ctx)
  {
    && cfg.connTrackEnabled && !p.fragment && p.protocol == TCP && Has(c.flags, M_CONN_TRACK)
    && (p.IsSyn() || p.IsAckOrRst())
  }

  function WindowNs(cfg: Config): u64 { MsToNs(Max(cfg.connTrackWindowMs, 1)) }

  /** The source's entry once this packet is tracked. */
  function TrackedEntry(cfg: Config, m: Maps, p: Packet): ConnEntry
  {
    var e := if p.src in m.connTrack then m.connTrack[p.src] else ConnEntry(0, 0);
    ConnTrackStep(e, p.now, p.IsSyn(), !p.IsSyn(), WindowNs(cfg))
  }

  predicate TooMany(cfg: Config, e: ConnEntry) { e.halfOpen > Max(cfg.connTrackThreshold, 1) }

  /** An entry is kept exactly while connections are open. */
  ghost predicate Stored(m: Maps, m': Maps, s: IpKey, e: ConnEntry)
  {
    m'.connTrack == if e.halfOpen == 0 then m.connTrack - {s} else m.connTrack[s := e]
  }

  lemma TrackStage(t: Tables, cfg: Config, p: Packet, m: Maps, c: Ctx)
    ensures var d := ConnTrackStage(t, cfg, p, m, c);
            && d.c == c && d.m.blocked == m.blocked
            && (if ChecksTrack(cfg, p, c)
                then Stored(m, d.m, p.src, TrackedEntry(cfg, m, p))
                     && (if TooMany(cfg, TrackedEntry(cfg, m, p))
                         then d.verdict == Discard(m.blocked.(connTrackBlocked := m.blocked.connTrackBlocked + 1))
                         else d.verdict == Next)
                else d.m.connTrack == m.connTrack && d.verdict == Next)
  {
  }

  /** The check leaves the open connections and their counter alone. */
  ghost predicate LeavesTracking(m: Maps, d: Decision)
  {
    && d.m.connTrack == m.connTrack && d.m.blocked == m.blocked
    && (d.verdict.Discard? ==> d.verdict.blocked.connTrackBlocked == m.blocked.connTrackBlocked)
  }

  lemma FloodLeavesTracking(t: Tables, cfg: Config, p: Packet, m: Maps, c: Ctx, k: Flood, counts: bool, soft: bool, dport: u16)
    ensures LeavesTracking(m, FloodCheck(t, cfg, p, m, c, k, counts, soft, dport))
  {
  }

  lemma SynProxyLeavesTracking(t: Tables, cfg: Config, p: Packet, m: Maps, c: Ctx)
    ensures LeavesTracking(m, SynProxy(t, cfg, p, m, c))
  {
  }

  lemma RateLimitLeavesTracking(t: Tables, cfg: Config, p: Packet, m: Maps, c: Ctx)
    ensures LeavesTracking(m, RateLimitStage(t, cfg, p, m, c))
  {
  }

  lemma OtherLeavesTracking(i: nat, t: Tables, cfg: Config, p: Packet, m: Maps, c: Ctx)
    requires i < 5 || i == 9
    ensures LeavesTracking(m, Stage(i, t, cfg, p, m, c))
  {
  }

  lemma StageLeavesTracking(i: nat, t: Tables, cfg: Config, p: Packet, m: Maps, c: Ctx)
    requires i < STAGES && i != 5
    ensures LeavesTracking(m, Stage(i, t, cfg, p, m, c))
  {
    if i < 5 || i == 9 {
      OtherLeavesTracking(i, t, cfg, p, m, c);
    } else if i == 10 {
      RateLimitLeavesTracking(t, cfg, p, m, c);
    } else if i == 6 {
      SynProxyLeavesTracking(t, cfg, p, m, c);
      FloodLeavesTracking(t, cfg, p, m, c, SynF, p.IsSyn(), false, p.dport);
    } else if i == 7 {
      FloodLeavesTracking(t, cfg, p, m, c, UdpF, cfg.udpFloodEnabled, cfg.rateLimitSoft, p.dport);
    } else {
      FloodLeavesTracking(t, cfg, p, m, c, IcmpF, cfg.icmpFloodEnabled, cfg.rateLimitSoft, 0);
    }
  }

  lemma FinishLeavesTracking(cfg: Config, p: Packet, d: Decision)
    ensures var out := Finish(cfg, p, d);
            && out.m.connTrack == d.m.connTrack
            && out.m.blocked.connTrackBlocked == (if d.verdict.Discard? then d.verdict.blocked else d.m.blocked).connTrackBlocked
            && (d.verdict.Next? <==> out.action.None?)
            && (d.verdict.Discard? ==> out.action in {Some(Drop), Some(Reset)})
  {
    match d.verdict
    case Discard(b) => DropIsBookkeeping(cfg, p, d.m.(blocked := b, totals := CountDrop(d.m.totals, p.protocol)));
    case Accept => PassIsBookkeeping(cfg, p, d.m);
    case _ =>
  }

  ghost predicate Untracked(m: Maps, m': Maps)
  {
    m'.connTrack == m.connTrack && m'.blocked.connTrackBlocked == m.blocked.connTrackBlocked
  }

  lemma {:induction false} BehindTracking(i: nat, t: Tables, cfg: Config, p: Packet, m: Maps, c: Ctx)
    requires 6 <= i <= STAGES
    ensures Untracked(m, StagesFrom(i, t, cfg, p, m, c).m)
    decreases STAGES - i
  {
    if i == STAGES {
      FinishLeavesTracking(cfg, p, Decision(m, c, Accept));
    } else {
      var d := Stage(i, t, cfg, p, m, c);
      StageLeavesTracking(i, t, cfg, p, m, c);
      FinishLeavesTracking(cfg, p, d);
      if d.verdict.Next? { BehindTracking(i + 1, t, cfg, p, d.m, d.c); }
    }
  }

  /** What the packet does to its source's open connections, and what they do to it. */
  ghost predicate TrackOutcome(cfg: Config, p: Packet, m: Maps, out: Out, tracks: bool)
  {
    if !tracks then Untracked(m, out.m)
    else
      var e := TrackedEntry(cfg, m, p);
      && Stored(m, out.m, p.src, e)
      && out.m.blocked.connTrackBlocked == m.blocked.connTrackBlocked + (if TooMany(cfg, e) then 1 else 0)
      && (TooMany(cfg, e) ==> out.action in {Some(Drop), Some(Reset)})
  }

  /** The check is reached from check i on, and tracks the packet. */
  predicate WillTrack(i: nat, t: Tables, cfg: Config, p: Packet, m: Maps, c: Ctx)
    requires i <= 5
  {
    var at := Upto(i, 5, t, cfg, p, m, c);
    at.Some? && ChecksTrack(cfg, p, at.value.1)
  }

  lemma AtTracking(t: Tables, cfg: Config, p: Packet, m: Maps, c: Ctx, i: nat)
    requires i == 5
    ensures TrackOutcome(cfg, p, m, StagesFrom(i, t, cfg, p, m, c), ChecksTrack(cfg, p, c))
  {
    var d := Stage(i, t, cfg, p, m, c);
    TrackStage(t, cfg, p, m, c);
    FinishLeavesTracking(cfg, p, d);
    if d.verdict.Next? { BehindTracking(i + 1, t, cfg, p, d.m, d.c); }
  }

  lemma {:induction false} StagesTrack(i: nat, t: Tables, cfg: Config, p: Packet, m: Maps, c: Ctx)
    requires i <= 5
    ensures TrackOutcome(cfg, p, m, StagesFrom(i, t, cfg, p, m, c), WillTrack(i, t, cfg, p, m, c))
    decreases 5 - i
  {
    if i == 5 {
      AtTracking(t, cfg, p, m, c, i);
    } else {
      var d := Stage(i, t, cfg, p, m, c);
      StageLeavesTracking(i, t, cfg, p, m, c);
      FinishLeavesTracking(cfg, p, d);
      if d.verdict.Next? { StagesTrack(i + 1, t, cfg, p, d.m, d.c); }
    }
  }

  /** The packet is tracked: no check before this one decides, and this one is on for it. */
  predicate Tracks(t: Tables, p: Packet, m: Maps)
  {
    t.config.Some? && p.src !in t.whitelist && WillTrack(0, t, t.config.value, p, Arrived(m), Ctx(false, FLAGS_ALL))
  }

  lemma PacketTracks(t: Tables, p: Packet, m: Maps)
    requires t.config.Some?
    ensures var (m', a) := Process(t, p, m);
            TrackOutcome(t.config.value, p, m, Out(m', Ctx(false, FLAGS_ALL), Some(a)), Tracks(t, p, m))
  {
    var cfg, c := t.config.value, Ctx(false, FLAGS_ALL);
    FinishLeavesTracking(cfg, p, Decision(Arrived(m), c, Accept));
    StagesTrack(0, t, cfg, p, Arrived(m), c);
  }

  // ----- Runs -----

  predicate IsTracked(e: Event, m: Maps, s: IpKey) { e.Arrive? && e.p.src == s && Tracks(e.t, e.p, m) }

  /** The tracked packets of source s, in order. */
  function TrackedOf(es: seq<Event>, m: Maps, s: IpKey): seq<Tracked>
  {
    if es == [] then []
    else
      var front, e := es[..|es| - 1], es[|es| - 1];
      var ts := TrackedOf(front, m, s);
      if IsTracked(e, RunAll(front, m), s) then ts + [Tracked(e.p.now, e.p.IsSyn())] else ts
  }

  /** Packets of s meet one window. */
  ghost predicate OneWindow(es: seq<Event>, s: IpKey, windowNs: u64)
  {
    forall i :: 0 <= i < |es| && es[i].Arrive? && es[i].p.src == s && es[i].t.config.Some? ==> WindowNs(es[i].t.config.value) == windowNs
  }

  /** The map holds the count while it is not 0. */
  ghost predicate Shows(m: Maps, s: IpKey, e: ConnEntry)
  {
    Lookup(m.connTrack, s) == if e.halfOpen == 0 then None else Some(e)
  }

  lemma SameStep(e: ConnEntry, now: u64, syn: bool, windowNs: u64)
    requires e.halfOpen == 0
    ensures ConnTrackStep(e, now, syn, !syn, windowNs) == ConnTrackStep(ConnEntry(0, 0), now, syn, !syn, windowNs)
  {
  }

  lemma NextShows(cfg: Config, m: Maps, p: Packet, ts: seq<Tracked>)
    requires Shows(m, p.src, Open(ts, WindowNs(cfg)))
    ensures TrackedEntry(cfg, m, p) == Open(ts + [Tracked(p.now, p.IsSyn())], WindowNs(cfg))
  {
    OpenSnoc(ts, Tracked(p.now, p.IsSyn()), WindowNs(cfg));
    if Open(ts, WindowNs(cfg)).halfOpen == 0 { SameStep(Open(ts, WindowNs(cfg)), p.now, p.IsSyn(), WindowNs(cfg)); }
  }

  lemma StoredShows(m: Maps, m': Maps, src: IpKey, e: ConnEntry, s: IpKey)
    requires Stored(m, m', src, e)
    ensures if src == s then Shows(m', s, e) else Lookup(m'.connTrack, s) == Lookup(m.connTrack, s)
  {
  }

  lemma OutcomeShows(cfg: Config, p: Packet, m: Maps, m': Maps, tracks: bool, s: IpKey, ts: seq<Tracked>, windowNs: u64)
    requires Shows(m, s, Open(ts, windowNs)) && (p.src == s ==> WindowNs(cfg) == windowNs)
    requires if tracks then Stored(m, m', p.src, TrackedEntry(cfg, m, p)) else m'.connTrack == m.connTrack
    ensures Shows(m', s, Open(if tracks && p.src == s then ts + [Tracked(p.now, p.IsSyn())] else ts, windowNs))
  {
    if tracks {
      StoredShows(m, m', p.src, TrackedEntry(cfg, m, p), s);
      if p.src == s { NextShows(cfg, m, p, ts); }
    }
  }

  lemma ArriveShows(t: Tables, p: Packet, m: Maps, s: IpKey, ts: seq<Tracked>, windowNs: u64)
    requires Shows(m, s, Open(ts, windowNs)) && t.config.Some? && (p.src == s ==> WindowNs(t.config.value) == windowNs)
    ensures Shows(Process(t, p, m).0, s, Open(if Tracks(t, p, m) && p.src == s then ts + [Tracked(p.now, p.IsSyn())] else ts, windowNs))
  {
    PacketTracks(t, p, m);
    OutcomeShows(t.config.value, p, m, Process(t, p, m).0, Tracks(t, p, m), s, ts, windowNs);
  }

  lemma StepShows(e: Event, m: Maps, s: IpKey, ts: seq<Tracked>, windowNs: u64)
    requires Shows(m, s, Open(ts, windowNs))
    requires e.Arrive? && e.p.src == s && e.t.config.Some? ==> WindowNs(e.t.config.value) == windowNs
    ensures Shows(Step(e, m), s, Open(if IsTracked(e, m, s) then ts + [Tracked(e.p.now, e.p.IsSyn())] else ts, windowNs))
  {
    if e.Arrive? && e.t.config.Some? {
      ArriveShows(e.t, e.p, m, s, ts, windowNs);
    } else {
      NoPacketNoTracking(e, m);
    }
  }

  lemma NoPacketNoTracking(e: Event, m: Maps)
    requires !(e.Arrive? && e.t.config.Some?)
    ensures Step(e, m).connTrack == m.connTrack && (e.Arrive? ==> !Tracks(e.t, e.p, m))
  {
  }

  /** After any run the map shows the count that the source's tracked packets add up to. */
  lemma {:induction false} MapShowsOpen(es: seq<Event>, m: Maps, s: IpKey, windowNs: u64)
    requires s !in m.connTrack && OneWindow(es, s, windowNs)
    ensures Shows(RunAll(es, m), s, Open(TrackedOf(es, m, s), windowNs))
  {
    if es != [] {
      var front, e := es[..|es| - 1], es[|es| - 1];
      MapShowsOpen(front, m, s, windowNs);
      StepShows(e, RunAll(front, m), s, TrackedOf(front, m, s), windowNs);
    }
  }

  /** Some tail of the stretch from j on has more than the limit of SYNs over ACKs and RSTs. */
  ghost predicate Floods(ts: seq<Tracked>, j: nat, limit: nat)
  {
    exists k :: j <= k <= |ts| && Balance(ts[k..]) > limit
  }

  lemma PeakFloods(n: int, ts: seq<Tracked>, j: nat, limit: nat)
    requires j <= |ts| && IsPeak(n, ts, j)
    ensures n > limit <==> Floods(ts, j, limit)
  {
  }

  /**
   Main result: after any run, a tracked packet is dropped and counted by this check
   exactly if it completes a flood within the stretch since the source's last idle
   window.
   */
  lemma HalfOpenFloodIsDropped(es: seq<Event>, m: Maps, t: Tables, p: Packet, windowNs: u64, j: nat)
    requires p.src !in m.connTrack && OneWindow(es, p.src, windowNs) && windowNs > 0
    requires Tracks(t, p, RunAll(es, m)) && WindowNs(t.config.value) == windowNs
    requires var ts := TrackedOf(es, m, p.src) + [Tracked(p.now, p.IsSyn())];
             Stretch(ts, windowNs, j) && |ts| <= U32_MAX
    ensures var ts := TrackedOf(es, m, p.src) + [Tracked(p.now, p.IsSyn())];
            var m1 := RunAll(es, m);
            var (m2, a) := Process(t, p, m1);
            var flood := Floods(ts, j, Max(t.config.value.connTrackThreshold, 1));
            && m2.blocked.connTrackBlocked == m1.blocked.connTrackBlocked + (if flood then 1 else 0)
            && (flood ==> a in {Drop, Reset})
  {
    var cfg, m1 := t.config.value, RunAll(es, m);
    var ts := TrackedOf(es, m, p.src) + [Tracked(p.now, p.IsSyn())];
    MapShowsOpen(es, m, p.src, windowNs);
    NextShows(cfg, m1, p, TrackedOf(es, m, p.src));
    PacketTracks(t, p, m1);
    OpenIsPeak(ts, windowNs, j);
    PeakFloods(Open(ts, windowNs).halfOpen, ts, j, Max(cfg.connTrackThreshold, 1));
  }
}
