/**
 The SYN proxy end to end: a client whose SYN the pipeline answers with a
 challenge gets through with the matching ACK, whatever packets and blocks come
 in between and however often the secrets are rotated.
 */
module Handshake {
  import opened Words
  import SC = SynCookie
  import opened DataPlane
  import opened DataPlaneRuns
  import opened CountedOnce
  import PoliteSources

  // ----- What reaches the proxy -----

  /** The state in which check j is reached from check i, if none of the checks between decides. */
  function Upto(i: nat, j: nat, t: Tables, cfg: Config, p: Packet, m: Maps, c: Ctx): Option<(Maps, Ctx)>
    requires i <= j <= STAGES
    decreases j - i, p
  {
    if i == j then Some((m, c))
    else
      var d := Stage(i, t, cfg, p, m, c);
      if d.verdict.Next? then Upto(i + 1, j, t, cfg, p, d.m, d.c) else None
  }

  lemma {:induction false} UptoContinues(i: nat, j: nat, t: Tables, cfg: Config, p: Packet, m: Maps, c: Ctx)
    requires i <= j <= STAGES && Upto(i, j, t, cfg, p, m, c).Some?
    ensures var (m', c') := Upto(i, j, t, cfg, p, m, c).value;
            StagesFrom(i, t, cfg, p, m, c) == StagesFrom(j, t, cfg, p, m', c')
    decreases j - i
  {
    if i < j {
      var d := Stage(i, t, cfg, p, m, c);
      UptoContinues(i + 1, j, t, cfg, p, d.m, d.c);
    }
  }

  /** No check before the proxy touches the marks. */
  lemma EarlyStageKeepsMarks(i: nat, t: Tables, cfg: Config, p: Packet, m: Maps, c: Ctx)
    requires i < 6 || i == 9
    ensures var d := Stage(i, t, cfg, p, m, c); d.m.challenged == m.challenged && !d.verdict.Answer?
  {
    if i != 1 { PoliteSources.OtherStageKeepsLists(i, t, cfg, p, m, c); }
  }

  lemma FloodKeepsMarks(t: Tables, cfg: Config, p: Packet, m: Maps, c: Ctx, k: Flood, counts: bool, soft: bool, dport: u16)
    ensures var d := FloodCheck(t, cfg, p, m, c, k, counts, soft, dport); d.m.challenged == m.challenged && !d.verdict.Answer?
  {
  }

  lemma RateLimitKeepsMarks(t: Tables, cfg: Config, p: Packet, m: Maps, c: Ctx)
    ensures var d := RateLimitStage(t, cfg, p, m, c); d.m.challenged == m.challenged && !d.verdict.Answer?
  {
  }

  predicate Proxied(cfg: Config, p: Packet, c: Ctx)
  {
    p.protocol == TCP && Has(c.flags, M_SYN_FLOOD) && !p.fragment && p.src.family == IPV4 && cfg.synProxyEnabled
  }

  /** Only the proxy touches the marks or answers a packet. */
  lemma OtherStageKeepsMarks(i: nat, t: Tables, cfg: Config, p: Packet, m: Maps, c: Ctx)
    requires i < STAGES && !(i == 6 && Proxied(cfg, p, c))
    ensures var d := Stage(i, t, cfg, p, m, c); d.m.challenged == m.challenged && !d.verdict.Answer?
  {
    if i < 6 || i == 9 {
      EarlyStageKeepsMarks(i, t, cfg, p, m, c);
    } else if i == 10 {
      RateLimitKeepsMarks(t, cfg, p, m, c);
    } else if i == 6 {
      FloodKeepsMarks(t, cfg, p, m, c, SynF, p.IsSyn(), false, p.dport);
    } else if i == 7 {
      FloodKeepsMarks(t, cfg, p, m, c, UdpF, cfg.udpFloodEnabled, cfg.rateLimitSoft, p.dport);
    } else {
      FloodKeepsMarks(t, cfg, p, m, c, IcmpF, cfg.icmpFloodEnabled, cfg.rateLimitSoft, 0);
    }
  }

  lemma {:induction false} UptoKeepsMarks(i: nat, j: nat, t: Tables, cfg: Config, p: Packet, m: Maps, c: Ctx)
    requires i <= j <= 6 && Upto(i, j, t, cfg, p, m, c).Some?
    ensures Upto(i, j, t, cfg, p, m, c).value.0.challenged == m.challenged
    decreases j - i
  {
    if i < j {
      EarlyStageKeepsMarks(i, t, cfg, p, m, c);
      var d := Stage(i, t, cfg, p, m, c);
      UptoKeepsMarks(i + 1, j, t, cfg, p, d.m, d.c);
    }
  }

  // ----- The challenge -----

  /** The cookie p is answered with under the tables t, and the mark m keeps for its source. */
  ghost predicate IsChallenge(t: Tables, p: Packet, m: Maps, cookie: bv32)
  {
    && t.secrets.Some? && Marked(m, p.src, p.now)
    && cookie == SC.Challenge(SC.Cookie, t.secrets.value, p.flow, p.now, SC.MssToIdx(if p.tcpHdrLen == 24 then p.mss else None))
  }

  /** Marks of p's source are not in the future. */
  ghost predicate PastMark(m: Maps, p: Packet) { p.src in m.challenged ==> m.challenged[p.src] <= p.now }

  lemma ProxyChallenges(t: Tables, cfg: Config, p: Packet, m: Maps, c: Ctx)
    requires PastMark(m, p)
    requires SynProxy(t, cfg, p, m, c).verdict.Answer? && SynProxy(t, cfg, p, m, c).verdict.action.Challenge?
    ensures var d := SynProxy(t, cfg, p, m, c);
            IsChallenge(t, p, d.m, d.verdict.action.cookie) && PastMark(d.m, p)
  {
  }

  lemma {:induction false} StagesChallenge(i: nat, t: Tables, cfg: Config, p: Packet, m: Maps, c: Ctx)
    requires i <= STAGES && PastMark(m, p)
    ensures var out := StagesFrom(i, t, cfg, p, m, c);
            out.action.Some? && out.action.value.Challenge? ==>
              IsChallenge(t, p, out.m, out.action.value.cookie) && PastMark(out.m, p)
    decreases STAGES - i
  {
    if i == STAGES {
      FinishLeavesRates(cfg, p, Decision(m, c, Accept));
    } else {
      var d := Stage(i, t, cfg, p, m, c);
      FinishLeavesRates(cfg, p, d);
      if i == 6 && Proxied(cfg, p, c) {
        if d.verdict.Answer? && d.verdict.action.Challenge? { ProxyChallenges(t, cfg, p, m, c); }
        if d.verdict.Next? { PastMarkStays(t, cfg, p, m, c); }
      } else {
        OtherStageKeepsMarks(i, t, cfg, p, m, c);
      }
      if d.verdict.Next? { StagesChallenge(i + 1, t, cfg, p, d.m, d.c); }
    }
  }

  lemma PastMarkStays(t: Tables, cfg: Config, p: Packet, m: Maps, c: Ctx)
    requires PastMark(m, p)
    ensures PastMark(SynProxy(t, cfg, p, m, c).m, p)
  {
  }

  lemma ChallengeMeans(t: Tables, p: Packet, m: Maps)
    requires PastMark(m, p) && Process(t, p, m).1.Challenge?
    ensures var (m', a) := Process(t, p, m); IsChallenge(t, p, m', a.cookie) && PastMark(m', p)
  {
    var cfg, c := t.config.value, Ctx(false, FLAGS_ALL);
    FinishLeavesRates(cfg, p, Decision(Arrived(m), c, Accept));
    StagesChallenge(0, t, cfg, p, Arrived(m), c);
  }

  // ----- When a SYN is challenged -----

  /** The SYN is one a challenge can be built for, the options apart. */
  predicate Plain(p: Packet)
  {
    p.ipHdrLen == 20 && 20 <= p.tcpHdrLen <= 60 && p.ipTotLen == 20 + p.tcpHdrLen
  }

  predicate OptionsLost(p: Packet) { p.tcpHdrLen == 24 && !p.optionsReadable }

  /** The source has a live mark, or counting this SYN takes it over its threshold. */
  predicate Suspect(t: Tables, cfg: Config, p: Packet, m: Maps)
  {
    || SC.MarkedWithin(m.challenged, p.src, p.now, 30_000_000_000)
    || Exceeds(t, cfg, m, p.src, Counted(t, m.rate, p.src, p.now), p.src)
  }

  /** The cookie of the flow in this minute, under the secret of the minute and for the client's MSS. */
  ghost predicate IsCookieFor(t: Tables, p: Packet, cookie: bv32)
  {
    t.secrets.Some? &&
    var idx := SC.MssToIdx(if p.tcpHdrLen == 24 then p.mss else None);
    && cookie == SC.Cookie(p.flow, p.now / 60_000_000_000, SC.ChallengeSecret(t.secrets.value, p.now / 60_000_000_000), idx)
    && SC.TopBits(cookie) == idx
  }

  /** The verdict on the SYN of a suspect. */
  ghost predicate SuspectVerdict(t: Tables, p: Packet, a: Action)
  {
    if !Plain(p) then a == Drop
    else if t.secrets.None? then a == Pass
    else if !p.synackSent then a == Drop
    else a.Challenge? && IsCookieFor(t, p, a.cookie)
  }

  lemma MinuteOf(now: u64)
    ensures SC.Bucket(now) == now / 60_000_000_000
  {
  }

  lemma CookieIsFor(t: Tables, p: Packet)
    requires t.secrets.Some?
    ensures IsCookieFor(t, p, SC.Challenge(SC.Cookie, t.secrets.value, p.flow, p.now, SC.MssToIdx(if p.tcpHdrLen == 24 then p.mss else None)))
  {
    MinuteOf(p.now);
    SC.CookieCarriesMss();
  }

  lemma ProxyOnSyn(t: Tables, cfg: Config, p: Packet, m: Maps, c: Ctx)
    requires p.IsSyn() && PastMark(m, p)
    ensures var d := SynProxy(t, cfg, p, m, c);
            if Suspect(t, cfg, p, m) && !(Plain(p) && OptionsLost(p))
            then d.verdict.Answer? && SuspectVerdict(t, p, d.verdict.action) && Marked(d.m, p.src, p.now)
            else d.verdict == Next
    ensures !Suspect(t, cfg, p, m) ==> p.src !in SynProxy(t, cfg, p, m, c).m.challenged
  {
    if t.secrets.Some? { CookieIsFor(t, p); }
  }

  lemma AnswerIsFinal(t: Tables, cfg: Config, p: Packet, m: Maps, c: Ctx, i: nat)
    requires i == 6 && Proxied(cfg, p, c) && SynProxy(t, cfg, p, m, c).verdict.Answer?
    ensures var out := StagesFrom(i, t, cfg, p, m, c);
            out.action == Some(SynProxy(t, cfg, p, m, c).verdict.action) && out.m.challenged == SynProxy(t, cfg, p, m, c).m.challenged
  {
    FinishLeavesRates(cfg, p, Stage(i, t, cfg, p, m, c));
  }

  /** Behind the proxy nothing is answered and no mark changes. */
  lemma {:induction false} BehindProxy(i: nat, t: Tables, cfg: Config, p: Packet, m: Maps, c: Ctx)
    requires 7 <= i <= STAGES
    ensures var out := StagesFrom(i, t, cfg, p, m, c);
            out.m.challenged == m.challenged && out.action.Some? && !out.action.value.Challenge?
    decreases STAGES - i
  {
    if i == STAGES {
      FinishLeavesRates(cfg, p, Decision(m, c, Accept));
    } else {
      var d := Stage(i, t, cfg, p, m, c);
      OtherStageKeepsMarks(i, t, cfg, p, m, c);
      FinishLeavesRates(cfg, p, d);
      if d.verdict.Next? { BehindProxy(i + 1, t, cfg, p, d.m, d.c); }
    }
  }

  lemma HandedOnAtProxy(t: Tables, cfg: Config, p: Packet, m: Maps, c: Ctx, i: nat)
    requires i == 6 && Proxied(cfg, p, c) && SynProxy(t, cfg, p, m, c).verdict == Next
    ensures var out := StagesFrom(i, t, cfg, p, m, c);
            out.m.challenged == SynProxy(t, cfg, p, m, c).m.challenged && out.action.Some? && !out.action.value.Challenge?
  {
    var d := SynProxy(t, cfg, p, m, c);
    BehindProxy(i + 1, t, cfg, p, d.m, d.c);
  }

  /** The state in which the proxy meets the packet. */
  function AtProxy(t: Tables, p: Packet, m: Maps): Maps
    requires t.config.Some? && Upto(0, 6, t, t.config.value, p, Arrived(m), Ctx(false, FLAGS_ALL)).Some?
  {
    Upto(0, 6, t, t.config.value, p, Arrived(m), Ctx(false, FLAGS_ALL)).value.0
  }

  /**
   Main result: what becomes of a SYN that reaches the proxy. A suspect is answered,
   with a challenge if one can be built, keyed and sent, and is marked; anybody else
   is not challenged and keeps no mark.
   */
  lemma SynIsChallengedIff(t: Tables, p: Packet, m: Maps)
    requires ReachesProxy(t, p, m) && p.IsSyn() && PastMark(m, p)
    ensures var (m', a) := Process(t, p, m);
            var suspect := Suspect(t, t.config.value, p, AtProxy(t, p, m));
            && (a.Challenge? <==> suspect && Plain(p) && !OptionsLost(p) && t.secrets.Some? && p.synackSent)
            && (suspect && !(Plain(p) && OptionsLost(p)) ==> SuspectVerdict(t, p, a) && Marked(m', p.src, p.now))
            && (!suspect ==> p.src !in m'.challenged)
  {
    var cfg, c := t.config.value, Ctx(false, FLAGS_ALL);
    UptoContinues(0, 6, t, cfg, p, Arrived(m), c);
    UptoKeepsMarks(0, 6, t, cfg, p, Arrived(m), c);
    var (m1, c1) := Upto(0, 6, t, cfg, p, Arrived(m), c).value;
    ProxyOnSyn(t, cfg, p, m1, c1);
    if SynProxy(t, cfg, p, m1, c1).verdict == Next {
      HandedOnAtProxy(t, cfg, p, m1, c1, 6);
    } else {
      AnswerIsFinal(t, cfg, p, m1, c1, 6);
    }
  }

  // ----- The mark survives -----

  /** Nothing of source s in this event ends its mark of time ts: it comes in time, and is no ACK of a good cookie. */
  ghost predicate Spares(e: Event, s: IpKey, ts: u64)
  {
    e.Arrive? && e.p.src == s ==>
      && e.p.now < ts + SC.CHALLENGE_TIMEOUT_NS
      && !(e.p.ack && !e.p.syn && e.t.secrets.Some? && SC.AckIsGood(SC.Cookie, e.t.secrets.value, e.p.flow, e.p.now, e.p.ackNo))
  }

  ghost predicate HasMark(m: Maps, s: IpKey, ts: u64) { s in m.challenged && m.challenged[s] == ts }

  lemma ProxyKeepsMark(t: Tables, cfg: Config, p: Packet, m: Maps, c: Ctx, s: IpKey, ts: u64)
    requires HasMark(m, s, ts) && Spares(Arrive(t, p), s, ts)
    ensures HasMark(SynProxy(t, cfg, p, m, c).m, s, ts)
  {
  }

  lemma {:induction false} StagesKeepMark(i: nat, t: Tables, cfg: Config, p: Packet, m: Maps, c: Ctx, s: IpKey, ts: u64)
    requires i <= STAGES && HasMark(m, s, ts) && Spares(Arrive(t, p), s, ts)
    ensures HasMark(StagesFrom(i, t, cfg, p, m, c).m, s, ts)
    decreases STAGES - i
  {
    if i == STAGES {
      FinishLeavesRates(cfg, p, Decision(m, c, Accept));
    } else {
      var d := Stage(i, t, cfg, p, m, c);
      FinishLeavesRates(cfg, p, d);
      if i == 6 && Proxied(cfg, p, c) {
        ProxyKeepsMark(t, cfg, p, m, c, s, ts);
      } else {
        OtherStageKeepsMarks(i, t, cfg, p, m, c);
      }
      if d.verdict.Next? { StagesKeepMark(i + 1, t, cfg, p, d.m, d.c, s, ts); }
    }
  }

  lemma {:induction false} RunKeepsMark(es: seq<Event>, m: Maps, s: IpKey, ts: u64)
    requires HasMark(m, s, ts) && forall i :: 0 <= i < |es| ==> Spares(es[i], s, ts)
    ensures HasMark(RunAll(es, m), s, ts)
  {
    if es != [] {
      var front, e := es[..|es| - 1], es[|es| - 1];
      RunKeepsMark(front, m, s, ts);
      if e.Arrive? && e.t.config.Some? {
        var m1, cfg, c := Arrived(RunAll(front, m)), e.t.config.value, Ctx(false, FLAGS_ALL);
        FinishLeavesRates(cfg, e.p, Decision(m1, c, Accept));
        StagesKeepMark(0, e.t, cfg, e.p, m1, c, s, ts);
      }
    }
  }

  // ----- The ACK -----

  /** An ACK with a good cookie ends the check. */
  lemma GoodAckIsAccepted(t: Tables, cfg: Config, p: Packet, m: Maps, c: Ctx)
    requires p.ack && !p.syn
    requires SC.HandleAck(SC.Cookie, m.challenged, p.src, t.secrets, p.flow, p.now, p.ackNo) == (m.challenged - {p.src}, true)
    ensures var d := SynProxy(t, cfg, p, m, c);
            d.verdict == Accept && d.m.challenged == m.challenged - {p.src}
  {
    var a := HandleAck(t, p, m);
    assert a.1 && a.0.challenged == m.challenged - {p.src};
  }

  /** The packet reaches the proxy: it is not whitelisted, no earlier check decides, and the proxy is on for it. */
  ghost predicate ReachesProxy(t: Tables, p: Packet, m: Maps)
  {
    t.config.Some? && p.src !in t.whitelist &&
    var cfg := t.config.value;
    var at := Upto(0, 6, t, cfg, p, Arrived(m), Ctx(false, FLAGS_ALL));
    at.Some? && Proxied(cfg, p, at.value.1)
  }

  lemma GoodAckPasses(t: Tables, p: Packet, m: Maps)
    requires ReachesProxy(t, p, m) && p.ack && !p.syn
    requires SC.HandleAck(SC.Cookie, m.challenged, p.src, t.secrets, p.flow, p.now, p.ackNo) == (m.challenged - {p.src}, true)
    ensures var (m', a) := Process(t, p, m); a == Pass && m'.challenged == m.challenged - {p.src}
  {
    var cfg, c := t.config.value, Ctx(false, FLAGS_ALL);
    UptoContinues(0, 6, t, cfg, p, Arrived(m), c);
    UptoKeepsMarks(0, 6, t, cfg, p, Arrived(m), c);
    var (m1, c1) := Upto(0, 6, t, cfg, p, Arrived(m), c).value;
    GoodAckIsAccepted(t, cfg, p, m1, c1);
    AcceptedAtProxy(6, t, cfg, p, m1, c1);
  }

  lemma AcceptedAtProxy(i: nat, t: Tables, cfg: Config, p: Packet, m: Maps, c: Ctx)
    requires i == 6 && Proxied(cfg, p, c) && SynProxy(t, cfg, p, m, c).verdict == Accept
    ensures var out := StagesFrom(i, t, cfg, p, m, c);
            out.action == Some(Pass) && out.m.challenged == SynProxy(t, cfg, p, m, c).m.challenged
  {
    FinishLeavesRates(cfg, p, Stage(i, t, cfg, p, m, c));
  }

  /**
   Main result. A SYN is answered with a challenge. Any events follow, except an
   ACK of that source with a good cookie. Then the client's ACK of cookie + 1
   arrives while the mark is live. If it reaches the proxy it passes and clears the
   mark, provided the secrets were fresh for the minute of the challenge, however
   often they have been rotated since.
   */
  lemma ChallengedClientGetsThrough(
    t: Tables, syn: Packet, m: Maps, es: seq<Event>, rs: seq<SC.Rotation>, t': Tables, p: Packet)
    requires PastMark(m, syn) && Process(t, syn, m).1.Challenge?
    requires t.secrets.Some? && t.secrets.value.bucketIndex in {SC.Bucket(syn.now), SC.Bucket(syn.now) + 1}
    requires var (m1, a) := Process(t, syn, m);
             && syn.src in m1.challenged && syn.now <= p.now < m1.challenged[syn.src] + SC.CHALLENGE_TIMEOUT_NS
             && (forall i :: 0 <= i < |es| ==> Spares(es[i], syn.src, m1.challenged[syn.src]))
             && p.src == syn.src && p.flow == syn.flow && p.ack && !p.syn && p.ackNo == a.cookie + 1
             && ReachesProxy(t', p, RunAll(es, m1))
    requires t'.secrets == Some(SC.RotatedAll(t.secrets.value, rs))
    requires forall i :: 0 <= i < |rs| ==> syn.now / NS_PER_S <= rs[i].nowS <= p.now / NS_PER_S
    ensures var m2 := RunAll(es, Process(t, syn, m).0);
            var (m3, verdict) := Process(t', p, m2);
            verdict == Pass && m3.challenged == m2.challenged - {p.src}
  {
    var m1 := Process(t, syn, m).0;
    var ts := m1.challenged[syn.src];
    ChallengeMeans(t, syn, m);
    RunKeepsMark(es, m1, syn.src, ts);
    var m2 := RunAll(es, m1);
    SC.HandshakeCompletes(m2.challenged, p.src, t.secrets.value, rs, syn.flow,
                          SC.MssToIdx(if syn.tcpHdrLen == 24 then syn.mss else None), ts, syn.now, p.now);
    GoodAckPasses(t', p, m2);
  }
}
