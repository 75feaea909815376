/**
 Runs of the data plane: packets arriving, each under the tables in force at the
 time, interleaved with blocks from the control plane. Also what carrying out a
 decision leaves alone.
 */
module DataPlaneRuns {
  import opened Words
  import opened RateCounter
  import opened DataPlane

  datatype Event =
    | Arrive(t: Tables, p: Packet)
    | Block(key: IpKey, at: u64, durationS: u64, reason: u8)

  function Step(e: Event, m: Maps): Maps
  {
    match e
    case Arrive(t, p) => Process(t, p, m).0
    case Block(key, at, durationS, reason) => ControlBlock(m, key, at, durationS, reason)
  }

  function RunAll(es: seq<Event>, m: Maps): Maps
  {
    if es == [] then m else Step(es[|es| - 1], RunAll(es[..|es| - 1], m))
  }

  function Lookup<K(==), V>(table: map<K, V>, k: K): Option<V>
  {
    if k in table then Some(table[k]) else None
  }

  // ----- Carrying a decision out -----

  /** Everything but counters, samples and trust is as before. */
  ghost predicate Bookkeeping(m: Maps, m': Maps)
  {
    && m' == m.(totals := m'.totals, blocked := m'.blocked, aux := m'.aux, trust := m'.trust, top := m'.top)
    && m'.aux.blacklistGen == m.aux.blacklistGen
  }

  lemma TrustDropIsBookkeeping(m: Maps, src: IpKey, now: u64, subDivisor: u32)
    requires subDivisor > 0
    ensures var m' := TrustDrop(m, src, now, subDivisor);
            Bookkeeping(m, m') && m'.totals == m.totals && m'.blocked == m.blocked
  {
  }

  lemma DropIsBookkeeping(cfg: Config, p: Packet, m: Maps)
    ensures var (m', a) := DropPacket(cfg, p, m);
            Bookkeeping(m, m') && m'.totals == m.totals && m'.blocked == m.blocked && a in {Drop, Reset}
  {
    var m1 := m.(aux := m.aux.(tcpRstAttempt := m.aux.tcpRstAttempt + if p.protocol == TCP then 1 else 0,
                               topAttackerSample := Wrap32(m.aux.topAttackerSample + 1)));
    TrustDropIsBookkeeping(m1, p.src, p.now, Max(cfg.trustSubDivisor, 1));
  }

  lemma PassIsBookkeeping(cfg: Config, p: Packet, m: Maps)
    ensures var m' := CountedPass(cfg, p, m);
            Bookkeeping(m, m') && m'.blocked == m.blocked
            && m'.totals == m.totals.(totalPassed := m.totals.totalPassed + 1)
  {
  }
}
