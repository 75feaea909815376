/**
 Sampled counters: hits, passes and drops are written only every so often, with a
 weight. What has been written plus what is pending grows by one with each of them.
 */
module Sampling {
  import opened Words
  import opened DataPlane

  lemma NextModulo(x: nat, n: nat)
    requires n == 16 || n == 64
    ensures (x + 1) % n == if x % n == n - 1 then 0 else x % n + 1
  {
  }

  lemma NextSample(s: u32, n: nat)
    requires n == 16 || n == 64
    ensures Wrap32(s + 1) % n == if s % n == n - 1 then 0 else s % n + 1
  {
    NextModulo(s, n);
    if s == U32_MAX {
      assert U32_MAX % 16 == 15 && U32_MAX % 64 == 63;
    } else {
      assert Wrap32(s + 1) == s + 1;
    }
  }

  /** Passes: written every 64th time, with weight 64. */
  lemma PassesAreConserved(m: Maps, src: IpKey, now: u64, addDivisor: u32)
    requires addDivisor > 0 && TrustOf(m, src).passCount + 64 <= U32_MAX
    ensures var m' := TrustPassSampled(m, src, now, addDivisor);
            TrustOf(m', src).passCount + m'.aux.trustPassSample % 64 == TrustOf(m, src).passCount + m.aux.trustPassSample % 64 + 1
  {
    NextSample(m.aux.trustPassSample, 64);
  }

  /** Drops: written each time until there is no trust left to lose, and then every 16th time, with weight 16. */
  lemma DropsAreConserved(m: Maps, src: IpKey, now: u64, subDivisor: u32)
    requires subDivisor > 0 && TrustOf(m, src).dropCount + 16 <= U32_MAX
    ensures var m' := TrustDrop(m, src, now, subDivisor);
            TrustOf(m', src).dropCount + m'.aux.trustDropSample % 16 == TrustOf(m, src).dropCount + m.aux.trustDropSample % 16 + 1
  {
    NextSample(m.aux.trustDropSample, 16);
  }

  function Hits(m: Maps, src: IpKey): nat { if src in m.blacklist then m.blacklist[src].hitCount else 0 }

  /** Hits on a listed source: written every 16th time, with weight 16, and announced when they are. */
  lemma HitsAreConserved(m: Maps, src: IpKey, now: u64)
    requires Listed(m, src, now) && Hits(m, src) + 16 <= U32_MAX
    ensures var m' := IsBlacklisted(m, src, now).0;
            && Hits(m', src) + m'.aux.blacklistHitSample % 16 == Hits(m, src) + m.aux.blacklistHitSample % 16 + 1
            && (Hits(m', src) != Hits(m, src) <==> m'.aux.blacklistHitGen != m.aux.blacklistHitGen)
  {
    NextSample(m.aux.blacklistHitSample, 16);
  }

  function Ranked(m: Maps, src: IpKey): nat { if src in m.top then m.top[src] else 0 }

  /** Drops in the ranking of attackers: written every 16th time, with weight 16. */
  lemma RankingIsConserved(cfg: Config, p: Packet, m: Maps)
    requires Ranked(m, p.src) + 16 <= U64_MAX
    ensures var m' := Penalised(cfg, p, m);
            Ranked(m', p.src) + m'.aux.topAttackerSample % 16 == Ranked(m, p.src) + m.aux.topAttackerSample % 16 + 1
  {
    NextSample(m.aux.topAttackerSample, 16);
  }
}
