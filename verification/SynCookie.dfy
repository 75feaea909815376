/**
 SYN cookies (section 3.6 of RFC 4987) with a secret that rotates once a minute.
 The handshake theorem: a cookie issued with a fresh secret is accepted for as
 long as the challenge mark of its source lives, whatever rotations happen in
 between.
 */
module SynCookie {
  import opened Words

  const BUCKET_DURATION_S := 60
  const VALID_BUCKETS := 2
  const CHALLENGE_TIMEOUT_NS := 30_000_000_000

  type Secret = s: seq<bv8> | |s| == 16 witness seq(16, _ => 0)

  /** Addresses as loaded from the packet, ports in host order. */
  datatype Flow = Flow(saddr: bv32, daddr: bv32, sport: bv16, dport: bv16)

  datatype CookieSecret = CookieSecret(current: Secret, previous: Secret, bucketIndex: u64)

  // ----- Building a cookie -----

  function Rotate(s: bv32): bv32 { s.RotateLeft(5) }
  function Half(r: bv32): bv32 { r >> 16 }
  function Xor(r: bv32, t: bv32): bv32 { r ^ t }
  function XorShift(r: bv32): bv32 { Xor(r, Half(r)) }

  function Mix(h: bv32, v: bv32): bv32 { XorShift(Rotate(h + v)) }

  function FromBe(x: bv32): bv32
  {
    (x << 24) | ((x & 0xff00) << 8) | ((x >> 8) & 0xff00) | (x >> 24)
  }

  function SecretWord(s: Secret, i: nat): bv32
    requires i < 4
  {
    (s[4 * i] as bv32) | ((s[4 * i + 1] as bv32) << 8) | ((s[4 * i + 2] as bv32) << 16) | ((s[4 * i + 3] as bv32) << 24)
  }

  /** The words mixed one after the other into the initial state. */
  function MixAll(vs: seq<bv32>): bv32
  {
    if vs == [] then 0x9e37_79b9 else Mix(MixAll(vs[..|vs| - 1]), vs[|vs| - 1])
  }

  function CookieWords(f: Flow, bucket: bv32, mssIdx: bv8, s: Secret): seq<bv32>
  {
    [FromBe(f.saddr), FromBe(f.daddr), ((f.sport as bv32) << 16) | (f.dport as bv32), bucket, mssIdx as bv32,
     SecretWord(s, 0), SecretWord(s, 1), SecretWord(s, 2), SecretWord(s, 3)]
  }

  function CookieHash(f: Flow, bucket: bv32, mssIdx: bv8, s: Secret): bv32
  {
    MixAll(CookieWords(f, bucket, mssIdx, s))
  }

  /** MSS index in the top two bits, hash in the other thirty. */
  function PackCookie(h: bv32, mssIdx: bv8): bv32
  {
    Or(TopTwo(mssIdx), Low30(h))
  }

  function Low30(h: bv32): bv32 { h & 0x3fff_ffff }
  function TopTwo(mssIdx: bv8): bv32 { (mssIdx as bv32) << 30 }
  function Or(a: bv32, b: bv32): bv32 { a | b }

  function AddrPair(f: Flow): bv64
  {
    (f.saddr as bv64) | ((f.daddr as bv64) << 32)
  }

  function PortBucket(f: Flow, bucket: bv64): bv64
  {
    (f.sport as bv64) | ((f.dport as bv64) << 16) | (bucket << 32)
  }

  function LowWord(x: bv64): bv32 { (x & 0xffff_ffff) as bv32 }
  function LowHalf(x: bv64): bv16 { (x & 0xffff) as bv16 }

  function Unpacked(addrPair: bv64, portBucket: bv64): (Flow, bv32)
  {
    (Flow(LowWord(addrPair), LowWord(addrPair >> 32), LowHalf(portBucket), LowHalf(portBucket >> 16)),
     LowWord(portBucket >> 32))
  }

  function BuildCookieRuntime(addrPair: bv64, portBucket: bv64, s: Secret, mssIdx: bv8): bv32
  {
    var (f, bucket) := Unpacked(addrPair, portBucket);
    PackCookie(CookieHash(f, bucket, mssIdx, s), mssIdx)
  }

  function Cookie(f: Flow, bucket: u64, s: Secret, mssIdx: bv8): bv32
  {
    BuildCookieRuntime(AddrPair(f), PortBucket(f, bucket as bv64), s, mssIdx)
  }

  lemma AddrWords(a: bv32, b: bv32)
    ensures LowWord((a as bv64) | ((b as bv64) << 32)) == a
    ensures LowWord(((a as bv64) | ((b as bv64) << 32)) >> 32) == b
  {
  }

  lemma PortHalves(a: bv16, b: bv16, c: bv64)
    ensures LowHalf((a as bv64) | ((b as bv64) << 16) | (c << 32)) == a
    ensures LowHalf(((a as bv64) | ((b as bv64) << 16) | (c << 32)) >> 16) == b
    ensures LowWord(((a as bv64) | ((b as bv64) << 16) | (c << 32)) >> 32) == LowWord(c)
  {
  }

  /** The two packed registers carry the whole flow and the low word of the bucket. */
  lemma PackingRoundTrip(f: Flow, bucket: bv64)
    ensures Unpacked(AddrPair(f), PortBucket(f, bucket)) == (f, LowWord(bucket))
    ensures forall s: Secret, i: bv8 ::
      BuildCookieRuntime(AddrPair(f), PortBucket(f, bucket), s, i) == PackCookie(CookieHash(f, LowWord(bucket), i, s), i)
  {
    AddrWords(f.saddr, f.daddr);
    PortHalves(f.sport, f.dport, bucket);
  }

  /** What the protocol around the cookie knows of it: a function of flow, minute, secret and MSS index. */
  type CookieFn = (Flow, u64, Secret, bv8) -> bv32

  /** ... that carries the MSS index in its top two bits. */
  ghost predicate CarriesMss(ck: CookieFn)
  {
    forall f: Flow, b: u64, s: Secret, i: bv8 :: i < 4 ==> TopBits(ck(f, b, s, i)) == i
  }

  lemma CookieCarriesMss()
    ensures CarriesMss(Cookie)
  {
    forall f: Flow, b: u64, s: Secret, i: bv8 | i < 4 ensures TopBits(Cookie(f, b, s, i)) == i {
      var (g, w) := Unpacked(AddrPair(f), PortBucket(f, b as bv64));
      MssIndexRecovered(CookieHash(g, w, i, s), i);
    }
  }

  function TopBits(x: bv32): bv8 { (x >> 30) as bv8 }

  /** The MSS index comes back from the top two bits. */
  lemma MssIndexRecovered(h: bv32, mssIdx: bv8)
    requires mssIdx < 4
    ensures TopBits(PackCookie(h, mssIdx)) == mssIdx
  {
  }

  // ----- What a cookie depends on -----

  lemma HalfStays(r: bv32)
    ensures Half(Xor(r, Half(r))) == Half(r)
  {
  }

  lemma XorTells(r: bv32, q: bv32, t: bv32)
    requires Xor(r, t) == Xor(q, t)
    ensures r == q
  {
  }

  lemma RotateTells(r: bv32, q: bv32)
    requires Rotate(r) == Rotate(q)
    ensures r == q
  {
  }

  lemma RightSummand(h: bv32, v: bv32, w: bv32)
    requires h + v == h + w
    ensures v == w
  {
  }

  lemma LeftSummand(h: bv32, g: bv32, v: bv32)
    requires h + v == g + v
    ensures h == g
  {
  }

  lemma XorShiftTells(r: bv32, q: bv32)
    requires XorShift(r) == XorShift(q)
    ensures r == q
  {
    HalfStays(r);
    HalfStays(q);
    XorTells(r, q, Half(r));
  }

  lemma SumsTell(h: bv32, v: bv32, g: bv32, w: bv32)
    requires Mix(h, v) == Mix(g, w)
    ensures h + v == g + w
  {
    XorShiftTells(Rotate(h + v), Rotate(g + w));
    RotateTells(h + v, g + w);
  }

  /** No step of the mixing loses anything: it is injective in the word and in the state. */
  lemma MixInjective(h: bv32, g: bv32, v: bv32, w: bv32)
    ensures Mix(h, v) == Mix(h, w) ==> v == w
    ensures Mix(h, v) == Mix(g, v) ==> h == g
  {
    if Mix(h, v) == Mix(h, w) {
      SumsTell(h, v, h, w);
      RightSummand(h, v, w);
    }
    if Mix(h, v) == Mix(g, v) {
      SumsTell(h, v, g, v);
      LeftSummand(h, g, v);
    }
  }

  /** Words that differ in one place never hash alike. */
  lemma {:induction false} MixAllTells(v: seq<bv32>, w: seq<bv32>, k: nat)
    requires |v| == |w| && k < |v| && v[k] != w[k] && forall j :: 0 <= j < |v| && j != k ==> v[j] == w[j]
    ensures MixAll(v) != MixAll(w)
  {
    var n := |v| - 1;
    if k == n {
      assert v[..n] == w[..n];
      MixInjective(MixAll(v[..n]), MixAll(w[..n]), v[n], w[n]);
    } else {
      MixAllTells(v[..n], w[..n], k);
      MixInjective(MixAll(v[..n]), MixAll(w[..n]), v[n], w[n]);
    }
  }

  lemma FromBeInjective(x: bv32, y: bv32)
    requires FromBe(x) == FromBe(y)
    ensures x == y
  {
  }

  lemma PortsInjective(a: bv16, b: bv16, c: bv16, d: bv16)
    requires ((a as bv32) << 16) | (b as bv32) == ((c as bv32) << 16) | (d as bv32)
    ensures a == c && b == d
  {
  }

  lemma BytesInjective(a: bv8, b: bv8, c: bv8, d: bv8, p: bv8, q: bv8, r: bv8, t: bv8)
    requires ((a as bv32) | ((b as bv32) << 8) | ((c as bv32) << 16) | ((d as bv32) << 24))
             == ((p as bv32) | ((q as bv32) << 8) | ((r as bv32) << 16) | ((t as bv32) << 24))
    ensures a == p && b == q && c == r && d == t
  {
  }

  lemma IndexInjective(i: bv8, j: bv8)
    requires i as bv32 == j as bv32
    ensures i == j
  {
  }

  lemma SecretWordsFix(s: Secret, t: Secret)
    requires forall k :: 0 <= k < 4 ==> SecretWord(s, k) == SecretWord(t, k)
    ensures s == t
  {
    forall k | 0 <= k < 4 ensures s[4 * k] == t[4 * k] && s[4 * k + 1] == t[4 * k + 1] && s[4 * k + 2] == t[4 * k + 2] && s[4 * k + 3] == t[4 * k + 3] {
      assert SecretWord(s, k) == SecretWord(t, k);
      BytesInjective(s[4 * k], s[4 * k + 1], s[4 * k + 2], s[4 * k + 3], t[4 * k], t[4 * k + 1], t[4 * k + 2], t[4 * k + 3]);
    }
    forall j | 0 <= j < 16 ensures s[j] == t[j] {
      assert 0 <= j / 4 < 4 && j == 4 * (j / 4) + j % 4;
    }
  }

  /** What is hashed determines flow, minute, MSS index and the whole secret. */
  lemma CookieWordsFix(f: Flow, b: bv32, i: bv8, s: Secret, g: Flow, c: bv32, j: bv8, t: Secret)
    requires CookieWords(f, b, i, s) == CookieWords(g, c, j, t)
    ensures f == g && b == c && i == j && s == t
  {
    var v, w := CookieWords(f, b, i, s), CookieWords(g, c, j, t);
    assert v[0] == w[0] && v[1] == w[1] && v[2] == w[2] && v[3] == w[3] && v[4] == w[4];
    assert v[5] == w[5] && v[6] == w[6] && v[7] == w[7] && v[8] == w[8];
    FromBeInjective(f.saddr, g.saddr);
    FromBeInjective(f.daddr, g.daddr);
    PortsInjective(f.sport, f.dport, g.sport, g.dport);
    IndexInjective(i, j);
    SecretWordsFix(s, t);
  }

  /** Secrets that differ in one of their four words never give the same hash. */
  lemma SecretsTell(f: Flow, b: bv32, i: bv8, s: Secret, t: Secret, k: nat)
    requires k < 4 && SecretWord(s, k) != SecretWord(t, k)
    requires forall j :: 0 <= j < 4 && j != k ==> SecretWord(s, j) == SecretWord(t, j)
    ensures CookieHash(f, b, i, s) != CookieHash(f, b, i, t)
  {
    MixAllTells(CookieWords(f, b, i, s), CookieWords(f, b, i, t), 5 + k);
  }

  /** The thirty bits of the hash that a cookie carries, for a minute as the packed register holds it. */
  function Check30(f: Flow, bucket: u64, mssIdx: bv8, s: Secret): bv32
  {
    Low30(CookieHash(f, LowWord(bucket as bv64), mssIdx, s))
  }

  lemma CookiesAgreeIff(f: Flow, b: u64, x: Secret, c: u64, y: Secret, i: bv8)
    ensures Cookie(f, b, x, i) == Cookie(f, c, y, i) <==> Check30(f, b, i, x) == Check30(f, c, i, y)
  {
    PackingRoundTrip(f, b as bv64);
    PackingRoundTrip(f, c as bv64);
    PacksAgreeIff(CookieHash(f, LowWord(b as bv64), i, x), CookieHash(f, LowWord(c as bv64), i, y), i);
  }

  lemma PacksAgreeIff(h: bv32, g: bv32, i: bv8)
    ensures PackCookie(h, i) == PackCookie(g, i) <==> Low30(h) == Low30(g)
  {
    LowOfPack(h, i);
    LowOfPack(g, i);
  }

  lemma LowOfPack(h: bv32, i: bv8)
    ensures Low30(PackCookie(h, i)) == Low30(h)
  {
  }

  function MssToIdx(mss: Option<u16>): (i: bv8)
    ensures i < 3
  {
    if mss.None? then 0 else if mss.value >= 1460 then 2 else if mss.value >= 1300 then 1 else 0
  }

  /** The MSS each index stands for. */
  function TableMss(i: bv8): u16 { if i == 2 then 1460 else if i == 1 then 1300 else 536 }

  /** The index stands for the largest entry within the client's MSS, or for the smallest of all. */
  lemma MssIsClosest(mss: u16, i: bv8)
    requires i < 3
    ensures TableMss(MssToIdx(Some(mss))) <= Max(mss, 536)
    ensures TableMss(i) <= mss ==> TableMss(i) <= TableMss(MssToIdx(Some(mss)))
    ensures TableMss(MssToIdx(None)) <= TableMss(i)
  {
  }

  // ----- Secrets over time -----

  function Bucket(now: u64): u64 { now / NS_PER_S / BUCKET_DURATION_S }

  /** The secret an ACK of this minute may have been made with. */
  function SecretFor(s: CookieSecret, bucket: u64): Option<Secret>
  {
    if bucket == s.bucketIndex then Some(s.current)
    else if bucket == SatSub(s.bucketIndex, 1) then Some(s.previous)
    else None
  }

  /** The secret a challenge is made with; a stale table falls back to the current one. */
  function ChallengeSecret(s: CookieSecret, bucket: u64): Secret
  {
    match SecretFor(s, bucket) case Some(x) => x case None => s.current
  }

  function Challenge(ck: CookieFn, s: CookieSecret, f: Flow, now: u64, mssIdx: bv8): bv32
  {
    ck(f, Bucket(now), ChallengeSecret(s, Bucket(now)), mssIdx)
  }

  function Rotated(s: CookieSecret, nowS: u64, random: Secret): CookieSecret
  {
    var bucket := nowS / BUCKET_DURATION_S;
    if bucket <= s.bucketIndex then s else CookieSecret(random, s.current, bucket)
  }

  class CookieKeeper {
    var secrets: CookieSecret

    constructor (nowS: u64, r1: Secret, r2: Secret)
      ensures secrets == CookieSecret(r1, r2, nowS / BUCKET_DURATION_S)
    {
      secrets := CookieSecret(r1, r2, nowS / BUCKET_DURATION_S);
    }

    method RotateCookieSecrets(nowS: u64, random: Secret)
      modifies this
      ensures secrets == Rotated(old(secrets), nowS, random)
    {
      var bucket := nowS / BUCKET_DURATION_S;
      if bucket <= secrets.bucketIndex {
        return;
      }
      secrets := secrets.(previous := secrets.current);
      secrets := secrets.(current := random);
      secrets := secrets.(bucketIndex := bucket);
    }
  }

  // ----- Checking an ACK -----

  predicate MatchesBucket(ck: CookieFn, s: CookieSecret, f: Flow, bucket: u64, expected: bv32)
  {
    var secret := SecretFor(s, bucket);
    secret.Some? && ck(f, bucket, secret.value, TopBits(expected)) == expected
  }

  /** An ACK number is good if it is one more than a cookie of this minute or the last. */
  predicate AckIsGood(ck: CookieFn, s: CookieSecret, f: Flow, now: u64, ack: bv32)
  {
    MatchesBucket(ck, s, f, Bucket(now), ack - 1) || MatchesBucket(ck, s, f, SatSub(Bucket(now), 1), ack - 1)
  }

  method CheckAck(ck: CookieFn, s: CookieSecret, f: Flow, now: u64, ack: bv32) returns (good: bool)
    ensures good == AckIsGood(ck, s, f, now, ack)
  {
    var expected := ack - 1;
    var mssIdx := TopBits(expected);
    var currentBucket := Bucket(now);
    var i := 0;
    while i < VALID_BUCKETS
      invariant 0 <= i <= VALID_BUCKETS
      invariant forall j :: 0 <= j < i ==> !MatchesBucket(ck, s, f, SatSub(currentBucket, j), expected)
    {
      var bucket := SatSub(currentBucket, i);
      var secret;
      if bucket == s.bucketIndex {
        secret := s.current;
      } else if bucket == SatSub(s.bucketIndex, 1) {
        secret := s.previous;
      } else {
        i := i + 1;
        continue;
      }
      if ck(f, bucket, secret, mssIdx) == expected {
        assert MatchesBucket(ck, s, f, bucket, expected);
        return true;
      }
      i := i + 1;
    }
    assert !MatchesBucket(ck, s, f, SatSub(currentBucket, 0), expected);
    assert !MatchesBucket(ck, s, f, SatSub(currentBucket, 1), expected);
    good := false;
  }

  /** `handle_ack` on the table of challenged sources: a live mark and a good ACK clear the source. */
  function HandleAck<K>(ck: CookieFn, marks: map<K, u64>, src: K, s: Option<CookieSecret>, f: Flow, now: u64, ack: bv32): (map<K, u64>, bool)
  {
    if src !in marks then (marks, false)
    else if SatSub(now, marks[src]) >= CHALLENGE_TIMEOUT_NS then (marks - {src}, false)
    else if s.Some? && AckIsGood(ck, s.value, f, now, ack) then (marks - {src}, true)
    else (marks, false)
  }

  predicate MarkedWithin<K>(marks: map<K, u64>, src: K, now: u64, ns: int) { src in marks && now - marks[src] < ns }

  /** A mark counts for half a minute: within it exactly the good ACKs pass, and from then on none. */
  lemma MarkLivesHalfAMinute<K>(ck: CookieFn, marks: map<K, u64>, src: K, s: CookieSecret, f: Flow, now: u64, ack: bv32)
    requires src in marks ==> marks[src] <= now
    ensures var (marks', passes) := HandleAck(ck, marks, src, Some(s), f, now, ack);
            var live, good := MarkedWithin(marks, src, now, 30_000_000_000), AckIsGood(ck, s, f, now, ack);
            (passes <==> live && good) && marks' == if live && !good then marks else marks - {src}
  {
    if src !in marks { assert marks - {src} == marks; }
  }

  // ----- The handshake across rotations -----

  /** A stored secret serves a minute exactly while the index is at that minute or one ahead. */
  lemma ServedIff(s: CookieSecret, bucket: u64)
    ensures SecretFor(s, bucket).Some? <==> s.bucketIndex == bucket || s.bucketIndex == bucket + 1
  {
  }

  datatype Rotation = Rotation(nowS: u64, random: Secret)

  function RotatedAll(s: CookieSecret, rs: seq<Rotation>): CookieSecret
  {
    if rs == [] then s else Rotated(RotatedAll(s, rs[..|rs| - 1]), rs[|rs| - 1].nowS, rs[|rs| - 1].random)
  }

  /** Rotations within this minute and the next keep serving the same secret for this minute. */
  lemma {:induction false} RotationsKeepServing(s: CookieSecret, rs: seq<Rotation>, bucket: u64)
    requires SecretFor(s, bucket).Some?
    requires forall i :: 0 <= i < |rs| ==> bucket <= rs[i].nowS / BUCKET_DURATION_S <= bucket + 1
    ensures SecretFor(RotatedAll(s, rs), bucket) == SecretFor(s, bucket)
  {
    if rs != [] {
      RotationsKeepServing(s, rs[..|rs| - 1], bucket);
    }
  }

  lemma AckInTime(tc: u64, ta: u64)
    requires tc <= ta < tc + CHALLENGE_TIMEOUT_NS
    ensures Bucket(tc) <= Bucket(ta) <= Bucket(tc) + 1
  {
  }

  /** The same protocol around any cookie function that carries the MSS index. */
  lemma AnyHandshakeCompletes<K>(
    ck: CookieFn, marks: map<K, u64>, src: K, s: CookieSecret, rs: seq<Rotation>, f: Flow, mssIdx: bv8,
    ts: u64, tc: u64, ta: u64)
    requires CarriesMss(ck)
    requires src in marks && marks[src] == ts && ts <= tc <= ta < ts + CHALLENGE_TIMEOUT_NS
    requires s.bucketIndex == Bucket(tc) || s.bucketIndex == Bucket(tc) + 1
    requires forall i :: 0 <= i < |rs| ==> tc / NS_PER_S <= rs[i].nowS <= ta / NS_PER_S
    requires mssIdx < 3
    ensures var cookie := Challenge(ck, s, f, tc, mssIdx);
            HandleAck(ck, marks, src, Some(RotatedAll(s, rs)), f, ta, cookie + 1) == (marks - {src}, true)
  {
    var b := Bucket(tc);
    AckInTime(tc, ta);
    ServedIff(s, b);
    forall i | 0 <= i < |rs| ensures b <= rs[i].nowS / BUCKET_DURATION_S <= b + 1 {
      DivMono(tc / NS_PER_S, rs[i].nowS);
      DivMono(rs[i].nowS, ta / NS_PER_S);
    }
    RotationsKeepServing(s, rs, b);
    var cookie := Challenge(ck, s, f, tc, mssIdx);
    AckOfCookie(cookie);
    assert MatchesBucket(ck, RotatedAll(s, rs), f, b, cookie);
    assert b == Bucket(ta) || b == SatSub(Bucket(ta), 1);
  }

  /**
   Main result. A challenge is issued at tc while its source is marked (since
   ts), with a secret table that is fresh for that minute; secrets rotate any
   number of times; the ACK of cookie + 1 arrives at ta while the mark lives.
   It is accepted and clears the source.
   */
  lemma HandshakeCompletes<K>(
    marks: map<K, u64>, src: K, s: CookieSecret, rs: seq<Rotation>, f: Flow, mssIdx: bv8, ts: u64, tc: u64, ta: u64)
    requires src in marks && marks[src] == ts && ts <= tc <= ta < ts + CHALLENGE_TIMEOUT_NS
    requires s.bucketIndex == Bucket(tc) || s.bucketIndex == Bucket(tc) + 1
    requires forall i :: 0 <= i < |rs| ==> tc / NS_PER_S <= rs[i].nowS <= ta / NS_PER_S
    requires mssIdx < 3
    ensures HandleAck(Cookie, marks, src, Some(RotatedAll(s, rs)), f, ta, Challenge(Cookie, s, f, tc, mssIdx) + 1)
            == (marks - {src}, true)
  {
    CookieCarriesMss();
    AnyHandshakeCompletes(Cookie, marks, src, s, rs, f, mssIdx, ts, tc, ta);
  }

  lemma DivMono(a: nat, b: nat)
    requires a <= b
    ensures a / BUCKET_DURATION_S <= b / BUCKET_DURATION_S
  {
  }

  lemma AckOfCookie(c: bv32)
    ensures (c + 1) - 1 == c
  {
  }

  /** What rotations within minutes b and b + 1 make of a table that is behind minute b: the first one always counts. */
  lemma {:induction false} LaggingTable(s: CookieSecret, rs: seq<Rotation>, b: u64)
    requires s.bucketIndex < b && rs != []
    requires forall i :: 0 <= i < |rs| ==> b <= rs[i].nowS / BUCKET_DURATION_S <= b + 1
    ensures var s', first := RotatedAll(s, rs), rs[0].nowS / BUCKET_DURATION_S;
            || s' == CookieSecret(rs[0].random, s.current, first)
            || (first == b && s'.bucketIndex == b + 1 && s'.previous == rs[0].random)
  {
    var front := rs[..|rs| - 1];
    if front == [] {
      assert RotatedAll(s, front) == s;
    } else {
      LaggingTable(s, front, b);
    }
  }

  /** The cookie for minute b under secret x is the one that was sent. */
  ghost predicate Collides(ck: CookieFn, f: Flow, mssIdx: bv8, b: u64, x: Secret, cookie: bv32) { ck(f, b, x, mssIdx) == cookie }

  /**
   When the ACK in minute ba of a cookie sent in minute b, by a table s behind that
   minute, is good. Without a rotation: only within the same minute, if the table
   is one minute behind and the cookies of both minutes collide. After rotations:
   for certain if the first one came in the next minute, so that the secret is now
   paired with the minute of the challenge; otherwise only if cookies collide.
   */
  ghost predicate LaggingAccepts(
    ck: CookieFn, t: CookieSecret, s: CookieSecret, f: Flow, mssIdx: bv8, b: u64, ba: u64, cookie: bv32, first: Option<Rotation>)
    requires b > 0
  {
    match first
    case None => ba == b && s.bucketIndex == b - 1 && Collides(ck, f, mssIdx, b - 1, s.current, cookie)
    case Some(r) =>
      || r.nowS / BUCKET_DURATION_S == b + 1
      || Collides(ck, f, mssIdx, b, r.random, cookie)
      || (ba == b && Collides(ck, f, mssIdx, b - 1, s.current, cookie))
      || (t.bucketIndex == b + 1 && Collides(ck, f, mssIdx, b + 1, t.current, cookie))
  }

  function First(rs: seq<Rotation>): Option<Rotation> { if rs == [] then None else Some(rs[0]) }

  /** Freshness is needed: while the table is behind the minute of the challenge, exactly these ACKs are good. */
  lemma {:induction false} LaggingRotation(ck: CookieFn, s: CookieSecret, rs: seq<Rotation>, f: Flow, mssIdx: bv8, tc: u64, ta: u64)
    requires CarriesMss(ck) && mssIdx < 3
    requires tc <= ta < tc + CHALLENGE_TIMEOUT_NS && s.bucketIndex < Bucket(tc)
    requires forall i :: 0 <= i < |rs| ==> tc / NS_PER_S <= rs[i].nowS <= ta / NS_PER_S
    ensures var t, cookie := RotatedAll(s, rs), Challenge(ck, s, f, tc, mssIdx);
            AckIsGood(ck, t, f, ta, cookie + 1)
            <==> LaggingAccepts(ck, t, s, f, mssIdx, Bucket(tc), Bucket(ta), cookie, First(rs))
  {
    var b, cookie := Bucket(tc), Challenge(ck, s, f, tc, mssIdx);
    AckInTime(tc, ta);
    RotatedInTime(rs, tc, ta);
    AckMatches(ck, RotatedAll(s, rs), f, mssIdx, ta, cookie);
    LaggingTables(s, rs, b, Bucket(ta));
    LaggingCases(ck, RotatedAll(s, rs), s, f, mssIdx, b, Bucket(ta), cookie, First(rs));
  }

  /** The table at the ACK: unchanged, made by the first rotation, or one further. */
  ghost predicate LaggingShape(t: CookieSecret, s: CookieSecret, b: u64, ba: u64, first: Option<Rotation>)
  {
    match first
    case None => t == s
    case Some(r) =>
      var m := r.nowS / BUCKET_DURATION_S;
      && b <= m <= ba && t.bucketIndex <= ba
      && (t == CookieSecret(r.random, s.current, m) || (m == b && t.bucketIndex == b + 1 && t.previous == r.random))
  }

  lemma {:induction false} LaggingTables(s: CookieSecret, rs: seq<Rotation>, b: u64, ba: u64)
    requires s.bucketIndex < b <= ba <= b + 1
    requires forall i :: 0 <= i < |rs| ==> b <= rs[i].nowS / BUCKET_DURATION_S <= ba
    ensures LaggingShape(RotatedAll(s, rs), s, b, ba, First(rs))
  {
    if rs != [] {
      LaggingTable(s, rs, b);
      NotAhead(s, rs, ba);
    }
  }

  lemma RotatedInTime(rs: seq<Rotation>, tc: u64, ta: u64)
    requires forall i :: 0 <= i < |rs| ==> tc / NS_PER_S <= rs[i].nowS <= ta / NS_PER_S
    ensures forall i :: 0 <= i < |rs| ==> Bucket(tc) <= rs[i].nowS / BUCKET_DURATION_S <= Bucket(ta)
  {
    forall i | 0 <= i < |rs| ensures Bucket(tc) <= rs[i].nowS / BUCKET_DURATION_S <= Bucket(ta) {
      DivMono(tc / NS_PER_S, rs[i].nowS);
      DivMono(rs[i].nowS, ta / NS_PER_S);
    }
  }

  ghost predicate GoodIn(ck: CookieFn, t: CookieSecret, f: Flow, mssIdx: bv8, b: u64, cookie: bv32)
  {
    var x := SecretFor(t, b);
    x.Some? && Collides(ck, f, mssIdx, b, x.value, cookie)
  }

  /** The ACK of a cookie is good if a secret of this minute or the last makes the same cookie. */
  lemma AckMatches(ck: CookieFn, t: CookieSecret, f: Flow, mssIdx: bv8, ta: u64, cookie: bv32)
    requires TopBits(cookie) == mssIdx
    ensures AckIsGood(ck, t, f, ta, cookie + 1)
            <==> GoodIn(ck, t, f, mssIdx, Bucket(ta), cookie) || GoodIn(ck, t, f, mssIdx, SatSub(Bucket(ta), 1), cookie)
  {
    AckOfCookie(cookie);
  }

  lemma LaggingCases(
    ck: CookieFn, t: CookieSecret, s: CookieSecret, f: Flow, mssIdx: bv8, b: u64, ba: u64, cookie: bv32, first: Option<Rotation>)
    requires s.bucketIndex < b <= ba <= b + 1 && cookie == ck(f, b, s.current, mssIdx)
    requires LaggingShape(t, s, b, ba, first)
    ensures GoodIn(ck, t, f, mssIdx, ba, cookie) || GoodIn(ck, t, f, mssIdx, SatSub(ba, 1), cookie)
            <==> LaggingAccepts(ck, t, s, f, mssIdx, b, ba, cookie, first)
  {
  }

  /** A table is never ahead of the latest rotation. */
  lemma {:induction false} NotAhead(s: CookieSecret, rs: seq<Rotation>, b: u64)
    requires s.bucketIndex <= b && forall i :: 0 <= i < |rs| ==> rs[i].nowS / BUCKET_DURATION_S <= b
    ensures RotatedAll(s, rs).bucketIndex <= b
  {
    if rs != [] { NotAhead(s, rs[..|rs| - 1], b); }
  }

  /** And such cookies need not collide: with an all-zero flow and secret, minutes 0 and 1 differ. */
  lemma LaggingRotationRejects()
    ensures var zero: Secret := seq(16, _ => 0);
            var s, f := CookieSecret(zero, zero, 0), Flow(0, 0, 0, 0);
            !AckIsGood(Cookie, s, f, 60 * NS_PER_S, Challenge(Cookie, s, f, 60 * NS_PER_S, 0) + 1)
  {
    var zero: Secret := seq(16, _ => 0);
    var s, f := CookieSecret(zero, zero, 0), Flow(0, 0, 0, 0);
    CookieCarriesMss();
    assert RotatedAll(s, []) == s;
    LaggingRotation(Cookie, s, [], f, 0, 60 * NS_PER_S, 60 * NS_PER_S);
    PackingRoundTrip(f, 0);
    PackingRoundTrip(f, 1);
    ZeroHashes(zero);
  }

  /** A served minute whose own cookie has the same thirty bits. */
  ghost predicate Coincides(t: CookieSecret, f: Flow, m: u64, b: u64, x: Secret, i: bv8)
  {
    SecretFor(t, m).Some? && Check30(f, m, i, SecretFor(t, m).value) == Check30(f, b, i, x)
  }

  /**
   An ACK made with any secret x, for any minute b, is good exactly if its thirty
   bits coincide with those of a secret the table serves for this minute or the last.
   */
  lemma ForgedAckIff(t: CookieSecret, f: Flow, now: u64, b: u64, x: Secret, i: bv8)
    requires i < 4
    ensures AckIsGood(Cookie, t, f, now, Cookie(f, b, x, i) + 1)
            <==> Coincides(t, f, Bucket(now), b, x, i) || Coincides(t, f, SatSub(Bucket(now), 1), b, x, i)
  {
    var cookie := Cookie(f, b, x, i);
    CookieCarriesMss();
    assert TopBits(cookie) == i;
    AckMatches(Cookie, t, f, i, now, cookie);
    ForgedInMinute(t, f, Bucket(now), b, x, i);
    ForgedInMinute(t, f, SatSub(Bucket(now), 1), b, x, i);
  }

  lemma ForgedInMinute(t: CookieSecret, f: Flow, m: u64, b: u64, x: Secret, i: bv8)
    ensures GoodIn(Cookie, t, f, i, m, Cookie(f, b, x, i)) <==> Coincides(t, f, m, b, x, i)
  {
    if SecretFor(t, m).Some? { CookiesAgreeIff(f, m, SecretFor(t, m).value, b, x, i); }
  }

  /** With one secret in both places of a table of minute 1, an ACK made for that minute depends on two coincidences. */
  lemma ForgedInMinuteOne(t: CookieSecret, f: Flow, now: u64, b: u64, x: Secret, i: bv8)
    requires i < 4 && b == 1 && Bucket(now) == b && t.bucketIndex == b && t.previous == t.current
    ensures AckIsGood(Cookie, t, f, now, Cookie(f, b, x, i) + 1)
            <==> Check30(f, b, i, t.current) == Check30(f, b, i, x) || Check30(f, b - 1, i, t.current) == Check30(f, b, i, x)
  {
    ForgedAckIff(t, f, now, b, x, i);
  }

  /** And the secret does matter: two tables that differ in one byte of it disagree about the same ACK. */
  lemma ForgedAckIsRejected(zero: Secret, x: Secret, f: Flow, now: u64, b: u64, i: bv8)
    requires zero == seq(16, _ => 0) && x == seq(16, k => if k == 0 then 1 else 0)
    requires f == Flow(0, 0, 0, 0) && now == 60_000_000_000 && b == 1 && i == 0
    ensures var ack := Cookie(f, b, zero, i) + 1;
            AckIsGood(Cookie, CookieSecret(zero, zero, b), f, now, ack) && !AckIsGood(Cookie, CookieSecret(x, x, b), f, now, ack)
  {
    ForgedInMinuteOne(CookieSecret(zero, zero, b), f, now, b, zero, i);
    ForgedInMinuteOne(CookieSecret(x, x, b), f, now, b, zero, i);
    MinutesApart(f, zero, x, b, i);
  }

  lemma MinutesApart(f: Flow, zero: Secret, x: Secret, b: u64, i: bv8)
    requires f == Flow(0, 0, 0, 0) && zero == seq(16, _ => 0) && x == seq(16, k => if k == 0 then 1 else 0) && b == 1 && i == 0
    ensures Check30(f, b, i, x) != Check30(f, b, i, zero) && Check30(f, b - 1, i, x) != Check30(f, b, i, zero)
  {
    assert LowWord(0 as bv64) == 0 && LowWord(1 as bv64) == 1;
    OneByteHashes(zero, x);
  }

  lemma OneByteHashes(zero: Secret, x: Secret)
    requires zero == seq(16, _ => 0) && x == seq(16, k => if k == 0 then 1 else 0)
    ensures Low30(CookieHash(Flow(0, 0, 0, 0), 1, 0, x)) != Low30(CookieHash(Flow(0, 0, 0, 0), 1, 0, zero))
    ensures Low30(CookieHash(Flow(0, 0, 0, 0), 0, 0, x)) != Low30(CookieHash(Flow(0, 0, 0, 0), 1, 0, zero))
  {
    assert SecretWord(zero, 0) == 0 && SecretWord(zero, 1) == 0 && SecretWord(zero, 2) == 0 && SecretWord(zero, 3) == 0;
    assert SecretWord(x, 0) == 1 && SecretWord(x, 1) == 0 && SecretWord(x, 2) == 0 && SecretWord(x, 3) == 0;
    var a, b, c := CookieWords(Flow(0, 0, 0, 0), 1, 0, x), CookieWords(Flow(0, 0, 0, 0), 1, 0, zero), CookieWords(Flow(0, 0, 0, 0), 0, 0, x);
    assert a == [0, 0, 0, 1, 0, 1, 0, 0, 0] && b == [0, 0, 0, 1, 0, 0, 0, 0, 0] && c == [0, 0, 0, 0, 0, 1, 0, 0, 0];
    MixNine(a);
    MixNine(b);
    MixNine(c);
  }

  lemma ZeroHashes(zero: Secret)
    requires zero == seq(16, _ => 0)
    ensures PackCookie(CookieHash(Flow(0, 0, 0, 0), 0, 0, zero), 0) != PackCookie(CookieHash(Flow(0, 0, 0, 0), 1, 0, zero), 0)
  {
    assert SecretWord(zero, 0) == 0 && SecretWord(zero, 1) == 0 && SecretWord(zero, 2) == 0 && SecretWord(zero, 3) == 0;
    var a, b := CookieWords(Flow(0, 0, 0, 0), 0, 0, zero), CookieWords(Flow(0, 0, 0, 0), 1, 0, zero);
    assert a == [0, 0, 0, 0, 0, 0, 0, 0, 0] && b == [0, 0, 0, 1, 0, 0, 0, 0, 0];
    MixNine(a);
    MixNine(b);
  }

  function Mix3(h: bv32, a: bv32, b: bv32, c: bv32): bv32 { Mix(Mix(Mix(h, a), b), c) }

  lemma MixNine(v: seq<bv32>)
    requires |v| == 9
    ensures MixAll(v) == Mix3(Mix3(Mix3(0x9e37_79b9, v[0], v[1], v[2]), v[3], v[4], v[5]), v[6], v[7], v[8])
  {
    forall i | 0 < i <= 9 ensures MixAll(v[..i]) == Mix(MixAll(v[..i - 1]), v[i - 1]) {
      assert v[..i][..i - 1] == v[..i - 1];
    }
    assert MixAll(v[..0]) == 0x9e37_79b9 && v[..9] == v;
  }
}
