/**
 The hub's token bucket. Tokens are refilled by elapsed nanoseconds, rounding
 down, and the remainder is forgotten at every refill; the product is taken in
 128 bits and its quotient truncated to 64.
 */
module HubLimiter {
  import opened Words

  datatype Bucket = Bucket(tokens: u64, last: u64)

  /** Tokens earned in `elapsed` nanoseconds, as the 64-bit value the code keeps. */
  function Earned(elapsed: u64, rate: u64): u64
  {
    assert 0 <= elapsed * rate;
    elapsed * rate / NS_PER_S % (U64_MAX + 1)
  }

  function Refill(b: Bucket, rate: u64, burst: u64, now: u64): Bucket
  {
    var added := Earned(SatSub(now, b.last), rate);
    if added > 0 then Bucket(Min(SatAdd(b.tokens, added), burst), now) else b
  }

  /** One call: the bucket afterwards and whether the call was admitted. */
  function Call(b: Option<Bucket>, rate: u64, burst: u64, now: u64): (Bucket, bool)
  {
    var r := match b case None => Bucket(burst, now) case Some(b) => Refill(b, rate, burst, now);
    if r.tokens > 0 then (r.(tokens := r.tokens - 1), true) else (r, false)
  }

  class RateLimiter {
    var buckets: map<string, Bucket>
    const ratePerS: u64
    const burst: u64

    constructor (ratePerS: u64, burst: u64)
      ensures buckets == map[] && this.ratePerS == ratePerS && this.burst == burst
    {
      buckets := map[];
      this.ratePerS, this.burst := ratePerS, burst;
    }

    function BucketOf(node: string): Option<Bucket>
      reads this
    {
      if node in buckets then Some(buckets[node]) else None
    }

    method Check(node: string, now: u64) returns (admitted: bool)
      modifies this
      ensures var (b, ok) := Call(old(BucketOf(node)), ratePerS, burst, now);
              buckets == old(buckets)[node := b] && admitted == ok
    {
      if node !in buckets {
        buckets := buckets[node := Bucket(burst, now)];
      }
      var tokens, last := buckets[node].tokens, buckets[node].last;
      var elapsed := SatSub(now, last);
      if elapsed > 0 {
        var added := Earned(elapsed, ratePerS);
        if added > 0 {
          tokens, last := Min(SatAdd(tokens, added), burst), now;
        }
      }
      admitted := tokens > 0;
      if admitted {
        tokens := tokens - 1;
      }
      buckets := buckets[node := Bucket(tokens, last)];
    }
  }

  // ----- Whole traces of one node -----

  function After(rate: u64, burst: u64, times: seq<u64>): Option<Bucket>
  {
    if times == [] then None
    else Some(Call(After(rate, burst, times[..|times| - 1]), rate, burst, times[|times| - 1]).0)
  }

  predicate Admits(rate: u64, burst: u64, times: seq<u64>, i: nat)
    requires i < |times|
  {
    Call(After(rate, burst, times[..i]), rate, burst, times[i]).1
  }

  /** How many of the calls i, ..., j - 1 are admitted. */
  function Admissions(rate: u64, burst: u64, times: seq<u64>, i: nat, j: nat): (n: nat)
    requires i <= j <= |times|
    decreases j - i
  {
    if i == j then 0
    else Admissions(rate, burst, times, i, j - 1) + if Admits(rate, burst, times, j - 1) then 1 else 0
  }

  ghost predicate NonDecreasing(times: seq<u64>)
  {
    forall i, j :: 0 <= i <= j < |times| ==> times[i] <= times[j]
  }

  lemma {:induction false} TokensNeverExceedBurst(rate: u64, burst: u64, times: seq<u64>)
    requires NonDecreasing(times) && times != []
    ensures var b := After(rate, burst, times).value;
            b.tokens <= burst && b.last <= times[|times| - 1]
  {
    var n := |times| - 1;
    if n > 0 {
      TokensNeverExceedBurst(rate, burst, times[..n]);
      assert times[n - 1] <= times[n];
    }
  }

  lemma EarnedAfterNothing(x: nat, y: nat)
    requires x / NS_PER_S % (U64_MAX + 1) == 0
    ensures (x + y) / NS_PER_S % (U64_MAX + 1) * NS_PER_S <= NS_PER_S + y
  {
    var q, r := x / NS_PER_S / (U64_MAX + 1), (x + y) / NS_PER_S - x / NS_PER_S;
    assert x / NS_PER_S == q * (U64_MAX + 1);
    assert (x + y) / NS_PER_S % (U64_MAX + 1) <= r by { ModAbsorbs(q, r); }
    assert r * NS_PER_S <= NS_PER_S + y;
  }

  lemma ModAbsorbs(q: nat, r: nat)
    ensures (q * (U64_MAX + 1) + r) % (U64_MAX + 1) <= r
  {
  }

  lemma EarnedIsBounded(elapsed: u64, rate: u64)
    ensures Earned(elapsed, rate) * NS_PER_S <= elapsed * rate
  {
    assert 0 <= elapsed * rate;
    ModAbsorbs(0, elapsed * rate / NS_PER_S);
  }

  /**
   The potential of a window that starts at time s: what was admitted in it plus
   what is still in the bucket. Until the first refill inside the window nothing
   is earned; from then on the earnings are paid for by the time inside it.
   */
  ghost predicate Covered(rate: u64, burst: u64, s: u64, b: Bucket, admitted: nat)
  {
    if b.last < s then
      && admitted + b.tokens <= burst
      && Earned(s - b.last, rate) == 0
    else
      (admitted + b.tokens) * NS_PER_S <= (burst + 1) * NS_PER_S + rate * (b.last - s)
  }

  lemma EarningsCovered(rate: u64, burst: u64, s: u64, b: Bucket, admitted: nat, now: u64)
    requires Covered(rate, burst, s, b, admitted) && b.last <= now && s <= now
    ensures (admitted + b.tokens + Earned(now - b.last, rate)) * NS_PER_S <= (burst + 1) * NS_PER_S + rate * (now - s)
  {
    var paid := rate * (now - s);
    if b.last < s {
      var x, y := (s - b.last) * rate, (now - s) * rate;
      assert (now - b.last) * rate == x + y;
      assert y == paid;
      EarnedAfterNothing(x, y);
    } else {
      EarnedIsBounded(now - b.last, rate);
      assert paid == rate * (b.last - s) + (now - b.last) * rate;
    }
  }

  lemma CoveredStep(rate: u64, burst: u64, s: u64, b: Bucket, admitted: nat, now: u64)
    requires Covered(rate, burst, s, b, admitted) && b.last <= now && s <= now
    ensures var (b', ok) := Call(Some(b), rate, burst, now);
            Covered(rate, burst, s, b', admitted + if ok then 1 else 0)
  {
    var r := Refill(b, rate, burst, now);
    RefillCovered(rate, burst, s, b, admitted, now);
    if r.tokens > 0 {
      assert admitted + r.tokens == admitted + 1 + (r.tokens - 1);
    }
  }

  lemma RefillCovered(rate: u64, burst: u64, s: u64, b: Bucket, admitted: nat, now: u64)
    requires Covered(rate, burst, s, b, admitted) && b.last <= now && s <= now
    ensures Covered(rate, burst, s, Refill(b, rate, burst, now), admitted)
  {
    EarningsCovered(rate, burst, s, b, admitted, now);
    var added := Earned(now - b.last, rate);
    var r := Refill(b, rate, burst, now);
    if added > 0 {
      assert admitted + r.tokens <= admitted + b.tokens + added;
      assert r.last == now;
    }
  }

  lemma {:induction false} WindowCovered(rate: u64, burst: u64, times: seq<u64>, i: nat, j: nat)
    requires NonDecreasing(times) && i < j <= |times|
    ensures Covered(rate, burst, times[i], After(rate, burst, times[..j]).value, Admissions(rate, burst, times, i, j))
    decreases j
  {
    var s, now := times[i], times[j - 1];
    assert times[..j][..j - 1] == times[..j - 1];
    if j > 1 {
      TokensNeverExceedBurst(rate, burst, times[..j - 1]);
    }
    if i < j - 1 {
      WindowCovered(rate, burst, times, i, j - 1);
      CoveredStep(rate, burst, s, After(rate, burst, times[..j - 1]).value, Admissions(rate, burst, times, i, j - 1), now);
    } else {
      assert Admissions(rate, burst, times, i, i) == 0;
      FirstCallCovered(rate, burst, After(rate, burst, times[..i]), s);
    }
  }

  lemma FirstCallCovered(rate: u64, burst: u64, b: Option<Bucket>, s: u64)
    requires b.Some? ==> b.value.tokens <= burst && b.value.last <= s
    ensures var (b', ok) := Call(b, rate, burst, s);
            Covered(rate, burst, s, b', if ok then 1 else 0)
  {
  }

  /** Main result: in any stretch of calls, at most burst + 1 admissions plus rate per second of its length. */
  lemma AdmissionsAreBounded(rate: u64, burst: u64, times: seq<u64>, i: nat, j: nat)
    requires NonDecreasing(times) && i < j <= |times|
    ensures Admissions(rate, burst, times, i, j) * NS_PER_S
            <= (burst + 1) * NS_PER_S + rate * (times[j - 1] - times[i])
  {
    WindowCovered(rate, burst, times, i, j);
    assert times[..j] != [] && times[..j][|times[..j]| - 1] == times[j - 1];
    TokensNeverExceedBurst(rate, burst, times[..j]);
    var b := After(rate, burst, times[..j]).value;
    if b.last >= times[i] {
      Monotone(rate, b.last - times[i], times[j - 1] - times[i]);
    } else {
      Monotone(rate, 0, times[j - 1] - times[i]);
    }
  }

  lemma Monotone(k: nat, a: nat, b: nat)
    requires a <= b
    ensures k * a <= k * b
  {
  }

  /** An empty bucket admits a call exactly when it may hold tokens and has earned one, modulo the truncation. */
  lemma EmptyAdmitsIff(b: Bucket, rate: u64, burst: u64, now: u64)
    requires b.tokens == 0
    ensures Call(Some(b), rate, burst, now).1 <==> burst > 0 && Earned(SatSub(now, b.last), rate) != 0
  {
  }

  /** Within the rates a 64-bit count of tokens can hold, waiting one token's time is always enough. */
  lemma WaitingIsEnough(b: Bucket, rate: u64, burst: u64, now: u64)
    requires 0 < rate <= NS_PER_S && burst > 0
    requires b.last <= now && (now - b.last) * rate >= NS_PER_S
    ensures Call(Some(b), rate, burst, now).1
  {
    var x := (now - b.last) * rate;
    Monotone(now - b.last, rate, NS_PER_S);
    assert 1 <= x / NS_PER_S <= U64_MAX;
  }

  /** Beyond that, the truncated quotient may vanish: about four seconds at this rate earn nothing. */
  lemma TruncationStarves()
    ensures var rate := 0x1_0000_0000 * NS_PER_S;
            !Call(Some(Bucket(0, 0)), rate, 1, 0x1_0000_0000).1
  {
    assert 0x1_0000_0000 * (0x1_0000_0000 * NS_PER_S) == (U64_MAX + 1) * NS_PER_S;
  }

  // ----- What a node may count on -----

  /** However close together, the n-th call of a node leaves a bucket of at least the burst less n. */
  lemma {:induction false} TokensLast(rate: u64, burst: u64, times: seq<u64>)
    requires 0 < |times| <= burst
    ensures After(rate, burst, times).value.tokens >= burst - |times|
    ensures After(rate, burst, times).value.tokens <= burst
    ensures Admits(rate, burst, times, |times| - 1)
  {
    var n := |times| - 1;
    if n > 0 {
      TokensLast(rate, burst, times[..n]);
      RefillKeeps(After(rate, burst, times[..n]).value, rate, burst, times[n]);
    }
  }

  lemma RefillKeeps(b: Bucket, rate: u64, burst: u64, now: u64)
    requires b.tokens <= burst
    ensures b.tokens <= Refill(b, rate, burst, now).tokens <= burst
  {
  }

  /** The first calls of a node, up to the burst, are all admitted, at whatever times they come. */
  lemma FirstCallsAreAdmitted(rate: u64, burst: u64, times: seq<u64>, i: nat)
    requires i < |times| && i < burst
    ensures Admits(rate, burst, times, i)
  {
    assert times[..i + 1][..i] == times[..i] && times[..i + 1][i] == times[i];
    TokensLast(rate, burst, times[..i + 1]);
  }

  lemma SameInstant(rate: u64, burst: u64, tokens: u64, now: u64)
    ensures Call(Some(Bucket(tokens, now)), rate, burst, now) ==
              if tokens > 0 then (Bucket(tokens - 1, now), true) else (Bucket(0, now), false)
  {
    assert Earned(0, rate) == 0;
  }

  /** And the next one, at the same instant, is not. */
  lemma {:induction false} BurstRunsOut(rate: u64, burst: u64, times: seq<u64>, now: u64)
    requires 0 < |times| <= burst && forall i :: 0 <= i < |times| ==> times[i] == now
    ensures After(rate, burst, times) == Some(Bucket(burst - |times|, now))
    ensures |times| == burst ==> !Call(After(rate, burst, times), rate, burst, now).1
  {
    var n := |times| - 1;
    assert times[n] == now;
    if n > 0 {
      BurstRunsOut(rate, burst, times[..n], now);
      SameInstant(rate, burst, burst - n, now);
    }
    SameInstant(rate, burst, burst - |times|, now);
  }
}
