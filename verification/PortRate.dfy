/**
 The fixed-window limit per destination port. A window opens with the first
 packet after the previous one has ended, and passes at most `threshold` packets.
 */
module PortRate {
  import opened Words
  import opened RateCounter

  /** The entry after one packet. */
  function Count(entry: Option<Counter>, window: u64, now: u64): Counter
  {
    if entry.Some? && SatSub(now, entry.value.lastDecayNs) < window then
      Counter(SatAdd(entry.value.counter, 1), entry.value.lastDecayNs)
    else Counter(1, now)
  }

  predicate Passes(entry: Option<Counter>, window: u64, threshold: u64, now: u64)
  {
    Count(entry, window, now).counter <= threshold
  }

  function After(window: u64, times: seq<u64>): Option<Counter>
  {
    if times == [] then None
    else Some(Count(After(window, times[..|times| - 1]), window, times[|times| - 1]))
  }

  /** How many of the packets i, ..., j - 1 pass. */
  function Passed(window: u64, threshold: u64, times: seq<u64>, i: nat, j: nat): (n: nat)
    requires i <= j <= |times|
    decreases j - i
  {
    if i == j then 0
    else
      Passed(window, threshold, times, i, j - 1)
      + if Passes(After(window, times[..j - 1]), window, threshold, times[j - 1]) then 1 else 0
  }

  /**
   `closed` windows of the stretch that starts at time s are over. Either its first
   packet opened the first of them, and they all lie at least one window apart; or
   an earlier packet did, and one passage of that window was used up before.
   */
  ghost predicate Paced(window: u64, threshold: u64, s: u64, e: Counter, passed: nat, closed: nat)
  {
    var room := threshold * closed + Min(e.counter, threshold);
    || (passed <= room && window * closed <= e.lastDecayNs - s)
    || (passed + 1 <= room && (closed > 0 ==> window * (closed - 1) <= e.lastDecayNs - s))
  }

  lemma OneMoreWindow(window: u64, threshold: u64, s: u64, e: Counter, passed: nat, closed: nat, now: u64)
    requires threshold > 0 && Paced(window, threshold, s, e, passed, closed)
    requires now - e.lastDecayNs >= window && s <= now
    ensures Paced(window, threshold, s, Counter(1, now), passed + 1, closed + 1)
  {
    Distribute(threshold, closed, 1);
    Distribute(window, closed, 1);
    if closed > 0 { Distribute(window, closed - 1, 1); }
  }

  lemma SameWindow(window: u64, threshold: u64, s: u64, e: Counter, passed: nat, closed: nat)
    requires Paced(window, threshold, s, e, passed, closed) && e.counter < U64_MAX
    ensures Paced(window, threshold, s, Counter(e.counter + 1, e.lastDecayNs), passed + if e.counter + 1 <= threshold then 1 else 0, closed)
  {
  }

  lemma NextIsPaced(window: u64, threshold: u64, s: u64, e: Counter, passed: nat, closed: nat, now: u64) returns (closed': nat)
    requires threshold > 0 && Paced(window, threshold, s, e, passed, closed)
    requires s <= now && e.lastDecayNs <= now && e.counter < U64_MAX
    ensures Paced(window, threshold, s, Count(Some(e), window, now), passed + if Passes(Some(e), window, threshold, now) then 1 else 0, closed')
  {
    if now - e.lastDecayNs >= window {
      OneMoreWindow(window, threshold, s, e, passed, closed, now);
      closed' := closed + 1;
    } else {
      SameWindow(window, threshold, s, e, passed, closed);
      closed' := closed;
    }
  }

  /** The first packet of the stretch, in a window of its own or in one that was open. */
  lemma FirstPacket(window: u64, threshold: u64, s: u64, e: Counter)
    requires threshold > 0 && (e == Counter(1, s) || (1 < e.counter && e.lastDecayNs <= s))
    ensures Paced(window, threshold, s, e, if e.counter <= threshold then 1 else 0, 0)
  {
  }

  lemma {:induction false} WindowsArePaced(window: u64, threshold: u64, times: seq<u64>, i: nat, j: nat)
    returns (closed: nat)
    requires NonDecreasing(times) && i < j <= |times| <= U64_MAX && threshold > 0
    ensures Paced(window, threshold, times[i], After(window, times[..j]).value, Passed(window, threshold, times, i, j), closed)
    ensures After(window, times[..j]).value.lastDecayNs <= times[j - 1]
    ensures 1 <= After(window, times[..j]).value.counter <= j
    decreases j
  {
    assert times[..j][..j - 1] == times[..j - 1];
    closed := 0;
    if j == 1 {
      assert After(window, times[..0]) == None;
      assert Passed(window, threshold, times, 0, 0) == 0;
      return;
    }
    var now := times[j - 1];
    if i < j - 1 {
      closed := WindowsArePaced(window, threshold, times, i, j - 1);
      var e := After(window, times[..j - 1]).value;
      closed := NextIsPaced(window, threshold, times[i], e, Passed(window, threshold, times, i, j - 1), closed, now);
    } else {
      var _ := WindowsArePaced(window, threshold, times, j - 2, j - 1);
      assert Passed(window, threshold, times, i, i) == 0;
      FirstPacket(window, threshold, times[i], After(window, times[..j]).value);
    }
  }

  /** What the limit lets through in a stretch of this length. */
  function Bound(window: u64, threshold: u64, length: u64): nat
    requires window > 0
  {
    WholeTicks(length, window);
    MulMono(threshold, 1, length / window + 2);
    if threshold == 0 then 0 else threshold * (length / window + 2) - 1
  }

  /** Main result: in any stretch of packets of length L, fewer than threshold * (L / window + 2) pass. */
  lemma PassedIsBounded(window: u64, threshold: u64, times: seq<u64>, i: nat, j: nat)
    requires NonDecreasing(times) && i < j <= |times| <= U64_MAX && window > 0
    ensures Passed(window, threshold, times, i, j) <= Bound(window, threshold, times[j - 1] - times[i])
  {
    var length := times[j - 1] - times[i];
    WholeTicks(length, window);
    if threshold == 0 {
      NonePass(window, times, i, j);
    } else {
      var closed := WindowsArePaced(window, threshold, times, i, j);
      var e, q := After(window, times[..j]).value, length / window;
      if window * closed <= e.lastDecayNs - times[i] {
        FitsInto(window, closed, length);
        WindowsTimesThreshold(threshold, closed, q);
      } else {
        if closed > 0 { FitsInto(window, closed - 1, length); }
        WindowsTimesThreshold(threshold, closed, q + 1);
      }
      Distribute(threshold, q + 1, 1);
    }
  }

  lemma {:induction false} NonePass(window: u64, times: seq<u64>, i: nat, j: nat)
    requires i <= j <= |times|
    ensures Passed(window, 0, times, i, j) == 0
    decreases j - i
  {
    if i < j { NonePass(window, times, i, j - 1); }
  }

  lemma FitsInto(window: nat, n: nat, length: nat)
    requires window > 0 && window * n <= length
    ensures n <= length / window
  {
    WholeTicks(length, window);
    Distribute(window, length / window, 1);
    if n > length / window { MulMono(window, length / window + 1, n); }
  }

  lemma WindowsTimesThreshold(threshold: nat, closed: nat, q: nat)
    requires closed <= q
    ensures threshold * closed + threshold <= threshold * (q + 1)
  {
    Distribute(threshold, closed, 1);
    MulMono(threshold, closed + 1, q + 1);
  }

  // ----- What the counter counts -----

  /** The counter is the number of packets of the open window, which all came in one window's time. */
  lemma {:induction false} CountsItsWindow(window: u64, times: seq<u64>)
    requires NonDecreasing(times) && 0 < |times| <= U64_MAX && window > 0
    ensures var e, now := After(window, times).value, times[|times| - 1];
            e.lastDecayNs <= now < e.lastDecayNs + window && e.counter == InWindow(times, e.lastDecayNs, window)
  {
    var n := |times| - 1;
    var front, now := times[..n], times[n];
    if n == 0 {
      assert After(window, front) == None && InWindow(front, now, window) == 0;
    } else {
      CountsItsWindow(window, front);
      var e := After(window, front).value;
      if now - e.lastDecayNs >= window {
        NoneYet(front, now, window);
      } else {
        AtMostAll(front, e.lastDecayNs, window);
      }
    }
  }

  lemma {:induction false} NoneYet(times: seq<u64>, a: nat, len: nat)
    requires forall i :: 0 <= i < |times| ==> times[i] < a
    ensures InWindow(times, a, len) == 0
  {
    if times != [] { NoneYet(times[..|times| - 1], a, len); }
  }

  lemma {:induction false} AtMostAll(times: seq<u64>, a: nat, len: nat)
    ensures InWindow(times, a, len) <= |times|
  {
    if times != [] { AtMostAll(times[..|times| - 1], a, len); }
  }

  // ----- The bound is met -----

  /** One early packet, then full bursts: at the end of the first window, and at the start of q + 1 more. */
  function Burst(window: u64, threshold: u64, q: nat): seq<u64>
    requires threshold > 0 && window > 0 && window * (q + 1) <= U64_MAX
  {
    BurstFits(threshold, q, 0);
    seq(threshold * (q + 2), k requires 0 <= k < threshold * (q + 2) => BurstTime(window, threshold, q, k))
  }

  function BurstTime(window: u64, threshold: u64, q: nat, k: nat): u64
    requires threshold > 0 && window > 0 && window * (q + 1) <= U64_MAX && k < threshold * (q + 2)
  {
    BurstFits(threshold, q, k);
    WholeTicks(k, threshold);
    MulMono(window, k / threshold, q + 1);
    if 0 < k < threshold then window - 1 else window * (k / threshold)
  }

  lemma BurstFits(threshold: nat, q: nat, k: nat)
    requires threshold > 0
    ensures 0 <= threshold * (q + 2)
    ensures k < threshold * (q + 2) ==> k / threshold <= q + 1
  {
    MulMono(threshold, 0, q + 2);
    if k < threshold * (q + 2) {
      WholeTicks(k, threshold);
      if k / threshold >= q + 2 { MulMono(threshold, q + 2, k / threshold); }
    }
  }

  /** Packet k is number k % threshold of window k / threshold; it is counted there, and passes. */
  lemma {:induction false} BurstCounts(window: u64, threshold: u64, q: nat, j: nat)
    requires threshold > 0 && window > 1 && window * (q + 1) <= U64_MAX && 0 < j <= threshold * (q + 2)
    ensures var e := After(window, Burst(window, threshold, q)[..j]).value;
            && e.lastDecayNs == (if j <= threshold then 0 else BurstTime(window, threshold, q, j - 1))
            && e.counter == (j - 1) % threshold + 1
  {
    var times := Burst(window, threshold, q);
    assert times[..j][..j - 1] == times[..j - 1];
    if j == 1 {
      SmallDiv(0, threshold);
      assert After(window, times[..0]) == None;
    } else {
      BurstCounts(window, threshold, q, j - 1);
      NextInBlock(j - 1, threshold);
      Distribute(window, (j - 2) / threshold, 1);
      if j <= threshold + 1 { SmallDiv(j - 2, threshold); }
    }
  }

  lemma SmallDiv(a: nat, d: nat)
    requires a < d
    ensures a / d == 0 && a % d == a
  {
  }

  lemma NextInBlock(k: nat, d: nat)
    requires d > 0 && k > 0
    ensures if (k - 1) % d == d - 1 then k / d == (k - 1) / d + 1 && k % d == 0
            else k / d == (k - 1) / d && k % d == (k - 1) % d + 1
  {
    var p, r := (k - 1) / d, (k - 1) % d;
    WholeTicks(k - 1, d);
    Distribute(d, p, 1);
    if r == d - 1 { DivUnique(k, d, p + 1); } else { DivUnique(k, d, p); }
  }

  lemma BurstIsLong(threshold: nat, q: nat)
    requires threshold > 0
    ensures threshold * (q + 2) > 1
  {
    MulMono(threshold, 2, q + 2);
  }

  lemma BurstSpan(window: u64, threshold: u64, q: nat)
    requires threshold > 0 && window > 1 && window * (q + 1) <= U64_MAX
    ensures var times, n := Burst(window, threshold, q), threshold * (q + 2);
            |times| == n > 1 && times[n - 1] - times[1] == window * q + if threshold > 1 then 1 else 0
  {
    var n := threshold * (q + 2);
    BurstIsLong(threshold, q);
    Distribute(threshold, q + 1, 1);
    Distribute(window, q, 1);
    DivUnique(n - 1, threshold, q + 1);
    if threshold == 1 { DivUnique(1, threshold, 1); }
  }

  /** Every packet of the burst passes; without the early one that is the bound, for every number of windows. */
  lemma BoundIsMet(window: u64, threshold: u64, q: nat)
    requires threshold > 0 && window > 1 && window * (q + 1) <= U64_MAX
    ensures var times := Burst(window, threshold, q);
            var n := |times|;
            && n > 1 && n == threshold * (q + 2)
            && (times[n - 1] - times[1]) / window == q
            && Passed(window, threshold, times, 1, n) == threshold * (q + 2) - 1
  {
    BurstSpan(window, threshold, q);
    AllPass(window, threshold, q, threshold * (q + 2));
    Distribute(window, q, 1);
    DivUnique(window * q + if threshold > 1 then 1 else 0, window, q);
  }

  lemma {:induction false} AllPass(window: u64, threshold: u64, q: nat, j: nat)
    requires threshold > 0 && window > 1 && window * (q + 1) <= U64_MAX && 1 <= j <= threshold * (q + 2)
    ensures Passed(window, threshold, Burst(window, threshold, q), 1, j) == j - 1
  {
    var times := Burst(window, threshold, q);
    if j > 1 {
      AllPass(window, threshold, q, j - 1);
      BurstCounts(window, threshold, q, j);
      assert times[..j][..j - 1] == times[..j - 1];
    }
  }
}
