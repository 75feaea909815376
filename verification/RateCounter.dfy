/**
 The exponential-decay packet counter. The counter decays once per whole tick
 since `lastDecayNs`, which itself moves only by whole ticks, so that fractions
 of a tick are never forgotten. Its guarantees are about whole packet traces.
 */
module RateCounter {
  import opened Words

  const MAX_TICKS := 64
  const WRAP := U64_MAX + 1

  datatype RateLimitConfig = RateLimitConfig(
    threshold: u64, tickMs: u64, decayNum: u64, decayDen: u64, blockDurationS: u64)

  datatype Counter = Counter(counter: u64, lastDecayNs: u64)

  function DecayOnce(c: u64, num: u64, den: u64): u64
    requires den > 0
  {
    assert 0 <= c * num;
    DivShrinks(c * num % WRAP, den);
    c * num % WRAP / den
  }

  /** `n` successive decays. */
  function Decay(c: u64, num: u64, den: u64, n: nat): u64
    requires den > 0
  {
    if n == 0 then c else DecayOnce(Decay(c, num, den, n - 1), num, den)
  }

  function Decayed(c: u64, elapsed: u64, tick: u64, num: u64, den: u64): u64
  {
    if tick == 0 || den == 0 then c
    else
      assert 0 <= elapsed / tick;
      Decay(c, num, den, Min(elapsed / tick, MAX_TICKS))
  }

  method DecayCounter(counter: u64, elapsed: u64, tick: u64, num: u64, den: u64) returns (decayed: u64)
    ensures decayed == Decayed(counter, elapsed, tick, num, den)
  {
    if tick == 0 || den == 0 {
      return counter;
    }
    assert 0 <= elapsed / tick;
    var effective := Min(elapsed / tick, MAX_TICKS);
    decayed := counter;
    for i := 0 to effective
      invariant decayed == Decay(counter, num, den, i)
    {
      decayed := DecayOnce(decayed, num, den);
    }
  }

  /** The entry written for one more packet. */
  function Bump(entry: Option<Counter>, tick: u64, num: u64, den: u64, now: u64): Counter
    requires tick > 0
  {
    match entry
    case None => Counter(1, now)
    case Some(e) =>
      var elapsed := SatSub(now, e.lastDecayNs);
      Counter(SatAdd(Decayed(e.counter, elapsed, tick, num, den), 1),
              Min(WrapAdd(e.lastDecayNs, TicksNs(elapsed / tick, tick)), now))
  }

  function WrapAdd(a: u64, b: u64): u64 { (a + b) % WRAP }

  /** The product of whole ticks, with the wrap-around of the code's multiplication. */
  function TicksNs(ticks: nat, tick: u64): u64
  {
    assert 0 <= ticks * tick;
    ticks * tick % WRAP
  }

  // ----- Arithmetic -----

  lemma DivShrinks(a: nat, d: nat)
    requires d > 0
    ensures 0 <= a / d <= a
  {
    WholeTicks(a, d);
    MulMono(a / d, 1, d);
  }

  lemma WholeTicks(a: nat, d: nat)
    requires d > 0
    ensures 0 <= a / d * d <= a < a / d * d + d
    ensures 0 <= a / d
  {
  }

  lemma DivUnique(a: nat, d: nat, q: nat)
    requires d > 0 && d * q <= a < d * (q + 1)
    ensures a / d == q
  {
    WholeTicks(a, d);
    if a / d < q {
      MulMono(d, a / d + 1, q);
    } else if a / d > q {
      MulMono(d, q + 1, a / d);
    }
  }

  lemma MulMono(k: nat, a: nat, b: nat)
    requires a <= b
    ensures k * a <= k * b
  {
  }

  /** Whole ticks counted piecewise are whole ticks counted at once. */
  lemma TicksAdd(a: nat, d: nat, m: nat)
    requires d > 0 && d * m <= a
    ensures (a - d * m) / d == a / d - m
  {
    WholeTicks(a, d);
    var q := a / d;
    assert a < d * (q + 1);
    if q < m { MulMono(d, q + 1, m); }
    assert d * (q - m) == d * q - d * m;
    assert d * (q - m + 1) == d * (q + 1) - d * m;
    DivUnique(a - d * m, d, q - m);
  }

  // ----- Traces -----

  ghost predicate NonDecreasing(times: seq<u64>)
  {
    forall i, j :: 0 <= i <= j < |times| ==> times[i] <= times[j]
  }

  /** The entry after the packets of one source. */
  function Run(tick: u64, num: u64, den: u64, times: seq<u64>): Option<Counter>
    requires tick > 0
  {
    if times == [] then None
    else
      var n := |times| - 1;
      Some(Bump(Run(tick, num, den, times[..n]), tick, num, den, times[n]))
  }

  /** Tick cells are measured from the first packet. */
  function Cell(first: u64, tick: u64, t: u64): nat
    requires tick > 0 && first <= t
  {
    WholeTicks(t - first, tick);
    (t - first) / tick
  }

  function CountInCell(times: seq<u64>, first: u64, tick: u64, m: nat): nat
    requires tick > 0 && forall i :: 0 <= i < |times| ==> first <= times[i]
  {
    if times == [] then 0
    else
      var n := |times| - 1;
      CountInCell(times[..n], first, tick, m) + if Cell(first, tick, times[n]) == m then 1 else 0
  }

  /** How many of the times fall into the window of length `len` from `a`. */
  function InWindow(times: seq<u64>, a: nat, len: nat): nat
  {
    if times == [] then 0
    else
      var n := |times| - 1;
      InWindow(times[..n], a, len) + if a <= times[n] < a + len then 1 else 0
  }

  lemma WindowSnoc(ts: seq<u64>, now: u64, a: nat, len: nat)
    ensures InWindow(ts + [now], a, len) == InWindow(ts, a, len) + if a <= now < a + len then 1 else 0
  {
    assert (ts + [now])[..|ts|] == ts;
  }

  lemma RunSnoc(tick: u64, num: u64, den: u64, us: seq<u64>, now: u64)
    requires tick > 0
    ensures Run(tick, num, den, us + [now]) == Some(Bump(Run(tick, num, den, us), tick, num, den, now))
  {
    assert (us + [now])[..|us|] == us;
  }

  /** Over a run, exactly the whole ticks since the first packet have been applied, and less than one is pending. */
  lemma {:induction false} TicksAppliedInFull(tick: u64, num: u64, den: u64, times: seq<u64>)
    requires tick > 0 && times != [] && NonDecreasing(times)
    ensures var last := times[|times| - 1];
            var e := Run(tick, num, den, times).value;
            && e.lastDecayNs == times[0] + tick * Cell(times[0], tick, last)
            && e.lastDecayNs <= last < e.lastDecayNs + tick
  {
    var n := |times| - 1;
    var first, now := times[0], times[n];
    WholeTicks(now - first, tick);
    if n == 0 {
      assert Cell(first, tick, now) == 0 && tick * 0 == 0;
    } else {
      TicksAppliedInFull(tick, num, den, times[..n]);
      var prev := Run(tick, num, den, times[..n]).value;
      var m := Cell(first, tick, times[n - 1]);
      assert prev.lastDecayNs == first + tick * m && prev.lastDecayNs <= times[n - 1] <= now;
      BumpMoves(prev, tick, num, den, now);
      CellAfter(first, tick, m, now);
    }
  }

  lemma CellAfter(first: u64, tick: u64, m: nat, now: u64)
    requires tick > 0 && first + tick * m <= now
    ensures first <= now
    ensures var ticks := (now - (first + tick * m)) / tick;
            && Cell(first, tick, now) == m + ticks
            && tick * Cell(first, tick, now) == tick * m + ticks * tick
  {
    MulMono(tick, 0, m);
    TicksAdd(now - first, tick, m);
    Distribute(tick, m, (now - (first + tick * m)) / tick);
  }

  lemma Distribute(a: int, b: int, c: int)
    ensures a * (b + c) == a * b + c * a
  {
  }

  lemma BumpMoves(e: Counter, tick: u64, num: u64, den: u64, now: u64)
    requires tick > 0 && e.lastDecayNs <= now
    ensures var e' := Bump(Some(e), tick, num, den, now);
            && e'.lastDecayNs == e.lastDecayNs + (now - e.lastDecayNs) / tick * tick
            && e'.lastDecayNs <= now < e'.lastDecayNs + tick
  {
    var elapsed := now - e.lastDecayNs;
    WholeTicks(elapsed, tick);
    NoWrap(elapsed / tick, tick);
  }

  lemma NoWrap(ticks: nat, tick: u64)
    requires ticks * tick <= U64_MAX
    ensures TicksNs(ticks, tick) == ticks * tick
  {
  }

  lemma {:induction false} EarlierCellsOnly(times: seq<u64>, first: u64, tick: u64, m: nat)
    requires tick > 0 && forall i :: 0 <= i < |times| ==> first <= times[i]
    requires forall i :: 0 <= i < |times| ==> Cell(first, tick, times[i]) < m
    ensures CountInCell(times, first, tick, m) == 0
  {
    if times != [] { EarlierCellsOnly(times[..|times| - 1], first, tick, m); }
  }

  lemma CellMono(first: u64, tick: u64, s: u64, t: u64)
    requires tick > 0 && first <= s <= t
    ensures Cell(first, tick, s) <= Cell(first, tick, t)
  {
    WholeTicks(s - first, tick);
    WholeTicks(t - first, tick);
    if Cell(first, tick, t) < Cell(first, tick, s) {
      MulMono(tick, Cell(first, tick, t) + 1, Cell(first, tick, s));
    }
  }

  /** The ticks between two packets are the cells between them; a packet in a new cell is the first one there. */
  lemma NextPacket(tick: u64, num: u64, den: u64, times: seq<u64>, n: nat)
    requires tick > 0 && 0 < n < |times| && NonDecreasing(times)
    ensures var e := Run(tick, num, den, times[..n]).value;
            var m, m' := Cell(times[0], tick, times[n - 1]), Cell(times[0], tick, times[n]);
            && e.lastDecayNs <= times[n] && m <= m'
            && (times[n] - e.lastDecayNs) / tick == m' - m
            && (m < m' ==> CountInCell(times[..n], times[0], tick, m') == 0)
  {
    var first := times[0];
    TicksAppliedInFull(tick, num, den, times[..n]);
    var m, m' := Cell(first, tick, times[n - 1]), Cell(first, tick, times[n]);
    CellMono(first, tick, times[n - 1], times[n]);
    WholeTicks(times[n - 1] - first, tick);
    TicksAdd(times[n] - first, tick, m);
    if m < m' {
      forall i | 0 <= i < n ensures Cell(first, tick, times[..n][i]) < m' {
        CellMono(first, tick, times[i], times[n - 1]);
      }
      EarlierCellsOnly(times[..n], first, tick, m');
    }
  }

  lemma DecayLeavesRoom(c: u64, num: u64, den: u64, threshold: u64, k: nat)
    requires num < den && k * den <= threshold * (den - num) && threshold * num <= U64_MAX
    requires c <= threshold
    ensures k <= threshold && DecayOnce(c, num, den) <= threshold - k
  {
    MulMono(num, c, threshold);
    assert threshold * (den - num) == threshold * den - threshold * num;
    if threshold < k { MulMono(den, threshold + 1, k); }
    assert (threshold - k) * den == threshold * den - k * den;
    assert c * num <= (threshold - k) * den;
    var q := c * num / den;
    WholeTicks(c * num, den);
    if q > threshold - k { MulMono(den, threshold - k + 1, q); }
  }

  lemma {:induction false} DecaysLeaveRoom(c: u64, num: u64, den: u64, threshold: u64, k: nat, n: nat)
    requires num < den && k * den <= threshold * (den - num) && threshold * num <= U64_MAX
    requires c <= threshold && n > 0
    ensures k <= threshold && Decay(c, num, den, n) <= threshold - k
  {
    if n > 1 { DecaysLeaveRoom(c, num, den, threshold, k, n - 1); }
    DecayLeavesRoom(Decay(c, num, den, n - 1), num, den, threshold, k);
  }

  /** A source with at most k packets in every cell keeps room for k in each new cell. */
  lemma {:induction false} CounterStaysBelow(tick: u64, num: u64, den: u64, threshold: u64, k: nat, times: seq<u64>)
    requires tick > 0 && times != [] && NonDecreasing(times)
    requires num < den && k * den <= threshold * (den - num) && threshold * num <= U64_MAX
    requires forall m: nat :: CountInCell(times, times[0], tick, m) <= k
    ensures k <= threshold
    ensures Run(tick, num, den, times).value.counter
            <= threshold - k + CountInCell(times, times[0], tick, Cell(times[0], tick, times[|times| - 1]))
  {
    var n := |times| - 1;
    var first, now := times[0], times[n];
    var m' := Cell(first, tick, now);
    DecayLeavesRoom(0, num, den, threshold, k);
    assert CountInCell(times, first, tick, m')
           == CountInCell(times[..n], first, tick, m') + 1;
    if n > 0 {
      forall m: nat ensures CountInCell(times[..n], first, tick, m) <= k {
        assert CountInCell(times, first, tick, m) >= CountInCell(times[..n], first, tick, m);
      }
      CounterStaysBelow(tick, num, den, threshold, k, times[..n]);
      NextPacket(tick, num, den, times, n);
      var e := Run(tick, num, den, times[..n]).value;
      var m := Cell(first, tick, times[n - 1]);
      if m < m' {
        DecaysLeaveRoom(e.counter, num, den, threshold, k, Min(m' - m, MAX_TICKS));
      }
    }
  }

  /** Main result: such a source is never over threshold, however long the run and its gaps. */
  lemma NeverOverThreshold(tick: u64, num: u64, den: u64, threshold: u64, k: nat, times: seq<u64>)
    requires tick > 0 && times != [] && NonDecreasing(times)
    requires num < den && k * den <= threshold * (den - num) && threshold * num <= U64_MAX
    requires forall m: nat :: CountInCell(times, times[0], tick, m) <= k
    ensures Run(tick, num, den, times).value.counter <= threshold
  {
    CounterStaysBelow(tick, num, den, threshold, k, times);
  }

  /** The default setting, 7/8 per 100 ms against 2000, lets 250 packets per tick pass for ever. */
  lemma DefaultAllows250PerTick(times: seq<u64>)
    requires times != [] && NonDecreasing(times)
    requires forall m: nat :: CountInCell(times, times[0], MsToNs(100), m) <= 250
    ensures Run(MsToNs(100), 7, 8, times).value.counter <= 2000
  {
    NeverOverThreshold(MsToNs(100), 7, 8, 2000, 250, times);
  }

  /** Conversely the counter never falls below the number of packets in the current cell. */
  lemma {:induction false} CounterCountsTheCell(tick: u64, num: u64, den: u64, times: seq<u64>)
    requires tick > 0 && times != [] && NonDecreasing(times)
    ensures Run(tick, num, den, times).value.counter
            >= Min(CountInCell(times, times[0], tick, Cell(times[0], tick, times[|times| - 1])), U64_MAX)
  {
    var n := |times| - 1;
    if n > 0 {
      CounterCountsTheCell(tick, num, den, times[..n]);
      NextPacket(tick, num, den, times, n);
    }
  }

  /** Packet threshold + 1 inside one cell is over threshold, whatever the decay. */
  lemma FloodIsFlagged(tick: u64, num: u64, den: u64, threshold: u64, times: seq<u64>)
    requires tick > 0 && times != [] && NonDecreasing(times) && threshold < U64_MAX
    requires CountInCell(times, times[0], tick, Cell(times[0], tick, times[|times| - 1])) > threshold
    ensures Run(tick, num, den, times).value.counter > threshold
  {
    CounterCountsTheCell(tick, num, den, times);
  }

  // ----- How much a gap forgets -----

  function Pow(b: nat, n: nat): (p: nat)
  {
    if n == 0 then 1 else
      MulMono(b, 0, Pow(b, n - 1));
      b * Pow(b, n - 1)
  }

  /** One decay loses the fraction and less than one more. */
  lemma DecayOnceBounds(c: u64, num: u64, den: u64)
    requires num < den && c * num <= U64_MAX
    ensures var d := DecayOnce(c, num, den); d <= c && d * den <= c * num <= d * den + den - 1
  {
    SmallMod(c * num, WRAP);
    WholeTicks(c * num, den);
    MulMono(c, num, den);
    if DecayOnce(c, num, den) > c { MulMono(den, c + 1, DecayOnce(c, num, den)); }
  }

  /** After n decays the counter is at most c * (num / den)^n, and short of that by less than den. */
  lemma {:induction false} DecayIsGeometric(c: u64, num: u64, den: u64, n: nat)
    requires num < den && c * num <= U64_MAX
    ensures var d := Decay(c, num, den, n);
            d <= c && d * Pow(den, n) <= c * Pow(num, n) <= (d + den - 1) * Pow(den, n)
  {
    if n > 0 {
      DecayIsGeometric(c, num, den, n - 1);
      GeometricStep(Decay(c, num, den, n - 1), num, den, c, Pow(den, n - 1), Pow(num, n - 1));
    }
  }

  lemma GeometricStep(e: u64, num: u64, den: u64, c: u64, p: nat, q: nat)
    requires num < den && c * num <= U64_MAX && e <= c && e * p <= c * q <= (e + den - 1) * p
    ensures var d := DecayOnce(e, num, den);
            d <= c && d * (den * p) <= c * (num * q) <= (d + den - 1) * (den * p)
  {
    MulMono(num, e, c);
    DecayOnceBounds(e, num, den);
    StepBounds(e, DecayOnce(e, num, den), num, den, c, p, q);
  }

  lemma StepBounds(e: nat, d: nat, num: nat, den: nat, c: nat, p: nat, q: nat)
    requires num < den && e * p <= c * q <= (e + den - 1) * p && d * den <= e * num <= d * den + den - 1
    ensures d * (den * p) <= c * (num * q) <= (d + den - 1) * (den * p)
  {
    RoundOnce(e, d, num, den);
    UpperStep(d, e, num, den, p, c * q);
    LowerStep(d + den - 1, e + den - 1, num, den, p, c * q);
    Shift(c, num, q);
  }

  lemma RoundOnce(e: nat, d: nat, num: nat, den: nat)
    requires num < den && e * num <= d * den + den - 1
    ensures num * (e + den - 1) <= den * (d + den - 1)
  {
    Distribute(num, e, den - 1);
    Distribute(den, d, den - 1);
    MulMono(den - 1, num + 1, den);
    Distribute(den - 1, num, 1);
  }

  lemma UpperStep(u: nat, v: nat, num: nat, den: nat, p: nat, y: nat)
    requires u * den <= v * num && v * p <= y
    ensures u * (den * p) <= num * y
  {
    Shift(u, den, p);
    MulMono(p, u * den, v * num);
    Shift(v, num, p);
    MulMono(num, v * p, y);
  }

  lemma LowerStep(u: nat, v: nat, num: nat, den: nat, p: nat, y: nat)
    requires num * v <= den * u && y <= v * p
    ensures num * y <= u * (den * p)
  {
    MulMono(num, y, v * p);
    Shift(v, num, p);
    MulMono(p, num * v, den * u);
    Shift(u, den, p);
  }

  lemma Shift(a: nat, b: nat, c: nat)
    ensures a * (b * c) == b * (a * c) == c * (a * b) == c * (b * a)
  {
  }

  /** What a gap does: one factor num / den for each whole tick of it, but at most 64, up to rounding. */
  lemma GapForgets(c: u64, elapsed: u64, tick: u64, num: u64, den: u64)
    requires tick > 0 && num < den && c * num <= U64_MAX
    ensures 0 <= elapsed / tick
    ensures var n, d := Min(elapsed / tick, 64), Decayed(c, elapsed, tick, num, den);
            d * Pow(den, n) <= c * Pow(num, n) <= (d + den - 1) * Pow(den, n)
  {
    WholeTicks(elapsed, tick);
    DecayIsGeometric(c, num, den, Min(elapsed / tick, 64));
  }

  /** A second of silence under the default setting brings a full counter of 2000 to 525. */
  lemma DefaultForgets()
    ensures Decayed(2000, MsToNs(1000), MsToNs(100), 7, 8) == 525
  {
    DivUnique(MsToNs(1000), MsToNs(100), 10);
    var c := 2000;
    assert Decay(c, 7, 8, 1) == 1750 && Decay(c, 7, 8, 2) == 1531 && Decay(c, 7, 8, 3) == 1339;
    assert Decay(c, 7, 8, 4) == 1171 && Decay(c, 7, 8, 5) == 1024 && Decay(c, 7, 8, 6) == 896;
    assert Decay(c, 7, 8, 7) == 784 && Decay(c, 7, 8, 8) == 686 && Decay(c, 7, 8, 9) == 600;
  }

  // ----- Splitting a gap -----

  lemma {:induction false} DecayAdds(c: u64, num: u64, den: u64, a: nat, b: nat)
    requires den > 0
    ensures Decay(Decay(c, num, den, a), num, den, b) == Decay(c, num, den, a + b)
  {
    if b > 0 { DecayAdds(c, num, den, a, b - 1); }
  }

  /** What a gap of whole ticks does in one call, and in two. */
  lemma GapInTwo(c: u64, tick: u64, num: u64, den: u64, a: nat, b: nat)
    requires tick > 0 && den > 0 && (a + b) * tick <= U64_MAX
    ensures 0 <= a * tick <= U64_MAX && 0 <= b * tick <= U64_MAX
    ensures Decayed(c, (a + b) * tick, tick, num, den) == Decay(c, num, den, Min(a + b, MAX_TICKS))
    ensures Decayed(Decayed(c, a * tick, tick, num, den), b * tick, tick, num, den)
            == Decay(c, num, den, Min(a, MAX_TICKS) + Min(b, MAX_TICKS))
  {
    MulMono(tick, a, a + b);
    MulMono(tick, b, a + b);
    DivUnique(a * tick, tick, a);
    DivUnique(b * tick, tick, b);
    DivUnique((a + b) * tick, tick, a + b);
    DecayAdds(c, num, den, Min(a, MAX_TICKS), Min(b, MAX_TICKS));
  }

  /** A gap of at most 64 whole ticks decays the same in one call as in two. */
  lemma SplittingAGap(c: u64, tick: u64, num: u64, den: u64, a: nat, b: nat)
    requires tick > 0 && den > 0 && a + b <= MAX_TICKS && (a + b) * tick <= U64_MAX
    ensures 0 <= a * tick <= U64_MAX && 0 <= b * tick <= U64_MAX
    ensures Decayed(Decayed(c, a * tick, tick, num, den), b * tick, tick, num, den) == Decayed(c, (a + b) * tick, tick, num, den)
  {
    GapInTwo(c, tick, num, den, a, b);
  }

  /** Past the cap it does not: for a counter of 1000 that loses one per tick, every split in two shows. */
  lemma CapIsVisible(a: nat, b: nat)
    requires 0 < a && 0 < b && MAX_TICKS < a + b <= U64_MAX
    ensures Decayed(Decayed(1000, a, 1, 999, 1000), b, 1, 999, 1000) == 1000 - (Min(a, MAX_TICKS) + Min(b, MAX_TICKS))
    ensures Decayed(1000, a + b, 1, 999, 1000) == 1000 - MAX_TICKS > 1000 - (Min(a, MAX_TICKS) + Min(b, MAX_TICKS))
  {
    GapInTwo(1000, 1, 999, 1000, a, b);
    OneLessPerTick(Min(a, MAX_TICKS) + Min(b, MAX_TICKS));
    OneLessPerTick(Min(a + b, MAX_TICKS));
  }

  /** A gap of a + b ticks decays the counter the same in one call as in two. */
  ghost predicate Splits(a: nat, b: nat, c: u64, tick: u64, num: u64, den: u64)
  {
    (a + b) * tick <= U64_MAX && 0 <= a * tick <= U64_MAX && 0 <= b * tick <= U64_MAX ==>
      Decayed(Decayed(c, a * tick, tick, num, den), b * tick, tick, num, den) == Decayed(c, (a + b) * tick, tick, num, den)
  }

  /** For all counters and settings this is so exactly if there is nothing to split or the gap is within the cap. */
  lemma SplitsIff(a: nat, b: nat)
    requires a + b <= U64_MAX
    ensures (forall c: u64, tick: u64, num: u64, den: u64 :: tick > 0 && den > 0 ==> Splits(a, b, c, tick, num, den))
            <==> a == 0 || b == 0 || a + b <= 64
  {
    if a == 0 || b == 0 || a + b <= MAX_TICKS {
      forall c: u64, tick: u64, num: u64, den: u64 | tick > 0 && den > 0 ensures Splits(a, b, c, tick, num, den) {
        if (a + b) * tick <= U64_MAX { GapInTwo(c, tick, num, den, a, b); }
      }
    } else {
      CapIsVisible(a, b);
      assert !Splits(a, b, 1000, 1, 999, 1000);
    }
  }

  lemma {:induction false} OneLessPerTick(n: nat)
    requires n <= 1000
    ensures Decay(1000, 999, 1000, n) == 1000 - n
  {
    if n > 0 {
      OneLessPerTick(n - 1);
      OneLess(1000 - (n - 1));
    }
  }

  lemma OneLess(c: u64)
    requires 0 < c <= 1000
    ensures DecayOnce(c, 999, 1000) == c - 1
  {
    assert c * 999 == (c - 1) * 1000 + (1000 - c);
  }

  // ----- Threshold modulation -----

  function ModulateStep(x: u64, f: u64): u64
  {
    if x > U64_MAX / 1000 then
      WholeTicks(x, 1000);
      assert 0 <= x / 1000 * f;
      x / 1000 * f % WRAP
    else
      assert 0 <= x * f;
      DivShrinks(x * f % WRAP, 1000);
      x * f % WRAP / 1000
  }

  function ModulateThreshold(base: u64, trustF: u64, dangerF: u64): u64
  {
    ModulateStep(ModulateStep(base, trustF), dangerF)
  }

  lemma SmallStep(x: u64, f: u64)
    requires f <= 1000 && x <= U64_MAX / 1000
    ensures ModulateStep(x, f) == x * f / 1000 <= x
  {
    MulMono(x, f, 1000);
    SmallMod(x * f, WRAP);
  }

  lemma BigStep(x: u64, f: u64)
    requires f <= 1000 && x > U64_MAX / 1000
    ensures ModulateStep(x, f) == x / 1000 * f <= x
  {
    WholeTicks(x, 1000);
    Scaled(x / 1000, f, x);
  }

  lemma Scaled(q: nat, f: nat, x: nat)
    requires f <= 1000 && q * 1000 <= x < WRAP
    ensures 0 <= q * f <= x && q * f % WRAP == q * f
  {
    MulMono(q, f, 1000);
    SmallMod(q * f, WRAP);
  }

  lemma SmallMod(a: nat, d: nat)
    requires a < d
    ensures a % d == a
  {
  }

  lemma StepNeverWraps(x: u64, f: u64)
    requires f <= 1000
    ensures ModulateStep(x, f) <= x
    ensures x <= U64_MAX / 1000 ==> ModulateStep(x, f) == x * f / 1000
  {
    if x > U64_MAX / 1000 {
      BigStep(x, f);
    } else {
      SmallStep(x, f);
    }
  }

  /** For factors up to 1000 nothing wraps, and modulation only ever tightens the threshold. */
  lemma ModulationTightens(base: u64, trustF: u64, dangerF: u64)
    requires trustF <= 1000 && dangerF <= 1000
    ensures ModulateThreshold(base, trustF, dangerF) <= base
    ensures base <= U64_MAX / 1000 ==>
      ModulateThreshold(base, trustF, dangerF) == base * trustF / 1000 * dangerF / 1000
  {
    StepNeverWraps(base, trustF);
    StepNeverWraps(ModulateStep(base, trustF), dangerF);
  }
}
