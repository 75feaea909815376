/**
 The Internet checksum (section 1 of RFC 1071) and its TCP form with the pseudo
 header (section 3.1 of RFC 9293), over a 32-bit accumulator that wraps.
 */
module Checksum {
  import opened Words

  const WRAP32 := U32_MAX + 1
  const MAX_BYTES := 131074
  const MAX_SEGMENT := 65535

  function Word(hi: u8, lo: u8): u16 { hi * 256 + lo }

  /** The plain sum of big-endian 16-bit words; an odd last byte is the high half of a word. */
  function WordSum(data: seq<u8>): (s: nat)
    ensures s <= 65535 * ((|data| + 1) / 2)
  {
    if |data| == 0 then 0
    else if |data| == 1 then Word(data[0], 0)
    else Word(data[0], data[1]) + WordSum(data[2..])
  }

  /** The one's complement value of a sum: its residue modulo 65535, with 0 only for 0. */
  function Residue(n: nat): (r: nat)
    ensures r <= 65535
  {
    if n == 0 then 0 else (n - 1) % 65535 + 1
  }

  /** The accumulation loop shared by both checksums, from an initial sum. */
  method Accumulate(data: seq<u8>, start: u32) returns (sum: u32)
    ensures start + WordSum(data) < WRAP32 ==> sum == start + WordSum(data)
  {
    sum := start;
    var i := 0;
    assert data[0..] == data;
    while i + 1 < |data|
      invariant 0 <= i <= |data|
      invariant start + WordSum(data) < WRAP32 ==> sum + WordSum(data[i..]) == start + WordSum(data)
    {
      var word := Word(data[i], data[i + 1]);
      NextWord(data, i);
      if start + WordSum(data) < WRAP32 { Fits(sum + word, start + WordSum(data)); }
      sum := (sum + word) % WRAP32;
      i := i + 2;
    }
    if i < |data| {
      LastByte(data, i);
      if start + WordSum(data) < WRAP32 { Fits(sum + Word(data[i], 0), start + WordSum(data)); }
      sum := (sum + Word(data[i], 0)) % WRAP32;
    }
  }

  lemma NextWord(data: seq<u8>, i: nat)
    requires i + 1 < |data|
    ensures WordSum(data[i..]) == Word(data[i], data[i + 1]) + WordSum(data[i + 2..])
  {
    assert data[i..][2..] == data[i + 2..];
  }

  lemma LastByte(data: seq<u8>, i: nat)
    requires i + 1 == |data|
    ensures WordSum(data[i..]) == Word(data[i], 0)
  {
  }

  lemma Fits(a: nat, bound: nat)
    requires a <= bound < WRAP32
    ensures a % WRAP32 == a
  {
  }

  /** At most four folds of the carry; two are always enough. */
  method FoldCarries(total: u32) returns (sum: u32)
    ensures sum == Residue(total)
  {
    sum := total;
    var n := 0;
    while n < 4
      invariant 0 <= n <= 4
      invariant Residue(sum) == Residue(total)
      invariant n >= 1 ==> sum <= 0x1_fffe
      invariant n >= 2 ==> sum <= 0xffff
    {
      if sum / 0x1_0000 == 0 {
        break;
      }
      FoldKeepsResidue(sum);
      sum := sum % 0x1_0000 + sum / 0x1_0000;
      n := n + 1;
    }
    SmallResidue(sum);
  }

  lemma FoldKeepsResidue(s: nat)
    ensures Residue(s % 0x1_0000 + s / 0x1_0000) == Residue(s)
  {
    var hi, lo := s / 0x1_0000, s % 0x1_0000;
    assert s == hi * 0x1_0000 + lo;
    if s > 0 {
      assert s - 1 == hi * 65535 + (hi + lo - 1);
      AddMultiple(hi + lo - 1, hi);
    }
  }

  lemma AddMultiple(a: nat, k: nat)
    ensures (k * 65535 + a) % 65535 == a % 65535
  {
  }

  lemma SmallResidue(s: nat)
    requires s <= 65535
    ensures Residue(s) == s
  {
  }

  method Compute(data: seq<u8>) returns (c: u16)
    ensures |data| <= MAX_BYTES ==> c == 65535 - Residue(WordSum(data))
  {
    var sum := Accumulate(data, 0);
    sum := FoldCarries(sum);
    c := 65535 - sum;
    if |data| <= MAX_BYTES {
      NoOverflow(data);
    }
  }

  lemma NoOverflow(data: seq<u8>)
    requires |data| <= MAX_BYTES
    ensures WordSum(data) < WRAP32
  {
    BoundedSum(WordSum(data), (|data| + 1) / 2);
  }

  lemma BoundedSum(sum: nat, words: nat)
    requires words <= 65537 && sum <= 65535 * words
    ensures sum < WRAP32
  {
  }

  function Hi(x: u32): u16 { x / 0x1_0000 }
  function Lo(x: u32): u16 { x % 0x1_0000 }

  function PseudoSum(saddr: u32, daddr: u32, proto: u8, len: nat): (s: nat)
    ensures s <= 4 * 65535 + 255 + len
  {
    Hi(saddr) + Lo(saddr) + Hi(daddr) + Lo(daddr) + proto + len
  }

  method PseudoHeader(saddr: u32, daddr: u32, proto: u8, len: nat) returns (sum: u32)
    ensures len <= MAX_SEGMENT ==> sum == PseudoSum(saddr, daddr, proto, len)
  {
    sum := Hi(saddr);
    sum := sum + Lo(saddr);
    sum := sum + Hi(daddr);
    sum := sum + Lo(daddr);
    sum := sum + proto;
    if len <= MAX_SEGMENT {
      Fits(len, MAX_SEGMENT);
      Fits(sum + len, 4 * 65535 + 255 + MAX_SEGMENT);
    }
    sum := (sum + len % WRAP32) % WRAP32;
  }

  method TcpChecksum(saddr: u32, daddr: u32, proto: u8, data: seq<u8>) returns (c: u16)
    ensures |data| <= MAX_SEGMENT ==> c == 65535 - Residue(PseudoSum(saddr, daddr, proto, |data|) + WordSum(data))
  {
    var start := PseudoHeader(saddr, daddr, proto, |data|);
    var total := Accumulate(data, start);
    if |data| <= MAX_SEGMENT {
      BoundedTcp(PseudoSum(saddr, daddr, proto, |data|), WordSum(data), (|data| + 1) / 2);
    }
    var sum := FoldCarries(total);
    c := 65535 - sum;
  }

  lemma BoundedTcp(pseudo: nat, sum: nat, words: nat)
    requires pseudo <= 4 * 65535 + 255 + MAX_SEGMENT && words <= 32768 && sum <= 65535 * words
    ensures pseudo + sum < WRAP32
  {
  }

  // ----- The law a receiver relies on -----

  function Stored(data: seq<u8>, at: nat, c: u16): seq<u8>
    requires at + 1 < |data|
  {
    data[at := c / 256][at + 1 := c % 256]
  }

  lemma {:induction false} StoringAdds(data: seq<u8>, at: nat, c: u16)
    requires at + 1 < |data| && at % 2 == 0 && data[at] == 0 && data[at + 1] == 0
    ensures WordSum(Stored(data, at, c)) == WordSum(data) + c
  {
    var d := Stored(data, at, c);
    if at == 0 {
      assert d[2..] == data[2..];
    } else {
      StoringAdds(data[2..], at - 2, c);
      assert d[2..] == Stored(data[2..], at - 2, c);
    }
  }

  lemma ComplementCompletes(n: nat)
    ensures Residue(n + 65535 - Residue(n)) == 65535
  {
    if n > 0 {
      var q := (n - 1) / 65535;
      assert n - 1 == q * 65535 + (n - 1) % 65535;
      assert n + 65535 - Residue(n) - 1 == q * 65535 + 65534;
      AddMultiple(65534, q);
    }
  }

  /** Storing the checksum in its zeroed field makes the checksum of the whole buffer 0. */
  lemma StoredChecksumVerifies(data: seq<u8>, at: nat, pseudo: nat)
    requires at + 1 < |data| && at % 2 == 0 && data[at] == 0 && data[at + 1] == 0
    ensures var c := 65535 - Residue(pseudo + WordSum(data));
            65535 - Residue(pseudo + WordSum(Stored(data, at, c))) == 0
  {
    StoringAdds(data, at, 65535 - Residue(pseudo + WordSum(data)));
    ComplementCompletes(pseudo + WordSum(data));
  }

  /** The same, for the methods themselves: compute, store, compute again. */
  method ComputeTwice(data: seq<u8>, at: nat) returns (again: u16)
    requires at + 1 < |data| <= MAX_BYTES && at % 2 == 0 && data[at] == 0 && data[at + 1] == 0
    ensures again == 0
  {
    StoredChecksumVerifies(data, at, 0);
    var c := Compute(data);
    var sent := Stored(data, at, c);
    assert |sent| == |data|;
    again := Compute(sent);
  }

  method TcpTwice(saddr: u32, daddr: u32, proto: u8, data: seq<u8>, at: nat) returns (again: u16)
    requires at + 1 < |data| <= MAX_SEGMENT && at % 2 == 0 && data[at] == 0 && data[at + 1] == 0
    ensures again == 0
  {
    StoredChecksumVerifies(data, at, PseudoSum(saddr, daddr, proto, |data|));
    var c := TcpChecksum(saddr, daddr, proto, data);
    var sent := Stored(data, at, c);
    assert |sent| == |data|;
    again := TcpChecksum(saddr, daddr, proto, sent);
  }

  lemma {:induction false} AllOnes(data: seq<u8>, words: nat)
    requires |data| == 2 * words && forall i :: 0 <= i < |data| ==> data[i] == 255
    ensures WordSum(data) == 65535 * words
  {
    if words > 0 { AllOnes(data[2..], words - 1); }
  }

  /** The length bound is exact: with one more word, a buffer of ones no longer fits the accumulator. */
  lemma LongerOverflowsIff(data: seq<u8>, words: nat)
    requires |data| == 2 * words && forall i :: 0 <= i < |data| ==> data[i] == 255
    ensures WordSum(data) < WRAP32 <==> |data| <= MAX_BYTES
  {
    AllOnes(data, words);
  }
}
