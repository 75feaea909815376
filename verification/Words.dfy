/** Fixed-width integers as the source uses them, with its saturating operators. */
module Words {

  const U32_MAX := 0xffff_ffff
  const U64_MAX := 0xffff_ffff_ffff_ffff
  const NS_PER_S := 1_000_000_000

  type u8 = x: int | 0 <= x < 0x100
  type u16 = x: int | 0 <= x < 0x1_0000
  type u32 = x: int | 0 <= x <= U32_MAX
  type u64 = x: int | 0 <= x <= U64_MAX

  datatype Option<+T> = None | Some(value: T)

  datatype Result<+T, +E> = Ok(value: T) | Err(error: E)

  function Min(a: int, b: int): int { if a <= b then a else b }

  function Max(a: int, b: int): int { if a >= b then a else b }

  function SatAdd(a: u64, b: u64): u64 { Min(a + b, U64_MAX) }

  function SatSub(a: u64, b: u64): u64 { Max(a - b, 0) }

  function SatMul(a: u64, b: u64): (r: u64)
    ensures r == Min(a * b, U64_MAX)
  {
    assert 0 <= a * b;
    Min(a * b, U64_MAX)
  }

  /** Milliseconds to nanoseconds with the overflow guard of the data plane. */
  function MsToNs(ms: u64): (ns: u64)
    ensures ns == 0 <==> ms == 0
    ensures ms * 1_000_000 <= U64_MAX ==> ns == ms * 1_000_000
  {
    if ms > U64_MAX / 1_000_000 then U64_MAX else ms * 1_000_000 % (U64_MAX + 1)
  }

  /** A number in decimal. */
  function Decimal(n: nat): string
  {
    var digit := ['0' + (n % 10) as char];
    if n < 10 then digit else Decimal(n / 10) + digit
  }

  /** An address key. The all-zero padding of the C layout takes part in equality. */
  type Addr = s: seq<u8> | |s| == 16 witness seq(16, _ => 0)
  datatype IpKey = IpKey(family: u8, addr: Addr, padding: seq<u8>)
}
