/** Fixed-width unsigned integers and their little-endian byte images. */
module Words {

  const TWO_16 := 0x1_0000
  const TWO_32 := 0x1_0000_0000

  type u8 = x: int | 0 <= x < 0x100
  type u16 = x: int | 0 <= x < 0x1_0000
  type u32 = x: int | 0 <= x < 0x1_0000_0000

  datatype Option<+T> = None | Some(value: T)

  /** UINT16_TOARRAY */
  function Bytes16(x: u16): (b: seq<u8>)
    ensures |b| == 2
  {
    [x % 0x100, x / 0x100]
  }

  /** UINT32_TOARRAY, and the memory image of a uint32_t on the little-endian hosts served. */
  function Bytes32(x: u32): (b: seq<u8>)
    ensures |b| == 4
  {
    [x % 0x100, x / 0x100 % 0x100, x / 0x1_0000 % 0x100, x / 0x100_0000]
  }

  function Word16(b: seq<u8>): u16
    requires |b| == 2
  {
    (b[0] as int) + 0x100 * (b[1] as int)
  }

  function Word32(b: seq<u8>): u32
    requires |b| == 4
  {
    (b[0] as int) + 0x100 * (b[1] as int) + 0x1_0000 * (b[2] as int) + 0x100_0000 * (b[3] as int)
  }

  /** The low byte comes first. */
  lemma LowByteFirst(x: u32)
    ensures var b := Bytes32(x);
            x == (b[0] as int) + (b[1] as int) * 0x100 + (b[2] as int) * 0x1_0000 + (b[3] as int) * 0x100_0000
    ensures x < TWO_16 ==> var b := Bytes16(x); x == (b[0] as int) + (b[1] as int) * 0x100
  {
    var q1, q2 := x / 0x100, x / 0x1_0000;
    assert q1 / 0x100 == q2 && q2 / 0x100 == x / 0x100_0000;
  }

  lemma Word16OfBytes(x: u16)
    ensures Word16(Bytes16(x)) == x
  {
  }

  lemma Word32OfBytes(x: u32)
    ensures Word32(Bytes32(x)) == x
  {
    var q1, q2 := x / 0x100, x / 0x1_0000;
    assert q1 / 0x100 == q2 && q2 / 0x100 == x / 0x100_0000;
  }

  /** uint32_t addition, subtraction and multiplication. */
  function Add32(a: u32, b: u32): u32 { (a + b) % TWO_32 }
  function Sub32(a: u32, b: u32): u32 { (a - b) % TWO_32 }
  function Mul32(a: u32, b: u32): u32 { a * b % TWO_32 }

  function Zeros(n: nat): (z: seq<u8>)
    ensures |z| == n && forall i :: 0 <= i < n ==> z[i] == 0
  {
    seq(n, _ => 0)
  }

  /** Ceiling division, the C idiom `(a + b - 1) / b`. */
  function CeilDiv(a: nat, b: int): (q: nat)
    requires b > 0
    ensures (q - 1) * b < a <= q * b
  {
    (a + b - 1) / b
  }
}
