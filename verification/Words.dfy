// Bytes and 32-bit words, as the message framing and the handles use them (little-endian).
module Words {
  const WORD := 0x1_0000_0000
  type Byte = b: int | 0 <= b < 256
  type U32 = x: int | 0 <= x < 0x1_0000_0000
  type Bytes = seq<Byte>

  function Low32(x: int): U32 {
    x % WORD
  }

  function Low8(x: int): Byte {
    x % 256
  }

  function Bytes32(x: U32): (b: seq<Byte>)
    ensures |b| == 4
  {
    [x % 256, x / 0x100 % 256, x / 0x1_0000 % 256, x / 0x100_0000]
  }

  function Word32(b: seq<Byte>): U32
    requires |b| == 4
  {
    b[0] as int + 0x100 * b[1] as int + 0x1_0000 * b[2] as int + 0x100_0000 * b[3] as int
  }

  lemma WordRoundTrip(x: U32)
    ensures Word32(Bytes32(x)) == x
  {
    assert x / 0x1_0000 == x / 0x100 / 0x100;
    assert x / 0x100_0000 == x / 0x1_0000 / 0x100;
  }
}
