/** The big-endian `struct` formats the core packs and unpacks:
    'B' (u8), 'H' (u16), 'h' (i16, two's complement), 'I' (u32). */
module BigEndian {
  import opened Scc1Types

  predicate IsU16(n: int) { 0 <= n < 0x1_0000 }

  predicate IsI16(n: int) { -0x8000 <= n < 0x8000 }

  /** struct.pack('>H', n) for an in-range n. */
  function U16(n: int): (b: Bytes)
    requires IsU16(n)
    ensures |b| == 2 && b[0] as int * 0x100 + b[1] == n
  {
    [n / 0x100, n % 0x100]
  }

  /** struct.unpack('>H', b)[0]: the inverse of U16. */
  function ReadU16(b: Bytes): (n: int)
    requires |b| == 2
    ensures IsU16(n) && U16(n) == b
  {
    b[0] as int * 0x100 + b[1]
  }

  /** struct.pack('>h', n) for an in-range n: the two's-complement bit pattern. */
  function I16(n: int): (b: Bytes)
    requires IsI16(n)
    ensures |b| == 2
    ensures ReadU16(b) == if n < 0 then n + 0x1_0000 else n
  {
    U16(if n < 0 then n + 0x1_0000 else n)
  }

  /** struct.unpack('>h', b)[0]. */
  function ReadI16(b: Bytes): (n: int)
    requires |b| == 2
    ensures IsI16(n)
    ensures n < 0 <==> b[0] >= 0x80
  {
    var u := ReadU16(b);
    if u >= 0x8000 then u - 0x1_0000 else u
  }

  /** struct.pack('>I', n) for an in-range n: the high half, then the low half. */
  function U32(n: int): (b: Bytes)
    requires 0 <= n < 0x1_0000_0000
    ensures |b| == 4
    ensures ReadU16(b[..2]) * 0x1_0000 + ReadU16(b[2..]) == n
  {
    var b := U16(n / 0x1_0000) + U16(n % 0x1_0000);
    assert b[..2] == U16(n / 0x1_0000) && b[2..] == U16(n % 0x1_0000);
    b
  }

  /** struct.unpack('>I', b)[0]: the inverse of U32. */
  function ReadU32(b: Bytes): (n: int)
    requires |b| == 4
    ensures 0 <= n < 0x1_0000_0000 && U32(n) == b
  {
    var hi := ReadU16(b[..2]);
    var lo := ReadU16(b[2..]);
    assert b == U16(hi) + U16(lo);
    HalvesOfU32(hi, lo);
    hi * 0x1_0000 + lo
  }

  /** The two 16-bit halves of a u32 are its quotient and remainder by 2^16. */
  lemma HalvesOfU32(hi: int, lo: int)
    requires IsU16(hi) && IsU16(lo)
    ensures 0 <= hi * 0x1_0000 + lo < 0x1_0000_0000
    ensures (hi * 0x1_0000 + lo) / 0x1_0000 == hi && (hi * 0x1_0000 + lo) % 0x1_0000 == lo
  {
  }

  /** struct.pack('>H', n) including its failure on an out-of-range n. */
  function PackU16(n: int): (r: Result<Bytes>)
    ensures r.Ok? <==> IsU16(n)
    ensures r.Ok? ==> |r.value| == 2 && ReadU16(r.value) == n
    ensures r.Err? ==> r.error == StructError
  {
    if IsU16(n) then Ok(U16(n)) else Err(StructError)
  }

  /** struct.pack('>h', n) including its failure on an out-of-range n. */
  function PackI16(n: int): (r: Result<Bytes>)
    ensures r.Ok? <==> IsI16(n)
    ensures r.Ok? ==> |r.value| == 2 && ReadI16(r.value) == n
    ensures r.Err? ==> r.error == StructError
  {
    if IsI16(n) then Ok(I16(n)) else Err(StructError)
  }

  /** struct.pack('>' + 'h' * |vs|, *vs). */
  function I16s(vs: seq<int>): (b: Bytes)
    requires forall i :: 0 <= i < |vs| ==> IsI16(vs[i])
    ensures |b| == 2 * |vs|
  {
    if vs == [] then [] else I16(vs[0]) + I16s(vs[1..])
  }

  /** struct.unpack('>' + 'h' * (|b| / 2), b): one i16 per two bytes, in order. */
  function ReadI16s(b: Bytes): (vs: seq<int>)
    requires |b| % 2 == 0
    ensures |vs| == |b| / 2
    ensures forall i :: 0 <= i < |vs| ==> vs[i] == ReadI16(b[2 * i..2 * i + 2])
    decreases |b|
  {
    if b == [] then []
    else
      var rest := ReadI16s(b[2..]);
      forall i | 1 <= i <= |rest|
        ensures b[2 * i..2 * i + 2] == b[2..][2 * (i - 1)..2 * (i - 1) + 2]
      {
        assert b[2..][2 * (i - 1)..2 * (i - 1) + 2] == [b[2 * i], b[2 * i + 1]];
      }
      [ReadI16(b[..2])] + rest
  }

  /** Decoding what I16s encodes gives the values back. */
  lemma {:induction false} ReadI16sOfI16s(vs: seq<int>)
    requires forall i :: 0 <= i < |vs| ==> IsI16(vs[i])
    ensures ReadI16s(I16s(vs)) == vs
  {
    if vs != [] {
      var b := I16s(vs);
      ReadI16sOfI16s(vs[1..]);
      assert b[..2] == I16(vs[0]);
      assert b[2..] == I16s(vs[1..]);
      I16RoundTrip(vs[0]);
    }
  }

  /** ReadI16 inverts I16 on every i16 value. */
  lemma I16RoundTrip(n: int)
    requires IsI16(n)
    ensures ReadI16(I16(n)) == n
  {
  }

  /** I16 inverts ReadI16 on every two-byte sequence. */
  lemma ReadI16RoundTrip(b: Bytes)
    requires |b| == 2
    ensures I16(ReadI16(b)) == b
  {
  }
}
