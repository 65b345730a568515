/**
 * Big-endian reads and writes of `java.io.DataInputStream` /
 * `DataOutputStream`: `readUnsignedShort`, `writeShort`, `readInt`,
 * `writeInt`.  A read past the end of the input is `EOFException`, here
 * `None`.
 */
module ByteIo {
  import opened Wrappers
  import opened JavaInt

  type Byte = x: int | 0 <= x < 256
  type U16 = x: int | 0 <= x < 0x1_0000

  /** `writeShort(v)`: the low 16 bits of `v`, high byte first. */
  function U16Bytes(v: int): (r: seq<Byte>)
    ensures |r| == 2
  {
    var u := v % 0x1_0000;
    [u / 256, u % 256]
  }

  /** `readUnsignedShort()` at `pos`: the value and the position after it. */
  function ReadU16(s: seq<Byte>, pos: nat): (r: Option<(U16, nat)>)
    ensures r.Some? <==> pos + 2 <= |s|
    ensures r.Some? ==> r.value.1 == pos + 2
  {
    if pos + 2 <= |s| then Some(((s[pos] as int) * 256 + s[pos + 1], pos + 2)) else None
  }

  /** `readUnsignedShort` gives back what `writeShort` wrote, whatever follows it. */
  lemma U16RoundTrip(v: U16, rest: seq<Byte>)
    ensures ReadU16(U16Bytes(v) + rest, 0) == Some((v, 2))
  {
    assert v == (v / 256) * 256 + v % 256;
  }

  /** Writing the value read reproduces the two bytes read. */
  lemma U16BytesOfRead(s: seq<Byte>, pos: nat)
    requires pos + 2 <= |s|
    ensures U16Bytes(ReadU16(s, pos).value.0) == s[pos..pos + 2]
  {
    var hi: int, lo: int := s[pos], s[pos + 1];
    var v := hi * 256 + lo;
    DivUnique(v, 0x1_0000, 0, v);
    DivUnique(v, 256, hi, lo);
    assert U16Bytes(v) == [hi, lo];
  }

  /** `writeInt(v)`: the two's-complement bits of `v`, high byte first. */
  function S32Bytes(v: Int32): (r: seq<Byte>)
    ensures |r| == 4
  {
    var u: nat := if v >= 0 then v else v + TWO_32;
    var q1 := u / 256;
    var q2 := q1 / 256;
    var q3 := q2 / 256;
    [q3 % 256, q2 % 256, q1 % 256, u % 256]
  }

  /** The value of four bytes, high byte first, read as a signed 32-bit int. */
  function FromS32Bytes(b0: Byte, b1: Byte, b2: Byte, b3: Byte): (r: Int32)
  {
    var u := (((b0 as int) * 256 + b1) * 256 + b2) * 256 + b3;
    if u < 0x8000_0000 then u else u - TWO_32
  }

  /** `readInt()` at `pos`: the value and the position after it. */
  function ReadS32(s: seq<Byte>, pos: nat): (r: Option<(Int32, nat)>)
    ensures r.Some? <==> pos + 4 <= |s|
    ensures r.Some? ==> r.value.1 == pos + 4
  {
    if pos + 4 <= |s| then Some((FromS32Bytes(s[pos], s[pos + 1], s[pos + 2], s[pos + 3]), pos + 4))
    else None
  }

  /** `readInt` gives back what `writeInt` wrote, whatever follows it. */
  lemma S32RoundTrip(v: Int32, rest: seq<Byte>)
    ensures ReadS32(S32Bytes(v) + rest, 0) == Some((v, 4))
  {
    var b := S32Bytes(v);
    S32BytesValue(v);
    var s := b + rest;
    assert s[0] == b[0] && s[1] == b[1] && s[2] == b[2] && s[3] == b[3];
  }

  /** The four bytes `writeInt` produces read back as the value written. */
  lemma S32BytesValue(v: Int32)
    ensures var b := S32Bytes(v); FromS32Bytes(b[0], b[1], b[2], b[3]) == v
  {
    var u: nat := if v >= 0 then v else v + TWO_32;
    var q1 := u / 256;
    var q2 := q1 / 256;
    var q3 := q2 / 256;
    DivDivBound(u);
    DivUnique(q3, 256, 0, q3);
    Recompose(u, q1, q2, q3, u % 256, q1 % 256, q2 % 256);
  }

  /** Three steps of division by 256, undone. */
  lemma Recompose(u: int, q1: int, q2: int, q3: int, r0: int, r1: int, r2: int)
    requires u == q1 * 256 + r0 && q1 == q2 * 256 + r1 && q2 == q3 * 256 + r2
    ensures u == ((q3 * 256 + r2) * 256 + r1) * 256 + r0
  {}

  /** The top byte of a 32-bit value is below 256. */
  lemma DivDivBound(u: nat)
    requires u < TWO_32
    ensures ((u / 256) / 256) / 256 < 256
  {
    assert u / 256 < 0x100_0000;
    assert (u / 256) / 256 < 0x1_0000;
  }

  /** Writing the value `readInt` read reproduces the four bytes read. */
  lemma S32BytesOfRead(s: seq<Byte>, pos: nat)
    requires pos + 4 <= |s|
    ensures S32Bytes(ReadS32(s, pos).value.0) == s[pos..pos + 4]
  {
    var b0: int, b1: int, b2: int, b3: int := s[pos], s[pos + 1], s[pos + 2], s[pos + 3];
    var q2 := b0 * 256 + b1;
    var q1 := q2 * 256 + b2;
    var u := q1 * 256 + b3;
    var v := FromS32Bytes(b0, b1, b2, b3);
    assert (if v >= 0 then v else v + TWO_32) == u;
    DivUnique(u, 256, q1, b3);
    DivUnique(q1, 256, q2, b2);
    DivUnique(q2, 256, b0, b1);
    assert b0 % 256 == b0;
  }
}
