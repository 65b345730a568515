/**
 * The deobfuscator's CONSTANT_Integer_info pool entry (section 4.4.4 of
 * the Java Virtual Machine Specification): one signed 32-bit value stored
 * big-endian in four bytes.
 */
module PoolInteger {
  import opened Wrappers
  import opened JavaInt
  import opened ByteIo

  datatype IntegerEntry = IntegerEntry(value: Int32)

  /** The stream constructor: `readInt`. */
  function Read(s: seq<Byte>, pos: nat): (r: Option<(IntegerEntry, nat)>)
    ensures r.Some? <==> pos + 4 <= |s|
    ensures r.Some? ==> r.value.1 == pos + 4
  {
    match ReadS32(s, pos)
    case None => None
    case Some((v, p)) => Some((IntegerEntry(v), p))
  }

  /** `write`: `writeInt(value)`. */
  function Write(e: IntegerEntry): (r: seq<Byte>)
    ensures |r| == 4
  {
    S32Bytes(e.value)
  }

  /** `getObject`: the boxed value. */
  function GetObject(e: IntegerEntry): Int32
  {
    e.value
  }

  /** `equals(other)`: `other` is None when it is not an Integer entry. */
  predicate Equals(self: IntegerEntry, other: Option<IntegerEntry>)
  {
    other.Some? && self.value == other.value.value
  }

  /** Reading back what `write` emitted gives the same entry. */
  lemma ReadOfWrite(e: IntegerEntry, rest: seq<Byte>)
    ensures Read(Write(e) + rest, 0) == Some((e, 4))
  {
    S32RoundTrip(e.value, rest);
  }

  /** Writing an entry read from the stream reproduces the four bytes it came from. */
  lemma WriteOfRead(s: seq<Byte>, pos: nat)
    requires pos + 4 <= |s|
    ensures Write(Read(s, pos).value.0) == s[pos..pos + 4]
  {
    S32BytesOfRead(s, pos);
  }

  /** The value constructor stores its argument, which `getObject` returns and the stream carries unchanged. */
  lemma ValueConstructor(i: Int32)
    ensures GetObject(IntegerEntry(i)) == i
    ensures Read(Write(IntegerEntry(i)), 0) == Some((IntegerEntry(i), 4))
  {
    ReadOfWrite(IntegerEntry(i), []);
    assert Write(IntegerEntry(i)) + [] == Write(IntegerEntry(i));
  }

  /** Entries that are `equals` write the same bytes, and entries that write the same bytes are `equals`. */
  lemma EqualsIffSameBytes(a: IntegerEntry, b: IntegerEntry)
    ensures Equals(a, Some(b)) <==> Write(a) == Write(b)
  {
    if Write(a) == Write(b) {
      ReadOfWrite(a, []);
      ReadOfWrite(b, []);
      assert Write(a) + [] == Write(b) + [];
    }
  }
}
