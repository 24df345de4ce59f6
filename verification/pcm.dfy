/** Linear PCM at 16 kHz, mono, 16-bit signed little-endian: the wire format of every
    `pcm_16000` chunk and of every captured frame. */
module Pcm {
  import opened Results

  type Byte = b: int | 0 <= b < 256
  type Int16 = v: int | -32768 <= v < 32768

  const SampleRate: nat := 16000

  /** The unsigned 16-bit word that a little-endian pair of bytes holds. */
  function Word(lo: Byte, hi: Byte): int {
    lo as int + 256 * hi as int
  }

  /** The unsigned word whose two's-complement reading is `v`. */
  function Unsigned(v: Int16): int {
    (v as int + 65536) % 65536
  }

  /** The int16 that a little-endian pair of bytes holds (two's complement). */
  function ReadInt16LE(lo: Byte, hi: Byte): (v: Int16)
    ensures Unsigned(v) == Word(lo, hi)
    ensures v < 0 <==> hi >= 128
  {
    var u := lo + 256 * hi;
    if u >= 32768 then u - 65536 else u
  }

  /** The two bytes, low byte first, that hold `v` in two's complement. */
  function Int16LEBytes(v: Int16): (bs: seq<Byte>)
    ensures |bs| == 2
    ensures Word(bs[0], bs[1]) == Unsigned(v)
  {
    var u := if v < 0 then v + 65536 else v;
    [u % 256, u / 256]
  }

  /** Writing a value and reading it back recovers it. */
  lemma ReadWriteInt16(v: Int16)
    ensures ReadInt16LE(Int16LEBytes(v)[0], Int16LEBytes(v)[1]) == v
  {
  }

  /** A byte pair that holds `v` reads back as `v`. */
  lemma ReadPair(lo: Byte, hi: Byte, v: Int16)
    requires [lo, hi] == Int16LEBytes(v)
    ensures ReadInt16LE(lo, hi) == v
  {
    ReadWriteInt16(v);
  }

  /** Reading a byte pair and writing the value back recovers the bytes, so the two
      encodings are a bijection between byte pairs and int16 values. */
  lemma WriteReadInt16(lo: Byte, hi: Byte)
    ensures Int16LEBytes(ReadInt16LE(lo, hi)) == [lo, hi]
  {
    var u := Word(lo, hi);
    var v := ReadInt16LE(lo, hi);
    assert (if v < 0 then v + 65536 else v as int) == u;
    assert u % 256 == lo as int && u / 256 == hi as int;
  }

  /** `new Int16Array(bytes.buffer)`: the buffer viewed as int16 values, which the
      typed-array constructor refuses (a RangeError) when the byte length is odd. */
  function Int16View(bytes: seq<Byte>): (r: Option<seq<Int16>>)
    ensures r.Some? <==> |bytes| % 2 == 0
    ensures r.Some? ==> |r.value| == |bytes| / 2
    ensures r.Some? ==> forall i :: 0 <= i < |r.value| ==>
              r.value[i] == ReadInt16LE(bytes[2 * i], bytes[2 * i + 1])
  {
    if |bytes| % 2 != 0 then None
    else Some(seq(|bytes| / 2, i requires 0 <= i < |bytes| / 2 => ReadInt16LE(bytes[2 * i], bytes[2 * i + 1])))
  }

  /** An `Int16Array` written out as the bytes of its buffer. */
  function PackInt16LE(vs: seq<Int16>): (bytes: seq<Byte>)
    ensures |bytes| == 2 * |vs|
    ensures forall i :: 0 <= i < |vs| ==> bytes[2 * i..2 * i + 2] == Int16LEBytes(vs[i])
  {
    if |vs| == 0 then [] else Int16LEBytes(vs[0]) + PackInt16LE(vs[1..])
  }

  /** Reading packed values back through the int16 view recovers exactly those values:
      what the recorder sends is what a player of `pcm_16000` would decode. */
  lemma ViewOfPacked(vs: seq<Int16>)
    ensures Int16View(PackInt16LE(vs)) == Some(vs)
  {
    var bytes := PackInt16LE(vs);
    assert |bytes| == 2 * |vs|;
    assert |bytes| % 2 == 0 && |bytes| / 2 == |vs|;
    var view := Int16View(bytes);
    var values := view.value;
    assert |values| == |vs|;
    forall i | 0 <= i < |vs|
      ensures values[i] == vs[i]
    {
      var pair := bytes[2 * i..2 * i + 2];
      assert pair == Int16LEBytes(vs[i]);
      assert [bytes[2 * i], bytes[2 * i + 1]] == pair;
      ReadPair(bytes[2 * i], bytes[2 * i + 1], vs[i]);
    }
    assert values == vs;
  }
}
