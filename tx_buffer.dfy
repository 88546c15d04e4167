/**
 * The LoRaWAN uplink transmit buffer `TxBuffer_t`: a fixed 32-byte array with
 * a write cursor, and the integer encoders that clamp a value to a range and
 * append it to the buffer most significant byte first.
 *
 * The pure part of this module says what the buffer holds (`Tx`, `PutByte`,
 * `PutBytes`) and what each encoder emits (`BigEndian` of a clamped value);
 * the class `TxBuffer` is the object the firmware mutates, and each of its
 * methods is proved to move the buffer from one `Tx` state to the next.
 */
module TxBuffers {
  import opened CatenaTypes

  /** `sizeof(buf)`: the largest message the buffer holds. */
  const Capacity: nat := 32

  /** The magic byte at the front of a sensor message. */
  const FormatSensor1: uint8 := 0x11

  /** Flags for the second byte of a sensor message: which fields follow. */
  const FlagVbat: uint8 := 1
  const FlagVcc: uint8 := 2
  const FlagTPH: uint8 := 4
  const FlagLux: uint8 := 8
  const FlagWater: uint8 := 16
  const FlagSoilTH: uint8 := 32

  const Flags: seq<uint8> := [FlagVbat, FlagVcc, FlagTPH, FlagLux, FlagWater, FlagSoilTH]

  function Pow2(k: nat): (r: nat)
    ensures r >= 1
  {
    if k == 0 then 1 else 2 * Pow2(k - 1)
  }

  /** Flag number i is bit i of the flags byte, so the flags are distinct bits of one byte. */
  lemma FlagsAreBits()
    ensures |Flags| == 6
    ensures forall i :: 0 <= i < |Flags| ==> Flags[i] == Pow2(i)
    ensures FlagVbat + FlagVcc + FlagTPH + FlagLux + FlagWater + FlagSoilTH == 0x3F
  {
  }

  // ---------------------------------------------------------------------
  // Byte encodings
  // ---------------------------------------------------------------------

  function Pow256(k: nat): (r: nat)
    ensures r >= 1
  {
    if k == 0 then 1 else 0x100 * Pow256(k - 1)
  }

  /** The k low-order bytes of v, most significant first. */
  function BigEndian(v: nat, k: nat): (r: seq<uint8>)
    ensures |r| == k
  {
    if k == 0 then [] else BigEndian(v / 0x100, k - 1) + [v % 0x100]
  }

  /** The value of a big-endian byte string. */
  function FromBigEndian(s: seq<uint8>): (v: nat)
    ensures v < Pow256(|s|)
  {
    if s == [] then 0
    else
      var hi := FromBigEndian(s[..|s| - 1]);
      Pow256Step(hi, s[|s| - 1], |s| - 1);
      hi * 0x100 + s[|s| - 1]
  }

  lemma Pow256Step(hi: nat, b: uint8, k: nat)
    requires hi < Pow256(k)
    ensures hi * 0x100 + b < Pow256(k + 1)
  {
  }

  /** Decoding the k-byte encoding of a value that fits in k bytes gives the value back. */
  lemma {:induction false} BigEndianRoundTrip(v: nat, k: nat)
    requires v < Pow256(k)
    ensures FromBigEndian(BigEndian(v, k)) == v
  {
    if k > 0 {
      var s := BigEndian(v, k);
      assert s[..k - 1] == BigEndian(v / 0x100, k - 1);
      BigEndianRoundTrip(v / 0x100, k - 1);
    }
  }

  /** Encoding the value of a byte string at its own length gives the string back. */
  lemma {:induction false} FromBigEndianRoundTrip(s: seq<uint8>)
    ensures BigEndian(FromBigEndian(s), |s|) == s
  {
    if s != [] {
      var k := |s| - 1;
      var hi := FromBigEndian(s[..k]);
      var v := hi * 0x100 + s[k];
      assert v / 0x100 == hi && v % 0x100 == s[k];
      FromBigEndianRoundTrip(s[..k]);
      assert s == s[..k] + [s[k]];
    }
  }

  /** `v` limited to the range [lo, hi], as the encoders' if/else-if chains do. */
  function Clamp(v: int, lo: int, hi: int): (r: int)
    requires lo <= hi
    ensures lo <= r <= hi
    ensures lo <= v <= hi ==> r == v
    ensures v < lo ==> r == lo
    ensures v > hi ==> r == hi
  {
    if v < lo then lo else if v > hi then hi else v
  }

  /** The byte `put1u(v)` emits. */
  function Put1uBytes(v: int32): (bs: seq<uint8>)
    ensures |bs| == 1
  {
    [Clamp(v, 0, 0xFF)]
  }

  /** The bytes `put2(uint32_t v)` emits. */
  function Put2Bytes(v: uint32): (bs: seq<uint8>)
    ensures |bs| == 2
  {
    BigEndian(Min(v, 0xFFFF), 2)
  }

  /** The bytes `put2(int32_t v)` emits: clamp, cast to `uint32_t`, then `put2(uint32_t)`. */
  function Put2SignedBytes(v: int32): (bs: seq<uint8>)
    ensures |bs| == 2
  {
    Put2Bytes(ToUint32(Clamp(v, -0x8000, 0x7FFF)))
  }

  /** The bytes `put2u(v)` emits. */
  function Put2uBytes(v: int32): (bs: seq<uint8>)
    ensures |bs| == 2
  {
    Put2Bytes(Clamp(v, 0, 0xFFFF))
  }

  /** The bytes `put3(uint32_t v)` emits. */
  function Put3Bytes(v: uint32): (bs: seq<uint8>)
    ensures |bs| == 3
  {
    BigEndian(Min(v, 0xFFFFFF), 3)
  }

  /** The bytes `put3(int32_t v)` emits: clamp, cast to `uint32_t`, then `put3(uint32_t)`. */
  function Put3SignedBytes(v: int32): (bs: seq<uint8>)
    ensures |bs| == 3
  {
    Put3Bytes(ToUint32(Clamp(v, -0x800000, 0x7FFFFF)))
  }

  lemma Put1uValue(v: int32)
    ensures |Put1uBytes(v)| == 1
    ensures FromBigEndian(Put1uBytes(v)) == (if v < 0 then 0 else if v > 0xFF then 0xFF else v)
  {
    assert Put1uBytes(v)[..0] == [];
  }

  /** put2(uint32_t) writes two bytes whose value is v saturated at 0xFFFF. */
  lemma Put2Value(v: uint32)
    ensures |Put2Bytes(v)| == 2
    ensures FromBigEndian(Put2Bytes(v)) == (if v > 0xFFFF then 0xFFFF else v)
  {
    BigEndianRoundTrip(Min(v, 0xFFFF), 2);
  }

  /** put3(uint32_t) writes three bytes whose value is v saturated at 0xFFFFFF. */
  lemma Put3Value(v: uint32)
    ensures |Put3Bytes(v)| == 3
    ensures FromBigEndian(Put3Bytes(v)) == (if v > 0xFFFFFF then 0xFFFFFF else v)
  {
    BigEndianRoundTrip(Min(v, 0xFFFFFF), 3);
  }

  /** put2u writes two bytes whose value is v clamped to [0, 0xFFFF]. */
  lemma Put2uValue(v: int32)
    ensures Put2uBytes(v) == Put2Bytes(if v < 0 then 0 else Min(v, 0xFFFF))
    ensures FromBigEndian(Put2uBytes(v)) == (if v < 0 then 0 else if v > 0xFFFF then 0xFFFF else v)
  {
    Put2Value(Clamp(v, 0, 0xFFFF));
  }

  /**
   * put2(int32_t): a non-negative value is written as itself saturated at
   * 0x7FFF; every negative value, after the cast to `uint32_t`, exceeds 0xFFFF
   * and is re-clamped by put2(uint32_t), so it is written as FF FF.
   */
  lemma Put2SignedValue(v: int32)
    ensures v >= 0 ==> Put2SignedBytes(v) == Put2Bytes(Min(v, 0x7FFF))
    ensures v < 0 ==> Put2SignedBytes(v) == [0xFF, 0xFF]
    ensures FromBigEndian(Put2SignedBytes(v)) == (if v < 0 then 0xFFFF else Min(v, 0x7FFF))
  {
    var w := ToUint32(Clamp(v, -0x8000, 0x7FFF));
    if v < 0 {
      assert w > 0xFFFF;
      assert BigEndian(0xFFFF, 2) == [0xFF, 0xFF];
    }
    Put2Value(w);
  }

  /**
   * put3(int32_t): a non-negative value is written as itself saturated at
   * 0x7FFFFF; every negative value is written as FF FF FF.
   */
  lemma Put3SignedValue(v: int32)
    ensures v >= 0 ==> Put3SignedBytes(v) == Put3Bytes(Min(v, 0x7FFFFF))
    ensures v < 0 ==> Put3SignedBytes(v) == [0xFF, 0xFF, 0xFF]
    ensures FromBigEndian(Put3SignedBytes(v)) == (if v < 0 then 0xFFFFFF else Min(v, 0x7FFFFF))
  {
    var w := ToUint32(Clamp(v, -0x800000, 0x7FFFFF));
    if v < 0 {
      assert w > 0xFFFFFF;
      assert BigEndian(0xFFFFFF, 3) == [0xFF, 0xFF, 0xFF];
    }
    Put3Value(w);
  }

  // ---------------------------------------------------------------------
  // The buffer as a value
  // ---------------------------------------------------------------------

  /** The two bytes of `put2`: `v >> 8` then `v & 0xFF`. */
  lemma BigEndian2(w: nat)
    ensures BigEndian(w, 2) == [(w / 0x100) % 0x100, w % 0x100]
  {
    var hi := BigEndian(w / 0x100, 1);
    assert hi == BigEndian(w / 0x100 / 0x100, 0) + [(w / 0x100) % 0x100];
  }

  /** The three bytes of `put3`: `v >> 16`, `(v >> 8) & 0xFF`, `v & 0xFF`. */
  lemma BigEndian3(w: nat)
    ensures BigEndian(w, 3) == [(w / 0x10000) % 0x100, (w / 0x100) % 0x100, w % 0x100]
  {
    assert w / 0x100 / 0x100 == w / 0x10000;
    BigEndian2(w / 0x100);
  }

  /** The whole state of a `TxBuffer_t`: the 32 bytes of `buf` and the count `p - buf`. */
  datatype Tx = Tx(data: seq<uint8>, n: nat)

  ghost predicate TxValid(t: Tx)
  {
    |t.data| == Capacity && t.n <= Capacity
  }

  /** `put(c)`: store c at the cursor and advance it, or drop c when the buffer is full. */
  function PutByte(t: Tx, c: uint8): (r: Tx)
    requires TxValid(t)
    ensures TxValid(r)
  {
    if t.n < Capacity then Tx(t.data[t.n := c], t.n + 1) else t
  }

  /** A sequence of `put` calls, one per byte, in order. */
  function PutBytes(t: Tx, bs: seq<uint8>): (r: Tx)
    requires TxValid(t)
    ensures TxValid(r)
    decreases |bs|
  {
    if bs == [] then t else PutBytes(PutByte(t, bs[0]), bs[1..])
  }

  lemma {:induction false} PutBytesAppend(t: Tx, bs: seq<uint8>, c: uint8)
    requires TxValid(t)
    ensures PutBytes(t, bs + [c]) == PutByte(PutBytes(t, bs), c)
    decreases |bs|
  {
    if bs == [] {
      assert [c][1..] == [];
    } else {
      assert (bs + [c])[0] == bs[0] && (bs + [c])[1..] == bs[1..] + [c];
      PutBytesAppend(PutByte(t, bs[0]), bs[1..], c);
    }
  }

  /**
   * After putting bs, the count is the old count plus |bs| capped at the
   * capacity; the held bytes are the old held bytes followed by the leading
   * bytes of bs that fit, and everything past the new count is untouched.
   * So a multi-byte put near capacity keeps its most significant bytes.
   */
  lemma {:induction false} PutBytesSpec(t: Tx, bs: seq<uint8>)
    requires TxValid(t)
    ensures PutBytes(t, bs).n == Min(t.n + |bs|, Capacity)
    ensures PutBytes(t, bs).data[..PutBytes(t, bs).n] == (t.data[..t.n] + bs)[..PutBytes(t, bs).n]
    ensures PutBytes(t, bs).data[PutBytes(t, bs).n..] == t.data[PutBytes(t, bs).n..]
    decreases |bs|
  {
    if bs != [] {
      var t1 := PutByte(t, bs[0]);
      PutBytesSpec(t1, bs[1..]);
      var r := PutBytes(t, bs);
      assert r == PutBytes(t1, bs[1..]);
      if t.n < Capacity {
        assert t1.data[..t1.n] == t.data[..t.n] + [bs[0]];
        assert t1.data[..t1.n] + bs[1..] == t.data[..t.n] + bs;
      } else {
        assert t1 == t && r.n == Capacity;
        assert (t.data[..t.n] + bs[1..])[..Capacity] == t.data[..t.n];
        assert (t.data[..t.n] + bs)[..Capacity] == t.data[..t.n];
      }
    }
  }

  /**
   * A sensor message starts with the magic byte `FormatSensor1` followed by
   * the flags byte: putting both into an empty buffer holds exactly those
   * two bytes, in that order.
   */
  lemma SensorMessageHeader(t: Tx, flags: uint8)
    requires TxValid(t) && t.n == 0
    ensures PutBytes(t, [FormatSensor1, flags]).n == 2
    ensures PutBytes(t, [FormatSensor1, flags]).data[..2] == [0x11, flags]
  {
    PutBytesSpec(t, [FormatSensor1, flags]);
    assert t.data[..t.n] + [FormatSensor1, flags] == [FormatSensor1, flags];
  }

  /** A pointer into a byte array: the array and an offset from its base. */
  datatype Ptr = Ptr(base: array<uint8>, offset: nat)
  {
    function Add(k: nat): (p: Ptr)
    {
      Ptr(base, offset + k)
    }
  }

  // ---------------------------------------------------------------------
  // The buffer object
  // ---------------------------------------------------------------------

  class TxBuffer {
    /** `uint8_t buf[32]` */
    const buf: array<uint8>
    /** `p - buf`: how many bytes the buffer holds */
    var n: nat
    /** every byte put since the last `begin`, including the ones dropped */
    ghost var written: seq<uint8>

    ghost predicate Valid()
      reads this, buf
    {
      buf.Length == Capacity && n == Min(|written|, Capacity) && buf[..n] == written[..n]
    }

    function State(): (t: Tx)
      reads this, buf
      requires Valid()
      ensures TxValid(t)
    {
      Tx(buf[..], n)
    }

    /** `TxBuffer_t()`: the cursor starts at the base of the buffer. */
    constructor ()
      ensures Valid() && fresh(buf)
      ensures n == 0 && written == []
    {
      buf := new uint8[Capacity];
      n := 0;
      written := [];
    }

    /** `begin()`: rewind the cursor; the bytes themselves are not cleared. */
    method Begin()
      requires Valid()
      modifies this
      ensures Valid()
      ensures n == 0 && written == []
      ensures buf[..] == old(buf[..])
    {
      n := 0;
      written := [];
    }

    /** `put(c)` */
    method Put(c: uint8)
      requires Valid()
      modifies this, buf
      ensures Valid()
      ensures written == old(written) + [c]
      ensures State() == PutByte(old(State()), c)
    {
      if n < buf.Length {
        buf[n] := c;
        n := n + 1;
      }
      written := written + [c];
    }

    /** `put1u(int32_t v)` */
    method Put1u(v: int32)
      requires Valid()
      modifies this, buf
      ensures Valid()
      ensures written == old(written) + Put1uBytes(v)
      ensures State() == PutBytes(old(State()), Put1uBytes(v))
    {
      ghost var s0 := State();
      var w := v;
      if w > 0xFF {
        w := 0xFF;
      } else if w < 0 {
        w := 0;
      }
      Put(w);
      PutBytesAppend(s0, [], w);
    }

    /** `put2(uint32_t v)` */
    method Put2(v: uint32)
      requires Valid()
      modifies this, buf
      ensures Valid()
      ensures written == old(written) + Put2Bytes(v)
      ensures State() == PutBytes(old(State()), Put2Bytes(v))
    {
      ghost var s0 := State();
      var w := v;
      if w > 0xFFFF {
        w := 0xFFFF;
      }
      var hi := (w / 0x100) % 0x100;
      var lo := w % 0x100;
      Put(hi);
      PutBytesAppend(s0, [], hi);
      Put(lo);
      PutBytesAppend(s0, [hi], lo);
      BigEndian2(w);
    }

    /** `put2(int32_t v)` */
    method Put2Signed(v: int32)
      requires Valid()
      modifies this, buf
      ensures Valid()
      ensures written == old(written) + Put2SignedBytes(v)
      ensures State() == PutBytes(old(State()), Put2SignedBytes(v))
    {
      var w := v;
      if w < -0x8000 {
        w := -0x8000;
      } else if w > 0x7FFF {
        w := 0x7FFF;
      }
      Put2(ToUint32(w));
    }

    /** `put3(uint32_t v)` */
    method Put3(v: uint32)
      requires Valid()
      modifies this, buf
      ensures Valid()
      ensures written == old(written) + Put3Bytes(v)
      ensures State() == PutBytes(old(State()), Put3Bytes(v))
    {
      ghost var s0 := State();
      var w := v;
      if w > 0xFFFFFF {
        w := 0xFFFFFF;
      }
      var b2 := (w / 0x10000) % 0x100;
      var b1 := (w / 0x100) % 0x100;
      var b0 := w % 0x100;
      Put(b2);
      PutBytesAppend(s0, [], b2);
      Put(b1);
      PutBytesAppend(s0, [b2], b1);
      Put(b0);
      PutBytesAppend(s0, [b2, b1], b0);
      BigEndian3(w);
    }

    /** `put2u(int32_t v)` */
    method Put2u(v: int32)
      requires Valid()
      modifies this, buf
      ensures Valid()
      ensures written == old(written) + Put2uBytes(v)
      ensures State() == PutBytes(old(State()), Put2uBytes(v))
    {
      var w := v;
      if w < 0 {
        w := 0;
      } else if w > 0xFFFF {
        w := 0xFFFF;
      }
      Put2(w);
    }

    /** `put3(int32_t v)` */
    method Put3Signed(v: int32)
      requires Valid()
      modifies this, buf
      ensures Valid()
      ensures written == old(written) + Put3SignedBytes(v)
      ensures State() == PutBytes(old(State()), Put3SignedBytes(v))
    {
      var w := v;
      if w < -0x800000 {
        w := -0x800000;
      } else if w > 0x7FFFFF {
        w := 0x7FFFFF;
      }
      Put3(ToUint32(w));
    }

    /** `getn()`: the number of bytes held, which are the first bytes put since `begin`. */
    function GetN(): (r: nat)
      reads this, buf
      requires Valid()
      ensures r <= Capacity
      ensures r == Min(|written|, Capacity)
      ensures buf[..r] == written[..r]
    {
      n
    }

    /** `getbase()` */
    function GetBase(): (p: Ptr)
      reads this
      ensures p.base == buf && p.offset == 0
    {
      Ptr(buf, 0)
    }

    /** `getp()`: the cursor, `getn()` bytes past `getbase()`, never past the end of `buf`. */
    function GetP(): (p: Ptr)
      reads this, buf
      requires Valid()
      ensures p == GetBase().Add(GetN())
      ensures p.offset <= p.base.Length
    {
      Ptr(buf, n)
    }
  }
}
