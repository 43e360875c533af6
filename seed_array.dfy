/**
 * The seed-array helpers: a sequence of unsigned 32-bit seeds is packed into a
 * byte buffer, one little-endian word per seed, and read back out again.
 *
 * A host `Buffer` is an `array<byte>`; a host number array is a `seq<int>`.
 * Node's `writeUInt32LE` and `readUInt32LE` throw a `RangeError` for a value
 * outside the unsigned 32-bit range or an offset past the end of the buffer;
 * those throws are the `Failure` results here.
 */
module SeedArray {
  import opened Wrappers

  type byte = x: int | 0 <= x < 256

  const TwoTo32: int := 0x1_0000_0000

  /** Why a buffer access threw. */
  datatype BufferError =
    | ValueOutOfRange(value: int)   // written value not in [0, 2^32)
    | OutOfBounds(offset: int)      // a 4-byte access at offset does not fit

  predicate IsUint32(x: int) {
    0 <= x < TwoTo32
  }

  predicate AllUint32(seeds: seq<int>) {
    forall i :: 0 <= i < |seeds| ==> IsUint32(seeds[i])
  }

  // ---------------------------------------------------------------------------
  // Specification: the little-endian word and the packed buffer
  // ---------------------------------------------------------------------------

  /** The four bytes of `x`, lowest byte first. */
  function LE32(x: int): (b: seq<byte>)
    requires IsUint32(x)
    ensures |b| == 4
  {
    [x % 256, (x / 256) % 256, ((x / 256) / 256) % 256, ((x / 256) / 256) / 256]
  }

  /** The unsigned 32-bit number whose little-endian bytes are b0, b1, b2, b3. */
  function UnLE32(b0: byte, b1: byte, b2: byte, b3: byte): (x: int)
    ensures IsUint32(x)
  {
    b0 + 256 * (b1 + 256 * (b2 + 256 * b3))
  }

  /** The word stored at byte offset `off` of `buf`. */
  function WordAt(buf: seq<byte>, off: nat): (x: int)
    requires off + 4 <= |buf|
    ensures IsUint32(x)
  {
    UnLE32(buf[off], buf[off + 1], buf[off + 2], buf[off + 3])
  }

  /** The packed buffer: the words of `seeds` one after another, in input order. */
  function Encode(seeds: seq<int>): (buf: seq<byte>)
    requires AllUint32(seeds)
  {
    if seeds == [] then []
    else Encode(seeds[..|seeds| - 1]) + LE32(seeds[|seeds| - 1])
  }

  /** The first `count` words of `buf`. */
  function Decode(buf: seq<byte>, count: nat): (seeds: seq<int>)
    requires 4 * count <= |buf|
  {
    if count == 0 then []
    else Decode(buf, count - 1) + [WordAt(buf, 4 * (count - 1))]
  }

  /** Index of the first seed that is not an unsigned 32-bit value. */
  function FirstNonUint32(seeds: seq<int>): (k: nat)
    requires !AllUint32(seeds)
    ensures k < |seeds| && !IsUint32(seeds[k])
    ensures forall i :: 0 <= i < k ==> IsUint32(seeds[i])
  {
    if !IsUint32(seeds[0]) then 0 else 1 + FirstNonUint32(seeds[1..])
  }

  // ---------------------------------------------------------------------------
  // Properties of the specification
  // ---------------------------------------------------------------------------

  /** Reading a word back gives the written value. */
  lemma UnLE32OfLE32(x: int)
    requires IsUint32(x)
    ensures var b := LE32(x); UnLE32(b[0], b[1], b[2], b[3]) == x
  {
    var q1 := x / 256;
    var q2 := q1 / 256;
    assert x == x % 256 + 256 * q1;
    assert q1 == q1 % 256 + 256 * q2;
    assert q2 == q2 % 256 + 256 * (q2 / 256);
  }

  /** Writing a decoded word back gives the same four bytes. */
  lemma LE32OfUnLE32(b0: byte, b1: byte, b2: byte, b3: byte)
    ensures LE32(UnLE32(b0, b1, b2, b3)) == [b0, b1, b2, b3]
  {
    var x := UnLE32(b0, b1, b2, b3);
    var q1 := b1 + 256 * (b2 + 256 * b3);
    var q2 := b2 + 256 * b3;
    assert x / 256 == q1 && x % 256 == b0;
    assert q1 / 256 == q2 && q1 % 256 == b1;
    assert q2 / 256 == b3 && q2 % 256 == b2;
  }

  /** The buffer holds exactly four bytes per seed; no seeds give no bytes. */
  lemma {:induction false} EncodeLength(seeds: seq<int>)
    requires AllUint32(seeds)
    ensures |Encode(seeds)| == 4 * |seeds|
    ensures seeds == [] <==> Encode(seeds) == []
  {
    if seeds != [] {
      EncodeLength(seeds[..|seeds| - 1]);
    }
  }

  /** Encoding a concatenation concatenates the encodings. */
  lemma {:induction false} EncodeAppend(s: seq<int>, t: seq<int>)
    requires AllUint32(s) && AllUint32(t)
    ensures AllUint32(s + t)
    ensures Encode(s + t) == Encode(s) + Encode(t)
  {
    if t == [] {
      assert s + t == s;
    } else {
      var t' := t[..|t| - 1];
      assert (s + t)[..|s + t| - 1] == s + t';
      EncodeAppend(s, t');
    }
  }

  /** Bytes 4k .. 4k+3 of the buffer are the little-endian word of seed k. */
  lemma {:induction false} EncodeAt(seeds: seq<int>, k: nat)
    requires AllUint32(seeds) && k < |seeds|
    ensures |Encode(seeds)| == 4 * |seeds|
    ensures Encode(seeds)[4 * k .. 4 * k + 4] == LE32(seeds[k])
  {
    EncodeLength(seeds);
    var init := seeds[..|seeds| - 1];
    EncodeLength(init);
    if k < |seeds| - 1 {
      EncodeAt(init, k);
      assert Encode(seeds)[4 * k .. 4 * k + 4] == Encode(init)[4 * k .. 4 * k + 4];
    } else {
      assert Encode(seeds)[4 * k .. 4 * k + 4] == LE32(seeds[k]);
    }
  }

  /** Seed k touches only bytes 4k .. 4k+3: changing it leaves every other byte alone. */
  lemma EncodeLocal(seeds: seq<int>, k: nat, x: int, j: nat)
    requires AllUint32(seeds) && k < |seeds| && IsUint32(x)
    requires j < 4 * |seeds| && !(4 * k <= j < 4 * k + 4)
    ensures AllUint32(seeds[k := x])
    ensures |Encode(seeds)| == |Encode(seeds[k := x])| == 4 * |seeds|
    ensures Encode(seeds[k := x])[j] == Encode(seeds)[j]
  {
    var s' := seeds[k := x];
    EncodeLength(seeds);
    EncodeLength(s');
    var w := j / 4;
    assert 4 * w <= j < 4 * w + 4;
    EncodeAt(seeds, w);
    EncodeAt(s', w);
    assert Encode(s')[j] == Encode(s')[4 * w .. 4 * w + 4][j - 4 * w];
    assert Encode(seeds)[j] == Encode(seeds)[4 * w .. 4 * w + 4][j - 4 * w];
  }

  /** Decoding yields exactly `count` values, value i being the word at offset 4i. */
  lemma {:induction false} DecodeAt(buf: seq<byte>, count: nat, i: nat)
    requires 4 * count <= |buf| && i < count
    ensures |Decode(buf, count)| == count
    ensures Decode(buf, count)[i] == WordAt(buf, 4 * i)
  {
    DecodeLength(buf, count);
    if i < count - 1 {
      DecodeAt(buf, count - 1, i);
    }
  }

  lemma {:induction false} DecodeLength(buf: seq<byte>, count: nat)
    requires 4 * count <= |buf|
    ensures |Decode(buf, count)| == count
  {
    if count > 0 {
      DecodeLength(buf, count - 1);
    }
  }

  /** Decoding reads only the first 4 * count bytes. */
  lemma {:induction false} DecodeOfPrefix(buf: seq<byte>, more: seq<byte>, count: nat)
    requires 4 * count <= |buf|
    ensures Decode(buf + more, count) == Decode(buf, count)
  {
    if count > 0 {
      DecodeOfPrefix(buf, more, count - 1);
      assert (buf + more)[4 * (count - 1) .. 4 * count] == buf[4 * (count - 1) .. 4 * count];
    }
  }

  /** Prefix decode: the first k words of an encoded buffer are the first k seeds. */
  lemma {:induction false} DecodeEncodePrefix(seeds: seq<int>, k: nat)
    requires AllUint32(seeds) && k <= |seeds|
    ensures |Encode(seeds)| == 4 * |seeds|
    ensures Decode(Encode(seeds), k) == seeds[..k]
  {
    EncodeLength(seeds);
    if k > 0 {
      DecodeEncodePrefix(seeds, k - 1);
      EncodeAt(seeds, k - 1);
      var b := Encode(seeds)[4 * (k - 1) .. 4 * k];
      assert WordAt(Encode(seeds), 4 * (k - 1)) == UnLE32(b[0], b[1], b[2], b[3]);
      UnLE32OfLE32(seeds[k - 1]);
      assert seeds[..k] == seeds[..k - 1] + [seeds[k - 1]];
    }
  }

  /** Round trip: decoding all |seeds| words of the encoding gives the seeds back. */
  lemma RoundTrip(seeds: seq<int>)
    requires AllUint32(seeds)
    ensures |Encode(seeds)| == 4 * |seeds|
    ensures Decode(Encode(seeds), |seeds|) == seeds
  {
    DecodeEncodePrefix(seeds, |seeds|);
    assert seeds[..|seeds|] == seeds;
  }

  /** The other direction: re-encoding the decoded words gives back the bytes read. */
  lemma {:induction false} EncodeDecode(buf: seq<byte>, count: nat)
    requires 4 * count <= |buf|
    ensures AllUint32(Decode(buf, count))
    ensures Encode(Decode(buf, count)) == buf[..4 * count]
  {
    DecodeLength(buf, count);
    var d := Decode(buf, count);
    forall i | 0 <= i < |d| ensures IsUint32(d[i]) {
      DecodeAt(buf, count, i);
    }
    if count > 0 {
      EncodeDecode(buf, count - 1);
      var off := 4 * (count - 1);
      LE32OfUnLE32(buf[off], buf[off + 1], buf[off + 2], buf[off + 3]);
      assert d[..|d| - 1] == Decode(buf, count - 1);
      assert buf[..4 * count] == buf[..off] + [buf[off], buf[off + 1], buf[off + 2], buf[off + 3]];
    }
  }

  /** Lowest byte first: the seed 0x01020304 is stored as 04 03 02 01. */
  lemma LittleEndianExample()
    ensures Encode([0x0102_0304, 0xFFFF_FFFF]) == [4, 3, 2, 1, 255, 255, 255, 255]
  {
    assert [0x0102_0304, 0xFFFF_FFFF][..1] == [0x0102_0304];
    assert [0x0102_0304][..0] == [];
  }

  // ---------------------------------------------------------------------------
  // The buffer primitives and the two helpers
  // ---------------------------------------------------------------------------

  /** Node's `buf.writeUInt32LE(value, offset)`. */
  method WriteUInt32LE(buf: array<byte>, value: int, offset: int) returns (r: Result<(), BufferError>)
    modifies buf
    ensures r.Failure? <==> !IsUint32(value) || offset < 0 || buf.Length < offset + 4
    ensures r.Failure? && !IsUint32(value) ==> r.error == ValueOutOfRange(value)
    ensures r.Failure? && IsUint32(value) ==> r.error == OutOfBounds(offset)
    ensures r.Failure? ==> buf[..] == old(buf[..])
    ensures r.Success? ==> buf[..] == old(buf[..offset]) + LE32(value) + old(buf[offset + 4..])
  {
    if !IsUint32(value) {
      return Failure(ValueOutOfRange(value));
    }
    if offset < 0 || buf.Length < offset + 4 {
      return Failure(OutOfBounds(offset));
    }
    var b := LE32(value);
    buf[offset], buf[offset + 1], buf[offset + 2], buf[offset + 3] := b[0], b[1], b[2], b[3];
    r := Success(());
  }

  /** Node's `buf.readUInt32LE(offset)`. */
  method ReadUInt32LE(buf: array<byte>, offset: int) returns (r: Result<int, BufferError>)
    ensures r.Failure? <==> offset < 0 || buf.Length < offset + 4
    ensures r.Failure? ==> r.error == OutOfBounds(offset)
    ensures r.Success? ==> r.value == WordAt(buf[..], offset)
  {
    if offset < 0 || buf.Length < offset + 4 {
      return Failure(OutOfBounds(offset));
    }
    r := Success(UnLE32(buf[offset], buf[offset + 1], buf[offset + 2], buf[offset + 3]));
  }

  /**
   * `createSeedArray`: allocate a zero-filled buffer of 4 * |seeds| bytes and
   * write seed i at offset 4i. It throws at the first seed that is not an
   * unsigned 32-bit value.
   */
  method CreateSeedArray(seeds: seq<int>) returns (r: Result<array<byte>, BufferError>)
    ensures r.Success? <==> AllUint32(seeds)
    ensures r.Failure? ==> r.error == ValueOutOfRange(seeds[FirstNonUint32(seeds)])
    ensures r.Success? ==> r.value.Length == 4 * |seeds| && r.value[..] == Encode(seeds)
  {
    var buffer := new byte[|seeds| * 4](_ => 0);
    for i := 0 to |seeds|
      invariant AllUint32(seeds[..i])
      invariant buffer[..4 * i] == Encode(seeds[..i])
      invariant forall j :: 4 * i <= j < buffer.Length ==> buffer[j] == 0
    {
      assert seeds[..i + 1][..i] == seeds[..i];
      var w := WriteUInt32LE(buffer, seeds[i], i * 4);
      if w.Failure? {
        assert FirstNonUint32(seeds) == i;
        return Failure(w.error);
      }
      assert buffer[..4 * (i + 1)] == buffer[..4 * i] + LE32(seeds[i]);
    }
    assert seeds[..|seeds|] == seeds;
    assert buffer[..] == buffer[..4 * |seeds|];
    r := Success(buffer);
  }

  /**
   * `readSeedArray`: read `count` words starting at offset 0. A count of zero
   * or less reads nothing; the read at offset 4i throws once 4i + 4 exceeds
   * the buffer, so the call fails exactly when 4 * count does.
   */
  method ReadSeedArray(buffer: array<byte>, count: int) returns (r: Result<seq<int>, BufferError>)
    ensures r.Success? <==> 4 * count <= buffer.Length
    ensures r.Failure? ==> r.error == OutOfBounds(4 * (buffer.Length / 4))
    ensures r.Success? ==> r.value == Decode(buffer[..], if count < 0 then 0 else count)
  {
    var seeds: seq<int> := [];
    var i := 0;
    while i < count
      invariant 0 <= i <= if count < 0 then 0 else count
      invariant 4 * i <= buffer.Length
      invariant seeds == Decode(buffer[..], i)
    {
      var x := ReadUInt32LE(buffer, i * 4);
      if x.Failure? {
        return Failure(x.error);
      }
      seeds := seeds + [x.value];
      i := i + 1;
    }
    r := Success(seeds);
  }
}
