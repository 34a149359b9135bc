/** The 44-byte WAV header that the text-to-speech route writes through a
    `DataView`: thirteen integer writes into a zeroed 44-byte buffer, in the
    order, width and byte order of app/api/text-to-speech/route.ts. The four
    tag constants are written big-endian, so the buffer holds "FFIR", "EVAW",
    " tmf" and "atad" where the canonical layout has "RIFF", "WAVE", "fmt "
    and "data". */
module WavHeader {
  import opened Bytes

  /** An ECMAScript number as far as the header needs one: an integer or NaN. */
  datatype Number = NaN | Int(i: int)

  function Add(a: Number, b: Number): Number {
    if a.NaN? || b.NaN? then NaN else Int(a.i + b.i)
  }

  function Mul(a: Number, b: Number): Number {
    if a.NaN? || b.NaN? then NaN else Int(a.i * b.i)
  }

  /** ToUint32 / ToUint16 of ECMAScript, which `DataView.setUint32` and
      `setUint16` apply: NaN becomes 0, an integer is taken modulo
      2^(8 * width). */
  function ToUint(x: Number, width: nat): (r: nat)
    ensures r < Pow256(width)
  {
    match x
    case NaN => 0
    case Int(i) => i % Pow256(width)
  }

  const SampleRate := 16000

  /** One `DataView` write: `width` bytes at `offset`, little-endian or not. */
  datatype Write = Write(offset: nat, width: nat, value: Number, little: bool)

  /** The bytes a write stores. */
  function WriteBytes(w: Write): (bs: seq<Byte>)
    ensures |bs| == w.width
  {
    EncodeUint(ToUint(w.value, w.width), w.width, w.little)
  }

  /** The writes of the header, in source order, for a sample count. */
  function HeaderWrites(samples: Number): (ws: seq<Write>)
    ensures |ws| == 13
  {
    [ Write(0, 4, Add(Int(36), Mul(samples, Int(2))), true),
      Write(4, 4, Int(0x46464952), false),
      Write(8, 4, Int(0x45564157), false),
      Write(12, 4, Int(0x20746d66), false),
      Write(16, 4, Int(16), true),
      Write(20, 2, Int(1), true),
      Write(22, 2, Int(1), true),
      Write(24, 4, Int(SampleRate), true),
      Write(28, 4, Int(SampleRate * 2), true),
      Write(32, 2, Int(2), true),
      Write(34, 2, Int(16), true),
      Write(36, 4, Int(0x61746164), false),
      Write(40, 4, Mul(samples, Int(2)), true) ]
  }

  /** What a write leaves in memory: its bytes at its offset. */
  datatype Placed = Placed(offset: nat, bytes: seq<Byte>)

  /** The offset just past the placed bytes. */
  function End(p: Placed): nat {
    p.offset + |p.bytes|
  }

  function Place(w: Write): (p: Placed)
    ensures p.offset == w.offset && End(p) == w.offset + w.width
  {
    Placed(w.offset, WriteBytes(w))
  }

  function PlaceAll(ws: seq<Write>): (ps: seq<Placed>)
    ensures |ps| == |ws|
    ensures forall i :: 0 <= i < |ws| ==> ps[i] == Place(ws[i])
  {
    seq(|ws|, i requires 0 <= i < |ws| => Place(ws[i]))
  }

  predicate Fits(ps: seq<Placed>, size: nat) {
    forall i :: 0 <= i < |ps| ==> End(ps[i]) <= size
  }

  /** The buffer after storing one write's bytes. */
  function Store(buf: seq<Byte>, p: Placed): (r: seq<Byte>)
    requires End(p) <= |buf|
    ensures |r| == |buf|
  {
    buf[..p.offset] + p.bytes + buf[End(p)..]
  }

  /** The buffer after the writes, first to last. */
  function StoreAll(buf: seq<Byte>, ps: seq<Placed>): (r: seq<Byte>)
    requires Fits(ps, |buf|)
    ensures |r| == |buf|
    decreases |ps|
  {
    if ps == [] then buf else StoreAll(Store(buf, ps[0]), ps[1..])
  }

  function Zeros(n: nat): (z: seq<Byte>)
    ensures |z| == n
  {
    seq(n, _ => 0)
  }

  /** `new ArrayBuffer(44)` after the thirteen header writes. */
  function Header(samples: Number): (h: seq<Byte>)
    ensures |h| == 44
  {
    HeaderWritesTile(samples);
    StoreAll(Zeros(44), PlaceAll(HeaderWrites(samples)))
  }

  /** The writes lie back to back from `start` to `end`: no gap, no overlap. */
  predicate Tiles(ps: seq<Placed>, start: nat, end: nat) {
    if ps == [] then start == end
    else ps[0].offset == start && Tiles(ps[1..], End(ps[0]), end)
  }

  /** Writes tile a range when the first starts at its beginning, each next
      one starts where the previous one stops and the last stops at its end. */
  lemma {:induction false} ConsecutiveTiles(ps: seq<Placed>, start: nat, end: nat)
    requires ps != [] && ps[0].offset == start && End(ps[|ps| - 1]) == end
    requires forall i, j :: 0 <= i < |ps| && i < j < |ps| && j == i + 1 ==> ps[j].offset == End(ps[i])
    ensures Tiles(ps, start, end)
    decreases |ps|
  {
    if |ps| == 1 {
      assert ps[1..] == [];
    } else {
      var t := ps[1..];
      assert t[0] == ps[1];
      assert t[|t| - 1] == ps[|ps| - 1];
      forall i, j | 0 <= i < |t| && i < j < |t| && j == i + 1
        ensures t[j].offset == End(t[i])
      {
        assert t[i] == ps[i + 1] && t[j] == ps[j + 1];
      }
      ConsecutiveTiles(t, End(ps[0]), end);
    }
  }

  /** Back-to-back writes stay inside the tiled range. */
  lemma {:induction false} TilesInBounds(ps: seq<Placed>, start: nat, end: nat)
    requires Tiles(ps, start, end)
    ensures start <= end
    ensures forall i :: 0 <= i < |ps| ==> start <= ps[i].offset && End(ps[i]) <= end
    decreases |ps|
  {
    if ps != [] {
      TilesInBounds(ps[1..], End(ps[0]), end);
      forall i | 1 <= i < |ps|
        ensures start <= ps[i].offset && End(ps[i]) <= end
      {
        assert ps[i] == ps[1..][i - 1];
      }
    }
  }

  /** The placed bytes cover offset `o`. */
  predicate Covers(p: Placed, o: nat) {
    p.offset <= o < End(p)
  }

  /** Every offset in the tiled range is written by exactly one write. */
  lemma {:induction false} TilesPartition(ps: seq<Placed>, start: nat, end: nat, o: nat)
    requires Tiles(ps, start, end) && start <= o < end
    ensures exists i :: 0 <= i < |ps| && Covers(ps[i], o)
    ensures forall i, j :: 0 <= i < j < |ps| && Covers(ps[i], o) ==> !Covers(ps[j], o)
    decreases |ps|
  {
    TilesInBounds(ps, start, end);
    var p := ps[0];
    TilesInBounds(ps[1..], End(p), end);
    assert forall j :: 1 <= j < |ps| ==> ps[j] == ps[1..][j - 1];
    if o >= End(p) {
      TilesPartition(ps[1..], End(p), end, o);
      var k :| 0 <= k < |ps[1..]| && Covers(ps[1..][k], o);
      assert Covers(ps[k + 1], o);
      forall i, j | 0 <= i < j < |ps| && Covers(ps[i], o)
        ensures !Covers(ps[j], o)
      {
        if i > 0 {
          assert ps[i] == ps[1..][i - 1] && ps[j] == ps[1..][j - 1];
        }
      }
    } else {
      assert Covers(ps[0], o);
    }
  }

  /** The placed bytes one after another. */
  function Concat(ps: seq<Placed>): seq<Byte> {
    if ps == [] then [] else ps[0].bytes + Concat(ps[1..])
  }

  /** The concatenation is as long as the tiled range. */
  lemma {:induction false} ConcatLength(ps: seq<Placed>, start: nat, end: nat)
    requires Tiles(ps, start, end)
    ensures start <= end && |Concat(ps)| == end - start
    decreases |ps|
  {
    if ps != [] {
      ConcatLength(ps[1..], End(ps[0]), end);
    }
  }

  /** Storing back-to-back writes replaces the tiled range by their bytes. */
  lemma {:induction false} StoreTiles(buf: seq<Byte>, ps: seq<Placed>, start: nat, end: nat)
    requires Tiles(ps, start, end) && end <= |buf|
    ensures Fits(ps, |buf|)
    ensures StoreAll(buf, ps) == buf[..start] + Concat(ps) + buf[end..]
    decreases |ps|
  {
    TilesInBounds(ps, start, end);
    if ps != [] {
      var p := ps[0];
      var buf' := Store(buf, p);
      StoreTiles(buf', ps[1..], End(p), end);
      assert buf'[..End(p)] == buf[..start] + p.bytes;
      assert buf'[end..] == buf[end..];
    }
  }

  lemma SliceAfter<T>(a: seq<T>, b: seq<T>, lo: nat, hi: nat)
    requires lo <= hi <= |b|
    ensures (a + b)[|a| + lo..|a| + hi] == b[lo..hi]
  {
  }

  /** The i-th write's bytes sit at its offset in the concatenation. */
  lemma {:induction false} ConcatSlice(ps: seq<Placed>, start: nat, end: nat, i: nat)
    requires Tiles(ps, start, end) && i < |ps|
    ensures start <= ps[i].offset && End(ps[i]) - start <= |Concat(ps)|
    ensures Concat(ps)[ps[i].offset - start..End(ps[i]) - start] == ps[i].bytes
    decreases |ps|
  {
    var p := ps[0];
    var rest := ps[1..];
    ConcatLength(rest, End(p), end);
    assert Concat(ps) == p.bytes + Concat(rest);
    if i == 0 {
      assert (p.bytes + Concat(rest))[..|p.bytes|] == p.bytes;
    } else {
      ConcatSlice(rest, End(p), end, i - 1);
      assert ps[i] == rest[i - 1];
      var lo := ps[i].offset - End(p);
      SliceAfter(p.bytes, Concat(rest), lo, lo + |ps[i].bytes|);
    }
  }

  /** A zeroed buffer after back-to-back writes covering it holds exactly
      the writes' bytes. */
  lemma StoreFromZeros(ps: seq<Placed>, size: nat)
    requires Tiles(ps, 0, size)
    ensures Fits(ps, size)
    ensures StoreAll(Zeros(size), ps) == Concat(ps)
  {
    var z := Zeros(size);
    StoreTiles(z, ps, 0, size);
    assert z[..0] == [] && z[size..] == [];
  }

  lemma SameSlice<T>(a: seq<T>, b: seq<T>, lo: nat, hi: nat)
    requires a == b && lo <= hi <= |a|
    ensures a[lo..hi] == b[lo..hi]
  {
  }

  /** The defining property of a buffer after the writes: each write's
      bytes sit at its offset. */
  predicate Holds(h: seq<Byte>, ps: seq<Placed>) {
    forall i :: 0 <= i < |ps| ==> End(ps[i]) <= |h| && h[ps[i].offset..End(ps[i])] == ps[i].bytes
  }

  /** A zeroed buffer after back-to-back writes holds every write. */
  lemma TiledHolds(ps: seq<Placed>, size: nat)
    requires Tiles(ps, 0, size)
    ensures Fits(ps, size)
    ensures Holds(StoreAll(Zeros(size), ps), ps)
  {
    StoreFromZeros(ps, size);
    ConcatLength(ps, 0, size);
    forall i | 0 <= i < |ps|
      ensures End(ps[i]) <= size
      ensures StoreAll(Zeros(size), ps)[ps[i].offset..End(ps[i])] == ps[i].bytes
    {
      ConcatSlice(ps, 0, size, i);
      SameSlice(StoreAll(Zeros(size), ps), Concat(ps), ps[i].offset, End(ps[i]));
    }
  }

  /** Two buffers of the tiled size that hold the same back-to-back writes
      are equal: the writes determine every byte. */
  lemma TiledDetermined(a: seq<Byte>, b: seq<Byte>, ps: seq<Placed>, size: nat)
    requires Tiles(ps, 0, size) && |a| == size && |b| == size
    requires Holds(a, ps) && Holds(b, ps)
    ensures a == b
  {
    forall o | 0 <= o < size
      ensures a[o] == b[o]
    {
      TilesPartition(ps, 0, size, o);
      var i :| 0 <= i < |ps| && Covers(ps[i], o);
      var p := ps[i];
      assert a[p.offset..End(p)][o - p.offset] == a[o];
      assert b[p.offset..End(p)][o - p.offset] == b[o];
    }
  }

  /** What the header writes leave in memory. */
  function HeaderPlaced(samples: Number): seq<Placed> {
    PlaceAll(HeaderWrites(samples))
  }

  /** The header writes tile offsets 0 to 44. */
  lemma HeaderWritesTile(samples: Number)
    ensures Tiles(HeaderPlaced(samples), 0, 44)
    ensures Fits(HeaderPlaced(samples), 44)
  {
    ConsecutiveTiles(HeaderPlaced(samples), 0, 44);
    TilesInBounds(HeaderPlaced(samples), 0, 44);
  }

  /** Every header offset 0..43 is written by exactly one of the thirteen
      writes. */
  lemma HeaderCoverage(samples: Number, o: nat)
    requires o < 44
    ensures |HeaderWrites(samples)| == 13
    ensures exists i :: 0 <= i < 13 && Covers(Place(HeaderWrites(samples)[i]), o)
    ensures forall i, j :: 0 <= i < j < 13 && Covers(Place(HeaderWrites(samples)[i]), o)
              ==> !Covers(Place(HeaderWrites(samples)[j]), o)
  {
    HeaderWritesTile(samples);
    TilesPartition(HeaderPlaced(samples), 0, 44, o);
  }

  /** A buffer that holds each of the thirteen header writes. */
  predicate IsHeaderFor(h: seq<Byte>, samples: Number) {
    Holds(h, HeaderPlaced(samples))
  }

  /** The header holds each of its writes. */
  lemma HeaderHolds(samples: Number)
    ensures IsHeaderFor(Header(samples), samples)
  {
    HeaderWritesTile(samples);
    TiledHolds(HeaderPlaced(samples), 44);
  }

  /** Whatever order the thirteen writes were done in, a 44-byte buffer that
      holds them all is the header. */
  lemma HeaderDetermined(h: seq<Byte>, samples: Number)
    requires |h| == 44 && IsHeaderFor(h, samples)
    ensures h == Header(samples)
  {
    HeaderWritesTile(samples);
    HeaderHolds(samples);
    TiledDetermined(h, Header(samples), HeaderPlaced(samples), 44);
  }

  /** Reads `width` bytes at `offset` back as an unsigned integer, in the
      given byte order. */
  function ReadUint(h: seq<Byte>, offset: nat, width: nat, little: bool): nat
    requires offset + width <= |h|
  {
    var bs := h[offset..offset + width];
    DecodeLE(if little then bs else Reverse(bs))
  }

  /** The bytes of a write read back, in the write's byte order, as the
      stored value modulo its width. */
  lemma ReadWriteBytes(w: Write)
    ensures DecodeLE(if w.little then WriteBytes(w) else Reverse(WriteBytes(w))) == ToUint(w.value, w.width)
  {
    var v := ToUint(w.value, w.width);
    var le := EncodeLE(v, w.width);
    DecodeEncodeLE(v, w.width);
    ModUnique(v, Pow256(w.width), 0, v);
    assert DecodeLE(le) == v;
    if w.little {
      assert WriteBytes(w) == le;
    } else {
      assert WriteBytes(w) == Reverse(le);
      assert Reverse(Reverse(le)) == le;
    }
  }

  /** A buffer holding a write's bytes at its offset reads back the value. */
  lemma ReadBack(h: seq<Byte>, w: Write)
    requires w.offset + w.width <= |h| && h[w.offset..w.offset + w.width] == WriteBytes(w)
    ensures ReadUint(h, w.offset, w.width, w.little) == ToUint(w.value, w.width)
  {
    ReadWriteBytes(w);
  }

  /** A field, named by the write that stores it, reads back as the value
      written there, modulo its width. */
  lemma ReadField(h: seq<Byte>, samples: Number, i: nat, offset: nat, width: nat, little: bool, value: Number)
    requires IsHeaderFor(h, samples) && i < 13
    requires HeaderWrites(samples)[i] == Write(offset, width, value, little)
    ensures offset + width <= |h|
    ensures ReadUint(h, offset, width, little) == ToUint(value, width)
  {
    var w := HeaderWrites(samples)[i];
    assert HeaderPlaced(samples)[i] == Place(w);
    ReadBack(h, w);
  }

  /** Offsets of the header fields, named after the canonical WAV layout. */
  const RiffSizeAt := 0
  const FmtSizeAt := 16
  const FormatAt := 20
  const ChannelsAt := 22
  const SampleRateAt := 24
  const ByteRateAt := 28
  const BlockAlignAt := 32
  const BitsAt := 34
  const DataSizeAt := 40

  /** The format chunk's leading fields read back little-endian as written:
      a 16-byte chunk, PCM format (1), one channel. */
  lemma HeaderFormat(h: seq<Byte>, samples: Number)
    requires IsHeaderFor(h, samples)
    ensures |h| >= 44
    ensures ReadUint(h, FmtSizeAt, 4, true) == 16
    ensures ReadUint(h, FormatAt, 2, true) == 1
    ensures ReadUint(h, ChannelsAt, 2, true) == 1
  {
    ReadField(h, samples, 12, DataSizeAt, 4, true, Mul(samples, Int(2)));
    ReadField(h, samples, 4, FmtSizeAt, 4, true, Int(16));
    ReadField(h, samples, 5, FormatAt, 2, true, Int(1));
    ReadField(h, samples, 6, ChannelsAt, 2, true, Int(1));
  }

  /** The timing fields: 16000 samples per second, 2-byte blocks, 16 bits
      per sample. */
  lemma HeaderTiming(h: seq<Byte>, samples: Number)
    requires IsHeaderFor(h, samples)
    ensures |h| >= 44
    ensures ReadUint(h, SampleRateAt, 4, true) == SampleRate
    ensures ReadUint(h, BlockAlignAt, 2, true) == 2
    ensures ReadUint(h, BitsAt, 2, true) == 16
  {
    ReadField(h, samples, 12, DataSizeAt, 4, true, Mul(samples, Int(2)));
    ReadField(h, samples, 7, SampleRateAt, 4, true, Int(SampleRate));
    ReadField(h, samples, 9, BlockAlignAt, 2, true, Int(2));
    ReadField(h, samples, 10, BitsAt, 2, true, Int(16));
  }

  /** The format fields agree with each other: the block size is channels
      times bits over 8, and the byte rate is the sample rate times the
      block size. */
  lemma HeaderConsistent(h: seq<Byte>, samples: Number)
    requires IsHeaderFor(h, samples)
    ensures |h| >= 44
    ensures ReadUint(h, BlockAlignAt, 2, true) * 8
            == ReadUint(h, ChannelsAt, 2, true) * ReadUint(h, BitsAt, 2, true)
    ensures ReadUint(h, ByteRateAt, 4, true)
            == ReadUint(h, SampleRateAt, 4, true) * ReadUint(h, BlockAlignAt, 2, true)
  {
    HeaderFormat(h, samples);
    HeaderTiming(h, samples);
    ReadField(h, samples, 8, ByteRateAt, 4, true, Int(SampleRate * 2));
  }

  /** The data size field holds twice the sample count modulo 2^32, and the
      RIFF size field that value plus 36, modulo 2^32 again; when the sample
      count is NaN both fields hold 0, so the relation fails. */
  lemma HeaderSizes(h: seq<Byte>, samples: Number)
    requires IsHeaderFor(h, samples)
    ensures |h| >= 44
    ensures ReadUint(h, DataSizeAt, 4, true) == ToUint(Mul(samples, Int(2)), 4)
    ensures samples.Int? ==>
      ReadUint(h, RiffSizeAt, 4, true) == (ReadUint(h, DataSizeAt, 4, true) + 36) % Pow256(4)
    ensures samples.NaN? ==> ReadUint(h, RiffSizeAt, 4, true) == 0 == ReadUint(h, DataSizeAt, 4, true)
  {
    ReadField(h, samples, 0, RiffSizeAt, 4, true, Add(Int(36), Mul(samples, Int(2))));
    ReadField(h, samples, 12, DataSizeAt, 4, true, Mul(samples, Int(2)));
    if samples.Int? {
      ModAddSmall(samples.i * 2, 36, Pow256(4));
    }
  }

  /** (x + c) mod m == ((x mod m) + c) mod m. */
  lemma ModAddSmall(x: int, c: int, m: int)
    requires m > 0
    ensures (x + c) % m == (x % m + c) % m
  {
    var q := x / m;
    assert x + c == m * q + (x % m + c);
    var q2 := (x % m + c) / m;
    var r2 := (x % m + c) % m;
    assert x % m + c == m * q2 + r2;
    ModUnique(x + c, m, q + q2, r2);
  }

  /** A 32-bit tag written big-endian is its four bytes, high byte first. */
  lemma BigEndianTag(offset: nat, b0: Byte, b1: Byte, b2: Byte, b3: Byte)
    ensures WriteBytes(Write(offset, 4, Int(((b0 * 256 + b1) * 256 + b2) * 256 + b3), false)) == [b0, b1, b2, b3]
  {
    var v := ((b0 * 256 + b1) * 256 + b2) * 256 + b3;
    ModUnique(v, Pow256(4), 0, v);
    var v1 := (b0 * 256 + b1) * 256 + b2;
    var v2 := b0 * 256 + b1;
    SplitByte(v1, b3);
    SplitByte(v2, b2);
    SplitByte(b0, b1);
    assert b0 % 256 == b0 && b0 / 256 == 0;
    var le := EncodeLE(v, 4);
    assert le == [v % 256] + EncodeLE(v / 256, 3);
    assert EncodeLE(v1, 3) == [v1 % 256] + EncodeLE(v1 / 256, 2);
    assert EncodeLE(v2, 2) == [v2 % 256] + EncodeLE(v2 / 256, 1);
    assert EncodeLE(b0, 1) == [b0];
    assert le == [b3, b2, b1, b0];
  }

  lemma SplitByte(hi: nat, lo: Byte)
    ensures (hi * 256 + lo) % 256 == lo && (hi * 256 + lo) / 256 == hi
  {
    ModUnique(hi * 256 + lo, 256, hi, lo);
  }

  /** The bytes of a big-endian tag write at its place. */
  lemma TagAt(h: seq<Byte>, samples: Number, i: nat, offset: nat, b0: Byte, b1: Byte, b2: Byte, b3: Byte)
    requires IsHeaderFor(h, samples) && i < 13
    requires HeaderWrites(samples)[i] == Write(offset, 4, Int(((b0 * 256 + b1) * 256 + b2) * 256 + b3), false)
    ensures offset + 4 <= |h| && h[offset..offset + 4] == [b0, b1, b2, b3]
  {
    assert HeaderPlaced(samples)[i] == Place(HeaderWrites(samples)[i]);
    BigEndianTag(offset, b0, b1, b2, b3);
  }

  /** The four tags, written as big-endian integers, hold the ASCII codes
      of "FFIR", "EVAW", " tmf" and "atad": the canonical "RIFF", "WAVE",
      "fmt " and "data" each reversed. */
  lemma HeaderTags(h: seq<Byte>, samples: Number)
    requires IsHeaderFor(h, samples)
    ensures |h| >= 40
    ensures h[4..8] == Reverse(Ascii("RIFF"))
    ensures h[8..12] == Reverse(Ascii("WAVE"))
    ensures h[12..16] == Reverse(Ascii("fmt "))
    ensures h[36..40] == Reverse(Ascii("data"))
  {
    RiffTag(h, samples);
    WaveTag(h, samples);
    FmtTag(h, samples);
    DataTag(h, samples);
    AsciiTags();
  }

  lemma RiffTag(h: seq<Byte>, samples: Number)
    requires IsHeaderFor(h, samples)
    ensures |h| >= 8 && h[4..8] == [0x46, 0x46, 0x49, 0x52]
  {
    TagAt(h, samples, 1, 4, 0x46, 0x46, 0x49, 0x52);
  }

  lemma WaveTag(h: seq<Byte>, samples: Number)
    requires IsHeaderFor(h, samples)
    ensures |h| >= 12 && h[8..12] == [0x45, 0x56, 0x41, 0x57]
  {
    TagAt(h, samples, 2, 8, 0x45, 0x56, 0x41, 0x57);
  }

  lemma FmtTag(h: seq<Byte>, samples: Number)
    requires IsHeaderFor(h, samples)
    ensures |h| >= 16 && h[12..16] == [0x20, 0x74, 0x6d, 0x66]
  {
    TagAt(h, samples, 3, 12, 0x20, 0x74, 0x6d, 0x66);
  }

  lemma DataTag(h: seq<Byte>, samples: Number)
    requires IsHeaderFor(h, samples)
    ensures |h| >= 40 && h[36..40] == [0x61, 0x74, 0x61, 0x64]
  {
    TagAt(h, samples, 11, 36, 0x61, 0x74, 0x61, 0x64);
  }

  /** The byte codes of the four tag names, reversed. */
  lemma AsciiTags()
    ensures Reverse(Ascii("RIFF")) == [0x46, 0x46, 0x49, 0x52]
    ensures Reverse(Ascii("WAVE")) == [0x45, 0x56, 0x41, 0x57]
    ensures Reverse(Ascii("fmt ")) == [0x20, 0x74, 0x6d, 0x66]
    ensures Reverse(Ascii("data")) == [0x61, 0x74, 0x61, 0x64]
  {
    Ascii4('R', 'I', 'F', 'F');
    Ascii4('W', 'A', 'V', 'E');
    Ascii4('f', 'm', 't', ' ');
    Ascii4('d', 'a', 't', 'a');
  }

  lemma Ascii4(c0: char, c1: char, c2: char, c3: char)
    ensures Reverse(Ascii([c0, c1, c2, c3])) == [c3 as int, c2 as int, c1 as int, c0 as int]
  {
  }

  /** Codes of a string's characters. */
  function Ascii(s: string): (bs: seq<int>)
    ensures |bs| == |s|
  {
    seq(|s|, i requires 0 <= i < |s| => s[i] as int)
  }
}
