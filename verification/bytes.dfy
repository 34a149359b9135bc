/** Bytes and fixed-width unsigned integers in either byte order, as
    ECMAScript's `DataView` writes them. */
module Bytes {

  type Byte = x: int | 0 <= x < 256

  /** 256^width: one more than the largest unsigned value of `width` bytes. */
  function Pow256(width: nat): (p: nat)
    ensures p >= 1
    ensures width == 1 ==> p == 0x100
    ensures width == 2 ==> p == 0x1_0000
    ensures width == 3 ==> p == 0x100_0000
    ensures width == 4 ==> p == 0x1_0000_0000
  {
    if width == 0 then 1 else 256 * Pow256(width - 1)
  }

  /** The `width` bytes of `v`, least significant first. */
  function EncodeLE(v: nat, width: nat): (bs: seq<Byte>)
    ensures |bs| == width
  {
    if width == 0 then [] else [v % 256] + EncodeLE(v / 256, width - 1)
  }

  /** The value of little-endian bytes. */
  function DecodeLE(bs: seq<Byte>): nat {
    if bs == [] then 0 else bs[0] + 256 * DecodeLE(bs[1..])
  }

  function Reverse<T>(s: seq<T>): (r: seq<T>)
    ensures |r| == |s|
    ensures forall i :: 0 <= i < |s| ==> r[i] == s[|s| - 1 - i]
  {
    if s == [] then [] else Reverse(s[1..]) + [s[0]]
  }

  /** The `width` bytes of `v` in the requested order. */
  function EncodeUint(v: nat, width: nat, little: bool): (bs: seq<Byte>)
    ensures |bs| == width
  {
    if little then EncodeLE(v, width) else Reverse(EncodeLE(v, width))
  }

  /** Reading back little-endian bytes gives the value modulo 256^width. */
  lemma {:induction false} DecodeEncodeLE(v: nat, width: nat)
    ensures DecodeLE(EncodeLE(v, width)) == v % Pow256(width)
  {
    if width > 0 {
      var bs := EncodeLE(v, width);
      assert bs[1..] == EncodeLE(v / 256, width - 1);
      DecodeEncodeLE(v / 256, width - 1);
      var p := Pow256(width - 1);
      assert v % (256 * p) == v % 256 + 256 * ((v / 256) % p) by {
        DivModNested(v, 256, p);
      }
    }
  }

  /** v mod (a*b) splits into v mod a and (v div a) mod b. */
  lemma DivModNested(v: nat, a: nat, b: nat)
    requires a > 0 && b > 0
    ensures v % (a * b) == v % a + a * ((v / a) % b)
  {
    var q := v / a;
    var r := v % a;
    assert v == a * q + r;
    var q2 := q / b;
    var r2 := q % b;
    assert q == b * q2 + r2;
    assert v == (a * b) * q2 + (a * r2 + r);
    assert 0 <= a * r2 + r < a * b by {
      assert a * r2 <= a * (b - 1);
    }
    ModUnique(v, a * b, q2, a * r2 + r);
  }

  lemma ModUnique(v: int, m: int, q: int, r: int)
    requires m > 0 && 0 <= r < m && v == m * q + r
    ensures v % m == r && v / m == q
  {
    var q', r' := v / m, v % m;
    assert v == m * q' + r';
    assert m * (q - q') == r' - r;
    if q > q' {
      MulAtLeast(m, q - q');
    } else if q < q' {
      MulAtLeast(m, q' - q);
    }
  }

  lemma MulAtLeast(m: int, k: int)
    requires m > 0 && k >= 1
    ensures m * k >= m
  {
  }
}
