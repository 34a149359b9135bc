/** The base64 encoding of section 4 of RFC 4648 (alphabet A-Z a-z 0-9 + /,
    '=' padding), as the browser's `btoa` applies it to a binary string, and
    a strict decoder that undoes it. The encoding is taken in two layers:
    bytes to 6-bit groups, then groups to alphabet characters plus padding. */
module Base64 {
  import opened Bytes

  type Sextet = x: int | 0 <= x < 64

  datatype Option<T> = None | Some(value: T)

  /** The character for a 6-bit group (Table 1 of RFC 4648). */
  function SextetChar(v: Sextet): char {
    if v < 26 then ('A' as int + v) as char
    else if v < 52 then ('a' as int + (v - 26)) as char
    else if v < 62 then ('0' as int + (v - 52)) as char
    else if v == 62 then '+'
    else '/'
  }

  /** The 6-bit group of an alphabet character, -1 for any other character. */
  function CharSextet(c: char): (v: int)
    ensures -1 <= v < 64
  {
    if 'A' <= c <= 'Z' then c as int - 'A' as int
    else if 'a' <= c <= 'z' then c as int - 'a' as int + 26
    else if '0' <= c <= '9' then c as int - '0' as int + 52
    else if c == '+' then 62
    else if c == '/' then 63
    else -1
  }

  lemma SextetCharRoundTrip(v: Sextet)
    ensures CharSextet(SextetChar(v)) == v
    ensures SextetChar(v) != '='
  {
  }

  /** The 6-bit groups of a byte sequence: four per three bytes, three for a
      final pair of bytes, two for a final single byte. Bits past the end of
      the input are zero. */
  function Sextets(bs: seq<Byte>): (sx: seq<Sextet>)
    ensures |bs| < 3 ==> |sx| == [0, 2, 3][|bs|]
    ensures |bs| >= 3 ==> |sx| == 4 + |Sextets(bs[3..])|
  {
    if |bs| == 0 then []
    else if |bs| == 1 then [bs[0] / 4, (bs[0] % 4) * 16]
    else if |bs| == 2 then [bs[0] / 4, (bs[0] % 4) * 16 + bs[1] / 16, (bs[1] % 16) * 4]
    else [bs[0] / 4, (bs[0] % 4) * 16 + bs[1] / 16, (bs[1] % 16) * 4 + bs[2] / 64, bs[2] % 64] + Sextets(bs[3..])
  }

  /** The '=' characters that complete the last group of four. */
  function Padding(n: nat): string {
    if n % 3 == 1 then "==" else if n % 3 == 2 then "=" else ""
  }

  function Chars(sx: seq<Sextet>): (s: string)
    ensures |s| == |sx|
  {
    seq(|sx|, i requires 0 <= i < |sx| => SextetChar(sx[i]))
  }

  /** Base64 encoding of a byte sequence. */
  function Encode(bs: seq<Byte>): string {
    Chars(Sextets(bs)) + Padding(|bs|)
  }

  /** Groups of four sextets back to three bytes; a final group of three or
      two sextets gives two or one bytes, and the bits the encoder filled with
      zeros must be zero. */
  function SextetsToBytes(sx: seq<Sextet>): Option<seq<Byte>> {
    if |sx| < 2 then (if |sx| == 0 then Some([]) else None)
    else
      var s0, s1 := sx[0] as int, sx[1] as int;
      if |sx| == 2 then
        if s1 % 16 != 0 then None else Some([s0 * 4 + s1 / 16])
      else
        var s2 := sx[2] as int;
        if |sx| == 3 then
          if s2 % 4 != 0 then None
          else Some([s0 * 4 + s1 / 16, (s1 % 16) * 16 + s2 / 4])
        else
          match SextetsToBytes(sx[4..])
          case None => None
          case Some(rest) =>
            Some([s0 * 4 + s1 / 16, (s1 % 16) * 16 + s2 / 4, (s2 % 4) * 64 + sx[3] as int] + rest)
  }

  /** Number of '=' characters at the end of `s`, at most two. */
  function TrailingPad(s: string): nat {
    if |s| >= 2 && s[|s| - 1] == '=' && s[|s| - 2] == '=' then 2
    else if |s| >= 1 && s[|s| - 1] == '=' then 1
    else 0
  }

  /** Strict decoding: a length that is a multiple of four, at most two '='
      and only at the end, alphabet characters everywhere else, and zero
      filler bits. */
  function Decode(s: string): Option<seq<Byte>> {
    if |s| % 4 != 0 then None
    else
      var body := s[..|s| - TrailingPad(s)];
      if exists i :: 0 <= i < |body| && CharSextet(body[i]) < 0 then None
      else SextetsToBytes(seq(|body|, i requires 0 <= i < |body| && CharSextet(body[i]) >= 0 => CharSextet(body[i]) as Sextet))
  }

  /** The sextet layer has 4 groups per 3 bytes plus 0, 2 or 3 for the rest. */
  lemma {:induction false} SextetsLength(bs: seq<Byte>)
    ensures |Sextets(bs)| + |Padding(|bs|)| == 4 * ((|bs| + 2) / 3)
    ensures |bs| % 3 == 0 ==> |Sextets(bs)| % 4 == 0
    ensures |bs| % 3 == 1 ==> |Sextets(bs)| % 4 == 2
    ensures |bs| % 3 == 2 ==> |Sextets(bs)| % 4 == 3
  {
    if |bs| >= 3 {
      var rest := bs[3..];
      SextetsLength(rest);
      GroupStep(|rest|, |Sextets(rest)|);
    } else {
      assert |Sextets(bs)| == [0, 2, 3][|bs|];
    }
  }

  /** Three more bytes: the same remainder, one more group of four. */
  lemma GroupStep(m: nat, k: nat)
    ensures (m + 3) % 3 == m % 3
    ensures (m + 3 + 2) / 3 == (m + 2) / 3 + 1
    ensures Padding(m + 3) == Padding(m)
    ensures (k + 4) % 4 == k % 4
  {
  }

  /** The encoded length: four characters per started group of three bytes. */
  lemma EncodeLength(bs: seq<Byte>)
    ensures |Encode(bs)| == 4 * ((|bs| + 2) / 3)
  {
    SextetsLength(bs);
  }

  /** A 6-bit group made of a high part `hi` (times k) and a low part. */
  lemma SplitSextet(hi: int, lo: int, k: int)
    requires k == 4 || k == 16 || k == 64
    requires 0 <= lo < k && hi >= 0
    ensures (hi * k + lo) / k == hi && (hi * k + lo) % k == lo
  {
    ModUnique(hi * k + lo, k, hi, lo);
  }

  /** The byte layer round-trips. */
  lemma {:induction false} SextetsRoundTrip(bs: seq<Byte>)
    ensures SextetsToBytes(Sextets(bs)) == Some(bs)
  {
    if |bs| == 1 {
      assert bs == [bs[0]];
      SingleBits(bs[0]);
    } else if |bs| == 2 {
      assert bs == [bs[0], bs[1]];
      PairBits(bs[0], bs[1]);
    } else if |bs| >= 3 {
      var a, b, c := bs[0], bs[1], bs[2];
      var sx := Sextets(bs);
      assert sx[4..] == Sextets(bs[3..]);
      SextetsRoundTrip(bs[3..]);
      var rest := SextetsToBytes(sx[4..]).value;
      assert SextetsToBytes(sx) == Some([a, b, c] + rest) by {
        GroupRoundTrip(a, b, c);
      }
      assert bs == [a, b, c] + bs[3..];
    }
  }

  /** A final single byte round-trips, its filler bits zero. */
  lemma SingleBits(a: Byte)
    ensures SextetsToBytes(Sextets([a])) == Some([a])
  {
    SplitSextet(a % 4, 0, 16);
  }

  /** A final pair of bytes round-trips, its filler bits zero. */
  lemma PairBits(a: Byte, b: Byte)
    ensures SextetsToBytes(Sextets([a, b])) == Some([a, b])
  {
    SplitSextet(a % 4, b / 16, 16);
    SplitSextet(b % 16, 0, 4);
  }

  /** The four sextets of three bytes give the three bytes back. */
  lemma GroupRoundTrip(a: Byte, b: Byte, c: Byte)
    ensures a / 4 * 4 + ((a % 4) * 16 + b / 16) / 16 == a
    ensures (((a % 4) * 16 + b / 16) % 16) * 16 + ((b % 16) * 4 + c / 64) / 4 == b
    ensures (((b % 16) * 4 + c / 64) % 4) * 64 + c % 64 == c
  {
    SplitSextet(a % 4, b / 16, 16);
    SplitSextet(b % 16, c / 64, 4);
  }

  /** The character layer round-trips and contains no '='. */
  lemma CharsRoundTrip(sx: seq<Sextet>)
    ensures forall i :: 0 <= i < |sx| ==> CharSextet(Chars(sx)[i]) == sx[i]
    ensures forall i :: 0 <= i < |sx| ==> Chars(sx)[i] != '='
  {
    forall i | 0 <= i < |sx|
      ensures CharSextet(Chars(sx)[i]) == sx[i] && Chars(sx)[i] != '='
    {
      SextetCharRoundTrip(sx[i]);
    }
  }

  /** An encoding has a length that is a multiple of four, and stripping
      its trailing '=' leaves exactly the alphabet characters. */
  lemma EncodedBody(bs: seq<Byte>)
    ensures |Encode(bs)| % 4 == 0
    ensures TrailingPad(Encode(bs)) == |Padding(|bs|)|
    ensures Encode(bs)[..|Encode(bs)| - TrailingPad(Encode(bs))] == Chars(Sextets(bs))
  {
    var sx := Sextets(bs);
    var pad := Padding(|bs|);
    assert |sx| + |pad| == 4 * ((|bs| + 2) / 3) && (pad == "=" ==> sx != []) by {
      SextetsLength(bs);
    }
    FourTimes((|bs| + 2) / 3);
    assert TrailingPad(Chars(sx) + pad) == |pad| && (Chars(sx) + pad)[..|sx| + |pad| - |pad|] == Chars(sx) by {
      CharsRoundTrip(sx);
      PaddedBody(Chars(sx), pad);
    }
  }

  lemma FourTimes(k: int)
    ensures (4 * k) % 4 == 0
  {
  }

  /** Alphabet characters followed by at most two '=' (one only after at
      least one character) end in exactly that many '='. */
  lemma PaddedBody(cs: string, pad: string)
    requires forall i :: 0 <= i < |cs| ==> cs[i] != '='
    requires pad == "" || pad == "=" || pad == "=="
    requires pad == "=" ==> cs != []
    ensures TrailingPad(cs + pad) == |pad|
    ensures (cs + pad)[..|cs + pad| - |pad|] == cs
  {
    var s := cs + pad;
    if pad == "=" {
      assert s[|s| - 2] == cs[|cs| - 1];
    } else if pad == "" && s != [] {
      assert s[|s| - 1] == cs[|cs| - 1];
    }
    assert s[..|s| - |pad|] == cs;
  }

  /** Reading the alphabet characters back gives the sextets. */
  lemma CharsDecode(sx: seq<Sextet>)
    ensures var cs := Chars(sx);
      !(exists i :: 0 <= i < |cs| && CharSextet(cs[i]) < 0)
      && seq(|cs|, i requires 0 <= i < |cs| && CharSextet(cs[i]) >= 0 => CharSextet(cs[i]) as Sextet) == sx
  {
    CharsRoundTrip(sx);
  }

  /** Decoding an encoding gives back the bytes. */
  lemma DecodeEncode(bs: seq<Byte>)
    ensures Decode(Encode(bs)) == Some(bs)
  {
    EncodedBody(bs);
    CharsDecode(Sextets(bs));
    SextetsRoundTrip(bs);
  }

  /** Number of occurrences of `c` in `s`. */
  function Count(s: string, c: char): nat {
    multiset(s)[c]
  }

  /** The encoding carries exactly as many '=' as the last group is short of
      three bytes, all of them at the end. */
  lemma PaddingShape(bs: seq<Byte>)
    ensures Count(Encode(bs), '=') == (3 - |bs| % 3) % 3
    ensures forall i :: 0 <= i < |Encode(bs)| - (3 - |bs| % 3) % 3 ==> Encode(bs)[i] != '='
  {
    var sx := Sextets(bs);
    var cs := Chars(sx);
    var pad := Padding(|bs|);
    CharsRoundTrip(sx);
    assert '=' !in cs;
    assert multiset(cs + pad) == multiset(cs) + multiset(pad);
    PaddingCount(|bs|);
    assert forall i :: 0 <= i < |cs| ==> (cs + pad)[i] == cs[i];
  }

  lemma PaddingCount(n: nat)
    ensures multiset(Padding(n))['='] == |Padding(n)| == (3 - n % 3) % 3
  {
    if n % 3 == 1 {
      assert multiset(Padding(n)) == multiset{'=', '='};
    } else if n % 3 == 2 {
      assert multiset(Padding(n)) == multiset{'='};
    }
  }

  /** A length one short of a multiple of three ends the encoding in
      exactly one '='. */
  lemma OnePadShape(bs: seq<Byte>)
    requires |bs| % 3 == 2
    ensures |Encode(bs)| == 4 * ((|bs| + 2) / 3)
    ensures Count(Encode(bs), '=') == 1
    ensures Encode(bs)[|Encode(bs)| - 1] == '='
  {
    EncodeLength(bs);
    PaddingShape(bs);
    var cs := Chars(Sextets(bs));
    assert Encode(bs) == cs + "=";
  }
}
