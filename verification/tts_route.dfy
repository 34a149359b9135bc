/** The text-to-speech route of app/api/text-to-speech/route.ts: `POST`
    checks the request's `text`, and `generateSimpleAudio` turns the text's
    length into a duration, writes the 44-byte WAV header for that many
    16 kHz samples, and returns it as a base64 `data:` URL (section 3 of
    RFC 2397, section 4 of RFC 4648). No sample data follows the header. */
module TextToSpeech {
  import opened Values
  import Text
  import opened Bytes
  import Base64
  import opened WavHeader

  /** ECMAScript ToNumber of a string, for the forms a decimal integer can
      take: surrounding white space, an optional sign, decimal digits. The
      empty (or all white space) string is 0; every other string is NaN
      here, including fractions, exponents, hexadecimal and "Infinity"
      (see README "Left out"). */
  function StringToNumber(s: string): (r: Number)
    ensures Text.JsTrim(s) == [] ==> r == Int(0)
    ensures r.Int? && Text.JsTrim(s) != [] ==> Text.IsDigit(Text.JsTrim(s)[|Text.JsTrim(s)| - 1])
  {
    var t := Text.JsTrim(s);
    if t == [] then Int(0)
    else if AllDigits(t) then Int(Text.DecimalValue(t))
    else if |t| > 1 && (t[0] == '-' || t[0] == '+') && AllDigits(t[1..]) then
      var v := Text.DecimalValue(t[1..]);
      Int(if t[0] == '-' then -(v as int) else v)
    else NaN
  }

  predicate AllDigits(s: string) {
    forall i :: 0 <= i < |s| ==> Text.IsDigit(s[i])
  }

  /** ECMAScript ToNumber, as the division `text.length / 10` applies it to
      the value of `length`. */
  function ToNumber(v: Value): (r: Number)
    ensures v.Num? ==> r == Int(v.n)
    ensures v.Undefined? || v.Obj? ==> r == NaN
  {
    match v
    case Undefined => NaN
    case Null => Int(0)
    case Bool(b) => Int(if b then 1 else 0)
    case Num(n) => Int(n)
    case Str(s) => StringToNumber(s)
    case Arr(_) => StringToNumber(JsToString(v))
    case Obj(_) => NaN
  }

  /** `text.length` as a number. `text` is truthy at the call, so the read
      cannot throw; a string counts UTF-16 code units, an array its
      elements, an object whatever its own `length` property holds. */
  function LengthOf(text: Value): Number
    requires JsTruthy(text)
  {
    ToNumber(GetProp(text, "length").value)
  }

  /** `Math.max(1, Math.ceil(length / 10))`: whole seconds, at least one;
      NaN stays NaN. */
  function Duration(length: Number): (d: Number)
    ensures length.NaN? <==> d.NaN?
    ensures d.Int? ==> d.i >= 1 && 10 * d.i >= length.i
    ensures d.Int? && d.i > 1 ==> 10 * (d.i - 1) < length.i
  {
    match length
    case NaN => NaN
    case Int(l) =>
      var ceil := (l + 9) / 10;
      Int(if ceil < 1 then 1 else ceil)
  }

  /** `sampleRate * duration`. */
  function SampleCount(length: Number): Number {
    Mul(Int(SampleRate), Duration(length))
  }

  /** The binary string of the header: one character per byte, as
      `String.fromCharCode` makes it. */
  function BinaryString(bs: seq<Byte>): (s: string)
    ensures |s| == |bs|
    ensures forall i :: 0 <= i < |s| ==> s[i] as int == bs[i]
  {
    seq(|bs|, i requires 0 <= i < |bs| => bs[i] as char)
  }

  /** What `btoa` does: a string whose characters are all at most U+00FF is
      taken as bytes and base64-encoded; any other string raises an
      InvalidCharacterError. */
  datatype Btoa = Encoded(text: string) | InvalidCharacter

  function Latin1(s: string): (bs: seq<Byte>)
    requires forall i :: 0 <= i < |s| ==> s[i] as int < 256
    ensures |bs| == |s|
  {
    seq(|s|, i requires 0 <= i < |s| => s[i] as int)
  }

  function BtoaOf(s: string): (r: Btoa)
    ensures r.Encoded? <==> forall i :: 0 <= i < |s| ==> s[i] as int < 256
  {
    if forall i :: 0 <= i < |s| ==> s[i] as int < 256 then Encoded(Base64.Encode(Latin1(s)))
    else InvalidCharacter
  }

  /** The media type and encoding part of the `data:` URL. */
  const DataUrlPrefix := "data:audio/wav;base64,"

  /** The `data:` URL of a header: the binary string through `btoa`. */
  function AudioUrl(header: seq<Byte>): string {
    var encoded := BtoaOf(BinaryString(header));
    DataUrlPrefix + encoded.text
  }

  /** `generateSimpleAudio(text)`. */
  function GenerateSimpleAudio(text: Value): (url: string)
    requires JsTruthy(text)
    ensures |url| > |DataUrlPrefix| && url[..|DataUrlPrefix|] == DataUrlPrefix
  {
    AudioUrl(Header(SampleCount(LengthOf(text))))
  }

  /** `POST /api/text-to-speech`. A body that is not JSON, or is JSON
      `null`, makes the destructuring throw and the catch answer 500; a
      falsy `text` is answered 400; otherwise the data URL. `lang` is read
      but never used. */
  function Post(request: RequestBody): (reply: Reply)
    ensures reply.Json?
    ensures reply.status == 200 || reply.status == 400 || reply.status == 500
  {
    match request
    case Unparsable => ConversionFailed
    case Parsed(body) =>
      match GetProp(body, "text")
      case TypeError => ConversionFailed
      case Got(text) =>
        if !JsTruthy(text) then Json(400, Object1("error", Str("No text provided")))
        else Json(200, Object1("audioUrl", Str(GenerateSimpleAudio(text))))
  }

  const ConversionFailed := Json(500, Object1("error", Str("Text-to-speech conversion failed")))

  /** The three outcomes of the route, each with its exact condition: 500
      when the body does not parse or is `null`, 400 when `text` is falsy,
      200 with the audio URL otherwise. */
  lemma PostOutcomes(request: RequestBody)
    ensures Post(request).status == 500 <==>
      request.Unparsable? || request.json.Null? || request.json.Undefined?
    ensures Post(request).status == 400 <==>
      request.Parsed? && !(request.json.Null? || request.json.Undefined?)
      && !JsTruthy(GetProp(request.json, "text").value)
    ensures Post(request).status == 400 ==> Post(request).body == Object1("error", Str("No text provided"))
    ensures Post(request).status == 200 ==>
      var text := GetProp(request.json, "text").value;
      JsTruthy(text) && Post(request).body == Object1("audioUrl", Str(GenerateSimpleAudio(text)))
  {
  }

  /** `lang` has no effect on the reply. */
  lemma LangIgnored(props: map<string, Value>, lang: Value)
    ensures Post(Parsed(Obj(props["lang" := lang]))) == Post(Parsed(Obj(props)))
  {
    var with := props["lang" := lang];
    assert GetProp(Obj(with), "text") == GetProp(Obj(props), "text");
  }

  /** The audio depends on `text` only through its length. */
  lemma DependsOnlyOnLength(a: Value, b: Value)
    requires JsTruthy(a) && JsTruthy(b) && LengthOf(a) == LengthOf(b)
    ensures GenerateSimpleAudio(a) == GenerateSimpleAudio(b)
  {
  }

  /** The binary string of bytes reads back as the same bytes. */
  lemma Latin1OfBinary(bs: seq<Byte>)
    ensures forall i :: 0 <= i < |BinaryString(bs)| ==> BinaryString(bs)[i] as int < 256
    ensures Latin1(BinaryString(bs)) == bs
  {
  }

  /** The URL of any byte sequence is the data prefix followed by a base64
      payload that decodes to exactly those bytes. */
  lemma AudioUrlRoundTrip(bs: seq<Byte>)
    ensures |AudioUrl(bs)| >= |DataUrlPrefix| && AudioUrl(bs)[..|DataUrlPrefix|] == DataUrlPrefix
    ensures Base64.Decode(AudioUrl(bs)[|DataUrlPrefix|..]) == Base64.Some(bs)
    ensures AudioUrl(bs)[|DataUrlPrefix|..] == Base64.Encode(bs)
  {
    Latin1OfBinary(bs);
    var payload := Base64.Encode(bs);
    assert AudioUrl(bs) == DataUrlPrefix + payload;
    assert (DataUrlPrefix + payload)[|DataUrlPrefix|..] == payload;
    Base64.DecodeEncode(bs);
  }

  /** The URL carries the header for the text's sample count and nothing
      more: decoding its payload gives back the 44 header bytes, so no
      sample data follows the header. */
  lemma AudioUrlDecodes(text: Value)
    requires JsTruthy(text)
    ensures var url := GenerateSimpleAudio(text);
      |url| >= |DataUrlPrefix| && url[..|DataUrlPrefix|] == DataUrlPrefix
      && Base64.Decode(url[|DataUrlPrefix|..]) == Base64.Some(Header(SampleCount(LengthOf(text))))
  {
    AudioUrlRoundTrip(Header(SampleCount(LengthOf(text))));
  }

  /** The URL of a header whose length is one short of a multiple of three
      (the 44-byte header is one) is the 22-character prefix and four base64
      characters per started group of three bytes, the last of which is the
      only '='. */
  lemma UrlOfShortGroup(bs: seq<Byte>, groups: nat)
    requires |bs| == 3 * groups + 2
    ensures |AudioUrl(bs)| == 22 + 4 * (groups + 1)
    ensures AudioUrl(bs)[..22] == DataUrlPrefix
    ensures Base64.Count(AudioUrl(bs)[22..], '=') == 1
    ensures AudioUrl(bs)[|AudioUrl(bs)| - 1] == '='
  {
    var url := AudioUrl(bs);
    var payload := Base64.Encode(bs);
    assert url[..22] == DataUrlPrefix && url[22..] == payload by {
      AudioUrlRoundTrip(bs);
    }
    assert |payload| == 4 * (groups + 1) && Base64.Count(payload, '=') == 1 && payload[|payload| - 1] == '=' by {
      GroupCount(|bs|, groups);
      Base64.OnePadShape(bs);
    }
    LastOfSuffix(url, 22, payload);
  }

  /** A string ending in a non-empty suffix ends with that suffix's last
      character. */
  lemma LastOfSuffix(s: string, k: nat, suffix: string)
    requires k <= |s| && s[k..] == suffix && suffix != []
    ensures |s| == k + |suffix| && s[|s| - 1] == suffix[|suffix| - 1]
  {
    assert s[k..][|suffix| - 1] == s[|s| - 1];
  }

  lemma GroupCount(n: nat, groups: nat)
    requires n == 3 * groups + 2
    ensures n % 3 == 2 && (n + 2) / 3 == groups + 1
  {
  }

  /** The URL of a 44-byte header is 82 characters. */
  lemma UrlOf44(h: seq<Byte>)
    requires |h| == 44
    ensures var url := AudioUrl(h);
      |url| == 82 && url[..22] == DataUrlPrefix
      && Base64.Count(url[22..], '=') == 1 && url[81] == '='
  {
    UrlOfShortGroup(h, 14);
    var url := AudioUrl(h);
    assert url[81] == url[|url| - 1];
  }

  /** The audio URL is 82 characters, the last the only '='. */
  lemma AudioUrlShape(text: Value)
    requires JsTruthy(text)
    ensures var url := GenerateSimpleAudio(text);
      |url| == 82 && url[..22] == DataUrlPrefix
      && Base64.Count(url[22..], '=') == 1 && url[81] == '='
  {
    UrlOf44(Header(SampleCount(LengthOf(text))));
  }

  /** The data-size field claims twice the sample count in bytes, modulo
      2^32, although no sample byte follows the header. */
  lemma DataSizeField(text: Value)
    requires text.Str? && JsTruthy(text)
    ensures var d := Duration(LengthOf(text));
      d.Int? && ReadUint(Header(SampleCount(LengthOf(text))), DataSizeAt, 4, true) == (32000 * d.i) % 0x1_0000_0000
  {
    var l := Utf16Length(text.s);
    assert LengthOf(text) == Int(l);
    var d := Duration(Int(l));
    var samples := SampleCount(Int(l));
    assert Mul(samples, Int(2)) == Int(32000 * d.i);
    assert ReadUint(Header(samples), DataSizeAt, 4, true) == ToUint(Mul(samples, Int(2)), 4) by {
      HeaderHolds(samples);
      HeaderSizes(Header(samples), samples);
    }
  }

  /** For a string of up to 1342170 code units the claim is exact: 32000
      bytes per second of duration. */
  lemma DeclaredDataSize(text: Value)
    requires text.Str? && JsTruthy(text)
    requires Utf16Length(text.s) <= 1342170
    ensures var d := Duration(LengthOf(text));
      d.Int? && ReadUint(Header(SampleCount(LengthOf(text))), DataSizeAt, 4, true) == 32000 * d.i > 0
  {
    DataSizeField(text);
    var d := Duration(LengthOf(text));
    assert LengthOf(text) == Int(Utf16Length(text.s));
    assert d.i <= 134217;
    ModUnique(32000 * d.i, 0x1_0000_0000, 0, 32000 * d.i);
  }

  /** A string of 1342171 code units asks for 134218 seconds, whose
      4294976000 data bytes wrap modulo 2^32 to 8704 in the size field. */
  lemma DataSizeWraps(text: Value)
    requires text.Str? && Utf16Length(text.s) == 1342171
    ensures JsTruthy(text) && Duration(LengthOf(text)) == Int(134218)
    ensures ReadUint(Header(SampleCount(LengthOf(text))), DataSizeAt, 4, true) == 8704
  {
    assert JsTruthy(text);
    DataSizeField(text);
    assert LengthOf(text) == Int(1342171);
    ModUnique(4294976000, 0x1_0000_0000, 1, 8704);
  }
}
