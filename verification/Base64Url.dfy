/** Base64url of RFC 4648 section 5 as the CLI uses it: encoded without padding, decoded with or without. */
module Base64Url {
  import opened Bytes
  import opened Outcomes

  type sextet = x: int | 0 <= x < 64

  /** The alphabet of RFC 4648 table 2. */
  function Digit(v: sextet): char {
    if v < 26 then 'A' + v as char
    else if v < 52 then 'a' + (v - 26) as char
    else if v < 62 then '0' + (v - 52) as char
    else if v == 62 then '-' else '_'
  }

  predicate IsDigit(c: char) {
    'A' <= c <= 'Z' || 'a' <= c <= 'z' || '0' <= c <= '9' || c == '-' || c == '_'
  }

  function Value(c: char): sextet
    requires IsDigit(c)
  {
    if 'A' <= c <= 'Z' then (c - 'A') as int
    else if 'a' <= c <= 'z' then (c - 'a') as int + 26
    else if '0' <= c <= '9' then (c - '0') as int + 52
    else if c == '-' then 62 else 63
  }

  lemma DigitValue(v: sextet)
    ensures IsDigit(Digit(v)) && Value(Digit(v)) == v
  {
  }

  lemma ValueDigit(c: char)
    requires IsDigit(c)
    ensures Digit(Value(c)) == c
  {
  }

  /** The digits of a list of 6-bit values. */
  function Text(vs: seq<sextet>): string {
    seq(|vs|, i requires 0 <= i < |vs| => Digit(vs[i]))
  }

  predicate AllDigits(s: string) {
    forall i | 0 <= i < |s| :: IsDigit(s[i])
  }

  function Values(s: string): seq<sextet>
    requires AllDigits(s)
  {
    seq(|s|, i requires 0 <= i < |s| => Value(s[i]))
  }

  lemma TextValues(vs: seq<sextet>)
    ensures AllDigits(Text(vs)) && Values(Text(vs)) == vs
  {
    forall i | 0 <= i < |vs| ensures IsDigit(Digit(vs[i])) && Value(Digit(vs[i])) == vs[i] {
      DigitValue(vs[i]);
    }
  }

  lemma ValuesText(s: string)
    requires AllDigits(s)
    ensures Text(Values(s)) == s
  {
    forall i | 0 <= i < |s| ensures Digit(Value(s[i])) == s[i] {
      ValueDigit(s[i]);
    }
  }

  /** The 24-bit groups of b as 6-bit values; a short last group is filled with zero bits. */
  function Pack(b: Data): seq<sextet> {
    if |b| == 0 then []
    else if |b| == 1 then [b[0] / 4, b[0] % 4 * 16]
    else if |b| == 2 then [b[0] / 4, b[0] % 4 * 16 + b[1] / 16, b[1] % 16 * 4]
    else [b[0] / 4, b[0] % 4 * 16 + b[1] / 16, b[1] % 16 * 4 + b[2] / 64, b[2] % 64] + Pack(b[3..])
  }

  function Byte0(v0: sextet, v1: sextet): byte { v0 * 4 + v1 / 16 }
  function Byte1(v1: sextet, v2: sextet): byte { v1 % 16 * 16 + v2 / 4 }
  function Byte2(v2: sextet, v3: sextet): byte { v2 % 4 * 64 + v3 }

  /** The bytes of complete groups; the spare low bits of a short last group are ignored, a lone digit is an error. */
  function Unpack(vs: seq<sextet>): Result<Data> {
    if |vs| == 0 then Ok([])
    else if |vs| == 1 then Err("illegal base64 data")
    else if |vs| == 2 then Ok([Byte0(vs[0], vs[1])])
    else if |vs| == 3 then Ok([Byte0(vs[0], vs[1]), Byte1(vs[1], vs[2])])
    else
      var rest := Unpack(vs[4..]);
      if rest.Err? then rest
      else Ok([Byte0(vs[0], vs[1]), Byte1(vs[1], vs[2]), Byte2(vs[2], vs[3])] + rest.value)
  }

  /** RawURLEncoding.EncodeToString. */
  function Encode(b: Data): string {
    Text(Pack(b))
  }

  /** The library's decoder skips line breaks anywhere in the text. */
  function DropLineBreaks(s: string): string {
    if s == "" then ""
    else if s[0] == '\r' || s[0] == '\n' then DropLineBreaks(s[1..])
    else [s[0]] + DropLineBreaks(s[1..])
  }

  /** RawURLEncoding.DecodeString. */
  function RawDecode(s: string): Result<Data> {
    var digits := DropLineBreaks(s);
    if AllDigits(digits) then Unpack(Values(digits)) else Err("illegal base64 data")
  }

  /** strings.TrimRight(s, "="). */
  function TrimPadding(s: string): string {
    if s != "" && s[|s| - 1] == '=' then TrimPadding(s[..|s| - 1]) else s
  }

  /** DecodeB64. */
  function Decode(s: string): Result<Data> {
    RawDecode(TrimPadding(s))
  }

  /** Encoded text is digits only: none of the characters the pod refuses in a write, no padding and no line break. */
  lemma EncodeDigits(b: Data)
    ensures AllDigits(Encode(b))
    ensures forall c <- "+/=\r\n" :: c !in Encode(b)
  {
    TextValues(Pack(b));
  }

  lemma {:induction false} EncodedLength(b: Data)
    ensures |Encode(b)| == (|b| * 4 + 2) / 3
  {
    if |b| >= 3 {
      EncodedLength(b[3..]);
    }
  }

  lemma {:induction false} NoLineBreaks(s: string)
    requires AllDigits(s)
    ensures DropLineBreaks(s) == s
  {
    if s != "" {
      NoLineBreaks(s[1..]);
      assert s == [s[0]] + s[1..];
    }
  }

  lemma {:induction false} TrimsPadding(s: string, pad: string)
    requires s == "" || s[|s| - 1] != '='
    requires forall i | 0 <= i < |pad| :: pad[i] == '='
    ensures TrimPadding(s + pad) == s
  {
    if pad == "" {
      assert s + pad == s;
    } else {
      var shorter := pad[..|pad| - 1];
      assert (s + pad)[..|s + pad| - 1] == s + shorter;
      assert (s + pad)[|s + pad| - 1] == pad[|pad| - 1];
      TrimsPadding(s, shorter);
    }
  }

  lemma ByteGroup(b0: byte, b1: byte, b2: byte)
    ensures Byte0(b0 / 4, b0 % 4 * 16) == b0
    ensures Byte0(b0 / 4, b0 % 4 * 16 + b1 / 16) == b0
    ensures Byte1(b0 % 4 * 16 + b1 / 16, b1 % 16 * 4) == b1
    ensures Byte1(b0 % 4 * 16 + b1 / 16, b1 % 16 * 4 + b2 / 64) == b1
    ensures Byte2(b1 % 16 * 4 + b2 / 64, b2 % 64) == b2
  {
  }

  lemma UnpackGroup(v0: sextet, v1: sextet, v2: sextet, v3: sextet, rest: seq<sextet>, d: Data)
    requires Unpack(rest) == Ok(d)
    ensures Unpack([v0, v1, v2, v3] + rest) == Ok([Byte0(v0, v1), Byte1(v1, v2), Byte2(v2, v3)] + d)
  {
    var vs := [v0, v1, v2, v3] + rest;
    assert |vs| >= 4 && vs[4..] == rest;
  }

  lemma UnpackPackOne(b0: byte)
    ensures Unpack(Pack([b0])) == Ok([b0])
  {
    ByteGroup(b0, 0, 0);
    assert Pack([b0]) == [b0 / 4, b0 % 4 * 16];
  }

  lemma UnpackPackTwo(b0: byte, b1: byte)
    ensures Unpack(Pack([b0, b1])) == Ok([b0, b1])
  {
    ByteGroup(b0, b1, 0);
    assert Pack([b0, b1]) == [b0 / 4, b0 % 4 * 16 + b1 / 16, b1 % 16 * 4];
  }

  lemma {:induction false} UnpackPack(b: Data)
    ensures Unpack(Pack(b)) == Ok(b)
  {
    if |b| == 0 {
    } else if |b| == 1 {
      UnpackPackOne(b[0]);
      assert b == [b[0]];
    } else if |b| == 2 {
      UnpackPackTwo(b[0], b[1]);
      assert b == [b[0], b[1]];
    } else {
      var rest := b[3..];
      ByteGroup(b[0], b[1], b[2]);
      UnpackPack(rest);
      UnpackGroup(b[0] / 4, b[0] % 4 * 16 + b[1] / 16, b[1] % 16 * 4 + b[2] / 64, b[2] % 64, Pack(rest), rest);
      assert b == [b[0], b[1], b[2]] + rest;
    }
  }

  /** Every byte string survives encoding and decoding, with any number of padding characters added. */
  lemma RoundTrip(b: Data, pad: string)
    requires forall i | 0 <= i < |pad| :: pad[i] == '='
    ensures Decode(Encode(b) + pad) == Ok(b)
  {
    EncodeDigits(b);
    TrimsPadding(Encode(b), pad);
    NoLineBreaks(Encode(b));
    TextValues(Pack(b));
    UnpackPack(b);
  }

  lemma RawRoundTrip(b: Data)
    ensures RawDecode(Encode(b)) == Ok(b)
  {
    EncodeDigits(b);
    NoLineBreaks(Encode(b));
    TextValues(Pack(b));
    UnpackPack(b);
  }

  lemma RoundTripUnpadded(b: Data)
    ensures Decode(Encode(b)) == Ok(b)
  {
    RoundTrip(b, "");
    assert Encode(b) + "" == Encode(b);
  }

  /** The bits of the last digit that carry no data are zero. */
  predicate SpareBitsClear(vs: seq<sextet>) {
    (|vs| % 4 == 2 ==> vs[|vs| - 1] % 16 == 0) && (|vs| % 4 == 3 ==> vs[|vs| - 1] % 4 == 0)
  }

  lemma DigitGroup(v0: sextet, v1: sextet, v2: sextet, v3: sextet)
    ensures Byte0(v0, v1) / 4 == v0
    ensures Byte0(v0, v1) % 4 * 16 == v1 / 16 * 16
    ensures Byte0(v0, v1) % 4 * 16 + Byte1(v1, v2) / 16 == v1
    ensures Byte1(v1, v2) % 16 * 4 == v2 / 4 * 4
    ensures Byte1(v1, v2) % 16 * 4 + Byte2(v2, v3) / 64 == v2
    ensures Byte2(v2, v3) % 64 == v3
  {
  }

  lemma PackGroup(b: Data, v0: sextet, v1: sextet, v2: sextet, v3: sextet)
    requires |b| >= 3
    requires b[0] == Byte0(v0, v1) && b[1] == Byte1(v1, v2) && b[2] == Byte2(v2, v3)
    ensures Pack(b) == [v0, v1, v2, v3] + Pack(b[3..])
  {
    DigitGroup(v0, v1, v2, v3);
  }

  lemma PackUnpackGroup(vs: seq<sextet>)
    requires |vs| >= 4 && Unpack(vs).Ok?
    ensures Pack(Unpack(vs).value) == vs[..4] + Pack(Unpack(vs[4..]).value)
  {
    var b := Unpack(vs).value;
    PackGroup(b, vs[0], vs[1], vs[2], vs[3]);
    assert b[3..] == Unpack(vs[4..]).value;
    assert vs[..4] == [vs[0], vs[1], vs[2], vs[3]];
  }

  lemma PackUnpackTwo(v0: sextet, v1: sextet)
    ensures Pack([Byte0(v0, v1)]) == [v0, v1 / 16 * 16]
  {
    DigitGroup(v0, v1, 0, 0);
  }

  lemma PackUnpackThree(v0: sextet, v1: sextet, v2: sextet)
    ensures Pack([Byte0(v0, v1), Byte1(v1, v2)]) == [v0, v1, v2 / 4 * 4]
  {
    DigitGroup(v0, v1, v2, 0);
  }

  lemma {:induction false} PackUnpack(vs: seq<sextet>)
    requires Unpack(vs).Ok?
    ensures Pack(Unpack(vs).value) == vs <==> SpareBitsClear(vs)
  {
    if |vs| == 2 {
      PackUnpackTwo(vs[0], vs[1]);
    } else if |vs| == 3 {
      PackUnpackThree(vs[0], vs[1], vs[2]);
    } else if |vs| >= 4 {
      PackUnpackGroup(vs);
      PackUnpack(vs[4..]);
      SameTail(vs[..4], Pack(Unpack(vs[4..]).value), vs);
    }
  }

  lemma SameTail(head: seq<sextet>, tail: seq<sextet>, vs: seq<sextet>)
    requires |head| == 4 <= |vs| && head == vs[..4]
    ensures head + tail == vs <==> tail == vs[4..]
    ensures SpareBitsClear(vs) <==> SpareBitsClear(vs[4..])
  {
    assert vs == vs[..4] + vs[4..];
    assert (head + tail)[4..] == tail;
  }

  /**
    The decoder accepts more texts than the encoder writes. A text it accepts is what the encoder
    writes for the decoded bytes exactly when it has no padding, no line breaks and clear spare bits.
  */
  lemma CanonicalText(s: string)
    requires Decode(s).Ok?
    ensures Encode(Decode(s).value) == s <==> AllDigits(s) && SpareBitsClear(Values(s))
  {
    EncodeDigits(Decode(s).value);
    if AllDigits(s) {
      TrimsPadding(s, "");
      assert s + "" == s;
      NoLineBreaks(s);
      PackUnpack(Values(s));
      ValuesText(s);
      TextValues(Pack(Decode(s).value));
    }
  }

  // ── the signed manifest in two console lines (sendUploadSig) ──

  /** half: where the encoded manifest is cut. */
  function Half(text: string): nat {
    (|text| + 1) / 2
  }

  /**
    The two halves sent as upload-sig 0 and upload-sig 1 rejoin and decode to the manifest, and each fits one console
    line.
  */
  lemma ManifestHalvesRejoin(manifest: Data)
    requires |manifest| == 128
    ensures var text := Encode(manifest);
            |text| == 171 && |text[..Half(text)]| == 86 && |text[Half(text)..]| == 85
            && Decode(text[..Half(text)] + text[Half(text)..]) == Ok(manifest)
  {
    EncodedLength(manifest);
    var text := Encode(manifest);
    assert text[..Half(text)] + text[Half(text)..] == text;
    RoundTripUnpadded(manifest);
  }
}
