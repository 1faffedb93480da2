/** The base64url alphabet of section 5 of RFC 4648, without padding (as in JSON Web Tokens),
    and the lenient decoding Node's `Buffer.from(s, "base64url")` performs. */
module Base64Url {
  import opened Wrappers

  type Byte = b: int | 0 <= b < 256
  type Sextet = x: int | 0 <= x < 64

  /** The character that encodes a 6-bit value in the URL- and filename-safe alphabet. */
  function SextetChar(x: Sextet): char {
    if x < 26 then ('A' as int + x) as char
    else if x < 52 then ('a' as int + (x - 26)) as char
    else if x < 62 then ('0' as int + (x - 52)) as char
    else if x == 62 then '-'
    else '_'
  }

  /** The 6-bit value of a character; the decoder also accepts the standard alphabet's
      `+` and `/`, and gives no value for any other character. */
  function CharSextet(c: char): Option<Sextet> {
    if 'A' <= c <= 'Z' then Some(c as int - 'A' as int)
    else if 'a' <= c <= 'z' then Some(c as int - 'a' as int + 26)
    else if '0' <= c <= '9' then Some(c as int - '0' as int + 52)
    else if c == '-' || c == '+' then Some(62)
    else if c == '_' || c == '/' then Some(63)
    else None
  }

  /** Every group of three bytes becomes four 6-bit values; a final one or two bytes
      become two or three values, with the unused low bits zero. */
  function EncodeSextets(bs: seq<Byte>): (xs: seq<Sextet>)
    decreases |bs|
  {
    if |bs| == 0 then []
    else if |bs| == 1 then [bs[0] / 4, (bs[0] % 4) * 16]
    else if |bs| == 2 then [bs[0] / 4, (bs[0] % 4) * 16 + bs[1] / 16, (bs[1] % 16) * 4]
    else [bs[0] / 4, (bs[0] % 4) * 16 + bs[1] / 16, (bs[1] % 16) * 4 + bs[2] / 64, bs[2] % 64]
         + EncodeSextets(bs[3..])
  }

  function Chars(xs: seq<Sextet>): (s: string)
    ensures |s| == |xs|
  {
    if xs == [] then [] else [SextetChar(xs[0])] + Chars(xs[1..])
  }

  /** Unpadded base64url encoding. */
  function Encode(bs: seq<Byte>): string {
    Chars(EncodeSextets(bs))
  }

  /** The 6-bit values of the alphabet characters of `s`, in order; other characters are skipped. */
  function Sextets(s: string): seq<Sextet> {
    if s == [] then []
    else
      match CharSextet(s[0])
      case Some(x) => [x] + Sextets(s[1..])
      case None => Sextets(s[1..])
  }

  /** Four 6-bit values give three bytes; a final two or three give one or two bytes,
      and a final single value gives none. */
  function DecodeSextets(xs: seq<Sextet>): seq<Byte>
    decreases |xs|
  {
    if |xs| < 2 then []
    else
      var x0, x1 := xs[0] as int, xs[1] as int;
      if |xs| == 2 then [x0 * 4 + x1 / 16]
      else
        var x2 := xs[2] as int;
        if |xs| == 3 then [x0 * 4 + x1 / 16, (x1 % 16) * 16 + x2 / 4]
        else [x0 * 4 + x1 / 16, (x1 % 16) * 16 + x2 / 4, (x2 % 4) * 64 + xs[3] as int]
             + DecodeSextets(xs[4..])
  }

  /** `Buffer.from(s, "base64url")`. */
  function Decode(s: string): seq<Byte> {
    DecodeSextets(Sextets(s))
  }

  lemma SextetRoundTrip(x: Sextet)
    ensures CharSextet(SextetChar(x)) == Some(x)
  {
  }

  /** Decoding the characters of an encoding recovers its 6-bit values. */
  lemma {:induction false} SextetsOfChars(xs: seq<Sextet>)
    ensures Sextets(Chars(xs)) == xs
  {
    if xs != [] {
      SextetRoundTrip(xs[0]);
      assert Chars(xs)[1..] == Chars(xs[1..]);
      SextetsOfChars(xs[1..]);
    }
  }

  /** Every character of an encoding belongs to the alphabet. */
  lemma {:induction false} CharsInAlphabet(xs: seq<Sextet>)
    ensures forall i :: 0 <= i < |Chars(xs)| ==> CharSextet(Chars(xs)[i]).Some?
  {
    if xs != [] {
      SextetRoundTrip(xs[0]);
      CharsInAlphabet(xs[1..]);
      assert forall i :: 1 <= i < |Chars(xs)| ==> Chars(xs)[i] == Chars(xs[1..])[i - 1];
    }
  }

  lemma GroupRoundTrip(b0: Byte, b1: Byte, b2: Byte)
    ensures b0 / 4 * 4 + ((b0 % 4) * 16 + b1 / 16) / 16 == b0
    ensures (((b0 % 4) * 16 + b1 / 16) % 16) * 16 + ((b1 % 16) * 4 + b2 / 64) / 4 == b1
    ensures (((b1 % 16) * 4 + b2 / 64) % 4) * 64 + b2 % 64 == b2
  {
    assert ((b0 % 4) * 16 + b1 / 16) / 16 == b0 % 4;
    assert ((b0 % 4) * 16 + b1 / 16) % 16 == b1 / 16;
    assert ((b1 % 16) * 4 + b2 / 64) / 4 == b1 % 16;
    assert ((b1 % 16) * 4 + b2 / 64) % 4 == b2 / 64;
  }

  lemma {:induction false} DecodeEncodeSextets(bs: seq<Byte>)
    ensures DecodeSextets(EncodeSextets(bs)) == bs
    decreases |bs|
  {
    if |bs| == 1 {
      GroupRoundTrip(bs[0], 0, 0);
    } else if |bs| == 2 {
      GroupRoundTrip(bs[0], bs[1], 0);
    } else if |bs| >= 3 {
      GroupRoundTrip(bs[0], bs[1], bs[2]);
      var xs := EncodeSextets(bs);
      assert xs[4..] == EncodeSextets(bs[3..]);
      DecodeEncodeSextets(bs[3..]);
      assert bs == bs[..3] + bs[3..];
    }
  }

  /** Round trip: decoding an encoding gives back the bytes. */
  lemma DecodeEncode(bs: seq<Byte>)
    ensures Decode(Encode(bs)) == bs
  {
    SextetsOfChars(EncodeSextets(bs));
    DecodeEncodeSextets(bs);
  }

  /** An encoding never contains a character outside the alphabet, a `.` in particular. */
  lemma EncodeHasNoDot(bs: seq<Byte>)
    ensures '.' !in Encode(bs)
  {
    CharsInAlphabet(EncodeSextets(bs));
  }
}
