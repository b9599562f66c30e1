/** Standard Base64 (section 4 of RFC 4648), without padding and with it, as the key file uses it. */
module Base64 {
  import opened Common
  import opened Text

  type Byte = b: int | 0 <= b < 256

  type Sextet = v: int | 0 <= v < 64

  function CharOf(v: Sextet): char {
    if v < 26 then 'A' + v as char
    else if v < 52 then 'a' + (v - 26) as char
    else if v < 62 then '0' + (v - 52) as char
    else if v == 62 then '+'
    else '/'
  }

  function SextetOf(c: char): Option<Sextet> {
    if 'A' <= c <= 'Z' then Some((c - 'A') as int)
    else if 'a' <= c <= 'z' then Some((c - 'a') as int + 26)
    else if '0' <= c <= '9' then Some((c - '0') as int + 52)
    else if c == '+' then Some(62)
    else if c == '/' then Some(63)
    else None
  }

  lemma CharRoundTrip(v: Sextet)
    ensures SextetOf(CharOf(v)) == Some(v)
    ensures !IsSpace(CharOf(v)) && CharOf(v) != '\n' && CharOf(v) != '\r' && CharOf(v) != '='
  {
  }

  /** Three bytes become four sextets; one or two trailing bytes become two or three. */
  function Split6(bytes: seq<Byte>): seq<Sextet> {
    if bytes == [] then []
    else if |bytes| == 1 then [bytes[0] / 4, (bytes[0] % 4) * 16]
    else if |bytes| == 2 then [bytes[0] / 4, (bytes[0] % 4) * 16 + bytes[1] / 16, (bytes[1] % 16) * 4]
    else
      [bytes[0] / 4, (bytes[0] % 4) * 16 + bytes[1] / 16, (bytes[1] % 16) * 4 + bytes[2] / 64, bytes[2] % 64]
      + Split6(bytes[3..])
  }

  function Byte0(a: int, b: int): int { a * 4 + b / 16 }

  function Byte1(b: int, c: int): int { (b % 16) * 16 + c / 4 }

  function Byte2(c: int, d: int): int { (c % 4) * 64 + d }

  /** The inverse; surplus low bits of the last sextet are ignored, a lone sextet is malformed. */
  function Join6(s: seq<Sextet>): Option<seq<Byte>> {
    if s == [] then Some([])
    else if |s| == 1 then None
    else if |s| == 2 then Some([Byte0(s[0], s[1])])
    else if |s| == 3 then Some([Byte0(s[0], s[1]), Byte1(s[1], s[2])])
    else
      match Join6(s[4..])
      case None => None
      case Some(rest) => Some([Byte0(s[0], s[1]), Byte1(s[1], s[2]), Byte2(s[2], s[3])] + rest)
  }

  lemma BitsKept(a: Byte, b: Byte, c: Byte)
    ensures Byte0(a / 4, (a % 4) * 16 + b / 16) == a && Byte0(a / 4, (a % 4) * 16) == a
    ensures Byte1((a % 4) * 16 + b / 16, (b % 16) * 4 + c / 64) == b && Byte1((a % 4) * 16 + b / 16, (b % 16) * 4) == b
    ensures Byte2((b % 16) * 4 + c / 64, c % 64) == c
  {
  }

  lemma JoinFour(s: seq<Sextet>, rest: seq<Byte>)
    requires |s| >= 4 && Join6(s[4..]) == Some(rest)
    ensures Join6(s) == Some([Byte0(s[0], s[1]), Byte1(s[1], s[2]), Byte2(s[2], s[3])] + rest)
  {
  }

  lemma ThreeKept(bytes: seq<Byte>)
    requires |bytes| >= 3
    ensures var s := Split6(bytes);
            && |s| >= 4 && s[4..] == Split6(bytes[3..])
            && Byte0(s[0], s[1]) == bytes[0] && Byte1(s[1], s[2]) == bytes[1] && Byte2(s[2], s[3]) == bytes[2]
  {
    BitsKept(bytes[0], bytes[1], bytes[2]);
  }

  lemma OneKept(a: Byte)
    ensures Join6(Split6([a])) == Some([a])
  {
    assert Split6([a]) == [a / 4, (a % 4) * 16];
  }

  lemma TwoKept(a: Byte, b: Byte)
    ensures Join6(Split6([a, b])) == Some([a, b])
  {
    assert Split6([a, b]) == [a / 4, (a % 4) * 16 + b / 16, (b % 16) * 4];
    BitsKept(a, b, b);
  }

  lemma {:induction false} JoinSplit(bytes: seq<Byte>)
    ensures Join6(Split6(bytes)) == Some(bytes)
  {
    if |bytes| >= 3 {
      JoinSplit(bytes[3..]);
      ThreeKept(bytes);
      JoinFour(Split6(bytes), bytes[3..]);
      assert bytes == [bytes[0], bytes[1], bytes[2]] + bytes[3..];
    } else if |bytes| == 2 {
      TwoKept(bytes[0], bytes[1]);
      assert bytes == [bytes[0], bytes[1]];
    } else if |bytes| == 1 {
      OneKept(bytes[0]);
      assert bytes == [bytes[0]];
    }
  }

  /** base64.RawStdEncoding.EncodeToString */
  function Encode(bytes: seq<Byte>): (r: string)
    ensures |r| == |Split6(bytes)| && forall i :: 0 <= i < |r| ==> r[i] == CharOf(Split6(bytes)[i])
  {
    var s := Split6(bytes);
    seq(|s|, i requires 0 <= i < |s| => CharOf(s[i]))
  }

  /** The last test vector of section 10 of RFC 4648, and the two letters it does not use. */
  lemma TestVectors()
    ensures Encode([0x66, 0x6F, 0x6F, 0x62, 0x61, 0x72]) == "Zm9vYmFy"
    ensures Encode([0xFB, 0xFF]) == "+/8"
  {
    var foobar: seq<Byte> := [0x66, 0x6F, 0x6F, 0x62, 0x61, 0x72];
    assert foobar[3..] == [0x62, 0x61, 0x72] && foobar[3..][3..] == [];
    assert Split6(foobar[3..]) == [24, 38, 5, 50];
    assert Split6(foobar) == [25, 38, 61, 47, 24, 38, 5, 50];
    assert Split6([0xFB, 0xFF]) == [62, 63, 60];
  }

  /** The decoder skips line breaks anywhere in its input. */
  function WithoutBreaks(s: string): string {
    if s == [] then []
    else (if s[0] == '\n' || s[0] == '\r' then [] else [s[0]]) + WithoutBreaks(s[1..])
  }

  function Sextets(s: string): Option<seq<Sextet>> {
    if s == [] then Some([])
    else
      match (SextetOf(s[0]), Sextets(s[1..]))
      case (Some(v), Some(rest)) => Some([v] + rest)
      case _ => None
  }

  function DecodePlain(s: string): Option<seq<Byte>> {
    match Sextets(s)
    case None => None
    case Some(v) => Join6(v)
  }

  /** base64.RawStdEncoding.DecodeString */
  function DecodeRaw(s: string): Option<seq<Byte>> { DecodePlain(WithoutBreaks(s)) }

  /** base64.StdEncoding.DecodeString */
  function DecodePadded(s: string): Option<seq<Byte>> {
    var t := WithoutBreaks(s);
    if |t| % 4 != 0 then None else DecodePlain(Unpadded(t))
  }

  function Unpadded(t: string): string {
    var n := |t|;
    if n >= 2 && t[n - 2..] == "==" then t[..n - 2]
    else if n >= 1 && t[n - 1] == '=' then t[..n - 1]
    else t
  }

  lemma {:induction false} SextetsOfChars(v: seq<Sextet>, s: string)
    requires |s| == |v| && forall i :: 0 <= i < |s| ==> s[i] == CharOf(v[i])
    ensures Sextets(s) == Some(v) && WithoutBreaks(s) == s
  {
    if s == [] {
      assert v == [];
    } else {
      CharRoundTrip(v[0]);
      assert s[0] == CharOf(v[0]);
      SextetsOfChars(v[1..], s[1..]);
      assert v == [v[0]] + v[1..] && s == [s[0]] + s[1..];
    }
  }

  /** Decoding an encoding gives the bytes back, for every byte string. */
  lemma DecodeEncode(bytes: seq<Byte>)
    ensures DecodeRaw(Encode(bytes)) == Some(bytes)
  {
    SextetsOfChars(Split6(bytes), Encode(bytes));
    JoinSplit(bytes);
  }

  lemma {:induction false} SplitLength(bytes: seq<Byte>)
    ensures |Split6(bytes)| == |bytes| / 3 * 4 + if |bytes| % 3 == 0 then 0 else |bytes| % 3 + 1
  {
    if |bytes| < 3 {
    } else {
      SplitLength(bytes[3..]);
    }
  }

  function Padding(n: nat): string { if n % 3 == 1 then "==" else if n % 3 == 2 then "=" else "" }

  /** base64.StdEncoding.EncodeToString: padded to a multiple of four characters. */
  function EncodePadded(bytes: seq<Byte>): (r: string)
    ensures |r| % 4 == 0
  {
    SplitLength(bytes);
    Encode(bytes) + Padding(|bytes|)
  }

  lemma {:induction false} BreaksConcat(a: string, b: string)
    ensures WithoutBreaks(a + b) == WithoutBreaks(a) + WithoutBreaks(b)
  {
    if a == "" {
      assert a + b == b;
    } else {
      HeadTail(a, b);
      BreaksConcat(a[1..], b);
    }
  }

  /** A line break anywhere changes nothing. */
  lemma BreakIsSkipped(a: string, c: char, b: string)
    requires c == '\n' || c == '\r'
    ensures DecodeRaw(a + [c] + b) == DecodeRaw(a + b) && DecodePadded(a + [c] + b) == DecodePadded(a + b)
  {
    BreaksConcat(a + [c], b);
    BreaksConcat(a, [c]);
    BreaksConcat(a, b);
    assert [c][1..] == "" && WithoutBreaks([c]) == "";
    assert WithoutBreaks(a) + "" == WithoutBreaks(a);
  }

  lemma PaddingStays(n: nat)
    ensures WithoutBreaks(Padding(n)) == Padding(n)
  {
    assert ['='] + WithoutBreaks("") == "=" && "="[1..] == "" && "=="[1..] == "=";
    assert WithoutBreaks("=") == ['='] + WithoutBreaks("="[1..]);
    assert WithoutBreaks("==") == ['='] + WithoutBreaks("=="[1..]);
  }

  lemma NoPadInside(bytes: seq<Byte>)
    ensures forall i :: 0 <= i < |Encode(bytes)| ==> Encode(bytes)[i] != '='
  {
    forall i | 0 <= i < |Encode(bytes)| ensures Encode(bytes)[i] != '=' { CharRoundTrip(Split6(bytes)[i]); }
  }

  lemma PadRemoved(e: string, pad: string)
    requires pad == "" || pad == "=" || pad == "=="
    requires e == "" || e[|e| - 1] != '='
    ensures Unpadded(e + pad) == e
  {
    var t := e + pad;
    assert t[..|e|] == e && t[|e|..] == pad;
    if |t| >= 2 && t[|t| - 2..] == "==" {
      assert t[|t| - 2..][0] == t[|t| - 2] && t[|t| - 2..][1] == t[|t| - 1];
    }
  }

  lemma NoBreaks(bytes: seq<Byte>)
    ensures WithoutBreaks(EncodePadded(bytes)) == EncodePadded(bytes)
    ensures DecodePlain(Encode(bytes)) == Some(bytes)
  {
    BreaksConcat(Encode(bytes), Padding(|bytes|));
    PaddingStays(|bytes|);
    SextetsOfChars(Split6(bytes), Encode(bytes));
    JoinSplit(bytes);
  }

  /** A padded encoding decodes as well. */
  lemma DecodeEncodePadded(bytes: seq<Byte>)
    ensures DecodePadded(EncodePadded(bytes)) == Some(bytes)
  {
    NoBreaks(bytes);
    NoPadInside(bytes);
    PadRemoved(Encode(bytes), Padding(|bytes|));
  }

  lemma {:induction false} NoSextets(s: string, i: nat)
    requires i < |s| && s[i] == '='
    ensures Sextets(s) == None
  {
    if i == 0 {
    } else {
      NoSextets(s[1..], i - 1);
    }
  }

  /** The unpadded decoder takes a padded encoding only where there is no padding. */
  lemma RawOfPadded(bytes: seq<Byte>)
    ensures DecodeRaw(EncodePadded(bytes)) == if |bytes| % 3 == 0 then Some(bytes) else None
  {
    var e, pad := Encode(bytes), Padding(|bytes|);
    if |bytes| % 3 == 0 {
      assert e + pad == e;
      DecodeEncode(bytes);
    } else {
      BreaksConcat(e, pad);
      PaddingStays(|bytes|);
      SextetsOfChars(Split6(bytes), e);
      NoSextets(e + pad, |e|);
    }
  }

  /** Encodings differ for different bytes. */
  lemma EncodeInjective(a: seq<Byte>, b: seq<Byte>)
    requires Encode(a) == Encode(b)
    ensures a == b
  {
    DecodeEncode(a);
    DecodeEncode(b);
  }
}
