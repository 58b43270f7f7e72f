/**
 * The base64 encoding of section 4 of RFC 4648, as `Buffer.toString('base64')` produces
 * it: every group of three bytes becomes four characters of the 64-character alphabet,
 * and a final group of one or two bytes is completed with "==" or "=".
 *
 * `Decode` is the strict inverse: it accepts exactly the strings `Encode` produces, so
 * the two are shown to be inverse in both directions.
 */
module Base64 {
  import opened Options

  newtype byte = x: int | 0 <= x < 256

  /** The value of a base64 character, `i` in 0..63. */
  type Sextet = x: nat | x < 64

  /** Table 1 of RFC 4648: A-Z, a-z, 0-9, '+', '/'. */
  function Digit(i: Sextet): char {
    if i < 26 then ('A' as int + i) as char
    else if i < 52 then ('a' as int + i - 26) as char
    else if i < 62 then ('0' as int + i - 52) as char
    else if i == 62 then '+'
    else '/'
  }

  /** The value a character stands for in the alphabet, if it is in the alphabet. */
  function DigitValue(c: char): Option<Sextet> {
    if 'A' <= c <= 'Z' then Some(c as int - 'A' as int)
    else if 'a' <= c <= 'z' then Some(c as int - 'a' as int + 26)
    else if '0' <= c <= '9' then Some(c as int - '0' as int + 52)
    else if c == '+' then Some(62)
    else if c == '/' then Some(63)
    else None
  }

  const Pad := '='

  /** A character an encoding may contain: an alphabet character or the pad. */
  predicate IsBase64Char(c: char) {
    DigitValue(c).Some? || c == Pad
  }

  // The 6-bit groups of three bytes a, b, c, most significant first, and back.

  function S0(a: byte): Sextet { a as int / 4 }
  function S1(a: byte, b: byte): Sextet { (a as int % 4) * 16 + b as int / 16 }
  function S2(b: byte, c: byte): Sextet { (b as int % 16) * 4 + c as int / 64 }
  function S3(c: byte): Sextet { c as int % 64 }

  function B0(v0: Sextet, v1: Sextet): byte { (v0 as int * 4 + v1 as int / 16) as byte }
  function B1(v1: Sextet, v2: Sextet): byte { ((v1 as int % 16) * 16 + v2 as int / 4) as byte }
  function B2(v2: Sextet, v3: Sextet): byte { ((v2 as int % 4) * 64 + v3 as int) as byte }

  /** Three bytes, 24 bits, as four 6-bit groups. */
  function EncodeTriple(a: byte, b: byte, c: byte): (r: string)
    ensures |r| == 4
  {
    [Digit(S0(a)), Digit(S1(a, b)), Digit(S2(b, c)), Digit(S3(c))]
  }

  /** A final group of two bytes: the 16 bits padded with two zero bits, then "=". */
  function EncodePair(a: byte, b: byte): (r: string)
    ensures |r| == 4
  {
    [Digit(S0(a)), Digit(S1(a, b)), Digit(S2(b, 0)), Pad]
  }

  /** A final group of one byte: the 8 bits padded with four zero bits, then "==". */
  function EncodeSingle(a: byte): (r: string)
    ensures |r| == 4
  {
    [Digit(S0(a)), Digit(S1(a, 0)), Pad, Pad]
  }

  /** The encoding: four characters for every started group of three bytes. */
  function Encode(b: seq<byte>): string
    decreases |b|
  {
    if |b| == 0 then []
    else if |b| == 1 then EncodeSingle(b[0])
    else if |b| == 2 then EncodePair(b[0], b[1])
    else EncodeTriple(b[0], b[1], b[2]) + Encode(b[3..])
  }

  /** Four alphabet characters back to three bytes. */
  function DecodeQuantum(c0: char, c1: char, c2: char, c3: char): Option<seq<byte>> {
    if DigitValue(c0).Some? && DigitValue(c1).Some? && DigitValue(c2).Some? && DigitValue(c3).Some? then
      var v0, v1, v2, v3 := DigitValue(c0).value, DigitValue(c1).value, DigitValue(c2).value, DigitValue(c3).value;
      Some([B0(v0, v1), B1(v1, v2), B2(v2, v3)])
    else None
  }

  /**
   * The last four characters: a full quantum, or one ending in "=" (two bytes) or "=="
   * (one byte). Pad bits must be zero, as section 3.5 of RFC 4648 allows a decoder to demand.
   */
  function DecodeFinal(c0: char, c1: char, c2: char, c3: char): Option<seq<byte>> {
    if c3 != Pad then DecodeQuantum(c0, c1, c2, c3)
    else if c2 == Pad then
      if DigitValue(c0).Some? && DigitValue(c1).Some? && DigitValue(c1).value % 16 == 0 then
        Some([B0(DigitValue(c0).value, DigitValue(c1).value)])
      else None
    else
      if DigitValue(c0).Some? && DigitValue(c1).Some? && DigitValue(c2).Some? && DigitValue(c2).value % 4 == 0 then
        var v0, v1, v2 := DigitValue(c0).value, DigitValue(c1).value, DigitValue(c2).value;
        Some([B0(v0, v1), B1(v1, v2)])
      else None
  }

  /** The strict decoder: `None` for any string that is not an encoding. */
  function Decode(s: string): Option<seq<byte>>
    decreases |s|
  {
    if s == [] then Some([])
    else if |s| < 4 then None
    else if |s| == 4 then DecodeFinal(s[0], s[1], s[2], s[3])
    else
      match DecodeQuantum(s[0], s[1], s[2], s[3])
      case None => None
      case Some(g) =>
        match Decode(s[4..])
        case None => None
        case Some(rest) => Some(g + rest)
  }

  // ---------------------------------------------------------------------------
  // Properties

  /** The alphabet is a bijection between 0..63 and its 64 characters. */
  lemma DigitValueOfDigit(i: Sextet)
    ensures DigitValue(Digit(i)) == Some(i)
  {
  }

  lemma DigitOfDigitValue(c: char)
    requires DigitValue(c).Some?
    ensures Digit(DigitValue(c).value) == c
  {
  }

  /** Splitting three bytes into 6-bit groups and joining them again loses nothing. */
  lemma BitsRoundTrip(a: byte, b: byte, c: byte)
    ensures B0(S0(a), S1(a, b)) == a
    ensures B1(S1(a, b), S2(b, c)) == b
    ensures B2(S2(b, c), S3(c)) == c
  {
  }

  /** Joining four 6-bit groups into bytes and splitting them again loses nothing. */
  lemma SextetsRoundTrip(v0: Sextet, v1: Sextet, v2: Sextet, v3: Sextet)
    ensures S0(B0(v0, v1)) == v0
    ensures S1(B0(v0, v1), B1(v1, v2)) == v1
    ensures S2(B1(v1, v2), B2(v2, v3)) == v2
    ensures S3(B2(v2, v3)) == v3
  {
  }

  /** Four alphabet characters decode to the bytes their 6-bit values join into. */
  lemma DecodeQuantumOfDigits(v0: Sextet, v1: Sextet, v2: Sextet, v3: Sextet)
    ensures DecodeQuantum(Digit(v0), Digit(v1), Digit(v2), Digit(v3)) == Some([B0(v0, v1), B1(v1, v2), B2(v2, v3)])
  {
    DigitValueOfDigit(v0);
    DigitValueOfDigit(v1);
    DigitValueOfDigit(v2);
    DigitValueOfDigit(v3);
  }

  lemma DecodeFinalOfPair(v0: Sextet, v1: Sextet, v2: Sextet)
    requires v2 % 4 == 0
    ensures DecodeFinal(Digit(v0), Digit(v1), Digit(v2), Pad) == Some([B0(v0, v1), B1(v1, v2)])
  {
    DigitValueOfDigit(v0);
    DigitValueOfDigit(v1);
    DigitValueOfDigit(v2);
  }

  lemma DecodeFinalOfSingle(v0: Sextet, v1: Sextet)
    requires v1 % 16 == 0
    ensures DecodeFinal(Digit(v0), Digit(v1), Pad, Pad) == Some([B0(v0, v1)])
  {
    DigitValueOfDigit(v0);
    DigitValueOfDigit(v1);
  }

  /** The bits of one full quantum survive encoding and decoding. */
  lemma TripleRoundTrip(a: byte, b: byte, c: byte)
    ensures var q := EncodeTriple(a, b, c); DecodeQuantum(q[0], q[1], q[2], q[3]) == Some([a, b, c])
  {
    DecodeQuantumOfDigits(S0(a), S1(a, b), S2(b, c), S3(c));
    BitsRoundTrip(a, b, c);
  }

  lemma PairRoundTrip(a: byte, b: byte)
    ensures var q := EncodePair(a, b); DecodeFinal(q[0], q[1], q[2], q[3]) == Some([a, b])
  {
    assert S2(b, 0) % 4 == 0;
    DecodeFinalOfPair(S0(a), S1(a, b), S2(b, 0));
    BitsRoundTrip(a, b, 0);
  }

  lemma SingleRoundTrip(a: byte)
    ensures var q := EncodeSingle(a); DecodeFinal(q[0], q[1], q[2], q[3]) == Some([a])
  {
    assert S1(a, 0) % 16 == 0;
    DecodeFinalOfSingle(S0(a), S1(a, 0));
    BitsRoundTrip(a, 0, 0);
  }

  /** The encoding has four characters for every started group of three bytes. */
  lemma {:induction false} EncodeLength(b: seq<byte>)
    ensures |Encode(b)| == 4 * ((|b| + 2) / 3)
    decreases |b|
  {
    if |b| > 3 {
      EncodeLength(b[3..]);
    }
  }

  /** Decoding a full quantum followed by more input. */
  lemma DecodeAppend(q: string, t: string, g: seq<byte>, r: seq<byte>)
    requires |q| == 4 && t != []
    requires DecodeQuantum(q[0], q[1], q[2], q[3]) == Some(g) && Decode(t) == Some(r)
    ensures Decode(q + t) == Some(g + r)
  {
    var s := q + t;
    assert s[0] == q[0] && s[1] == q[1] && s[2] == q[2] && s[3] == q[3] && s[4..] == t;
  }

  lemma EncodeUnfold(b: seq<byte>)
    requires |b| > 3
    ensures Encode(b) == EncodeTriple(b[0], b[1], b[2]) + Encode(b[3..]) && |Encode(b[3..])| >= 4
  {
  }

  lemma SplitTriple(b: seq<byte>)
    requires |b| >= 3
    ensures [b[0], b[1], b[2]] + b[3..] == b
  {
  }

  /** Decoding an encoding gives back the bytes. */
  lemma {:induction false} DecodeEncode(b: seq<byte>)
    ensures Decode(Encode(b)) == Some(b)
    decreases |b|
  {
    if |b| == 1 {
      SingleRoundTrip(b[0]);
      assert b == [b[0]];
    } else if |b| == 2 {
      PairRoundTrip(b[0], b[1]);
      assert b == [b[0], b[1]];
    } else if |b| == 3 {
      var q := EncodeTriple(b[0], b[1], b[2]);
      TripleRoundTrip(b[0], b[1], b[2]);
      assert Encode(b) == q + [] && b == [b[0], b[1], b[2]];
      assert q[3] != Pad by { DigitValueOfDigit(S3(b[2])); }
    } else if |b| > 3 {
      TripleRoundTrip(b[0], b[1], b[2]);
      DecodeEncode(b[3..]);
      EncodeUnfold(b);
      SplitTriple(b);
      DecodeAppend(EncodeTriple(b[0], b[1], b[2]), Encode(b[3..]), [b[0], b[1], b[2]], b[3..]);
    }
  }

  /** A full quantum that decodes is the encoding of what it decodes to. */
  lemma QuantumExact(c0: char, c1: char, c2: char, c3: char)
    requires DecodeQuantum(c0, c1, c2, c3).Some?
    ensures var g := DecodeQuantum(c0, c1, c2, c3).value;
      |g| == 3 && EncodeTriple(g[0], g[1], g[2]) == [c0, c1, c2, c3]
  {
    var v0, v1, v2, v3 := DigitValue(c0).value, DigitValue(c1).value, DigitValue(c2).value, DigitValue(c3).value;
    DigitOfDigitValue(c0);
    DigitOfDigitValue(c1);
    DigitOfDigitValue(c2);
    DigitOfDigitValue(c3);
    SextetsRoundTrip(v0, v1, v2, v3);
  }

  /** A last quantum that decodes is the encoding of what it decodes to. */
  lemma FinalExact(c0: char, c1: char, c2: char, c3: char)
    requires DecodeFinal(c0, c1, c2, c3).Some?
    ensures var g := DecodeFinal(c0, c1, c2, c3).value; 1 <= |g| <= 3 && Encode(g) == [c0, c1, c2, c3]
  {
    var g := DecodeFinal(c0, c1, c2, c3).value;
    if c3 != Pad {
      QuantumExact(c0, c1, c2, c3);
      assert Encode(g) == EncodeTriple(g[0], g[1], g[2]) + Encode(g[3..]);
    } else if c2 == Pad {
      var v0, v1 := DigitValue(c0).value, DigitValue(c1).value;
      DigitOfDigitValue(c0);
      DigitOfDigitValue(c1);
      SextetsRoundTrip(v0, v1, 0, 0);
      assert B1(v1, 0) == 0;
    } else {
      var v0, v1, v2 := DigitValue(c0).value, DigitValue(c1).value, DigitValue(c2).value;
      DigitOfDigitValue(c0);
      DigitOfDigitValue(c1);
      DigitOfDigitValue(c2);
      SextetsRoundTrip(v0, v1, v2, 0);
      assert B2(v2, 0) == 0;
    }
  }

  lemma SplitQuantum(s: string)
    requires |s| >= 4
    ensures s == [s[0], s[1], s[2], s[3]] + s[4..]
  {
  }

  /** What a longer input that decodes is made of: one full quantum and a decodable rest. */
  lemma DecodeSplit(s: string)
    requires |s| > 4 && Decode(s).Some?
    ensures DecodeQuantum(s[0], s[1], s[2], s[3]).Some? && Decode(s[4..]).Some?
    ensures Decode(s).value == DecodeQuantum(s[0], s[1], s[2], s[3]).value + Decode(s[4..]).value
  {
  }

  /** Decoding accepts only encodings: what it accepts encodes back to the same string. */
  lemma {:induction false} EncodeDecode(s: string)
    requires Decode(s).Some?
    ensures Encode(Decode(s).value) == s
    decreases |s|
  {
    if |s| == 4 {
      FinalExact(s[0], s[1], s[2], s[3]);
      SplitQuantum(s);
    } else if |s| > 4 {
      DecodeSplit(s);
      var g := DecodeQuantum(s[0], s[1], s[2], s[3]).value;
      var rest := Decode(s[4..]).value;
      QuantumExact(s[0], s[1], s[2], s[3]);
      EncodeDecode(s[4..]);
      assert rest != [];
      EncodeOfTripleAndRest(g, rest);
      SplitQuantum(s);
    }
  }

  lemma EncodeOfTripleAndRest(g: seq<byte>, rest: seq<byte>)
    requires |g| == 3 && rest != []
    ensures Encode(g + rest) == EncodeTriple(g[0], g[1], g[2]) + Encode(rest)
  {
    var b := g + rest;
    assert b[0] == g[0] && b[1] == g[1] && b[2] == g[2] && b[3..] == rest;
  }

  /** An encoding holds only alphabet characters and the pad, so never ';' or ','. */
  lemma {:induction false} EncodeChars(b: seq<byte>)
    ensures forall i :: 0 <= i < |Encode(b)| ==> IsBase64Char(Encode(b)[i])
    decreases |b|
  {
    if |b| > 0 {
      var s := Encode(b);
      var q := s[..4];
      assert q == if |b| == 1 then EncodeSingle(b[0]) else if |b| == 2 then EncodePair(b[0], b[1])
        else EncodeTriple(b[0], b[1], b[2]);
      assert forall i :: 0 <= i < 4 ==> IsBase64Char(q[i]) by {
        forall i: Sextet ensures DigitValue(Digit(i)).Some? {
          DigitValueOfDigit(i);
        }
      }
      if |b| >= 3 {
        EncodeChars(b[3..]);
        assert forall i :: 4 <= i < |s| ==> s[i] == Encode(b[3..])[i - 4];
      }
    }
  }

  /** The encoding of a whole number of groups carries no pad. */
  lemma {:induction false} EncodeNoPad(b: seq<byte>)
    requires |b| % 3 == 0
    ensures Pad !in Encode(b)
    decreases |b|
  {
    if |b| > 0 {
      DigitValueOfDigit(S0(b[0]));
      DigitValueOfDigit(S1(b[0], b[1]));
      DigitValueOfDigit(S2(b[1], b[2]));
      DigitValueOfDigit(S3(b[2]));
      EncodeNoPad(b[3..]);
    }
  }

  /** Examples from section 10 of RFC 4648. */
  lemma RfcTestVectors()
    ensures Encode([]) == ""
    ensures Encode([0x66]) == "Zg=="
    ensures Encode([0x66, 0x6f]) == "Zm8="
    ensures Encode([0x66, 0x6f, 0x6f]) == "Zm9v"
    ensures Encode([0x66, 0x6f, 0x6f, 0x62]) == "Zm9vYg=="
  {
  }
}
