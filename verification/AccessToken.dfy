/**
 The personal access token format of internal/access/service.go: a prefix, a
 16-byte id and a 32-byte secret, both in unpadded base64url (section 5 of
 RFC 4648), joined by an underscore, which the alphabet also contains.
 */
module AccessToken {
  import opened Common

  const TOKEN_PREFIX := "bb_pat_"
  const ID_SIZE := 16
  const SECRET_SIZE := 32
  const SEPARATOR := '_'

  type Byte = x: int | 0 <= x < 256
  type Sextet = x: int | 0 <= x < 64

  // ---------------------------------------------------------------- base64url

  function Digit(v: Sextet): char {
    if v < 26 then 'A' + (v as char)
    else if v < 52 then 'a' + ((v - 26) as char)
    else if v < 62 then '0' + ((v - 52) as char)
    else if v == 62 then '-' else '_'
  }

  function DigitValue(c: char): Option<Sextet> {
    if 'A' <= c <= 'Z' then Some((c - 'A') as int)
    else if 'a' <= c <= 'z' then Some((c - 'a') as int + 26)
    else if '0' <= c <= '9' then Some((c - '0') as int + 52)
    else if c == '-' then Some(62)
    else if c == '_' then Some(63)
    else None
  }

  function EncodedLen(n: nat): nat {
    n / 3 * 4 + (n % 3 * 8 + 5) / 6
  }

  function DecodedLen(n: nat): nat {
    n / 4 * 3 + (if n % 4 == 2 then 1 else if n % 4 == 3 then 2 else 0)
  }

  lemma WholeGroupLengths(n: nat)
    ensures EncodedLen(n + 3) == EncodedLen(n) + 4
    ensures DecodedLen(n + 4) == DecodedLen(n) + 3 && (n + 4) % 4 == n % 4
  {
  }

  // The four sextets of a three-byte group, and the three bytes of a four-sextet group.

  function S0(x: Byte): Sextet { x / 4 }
  function S1(x: Byte, y: Byte): Sextet { x % 4 * 16 + y / 16 }
  function S2(y: Byte, z: Byte): Sextet { y % 16 * 4 + z / 64 }
  function S3(z: Byte): Sextet { z % 64 }

  function B0(a: Sextet, b: Sextet): Byte { a * 4 + b / 16 }
  function B1(b: Sextet, c: Sextet): Byte { b % 16 * 16 + c / 4 }
  function B2(c: Sextet, d: Sextet): Byte { c % 4 * 64 + d }

  function Sextets(b: seq<Byte>): (v: seq<Sextet>)
    ensures |v| == EncodedLen(|b|)
  {
    if |b| == 0 then []
    else if |b| == 1 then [S0(b[0]), S1(b[0], 0)]
    else if |b| == 2 then [S0(b[0]), S1(b[0], b[1]), S2(b[1], 0)]
    else
      WholeGroupLengths(|b| - 3);
      [S0(b[0]), S1(b[0], b[1]), S2(b[1], b[2]), S3(b[2])] + Sextets(b[3..])
  }

  /** Groups of sextets back to bytes; the low bits left over in a short group are ignored. */
  function Bytes(v: seq<Sextet>): (r: Option<seq<Byte>>)
    ensures r.Some? <==> |v| % 4 != 1
    ensures r.Some? ==> |r.value| == DecodedLen(|v|)
  {
    if |v| == 0 then Some([])
    else if |v| == 1 then None
    else if |v| == 2 then Some([B0(v[0], v[1])])
    else if |v| == 3 then Some([B0(v[0], v[1]), B1(v[1], v[2])])
    else
      WholeGroupLengths(|v| - 4);
      match Bytes(v[4..])
      case None => None
      case Some(rest) => Some([B0(v[0], v[1]), B1(v[1], v[2]), B2(v[2], v[3])] + rest)
  }

  function Spell(v: seq<Sextet>): (s: string)
    ensures |s| == |v| && forall i :: 0 <= i < |v| ==> s[i] == Digit(v[i])
  {
    if v == [] then "" else [Digit(v[0])] + Spell(v[1..])
  }

  /** The decoder drops line breaks anywhere and rejects any other foreign character. */
  function ReadDigits(s: string): (r: Option<seq<Sextet>>)
    ensures r.Some? ==> |r.value| <= |s|
  {
    if s == "" then Some([])
    else if s[0] == '\r' || s[0] == '\n' then ReadDigits(s[1..])
    else
      match (DigitValue(s[0]), ReadDigits(s[1..]))
      case (Some(d), Some(rest)) => Some([d] + rest)
      case _ => None
  }

  function EncodeToString(b: seq<Byte>): string {
    Spell(Sextets(b))
  }

  function DecodeString(s: string): Option<seq<Byte>> {
    match ReadDigits(s)
    case None => None
    case Some(v) => Bytes(v)
  }

  lemma GroupRoundTrip(x: Byte, y: Byte, z: Byte)
    ensures B0(S0(x), S1(x, y)) == x
    ensures B1(S1(x, y), S2(y, z)) == y
    ensures B2(S2(y, z), S3(z)) == z
  {
  }

  lemma PrependGroup(a: Sextet, b: Sextet, c: Sextet, d: Sextet, rest: seq<Sextet>)
    requires Bytes(rest).Some?
    ensures Bytes([a, b, c, d] + rest) == Some([B0(a, b), B1(b, c), B2(c, d)] + Bytes(rest).value)
  {
    assert ([a, b, c, d] + rest)[4..] == rest;
  }

  lemma OneByte(x: Byte, a: Sextet, b: Sextet)
    requires B0(a, b) == x
    ensures Bytes([a, b]) == Some([x])
  {
  }

  lemma TwoBytes(x: Byte, y: Byte, a: Sextet, b: Sextet, c: Sextet)
    requires B0(a, b) == x && B1(b, c) == y
    ensures Bytes([a, b, c]) == Some([x, y])
  {
  }

  lemma WholeGroup(x: Byte, y: Byte, z: Byte, rest: seq<Byte>)
    requires Bytes(Sextets(rest)) == Some(rest)
    ensures Bytes([S0(x), S1(x, y), S2(y, z), S3(z)] + Sextets(rest)) == Some([x, y, z] + rest)
  {
    PrependGroup(S0(x), S1(x, y), S2(y, z), S3(z), Sextets(rest));
    GroupRoundTrip(x, y, z);
  }

  lemma {:induction false} SextetsRoundTrip(b: seq<Byte>)
    ensures Bytes(Sextets(b)) == Some(b)
  {
    if |b| >= 3 {
      assert b == [b[0], b[1], b[2]] + b[3..];
      SextetsRoundTrip(b[3..]);
      WholeGroup(b[0], b[1], b[2], b[3..]);
    } else if |b| == 2 {
      assert b == [b[0], b[1]];
      GroupRoundTrip(b[0], b[1], 0);
      TwoBytes(b[0], b[1], S0(b[0]), S1(b[0], b[1]), S2(b[1], 0));
    } else if |b| == 1 {
      assert b == [b[0]];
      GroupRoundTrip(b[0], 0, 0);
      OneByte(b[0], S0(b[0]), S1(b[0], 0));
    }
  }

  lemma DigitRoundTrip(v: Sextet)
    ensures DigitValue(Digit(v)) == Some(v) && Digit(v) != '\r' && Digit(v) != '\n'
  {
  }

  lemma {:induction false} ReadsWhatItSpells(v: seq<Sextet>)
    ensures ReadDigits(Spell(v)) == Some(v)
  {
    if v != [] {
      DigitRoundTrip(v[0]);
      ReadsWhatItSpells(v[1..]);
      assert Spell(v)[1..] == Spell(v[1..]);
      assert v == [v[0]] + v[1..];
    }
  }

  lemma EncodingRoundTrip(b: seq<Byte>)
    ensures DecodeString(EncodeToString(b)) == Some(b)
    ensures |EncodeToString(b)| == EncodedLen(|b|)
  {
    SextetsRoundTrip(b);
    ReadsWhatItSpells(Sextets(b));
  }

  // ---------------------------------------------------------------- tokens

  datatype Token = Token(id: seq<Byte>, secret: seq<Byte>)

  function FormatToken(id: seq<Byte>, secret: seq<Byte>): string {
    TOKEN_PREFIX + EncodeToString(id) + [SEPARATOR] + EncodeToString(secret)
  }

  function ParseToken(raw: string): Option<Token> {
    if !(TOKEN_PREFIX <= raw) then None
    else
      var encoded := raw[|TOKEN_PREFIX|..];
      var idLength := EncodedLen(ID_SIZE);
      if |encoded| != idLength + 1 + EncodedLen(SECRET_SIZE) || encoded[idLength] != SEPARATOR then None
      else
        match (DecodeString(encoded[..idLength]), DecodeString(encoded[idLength + 1..]))
        case (Some(id), Some(secret)) =>
          if |id| == ID_SIZE && |secret| == SECRET_SIZE then Some(Token(id, secret)) else None
        case _ => None
  }

  lemma Slices(prefix: string, a: string, separator: char, b: string)
    ensures var raw := prefix + a + [separator] + b;
            && prefix <= raw
            && raw[|prefix|..] == a + [separator] + b
            && raw[|prefix|..][|a|] == separator
            && raw[|prefix|..][..|a|] == a
            && raw[|prefix|..][|a| + 1..] == b
  {
  }

  /** A 16-byte id and a secret survive formatting and parsing exactly when the secret has 32 bytes. */
  lemma TokenRoundTrip(id: seq<Byte>, secret: seq<Byte>)
    requires |id| == 16
    ensures ParseToken(FormatToken(id, secret)) == if |secret| == 32 then Some(Token(id, secret)) else None
  {
    EncodingRoundTrip(id);
    EncodingRoundTrip(secret);
    Slices(TOKEN_PREFIX, EncodeToString(id), SEPARATOR, EncodeToString(secret));
  }

  // ------------------------------------------------- which strings parse equal

  /** Equal but for the bits the last digit of a short final group does not use. */
  predicate SameButSpareBits(v: seq<Sextet>, w: seq<Sextet>)
    requires |v| == |w| > 0 && |v| % 4 != 1
  {
    var last := |v| - 1;
    && (forall i :: 0 <= i < last ==> v[i] == w[i])
    && (match |v| % 4
        case 0 => v[last] == w[last]
        case 2 => v[last] / 16 == w[last] / 16
        case _ => v[last] / 4 == w[last] / 4)
  }

  /** Which sextets a group of one, two or three bytes determines. */
  lemma EqualGroups(a: Sextet, b: Sextet, c: Sextet, d: Sextet, a': Sextet, b': Sextet, c': Sextet, d': Sextet)
    ensures B0(a, b) == B0(a', b') <==> a == a' && b / 16 == b' / 16
    ensures B0(a, b) == B0(a', b') && B1(b, c) == B1(b', c') <==> a == a' && b == b' && c / 4 == c' / 4
    ensures B0(a, b) == B0(a', b') && B1(b, c) == B1(b', c') && B2(c, d) == B2(c', d') <==>
            a == a' && b == b' && c == c' && d == d'
  {
  }

  lemma FirstGroup(v: seq<Sextet>)
    requires |v| >= 4 && |v| % 4 != 1
    ensures var x := Bytes(v).value;
            x[0] == B0(v[0], v[1]) && x[1] == B1(v[1], v[2]) && x[2] == B2(v[2], v[3]) &&
            x[3..] == Bytes(v[4..]).value
  {
  }

  lemma SplitThree(x: seq<Byte>, y: seq<Byte>)
    requires |x| == |y| >= 3
    ensures x == y <==> x[0] == y[0] && x[1] == y[1] && x[2] == y[2] && x[3..] == y[3..]
  {
    assert x == [x[0], x[1], x[2]] + x[3..] && y == [y[0], y[1], y[2]] + y[3..];
  }

  lemma EqualTwo(v: seq<Sextet>, w: seq<Sextet>)
    requires |v| == |w| == 2
    ensures Bytes(v) == Bytes(w) <==> SameButSpareBits(v, w)
  {
    EqualGroups(v[0], v[1], 0, 0, w[0], w[1], 0, 0);
    assert Bytes(v) == Bytes(w) <==> Bytes(v).value[0] == Bytes(w).value[0];
  }

  lemma EqualThree(v: seq<Sextet>, w: seq<Sextet>)
    requires |v| == |w| == 3
    ensures Bytes(v) == Bytes(w) <==> SameButSpareBits(v, w)
  {
    EqualGroups(v[0], v[1], v[2], 0, w[0], w[1], w[2], 0);
    var x, y := Bytes(v).value, Bytes(w).value;
    assert x == y <==> x[0] == y[0] && x[1] == y[1];
  }

  lemma {:induction false} EqualBytes(v: seq<Sextet>, w: seq<Sextet>)
    requires |v| == |w| > 0 && |v| % 4 != 1
    ensures Bytes(v) == Bytes(w) <==> SameButSpareBits(v, w)
  {
    if |v| == 2 {
      EqualTwo(v, w);
    } else if |v| == 3 {
      EqualThree(v, w);
    } else {
      FirstGroup(v);
      FirstGroup(w);
      SplitThree(Bytes(v).value, Bytes(w).value);
      EqualGroups(v[0], v[1], v[2], v[3], w[0], w[1], w[2], w[3]);
      if |v| > 4 {
        EqualBytes(v[4..], w[4..]);
        SpareBitsOfTail(v, w);
      }
    }
  }

  lemma SpareBitsOfTail(v: seq<Sextet>, w: seq<Sextet>)
    requires |v| == |w| > 4 && |v| % 4 != 1
    ensures SameButSpareBits(v, w) <==>
            v[0] == w[0] && v[1] == w[1] && v[2] == w[2] && v[3] == w[3] && SameButSpareBits(v[4..], w[4..])
  {
    if v[0] == w[0] && v[1] == w[1] && v[2] == w[2] && v[3] == w[3] && SameButSpareBits(v[4..], w[4..]) {
      forall i | 0 <= i < |v| - 1
        ensures v[i] == w[i]
      {
        if i >= 4 {
          assert v[4..][i - 4] == w[4..][i - 4];
        }
      }
    }
  }

  /** Without line breaks a string reads as one digit per character, and back. */
  lemma {:induction false} FullLengthReading(s: string)
    requires ReadDigits(s).Some? && |ReadDigits(s).value| == |s|
    ensures forall i :: 0 <= i < |s| ==> DigitValue(s[i]) == Some(ReadDigits(s).value[i])
  {
    if s != "" && s[0] != '\r' && s[0] != '\n' {
      FullLengthReading(s[1..]);
    }
  }

  /** A part of an accepted token holds no line break: dropping one would lose a byte. */
  lemma AcceptedPart(s: string, size: nat)
    requires |s| == EncodedLen(size)
    requires DecodeString(s).Some? && |DecodeString(s).value| == size
    ensures ReadDigits(s).Some? && |ReadDigits(s).value| == |s|
    ensures DecodeString(s) == Bytes(ReadDigits(s).value)
    ensures forall i :: 0 <= i < |s| ==> DigitValue(s[i]) == Some(ReadDigits(s).value[i])
  {
    FullLengthReading(s);
  }

  /** The weight of the lowest bit that the last of n digits contributes. */
  function SpareUnit(n: nat): int {
    if n % 4 == 2 then 16 else if n % 4 == 3 then 4 else 1
  }

  /** Two accepted parts that differ at most in the spare bits of their last digit. */
  predicate PartsAgree(s: string, t: string, spare: int)
    requires |s| == |t| > 0 && spare > 0
  {
    var last := |s| - 1;
    && (forall i :: 0 <= i < last ==> s[i] == t[i])
    && DigitValue(s[last]).Some? && DigitValue(t[last]).Some?
    && DigitValue(s[last]).value / spare == DigitValue(t[last]).value / spare
  }

  lemma SameDigitSameChar(a: char, b: char)
    requires DigitValue(a).Some? && DigitValue(a) == DigitValue(b)
    ensures a == b
  {
  }

  lemma DigitsSpellParts(s: string, t: string, v: seq<Sextet>, w: seq<Sextet>, spare: int)
    requires |s| == |t| == |v| == |w| > 0 && |v| % 4 != 1
    requires spare == SpareUnit(|v|)
    requires forall i :: 0 <= i < |s| ==> DigitValue(s[i]) == Some(v[i])
    requires forall i :: 0 <= i < |t| ==> DigitValue(t[i]) == Some(w[i])
    ensures SameButSpareBits(v, w) <==> PartsAgree(s, t, spare)
  {
    if SameButSpareBits(v, w) {
      forall i | 0 <= i < |s| - 1
        ensures s[i] == t[i]
      {
        assert v[i] == w[i];
        SameDigitSameChar(s[i], t[i]);
      }
    }
    if PartsAgree(s, t, spare) {
      forall i | 0 <= i < |s| - 1
        ensures v[i] == w[i]
      {
        assert s[i] == t[i];
      }
    }
  }

  lemma PartsDecodeEqual(s: string, t: string, size: nat, spare: int)
    requires size > 0 && |s| == |t| == EncodedLen(size) && spare == SpareUnit(|s|)
    requires DecodeString(s).Some? && |DecodeString(s).value| == size
    requires DecodeString(t).Some? && |DecodeString(t).value| == size
    ensures DecodeString(s) == DecodeString(t) <==> PartsAgree(s, t, spare)
  {
    AcceptedPart(s, size);
    AcceptedPart(t, size);
    var v, w := ReadDigits(s).value, ReadDigits(t).value;
    EqualBytes(v, w);
    DigitsSpellParts(s, t, v, w, spare);
  }

  /** The alphabet of section 5 of RFC 4648. */
  predicate InAlphabet(c: char) {
    'A' <= c <= 'Z' || 'a' <= c <= 'z' || '0' <= c <= '9' || c == '-' || c == '_'
  }

  /** Digits are the alphabet in its order, and read back as their place in it. */
  lemma AlphabetInOrder(v: Sextet, c: char)
    ensures Digit(v) as int ==
            if v < 26 then 'A' as int + v
            else if v < 52 then 'a' as int + (v - 26)
            else if v < 62 then '0' as int + (v - 52)
            else if v == 62 then '-' as int else '_' as int
    ensures DigitValue(c).Some? <==> InAlphabet(c)
    ensures DigitValue(Digit(v)) == Some(v)
  {
  }

  lemma {:induction false} AlphabetReads(s: string)
    requires forall i :: 0 <= i < |s| ==> InAlphabet(s[i])
    ensures ReadDigits(s).Some? && |ReadDigits(s).value| == |s|
  {
    if s != "" {
      AlphabetReads(s[1..]);
    }
  }

  lemma PartIsAccepted(s: string, size: nat)
    requires |s| == EncodedLen(size) && |s| % 4 != 1 && DecodedLen(|s|) == size
    ensures DecodeString(s).Some? && |DecodeString(s).value| == size <==> forall i :: 0 <= i < |s| ==> InAlphabet(s[i])
  {
    if forall i :: 0 <= i < |s| ==> InAlphabet(s[i]) {
      AlphabetReads(s);
    }
    if DecodeString(s).Some? && |DecodeString(s).value| == size {
      AcceptedPart(s, size);
      forall i | 0 <= i < |s|
        ensures InAlphabet(s[i])
      {
        assert DigitValue(s[i]).Some?;
      }
    }
  }

  predicate WellFormed(raw: string) {
    && |raw| == 73 && raw[..7] == "bb_pat_" && raw[29] == '_'
    && (forall i :: 0 <= i < |raw[7..29]| ==> InAlphabet(raw[7..29][i]))
    && (forall i :: 0 <= i < |raw[30..]| ==> InAlphabet(raw[30..][i]))
  }

  /** Exactly these strings are accepted: the prefix, 22 digits, the separator and 43 digits. */
  lemma AcceptsExactly(raw: string)
    ensures ParseToken(raw).Some? <==> WellFormed(raw)
  {
    if |raw| == 73 {
      var encoded := raw[7..];
      assert encoded[..22] == raw[7..29] && encoded[23..] == raw[30..] && encoded[22] == raw[29];
      PartIsAccepted(raw[7..29], 16);
      PartIsAccepted(raw[30..], 32);
      assert TOKEN_PREFIX <= raw <==> raw[..7] == TOKEN_PREFIX;
    }
    if ParseToken(raw).Some? {
      AcceptedToken(raw);
    }
  }

  /** How an accepted string is made up. */
  lemma AcceptedToken(raw: string)
    requires ParseToken(raw).Some?
    ensures |raw| == 73 && raw[..7] == "bb_pat_" && raw[29] == '_'
    ensures DecodeString(raw[7..29]) == Some(ParseToken(raw).value.id)
    ensures DecodeString(raw[30..]) == Some(ParseToken(raw).value.secret)
    ensures |ParseToken(raw).value.id| == ID_SIZE && |ParseToken(raw).value.secret| == SECRET_SIZE
  {
    var encoded := raw[7..];
    assert encoded[..22] == raw[7..29];
    assert encoded[23..] == raw[30..];
  }

  /**
   Two accepted strings name the same token exactly when they agree everywhere
   except in the four spare bits that end the id and the two that end the secret.
   */
  lemma SameTokenIffSameButSpareBits(raw: string, other: string)
    requires ParseToken(raw).Some? && ParseToken(other).Some?
    ensures |raw| == |other| == 73
    ensures ParseToken(raw) == ParseToken(other) <==>
            PartsAgree(raw[7..29], other[7..29], 16) && PartsAgree(raw[30..], other[30..], 4)
    ensures raw[..7] == other[..7] == "bb_pat_" && raw[29] == other[29] == '_'
  {
    AcceptedToken(raw);
    AcceptedToken(other);
    PartsDecodeEqual(raw[7..29], other[7..29], ID_SIZE, 16);
    PartsDecodeEqual(raw[30..], other[30..], SECRET_SIZE, 4);
  }
}
