/**
 * `base64.RawURLEncoding` of Go's `encoding/base64`: the URL- and filename-safe
 * alphabet of RFC 4648 (section 5) without padding, with Go's non-strict decoder.
 * The decoder skips '\r' and '\n', refuses every other character outside the
 * alphabet (the padding character '=' included, since the raw encoding has none),
 * refuses a final quantum of a single character, and ignores the unused low bits
 * of a final quantum of two or three characters.
 */
module Base64Url {
  import opened Wrappers
  import opened Bytes

  type sextet = x: int | 0 <= x < 64

  const UpperLetters: string := "ABCDEFGHIJKLMNOPQRSTUVWXYZ"
  const LowerLetters: string := "abcdefghijklmnopqrstuvwxyz"
  const DecimalDigits: string := "0123456789"

  /** Table 2 of RFC 4648: the base 64 alphabet with '-' for 62 and '_' for 63. */
  const Alphabet: string := UpperLetters + LowerLetters + DecimalDigits + "-_"

  /** Go's `CorruptInputError`; the offset it carries is not modelled. */
  datatype DecodeError = CorruptInput

  /** The character the table gives the value `v`, read off the table in four ranges. */
  lemma AlphabetAt(v: sextet)
    ensures |Alphabet| == 64
    ensures Alphabet[v] as int ==
      if v < 26 then 'A' as int + v
      else if v < 52 then 'a' as int + v - 26
      else if v < 62 then '0' as int + v - 52
      else if v == 62 then '-' as int
      else '_' as int
  {
    if v < 26 {
      assert Alphabet[v] == UpperLetters[v];
    } else if v < 52 {
      assert Alphabet[v] == LowerLetters[v - 26];
    } else if v < 62 {
      assert Alphabet[v] == DecimalDigits[v - 52];
    }
  }

  /**
   * The decoding table (Go's `decodeMap`): the position of `c` in the alphabet,
   * `None` for every character outside it.
   */
  function SextetOf(c: char): (v: Option<sextet>)
    ensures v.Some? ==> |Alphabet| == 64 && Alphabet[v.value] == c
    ensures v.None? ==> c !in Alphabet
  {
    var r: Option<sextet> :=
      if 'A' <= c <= 'Z' then Some(c as int - 'A' as int)
      else if 'a' <= c <= 'z' then Some(c as int - 'a' as int + 26)
      else if '0' <= c <= '9' then Some(c as int - '0' as int + 52)
      else if c == '-' then Some(62)
      else if c == '_' then Some(63)
      else None;
    if r.Some? then
      AlphabetAt(r.value);
      r
    else
      OutsideAlphabet(c);
      r
  }

  /** A character outside the four ranges of the table is not in the alphabet. */
  lemma OutsideAlphabet(c: char)
    requires !('A' <= c <= 'Z') && !('a' <= c <= 'z') && !('0' <= c <= '9') && c != '-' && c != '_'
    ensures c !in Alphabet
  {
    forall i | 0 <= i < |Alphabet| ensures Alphabet[i] != c {
      AlphabetAt(i);
    }
  }

  /** Decoding the table's character at position `v` gives back `v`. */
  lemma SextetOfAlphabet(v: sextet)
    ensures SextetOf(Alphabet[v]) == Some(v)
  {
    AlphabetAt(v);
  }

  // ---------------------------------------------------------------- encoding

  /**
   * `EncodeToString` as sextet values: every 3 bytes give 4 sextets; a final
   * 1 or 2 bytes give 2 or 3 sextets, the missing low bits set to zero.
   */
  function EncodeSextets(bs: seq<byte>): (q: seq<sextet>)
    ensures |q| == (|bs| * 8 + 5) / 6
    decreases |bs|
  {
    if |bs| == 0 then []
    else if |bs| == 1 then [bs[0] / 4, (bs[0] % 4) * 16]
    else if |bs| == 2 then [bs[0] / 4, (bs[0] % 4) * 16 + bs[1] / 16, (bs[1] % 16) * 4]
    else [bs[0] / 4, (bs[0] % 4) * 16 + bs[1] / 16, (bs[1] % 16) * 4 + bs[2] / 64, bs[2] % 64]
         + EncodeSextets(bs[3..])
  }

  function ToChars(q: seq<sextet>): (s: string)
    ensures |s| == |q|
  {
    AlphabetAt(0);
    seq(|q|, i requires 0 <= i < |q| => Alphabet[q[i]])
  }

  /** `base64.RawURLEncoding.EncodeToString`. */
  function EncodeToString(bs: seq<byte>): (s: string)
    ensures |s| == (|bs| * 8 + 5) / 6
    ensures forall c | c in s :: c in Alphabet
  {
    ToChars(EncodeSextets(bs))
  }

  // ---------------------------------------------------------------- decoding

  predicate IsLineBreak(c: char)
  {
    c == '\n' || c == '\r'
  }

  /** The characters the decoder reads: everything but '\r' and '\n', in order. */
  function StripLineBreaks(s: string): (r: string)
    ensures |r| <= |s|
    ensures forall c | c in r :: c in s && !IsLineBreak(c)
    ensures forall c | c in s && !IsLineBreak(c) :: c in r
    ensures (forall c | c in s :: !IsLineBreak(c)) ==> r == s
  {
    if s == [] then []
    else if IsLineBreak(s[0]) then StripLineBreaks(s[1..])
    else [s[0]] + StripLineBreaks(s[1..])
  }

  /** Stripping works piece by piece, so the characters that stay keep their order. */
  lemma {:induction false} StripLineBreaksAppend(a: string, b: string)
    ensures StripLineBreaks(a + b) == StripLineBreaks(a) + StripLineBreaks(b)
  {
    if a != [] {
      var ab := a + b;
      assert ab[0] == a[0] && ab[1..] == a[1..] + b;
      StripLineBreaksAppend(a[1..], b);
      if IsLineBreak(a[0]) {
        assert StripLineBreaks(ab) == StripLineBreaks(a[1..]) + StripLineBreaks(b);
      } else {
        assert StripLineBreaks(ab) == [a[0]] + (StripLineBreaks(a[1..]) + StripLineBreaks(b));
      }
    } else {
      assert a + b == b;
    }
  }

  /** A single character is dropped when it is a line break and kept otherwise. */
  lemma StripLineBreaksChar(c: char)
    ensures StripLineBreaks([c]) == if IsLineBreak(c) then [] else [c]
  {
    assert [c][1..] == [];
  }

  /** The sextet values of `s`, or `None` when one of its characters is outside the alphabet. */
  function Sextets(s: string): (r: Option<seq<sextet>>)
    ensures r.Some? <==> forall c | c in s :: SextetOf(c).Some?
    ensures r.Some? ==> |r.value| == |s| && forall i | 0 <= i < |s| :: Alphabet[r.value[i]] == s[i]
  {
    if s == [] then Some([])
    else match SextetOf(s[0])
      case None => None
      case Some(v) =>
        match Sextets(s[1..])
        case None => None
        case Some(rest) => Some([v] + rest)
  }

  /** The three bytes a quantum of sextets `a b c d` stands for (Go's `val >> 16`, `val >> 8`, `val`). */
  function FirstByte(a: sextet, b: sextet): byte { (a as int) * 4 + (b as int) / 16 }
  function SecondByte(b: sextet, c: sextet): byte { ((b as int) % 16) * 16 + (c as int) / 4 }
  function ThirdByte(c: sextet, d: sextet): byte { ((c as int) % 4) * 64 + d as int }

  /**
   * Go's `decodeQuantum`, quantum after quantum: 4 sextets give 3 bytes, a final
   * 2 or 3 sextets give 1 or 2 bytes (leftover bits dropped), a final single
   * sextet is an error.
   */
  function DecodeSextets(q: seq<sextet>): (r: Option<seq<byte>>)
    ensures r.Some? <==> |q| % 4 != 1
    ensures r.Some? ==> |r.value| == |q| * 3 / 4
    decreases |q|
  {
    if |q| == 0 then Some([])
    else if |q| == 1 then None
    else if |q| == 2 then Some([FirstByte(q[0], q[1])])
    else if |q| == 3 then Some([FirstByte(q[0], q[1]), SecondByte(q[1], q[2])])
    else
      QuantumLength(|q|);
      match DecodeSextets(q[4..])
      case None => None
      case Some(rest) =>
        Some([FirstByte(q[0], q[1]), SecondByte(q[1], q[2]), ThirdByte(q[2], q[3])] + rest)
  }

  /** Dropping one full quantum of 4 sextets drops 3 bytes and keeps the length's remainder. */
  lemma QuantumLength(n: nat)
    requires n >= 4
    ensures (n - 4) * 3 / 4 + 3 == n * 3 / 4
    ensures (n - 4) % 4 == n % 4
  {
  }

  /** `base64.RawURLEncoding.DecodeString`. */
  function DecodeString(s: string): (r: Result<seq<byte>, DecodeError>)
    ensures r.Success? <==>
      (forall c | c in s && !IsLineBreak(c) :: c in Alphabet) && |StripLineBreaks(s)| % 4 != 1
    ensures r.Success? ==> |r.value| == |StripLineBreaks(s)| * 3 / 4
  {
    var text := StripLineBreaks(s);
    match Sextets(text)
    case None => Failure(CorruptInput)
    case Some(q) =>
      match DecodeSextets(q)
      case None => Failure(CorruptInput)
      case Some(bs) => Success(bs)
  }

  // ---------------------------------------------------------------- round trip

  lemma {:induction false} SextetsOfToChars(q: seq<sextet>)
    ensures Sextets(ToChars(q)) == Some(q)
  {
    if q != [] {
      var s := ToChars(q);
      assert s[1..] == ToChars(q[1..]);
      SextetOfAlphabet(q[0]);
      SextetsOfToChars(q[1..]);
      assert q == [q[0]] + q[1..];
    }
  }

  lemma {:induction false} DecodeEncodeSextets(bs: seq<byte>)
    ensures DecodeSextets(EncodeSextets(bs)) == Some(bs)
    decreases |bs|
  {
    var q := EncodeSextets(bs);
    if |bs| == 1 {
      assert FirstByte(q[0], q[1]) == bs[0];
      assert bs == [bs[0]];
    } else if |bs| == 2 {
      assert FirstByte(q[0], q[1]) == bs[0];
      assert SecondByte(q[1], q[2]) == bs[1];
      assert bs == [bs[0], bs[1]];
    } else if |bs| >= 3 {
      assert q[4..] == EncodeSextets(bs[3..]);
      DecodeEncodeSextets(bs[3..]);
      assert FirstByte(q[0], q[1]) == bs[0];
      assert SecondByte(q[1], q[2]) == bs[1];
      assert ThirdByte(q[2], q[3]) == bs[2];
      assert bs == [bs[0], bs[1], bs[2]] + bs[3..];
    }
  }

  /** Decoding the unpadded base64url encoding of any byte string gives back that byte string. */
  lemma DecodeEncode(bs: seq<byte>)
    ensures DecodeString(EncodeToString(bs)) == Success(bs)
  {
    var q := EncodeSextets(bs);
    var s := ToChars(q);
    forall c | c in s ensures !IsLineBreak(c) {
      var i :| 0 <= i < |s| && s[i] == c;
      AlphabetAt(q[i]);
    }
    assert StripLineBreaks(s) == s;
    SextetsOfToChars(q);
    DecodeEncodeSextets(bs);
  }

  /**
   * The decoder is not strict: the unused low bits of a final quantum are ignored,
   * so "AB" decodes like "AA", to the single byte 0.
   */
  lemma DecodeIgnoresTrailingBits()
    ensures DecodeString("AB") == DecodeString("AA") == Success([0])
  {
    var ab: string, aa: string := "AB", "AA";
    assert StripLineBreaks(ab) == ab && StripLineBreaks(aa) == aa;
    assert Sextets(ab[1..]).value == [1];
    assert Sextets(ab).value == [0, 1];
    assert DecodeSextets([0, 1]) == Some([0]);
    assert Sextets(aa[1..]).value == [0];
    assert Sextets(aa).value == [0, 0];
    assert DecodeSextets([0, 0]) == Some([0]);
  }

  /** "AQAB", the exponent key sets usually publish, decodes to the bytes 1, 0, 1. */
  lemma DecodeUsualExponent()
    ensures DecodeString("AQAB") == Success([1, 0, 1])
  {
    var bs: seq<byte> := [1, 0, 1];
    assert bs[3..] == [];
    var q := EncodeSextets(bs);
    assert q == [0, 16, 0, 1];
    AlphabetAt(0);
    AlphabetAt(16);
    AlphabetAt(1);
    var s := ToChars(q);
    assert s[0] == 'A' && s[1] == 'Q' && s[2] == 'A' && s[3] == 'B';
    assert EncodeToString(bs) == "AQAB";
    DecodeEncode(bs);
  }

  /** A lone final character and the padding character are both refused. */
  lemma DecodeRefusesShortQuantumAndPadding()
    ensures DecodeString("A").Failure?
    ensures DecodeString("AA==").Failure?
  {
    assert StripLineBreaks("A") == "A";
    assert "AA=="[2] == '=' && SextetOf('=') == None;
  }
}
