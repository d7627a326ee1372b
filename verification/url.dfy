// Query-component escaping as the standard `net/url` package does it for
// `QueryEscape` and `QueryUnescape`, and the reading of a query string into
// key/value pairs.

module UrlQuery {
  import opened Wrappers
  import opened Bytes
  import Utf8
  import Strings

  /** Bytes kept as they are: ASCII letters and digits and the marks - _ . ~ (RFC 3986, section 2.3). */
  predicate Unreserved(b: byte)
  {
    || ('A' as int) <= b <= ('Z' as int)
    || ('a' as int) <= b <= ('z' as int)
    || ('0' as int) <= b <= ('9' as int)
    || b == '-' as int || b == '_' as int || b == '.' as int || b == '~' as int
  }

  predicate IsHex(c: char)
  {
    '0' <= c <= '9' || 'a' <= c <= 'f' || 'A' <= c <= 'F'
  }

  function HexValue(c: char): (v: nat)
    requires IsHex(c)
    ensures v < 16
  {
    if '0' <= c <= '9' then (c as int) - ('0' as int)
    else if 'a' <= c <= 'f' then (c as int) - ('a' as int) + 10
    else (c as int) - ('A' as int) + 10
  }

  /** Upper-case hexadecimal digit. */
  function HexDigit(d: nat): (c: char)
    requires d < 16
    ensures IsHex(c) && HexValue(c) == d
    ensures c != '%' && c != '+' && c != '&' && c != '=' && c != '?' && c != '#'
  {
    "0123456789ABCDEF"[d]
  }

  /** A character that can appear in escaped text: an unreserved byte, '+', '%' or a hex digit. */
  predicate EscapedChar(c: char)
  {
    ((c as int) < 0x80 && Unreserved(c as int)) || c == '+' || c == '%' || IsHex(c)
  }

  /** One byte in a query component: kept, '+' for a space, %XX otherwise. */
  function EscapeByte(b: byte): (s: string)
    ensures forall c | c in s :: EscapedChar(c)
  {
    if Unreserved(b) then [b as char]
    else if b == ' ' as int then "+"
    else ['%', HexDigit(b / 16), HexDigit(b % 16)]
  }

  function EscapeBytes(bs: seq<byte>): (s: string)
    ensures forall c | c in s :: EscapedChar(c)
  {
    if |bs| == 0 then [] else EscapeByte(bs[0]) + EscapeBytes(bs[1..])
  }

  /** The text escaped for use as a query key or value, over its UTF-8 bytes. */
  function QueryEscape(s: string): (r: string)
    ensures forall c | c in r :: EscapedChar(c)
    ensures '&' !in r && '=' !in r && '?' !in r && '#' !in r && ' ' !in r
  {
    EscapeBytes(Utf8.Encode(s))
  }

  datatype EscapeError = InvalidEscape

  /**
   * Undoes query escaping: %XX (either case) is that byte, '+' a space, any other
   * character its own UTF-8 bytes; a '%' without two hex digits after it is an error.
   */
  function QueryUnescape(s: string): (r: Result<seq<byte>, EscapeError>)
    ensures '%' !in s ==> r.Success? && |r.value| >= |s|
    decreases |s|
  {
    if |s| == 0 then Success([])
    else if s[0] == '%' then
      if |s| < 3 || !IsHex(s[1]) || !IsHex(s[2]) then Failure(InvalidEscape)
      else Prepend([HexValue(s[1]) * 16 + HexValue(s[2])], QueryUnescape(s[3..]))
    else if s[0] == '+' then Prepend([' ' as int], QueryUnescape(s[1..]))
    else Prepend(Utf8.EncodeChar(s[0]), QueryUnescape(s[1..]))
  }

  function Prepend(head: seq<byte>, r: Result<seq<byte>, EscapeError>): Result<seq<byte>, EscapeError>
  {
    match r
    case Success(tail) => Success(head + tail)
    case Failure(e) => Failure(e)
  }

  lemma UnescapeEscapeByte(b: byte, rest: string)
    ensures QueryUnescape(EscapeByte(b) + rest) == Prepend([b], QueryUnescape(rest))
  {
    var s := EscapeByte(b) + rest;
    if Unreserved(b) {
      assert s[0] == b as char && s[1..] == rest;
    } else if b == ' ' as int {
      assert s[0] == '+' && s[1..] == rest;
    } else {
      assert s[0] == '%' && s[1] == HexDigit(b / 16) && s[2] == HexDigit(b % 16) && s[3..] == rest;
    }
  }

  /** Unescaping escaped bytes gives those bytes back. */
  lemma {:induction false} UnescapeEscape(bs: seq<byte>)
    ensures QueryUnescape(EscapeBytes(bs)) == Success(bs)
  {
    if |bs| > 0 {
      UnescapeEscape(bs[1..]);
      UnescapeEscapeByte(bs[0], EscapeBytes(bs[1..]));
      assert [bs[0]] + bs[1..] == bs;
    }
  }

  /** Query escaping round-trips: unescaping gives back exactly the text's UTF-8 bytes. */
  lemma QueryUnescapeEscape(s: string)
    ensures QueryUnescape(QueryEscape(s)) == Success(Utf8.Encode(s))
  {
    UnescapeEscape(Utf8.Encode(s));
  }

  /** Text without '%' and '+' unescapes to its own bytes. */
  lemma {:induction false} UnescapePlain(s: string)
    requires '%' !in s && '+' !in s
    ensures QueryUnescape(s) == Success(Utf8.Encode(s))
  {
    if |s| > 0 {
      assert '%' !in s[1..] && '+' !in s[1..];
      UnescapePlain(s[1..]);
    }
  }

  /**
   * A query string read as url.ParseQuery reads a well-formed one: split at '&',
   * each part cut at its first '=', key and value unescaped.
   */
  function QueryPairs(query: string): (pairs: seq<(Result<seq<byte>, EscapeError>, Result<seq<byte>, EscapeError>)>)
    ensures |pairs| == |Strings.Split(query, '&')|
  {
    var parts := Strings.Split(query, '&');
    seq(|parts|, i requires 0 <= i < |parts| => KeyValue(parts[i]))
  }

  /** One key=value part, cut at its first '=' and unescaped on both sides. */
  function KeyValue(part: string): (Result<seq<byte>, EscapeError>, Result<seq<byte>, EscapeError>)
  {
    var kv := Strings.Cut(part, '=');
    (QueryUnescape(kv.0), QueryUnescape(kv.1))
  }
}
