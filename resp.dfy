/**
 * The line-oriented reply vocabulary a connection writes back to its client:
 * simple strings, integers, bulk strings (with a distinct nil form) and error
 * replies, in the RESP2 framing. Each reply is a pure function of its argument.
 * A decoder is given beside the encoder, and the two are shown to be inverse
 * on well-formed replies in both directions.
 */
module Resp {
  import opened Wrappers

  const CRLF: string := "\r\n"

  datatype Reply =
    | Simple(text: string)          // "+<text>\r\n"
    | Integer(n: int)               // ":<n>\r\n"
    | Bulk(data: Option<string>)    // "$<length>\r\n<data>\r\n", or "$-1\r\n" for nil
    | Err(message: string)          // "-ERR <message>\r\n"

  /** A line of text that a reader can frame: it holds neither CR nor LF. */
  predicate NoNewline(s: string) {
    '\r' !in s && '\n' !in s
  }

  /** Simple strings and error texts travel on one line; integers and bulk data are framed by length. */
  predicate WellFormed(r: Reply) {
    match r
    case Simple(text) => NoNewline(text)
    case Err(message) => NoNewline(message)
    case _ => true
  }

  // ---------------------------------------------------------------------------
  // Decimal numerals

  predicate IsDigit(c: char) {
    '0' <= c <= '9'
  }

  predicate AllDigits(s: string) {
    forall i :: 0 <= i < |s| ==> IsDigit(s[i])
  }

  /** A numeral without a leading zero (except "0" itself). */
  predicate Canonical(s: string) {
    |s| > 0 && AllDigits(s) && (s[0] == '0' ==> |s| == 1)
  }

  function DigitValue(c: char): (d: nat)
    requires IsDigit(c)
    ensures d < 10
  {
    c as int - '0' as int
  }

  function DigitChar(d: nat): (c: char)
    requires d < 10
    ensures IsDigit(c) && DigitValue(c) == d
  {
    ('0' as int + d) as char
  }

  /** The digits of n, most significant first. */
  function NatDigits(n: nat): (s: string)
    ensures Canonical(s)
    ensures n > 0 ==> s[0] != '0'
  {
    if n < 10 then [DigitChar(n)] else NatDigits(n / 10) + [DigitChar(n % 10)]
  }

  /** The value of a string of digits, read most significant first. */
  function DigitsValue(s: string): nat
    requires AllDigits(s)
  {
    if s == [] then 0 else DigitsValue(s[..|s| - 1]) * 10 + DigitValue(s[|s| - 1])
  }

  /** The decimal form of an integer, with a '-' for negative values. */
  function Decimal(n: int): string {
    if n < 0 then "-" + NatDigits(-n) else NatDigits(n)
  }

  function ParseNat(s: string): Option<nat> {
    if Canonical(s) then Some(DigitsValue(s)) else None
  }

  function ParseInt(s: string): Option<int> {
    if |s| > 0 && s[0] == '-' then
      if Canonical(s[1..]) && s[1..] != "0" then Some(0 - DigitsValue(s[1..]) as int) else None
    else
      ParseNat(s)
  }

  lemma {:induction false} DigitsValueOfNatDigits(n: nat)
    ensures DigitsValue(NatDigits(n)) == n
  {
    var s := NatDigits(n);
    if n >= 10 {
      assert s[..|s| - 1] == NatDigits(n / 10);
      DigitsValueOfNatDigits(n / 10);
    }
  }

  lemma {:induction false} PositiveValue(s: string)
    requires |s| > 0 && AllDigits(s) && s[0] != '0'
    ensures DigitsValue(s) > 0
  {
    if |s| > 1 {
      PositiveValue(s[..|s| - 1]);
    }
  }

  lemma {:induction false} NatDigitsOfValue(s: string)
    requires Canonical(s)
    ensures NatDigits(DigitsValue(s)) == s
  {
    if |s| == 1 {
      assert DigitChar(DigitValue(s[0])) == s[0];
    } else {
      var p := s[..|s| - 1];
      PositiveValue(p);
      NatDigitsOfValue(p);
      var v, d := DigitsValue(p), DigitValue(s[|s| - 1]);
      assert DigitsValue(s) / 10 == v && DigitsValue(s) % 10 == d;
      assert DigitChar(d) == s[|s| - 1];
      assert s == p + [s[|s| - 1]];
    }
  }

  /** Decimal and ParseInt are inverse: every integer reads back, and every numeral ParseInt accepts is the one Decimal writes. */
  lemma ParseDecimal(n: int)
    ensures ParseInt(Decimal(n)) == Some(n)
  {
    if n < 0 {
      DigitsValueOfNatDigits(-n);
      assert Decimal(n)[1..] == NatDigits(-n);
    } else {
      DigitsValueOfNatDigits(n);
    }
  }

  lemma DecimalOfParse(s: string, n: int)
    requires ParseInt(s) == Some(n)
    ensures Decimal(n) == s
  {
    if |s| > 0 && s[0] == '-' {
      var t := s[1..];
      if |t| > 1 { PositiveValue(t); } else { assert DigitValue(t[0]) != 0; }
      NatDigitsOfValue(t);
      assert s == "-" + t;
    } else {
      NatDigitsOfValue(s);
    }
  }

  // ---------------------------------------------------------------------------
  // Encoding

  function Encode(r: Reply): string {
    match r
    case Simple(text) => "+" + text + CRLF
    case Integer(n) => ":" + Decimal(n) + CRLF
    case Bulk(None) => "$-1" + CRLF
    case Bulk(Some(b)) => "$" + Decimal(|b|) + CRLF + b + CRLF
    case Err(message) => "-ERR " + message + CRLF
  }

  /** The acknowledgement written by Connection.Ok. */
  function OkReply(): (s: string)
    ensures s == "+OK\r\n"
  {
    Encode(Simple("OK"))
  }

  /** The integer reply written by Connection.Number. */
  function NumberReply(n: int): (s: string)
    ensures s == ":" + Decimal(n) + CRLF
  {
    Encode(Integer(n))
  }

  /** The bulk reply written by Connection.Result: nil data has its own form, distinct from empty data. */
  function ResultReply(data: Option<string>): (s: string)
    ensures data.None? ==> s == "$-1\r\n"
    ensures data.Some? ==> s == "$" + Decimal(|data.value|) + CRLF + data.value + CRLF
  {
    Encode(Bulk(data))
  }

  /** The error reply written by Connection.Error: the command label is only for the log, not the wire. */
  function ErrorReply(command: string, message: string): (s: string)
    ensures s == "-ERR " + message + CRLF
  {
    Encode(Err(message))
  }

  /**
   * Every reply a connection writes reads back as what was meant: the
   * acknowledgement, the integer, the bulk data or its absence (nil and empty
   * data stay distinct), and a one-line error message.
   */
  lemma RepliesReadBack(n: int, data: Option<string>, command: string, message: string)
    ensures Decode(OkReply()) == Some(Simple("OK"))
    ensures Decode(NumberReply(n)) == Some(Integer(n))
    ensures Decode(ResultReply(data)) == Some(Bulk(data))
    ensures NoNewline(message) ==> Decode(ErrorReply(command, message)) == Some(Err(message))
  {
    DecodeSimple("OK");
    DecodeInteger(n);
    DecodeEncode(Bulk(data));
    if NoNewline(message) {
      DecodeErr(message);
    }
  }

  // The replies of the connection walk-through, byte for byte.

  lemma NumberExample()
    ensures NumberReply(123) == ":123\r\n"
  {
  }

  lemma NilExample()
    ensures ResultReply(None) == "$-1\r\n"
  {
  }

  lemma BulkExample()
    ensures ResultReply(Some("{some:jobjson}")) == "$14\r\n{some:jobjson}\r\n"
  {
    assert Decimal(14) == "14";
  }

  lemma ErrorExample()
    ensures ErrorReply("bad command", "permission denied") == "-ERR permission denied\r\n"
  {
  }

  // ---------------------------------------------------------------------------
  // Decoding

  /** Splits off the first line: the text before the first CR, which must be followed by LF. */
  function SplitLine(s: string): (r: Option<(string, string)>)
    ensures r.Some? ==> s == r.value.0 + CRLF + r.value.1 && '\r' !in r.value.0
  {
    if |s| < 2 then None
    else if s[0] == '\r' then (if s[1] == '\n' then Some(([], s[2..])) else None)
    else match SplitLine(s[1..])
      case None => None
      case Some((line, rest)) => Some(([s[0]] + line, rest))
  }

  lemma {:induction false} SplitLineOf(line: string, rest: string)
    requires '\r' !in line
    ensures SplitLine(line + CRLF + rest) == Some((line, rest))
  {
    var s := line + CRLF + rest;
    if line != [] {
      assert s[1..] == line[1..] + CRLF + rest;
      SplitLineOf(line[1..], rest);
      assert [line[0]] + line[1..] == line;
    } else {
      assert s[2..] == rest;
    }
  }

  /** Reads one complete reply; anything malformed, truncated or followed by extra bytes is None. */
  function Decode(s: string): Option<Reply> {
    if |s| == 0 then None
    else match SplitLine(s[1..])
      case None => None
      case Some((line, rest)) => DecodeFrame(s[0], line, rest)
  }

  /** Reads a reply from its type byte, its first line and the bytes after that line. */
  function DecodeFrame(tag: char, line: string, rest: string): Option<Reply> {
    if tag == '+' then
      if rest == [] && NoNewline(line) then Some(Simple(line)) else None
    else if tag == '-' then
      if rest == [] && NoNewline(line) && |line| >= 4 && line[..4] == "ERR " then Some(Err(line[4..])) else None
    else if tag == ':' then
      if rest == [] && ParseInt(line).Some? then Some(Integer(ParseInt(line).value)) else None
    else if tag == '$' then
      if line == "-1" then
        if rest == [] then Some(Bulk(None)) else None
      else if ParseNat(line).Some? && |rest| == ParseNat(line).value + 2 && rest[ParseNat(line).value..] == CRLF then
        Some(Bulk(Some(rest[..ParseNat(line).value])))
      else None
    else None
  }

  /** Every well-formed reply reads back as itself. */
  lemma DecodeEncode(r: Reply)
    requires WellFormed(r)
    ensures Decode(Encode(r)) == Some(r)
  {
    match r
    case Simple(text) => DecodeSimple(text);
    case Integer(n) => DecodeInteger(n);
    case Bulk(None) => DecodeNil();
    case Bulk(Some(b)) => DecodeBulk(b);
    case Err(message) => DecodeErr(message);
  }

  lemma DecodeSimple(text: string)
    requires NoNewline(text)
    ensures Decode(Encode(Simple(text))) == Some(Simple(text))
  {
    var s := Encode(Simple(text));
    assert s[1..] == text + CRLF + [];
    SplitLineOf(text, []);
  }

  lemma DecodeInteger(n: int)
    ensures Decode(Encode(Integer(n))) == Some(Integer(n))
  {
    var s := Encode(Integer(n));
    var d := Decimal(n);
    assert s[1..] == d + CRLF + [];
    assert '\r' !in d by { assert '\r' !in NatDigits(if n < 0 then -n else n); }
    SplitLineOf(d, []);
    ParseDecimal(n);
  }

  lemma DecodeNil()
    ensures Decode(Encode(Bulk(None))) == Some(Bulk(None))
  {
  }

  lemma DecodeBulk(b: string)
    ensures Decode(Encode(Bulk(Some(b)))) == Some(Bulk(Some(b)))
  {
    var s := Encode(Bulk(Some(b)));
    var d := Decimal(|b|);
    assert s[1..] == d + CRLF + (b + CRLF);
    SplitLineOf(d, b + CRLF);
    DigitsValueOfNatDigits(|b|);
    assert ParseNat(d) == Some(|b|);
    assert (b + CRLF)[..|b|] == b;
    assert (b + CRLF)[|b|..] == CRLF;
  }

  lemma DecodeErr(message: string)
    requires NoNewline(message)
    ensures Decode(Encode(Err(message))) == Some(Err(message))
  {
    var s := Encode(Err(message));
    var line := "ERR " + message;
    assert s[1..] == line + CRLF + [];
    SplitLineOf(line, []);
    assert line[..4] == "ERR " && line[4..] == message;
  }

  /** Every string that reads as a reply is exactly that reply's encoding. */
  lemma EncodeDecode(s: string, r: Reply)
    requires Decode(s) == Some(r)
    ensures WellFormed(r) && Encode(r) == s
  {
    var split := SplitLine(s[1..]);
    var line, rest := split.value.0, split.value.1;
    assert s == [s[0]] + line + CRLF + rest;
    EncodeFrame(s[0], line, rest, r);
  }

  lemma EncodeFrame(tag: char, line: string, rest: string, r: Reply)
    requires DecodeFrame(tag, line, rest) == Some(r)
    ensures WellFormed(r) && Encode(r) == [tag] + line + CRLF + rest
  {
    if tag == ':' {
      EncodeIntegerFrame(line, rest, r);
    } else if tag == '$' {
      if line != "-1" {
        EncodeBulkFrame(line, rest, r);
      }
    }
  }

  lemma EncodeIntegerFrame(line: string, rest: string, r: Reply)
    requires DecodeFrame(':', line, rest) == Some(r)
    ensures WellFormed(r) && Encode(r) == [':'] + line + CRLF + rest
  {
    DecimalOfParse(line, r.n);
  }

  lemma EncodeBulkFrame(line: string, rest: string, r: Reply)
    requires line != "-1" && DecodeFrame('$', line, rest) == Some(r)
    ensures WellFormed(r) && Encode(r) == ['$'] + line + CRLF + rest
  {
    var n := ParseNat(line).value;
    NatDigitsOfValue(line);
    assert Decimal(n) == line;
    assert rest == rest[..n] + CRLF;
  }
}
