/** Requests and the pieces of the wire format that the parser and the printer share. */
module HttpMessage {

  import opened HttpText
  import opened Options

  datatype Method = Get | Post | Put | Delete | Head | Options | Patch | Connect | Trace | Invalid

  datatype Version = Unknown | Http10 | Http11

  /** Header names are stored in lower case; of two headers with one name the first is kept. */
  datatype Request = Request(
    verb: Method, version: Version, path: string, query: string, headers: map<string, string>, body: string)

  datatype Field = Field(name: string, value: string)

  /** A header line taken apart: its name, what follows the colon and the spaces after it, and that text trimmed. */
  datatype Entry = Entry(name: string, raw: string, value: string)

  function MethodToString(m: Method): string {
    match m
    case Get => "GET"
    case Post => "POST"
    case Put => "PUT"
    case Delete => "DELETE"
    case Head => "HEAD"
    case Options => "OPTIONS"
    case Patch => "PATCH"
    case Connect => "CONNECT"
    case Trace => "TRACE"
    case Invalid => "INVALID"
  }

  function ParseMethod(s: string): Option<Method> {
    if s == "GET" then Some(Get)
    else if s == "PUT" then Some(Put)
    else if s == "POST" then Some(Post)
    else if s == "HEAD" then Some(Head)
    else if s == "PATCH" then Some(Patch)
    else if s == "TRACE" then Some(Trace)
    else if s == "DELETE" then Some(Delete)
    else if s == "OPTIONS" then Some(Options)
    else if s == "CONNECT" then Some(Connect)
    else None
  }

  function ParseVersion(s: string): Option<Version> {
    if s == "HTTP/1.1" then Some(Http11) else if s == "HTTP/1.0" then Some(Http10) else None
  }

  predicate Digits(s: string) {
    forall i :: 0 <= i < |s| ==> '0' <= s[i] <= '9'
  }

  function DigitsValue(s: string): nat
    requires Digits(s)
  {
    if s == [] then 0 else
    var c := s[|s| - 1];
    assert '0' <= c <= '9';
    10 * DigitsValue(s[..|s| - 1]) + (c as int - '0' as int)
  }

  const SIZE_LIMIT := 0x1_0000_0000_0000_0000

  /** `from_chars` into a 64-bit size that must use up the whole text. */
  function FromChars(s: string): Option<nat> {
    if s != [] && Digits(s) && DigitsValue(s) < SIZE_LIMIT then Some(DigitsValue(s)) else None
  }

  lemma FromCharsTrimmed(s: string)
    requires FromChars(s).Some?
    ensures Trimmed(s)
  {
    assert '0' <= s[0] <= '9' && '0' <= s[|s| - 1] <= '9';
  }

  /** A number in decimal digits, without leading zeros. */
  function Numeral(n: nat): string {
    (if n < 10 then [] else Numeral(n / 10)) + [('0' as int + n % 10) as char]
  }

  /** A numeral is read as the number that it writes, as long as that fits 64 bits, with any leading zeros. */
  lemma {:induction false} NumeralRead(n: nat, zeros: string)
    requires forall i :: 0 <= i < |zeros| ==> zeros[i] == '0'
    ensures FromChars(zeros + Numeral(n)) == if n < SIZE_LIMIT then Some(n) else None
    ensures Digits(zeros + Numeral(n)) && DigitsValue(zeros + Numeral(n)) == n
    decreases n
  {
    var s := zeros + Numeral(n);
    if n < 10 {
      ZerosValue(zeros);
      assert s[..|s| - 1] == zeros;
    } else {
      NumeralRead(n / 10, zeros);
      assert s[..|s| - 1] == zeros + Numeral(n / 10);
    }
  }

  lemma {:induction false} ZerosValue(zeros: string)
    requires forall i :: 0 <= i < |zeros| ==> zeros[i] == '0'
    ensures DigitsValue(zeros) == 0
  {
    if zeros != [] {
      ZerosValue(zeros[..|zeros| - 1]);
    }
  }
}
