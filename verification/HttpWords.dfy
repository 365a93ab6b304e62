/** The words of HTTP/1.1 as the gateway spells them. */
module HttpWords {

  import opened HttpText
  import opened HttpMessage
  import opened Options
  import opened HttpFraming
  import opened HttpGrammar
  import opened HttpRendering
  import opened HttpFields
  import opened UpstreamRequest
  import opened UpstreamRoundTrip

  const HTTP := Grammar(ParseMethod, ParseVersion, SplitField, FromChars, "transfer-encoding", "content-length")

  const WORDS := Words(
    MethodToString, "HTTP/1.1",
    "host", "connection", "x-forwarded-for", "x-real-ip", "x-forwarded-proto", "x-forwarded-host", "x-forwarded-port",
    "via", "x-request-id", "keep-alive", "1.1 ",
    { "connection", "keep-alive", "proxy-connection", "proxy-authenticate", "proxy-authorization", "te", "trailer",
      "transfer-encoding", "upgrade" })

  lemma VerbText(verb: Method)
    requires verb != Invalid
    ensures var text := MethodToString(verb);
      Lacks(text, ' ') && Lacks(text, '\r') && ParseMethod(text) == Some(verb)
  {
    var text := MethodToString(verb);
    match verb
    case Get => assert text[0] == 'G';
    case Put => assert text[1] == 'U';
    case Post => assert |text| == 4 && text[0] == 'P';
    case Head => assert text[0] == 'H';
    case Patch => assert |text| == 5 && text[0] == 'P';
    case Trace => assert text[0] == 'T';
    case Delete => assert text[0] == 'D';
    case Options => assert text[0] == 'O';
    case Connect => assert text[0] == 'C';
  }

  lemma NoReturn(s: string)
    requires Lacks(s, '\r')
    ensures NoCrLf(s)
  {
  }

  lemma ProperLineHttp()
    ensures ProperLine(HTTP, WORDS)
  {
    NoReturn("HTTP/1.1");
    forall v | ParseMethod(v).Some? ensures ProperVerb(HTTP, WORDS, ParseMethod(v).value) {
      VerbText(ParseMethod(v).value);
      NoReturn(MethodToString(ParseMethod(v).value));
    }
  }

  predicate NameChar(c: char) {
    'a' <= c <= 'z' || c == '-'
  }

  predicate Spelled(name: string) {
    name != "" && forall i :: 0 <= i < |name| ==> NameChar(name[i])
  }

  lemma SpelledPlain(g: Grammar, name: string)
    requires Spelled(name) && name != g.transferEncoding && name != g.contentLength
    ensures PlainName(g, name)
  {
    NoReturn(name);
    assert LowerCopy(name) == name;
  }

  lemma ForwardedSpelled()
    ensures Spelled("x-forwarded-for") && Spelled("x-forwarded-proto") && Spelled("x-forwarded-host") &&
      Spelled("x-real-ip")
  {
  }

  lemma OthersSpelled()
    ensures Spelled("via") && Spelled("x-request-id") && Spelled("host") && Spelled("connection")
  {
  }

  /** None of the gateway's own headers frames the message. */
  predicate Apart(g: Grammar, names: seq<string>) {
    forall i :: 0 <= i < |names| ==> names[i] != g.transferEncoding && names[i] != g.contentLength
  }

  lemma NamesPlain(g: Grammar, names: seq<string>)
    requires Apart(g, names) && forall i :: 0 <= i < |names| ==> Spelled(names[i])
    ensures forall i :: 0 <= i < |names| ==> PlainName(g, names[i])
  {
    forall i | 0 <= i < |names| ensures PlainName(g, names[i]) {
      SpelledPlain(g, names[i]);
    }
  }

  lemma NamesApart()
    ensures Apart(HTTP, OwnNames(WORDS)) && Apart(HTTP, [WORDS.host, WORDS.connection])
  {
    var lengths := [15, 9, 17, 16, 3, 12];
    assert forall i :: 0 <= i < 6 ==> |OwnNames(WORDS)[i]| == lengths[i];
    assert WORDS.forwardedProto[0] != HTTP.transferEncoding[0];
    assert |HTTP.transferEncoding| == 17 && |HTTP.contentLength| == 14;
  }

  lemma NamesDiffer()
    ensures AllDifferent(OwnNames(WORDS))
    ensures WORDS.host !in OwnNames(WORDS) && WORDS.connection !in OwnNames(WORDS) && WORDS.host != WORDS.connection
  {
    var lengths := [15, 9, 17, 16, 3, 12];
    assert forall i :: 0 <= i < 6 ==> |OwnNames(WORDS)[i]| == lengths[i];
    assert |WORDS.host| == 4 && |WORDS.connection| == 10;
  }

  lemma HopByHopHttp()
    ensures WORDS.connection in WORDS.hopByHop && HTTP.transferEncoding in WORDS.hopByHop
    ensures HTTP.contentLength !in WORDS.hopByHop && HTTP.contentLength != WORDS.forwardedPort
  {
    forall k | k in WORDS.hopByHop ensures |k| != 14 {
    }
  }

  lemma ProperNamesHttp()
    ensures ProperNames(HTTP, WORDS)
  {
    ForwardedSpelled();
    OthersSpelled();
    NamesApart();
    NamesPlain(HTTP, OwnNames(WORDS));
    var pair := [WORDS.host, WORDS.connection];
    NamesPlain(HTTP, pair);
    assert PlainName(HTTP, pair[0]) && PlainName(HTTP, pair[1]);
    NamesDiffer();
    HopByHopHttp();
  }

  lemma PlainOwnHttp()
    ensures PlainOwn(WORDS)
  {
    NoReturn("keep-alive");
    NoReturn("1.1 ");
  }

  lemma ProperHttp()
    ensures Proper(HTTP, WORDS)
  {
    SplitFieldWell(HTTP);
    SplitFieldText();
    ProperLineHttp();
    ProperNamesHttp();
    PlainOwnHttp();
  }

  /**
   A request without headers: line end, empty line, and then whatever arrives. It completes exactly when a third
   line end follows; otherwise the empty line is a header line, and as soon as a blank line shows up it is refused.
   */
  lemma WithoutHeaders(g: Grammar, line: string, e: string)
    requires g.split("").None? && NoCrLf(line) && |line| <= MAX_REQUEST_LINE && RequestLine(g, line).Ok?
    ensures var r := Frame(ReaderOf(g), line + CRLF + CRLF + e);
      && (r.Done? <==> CrLfAt(e, 0))
      && (r.Done? ==> r == Done(RequestLine(g, line).value, EMPTY, "", |line| + 6))
      && (!r.Done? ==> r == if FindBlank(e, 0) != -1 then Bad(BadRequest)
                            else if 2 + |e| > MAX_HEADER_BYTES then Bad(HeaderTooLarge) else More)
  {
    NoHeaders(ReaderOf(g), line, e);
  }

  lemma EmptyLineRefused()
    ensures HTTP.split("").None?
  {
  }

  /** A request without headers is complete exactly when it ends in three line ends instead of two. */
  lemma HttpWithoutHeaders(line: string, e: string)
    requires NoCrLf(line) && |line| <= MAX_REQUEST_LINE && RequestLine(HTTP, line).Ok?
    ensures Frame(ReaderOf(HTTP), line + CRLF + CRLF + e).Done? <==> CrLfAt(e, 0)
  {
    EmptyLineRefused();
    WithoutHeaders(HTTP, line, e);
  }
}
