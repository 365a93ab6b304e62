/** The round trip from the client's bytes to the peer's parser, in the words of HTTP/1.1. */
module GatewayRoundTrip {

  import opened HttpText
  import opened HttpMessage
  import opened Options
  import opened HttpFraming
  import opened HttpGrammar
  import opened HttpRendering
  import opened HttpFields
  import opened UpstreamRequest
  import opened UpstreamRoundTrip
  import opened HttpWords
  import opened UpstreamWriter

  ghost function Parse(s: string): Attempt<Start, Acc> {
    Frame(ReaderOf(HTTP), s)
  }

  /** The names that the client's Connection header takes away. */
  ghost function Dropped(r: Attempt<Start, Acc>): set<string>
    requires r.Done?
  {
    Nominated(WORDS, r.headers.headers)
  }

  ghost function ForwardedFields(r: Attempt<Start, Acc>, order: seq<string>, ctx: Context, hostPort: string): seq<Field>
    requires r.Done? && forall k :: k in order ==> k in r.headers.headers
  {
    Fields(WORDS, Dropped(r), r.headers.headers, order, ctx, hostPort)
  }

  /** What `BuildRequest` writes for the parsed request. */
  ghost function Forwarded(r: Attempt<Start, Acc>, order: seq<string>, ctx: Context, hostPort: string): string
    requires r.Done? && forall k :: k in order ==> k in r.headers.headers
  {
    Render(UpstreamLine(WORDS, r.line), Texts(ForwardedFields(r, order, ctx, hostPort)), r.body)
  }

  /** What the gateway puts into its own headers. */
  ghost function OwnHeaders(r: Attempt<Start, Acc>, order: seq<string>, ctx: Context): seq<string>
    requires r.Done? && forall k :: k in order ==> k in r.headers.headers
  {
    OwnValues(WORDS, Dropped(r), r.headers.headers, order, ctx)
  }

  /** The peer's parser gets from `out` what it should get of the client's request. */
  ghost predicate Recovered(
      r: Attempt<Start, Acc>, order: seq<string>, ctx: Context, hostPort: string, out: string)
    requires r.Done? && forall k :: k in order ==> k in r.headers.headers
  {
    Faithful(WORDS, Dropped(r), OwnHeaders(r, order, ctx), hostPort, r, Parse(out), |out|)
  }

  lemma LengthDropped(r: Attempt<Start, Acc>)
    requires r.Done? && AccWell(HTTP, r.headers) && |r.body| == r.headers.expected
    ensures r.body == "" || HTTP.contentLength !in Dropped(r) <==>
      r.body == "" || !Named(HTTP.contentLength, HeaderOr(r.headers.headers, WORDS.connection))
  {
  }

  /**
   For every byte string that parses, every order of walking its headers and every clean context: the peer's parser
   recovers the request from what the gateway writes, exactly when the rewritten lines stay inside the caps and a
   request with a body does not list content-length in its Connection header.
   */
  lemma ForwardedReparses(s: string, order: seq<string>, ctx: Context, hostPort: string)
    requires Parse(s).Done? && Enumerates(order, Parse(s).headers.headers) && PlainContext(ctx, hostPort)
    ensures var r := Parse(s);
      Recovered(r, order, ctx, hostPort, Forwarded(r, order, ctx, hostPort)) <==>
        && |UpstreamLine(WORDS, r.line)| <= MAX_REQUEST_LINE
        && Fit(0, 0, ForwardedFields(r, order, ctx, hostPort))
        && (r.body == "" || !Named(HTTP.contentLength, HeaderOr(r.headers.headers, WORDS.connection)))
  {
    ProperHttp();
    var r := Parse(s);
    ParsedWell(HTTP, s);
    LengthDropped(r);
    RoundTrip(HTTP, WORDS, Dropped(r), s, order, ctx, hostPort);
  }

  // ----- A request that the peer reads differently -----

  /** A Connection header that names the length header, and a length of one. */
  function Taking(connection: string, length: string, one: string): seq<Field> {
    [Field(connection, length), Field(length, one)]
  }

  ghost predicate TakingWords(g: Grammar, connection: string, length: string, one: string) {
    && Spelled(connection) && Spelled(length) && connection != length && length == g.contentLength
    && connection != g.transferEncoding && length != g.transferEncoding
    && NoCrLf(one) && Trimmed(one) && g.size(one) == Some(1) && |connection| + |length| + |one| < 100
  }

  lemma SpelledField(name: string, value: string)
    requires Spelled(name) && NoCrLf(value) && Trimmed(value)
    ensures FieldWell(name, value)
  {
    NoReturn(name);
    assert LowerCopy(name) == name;
  }

  lemma TakingSound(g: Grammar, connection: string, length: string, one: string)
    requires TakingWords(g, connection, length, one)
    ensures AllSound(g, Taking(connection, length, one)) && Distinct(Taking(connection, length, one))
  {
    NoReturn(length);
    SpelledField(connection, length);
    SpelledField(length, one);
  }

  lemma TakingFits(g: Grammar, connection: string, length: string, one: string)
    requires TakingWords(g, connection, length, one)
    ensures Fit(0, 0, Taking(connection, length, one))
  {
    var fields := Taking(connection, length, one);
    assert fields[1..] == [Field(length, one)] && fields[1..][1..] == [];
    assert Size(fields[1..]) == |Text(fields[1])|;
  }

  lemma TakingReads(g: Grammar, connection: string, length: string, one: string)
    requires TakingWords(g, connection, length, one) && SplitsText(g.split)
    ensures var r := Fold(ReaderOf(g), EMPTY, Texts(Taking(connection, length, one)));
      r.Ok? && r.value.headers == map[connection := length, length := one] && r.value.expected == 1
  {
    var fields := Taking(connection, length, one);
    TakingSound(g, connection, length, one);
    TakingFits(g, connection, length, one);
    FoldReads(g, EMPTY, fields);
    PlusAllIs(g, EMPTY, fields);
    TakingTable(g, connection, length, one);
    assert map[] + Table(fields) == Table(fields);
  }

  lemma TakingTable(g: Grammar, connection: string, length: string, one: string)
    requires TakingWords(g, connection, length, one)
    ensures var fields := Taking(connection, length, one);
      Table(fields) == map[connection := length, length := one] && Announced(g, 0, fields) == 1
  {
    var fields := Taking(connection, length, one);
    assert fields[1..] == [Field(length, one)] && fields[1..][1..] == [];
    assert Table(fields[1..]) == map[length := one];
    assert Announced(g, 0, fields[1..]) == 1;
  }

  lemma TakingSolid(g: Grammar, connection: string, length: string, one: string)
    requires TakingWords(g, connection, length, one)
    ensures AllSolid(Texts(Taking(connection, length, one)))
  {
    var fields := Taking(connection, length, one);
    TakingSound(g, connection, length, one);
    forall i | 0 <= i < |fields| ensures Solid(Texts(fields)[i]) {
      assert Sound(g, fields[i]);
      TextSolid(fields[i]);
    }
  }

  lemma {:induction false} SpelledToken(name: string)
    requires Spelled(name)
    ensures Named(name, name)
  {
    assert TokenStart(name, 0);
    assert FindChar(name, ',', 0) == -1;
    assert name[0..|name|] == name;
    assert NameChar(name[0]) && NameChar(name[|name| - 1]);
    assert Token(name, 0) == name;
  }

  /** Such a request parses, with a body of one byte. */
  lemma TakingParses(g: Grammar, line: string, connection: string, length: string, one: string, body: string)
    requires TakingWords(g, connection, length, one) && SplitsText(g.split) && |body| == 1
    requires NoCrLf(line) && |line| <= MAX_REQUEST_LINE && RequestLine(g, line).Ok?
    ensures var r := Frame(ReaderOf(g), Render(line, Texts(Taking(connection, length, one)), body));
      && r.Done? && r.body == body && r.headers.headers == map[connection := length, length := one]
      && r.line == RequestLine(g, line).value
  {
    TakingSolid(g, connection, length, one);
    TakingReads(g, connection, length, one);
    RenderFrame(ReaderOf(g), line, Texts(Taking(connection, length, one)), body);
    assert body[..1] == body;
  }

  lemma TakingHttp()
    ensures TakingWords(HTTP, "connection", "content-length", "1")
  {
    OthersSpelled();
    NoReturn("1");
    assert FromChars("1") == Some(1) by { assert "1"[..0] == []; }
    LengthSpelled();
    assert |"connection"| == 10 && |"content-length"| == 14 && |"transfer-encoding"| == 17;
  }

  lemma LengthSpelled()
    ensures Spelled("content-length")
  {
  }

  lemma PlainLine(g: Grammar, verb: string, target: string, version: string)
    requires Lacks(verb, ' ') && Lacks(target, ' ') && g.parseMethod(verb).Some? && g.parseVersion(version).Some?
    requires Lacks(verb, '\r') && Lacks(target, '\r') && Lacks(version, '\r')
    ensures var line := verb + [' '] + target + [' '] + version;
      && NoCrLf(line)
      && RequestLine(g, line) ==
         Ok(Start(g.parseMethod(verb).value, g.parseVersion(version).value, PathOf(target), QueryOf(target)))
  {
    LineReads(g, verb, target, version);
    NoReturn(verb + [' '] + target + [' '] + version);
  }

  lemma PostLine()
    ensures var line := "POST" + [' '] + "/" + [' '] + "HTTP/1.1";
      NoCrLf(line) && |line| == 15 && RequestLine(HTTP, line) == Ok(Start(Post, Http11, "/", ""))
  {
    VerbText(Post);
    assert PathOf("/") == "/" && QueryOf("/") == "";
    PlainLine(HTTP, "POST", "/", "HTTP/1.1");
  }

  lemma TwoKeys(a: string, b: string, v: string, v': string)
    requires a != b
    ensures Enumerates([a, b], map[a := v, b := v'])
  {
  }

  /** The peer does not get the body, and if the lines are inside the caps it takes it for the next request. */
  lemma Unfaithful(s: string, order: seq<string>, ctx: Context, hostPort: string)
    requires Parse(s).Done? && Enumerates(order, Parse(s).headers.headers) && PlainContext(ctx, hostPort)
    requires Parse(s).body != "" && Named(HTTP.contentLength, HeaderOr(Parse(s).headers.headers, WORDS.connection))
    ensures var r := Parse(s);
      var out := Forwarded(r, order, ctx, hostPort);
      && !Recovered(r, order, ctx, hostPort, out)
      && (|UpstreamLine(WORDS, r.line)| <= MAX_REQUEST_LINE && Fit(0, 0, ForwardedFields(r, order, ctx, hostPort)) ==>
          Parse(out).Done? && Parse(out).body == "" && Parse(out).used == |out| - |r.body|)
  {
    var r := Parse(s);
    ForwardedReparses(s, order, ctx, hostPort);
    ProperHttp();
    ParsedWell(HTTP, s);
    assert HTTP.contentLength in Dropped(r) by { LengthDropped(r); }
    BodyCutOff(HTTP, WORDS, Dropped(r), s, order, ctx, hostPort);
  }

  ghost function Lost(): string {
    Render("POST" + [' '] + "/" + [' '] + "HTTP/1.1", Texts(Taking("connection", "content-length", "1")), "x")
  }

  lemma LostParses()
    ensures var r := Parse(Lost());
      && r.Done? && r.body == "x" && r.headers.headers == map["connection" := "content-length", "content-length" := "1"]
      && r.line == Start(Post, Http11, "/", "")
  {
    TakingHttp();
    PostLine();
    SplitFieldText();
    TakingParses(HTTP, "POST" + [' '] + "/" + [' '] + "HTTP/1.1", "connection", "content-length", "1", "x");
  }

  /** With nothing known about the client, the gateway writes its last two headers only. */
  lemma OnlyLast(w: Words, named: set<string>, c: string, l: string, one: string, hostPort: string)
    requires ProperNames(HTTP, w) && c == w.connection && l == HTTP.contentLength && l in named
    ensures Fields(w, named, map[c := l, l := one], [c, l], Context("", "", "", ""), hostPort) == Last(w, hostPort)
  {
    var headers, order := map[c := l, l := one], [c, l];
    assert order[..1] == [c] && order[..1][..0] == [];
    assert !Kept(w, named, c) && !Kept(w, named, l);
    assert ClientFields(w, named, headers, [c]) == [] == ClientFields(w, named, headers, order);
    NoValues(w, named, headers, order);
    AbsentAll(OwnNames(w), OwnValues(w, named, headers, order, Context("", "", "", "")));
  }

  lemma NoValues(w: Words, named: set<string>, headers: map<string, string>, order: seq<string>)
    requires ProperNames(HTTP, w) && (forall k :: k in order <==> k in headers)
    requires forall k :: k in headers ==> k == w.connection || k == HTTP.contentLength
    ensures forall i :: 0 <= i < 6 ==> OwnValues(w, named, headers, order, Context("", "", "", ""))[i] == ""
  {
    var names := OwnNames(w);
    assert forall i :: 0 <= i < 6 ==> names[i] !in headers;
    assert names[0] == w.forwardedFor && names[4] == w.via && names[5] == w.requestId;
  }

  lemma {:induction false} AbsentAll(names: seq<string>, values: seq<string>)
    requires |names| == |values| && forall i :: 0 <= i < |values| ==> values[i] == ""
    ensures Present(names, values) == []
    decreases |names|
  {
    if names != [] {
      AbsentAll(names[..|names| - 1], values[..|values| - 1]);
    }
  }

  lemma LastFits(w: Words, hostPort: string)
    requires |w.host| + |hostPort| + |w.connection| + |w.keepAlive| <= 2000
    ensures Fit(0, 0, Last(w, hostPort))
  {
    var fields := Last(w, hostPort);
    assert fields[1..] == [fields[1]] && fields[1..][1..] == [];
    assert Size(fields[1..]) == |Text(fields[1])|;
  }

  ghost predicate ShortWords(w: Words) {
    |w.host| + |w.connection| + |w.keepAlive| <= 100
  }

  lemma OnlyLastFits(w: Words, named: set<string>, c: string, l: string, one: string, hostPort: string)
    requires ProperNames(HTTP, w) && c == w.connection && l == HTTP.contentLength && l in named
    requires ShortWords(w) && |hostPort| <= 1000
    ensures Fit(0, 0, Fields(w, named, map[c := l, l := one], [c, l], Context("", "", "", ""), hostPort))
  {
    OnlyLast(w, named, c, l, one, hostPort);
    LastFits(w, hostPort);
  }

  /** What is written for a request that names its length header, when nothing is known about the client. */
  ghost function Bare(w: Words, named: set<string>, r: Attempt<Start, Acc>, c: string, l: string,
        hostPort: string): string
    requires r.Done? && c in r.headers.headers && l in r.headers.headers
  {
    Render(UpstreamLine(w, r.line),
           Texts(Fields(w, named, r.headers.headers, [c, l], Context("", "", "", ""), hostPort)), r.body)
  }

  /** A request whose length the peer never learns, for every peer address of ordinary length. */
  lemma TakenAway(w: Words, named: set<string>, s: string, c: string, l: string, one: string, hostPort: string)
    requires Proper(HTTP, w) && ShortWords(w) && PlainValue(hostPort) && |hostPort| <= 1000
    requires c == w.connection && l == HTTP.contentLength && l in named
    requires Parse(s).Done? && Parse(s).headers.headers == map[c := l, l := one]
    requires |UpstreamLine(w, Parse(s).line)| <= MAX_REQUEST_LINE
    ensures Enumerates([c, l], Parse(s).headers.headers)
    ensures var out := Bare(w, named, Parse(s), c, l, hostPort);
      Parse(out).Done? && Parse(out).body == "" && Parse(out).used == |out| - |Parse(s).body|
  {
    TwoKeys(c, l, l, one);
    OnlyLastFits(w, named, c, l, one, hostPort);
    BodyCutOff(HTTP, w, named, s, [c, l], Context("", "", "", ""), hostPort);
  }

  lemma LengthNominated(r: Attempt<Start, Acc>, c: string, l: string, one: string)
    requires c == WORDS.connection && c != l && Named(l, l) && r.Done? && r.headers.headers == map[c := l, l := one]
    ensures l in Dropped(r)
  {
  }

  lemma LastLengths()
    ensures ShortWords(WORDS)
  {
  }

  lemma LostLine()
    ensures |UpstreamLine(WORDS, Start(Post, Http11, "/", ""))| == 15
  {
    assert WORDS.methodText(Post) == "POST" && |WORDS.version| == 8;
  }

  /** The peer does not get the body of this request: its parser takes the byte for the start of another request. */
  lemma BodyLost(hostPort: string)
    requires PlainValue(hostPort) && |hostPort| <= 1000
    ensures var s, order := Lost(), ["connection", "content-length"];
      && Parse(s).Done? && Parse(s).body == "x" && Enumerates(order, Parse(s).headers.headers)
      && var out := Forwarded(Parse(s), order, Context("", "", "", ""), hostPort);
        Parse(out).Done? && Parse(out).body == "" && Parse(out).used == |out| - 1
  {
    LostParses();
    LostLine();
    LengthSpelled();
    SpelledToken("content-length");
    assert |"connection"| != |"content-length"|;
    LengthNominated(Parse(Lost()), "connection", "content-length", "1");
    ProperHttp();
    LastLengths();
    TakenAway(WORDS, Dropped(Parse(Lost())), Lost(), "connection", "content-length", "1", hostPort);
  }
}
