/**
 What the headers that a client names in its Connection header can do to the request that the peer gets: nothing, except
 that a named Host still shows as X-Forwarded-Host.
 */
module GatewayNomination {

  import opened HttpText
  import opened HttpMessage
  import opened HttpFraming
  import opened HttpGrammar
  import opened HttpRendering
  import opened HttpFields
  import opened UpstreamRequest
  import opened UpstreamRoundTrip
  import opened HttpWords
  import opened UpstreamWriter
  import opened GatewayRoundTrip

  // ----- The nominated names of two requests -----

  /** The same Connection header, and the same of every header that it does not name. */
  ghost predicate AlikeBut(w: Words, headers: map<string, string>, headers': map<string, string>) {
    var list := HeaderOr(headers, w.connection);
    && list == HeaderOr(headers', w.connection)
    && forall k :: !Named(k, list) ==> (k in headers <==> k in headers') && (k in headers ==> headers[k] == headers'[k])
  }

  lemma {:induction false} SameClientFields(
      w: Words, named: set<string>, named': set<string>, headers: map<string, string>, order: seq<string>)
    requires forall k :: k in order ==> k in headers && (k in named <==> k in named')
    ensures ClientFields(w, named, headers, order) == ClientFields(w, named', headers, order)
    decreases |order|
  {
    if order != [] {
      SameClientFields(w, named, named', headers, order[..|order| - 1]);
    }
  }

  /** Only what is named and there matters. */
  lemma SameFields(
      w: Words, named: set<string>, named': set<string>, headers: map<string, string>, order: seq<string>, ctx: Context,
      hostPort: string)
    requires forall k :: k in order ==> k in headers && (k in named <==> k in named')
    ensures Fields(w, named, headers, order, ctx, hostPort) == Fields(w, named', headers, order, ctx, hostPort)
  {
    SameClientFields(w, named, named', headers, order);
    assert OwnValues(w, named, headers, order, ctx) == OwnValues(w, named', headers, order, ctx);
  }

  lemma NominatedAlike(w: Words, headers: map<string, string>, headers': map<string, string>)
    requires AlikeBut(w, headers, headers')
    ensures var named := Nominated(w, headers) + Nominated(w, headers');
      && AgreeOutside(named, headers, headers')
      && (forall k :: k in headers ==> (k in named <==> k in Nominated(w, headers)))
      && (forall k :: k in headers' ==> (k in named <==> k in Nominated(w, headers')))
  {
  }

  /**
   Two clients with the same Connection header whose requests agree on every header it does not name: the peer sees the
   same header table exactly if their Host headers are the same, which they are unless Host is named.
   */
  lemma NominatedTables(
      g: Grammar, w: Words, headers: map<string, string>, order: seq<string>, headers': map<string, string>,
      order': seq<string>, ctx: Context, hostPort: string)
    requires ProperNames(g, w) && Enumerates(order, headers) && Enumerates(order', headers')
    requires AlikeBut(w, headers, headers')
    ensures Table(Fields(w, Nominated(w, headers), headers, order, ctx, hostPort)) ==
            Table(Fields(w, Nominated(w, headers'), headers', order', ctx, hostPort)) <==>
      HeaderOr(headers, w.host) == HeaderOr(headers', w.host)
    ensures !Named(w.host, HeaderOr(headers, w.connection)) ==> HeaderOr(headers, w.host) == HeaderOr(headers', w.host)
  {
    var named := Nominated(w, headers) + Nominated(w, headers');
    NominatedAlike(w, headers, headers');
    SameFields(w, Nominated(w, headers), named, headers, order, ctx, hostPort);
    SameFields(w, Nominated(w, headers'), named, headers', order', ctx, hostPort);
    NominatedUnseen(g, w, named, headers, order, headers', order', ctx, hostPort);
  }

  /** The same for any two byte strings that parse. */
  lemma NominatedForwarded(
      s: string, order: seq<string>, s': string, order': seq<string>, ctx: Context, hostPort: string)
    requires Parse(s).Done? && Enumerates(order, Parse(s).headers.headers)
    requires Parse(s').Done? && Enumerates(order', Parse(s').headers.headers)
    requires AlikeBut(WORDS, Parse(s).headers.headers, Parse(s').headers.headers)
    ensures var r, r' := Parse(s), Parse(s');
      Table(ForwardedFields(r, order, ctx, hostPort)) == Table(ForwardedFields(r', order', ctx, hostPort)) <==>
        HeaderOr(r.headers.headers, WORDS.host) == HeaderOr(r'.headers.headers, WORDS.host)
    ensures var h, h' := Parse(s).headers.headers, Parse(s').headers.headers;
      !Named(WORDS.host, HeaderOr(h, WORDS.connection)) ==> HeaderOr(h, WORDS.host) == HeaderOr(h', WORDS.host)
  {
    ProperNamesHttp();
    NominatedTables(HTTP, WORDS, Parse(s).headers.headers, order, Parse(s').headers.headers, order', ctx, hostPort);
  }

  // ----- A named Host -----

  /** A request line with headers that announce no body parses to the table of the headers. */
  lemma FieldsParse(g: Grammar, line: string, fields: seq<Field>)
    requires SplitsText(g.split) && AllSound(g, fields) && Distinct(fields) && Fit(0, 0, fields) && fields != []
    requires Announced(g, 0, fields) == 0 && NoCrLf(line) && |line| <= MAX_REQUEST_LINE && RequestLine(g, line).Ok?
    ensures var r := Frame(ReaderOf(g), Render(line, Texts(fields), ""));
      r.Done? && r.headers.headers == Table(fields)
  {
    FoldReads(g, EMPTY, fields);
    PlusAllIs(g, EMPTY, fields);
    assert map[] + Table(fields) == Table(fields);
    forall i | 0 <= i < |fields| ensures Solid(Texts(fields)[i]) {
      assert Sound(g, fields[i]);
      TextSolid(fields[i]);
    }
    RenderFrame(ReaderOf(g), line, Texts(fields), "");
  }

  /** A Connection header that names the second header. */
  function Naming(connection: string, name: string, value: string): seq<Field> {
    [Field(connection, name), Field(name, value)]
  }

  lemma NamingIs(g: Grammar, connection: string, name: string, value: string)
    requires Spelled(connection) && Spelled(name) && connection != name && PlainValue(value)
    requires connection != g.transferEncoding && name != g.transferEncoding
    requires connection != g.contentLength && name != g.contentLength && |connection| + |name| + |value| <= 2000
    ensures var fields := Naming(connection, name, value);
      && AllSound(g, fields) && Distinct(fields) && Fit(0, 0, fields) && Announced(g, 0, fields) == 0
      && Table(fields) == map[connection := name, name := value]
  {
    var fields := Naming(connection, name, value);
    NoReturn(name);
    SpelledTrimmed(name);
    SpelledField(connection, name);
    SpelledField(name, value);
    assert fields[1..] == [fields[1]] && fields[1..][1..] == [];
    assert Table(fields[1..]) == map[name := value];
    assert Announced(g, 0, []) == 0;
    assert Announced(g, 0, fields[1..]) == Announced(g, 0, fields[1..][1..]);
    assert Size(fields[1..]) == |Text(fields[1])|;
  }

  lemma SpelledTrimmed(name: string)
    requires Spelled(name)
    ensures Trimmed(name)
  {
    assert NameChar(name[0]) && NameChar(name[|name| - 1]);
  }

  lemma GetLine()
    ensures var line := "GET" + [' '] + "/" + [' '] + "HTTP/1.1";
      NoCrLf(line) && |line| == 14 && RequestLine(HTTP, line).Ok?
  {
    VerbText(Get);
    PlainLine(HTTP, "GET", "/", "HTTP/1.1");
  }

  lemma HostWords()
    ensures Spelled("connection") && Spelled("host") && "connection" != "host" && |"connection"| == 10 && |"host"| == 4
    ensures "connection" != HTTP.transferEncoding && "host" != HTTP.transferEncoding
    ensures "connection" != HTTP.contentLength && "host" != HTTP.contentLength
  {
    OthersSpelled();
    assert |HTTP.transferEncoding| == 17 && |HTTP.contentLength| == 14;
  }

  /** A request whose Connection header names its Host. */
  ghost function HostNamed(host: string): string {
    Render("GET" + [' '] + "/" + [' '] + "HTTP/1.1", Texts(Naming("connection", "host", host)), "")
  }

  lemma HostNamedParses(host: string)
    requires PlainValue(host) && |host| <= 1000
    ensures var r := Parse(HostNamed(host));
      r.Done? && r.headers.headers == map["connection" := "host", "host" := host]
  {
    HostWords();
    GetLine();
    SplitFieldText();
    NamingIs(HTTP, "connection", "host", host);
    FieldsParse(HTTP, "GET" + [' '] + "/" + [' '] + "HTTP/1.1", Naming("connection", "host", host));
  }

  lemma NamingAlike(w: Words, c: string, n: string, v: string, v': string)
    requires c == w.connection && c != n && Named(n, n)
    ensures AlikeBut(w, map[c := n, n := v], map[c := n, n := v'])
    ensures Enumerates([c, n], map[c := n, n := v])
  {
    TwoKeys(c, n, n, v);
  }

  /**
   `Connection: host` does not keep the client's Host from the peer: two such requests with different hosts differ.
   */
  lemma HostStillSeen(host: string, host': string, ctx: Context, hostPort: string)
    requires PlainValue(host) && PlainValue(host') && |host| <= 1000 && |host'| <= 1000 && host != host'
    ensures var r, r', order := Parse(HostNamed(host)), Parse(HostNamed(host')), ["connection", "host"];
      && r.Done? && r'.Done? && Enumerates(order, r.headers.headers) && Enumerates(order, r'.headers.headers)
      && AlikeBut(WORDS, r.headers.headers, r'.headers.headers)
      && Table(ForwardedFields(r, order, ctx, hostPort)) != Table(ForwardedFields(r', order, ctx, hostPort))
  {
    HostNamedParses(host);
    HostNamedParses(host');
    HostWords();
    SpelledToken("host");
    NamingAlike(WORDS, "connection", "host", host, host');
    NamingAlike(WORDS, "connection", "host", host', host);
    var order := ["connection", "host"];
    NominatedForwarded(HostNamed(host), order, HostNamed(host'), order, ctx, hostPort);
  }
}
