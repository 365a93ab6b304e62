/**
 The request that the gateway writes to an upstream peer for a parsed client request. As in the parser, the protocol's
 words are fields of a record.
 */
module UpstreamRequest {

  import opened HttpText
  import opened HttpMessage
  import opened HttpGrammar
  import opened HttpFields

  datatype Words = Words(
    methodText: Method -> string, version: string,
    host: string, connection: string, forwardedFor: string, realIp: string, forwardedProto: string,
    forwardedHost: string, forwardedPort: string, via: string, requestId: string,
    keepAlive: string, viaVersion: string, hopByHop: set<string>)

  /** What the gateway knows about the connection the request came over; empty when unknown. */
  datatype Context = Context(clientIp: string, scheme: string, gateway: string, requestId: string)

  // ----- Tokens of the Connection header -----

  predicate IsBlank(c: char) {
    c == ' ' || c == '\t'
  }

  function SkipBlanks(s: string): string {
    if s != [] && IsBlank(s[0]) then SkipBlanks(s[1..]) else s
  }

  function DropBlanks(s: string): string {
    if s != [] && IsBlank(s[|s| - 1]) then DropBlanks(s[..|s| - 1]) else s
  }

  predicate TokenStart(list: string, i: nat) {
    i < |list| && (i == 0 || list[i - 1] == ',')
  }

  function TokenEnd(list: string, i: nat): (e: nat)
    requires i <= |list|
    ensures i <= e <= |list|
  {
    var comma := FindChar(list, ',', i);
    if comma == -1 then |list| else comma
  }

  function Token(list: string, i: nat): string
    requires i <= |list|
  {
    DropBlanks(SkipBlanks(list[i..TokenEnd(list, i)]))
  }

  /** Some token of the comma-separated list is `name`, whatever the case of its letters. */
  ghost predicate Named(name: string, list: string) {
    exists i: nat :: TokenStart(list, i) && LowerCopy(Token(list, i)) == LowerCopy(name)
  }

  method AsciiCaseEqual(a: string, b: string) returns (r: bool)
    ensures r <==> LowerCopy(a) == LowerCopy(b)
  {
    if |a| != |b| { return false; }
    for i := 0 to |a|
      invariant forall j :: 0 <= j < i ==> Lower(a[j]) == Lower(b[j])
    {
      if Lower(a[i]) != Lower(b[i]) {
        assert LowerCopy(a)[i] != LowerCopy(b)[i];
        return false;
      }
    }
    return true;
  }

  method NamedByConnection(name: string, connection: string) returns (r: bool)
    ensures r <==> Named(name, connection)
  {
    var pos := 0;
    while pos < |connection|
      invariant 0 <= pos <= |connection|
      invariant pos < |connection| ==> TokenStart(connection, pos)
      invariant forall i: nat :: i < pos && TokenStart(connection, i) ==>
        LowerCopy(Token(connection, i)) != LowerCopy(name)
    {
      var comma := FindChar(connection, ',', pos);
      var end := if comma == -1 then |connection| else comma;
      var token := connection[pos..end];
      while token != [] && IsBlank(token[0])
        invariant SkipBlanks(token) == SkipBlanks(connection[pos..end])
      {
        token := token[1..];
      }
      while token != [] && IsBlank(token[|token| - 1])
        invariant DropBlanks(token) == Token(connection, pos)
      {
        token := token[..|token| - 1];
      }
      var same := AsciiCaseEqual(name, token);
      if same { return true; }
      if comma == -1 { return false; }
      pos := comma + 1;
    }
    return false;
  }

  // ----- The fields of the upstream request -----

  /** A client header is forwarded as it stands: it belongs to the whole path and the gateway does not replace it. */
  predicate Kept(w: Words, named: set<string>, k: string) {
    && Passes(w, named, k)
    && k !in {w.forwardedFor, w.via, w.requestId, w.realIp, w.forwardedProto, w.forwardedHost, w.forwardedPort}
  }

  /** Neither the host, nor a hop-by-hop header, nor one that the client's Connection header names. */
  predicate Passes(w: Words, named: set<string>, k: string) {
    k != w.host && k !in w.hopByHop && k !in named
  }

  function ClientFields(w: Words, named: set<string>, headers: map<string, string>, order: seq<string>): seq<Field>
    requires forall k :: k in order ==> k in headers
  {
    if order == [] then []
    else
      var k := order[|order| - 1];
      ClientFields(w, named, headers, order[..|order| - 1]) + if Kept(w, named, k) then [Field(k, headers[k])] else []
  }

  /** The client's value of a header that the gateway extends, if it passes. */
  function Previous(w: Words, named: set<string>, headers: map<string, string>, order: seq<string>, k: string): string
    requires forall k :: k in order ==> k in headers
  {
    if k in order && Passes(w, named, k) then headers[k] else ""
  }

  function Joined(previous: string, separator: string, lead: string, added: string): string {
    if previous != "" && added != "" then previous + separator + lead + added
    else if previous != "" then previous
    else if added != "" then lead + added
    else ""
  }

  function HeaderOr(headers: map<string, string>, k: string): string {
    if k in headers then headers[k] else ""
  }

  function OwnNames(w: Words): seq<string> {
    [w.forwardedFor, w.realIp, w.forwardedProto, w.forwardedHost, w.via, w.requestId]
  }

  function OwnValues(
      w: Words, named: set<string>, headers: map<string, string>, order: seq<string>, ctx: Context): seq<string>
    requires forall k :: k in order ==> k in headers
  {
    var id := Previous(w, named, headers, order, w.requestId);
    [ Joined(Previous(w, named, headers, order, w.forwardedFor), [',', ' '], "", ctx.clientIp),
      ctx.clientIp,
      ctx.scheme,
      HeaderOr(headers, w.host),
      Joined(Previous(w, named, headers, order, w.via), [',', ' '], w.viaVersion, ctx.gateway),
      if id != "" then id else ctx.requestId ]
  }

  /** Headers without a value are not written. */
  function Present(names: seq<string>, values: seq<string>): seq<Field>
    requires |names| == |values|
  {
    if names == [] then []
    else
      var n := |names| - 1;
      Present(names[..n], values[..n]) + if values[n] == "" then [] else [Field(names[n], values[n])]
  }

  function Last(w: Words, hostPort: string): seq<Field> {
    [Field(w.host, hostPort), Field(w.connection, w.keepAlive)]
  }

  function Fields(
      w: Words, named: set<string>, headers: map<string, string>, order: seq<string>, ctx: Context, hostPort: string)
    : seq<Field>
    requires forall k :: k in order ==> k in headers
  {
    ClientFields(w, named, headers, order)
    + (Present(OwnNames(w), OwnValues(w, named, headers, order, ctx)) + Last(w, hostPort))
  }

  function Target(path: string, query: string): string {
    (if path == "" then "/" else path) + if query == "" then "" else ['?'] + query
  }

  function UpstreamLine(w: Words, start: Start): string {
    w.methodText(start.verb) + [' '] + Target(start.path, start.query) + [' '] + w.version
  }

  // ----- They are in order -----

  ghost predicate PlainName(g: Grammar, name: string) {
    && name != "" && NoCrLf(name) && Lacks(name, ':') && LowerCopy(name) == name
    && name != g.transferEncoding && name != g.contentLength
  }

  predicate AllDifferent(names: seq<string>) {
    forall i, j :: 0 <= i < j < |names| ==> names[i] != names[j]
  }

  ghost predicate ProperNames(g: Grammar, w: Words) {
    && AllDifferent(OwnNames(w))
    && w.host !in OwnNames(w) && w.connection !in OwnNames(w) && w.host != w.connection
    && (forall i :: 0 <= i < |OwnNames(w)| ==> PlainName(g, OwnNames(w)[i]))
    && PlainName(g, w.host) && PlainName(g, w.connection)
    && w.connection in w.hopByHop && g.transferEncoding in w.hopByHop && g.contentLength !in w.hopByHop
    && g.contentLength != w.forwardedPort
  }

  /** A text that stands in a header line unchanged. */
  ghost predicate PlainValue(v: string) {
    NoCrLf(v) && Trimmed(v)
  }

  lemma {:induction false} PresentNames(names: seq<string>, values: seq<string>, i: nat)
    requires |names| == |values| && i < |Present(names, values)|
    ensures exists j :: 0 <= j < |names| && Present(names, values)[i] == Field(names[j], values[j])
    decreases |names|
  {
    var n := |names| - 1;
    if i < |Present(names[..n], values[..n])| {
      PresentNames(names[..n], values[..n], i);
    }
  }

  lemma {:induction false} PresentDistinct(names: seq<string>, values: seq<string>)
    requires |names| == |values| && AllDifferent(names)
    ensures Distinct(Present(names, values))
    decreases |names|
  {
    if names != [] {
      var n := |names| - 1;
      var front := Present(names[..n], values[..n]);
      PresentDistinct(names[..n], values[..n]);
      forall i | 0 <= i < |front| ensures front[i].name != names[n] {
        PresentNames(names[..n], values[..n], i);
      }
    }
  }

  lemma {:induction false} ClientNames(w: Words, named: set<string>, headers: map<string, string>,
        order: seq<string>, i: nat)
    requires forall k :: k in order ==> k in headers
    requires i < |ClientFields(w, named, headers, order)|
    ensures var f := ClientFields(w, named, headers, order)[i];
      f.name in order && Kept(w, named, f.name) && f.value == headers[f.name]
    decreases |order|
  {
    var front := order[..|order| - 1];
    if i < |ClientFields(w, named, headers, front)| {
      ClientNames(w, named, headers, front, i);
    }
  }

  lemma {:induction false} ClientDistinct(w: Words, named: set<string>, headers: map<string, string>,
        order: seq<string>)
    requires (forall k :: k in order ==> k in headers) && AllDifferent(order)
    ensures Distinct(ClientFields(w, named, headers, order))
    decreases |order|
  {
    if order != [] {
      var front := order[..|order| - 1];
      ClientDistinct(w, named, headers, front);
      forall i | 0 <= i < |ClientFields(w, named, headers, front)|
        ensures ClientFields(w, named, headers, front)[i].name != order[|order| - 1]
      {
        ClientNames(w, named, headers, front, i);
      }
    }
  }

  lemma DistinctAppend(a: seq<Field>, b: seq<Field>)
    requires Distinct(a) && Distinct(b)
    requires forall i, j :: 0 <= i < |a| && 0 <= j < |b| ==> a[i].name != b[j].name
    ensures Distinct(a + b)
  {
  }

  /** Fields of the gateway's own: their names are among the eight it writes. */
  ghost predicate Own(w: Words, f: Field) {
    f.name in OwnNames(w) || f.name == w.host || f.name == w.connection
  }

  lemma OwnDistinct(g: Grammar, w: Words, values: seq<string>, hostPort: string)
    requires ProperNames(g, w) && |values| == 6
    ensures var own := Present(OwnNames(w), values) + Last(w, hostPort);
      Distinct(own) && forall i :: 0 <= i < |own| ==> Own(w, own[i])
  {
    var a, b := Present(OwnNames(w), values), Last(w, hostPort);
    PresentDistinct(OwnNames(w), values);
    forall i | 0 <= i < |a| ensures a[i].name in OwnNames(w) {
      PresentNames(OwnNames(w), values, i);
    }
    DistinctAppend(a, b);
  }

  lemma FieldsDistinct(
      g: Grammar, w: Words, named: set<string>, headers: map<string, string>, order: seq<string>, ctx: Context,
      hostPort: string)
    requires ProperNames(g, w) && (forall k :: k in order ==> k in headers) && AllDifferent(order)
    ensures Distinct(Fields(w, named, headers, order, ctx, hostPort))
  {
    var values := OwnValues(w, named, headers, order, ctx);
    var a, b := ClientFields(w, named, headers, order), Present(OwnNames(w), values) + Last(w, hostPort);
    ClientDistinct(w, named, headers, order);
    OwnDistinct(g, w, values, hostPort);
    forall i, j | 0 <= i < |a| && 0 <= j < |b| ensures a[i].name != b[j].name {
      ClientNames(w, named, headers, order, i);
      assert Own(w, b[j]);
    }
    DistinctAppend(a, b);
  }
}
