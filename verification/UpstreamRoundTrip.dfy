/** Parsing the upstream request gives back the client's request, less what ends at the gateway. */
module UpstreamRoundTrip {

  import opened HttpText
  import opened HttpMessage
  import opened Options
  import opened HttpFraming
  import opened HttpGrammar
  import opened HttpRendering
  import opened HttpFields
  import opened UpstreamRequest

  // ----- Values -----

  lemma NoCrLfAppend(a: string, b: string)
    requires NoCrLf(a) && NoCrLf(b) && (a == "" || b == "" || a[|a| - 1] != '\r' || b[0] != '\n')
    ensures NoCrLf(a + b)
  {
    forall i: nat | i + 1 < |a + b| ensures !CrLfAt(a + b, i) {
      if i + 1 < |a| {
        assert !CrLfAt(a, i);
      } else if |a| <= i {
        assert !CrLfAt(b, i - |a|);
      }
    }
  }

  /** A text put in front of a value, with a space between them. */
  ghost predicate PlainLead(lead: string) {
    NoCrLf(lead) && (lead == "" || (lead[0] != ' ' && lead[|lead| - 1] == ' '))
  }

  lemma LedPlain(lead: string, v: string)
    requires PlainLead(lead) && PlainValue(v) && v != ""
    ensures PlainValue(lead + v) && lead + v != ""
  {
    NoCrLfAppend(lead, v);
  }

  lemma JoinedPlain(previous: string, lead: string, added: string)
    requires PlainValue(previous) && PlainLead(lead) && PlainValue(added)
    ensures PlainValue(Joined(previous, [',', ' '], lead, added))
  {
    if added != "" {
      LedPlain(lead, added);
      if previous != "" {
        var tail := lead + added;
        NoCrLfAppend([',', ' '], tail);
        NoCrLfAppend(previous, [',', ' '] + tail);
        assert previous + [',', ' '] + lead + added == previous + ([',', ' '] + tail);
      }
    }
  }

  ghost predicate PlainContext(ctx: Context, hostPort: string) {
    && PlainValue(ctx.clientIp) && PlainValue(ctx.scheme) && PlainValue(ctx.gateway) && PlainValue(ctx.requestId)
    && PlainValue(hostPort)
  }

  ghost predicate PlainHeaders(headers: map<string, string>) {
    forall k :: k in headers ==> FieldWell(k, headers[k])
  }

  ghost predicate PlainOwn(w: Words) {
    PlainValue(w.keepAlive) && PlainLead(w.viaVersion)
  }

  lemma OwnValuesPlain(
      w: Words, named: set<string>, headers: map<string, string>, order: seq<string>, ctx: Context, hostPort: string)
    requires (forall k :: k in order ==> k in headers) && PlainHeaders(headers) && PlainContext(ctx, hostPort) &&
      PlainOwn(w)
    ensures var values := OwnValues(w, named, headers, order, ctx);
      forall i :: 0 <= i < |values| ==> PlainValue(values[i])
  {
    var xff := Previous(w, named, headers, order, w.forwardedFor);
    var via := Previous(w, named, headers, order, w.via);
    assert PlainValue(xff) && PlainValue(via);
    JoinedPlain(xff, "", ctx.clientIp);
    JoinedPlain(via, w.viaVersion, ctx.gateway);
    assert PlainValue(Previous(w, named, headers, order, w.requestId));
    assert PlainValue(HeaderOr(headers, w.host));
  }

  lemma OwnSound(g: Grammar, w: Words, values: seq<string>, hostPort: string)
    requires ProperNames(g, w) && PlainOwn(w) && PlainValue(hostPort) && |values| == 6
    requires forall i :: 0 <= i < |values| ==> PlainValue(values[i])
    ensures AllSound(g, Present(OwnNames(w), values) + Last(w, hostPort))
  {
    var a := Present(OwnNames(w), values);
    forall i | 0 <= i < |a| ensures Sound(g, a[i]) {
      PresentNames(OwnNames(w), values, i);
      var j :| 0 <= j < |OwnNames(w)| && a[i] == Field(OwnNames(w)[j], values[j]);
      assert PlainName(g, OwnNames(w)[j]) && PlainValue(values[j]);
    }
    assert AllSound(g, Last(w, hostPort));
  }

  lemma ClientSound(g: Grammar, w: Words, named: set<string>, acc: Acc, order: seq<string>)
    requires AccWell(g, acc) && forall k :: k in order ==> k in acc.headers
    ensures AllSound(g, ClientFields(w, named, acc.headers, order))
  {
    var a := ClientFields(w, named, acc.headers, order);
    forall i | 0 <= i < |a| ensures Sound(g, a[i]) {
      ClientNames(w, named, acc.headers, order, i);
    }
  }

  lemma FieldsSound(
      g: Grammar, w: Words, named: set<string>, acc: Acc, order: seq<string>, ctx: Context, hostPort: string)
    requires ProperNames(g, w) && PlainOwn(w) && PlainContext(ctx, hostPort)
    requires AccWell(g, acc) && forall k :: k in order ==> k in acc.headers
    ensures AllSound(g, Fields(w, named, acc.headers, order, ctx, hostPort))
  {
    var values := OwnValues(w, named, acc.headers, order, ctx);
    OwnValuesPlain(w, named, acc.headers, order, ctx, hostPort);
    ClientSound(g, w, named, acc, order);
    OwnSound(g, w, values, hostPort);
    SoundAppend(g, ClientFields(w, named, acc.headers, order), Present(OwnNames(w), values) + Last(w, hostPort));
  }

  lemma SoundAppend(g: Grammar, a: seq<Field>, b: seq<Field>)
    requires AllSound(g, a) && AllSound(g, b)
    ensures AllSound(g, a + b)
  {
  }

  // ----- The request line -----

  ghost predicate ProperLine(g: Grammar, w: Words) {
    && g.parseVersion(w.version) == Some(Http11) && NoCrLf(w.version)
    && forall v :: g.parseMethod(v).Some? ==> ProperVerb(g, w, g.parseMethod(v).value)
  }

  ghost predicate ProperVerb(g: Grammar, w: Words, verb: Method) {
    var text := w.methodText(verb);
    NoCrLf(text) && Lacks(text, ' ') && g.parseMethod(text) == Some(verb)
  }

  lemma FirstAt(a: string, c: char, b: string)
    requires Lacks(a, c)
    ensures FindChar(a + [c] + b, c, 0) == |a| && (a + [c] + b)[..|a|] == a && (a + [c] + b)[|a| + 1..] == b
  {
    assert forall i :: 0 <= i < |a| ==> (a + [c] + b)[i] == a[i];
    assert (a + [c] + b)[|a|] == c;
  }

  lemma {:induction false} FindCharShift(a: string, b: string, c: char, from: nat)
    ensures FindChar(a + b, c, |a| + from) == if FindChar(b, c, from) == -1 then -1 else |a| + FindChar(b, c, from)
    decreases |b| - from
  {
    if from < |b| && b[from] != c {
      FindCharShift(a, b, c, from + 1);
    }
  }

  lemma TargetParts(path: string, query: string)
    requires Lacks(path, '?')
    ensures PathOf(Target(path, query)) == (if path == "" then "/" else path) && QueryOf(Target(path, query)) == query
  {
    var p := if path == "" then "/" else path;
    if query == "" {
      assert Target(path, query) == p;
    } else {
      FirstAt(p, '?', query);
      assert Target(path, query) == p + ['?'] + query;
    }
  }

  lemma LineSplits(verb: string, target: string, version: string)
    requires Lacks(verb, ' ') && Lacks(target, ' ')
    ensures var line, u := verb + [' '] + target + [' '] + version, |verb| + 1 + |target|;
      && FindChar(line, ' ', 0) == |verb| && FindChar(line, ' ', |verb| + 1) == u < |line|
      && line[..|verb|] == verb && line[|verb| + 1..u] == target && line[u + 1..] == version
  {
    var rest := target + [' '] + version;
    assert verb + [' '] + target + [' '] + version == verb + [' '] + rest;
    FirstAt(verb, ' ', rest);
    FirstAt(target, ' ', version);
    FindCharShift(verb + [' '], rest, ' ', 0);
  }

  /** A request line with two spaces is refused for its method first and then for its version. */
  lemma LineAnswers(g: Grammar, verb: string, target: string, version: string)
    requires Lacks(verb, ' ') && Lacks(target, ' ')
    ensures RequestLine(g, verb + [' '] + target + [' '] + version) ==
      if g.parseMethod(verb) == None then Fail(BadMethod)
      else if g.parseVersion(version) == None then Fail(BadVersion)
      else Ok(Start(g.parseMethod(verb).value, g.parseVersion(version).value, PathOf(target), QueryOf(target)))
  {
    LineSplits(verb, target, version);
  }

  lemma LineReads(g: Grammar, verb: string, target: string, version: string)
    requires Lacks(verb, ' ') && Lacks(target, ' ') && g.parseMethod(verb).Some? && g.parseVersion(version).Some?
    ensures RequestLine(g, verb + [' '] + target + [' '] + version)
         == Ok(Start(g.parseMethod(verb).value, g.parseVersion(version).value, PathOf(target), QueryOf(target)))
  {
    LineAnswers(g, verb, target, version);
  }

  lemma UpstreamLineReads(g: Grammar, w: Words, start: Start)
    requires ProperLine(g, w) && ProperVerb(g, w, start.verb) && StartWell(start)
    ensures RequestLine(g, UpstreamLine(w, start))
         == Ok(Start(start.verb, Http11, if start.path == "" then "/" else start.path, start.query))
  {
    TargetParts(start.path, start.query);
    LineReads(g, w.methodText(start.verb), Target(start.path, start.query), w.version);
  }

  lemma UpstreamLineSolid(g: Grammar, w: Words, start: Start)
    requires ProperLine(g, w) && ProperVerb(g, w, start.verb) && StartWell(start)
    ensures NoCrLf(UpstreamLine(w, start))
  {
    var verb, p := w.methodText(start.verb), if start.path == "" then "/" else start.path;
    var target := Target(start.path, start.query);
    NoCrLfAppend(['?'], start.query);
    NoCrLfAppend(p, if start.query == "" then "" else ['?'] + start.query);
    NoCrLfAppend(verb, [' ']);
    NoCrLfAppend(verb + [' '], target);
    NoCrLfAppend(verb + [' '] + target, [' ']);
    NoCrLfAppend(verb + [' '] + target + [' '], w.version);
  }

  // ----- The headers -----

  /** `order` lists the keys of the header table, each once: the order in which the container is walked. */
  ghost predicate Enumerates(order: seq<string>, headers: map<string, string>) {
    AllDifferent(order) && (forall k :: k in order ==> k in headers) && (forall k :: k in headers ==> k in order)
  }

  lemma {:induction false} ClientHas(w: Words, named: set<string>, headers: map<string, string>, order: seq<string>,
        k: string)
    requires (forall k :: k in order ==> k in headers) && k in order && Kept(w, named, k)
    ensures Field(k, headers[k]) in ClientFields(w, named, headers, order)
    decreases |order|
  {
    var n := |order| - 1;
    if k != order[n] {
      assert order == order[..n] + [order[n]];
      ClientHas(w, named, headers, order[..n], k);
    }
  }

  /** Each of the gateway's own headers is there exactly if it has a value, with that value. */
  ghost predicate OwnThere(names: seq<string>, values: seq<string>, out: map<string, string>) {
    |values| == |names| && forall i :: 0 <= i < |names| ==> There(names[i], values[i], out)
  }

  predicate There(name: string, value: string, out: map<string, string>) {
    if value == "" then name !in out else name in out && out[name] == value
  }

  /** What the peer sees: the client's forwardable headers as they were, the gateway's own values, and nothing else. */
  ghost predicate EndToEnd(
      w: Words, named: set<string>, headers: map<string, string>, values: seq<string>, hostPort: string,
      out: map<string, string>) {
    && (forall k :: k in headers && Kept(w, named, k) ==> k in out && out[k] == headers[k])
    && (forall k :: k in out ==>
          (k in headers && Kept(w, named, k)) || k in OwnNames(w) || k == w.host || k == w.connection)
    && OwnThere(OwnNames(w), values, out)
    && w.host in out && out[w.host] == hostPort && w.connection in out && out[w.connection] == w.keepAlive
  }

  lemma KeptSurvives(
      g: Grammar, w: Words, named: set<string>, headers: map<string, string>, order: seq<string>, ctx: Context,
      hostPort: string, k: string)
    requires ProperNames(g, w) && Enumerates(order, headers) && k in headers && Kept(w, named, k)
    ensures var out := Table(Fields(w, named, headers, order, ctx, hostPort)); k in out && out[k] == headers[k]
  {
    var a, fields := ClientFields(w, named, headers, order), Fields(w, named, headers, order, ctx, hostPort);
    ClientHas(w, named, headers, order, k);
    var i: nat :| i < |a| && a[i] == Field(k, headers[k]);
    assert fields[i] == a[i];
    FieldsDistinct(g, w, named, headers, order, ctx, hostPort);
    TableHas(fields, i);
  }

  lemma OnlyKept(
      g: Grammar, w: Words, named: set<string>, headers: map<string, string>, order: seq<string>, ctx: Context,
      hostPort: string, k: string)
    requires ProperNames(g, w) && Enumerates(order, headers)
    requires k in Table(Fields(w, named, headers, order, ctx, hostPort))
    ensures (k in headers && Kept(w, named, k)) || k in OwnNames(w) || k == w.host || k == w.connection
  {
    var values := OwnValues(w, named, headers, order, ctx);
    var a, b := ClientFields(w, named, headers, order), Present(OwnNames(w), values) + Last(w, hostPort);
    var fields: seq<Field> := a + b;
    TableOnly(fields, k);
    var i: nat :| i < |fields| && fields[i].name == k;
    if i < |a| {
      ClientNames(w, named, headers, order, i);
    } else {
      OwnDistinct(g, w, values, hostPort);
      assert Own(w, b[i - |a|]);
    }
  }

  lemma FieldsEndToEnd(
      g: Grammar, w: Words, named: set<string>, headers: map<string, string>, order: seq<string>, ctx: Context,
      hostPort: string)
    requires ProperNames(g, w) && Enumerates(order, headers)
    ensures EndToEnd(w, named, headers, OwnValues(w, named, headers, order, ctx), hostPort,
                     Table(Fields(w, named, headers, order, ctx, hostPort)))
  {
    var fields := Fields(w, named, headers, order, ctx, hostPort);
    forall k | k in headers && Kept(w, named, k) ensures k in Table(fields) && Table(fields)[k] == headers[k] {
      KeptSurvives(g, w, named, headers, order, ctx, hostPort, k);
    }
    forall k | k in Table(fields)
      ensures (k in headers && Kept(w, named, k)) || k in OwnNames(w) || k == w.host || k == w.connection
    {
      OnlyKept(g, w, named, headers, order, ctx, hostPort, k);
    }
    forall i | 0 <= i < |OwnNames(w)|
      ensures There(OwnNames(w)[i], OwnValues(w, named, headers, order, ctx)[i], Table(fields))
    {
      OwnSurvives(g, w, named, headers, order, ctx, hostPort, i);
    }
    LastSurvives(g, w, named, headers, order, ctx, hostPort);
  }

  /** The client's value of a header that passes, and nothing for any other. */
  function Came(w: Words, named: set<string>, headers: map<string, string>, k: string): string {
    if k in headers && Passes(w, named, k) then headers[k] else ""
  }

  /** A value that goes before and one that comes after, with a comma between them if there are both. */
  ghost predicate Follows(value: string, before: string, after: string) {
    && (before == "" ==> value == after)
    && (after == "" ==> value == before)
    && (before != "" && after != "" ==> before + ", " <= value && value[|before| + 2..] == after)
  }

  /**
   The trails keep their order: the peer sees the addresses and gateways that the request came through, and after them
   the client's address and this gateway; a request number that the client gave is left as it is.
   */
  lemma TrailsGrow(
      w: Words, named: set<string>, headers: map<string, string>, order: seq<string>, ctx: Context, hostPort: string,
      out: map<string, string>)
    requires Enumerates(order, headers)
    requires EndToEnd(w, named, headers, OwnValues(w, named, headers, order, ctx), hostPort, out)
    ensures Follows(HeaderOr(out, w.forwardedFor), Came(w, named, headers, w.forwardedFor), ctx.clientIp)
    ensures Follows(HeaderOr(out, w.via), Came(w, named, headers, w.via),
      if ctx.gateway == "" then "" else w.viaVersion + ctx.gateway)
    ensures var id := Came(w, named, headers, w.requestId);
      HeaderOr(out, w.requestId) == if id != "" then id else ctx.requestId
  {
    var names, values := OwnNames(w), OwnValues(w, named, headers, order, ctx);
    assert There(names[0], values[0], out) && There(names[4], values[4], out) && There(names[5], values[5], out);
    JoinedFollows(Came(w, named, headers, w.forwardedFor), "", ctx.clientIp);
    JoinedFollows(Came(w, named, headers, w.via), w.viaVersion, ctx.gateway);
  }

  lemma JoinedFollows(before: string, lead: string, added: string)
    ensures Follows(Joined(before, [',', ' '], lead, added), before, if added == "" then "" else lead + added)
  {
    var value := Joined(before, [',', ' '], lead, added);
    assert "" + added == added;
    if before != "" && added != "" {
      assert value == before + ", " + (lead + added);
    }
  }

  lemma {:induction false} PresentHas(names: seq<string>, values: seq<string>, i: nat)
    requires |names| == |values| && i < |names| && values[i] != ""
    ensures Field(names[i], values[i]) in Present(names, values)
    decreases |names|
  {
    var n := |names| - 1;
    if i < n {
      PresentHas(names[..n], values[..n], i);
    }
  }

  lemma PresentLacks(names: seq<string>, values: seq<string>, i: nat, j: nat)
    requires |names| == |values| && i < |names| && values[i] == "" && AllDifferent(names)
    requires j < |Present(names, values)|
    ensures Present(names, values)[j].name != names[i]
  {
    PresentValue(names, values, j);
  }

  lemma {:induction false} PresentValue(names: seq<string>, values: seq<string>, j: nat)
    requires |names| == |values| && j < |Present(names, values)|
    ensures exists i :: 0 <= i < |names| && Present(names, values)[j] == Field(names[i], values[i]) && values[i] != ""
    decreases |names|
  {
    var n := |names| - 1;
    if j < |Present(names[..n], values[..n])| {
      PresentValue(names[..n], values[..n], j);
    }
  }

  /** Where the gateway's own fields stand: behind the client's, which have other names, and before the last two. */
  lemma OwnSurvives(
      g: Grammar, w: Words, named: set<string>, headers: map<string, string>, order: seq<string>, ctx: Context,
      hostPort: string, i: nat)
    requires ProperNames(g, w) && Enumerates(order, headers) && i < |OwnNames(w)|
    ensures There(OwnNames(w)[i], OwnValues(w, named, headers, order, ctx)[i],
                  Table(Fields(w, named, headers, order, ctx, hostPort)))
  {
    var names, values := OwnNames(w), OwnValues(w, named, headers, order, ctx);
    var a, b, c := ClientFields(w, named, headers, order), Present(names, values), Last(w, hostPort);
    FieldsDistinct(g, w, named, headers, order, ctx, hostPort);
    if values[i] != "" {
      PresentHas(names, values, i);
      MiddleThere(a, b, c, Field(names[i], values[i]));
    } else {
      forall j | 0 <= j < |a| ensures a[j].name != names[i] {
        ClientNames(w, named, headers, order, j);
      }
      forall j | 0 <= j < |b| ensures b[j].name != names[i] {
        PresentLacks(names, values, i, j);
      }
      NowhereThere(a, b, c, names[i]);
    }
  }

  lemma NowhereThere(a: seq<Field>, b: seq<Field>, c: seq<Field>, name: string)
    requires forall j :: 0 <= j < |a| ==> a[j].name != name
    requires forall j :: 0 <= j < |b| ==> b[j].name != name
    requires forall j :: 0 <= j < |c| ==> c[j].name != name
    ensures name !in Table(a + (b + c))
  {
    TableOnly(a + (b + c), name);
  }

  lemma MiddleThere(a: seq<Field>, b: seq<Field>, c: seq<Field>, f: Field)
    requires f in b && Distinct(a + (b + c))
    ensures f.name in Table(a + (b + c)) && Table(a + (b + c))[f.name] == f.value
  {
    var j: nat :| j < |b| && b[j] == f;
    assert (a + (b + c))[|a| + j] == f;
    TableHas(a + (b + c), |a| + j);
  }

  // ----- What the Connection header names stays here -----

  /** Two clients whose headers agree except where their Connection header names them. */
  ghost predicate AgreeOutside(named: set<string>, headers: map<string, string>, headers': map<string, string>) {
    forall k :: k !in named ==> (k in headers <==> k in headers') && (k in headers ==> headers[k] == headers'[k])
  }

  /** What the peer sees is determined. */
  lemma EndToEndUnique(
      w: Words, named: set<string>, headers: map<string, string>, headers': map<string, string>, values: seq<string>,
      hostPort: string, out: map<string, string>, out': map<string, string>)
    requires EndToEnd(w, named, headers, values, hostPort, out) && EndToEnd(w, named, headers', values, hostPort, out')
    requires AgreeOutside(named, headers, headers')
    ensures out == out'
  {
    forall k ensures k in out <==> k in out' {
      SeenAlike(w, named, headers, headers', values, hostPort, out, out', k);
      SeenAlike(w, named, headers', headers, values, hostPort, out', out, k);
    }
    forall k | k in out ensures out[k] == out'[k] {
      SeenAlike(w, named, headers, headers', values, hostPort, out, out', k);
    }
  }

  lemma SeenAlike(
      w: Words, named: set<string>, headers: map<string, string>, headers': map<string, string>, values: seq<string>,
      hostPort: string, out: map<string, string>, out': map<string, string>, k: string)
    requires EndToEnd(w, named, headers, values, hostPort, out) && EndToEnd(w, named, headers', values, hostPort, out')
    requires AgreeOutside(named, headers, headers')
    ensures k in out ==> k in out' && out'[k] == out[k]
  {
    if k in out && k in OwnNames(w) {
      var i :| 0 <= i < |OwnNames(w)| && OwnNames(w)[i] == k;
      assert There(k, values[i], out) && There(k, values[i], out');
    }
  }

  /**
   Of the headers that the Connection header names the peer sees nothing, not even as part of one that the gateway
   extends, with one exception: the client's Host goes into X-Forwarded-Host whether it is named or not.
   */
  lemma NominatedUnseen(
      g: Grammar, w: Words, named: set<string>, headers: map<string, string>, order: seq<string>,
      headers': map<string, string>, order': seq<string>, ctx: Context, hostPort: string)
    requires ProperNames(g, w) && Enumerates(order, headers) && Enumerates(order', headers')
    requires AgreeOutside(named, headers, headers')
    ensures Table(Fields(w, named, headers, order, ctx, hostPort)) ==
            Table(Fields(w, named, headers', order', ctx, hostPort)) <==>
      HeaderOr(headers, w.host) == HeaderOr(headers', w.host)
  {
    FieldsEndToEnd(g, w, named, headers, order, ctx, hostPort);
    FieldsEndToEnd(g, w, named, headers', order', ctx, hostPort);
    var out := Table(Fields(w, named, headers, order, ctx, hostPort));
    var out' := Table(Fields(w, named, headers', order', ctx, hostPort));
    if HeaderOr(headers, w.host) == HeaderOr(headers', w.host) {
      SameOwnValues(w, named, headers, order, headers', order', ctx);
      EndToEndUnique(w, named, headers, headers', OwnValues(w, named, headers, order, ctx), hostPort, out, out');
    } else {
      HostShows(w, OwnValues(w, named, headers, order, ctx), OwnValues(w, named, headers', order', ctx), out, out');
    }
  }

  lemma HostShows(w: Words, values: seq<string>, values': seq<string>, out: map<string, string>,
      out': map<string, string>)
    requires OwnThere(OwnNames(w), values, out) && OwnThere(OwnNames(w), values', out') && values[3] != values'[3]
    ensures out != out'
  {
    var names := OwnNames(w);
    assert There(names[3], values[3], out) && There(names[3], values'[3], out');
  }

  lemma SameOwnValues(
      w: Words, named: set<string>, headers: map<string, string>, order: seq<string>, headers': map<string, string>,
      order': seq<string>, ctx: Context)
    requires Enumerates(order, headers) && Enumerates(order', headers') && AgreeOutside(named, headers, headers')
    requires HeaderOr(headers, w.host) == HeaderOr(headers', w.host)
    ensures OwnValues(w, named, headers, order, ctx) == OwnValues(w, named, headers', order', ctx)
  {
    SamePrevious(w, named, headers, order, headers', order', w.forwardedFor);
    SamePrevious(w, named, headers, order, headers', order', w.via);
    SamePrevious(w, named, headers, order, headers', order', w.requestId);
  }

  lemma SamePrevious(
      w: Words, named: set<string>, headers: map<string, string>, order: seq<string>, headers': map<string, string>,
      order': seq<string>, k: string)
    requires Enumerates(order, headers) && Enumerates(order', headers') && AgreeOutside(named, headers, headers')
    ensures Previous(w, named, headers, order, k) == Previous(w, named, headers', order', k)
  {
  }

  lemma LastSurvives(
      g: Grammar, w: Words, named: set<string>, headers: map<string, string>, order: seq<string>, ctx: Context,
      hostPort: string)
    requires ProperNames(g, w) && Enumerates(order, headers)
    ensures var out := Table(Fields(w, named, headers, order, ctx, hostPort));
      w.host in out && out[w.host] == hostPort && w.connection in out && out[w.connection] == w.keepAlive
  {
    var fields := Fields(w, named, headers, order, ctx, hostPort);
    FieldsDistinct(g, w, named, headers, order, ctx, hostPort);
    var n := |fields|;
    assert fields[n - 2] == Field(w.host, hostPort) && fields[n - 1] == Field(w.connection, w.keepAlive);
    TableHas(fields, n - 2);
    TableHas(fields, n - 1);
  }

  // ----- The round trip -----

  ghost predicate Proper(g: Grammar, w: Words) {
    SplitsWell(g) && SplitsText(g.split) && ProperNames(g, w) && PlainOwn(w) && ProperLine(g, w)
  }

  lemma LengthInTable(
      g: Grammar, w: Words, named: set<string>, headers: map<string, string>, values: seq<string>, hostPort: string,
      out: map<string, string>)
    requires ProperNames(g, w) && EndToEnd(w, named, headers, values, hostPort, out)
    ensures g.contentLength in out <==> g.contentLength in headers && g.contentLength !in named
    ensures g.contentLength in out ==> out[g.contentLength] == headers[g.contentLength]
  {
    var names := OwnNames(w);
    assert forall i :: 0 <= i < |names| ==> PlainName(g, names[i]);
    assert g.contentLength !in names;
    assert w.forwardedFor == names[0] && w.realIp == names[1] && w.forwardedProto == names[2];
    assert w.forwardedHost == names[3] && w.via == names[4] && w.requestId == names[5];
    assert Kept(w, named, g.contentLength) <==> g.contentLength !in named;
  }

  lemma LengthForwarded(
      g: Grammar, w: Words, named: set<string>, acc: Acc, order: seq<string>, ctx: Context, hostPort: string)
    requires ProperNames(g, w) && Enumerates(order, acc.headers) && AccWell(g, acc)
    ensures Announced(g, 0, Fields(w, named, acc.headers, order, ctx, hostPort))
         == if g.contentLength in named then 0 else acc.expected
  {
    var fields := Fields(w, named, acc.headers, order, ctx, hostPort);
    FieldsDistinct(g, w, named, acc.headers, order, ctx, hostPort);
    AnnouncedIs(g, 0, fields);
    FieldsEndToEnd(g, w, named, acc.headers, order, ctx, hostPort);
    LengthInTable(g, w, named, acc.headers, OwnValues(w, named, acc.headers, order, ctx), hostPort, Table(fields));
  }

  lemma FieldsRead(
      g: Grammar, w: Words, named: set<string>, acc: Acc, order: seq<string>, ctx: Context, hostPort: string)
    requires Proper(g, w) && PlainContext(ctx, hostPort) && Enumerates(order, acc.headers) && AccWell(g, acc)
    ensures var fields := Fields(w, named, acc.headers, order, ctx, hostPort);
      var r := Fold(ReaderOf(g), EMPTY, Texts(fields));
      && AllSolid(Texts(fields))
      && (Fit(0, 0, fields) <==> r.Ok?)
      && (r.Ok? ==>
        && r.value.headers == Table(fields)
        && r.value.expected == if g.contentLength in named then 0 else acc.expected)
  {
    var fields := Fields(w, named, acc.headers, order, ctx, hostPort);
    FieldsSound(g, w, named, acc, order, ctx, hostPort);
    FieldsDistinct(g, w, named, acc.headers, order, ctx, hostPort);
    forall i | 0 <= i < |fields| ensures Solid(Texts(fields)[i]) {
      assert Sound(g, fields[i]);
      TextSolid(fields[i]);
    }
    FoldReads(g, EMPTY, fields);
    PlusAllIs(g, EMPTY, fields);
    assert map[] + Table(fields) == Table(fields);
    LengthForwarded(g, w, named, acc, order, ctx, hostPort);
  }

  /** The peer's parser sees the same request: nothing left over, the same body, and the headers it should see. */
  ghost predicate Faithful(
      w: Words, named: set<string>, values: seq<string>, hostPort: string, r: Attempt<Start, Acc>,
      back: Attempt<Start, Acc>, length: nat)
    requires r.Done?
  {
    && back.Done? && back.used == length
    && back.line == Start(r.line.verb, Http11, if r.line.path == "" then "/" else r.line.path, r.line.query)
    && back.body == r.body
    && EndToEnd(w, named, r.headers.headers, values, hostPort, back.headers.headers)
  }

  /**
   Parsing what the gateway writes for a parsed request gives that request back exactly when the written lines are
   inside the parser's caps and, if there is a body, the client's Connection header does not take Content-Length
   away.
   */
  lemma RoundTrip(g: Grammar, w: Words, named: set<string>, s: string, order: seq<string>, ctx: Context,
        hostPort: string)
    requires Proper(g, w) && PlainContext(ctx, hostPort)
    requires Frame(ReaderOf(g), s).Done? && Enumerates(order, Frame(ReaderOf(g), s).headers.headers)
    ensures var r := Frame(ReaderOf(g), s);
      var line, fields := UpstreamLine(w, r.line), Fields(w, named, r.headers.headers, order, ctx, hostPort);
      var out := Render(line, Texts(fields), r.body);
      var values := OwnValues(w, named, r.headers.headers, order, ctx);
      Faithful(w, named, values, hostPort, r, Frame(ReaderOf(g), out), |out|) <==>
        |line| <= MAX_REQUEST_LINE && Fit(0, 0, fields) && (r.body == "" || g.contentLength !in named)
  {
    var r := Frame(ReaderOf(g), s);
    ParsedWell(g, s);
    var v :| g.parseMethod(v) == Some(r.line.verb);
    var line, fields := UpstreamLine(w, r.line), Fields(w, named, r.headers.headers, order, ctx, hostPort);
    UpstreamLineReads(g, w, r.line);
    UpstreamLineSolid(g, w, r.line);
    FieldsRead(g, w, named, r.headers, order, ctx, hostPort);
    FieldsEndToEnd(g, w, named, r.headers.headers, order, ctx, hostPort);
    ReadBack(g, w, named, OwnValues(w, named, r.headers.headers, order, ctx), hostPort, r, line, fields);
  }

  lemma ReadBack(
      g: Grammar, w: Words, named: set<string>, values: seq<string>, hostPort: string, r: Attempt<Start, Acc>,
      line: string, fields: seq<Field>)
    requires r.Done? && |r.body| == r.headers.expected && fields != []
    requires RequestLine(g, line) ==
      Ok(Start(r.line.verb, Http11, if r.line.path == "" then "/" else r.line.path, r.line.query))
    requires NoCrLf(line) && AllSolid(Texts(fields))
    requires EndToEnd(w, named, r.headers.headers, values, hostPort, Table(fields))
    requires var h := Fold(ReaderOf(g), EMPTY, Texts(fields));
      && (Fit(0, 0, fields) <==> h.Ok?)
      && (h.Ok? ==>
        && h.value.headers == Table(fields)
        && h.value.expected == if g.contentLength in named then 0 else r.headers.expected)
    ensures var out := Render(line, Texts(fields), r.body);
      Faithful(w, named, values, hostPort, r, Frame(ReaderOf(g), out), |out|) <==>
        |line| <= MAX_REQUEST_LINE && Fit(0, 0, fields) && (r.body == "" || g.contentLength !in named)
  {
    RenderFrame(ReaderOf(g), line, Texts(fields), r.body);
  }

  lemma BodyUnread(g: Grammar, line: string, texts: seq<string>, body: string)
    requires NoCrLf(line) && RequestLine(g, line).Ok? && texts != [] && AllSolid(texts)
    ensures var out := Render(line, texts, body);
      var h, back := Fold(ReaderOf(g), EMPTY, texts), Frame(ReaderOf(g), out);
      |line| <= MAX_REQUEST_LINE && h.Ok? && h.value.expected == 0 ==>
        back.Done? && back.body == "" && back.used == |out| - |body|
  {
    RenderFrame(ReaderOf(g), line, texts, body);
  }

  /**
   Otherwise, if the lines are inside the caps, the peer reads a request without a body and the whole body is left
   for it to take for the next request.
   */
  lemma BodyCutOff(g: Grammar, w: Words, named: set<string>, s: string, order: seq<string>, ctx: Context,
        hostPort: string)
    requires Proper(g, w) && PlainContext(ctx, hostPort)
    requires Frame(ReaderOf(g), s).Done? && Enumerates(order, Frame(ReaderOf(g), s).headers.headers)
    requires g.contentLength in named
    ensures var r := Frame(ReaderOf(g), s);
      var line, fields := UpstreamLine(w, r.line), Fields(w, named, r.headers.headers, order, ctx, hostPort);
      var out := Render(line, Texts(fields), r.body);
      var back := Frame(ReaderOf(g), out);
      |line| <= MAX_REQUEST_LINE && Fit(0, 0, fields) ==> back.Done? && back.body == "" && back.used == |out| - |r.body|
  {
    var r := Frame(ReaderOf(g), s);
    ParsedWell(g, s);
    var v :| g.parseMethod(v) == Some(r.line.verb);
    UpstreamLineReads(g, w, r.line);
    UpstreamLineSolid(g, w, r.line);
    FieldsRead(g, w, named, r.headers, order, ctx, hostPort);
    BodyUnread(g, UpstreamLine(w, r.line), Texts(Fields(w, named, r.headers.headers, order, ctx, hostPort)), r.body);
  }
}
