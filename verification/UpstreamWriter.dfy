/** Writing the upstream request: the loops of the writer against the lines and fields they stand for. */
module UpstreamWriter {

  import opened Sequences
  import opened HttpMessage
  import opened HttpGrammar
  import opened HttpRendering
  import opened HttpFields
  import opened UpstreamRequest

  /** The headers that the client's Connection header declares to end at the gateway. */
  ghost function Nominated(w: Words, headers: map<string, string>): set<string> {
    set k | k in headers && Named(k, HeaderOr(headers, w.connection))
  }

  function Written(fields: seq<Field>): string {
    Lines(Texts(fields))
  }

  lemma {:induction false} WrittenAppend(a: seq<Field>, b: seq<Field>)
    ensures Written(a + b) == Written(a) + Written(b)
    decreases |a|
  {
    if a == [] {
      assert a + b == b;
    } else {
      WrittenAppend(a[1..], b);
      assert (a + b)[1..] == a[1..] + b;
      WrittenFirst(a);
      WrittenFirst(a + b);
    }
  }

  lemma WrittenFirst(a: seq<Field>)
    requires a != []
    ensures Written(a) == Text(a[0]) + CRLF + Written(a[1..])
  {
    assert Texts(a)[1..] == Texts(a[1..]);
  }

  lemma WrittenOne(f: Field)
    ensures Written([f]) == Text(f) + CRLF
  {
    WrittenFirst([f]);
  }

  method AppendHeader(out: string, name: string, value: string) returns (r: string)
    ensures r == out + Written([Field(name, value)])
  {
    r := out + name + [':', ' '] + value + CRLF;
    WrittenOne(Field(name, value));
    assert r == out + (Text(Field(name, value)) + CRLF);
  }

  /** The first `i` of the gateway's own headers have been written behind `out`. */
  ghost predicate Grown(out: string, r: string, names: seq<string>, values: seq<string>, i: nat) {
    |names| == |values| && i <= |names| && r == out + Written(Present(names[..i], values[..i]))
  }

  lemma PresentStep(names: seq<string>, values: seq<string>, i: nat)
    requires |names| == |values| && i < |names|
    ensures Written(Present(names[..i + 1], values[..i + 1]))
         == Written(Present(names[..i], values[..i])) + if values[i] == "" then ""
           else Written([Field(names[i], values[i])])
  {
    assert names[..i + 1][..i] == names[..i] && values[..i + 1][..i] == values[..i];
    WrittenAppend(Present(names[..i], values[..i]), if values[i] == "" then [] else [Field(names[i], values[i])]);
  }

  lemma GrownStep(out: string, r: string, names: seq<string>, values: seq<string>, i: nat)
    requires Grown(out, r, names, values, i) && i < |names|
    ensures Grown(out, r + if values[i] == "" then "" else Written([Field(names[i], values[i])]), names, values, i + 1)
  {
    PresentStep(names, values, i);
    Regroup(out, Written(Present(names[..i], values[..i])),
      if values[i] == "" then "" else Written([Field(names[i], values[i])]));
  }

  /** A header that is left out when it has no value. */
  method AppendPresent(r: string, name: string, value: string,
                       ghost out: string, ghost names: seq<string>, ghost values: seq<string>, ghost i: nat)
    returns (r': string)
    requires Grown(out, r, names, values, i) && i < |names| && name == names[i] && value == values[i]
    ensures Grown(out, r', names, values, i + 1)
  {
    GrownStep(out, r, names, values, i);
    Regroup(r, "", "");
    if value == "" {
      r' := r;
    } else {
      r' := AppendHeader(r, name, value);
    }
  }

  /** A header that the gateway adds its own part to. */
  method AppendJoined(r: string, name: string, previous: string, lead: string, added: string,
                      ghost out: string, ghost names: seq<string>, ghost values: seq<string>, ghost i: nat)
    returns (r': string)
    requires Grown(out, r, names, values, i) && i < |names| && name == names[i]
    requires values[i] == Joined(previous, [',', ' '], lead, added)
    ensures Grown(out, r', names, values, i + 1)
  {
    if previous != "" && added != "" {
      r' := AppendPresent(r, name, previous + [',', ' '] + lead + added, out, names, values, i);
    } else if previous != "" {
      r' := AppendPresent(r, name, previous, out, names, values, i);
    } else if added != "" {
      r' := AppendPresent(r, name, lead + added, out, names, values, i);
    } else {
      r' := AppendPresent(r, name, "", out, names, values, i);
    }
  }

  ghost predicate OwnAre(
      values: seq<string>, w: Words, xff: string, host: string, via: string, id: string, ctx: Context)
  {
    && |values| == 6
    && values[0] == Joined(xff, [',', ' '], "", ctx.clientIp) && values[1] == ctx.clientIp && values[2] == ctx.scheme
    && values[3] == host && values[4] == Joined(via, [',', ' '], w.viaVersion, ctx.gateway)
    && values[5] == if id != "" then id else ctx.requestId
  }

  /** The six headers about the connection the request came over. */
  method AppendOwn(w: Words, out: string, xff: string, host: string, via: string, id: string, ctx: Context,
                   ghost values: seq<string>)
    returns (r: string)
    requires OwnAre(values, w, xff, host, via, id, ctx)
    ensures r == out + Written(Present(OwnNames(w), values))
  {
    ghost var names := OwnNames(w);
    r := out;
    NothingWritten(out, names, values);
    r := AppendJoined(r, w.forwardedFor, xff, "", ctx.clientIp, out, names, values, 0);
    r := AppendPresent(r, w.realIp, ctx.clientIp, out, names, values, 1);
    r := AppendPresent(r, w.forwardedProto, ctx.scheme, out, names, values, 2);
    r := AppendPresent(r, w.forwardedHost, host, out, names, values, 3);
    r := AppendJoined(r, w.via, via, w.viaVersion, ctx.gateway, out, names, values, 4);
    r := AppendPresent(r, w.requestId, if id != "" then id else ctx.requestId, out, names, values, 5);
    AllWritten(out, r, names, values);
  }

  lemma NothingWritten(out: string, names: seq<string>, values: seq<string>)
    requires |names| == |values|
    ensures Grown(out, out, names, values, 0)
  {
    assert Written([]) == "";
  }

  lemma AllWritten(out: string, r: string, names: seq<string>, values: seq<string>)
    requires Grown(out, r, names, values, |names|)
    ensures r == out + Written(Present(names, values))
  {
    assert names[..|names|] == names && values[..|names|] == values;
  }

  // ----- The whole request -----

  lemma ClientStep(w: Words, named: set<string>, headers: map<string, string>, order: seq<string>, i: nat)
    requires (forall k :: k in order ==> k in headers) && i < |order|
    ensures Written(ClientFields(w, named, headers, order[..i + 1]))
         == Written(ClientFields(w, named, headers, order[..i]))
          + if Kept(w, named, order[i]) then Written([Field(order[i], headers[order[i]])]) else ""
  {
    assert order[..i + 1][..i] == order[..i];
    WrittenAppend(ClientFields(w, named, headers, order[..i]),
      if Kept(w, named, order[i]) then [Field(order[i], headers[order[i]])] else []);
  }

  lemma PreviousStep(
      w: Words, named: set<string>, headers: map<string, string>, order: seq<string>, i: nat, k: string)
    requires (forall k :: k in order ==> k in headers) && i < |order|
    ensures Previous(w, named, headers, order[..i + 1], k)
         == if order[i] == k && Passes(w, named, k) then headers[k] else Previous(w, named, headers, order[..i], k)
  {
    assert order[..i + 1] == order[..i] + [order[i]];
  }

  /** What has been written and set aside after the first headers of the walk. */
  ghost predicate Walked(w: Words, named: set<string>, headers: map<string, string>, order: seq<string>,
                         out: string, r: string, xff: string, via: string, id: string)
  {
    && (forall k :: k in order ==> k in headers)
    && r == out + Written(ClientFields(w, named, headers, order))
    && xff == Previous(w, named, headers, order, w.forwardedFor)
    && via == Previous(w, named, headers, order, w.via)
    && id == Previous(w, named, headers, order, w.requestId)
  }

  lemma WalkStep(w: Words, named: set<string>, headers: map<string, string>, order: seq<string>, i: nat,
                 out: string, r: string, xff: string, via: string, id: string)
    requires (forall k :: k in order ==> k in headers) && i < |order|
    requires Walked(w, named, headers, order[..i], out, r, xff, via, id)
    ensures var k := order[i];
      Walked(w, named, headers, order[..i + 1], out,
        r + (if Kept(w, named, k) then Written([Field(k, headers[k])]) else ""),
        if k == w.forwardedFor && Passes(w, named, k) then headers[k] else xff,
        if k == w.via && Passes(w, named, k) then headers[k] else via,
        if k == w.requestId && Passes(w, named, k) then headers[k] else id)
  {
    ClientStep(w, named, headers, order, i);
    Regroup(out, Written(ClientFields(w, named, headers, order[..i])),
      if Kept(w, named, order[i]) then Written([Field(order[i], headers[order[i]])]) else "");
    PreviousStep(w, named, headers, order, i, w.forwardedFor);
    PreviousStep(w, named, headers, order, i, w.via);
    PreviousStep(w, named, headers, order, i, w.requestId);
  }

  /** The client's forwardable headers, and the values that the gateway will extend. */
  method AppendClient(w: Words, out: string, headers: map<string, string>, order: seq<string>)
    returns (r: string, xff: string, via: string, id: string)
    requires AllDifferent(OwnNames(w)) && forall k :: k in order ==> k in headers
    ensures Walked(w, Nominated(w, headers), headers, order, out, r, xff, via, id)
  {
    ghost var named := Nominated(w, headers);
    var connection := HeaderOr(headers, w.connection);
    r, xff, via, id := out, "", "", "";
    assert Written([]) == "";
    for i := 0 to |order|
      invariant Walked(w, named, headers, order[..i], out, r, xff, via, id)
    {
      WalkStep(w, named, headers, order, i, out, r, xff, via, id);
      r, xff, via, id := AppendOne(w, r, headers, connection, order[i], xff, via, id);
    }
    assert order[..|order|] == order;
  }

  method AppendOne(w: Words, out: string, headers: map<string, string>, connection: string, k: string,
                   xff: string, via: string, id: string)
    returns (r: string, xff': string, via': string, id': string)
    requires AllDifferent(OwnNames(w)) && k in headers && connection == HeaderOr(headers, w.connection)
    ensures var named := Nominated(w, headers);
      && r == out + (if Kept(w, named, k) then Written([Field(k, headers[k])]) else "")
      && xff' == (if k == w.forwardedFor && Passes(w, named, k) then headers[k] else xff)
      && via' == (if k == w.via && Passes(w, named, k) then headers[k] else via)
      && id' == if k == w.requestId && Passes(w, named, k) then headers[k] else id
  {
    r, xff', via', id' := out, xff, via, id;
    var nominated := NamedByConnection(k, connection);
    if k == w.host || k in w.hopByHop || nominated { return; }
    assert OwnNames(w)[0] != OwnNames(w)[4] && OwnNames(w)[0] != OwnNames(w)[5] && OwnNames(w)[4] != OwnNames(w)[5];
    if k == w.forwardedFor {
      xff' := headers[k];
    } else if k == w.via {
      via' := headers[k];
    } else if k == w.requestId {
      id' := headers[k];
    } else if k != w.realIp && k != w.forwardedProto && k != w.forwardedHost && k != w.forwardedPort {
      r := AppendHeader(r, k, headers[k]);
    }
  }

  method BuildRequest(w: Words, start: Start, headers: map<string, string>, body: string, order: seq<string>,
                      ctx: Context, hostPort: string)
    returns (out: string)
    requires AllDifferent(OwnNames(w)) && forall k :: k in order ==> k in headers
    ensures out == Render(
      UpstreamLine(w, start), Texts(Fields(w, Nominated(w, headers), headers, order, ctx, hostPort)), body)
  {
    out := w.methodText(start.verb) + [' '] + (if start.path == "" then "/" else start.path);
    if start.query != "" {
      out := out + ['?'] + start.query;
    }
    out := out + [' '] + w.version + CRLF;
    LineWritten(w, start, out);
    ghost var base, named := out, Nominated(w, headers);
    ghost var values := OwnValues(w, named, headers, order, ctx);
    var xff, via, id;
    out, xff, via, id := AppendClient(w, out, headers, order);
    out := AppendOwn(w, out, xff, HeaderOr(headers, w.host), via, id, ctx, values);
    out := AppendHeader(out, w.host, hostPort);
    out := AppendHeader(out, w.connection, w.keepAlive);
    AllFields(w, base, out, ClientFields(w, named, headers, order), Present(OwnNames(w), values), hostPort);
    out := out + CRLF;
    out := out + body;
  }

  lemma LineWritten(w: Words, start: Start, out: string)
    requires out == w.methodText(start.verb) + [' '] + (if start.path == "" then "/" else start.path)
                    + (if start.query == "" then "" else ['?'] + start.query) + [' '] + w.version + CRLF
    ensures out == UpstreamLine(w, start) + CRLF
  {
    var verb, p, q := w.methodText(start.verb) + [' '],
      if start.path == "" then "/" else start.path, if start.query == "" then "" else ['?'] + start.query;
    assert verb + p + q == verb + (p + q);
  }

  lemma AllFields(w: Words, base: string, out: string, client: seq<Field>, own: seq<Field>, hostPort: string)
    requires out == base + Written(client) + Written(own) + Written([Field(w.host, hostPort)])
                    + Written([Field(w.connection, w.keepAlive)])
    ensures out == base + Written(client + (own + Last(w, hostPort)))
  {
    var h, c := [Field(w.host, hostPort)], [Field(w.connection, w.keepAlive)];
    assert h + c == Last(w, hostPort);
    WrittenAppend(h, c);
    WrittenAppend(own, h + c);
    WrittenAppend(client, own + (h + c));
    var a, b, d := base + Written(client), Written(own), Written(h) + Written(c);
    Regroup(a + b, Written(h), Written(c));
    Regroup(a, b, d);
    Regroup(base, Written(client), b + d);
  }
}
