/** The incremental parser as an object, and the session loop that empties it after every read. */
module HttpSession {

  import opened Sequences
  import opened HttpText
  import opened HttpMessage
  import opened HttpFraming
  import opened HttpGrammar

  const BLANK := Request(Invalid, Unknown, "", "", map[], "")

  function RequestOf(line: Start, headers: map<string, string>, body: string): Request {
    Request(line.verb, line.version, line.path, line.query, headers, body)
  }

  function StatusOf(a: Attempt<Start, Acc>): Status {
    match a
    case More => Continue
    case Bad(status) => status
    case Done(_, _, _, _) => GotAll
  }

  /** The request of a complete attempt. */
  function Taken(a: Attempt<Start, Acc>): Request {
    if a.Done? then RequestOf(a.line, a.headers.headers, a.body) else BLANK
  }

  function Mapped<A, B>(f: A -> B, s: seq<A>): (r: seq<B>)
    ensures |r| == |s|
  {
    if s == [] then [] else [f(s[0])] + Mapped(f, s[1..])
  }

  function AllTaken(rs: seq<Attempt<Start, Acc>>): seq<Request> {
    Mapped(Taken, rs)
  }

  class HttpParser {
    const g: Grammar

    var pending: string
    var request: Request
    var bodyExpected: nat
    var headerCount: nat
    var headerBytes: nat
    var lengthSeen: bool
    var gotAll: bool

    constructor (g: Grammar)
      ensures this.g == g && pending == "" && IsReset()
    {
      this.g := g;
      pending, request, gotAll := "", BLANK, false;
      bodyExpected, headerCount, headerBytes, lengthSeen := 0, 0, 0, false;
    }

    predicate IsReset()
      reads this
    {
      request == BLANK && Read() == EMPTY && !gotAll
    }

    /** What the header lines read so far amount to. */
    function Read(): Acc
      reads this
    {
      Acc(request.headers, headerCount, headerBytes, lengthSeen, bodyExpected)
    }

    method Reset()
      modifies this
      ensures pending == old(pending) && IsReset()
    {
      request := BLANK;
      bodyExpected, headerCount, headerBytes, lengthSeen, gotAll := 0, 0, 0, false, false;
    }

    method TakeRequest() returns (r: Request)
      modifies this
      ensures r == old(request) && pending == old(pending) && IsReset()
    {
      r := request;
      Reset();
    }

    method ParseRequestLine(line: string) returns (st: Status)
      requires IsReset()
      modifies `request
      ensures match RequestLine(g, line)
        case Fail(status) => st == status
        case Ok(start) => st == Continue && request == RequestOf(start, map[], "")
      ensures RequestLine(g, line).Fail? ==> st != Continue && st != GotAll
    {
      var mEnd := FindChar(line, ' ', 0);
      if mEnd == -1 { return BadRequest; }
      var uEnd := FindChar(line, ' ', mEnd + 1);
      if uEnd == -1 { return BadRequest; }
      var verb, version, uri := g.parseMethod(line[..mEnd]), g.parseVersion(line[uEnd + 1..]), line[mEnd + 1..uEnd];
      if verb.None? { return BadMethod; }
      request := request.(verb := verb.value);
      if version.None? { return BadVersion; }
      request := request.(version := version.value);
      SetTarget(uri);
      return Continue;
    }

    method SetTarget(uri: string)
      modifies `request
      ensures request == old(request).(path := PathOf(uri), query := QueryOf(uri))
    {
      var q := FindChar(uri, '?', 0);
      if q == -1 {
        request := request.(path := uri, query := "");
      } else {
        request := request.(path := uri[..q], query := uri[q + 1..]);
      }
    }

    method ParseHeaderLine(line: string) returns (st: Status)
      modifies `request, `bodyExpected, `headerCount, `headerBytes, `lengthSeen
      ensures match HeaderLine(g, old(Read()), line)
        case Fail(status) => st == status
        case Ok(acc) => st == Continue && Read() == acc && request == old(request).(headers := acc.headers)
      ensures HeaderLine(g, old(Read()), line).Fail? ==> st != Continue && st != GotAll
    {
      headerCount := headerCount + 1;
      if headerCount > MAX_HEADER_COUNT { return HeaderTooLarge; }
      headerBytes := headerBytes + |line|;
      if headerBytes > MAX_HEADER_BYTES { return HeaderTooLarge; }
      var f := g.split(line);
      if f.None? || f.value.name == g.transferEncoding { return BadRequest; }
      if f.value.name == g.contentLength {
        if lengthSeen { return BadRequest; }
        lengthSeen := true;
        var n := g.size(f.value.raw);
        if n.None? { return BadRequest; }
        if n.value > MAX_BODY_BYTES { return PayloadTooLarge; }
        bodyExpected := n.value;
      }
      request := request.(headers := AddHeader(request.headers, f.value.name, f.value.value));
      return Continue;
    }

    /** The header lines between `begin` and the blank line at `end`. */
    method ParseHeaderLines(begin: nat, end: nat) returns (st: Status)
      requires CrLfAt(pending, end)
      modifies `request, `bodyExpected, `headerCount, `headerBytes, `lengthSeen
      ensures match Headers(ReaderOf(g), pending, begin, end, old(Read()))
        case Fail(status) => st == status
        case Ok(acc) => st == Continue && Read() == acc && request == old(request).(headers := acc.headers)
      ensures Headers(ReaderOf(g), pending, begin, end, old(Read())).Fail? ==> st != Continue && st != GotAll
    {
      var pos := begin;
      while pos < end
        invariant Headers(ReaderOf(g), pending, pos, end, Read())
               == Headers(ReaderOf(g), pending, begin, end, old(Read()))
        invariant request == old(request).(headers := request.headers)
      {
        var e := FindCrLf(pending, pos);
        if e == -1 || e > end { return BadRequest; }
        if e - pos > MAX_HEADER_LINE { return HeaderTooLarge; }
        st := ParseHeaderLine(pending[pos..e]);
        if st != Continue { return st; }
        pos := e + 2;
      }
      return Continue;
    }

    /** Everything after the request line, which ends at `begin`. */
    method ParseAfterLine(begin: nat, ghost start: Start) returns (st: Status)
      requires begin <= |pending| && !gotAll && Read() == EMPTY && request == RequestOf(start, map[], "")
      modifies this
      ensures Answers(Rest(ReaderOf(g), old(pending), start, begin), old(pending), st)
    {
      var end := FindBlank(pending, begin);
      if end == -1 {
        return if |pending| - begin > MAX_HEADER_BYTES then HeaderTooLarge else Continue;
      }
      st := ParseHeaderLines(begin, end);
      if st != Continue { return st; }
      st := ParseBody(end + 4, start);
    }

    method ParseBody(bodyBegin: nat, ghost start: Start) returns (st: Status)
      requires bodyBegin <= |pending| && !gotAll && request == RequestOf(start, request.headers, "")
      modifies this
      ensures Answers(Body(ReaderOf(g), old(pending), start, bodyBegin, old(Read())), old(pending), st)
    {
      if |pending| - bodyBegin < bodyExpected { return Continue; }
      if bodyExpected != 0 {
        request := request.(body := pending[bodyBegin..bodyBegin + bodyExpected]);
      }
      pending := pending[bodyBegin + bodyExpected..];
      gotAll := true;
      return GotAll;
    }

    /** The parser is where attempt `a` on the bytes `s` leaves it, and says so. */
    predicate Answers(a: Attempt<Start, Acc>, s: string, st: Status)
      reads this
    {
      && st == StatusOf(a) && (gotAll <==> a.Done?) && (st == Continue <==> a.More?) && (st == GotAll <==> a.Done?)
      && if a.Done? then a.used <= |s| && pending == s[a.used..] && request == Taken(a) else pending == s
    }

    /**
     The parser starts over on the pending bytes every time: its answer is a function of those bytes alone, it takes a
     complete request off their front and otherwise leaves them as they are.
     */
    method ParseAvailable() returns (st: Status)
      modifies this
      ensures old(gotAll) ==> st == GotAll && unchanged(this)
      ensures !old(gotAll) ==> Answers(Frame(ReaderOf(g), old(pending)), old(pending), st)
    {
      if gotAll { return GotAll; }
      Reset();
      var lineEnd := FindCrLf(pending, 0);
      if lineEnd == -1 {
        return if |pending| > MAX_REQUEST_LINE then UriTooLong else Continue;
      }
      if lineEnd > MAX_REQUEST_LINE { return UriTooLong; }
      st := ParseRequestLine(pending[..lineEnd]);
      if st != Continue { return st; }
      st := ParseAfterLine(lineEnd + 2, RequestLine(g, pending[..lineEnd]).value);
    }

    method Feed(bytes: string) returns (st: Status)
      modifies this
      ensures old(gotAll) ==> st == GotAll && gotAll && pending == old(pending) + bytes && request == old(request)
      ensures !old(gotAll) ==> Answers(Frame(ReaderOf(g), old(pending) + bytes), old(pending) + bytes, st)
    {
      pending := pending + bytes;
      st := ParseAvailable();
    }
  }

  // ----- The session -----

  /** How many of `n` requests are handled, the first of them being number `from`, before one ends the connection. */
  function Kept(keeps: nat -> bool, from: nat, n: nat): (k: nat)
    ensures k <= n
    decreases n
  {
    if n == 0 then 0 else if !keeps(from) then 1 else 1 + Kept(keeps, from + 1, n - 1)
  }

  predicate AllKept(keeps: nat -> bool, from: nat, n: nat)
    decreases n
  {
    n == 0 || (keeps(from) && AllKept(keeps, from + 1, n - 1))
  }

  /** The requests of a stream up to the first that ends the connection. */
  function Handled(keeps: nat -> bool, from: nat, requests: seq<Request>): seq<Request> {
    requests[..Kept(keeps, from, |requests|)]
  }

  lemma {:induction false} KeptAdds(keeps: nat -> bool, from: nat, n: nat, more: nat)
    ensures Kept(keeps, from, n + more) ==
      if AllKept(keeps, from, n) then n + Kept(keeps, from + n, more) else Kept(keeps, from, n)
    ensures AllKept(keeps, from, n + more) <==> AllKept(keeps, from, n) && AllKept(keeps, from + n, more)
    decreases n
  {
    if n > 0 {
      KeptAdds(keeps, from + 1, n - 1, more);
    }
  }

  /** After requests that were all kept, those that follow are handled as if on their own. */
  lemma HandledNext(keeps: nat -> bool, from: nat, done: seq<Request>, next: seq<Request>, more: seq<Request>)
    requires AllKept(keeps, from, |done|)
    ensures AllKept(keeps, from, |done + next|) <==> AllKept(keeps, from + |done|, |next|)
    ensures Handled(keeps, from, done + next) == done + Handled(keeps, from + |done|, next)
    ensures AllKept(keeps, from + |done|, |next|) ==> Handled(keeps, from, done + next) == done + next
    ensures !AllKept(keeps, from + |done|, |next|) ==>
      && !AllKept(keeps, from, |done + next + more|)
      && Handled(keeps, from, done + next + more) == Handled(keeps, from, done + next)
  {
    KeptAdds(keeps, from, |done|, |next|);
    KeptAdds(keeps, from, |done| + |next|, |more|);
    KeptAdds(keeps, from + |done|, |next|, 0);
  }

  /** What a stream that holds `all` comes to: requests are handled until one ends the connection or none is left. */
  predicate Received(
      keeps: nat -> bool, from: nat, all: seq<Request>, unfinished: bool, requests: seq<Request>, open: bool) {
    requests == Handled(keeps, from, all) && (open <==> AllKept(keeps, from, |all|) && unfinished)
  }

  /** Of `all` requests `done` have been handled, and none of them has ended the connection. */
  predicate Behind(keeps: nat -> bool, from: nat, all: seq<Request>, done: seq<Request>, more: seq<Request>) {
    all == done + more && AllKept(keeps, from, |done|)
  }

  lemma BehindNone(keeps: nat -> bool, from: nat, all: seq<Request>)
    ensures Behind(keeps, from, all, [], all)
  {
    Regroup(all, [], []);
  }

  lemma BehindNext(
      keeps: nat -> bool, from: nat, all: seq<Request>, done: seq<Request>, next: seq<Request>, more: seq<Request>,
      unfinished: bool)
    requires Behind(keeps, from, all, done, next + more)
    ensures var got := done + Handled(keeps, from + |done|, next);
      if AllKept(keeps, from + |done|, |next|) then got == done + next && Behind(keeps, from, all, got, more)
      else Received(keeps, from, all, unfinished, got, false)
  {
    Regroup(done, next, more);
    HandledNext(keeps, from, done, next, more);
  }

  lemma BehindOne(
      keeps: nat -> bool, from: nat, all: seq<Request>, done: seq<Request>, next: Request, more: seq<Request>,
      unfinished: bool)
    requires Behind(keeps, from, all, done, [next] + more)
    ensures if keeps(from + |done|) then Behind(keeps, from, all, done + [next], more)
      else Received(keeps, from, all, unfinished, done + [next], false)
  {
    BehindNext(keeps, from, all, done, [next], more, unfinished);
    assert Handled(keeps, from + |done|, [next]) == [next];
    assert AllKept(keeps, from + |done|, |[next]|) <==> keeps(from + |done|);
  }

  lemma BehindAll(keeps: nat -> bool, from: nat, all: seq<Request>, done: seq<Request>, unfinished: bool)
    requires Behind(keeps, from, all, done, [])
    ensures Received(keeps, from, all, unfinished, done, unfinished)
  {
    Regroup(done, [], []);
    HandledNext(keeps, from, done, [], []);
  }

  /** A chunk holds `next`, and the stream goes on with `more` or ends in a bad request. */
  lemma BehindChunk(
      keeps: nat -> bool, all: seq<Request>, done: seq<Request>, next: seq<Request>, more: seq<Request>,
      got: seq<Request>, open: bool, unfinished: bool)
    requires Behind(keeps, 0, all, done, next + more) && Received(keeps, |done|, next, true, got, open)
    ensures if open then Behind(keeps, 0, all, done + got, more)
      else Received(keeps, 0, all, unfinished, done + got, false)
  {
    BehindNext(keeps, 0, all, done, next, more, unfinished);
  }

  lemma BehindBad(keeps: nat -> bool, all: seq<Request>, done: seq<Request>, next: seq<Request>, got: seq<Request>)
    requires Behind(keeps, 0, all, done, next + []) && got == Handled(keeps, |done|, next)
    ensures Received(keeps, 0, all, false, done + got, false)
  {
    BehindNext(keeps, 0, all, done, next, [], false);
    if AllKept(keeps, |done|, |next|) {
      BehindAll(keeps, 0, all, done + got, false);
    }
  }

  /** The complete requests of a stream, and whether the bytes after them can still become one. */
  function Requests(rd: Reader<Start, Acc>, s: string): seq<Request> {
    AllTaken(Drain(rd, s).0)
  }

  predicate Unfinished(rd: Reader<Start, Acc>, s: string) {
    Frame(rd, Drain(rd, s).1) == More
  }

  lemma DrainNext(rd: Reader<Start, Acc>, s: string)
    requires Frame(rd, s).Done?
    ensures var a := Frame(rd, s);
      && Requests(rd, s) == [Taken(a)] + Requests(rd, s[a.used..]) && Drain(rd, s).1 == Drain(rd, s[a.used..]).1
  {
    var a := Frame(rd, s);
    var more := Drain(rd, s[a.used..]).0;
    assert ([a] + more)[1..] == more;
  }

  /** The session turns to the bytes behind the request it has handled. */
  method Advance(parser: HttpParser, ghost rest: string) returns (st: Status)
    requires parser.Answers(Frame(ReaderOf(parser.g), rest), rest, GotAll)
    modifies parser
    ensures var left := rest[Frame(ReaderOf(parser.g), rest).used..];
      parser.Answers(Frame(ReaderOf(parser.g), left), left, st)
  {
    parser.Reset();
    st := parser.ParseAvailable();
  }

  /**
   One read of a session that has handled `from` requests. The handler of request number i decides by `keeps(i)` whether
   the connection goes on.
   */
  method Receive(parser: HttpParser, bytes: string, keeps: nat -> bool, from: nat)
    returns (requests: seq<Request>, open: bool)
    requires !parser.gotAll
    modifies parser
    ensures var rd, s := ReaderOf(parser.g), old(parser.pending) + bytes;
      && Received(keeps, from, Requests(rd, s), Unfinished(rd, s), requests, open)
      && (open ==> !parser.gotAll && parser.pending == Drain(rd, s).1)
  {
    ghost var rd, s := ReaderOf(parser.g), parser.pending + bytes;
    var st := parser.Feed(bytes);
    requests := [];
    ghost var rest := s;
    BehindNone(keeps, from, Requests(rd, s));
    while parser.gotAll
      invariant parser.Answers(Frame(rd, rest), rest, st)
      invariant Behind(keeps, from, Requests(rd, s), requests, Requests(rd, rest)) &&
        Drain(rd, s).1 == Drain(rd, rest).1
      decreases |rest|
    {
      ghost var left := rest[Frame(rd, rest).used..];
      DrainNext(rd, rest);
      BehindOne(keeps, from, Requests(rd, s), requests, parser.request, Requests(rd, left), Unfinished(rd, s));
      var kept := keeps(from + |requests|);
      requests := requests + [parser.request];
      if !kept {
        return requests, false;
      }
      st := Advance(parser, rest);
      rest := left;
    }
    BehindAll(keeps, from, Requests(rd, s), requests, Unfinished(rd, s));
    open := st == Continue;
  }

  lemma {:induction false} MappedAppend<A, B>(f: A -> B, a: seq<A>, b: seq<A>)
    ensures Mapped(f, a + b) == Mapped(f, a) + Mapped(f, b)
    decreases |a|
  {
    if a == [] {
      assert a + b == b;
    } else {
      MappedAppend(f, a[1..], b);
      assert (a + b)[1..] == a[1..] + b;
    }
  }

  /** The pending bytes are not a request yet, and with those to come they hold the rest of the stream. */
  ghost predicate Underway(
      keeps: nat -> bool, rd: Reader<Start, Acc>, all: string, requests: seq<Request>, pending: string,
      coming: string) {
    && Frame(rd, pending) == More && AllStrict(rd, pending + coming)
    && Behind(keeps, 0, Requests(rd, all), requests, Requests(rd, pending + coming))
    && Drain(rd, all).1 == Drain(rd, pending + coming).1
  }

  /** The requests of a stream are those of the chunk just read and, unless that shows a bad request, of the rest. */
  lemma RequestsSplit(
      rd: Reader<Start, Acc>, whole: string, coming: string, rs: seq<Attempt<Start, Acc>>, left: string)
    requires Splits(rd, whole, coming, rs, left)
    ensures if Frame(rd, left).Bad? then Requests(rd, whole) == AllTaken(rs) + [] && !Unfinished(rd, whole)
      else Requests(rd, whole) == AllTaken(rs) + Requests(rd, left + coming)
  {
    Regroup(AllTaken(rs), [], []);
    MappedAppend(Taken, rs, Drain(rd, left + coming).0);
  }

  lemma ChunkSplit(
      keeps: nat -> bool, rd: Reader<Start, Acc>, all: string, requests: seq<Request>, whole: string, coming: string,
      rs: seq<Attempt<Start, Acc>>, left: string, got: seq<Request>, open: bool)
    requires Splits(rd, whole, coming, rs, left) && Drain(rd, all).1 == Drain(rd, whole).1
    requires Behind(keeps, 0, Requests(rd, all), requests, Requests(rd, whole))
    requires Received(keeps, |requests|, AllTaken(rs), Frame(rd, left) == More, got, open)
    ensures if open then Underway(keeps, rd, all, requests + got, left, coming)
      else Received(keeps, 0, Requests(rd, all), Unfinished(rd, all), requests + got, false)
  {
    RequestsSplit(rd, whole, coming, rs, left);
    if Frame(rd, left).Bad? {
      BehindBad(keeps, Requests(rd, all), requests, AllTaken(rs), got);
    } else {
      BehindChunk(
        keeps, Requests(rd, all), requests, AllTaken(rs), Requests(rd, left + coming), got, open, Unfinished(rd, all));
    }
  }

  lemma ChunkRead(
      keeps: nat -> bool, rd: Reader<Start, Acc>, all: string, requests: seq<Request>, s: string, whole: string,
      coming: string, got: seq<Request>, open: bool)
    requires whole == s + coming && AllStrict(rd, whole) && Drain(rd, all).1 == Drain(rd, whole).1
    requires Behind(keeps, 0, Requests(rd, all), requests, Requests(rd, whole))
    requires Received(keeps, |requests|, Requests(rd, s), Unfinished(rd, s), got, open)
    ensures if open then Underway(keeps, rd, all, requests + got, Drain(rd, s).1, coming)
      else Received(keeps, 0, Requests(rd, all), Unfinished(rd, all), requests + got, false)
  {
    DrainSplits(rd, s, coming);
    ChunkSplit(keeps, rd, all, requests, whole, coming, Drain(rd, s).0, Drain(rd, s).1, got, open);
  }

  /**
   A session that reads a stream inside the caps chunk by chunk handles exactly the requests of the stream, in
   order, up to the first whose handler ends the connection, wherever the stream is cut. It is open afterwards
   exactly if no handler ended it and the stream does not end in a bad request.
   */
  method Serve(parser: HttpParser, chunks: seq<string>, keeps: nat -> bool) returns (requests: seq<Request>, open: bool)
    requires !parser.gotAll && Frame(ReaderOf(parser.g), parser.pending) == More
    requires AllStrict(ReaderOf(parser.g), parser.pending + Join(chunks))
    modifies parser
    ensures var rd, s := ReaderOf(parser.g), old(parser.pending) + Join(chunks);
      Received(keeps, 0, Requests(rd, s), Unfinished(rd, s), requests, open)
  {
    ghost var rd, all := ReaderOf(parser.g), parser.pending + Join(chunks);
    requests, open := [], true;
    BehindNone(keeps, 0, Requests(rd, all));
    assert chunks[0..] == chunks;
    for i := 0 to |chunks|
      invariant open && !parser.gotAll && Underway(keeps, rd, all, requests, parser.pending, Join(chunks[i..]))
    {
      ghost var pending, coming := parser.pending, Join(chunks[i + 1..]);
      assert Join(chunks[i..]) == chunks[i] + coming by { assert chunks[i..][1..] == chunks[i + 1..]; }
      var more;
      more, open := Receive(parser, chunks[i], keeps, |requests|);
      Regroup(pending, chunks[i], coming);
      ChunkRead(keeps, rd, all, requests, pending + chunks[i], pending + chunks[i] + coming, coming, more, open);
      requests := requests + more;
      if !open { return; }
    }
    assert parser.pending + Join(chunks[|chunks|..]) == parser.pending;
    BehindAll(keeps, 0, Requests(rd, all), requests, true);
  }
}
