/**
 How the parser cuts the pending bytes into a request line, header lines and a body, whatever the lines mean: `line`
 reads a request line, `step` folds one header line into what has been read so far, and `expected` is the length of the
 body that the header lines announce.
 */
module HttpFraming {

  import opened HttpText

  const MAX_REQUEST_LINE: nat := 8 * 1024
  const MAX_HEADER_LINE: nat := 8 * 1024
  const MAX_HEADER_BYTES: nat := 32 * 1024

  datatype Status =
    | Continue | GotAll | BadRequest | BadMethod | BadVersion | UriTooLong | HeaderTooLarge | PayloadTooLarge

  datatype Outcome<T> = Fail(status: Status) | Ok(value: T)

  /** How lines are read. */
  datatype Reader<!L, !A> = Reader(line: string -> Outcome<L>, start: A, step: (A, string) -> Outcome<A>,
    expected: A -> nat)

  /** One attempt on the pending bytes: more are needed, they are bad, or the first `used` of them are one request. */
  datatype Attempt<L, A> = More | Bad(status: Status) | Done(line: L, headers: A, body: string, used: nat)

  /** The header lines from `pos` up to the blank line at `end`. */
  function Headers<L, A>(rd: Reader<L, A>, s: string, pos: nat, end: nat, acc: A): Outcome<A>
    decreases end - pos
  {
    if end <= pos then Ok(acc) else
    var e := FindCrLf(s, pos);
    if e == -1 || e > end then Fail(BadRequest)
    else if e - pos > MAX_HEADER_LINE then Fail(HeaderTooLarge)
    else
      match rd.step(acc, s[pos..e])
      case Fail(status) => Fail(status)
      case Ok(acc') => Headers(rd, s, e + 2, end, acc')
  }

  function Body<L, A>(rd: Reader<L, A>, s: string, line: L, begin: nat, acc: A): (r: Attempt<L, A>)
    requires begin <= |s|
    ensures r.Done? ==> begin <= r.used <= |s|
  {
    if |s| - begin < rd.expected(acc) then More
    else Done(line, acc, s[begin..begin + rd.expected(acc)], begin + rd.expected(acc))
  }

  function Rest<L, A>(rd: Reader<L, A>, s: string, line: L, begin: nat): (r: Attempt<L, A>)
    requires begin <= |s|
    ensures r.Done? ==> begin < r.used <= |s|
  {
    var end := FindBlank(s, begin);
    if end == -1 then
      if |s| - begin > MAX_HEADER_BYTES then Bad(HeaderTooLarge) else More
    else
      match Headers(rd, s, begin, end, rd.start)
      case Fail(status) => Bad(status)
      case Ok(acc) => Body(rd, s, line, end + 4, acc)
  }

  function Frame<L, A>(rd: Reader<L, A>, s: string): (r: Attempt<L, A>)
    ensures r.Done? ==> 0 < r.used <= |s|
  {
    var end := FindCrLf(s, 0);
    if end == -1 then
      if |s| > MAX_REQUEST_LINE then Bad(UriTooLong) else More
    else if end > MAX_REQUEST_LINE then Bad(UriTooLong)
    else
      match rd.line(s[..end])
      case Fail(status) => Bad(status)
      case Ok(line) => Rest(rd, s, line, end + 2)
  }

  // ----- What header lines keep -----

  lemma NoCrLfBefore(s: string, pos: nat)
    requires FindCrLf(s, pos) != -1
    ensures NoCrLf(s[pos..FindCrLf(s, pos)])
  {
    var e := FindCrLf(s, pos);
    forall k: nat | k + 1 < e - pos ensures !CrLfAt(s[pos..e], k) {
      assert !CrLfAt(s, pos + k);
    }
  }

  ghost predicate Keeps<L(!new), A(!new)>(rd: Reader<L, A>, inv: A -> bool) {
    forall acc, line: string :: inv(acc) && NoCrLf(line) && rd.step(acc, line).Ok? ==> inv(rd.step(acc, line).value)
  }

  /** What every header line keeps, all of them together keep. */
  lemma {:induction false} HeadersKeep<L(!new), A(!new)>(
      rd: Reader<L, A>, inv: A -> bool, s: string, pos: nat, end: nat, acc: A)
    requires Keeps(rd, inv) && inv(acc) && Headers(rd, s, pos, end, acc).Ok?
    ensures inv(Headers(rd, s, pos, end, acc).value)
    decreases end - pos
  {
    if pos < end {
      var e := FindCrLf(s, pos);
      NoCrLfBefore(s, pos);
      HeadersKeep(rd, inv, s, e + 2, end, rd.step(acc, s[pos..e]).value);
    }
  }

  // ----- Extending the pending bytes -----

  lemma {:induction false} HeadersExtend<L, A>(rd: Reader<L, A>, s: string, e: string, pos: nat, end: nat, acc: A)
    requires CrLfAt(s, end)
    ensures Headers(rd, s + e, pos, end, acc) == Headers(rd, s, pos, end, acc)
    decreases end - pos
  {
    if pos < end {
      var r := FindCrLf(s, pos);
      FindCrLfExtends(s, e, pos);
      assert (s + e)[pos..r] == s[pos..r];
      if r - pos <= MAX_HEADER_LINE && rd.step(acc, s[pos..r]).Ok? {
        HeadersExtend(rd, s, e, r + 2, end, rd.step(acc, s[pos..r]).value);
      }
    }
  }

  lemma RestExtends<L, A>(rd: Reader<L, A>, s: string, e: string, line: L, begin: nat)
    requires begin <= |s| && Rest(rd, s, line, begin).Done?
    ensures Rest(rd, s + e, line, begin) == Rest(rd, s, line, begin)
  {
    FindBlankExtends(s, e, begin);
    var blank := FindBlank(s, begin);
    HeadersExtend(rd, s, e, begin, blank, rd.start);
    var acc := Headers(rd, s, begin, blank, rd.start).value;
    assert (s + e)[blank + 4..blank + 4 + rd.expected(acc)] == s[blank + 4..blank + 4 + rd.expected(acc)];
  }

  /** A complete request stays the same request, of the same length, whatever arrives after it. */
  lemma DoneExtends<L, A>(rd: Reader<L, A>, s: string, e: string)
    requires Frame(rd, s).Done?
    ensures Frame(rd, s + e) == Frame(rd, s)
  {
    var end := FindCrLf(s, 0);
    FindCrLfExtends(s, e, 0);
    assert (s + e)[..end] == s[..end];
    RestExtends(rd, s, e, rd.line(s[..end]).value, end + 2);
  }

  // ----- Cutting the pending bytes short -----

  /** Strictly inside the two caps that count line ends: no proper prefix of the line or of the headers trips them. */
  ghost predicate Strict(s: string) {
    var end := FindCrLf(s, 0);
    end != -1 ==>
      && end < MAX_REQUEST_LINE
      && (var blank := FindBlank(s, end + 2); blank != -1 ==> blank + 3 - (end + 2) <= MAX_HEADER_BYTES)
  }

  lemma HeadersPrefix<L, A>(rd: Reader<L, A>, s: string, k: nat, pos: nat, end: nat, acc: A)
    requires k <= |s| && CrLfAt(s, end) && end + 2 <= k
    ensures Headers(rd, s[..k], pos, end, acc) == Headers(rd, s, pos, end, acc)
  {
    assert s[..k] + s[k..] == s;
    HeadersExtend(rd, s[..k], s[k..], pos, end, acc);
  }

  lemma RestPrefix<L, A>(rd: Reader<L, A>, s: string, k: nat, line: L, begin: nat)
    requires begin <= k <= |s| && !Rest(rd, s, line, begin).Bad?
    requires var blank := FindBlank(s, begin); blank != -1 ==> blank + 3 - begin <= MAX_HEADER_BYTES
    ensures var r := Rest(rd, s, line, begin);
      Rest(rd, s[..k], line, begin) == if r.Done? && r.used <= k then r else More
  {
    var p, blank := s[..k], FindBlank(s, begin);
    FindBlankPrefix(s, k, begin);
    if blank != -1 && blank + 4 <= k {
      HeadersPrefix(rd, s, k, begin, blank, rd.start);
      var acc := Headers(rd, s, begin, blank, rd.start).value;
      if blank + 4 + rd.expected(acc) <= k {
        assert p[blank + 4..blank + 4 + rd.expected(acc)] == s[blank + 4..blank + 4 + rd.expected(acc)];
      }
    }
  }

  /**
   Strictly inside the caps, a shorter buffer yields the request if it contains it whole and asks for more
   otherwise.
   */
  lemma FramePrefix<L, A>(rd: Reader<L, A>, s: string, k: nat)
    requires k <= |s| && Strict(s) && !Frame(rd, s).Bad?
    ensures var r := Frame(rd, s); Frame(rd, s[..k]) == if r.Done? && r.used <= k then r else More
  {
    var end := FindCrLf(s, 0);
    FindCrLfPrefix(s, k, 0);
    if end != -1 && end + 2 <= k {
      assert s[..k][..end] == s[..end];
      RestPrefix(rd, s, k, rd.line(s[..end]).value, end + 2);
    }
  }

  /**
   A request arrives safely however it is cut, that is, no proper prefix of it is refused, exactly when it is strictly
   inside the caps. At the caps it is accepted in one piece and refused in two.
   */
  lemma SafeIffStrict<L, A>(rd: Reader<L, A>, s: string)
    requires Frame(rd, s).Done?
    ensures (forall k: nat :: k < Frame(rd, s).used ==> Frame(rd, s[..k]) == More) <==> Strict(s)
  {
    if Strict(s) {
      forall k: nat | k < Frame(rd, s).used ensures Frame(rd, s[..k]) == More {
        FramePrefix(rd, s, k);
      }
    } else {
      UnsafeCut(rd, s);
    }
  }

  lemma UnsafeCut<L, A>(rd: Reader<L, A>, s: string)
    requires Frame(rd, s).Done? && !Strict(s)
    ensures exists k: nat :: k < Frame(rd, s).used && Frame(rd, s[..k]).Bad?
  {
    var end := FindCrLf(s, 0);
    var blank := FindBlank(s, end + 2);
    var k: nat := if end == MAX_REQUEST_LINE then end + 1 else blank + 3;
    FindCrLfPrefix(s, k, 0);
    if end < MAX_REQUEST_LINE {
      assert s[..k][..end] == s[..end];
      FindBlankPrefix(s, k, end + 2);
    }
    assert Frame(rd, s[..k]).Bad?;
  }

  // ----- Streams of requests -----

  /** All complete requests at the front of `s`, and what is left. */
  function Drain<L, A>(rd: Reader<L, A>, s: string): (seq<Attempt<L, A>>, string)
    decreases |s|
  {
    var r := Frame(rd, s);
    if r.Done? then
      var (rs, left) := Drain(rd, s[r.used..]);
      ([r] + rs, left)
    else ([], s)
  }

  /**
   Every complete request of the stream, and its unfinished tail, is strictly inside the caps; it may end in a bad
   one.
   */
  ghost predicate AllStrict<L, A>(rd: Reader<L, A>, s: string)
    decreases |s|
  {
    var r := Frame(rd, s);
    r.Bad? || (Strict(s) && (r.Done? ==> AllStrict(rd, s[r.used..])))
  }

  /**
   What the session extracts when the bytes arrive as `chunks`: it drains after each one and stops at a bad request.
   */
  function Feed<L, A>(rd: Reader<L, A>, pending: string, chunks: seq<string>): (seq<Attempt<L, A>>, string)
    decreases |chunks|
  {
    if chunks == [] then ([], pending)
    else
      var (rs, left) := Drain(rd, pending + chunks[0]);
      if Frame(rd, left).Bad? then (rs, left)
      else
        var (more, last) := Feed(rd, left, chunks[1..]);
        (rs + more, last)
  }

  function Join(chunks: seq<string>): string {
    if chunks == [] then [] else chunks[0] + Join(chunks[1..])
  }

  /** A bad request shows up too early at worst: what is cut off it is not taken for a request. */
  lemma BadCut<L, A>(rd: Reader<L, A>, p: string, e: string)
    requires Frame(rd, p + e).Bad?
    ensures !Frame(rd, p).Done?
  {
    if Frame(rd, p).Done? {
      DoneExtends(rd, p, e);
    }
  }

  /** Draining `p` has taken `rs` off the front of `p + e` and either met the bad request or waits for `e`. */
  ghost predicate Splits<L, A>(
    rd: Reader<L, A>, s: string, e: string, rs: seq<Attempt<L, A>>, left: string)
  {
    if Frame(rd, left).Bad? then Drain(rd, s).0 == rs && Frame(rd, Drain(rd, s).1).Bad?
    else
      && Frame(rd, left) == More && AllStrict(rd, left + e)
      && Drain(rd, s) == (rs + Drain(rd, left + e).0, Drain(rd, left + e).1)
  }

  lemma {:induction false} DrainSplits<L, A>(rd: Reader<L, A>, p: string, e: string)
    requires AllStrict(rd, p + e)
    ensures Splits(rd, p + e, e, Drain(rd, p).0, Drain(rd, p).1)
    decreases |p|
  {
    var s := p + e;
    assert s[..|p|] == p;
    if Frame(rd, s).Bad? {
      BadCut(rd, p, e);
      assert [] + Drain(rd, s).0 == Drain(rd, s).0;
    } else {
      FramePrefix(rd, s, |p|);
      var r := Frame(rd, p);
      if r.Done? {
        assert s[r.used..] == p[r.used..] + e;
        DrainSplits(rd, p[r.used..], e);
        SplitsAfter(rd, s, p, e);
      } else {
        assert [] + Drain(rd, s).0 == Drain(rd, s).0;
      }
    }
  }

  lemma SplitsAfter<L, A>(rd: Reader<L, A>, s: string, p: string, e: string)
    requires Frame(rd, p).Done? && Frame(rd, s) == Frame(rd, p)
    requires var (rs, left) := Drain(rd, p[Frame(rd, p).used..]); Splits(rd, s[Frame(rd, p).used..], e, rs, left)
    ensures Splits(rd, s, e, Drain(rd, p).0, Drain(rd, p).1)
  {
    var r := Frame(rd, p);
    var (rs, left) := Drain(rd, p[r.used..]);
    assert [r] + (rs + Drain(rd, left + e).0) == ([r] + rs) + Drain(rd, left + e).0;
  }

  /**
   However a stream inside the caps is cut into chunks, the same requests come out in the same order; it ends in a bad
   request in both cases or in neither, and then the same bytes are left.
   */
  lemma {:induction false} SplitIndependence<L, A>(rd: Reader<L, A>, pending: string, chunks: seq<string>)
    requires Frame(rd, pending) == More && AllStrict(rd, pending + Join(chunks))
    ensures var (rs, left) := Feed(rd, pending, chunks);
      var (rs', left') := Drain(rd, pending + Join(chunks));
      rs == rs' && (Frame(rd, left).Bad? <==> Frame(rd, left').Bad?) && (Frame(rd, left').Bad? || left == left')
    decreases |chunks|
  {
    if chunks == [] {
      assert pending + Join(chunks) == pending;
    } else {
      var tail := Join(chunks[1..]);
      assert pending + Join(chunks) == (pending + chunks[0]) + tail;
      DrainSplits(rd, pending + chunks[0], tail);
      var left := Drain(rd, pending + chunks[0]).1;
      if !Frame(rd, left).Bad? {
        SplitIndependence(rd, left, chunks[1..]);
      }
    }
  }
}
