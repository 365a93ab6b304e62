/** A request written out line by line, and what the parser makes of it. */
module HttpRendering {

  import opened HttpText
  import opened HttpFraming

  const CRLF := ['\r', '\n']

  function Lines(texts: seq<string>): string {
    if texts == [] then [] else texts[0] + CRLF + Lines(texts[1..])
  }

  function Render(line: string, texts: seq<string>, body: string): string {
    line + CRLF + Lines(texts) + CRLF + body
  }

  /** Reading header lines one after the other. */
  function Fold<L, A>(rd: Reader<L, A>, acc: A, texts: seq<string>): Outcome<A> {
    if texts == [] then Ok(acc)
    else if |texts[0]| > MAX_HEADER_LINE then Fail(HeaderTooLarge)
    else
      match rd.step(acc, texts[0])
      case Fail(status) => Fail(status)
      case Ok(acc') => Fold(rd, acc', texts[1..])
  }

  /** The attempt that the written lines and body lead to. */
  function Reading<L, A>(rd: Reader<L, A>, line: string, texts: seq<string>, body: string): Attempt<L, A> {
    if |line| > MAX_REQUEST_LINE then Bad(UriTooLong) else
    match rd.line(line)
    case Fail(status) => Bad(status)
    case Ok(start) => BodyOf(rd, start, Fold(rd, rd.start, texts), body, |line| + 2 + |Lines(texts)| + 2)
  }

  function BodyOf<L, A>(rd: Reader<L, A>, start: L, headers: Outcome<A>, body: string, begin: nat): Attempt<L, A> {
    match headers
    case Fail(status) => Bad(status)
    case Ok(acc) =>
      var n := rd.expected(acc);
      if |body| < n then More else Done(start, acc, body[..n], begin + n)
  }

  predicate Solid(text: string) {
    text != [] && NoCrLf(text)
  }

  predicate AllSolid(texts: seq<string>) {
    forall i :: 0 <= i < |texts| ==> Solid(texts[i])
  }

  lemma LineEnd(s: string, pos: nat, e: nat)
    requires pos <= e && CrLfAt(s, e) && NoCrLf(s[pos..e])
    ensures FindCrLf(s, pos) == e
  {
    forall i: nat | pos <= i < e ensures !CrLfAt(s, i) {
      if i + 1 < e {
        assert !CrLfAt(s[pos..e], i - pos);
      }
    }
  }

  lemma BlankEnd(s: string, pos: nat, e: nat)
    requires pos <= e && CrLfAt(s, e) && NoCrLf(s[pos..e])
    ensures FindBlank(s, pos) == if CrLfAt(s, e + 2) then e else FindBlank(s, e + 2)
  {
    LineEnd(s, pos, e);
    var r, r' := FindBlank(s, pos), FindBlank(s, e + 2);
    assert forall i: nat :: pos <= i < e ==> !BlankAt(s, i);
    assert BlankAt(s, e) <==> CrLfAt(s, e + 2);
    assert !CrLfAt(s, e + 1);
  }

  lemma NoBlankBefore(s: string, pos: nat, e: nat)
    requires pos < e && CrLfAt(s, e) && NoCrLf(s[pos..e])
    ensures !CrLfAt(s, pos)
  {
    LineEnd(s, pos, e);
  }

  /** `texts` stand as lines in `s` from `pos` on. */
  predicate At(s: string, pos: nat, texts: seq<string>)
    decreases |texts|
  {
    if texts == [] then CrLfAt(s, pos)
    else
      var e := pos + |texts[0]|;
      e <= |s| && s[pos..e] == texts[0] && CrLfAt(s, e) && At(s, e + 2, texts[1..])
  }

  lemma {:induction false} LinesBlank(s: string, pos: nat, texts: seq<string>)
    requires texts != [] && AllSolid(texts) && At(s, pos, texts)
    ensures FindBlank(s, pos) == pos + |Lines(texts)| - 2
    decreases |texts|
  {
    var e := pos + |texts[0]|;
    assert Solid(texts[0]);
    BlankEnd(s, pos, e);
    if |texts| > 1 {
      assert Solid(texts[1]);
      assert texts[1..][0] == texts[1];
      NoBlankBefore(s, e + 2, e + 2 + |texts[1]|);
      LinesBlank(s, e + 2, texts[1..]);
    }
  }

  lemma {:induction false} LinesFold<L, A>(
      rd: Reader<L, A>, s: string, pos: nat, end: nat, texts: seq<string>, acc: A)
    requires AllSolid(texts) && At(s, pos, texts) && end + 2 == pos + |Lines(texts)|
    ensures Headers(rd, s, pos, end, acc) == Fold(rd, acc, texts)
    decreases |texts|
  {
    if texts != [] {
      var e := pos + |texts[0]|;
      assert Solid(texts[0]);
      LineEnd(s, pos, e);
      if |texts[0]| <= MAX_HEADER_LINE && rd.step(acc, texts[0]).Ok? {
        LinesFold(rd, s, e + 2, end, texts[1..], rd.step(acc, texts[0]).value);
      }
    }
  }

  lemma LineAt(p: string, text: string, rest: string)
    ensures var s, e := p + text + CRLF + rest, |p| + |text|; s[|p|..e] == text && CrLfAt(s, e)
  {
  }

  lemma {:induction false} LinesAt(p: string, texts: seq<string>, rest: string)
    ensures At(p + Lines(texts) + CRLF + rest, |p|, texts)
    decreases |texts|
  {
    if texts != [] {
      var tail := Lines(texts[1..]) + CRLF + rest;
      LineAt(p, texts[0], tail);
      LinesAt(p + texts[0] + CRLF, texts[1..], rest);
      assert p + Lines(texts) + CRLF + rest == p + texts[0] + CRLF + tail;
      assert p + texts[0] + CRLF + Lines(texts[1..]) + CRLF + rest == p + texts[0] + CRLF + tail;
    }
  }

  lemma RestIs<L, A>(rd: Reader<L, A>, s: string, start: L, begin: nat, end: nat, body: string)
    requires begin <= |s| && FindBlank(s, begin) == end && s[end + 4..] == body
    ensures Rest(rd, s, start, begin) == BodyOf(rd, start, Headers(rd, s, begin, end, rd.start), body, end + 4)
  {
    var r := Headers(rd, s, begin, end, rd.start);
    if r.Ok? && rd.expected(r.value) <= |body| {
      assert s[end + 4..end + 4 + rd.expected(r.value)] == body[..rd.expected(r.value)];
    }
  }

  lemma RestRendered<L, A>(rd: Reader<L, A>, p: string, start: L, texts: seq<string>, body: string)
    requires texts != [] && AllSolid(texts)
    ensures Rest(rd, p + Lines(texts) + CRLF + body, start, |p|)
         == BodyOf(rd, start, Fold(rd, rd.start, texts), body, |p| + |Lines(texts)| + 2)
  {
    var s, end := p + Lines(texts) + CRLF + body, |p| + |Lines(texts)| - 2;
    LinesAt(p, texts, body);
    LinesBlank(s, |p|, texts);
    LinesFold(rd, s, |p|, end, texts, rd.start);
    RestIs(rd, s, start, |p|, end, body);
  }

  lemma FirstLine(line: string, rest: string)
    requires NoCrLf(line)
    ensures var s := line + CRLF + rest; FindCrLf(s, 0) == |line| && s[..|line|] == line
  {
    var s := line + CRLF + rest;
    assert s[0..|line|] == line == s[..|line|];
    LineEnd(s, 0, |line|);
  }

  /** What the parser makes of a written request is what its lines mean, one by one. */
  lemma RenderFrame<L, A>(rd: Reader<L, A>, line: string, texts: seq<string>, body: string)
    requires NoCrLf(line) && texts != [] && AllSolid(texts)
    ensures Frame(rd, Render(line, texts, body)) == Reading(rd, line, texts, body)
  {
    FirstLine(line, Lines(texts) + CRLF + body);
    assert Render(line, texts, body) == line + CRLF + (Lines(texts) + CRLF + body);
    if rd.line(line).Ok? {
      RestRendered(rd, line + CRLF, rd.line(line).value, texts, body);
    }
  }

  lemma ShiftedBlank(p: string, e: string)
    ensures FindBlank(p + e, |p|) == -1 <==> FindBlank(e, 0) == -1
  {
    var s, r, r' := p + e, FindBlank(p + e, |p|), FindBlank(e, 0);
    if r' != -1 {
      assert BlankAt(s, |p| + r');
    }
    if r != -1 {
      assert BlankAt(e, r - |p|);
    }
  }

  lemma BlankAtOnce<L, A>(rd: Reader<L, A>, s: string, start: L, begin: nat)
    requires begin <= |s| && FindBlank(s, begin) == begin && rd.expected(rd.start) == 0
    ensures Rest(rd, s, start, begin) == Done(start, rd.start, "", begin + 4)
  {
  }

  lemma EmptyHeaderLine<L, A>(rd: Reader<L, A>, s: string, start: L, begin: nat)
    requires begin <= |s| && CrLfAt(s, begin) && FindBlank(s, begin) > begin && rd.step(rd.start, "").Fail?
    ensures Rest(rd, s, start, begin) == Bad(rd.step(rd.start, "").status)
  {
    assert FindCrLf(s, begin) == begin && s[begin..begin] == "";
  }

  /** What becomes of a request line and an empty line once `e` has arrived after them. */
  function Headerless<L, A>(rd: Reader<L, A>, start: L, refusal: Status, e: string, used: nat): Attempt<L, A> {
    if CrLfAt(e, 0) then Done(start, rd.start, "", used)
    else if FindBlank(e, 0) != -1 then Bad(refusal)
    else if 2 + |e| > MAX_HEADER_BYTES then Bad(HeaderTooLarge) else More
  }

  lemma NoHeadersRest<L, A>(rd: Reader<L, A>, s: string, start: L, p: string, e: string)
    requires s == p + CRLF + e && rd.expected(rd.start) == 0 && rd.step(rd.start, "").Fail?
    ensures Rest(rd, s, start, |p|) == Headerless(rd, start, rd.step(rd.start, "").status, e, |p| + 4)
  {
    assert CrLfAt(s, |p|) && s[|p|..|p|] == "";
    assert CrLfAt(s, |p| + 2) <==> CrLfAt(e, 0);
    BlankEnd(s, |p|, |p|);
    ShiftedBlank(p + CRLF, e);
    if CrLfAt(e, 0) {
      BlankAtOnce(rd, s, start, |p|);
    } else if FindBlank(s, |p|) != -1 {
      EmptyHeaderLine(rd, s, start, |p|);
    }
  }

  lemma FrameRest<L, A>(rd: Reader<L, A>, s: string, line: string)
    requires FindCrLf(s, 0) == |line| <= MAX_REQUEST_LINE && s[..|line|] == line && rd.line(line).Ok?
    ensures Frame(rd, s) == Rest(rd, s, rd.line(line).value, |line| + 2)
  {
  }

  /**
   A request line that is followed by an empty line. The search for the blank line starts behind the line end that the
   two share, so one more line end completes the request, and anything else makes the empty line a header line.
   */
  lemma NoHeaders<L, A>(rd: Reader<L, A>, line: string, e: string)
    requires NoCrLf(line) && |line| <= MAX_REQUEST_LINE && rd.line(line).Ok?
    requires rd.expected(rd.start) == 0 && rd.step(rd.start, "").Fail?
    ensures Frame(rd, line + CRLF + CRLF + e) ==
      Headerless(rd, rd.line(line).value, rd.step(rd.start, "").status, e, |line| + 6)
  {
    var s := line + CRLF + CRLF + e;
    FirstLine(line, CRLF + e);
    assert s == line + CRLF + (CRLF + e);
    FrameRest(rd, s, line);
    NoHeadersRest(rd, s, rd.line(line).value, line + CRLF, e);
  }
}
