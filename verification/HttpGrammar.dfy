/**
 What the parser makes of a request line and of header lines. The words that the protocol fixes are the fields of a
 `Grammar`, so that nothing here depends on their spelling.
 */
module HttpGrammar {

  import opened HttpText
  import opened HttpMessage
  import opened Options
  import opened HttpFraming

  const MAX_HEADER_COUNT: nat := 100
  const MAX_BODY_BYTES: nat := 8 * 1024 * 1024

  datatype Grammar = Grammar(
    parseMethod: string -> Option<Method>, parseVersion: string -> Option<Version>,
    split: string -> Option<Entry>, size: string -> Option<nat>, transferEncoding: string, contentLength: string)

  /** A request line. */
  datatype Start = Start(verb: Method, version: Version, path: string, query: string)

  /** The parser's counters and the headers read so far. */
  datatype Acc = Acc(headers: map<string, string>, count: nat, bytes: nat, lengthSeen: bool, expected: nat)

  const EMPTY := Acc(map[], 0, 0, false, 0)

  /** The part of a target before its question mark. */
  function PathOf(uri: string): string {
    var q := FindChar(uri, '?', 0);
    if q == -1 then uri else uri[..q]
  }

  function QueryOf(uri: string): string {
    var q := FindChar(uri, '?', 0);
    if q == -1 then "" else uri[q + 1..]
  }

  function RequestLine(g: Grammar, line: string): Outcome<Start> {
    var mEnd := FindChar(line, ' ', 0);
    if mEnd == -1 then Fail(BadRequest) else
    var uEnd := FindChar(line, ' ', mEnd + 1);
    if uEnd == -1 then Fail(BadRequest) else
    var verb, version, uri := g.parseMethod(line[..mEnd]), g.parseVersion(line[uEnd + 1..]), line[mEnd + 1..uEnd];
    if verb.None? then Fail(BadMethod)
    else if version.None? then Fail(BadVersion)
    else Ok(Start(verb.value, version.value, PathOf(uri), QueryOf(uri)))
  }

  function AddHeader(headers: map<string, string>, name: string, value: string): map<string, string> {
    if name in headers then headers else headers[name := value]
  }

  /** A header line cut at its first colon. */
  function SplitField(line: string): Option<Entry> {
    var colon := FindChar(line, ':', 0);
    if colon == -1 || colon == 0 then None else Some(EntryAt(line, colon))
  }

  function EntryAt(line: string, colon: nat): Entry
    requires colon < |line|
  {
    var raw := SkipSpaces(line[colon + 1..]);
    Entry(LowerCopy(line[..colon]), raw, Trim(raw))
  }

  function HeaderLine(g: Grammar, acc: Acc, line: string): Outcome<Acc> {
    var count, bytes, f := acc.count + 1, acc.bytes + |line|, g.split(line);
    if count > MAX_HEADER_COUNT || bytes > MAX_HEADER_BYTES then Fail(HeaderTooLarge)
    else if f.None? then Fail(BadRequest)
    else HeaderField(g, acc.(count := count, bytes := bytes), f.value)
  }

  function HeaderField(g: Grammar, acc: Acc, f: Entry): Outcome<Acc> {
    var added := acc.(headers := AddHeader(acc.headers, f.name, f.value));
    if f.name == g.transferEncoding then Fail(BadRequest)
    else if f.name == g.contentLength then
      var n := g.size(f.raw);
      if acc.lengthSeen || n.None? then Fail(BadRequest)
      else if n.value > MAX_BODY_BYTES then Fail(PayloadTooLarge)
      else Ok(added.(lengthSeen := true, expected := n.value))
    else Ok(added)
  }

  function ReaderOf(g: Grammar): Reader<Start, Acc> {
    Reader(line => RequestLine(g, line), EMPTY, (acc, line) => HeaderLine(g, acc, line), (acc: Acc) => acc.expected)
  }

  // ----- What a parsed request looks like -----

  predicate Lacks(s: string, c: char) {
    forall i :: 0 <= i < |s| ==> s[i] != c
  }

  ghost predicate StartWell(start: Start) {
    && NoCrLf(start.path) && Lacks(start.path, ' ') && Lacks(start.path, '?')
    && NoCrLf(start.query) && Lacks(start.query, ' ')
  }

  ghost predicate FieldWell(name: string, value: string) {
    && name != "" && NoCrLf(name) && Lacks(name, ':') && LowerCopy(name) == name
    && NoCrLf(value) && Trimmed(value)
  }

  ghost predicate AccWell(g: Grammar, acc: Acc) {
    && (forall k :: k in acc.headers ==> FieldWell(k, acc.headers[k]))
    && g.transferEncoding !in acc.headers
    && (acc.lengthSeen <==> g.contentLength in acc.headers)
    && (acc.lengthSeen ==> g.size(acc.headers[g.contentLength]) == Some(acc.expected))
    && (!acc.lengthSeen ==> acc.expected == 0)
    && acc.expected <= MAX_BODY_BYTES
  }

  /** Splitting a line yields a field in order, and a raw text that reads as a size is trimmed already. */
  ghost predicate SplitsWell(g: Grammar) {
    forall line :: NoCrLf(line) && g.split(line).Some? ==> EntryWell(g, g.split(line).value)
  }

  ghost predicate EntryWell(g: Grammar, f: Entry) {
    FieldWell(f.name, f.value) && (g.size(f.raw).Some? ==> f.raw == f.value)
  }

  lemma NoCrLfPart(s: string, i: nat, j: nat)
    requires NoCrLf(s) && i <= j <= |s|
    ensures NoCrLf(s[i..j]) && NoCrLf(s[..j]) && NoCrLf(s[i..])
  {
    forall k: nat | k + 1 < |s| ensures !CrLfAt(s[i..j], k) && !CrLfAt(s[..j], k) && !CrLfAt(s[i..], k) {
      assert !CrLfAt(s, k);
      assert !CrLfAt(s, i + k);
    }
  }

  lemma LacksPart(s: string, c: char, i: nat, j: nat)
    requires i <= j <= |s| && forall k :: i <= k < j ==> s[k] != c
    ensures Lacks(s[i..j], c)
  {
    forall k | 0 <= k < j - i ensures s[i..j][k] != c {
      assert s[i..j][k] == s[i + k];
    }
  }

  lemma TargetWell(uri: string)
    requires NoCrLf(uri) && Lacks(uri, ' ')
    ensures NoCrLf(PathOf(uri)) && Lacks(PathOf(uri), ' ') && Lacks(PathOf(uri), '?')
    ensures NoCrLf(QueryOf(uri)) && Lacks(QueryOf(uri), ' ')
  {
    var q := FindChar(uri, '?', 0);
    if q != -1 {
      NoCrLfPart(uri, 0, q);
      NoCrLfPart(uri, q + 1, |uri|);
    }
  }

  /** The target stands between the first two spaces. */
  lemma TargetIs(g: Grammar, line: string) returns (i: nat, j: nat)
    requires RequestLine(g, line).Ok?
    ensures i <= j <= |line| && forall k :: i <= k < j ==> line[k] != ' '
    ensures var start, uri := RequestLine(g, line).value, line[i..j];
      start.path == PathOf(uri) && start.query == QueryOf(uri)
  {
    i := FindChar(line, ' ', 0) + 1;
    j := FindChar(line, ' ', i);
  }

  /** A request line without two spaces is a bad request, and no other one is. */
  lemma BadLineIff(g: Grammar, line: string)
    ensures RequestLine(g, line) == Fail(BadRequest) <==>
      forall i, j :: 0 <= i < j < |line| ==> !(line[i] == ' ' && line[j] == ' ')
  {
    var first := FindChar(line, ' ', 0);
    if first != -1 && FindChar(line, ' ', first + 1) != -1 {
      assert line[first] == ' ' && line[FindChar(line, ' ', first + 1)] == ' ';
    }
  }

  lemma RequestLineWell(g: Grammar, line: string)
    requires NoCrLf(line) && RequestLine(g, line).Ok?
    ensures StartWell(RequestLine(g, line).value)
  {
    var i, j := TargetIs(g, line);
    NoCrLfPart(line, i, j);
    LacksPart(line, ' ', i, j);
    TargetWell(line[i..j]);
  }

  lemma LowerTwice(s: string)
    ensures LowerCopy(LowerCopy(s)) == LowerCopy(s)
  {
  }

  lemma LoweredNoCrLf(s: string)
    requires NoCrLf(s)
    ensures NoCrLf(LowerCopy(s))
  {
    forall k: nat | k + 1 < |s| ensures !CrLfAt(LowerCopy(s), k) {
      assert !CrLfAt(s, k);
    }
  }

  lemma NameWell(line: string, colon: nat)
    requires NoCrLf(line) && 0 < colon < |line| && colon == FindChar(line, ':', 0)
    ensures var name := LowerCopy(line[..colon]); NoCrLf(name) && Lacks(name, ':') && LowerCopy(name) == name
  {
    NoCrLfPart(line, 0, colon);
    LoweredNoCrLf(line[..colon]);
    LowerTwice(line[..colon]);
  }

  lemma TrimNoCrLf(s: string)
    requires NoCrLf(s)
    ensures NoCrLf(SkipSpaces(s)) && NoCrLf(Trim(s)) && Trimmed(Trim(s))
  {
    var t := SkipSpaces(s);
    NoCrLfPart(s, |s| - |t|, |s|);
    NoCrLfPart(t, 0, |DropSpaces(t)|);
    TrimTrimmed(s);
  }

  lemma SplitFieldWell(g: Grammar)
    requires g.split == SplitField && g.size == FromChars
    ensures SplitsWell(g)
  {
    forall line: string | NoCrLf(line) && SplitField(line).Some? ensures EntryWell(g, SplitField(line).value) {
      SplitLineWell(line);
      var raw := SplitField(line).value.raw;
      if FromChars(raw).Some? {
        FromCharsTrimmed(raw);
        TrimTrimmed(raw);
      }
    }
  }

  lemma ValueWell(line: string, colon: nat)
    requires NoCrLf(line) && colon < |line|
    ensures var value := Trim(SkipSpaces(line[colon + 1..])); NoCrLf(value) && Trimmed(value)
  {
    NoCrLfPart(line, colon + 1, |line|);
    TrimNoCrLf(line[colon + 1..]);
    TrimNoCrLf(SkipSpaces(line[colon + 1..]));
  }

  lemma EntryAtWell(line: string, colon: nat)
    requires NoCrLf(line) && 0 < colon < |line| && colon == FindChar(line, ':', 0)
    ensures var f := EntryAt(line, colon); FieldWell(f.name, f.value) && f.value == Trim(f.raw)
  {
    NameWell(line, colon);
    ValueWell(line, colon);
  }

  lemma SplitLineWell(line: string)
    requires NoCrLf(line) && SplitField(line).Some?
    ensures var f := SplitField(line).value; FieldWell(f.name, f.value) && f.value == Trim(f.raw)
  {
    EntryAtWell(line, FindChar(line, ':', 0));
  }

  lemma HeaderFieldWell(g: Grammar, acc: Acc, f: Entry)
    requires AccWell(g, acc) && EntryWell(g, f) && HeaderField(g, acc, f).Ok?
    ensures AccWell(g, HeaderField(g, acc, f).value)
  {
  }

  lemma CountedWell(g: Grammar, acc: Acc, count: nat, bytes: nat)
    requires AccWell(g, acc)
    ensures AccWell(g, acc.(count := count, bytes := bytes))
  {
  }

  lemma HeaderLineWell(g: Grammar, acc: Acc, line: string)
    requires SplitsWell(g) && AccWell(g, acc) && NoCrLf(line) && HeaderLine(g, acc, line).Ok?
    ensures AccWell(g, HeaderLine(g, acc, line).value)
  {
    CountedWell(g, acc, acc.count + 1, acc.bytes + |line|);
    HeaderFieldWell(g, acc.(count := acc.count + 1, bytes := acc.bytes + |line|), g.split(line).value);
  }

  /** Everything the parser accepts is in order. */
  lemma ParsedWell(g: Grammar, s: string)
    requires SplitsWell(g) && Frame(ReaderOf(g), s).Done?
    ensures var r := Frame(ReaderOf(g), s);
      StartWell(r.line) && AccWell(g, r.headers) && |r.body| == r.headers.expected
      && exists v: string :: g.parseMethod(v) == Some(r.line.verb)
  {
    var end := FindCrLf(s, 0);
    NoCrLfBefore(s, 0);
    RequestLineWell(g, s[..end]);
    forall acc, line | AccWell(g, acc) && NoCrLf(line) && HeaderLine(g, acc, line).Ok?
      ensures AccWell(g, HeaderLine(g, acc, line).value)
    {
      HeaderLineWell(g, acc, line);
    }
    HeadersKeep(ReaderOf(g), acc => AccWell(g, acc), s, end + 2, FindBlank(s, end + 2), EMPTY);
  }
}
