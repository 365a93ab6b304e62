/** Header fields written as lines and read back. */
module HttpFields {

  import opened HttpText
  import opened HttpMessage
  import opened Options
  import opened HttpFraming
  import opened HttpGrammar
  import opened HttpRendering

  function Text(f: Field): string {
    f.name + [':', ' '] + f.value
  }

  function Texts(fields: seq<Field>): (r: seq<string>)
    ensures |r| == |fields| && forall i :: 0 <= i < |r| ==> r[i] == Text(fields[i])
  {
    if fields == [] then [] else [Text(fields[0])] + Texts(fields[1..])
  }

  function Size(fields: seq<Field>): nat {
    if fields == [] then 0 else |Text(fields[0])| + Size(fields[1..])
  }

  function Table(fields: seq<Field>): map<string, string> {
    if fields == [] then map[] else map[fields[0].name := fields[0].value] + Table(fields[1..])
  }

  /** The body length that the fields announce, `n` if they are silent. */
  function Announced(g: Grammar, n: nat, fields: seq<Field>): nat
    decreases |fields|
  {
    if fields == [] then n
    else Announced(g, if fields[0].name == g.contentLength then SizeOf(g, fields[0].value) else n, fields[1..])
  }

  function SizeOf(g: Grammar, s: string): nat {
    match g.size(s) case Some(n) => n case None => 0
  }

  /** The parser's caps on header lines. */
  predicate Fit(count: nat, bytes: nat, fields: seq<Field>) {
    && count + |fields| <= MAX_HEADER_COUNT && bytes + Size(fields) <= MAX_HEADER_BYTES
    && forall i :: 0 <= i < |fields| ==> |Text(fields[i])| <= MAX_HEADER_LINE
  }

  /** A field that the parser takes as it stands. */
  ghost predicate Sound(g: Grammar, f: Field) {
    && FieldWell(f.name, f.value) && f.name != g.transferEncoding
    && (f.name == g.contentLength ==> g.size(f.value).Some? && g.size(f.value).value <= MAX_BODY_BYTES)
  }

  ghost predicate AllSound(g: Grammar, fields: seq<Field>) {
    forall i :: 0 <= i < |fields| ==> Sound(g, fields[i])
  }

  predicate Distinct(fields: seq<Field>) {
    forall i, j :: 0 <= i < j < |fields| ==> fields[i].name != fields[j].name
  }

  /** The fields name nothing that has been read already. */
  predicate Unread(g: Grammar, acc: Acc, fields: seq<Field>) {
    forall i :: 0 <= i < |fields| ==>
      fields[i].name !in acc.headers && (acc.lengthSeen ==> fields[i].name != g.contentLength)
  }

  lemma ColonAt(name: string, rest: string)
    requires Lacks(name, ':')
    ensures FindChar(name + [':'] + rest, ':', 0) == |name|
  {
    assert forall i :: 0 <= i < |name| ==> (name + [':'] + rest)[i] == name[i];
    assert (name + [':'] + rest)[|name|] == ':';
  }

  lemma SpaceSkipped(value: string)
    requires Trimmed(value)
    ensures SkipSpaces([' '] + value) == value
  {
    assert ([' '] + value)[1..] == value;
    TrimTrimmed(value);
  }

  /** Splitting undoes writing. */
  ghost predicate SplitsText(split: string -> Option<Entry>) {
    forall f: Field :: FieldWell(f.name, f.value) ==> split(Text(f)) == Some(Entry(f.name, f.value, f.value))
  }

  lemma SplitFieldText()
    ensures SplitsText(SplitField)
  {
    forall f: Field | FieldWell(f.name, f.value)
      ensures SplitField(Text(f)) == Some(Entry(f.name, f.value, f.value))
    {
      ColonAt(f.name, [' '] + f.value);
      assert Text(f) == f.name + [':'] + ([' '] + f.value);
      SpaceSkipped(f.value);
      TrimTrimmed(f.value);
      assert Text(f)[|f.name| + 1..] == [' '] + f.value;
      assert Text(f)[..|f.name|] == f.name;
    }
  }

  lemma TextSolid(f: Field)
    requires FieldWell(f.name, f.value)
    ensures Solid(Text(f))
  {
    forall i: nat | i + 1 < |Text(f)| ensures !CrLfAt(Text(f), i) {
      if i < |f.name| {
        assert i + 1 < |f.name| ==> !CrLfAt(f.name, i);
      } else if |f.name| + 2 <= i {
        assert !CrLfAt(f.value, i - |f.name| - 2);
      }
    }
  }

  /** One field is read as one entry of the table. */
  function Plus(g: Grammar, acc: Acc, f: Field): Acc {
    Acc(acc.headers[f.name := f.value], acc.count + 1, acc.bytes + |Text(f)|,
        acc.lengthSeen || f.name == g.contentLength,
        if f.name == g.contentLength then SizeOf(g, f.value) else acc.expected)
  }

  lemma FieldReads(g: Grammar, acc: Acc, f: Field)
    requires Sound(g, f) && f.name !in acc.headers && (acc.lengthSeen ==> f.name != g.contentLength)
    ensures HeaderField(g, acc, Entry(f.name, f.value, f.value))
         == Ok(Plus(g, acc, f).(count := acc.count, bytes := acc.bytes))
  {
  }

  lemma TextReads(g: Grammar, acc: Acc, f: Field)
    requires SplitsText(g.split)
    requires Sound(g, f) && f.name !in acc.headers && (acc.lengthSeen ==> f.name != g.contentLength)
    ensures HeaderLine(g, acc, Text(f)) ==
      if acc.count + 1 > MAX_HEADER_COUNT || acc.bytes + |Text(f)| > MAX_HEADER_BYTES then Fail(HeaderTooLarge)
      else Ok(Plus(g, acc, f))
  {
    FieldReads(g, acc.(count := acc.count + 1, bytes := acc.bytes + |Text(f)|), f);
  }

  function PlusAll(g: Grammar, acc: Acc, fields: seq<Field>): Acc
    decreases |fields|
  {
    if fields == [] then acc else PlusAll(g, Plus(g, acc, fields[0]), fields[1..])
  }

  lemma UnreadStep(g: Grammar, acc: Acc, fields: seq<Field>)
    requires fields != [] && AllSound(g, fields) && Distinct(fields) && Unread(g, acc, fields)
    ensures AllSound(g, fields[1..]) && Distinct(fields[1..]) && Unread(g, Plus(g, acc, fields[0]), fields[1..])
  {
  }

  lemma FitStep(count: nat, bytes: nat, fields: seq<Field>)
    requires fields != []
    ensures Fit(count, bytes, fields) <==>
      && |Text(fields[0])| <= MAX_HEADER_LINE && count + 1 <= MAX_HEADER_COUNT
      && bytes + |Text(fields[0])| <= MAX_HEADER_BYTES
      && Fit(count + 1, bytes + |Text(fields[0])|, fields[1..])
  {
    assert fields == [fields[0]] + fields[1..];
  }

  /** The parser accepts a list of sound fields exactly when it fits the caps, and then reads every one of them. */
  lemma {:induction false} FoldReads(g: Grammar, acc: Acc, fields: seq<Field>)
    requires SplitsText(g.split)
    requires AllSound(g, fields) && Distinct(fields) && Unread(g, acc, fields)
    requires acc.count <= MAX_HEADER_COUNT && acc.bytes <= MAX_HEADER_BYTES
    ensures var r := Fold(ReaderOf(g), acc, Texts(fields));
      if Fit(acc.count, acc.bytes, fields) then r == Ok(PlusAll(g, acc, fields)) else r.Fail?
    decreases |fields|
  {
    if fields != [] {
      var acc' := Plus(g, acc, fields[0]);
      FitStep(acc.count, acc.bytes, fields);
      TextReads(g, acc, fields[0]);
      UnreadStep(g, acc, fields);
      assert Texts(fields)[1..] == Texts(fields[1..]);
      if acc'.count <= MAX_HEADER_COUNT && acc'.bytes <= MAX_HEADER_BYTES {
        FoldReads(g, acc', fields[1..]);
      }
    }
  }

  /** The value in the first of these lines that has the name. */
  function FirstOf(g: Grammar, texts: seq<string>, k: string): Option<string> {
    if texts == [] then None
    else
      var f := g.split(texts[0]);
      if f.Some? && f.value.name == k then Some(f.value.value) else FirstOf(g, texts[1..], k)
  }

  lemma LineAdds(g: Grammar, acc: Acc, line: string)
    requires HeaderLine(g, acc, line).Ok?
    ensures g.split(line).Some?
    ensures var f := g.split(line).value;
      HeaderLine(g, acc, line).value.headers ==
        if f.name in acc.headers then acc.headers else acc.headers[f.name := f.value]
  {
  }

  /** Of several headers with one name the first stands, and no header comes from anywhere but a line. */
  lemma {:induction false} FirstStands(g: Grammar, acc: Acc, texts: seq<string>, k: string)
    requires Fold(ReaderOf(g), acc, texts).Ok?
    ensures var headers := Fold(ReaderOf(g), acc, texts).value.headers;
      var was := if k in acc.headers then Some(acc.headers[k]) else FirstOf(g, texts, k);
      if was.Some? then k in headers && headers[k] == was.value else k !in headers
    decreases |texts|
  {
    if texts != [] {
      LineAdds(g, acc, texts[0]);
      FirstStands(g, HeaderLine(g, acc, texts[0]).value, texts[1..], k);
    }
  }

  // ----- Which header lines are accepted -----

  predicate IsLength(g: Grammar, text: string) {
    g.split(text).Some? && g.split(text).value.name == g.contentLength
  }

  /** The line is a field, does not announce a transfer encoding, and if it announces a length, one within bounds. */
  predicate GoodLine(g: Grammar, text: string) {
    && g.split(text).Some?
    && var f := g.split(text).value;
    && f.name != g.transferEncoding
    && (f.name == g.contentLength ==> g.size(f.raw).Some? && g.size(f.raw).value <= MAX_BODY_BYTES)
  }

  function Bytes(texts: seq<string>): nat {
    if texts == [] then 0 else |texts[0]| + Bytes(texts[1..])
  }

  ghost predicate AllGood(g: Grammar, texts: seq<string>) {
    forall i :: 0 <= i < |texts| ==> |texts[i]| <= MAX_HEADER_LINE && GoodLine(g, texts[i])
  }

  ghost predicate NoLength(g: Grammar, texts: seq<string>) {
    forall i :: 0 <= i < |texts| ==> !IsLength(g, texts[i])
  }

  /** No two lines announce a length, equal or not. */
  ghost predicate OneLength(g: Grammar, texts: seq<string>) {
    forall i, j :: 0 <= i < j < |texts| ==> !(IsLength(g, texts[i]) && IsLength(g, texts[j]))
  }

  lemma LineAccepted(g: Grammar, acc: Acc, text: string)
    ensures var r := HeaderLine(g, acc, text);
      && (r.Ok? <==>
          && acc.count + 1 <= MAX_HEADER_COUNT && acc.bytes + |text| <= MAX_HEADER_BYTES && GoodLine(g, text)
          && !(acc.lengthSeen && IsLength(g, text)))
      && (r.Ok? ==>
          && r.value.count == acc.count + 1 && r.value.bytes == acc.bytes + |text|
          && r.value.lengthSeen == (acc.lengthSeen || IsLength(g, text)))
  {
  }

  lemma LengthsStep(g: Grammar, texts: seq<string>)
    requires texts != []
    ensures AllGood(g, texts) <==> |texts[0]| <= MAX_HEADER_LINE && GoodLine(g, texts[0]) && AllGood(g, texts[1..])
    ensures NoLength(g, texts) <==> !IsLength(g, texts[0]) && NoLength(g, texts[1..])
    ensures OneLength(g, texts) <==>
      OneLength(g, texts[1..]) && (IsLength(g, texts[0]) ==> NoLength(g, texts[1..]))
  {
    assert forall i :: 0 < i < |texts| ==> texts[i] == texts[1..][i - 1];
    if OneLength(g, texts) && IsLength(g, texts[0]) {
      forall i | 0 <= i < |texts[1..]| ensures !IsLength(g, texts[1..][i]) {
        assert texts[1..][i] == texts[i + 1];
      }
    }
  }

  /**
   Header lines are accepted exactly if they are not too many, none of them nor all together are too long, each is a
   field, none announces a transfer encoding, and at most one announces a length, which is within bounds.
   */
  lemma {:induction false} AcceptedIff(g: Grammar, acc: Acc, texts: seq<string>)
    requires acc.count <= MAX_HEADER_COUNT && acc.bytes <= MAX_HEADER_BYTES
    ensures Fold(ReaderOf(g), acc, texts).Ok? <==>
      && acc.count + |texts| <= MAX_HEADER_COUNT && acc.bytes + Bytes(texts) <= MAX_HEADER_BYTES
      && AllGood(g, texts) && OneLength(g, texts) && (acc.lengthSeen ==> NoLength(g, texts))
    decreases |texts|
  {
    if texts != [] {
      LengthsStep(g, texts);
      LineAccepted(g, acc, texts[0]);
      if HeaderLine(g, acc, texts[0]).Ok? {
        AcceptedIff(g, HeaderLine(g, acc, texts[0]).value, texts[1..]);
      }
    }
  }

  lemma {:induction false} PlusAllIs(g: Grammar, acc: Acc, fields: seq<Field>)
    ensures PlusAll(g, acc, fields).headers == acc.headers + Table(fields)
    ensures PlusAll(g, acc, fields).expected == Announced(g, acc.expected, fields)
    decreases |fields|
  {
    if fields == [] {
      assert acc.headers + map[] == acc.headers;
    } else {
      PlusAllIs(g, Plus(g, acc, fields[0]), fields[1..]);
      Added(acc.headers, fields[0].name, fields[0].value, Table(fields[1..]));
    }
  }

  lemma Added(m: map<string, string>, k: string, v: string, m': map<string, string>)
    ensures m[k := v] + m' == m + (map[k := v] + m')
  {
  }

  lemma {:induction false} TableHas(fields: seq<Field>, i: nat)
    requires Distinct(fields) && i < |fields|
    ensures fields[i].name in Table(fields) && Table(fields)[fields[i].name] == fields[i].value
    decreases |fields|
  {
    if i > 0 {
      TableHas(fields[1..], i - 1);
    } else {
      TableOnly(fields[1..], fields[0].name);
    }
  }

  lemma {:induction false} TableOnly(fields: seq<Field>, name: string)
    ensures name in Table(fields) ==> exists i :: 0 <= i < |fields| && fields[i].name == name
    decreases |fields|
  {
    if fields != [] && name in Table(fields) && name != fields[0].name {
      TableOnly(fields[1..], name);
      var i :| 0 <= i < |fields[1..]| && fields[1..][i].name == name;
      assert fields[i + 1].name == name;
    } else if fields != [] && name in Table(fields) {
      assert fields[0].name == name;
    }
  }

  lemma {:induction false} AnnouncedIs(g: Grammar, n: nat, fields: seq<Field>)
    requires Distinct(fields)
    ensures Announced(g, n, fields) ==
      if g.contentLength in Table(fields) then SizeOf(g, Table(fields)[g.contentLength]) else n
    decreases |fields|
  {
    if fields != [] {
      var f := fields[0];
      TableOnly(fields[1..], f.name);
      AnnouncedIs(g, if f.name == g.contentLength then SizeOf(g, f.value) else n, fields[1..]);
    }
  }
}
