/** Searching and trimming text, as the HTTP parser and printer do it. */
module HttpText {

  predicate CrLfAt(s: string, i: nat) {
    i + 1 < |s| && s[i] == '\r' && s[i + 1] == '\n'
  }

  /** A line end directly followed by another. */
  predicate BlankAt(s: string, i: nat) {
    CrLfAt(s, i) && CrLfAt(s, i + 2)
  }

  /** The first line end at or after `from`, or -1. */
  function FindCrLf(s: string, from: nat): (r: int)
    ensures r == -1 || (from <= r && CrLfAt(s, r))
    ensures forall i: nat :: from <= i && (r == -1 || i < r) ==> !CrLfAt(s, i)
    decreases |s| - from
  {
    if |s| <= from then -1 else if CrLfAt(s, from) then from else FindCrLf(s, from + 1)
  }

  /** The first blank line at or after `from`, or -1. */
  function FindBlank(s: string, from: nat): (r: int)
    ensures r == -1 || (from <= r && BlankAt(s, r))
    ensures forall i: nat :: from <= i && (r == -1 || i < r) ==> !BlankAt(s, i)
    decreases |s| - from
  {
    if |s| <= from then -1 else if BlankAt(s, from) then from else FindBlank(s, from + 1)
  }

  /** The first `c` at or after `from`, or -1. */
  function FindChar(s: string, c: char, from: nat): (r: int)
    ensures r == -1 || (from <= r < |s| && s[r] == c)
    ensures forall i: nat :: from <= i < |s| && (r == -1 || i < r) ==> s[i] != c
    decreases |s| - from
  {
    if |s| <= from then -1 else if s[from] == c then from else FindChar(s, c, from + 1)
  }

  predicate NoCrLf(s: string) {
    forall i: nat :: i + 1 < |s| ==> !CrLfAt(s, i)
  }

  function Lower(c: char): char {
    if 'A' <= c <= 'Z' then c - 'A' + 'a' else c
  }

  function LowerCopy(s: string): (r: string)
    ensures |r| == |s| && forall i :: 0 <= i < |s| ==> r[i] == Lower(s[i])
  {
    if s == [] then [] else [Lower(s[0])] + LowerCopy(s[1..])
  }

  function SkipSpaces(s: string): (r: string)
    ensures r == [] || r[0] != ' '
    ensures |r| <= |s| && s[|s| - |r|..] == r
    ensures forall i :: 0 <= i < |s| - |r| ==> s[i] == ' '
  {
    if s != [] && s[0] == ' ' then SkipSpaces(s[1..]) else s
  }

  function DropSpaces(s: string): (r: string)
    ensures r == [] || r[|r| - 1] != ' '
    ensures |r| <= |s| && s[..|r|] == r
    ensures forall i :: |r| <= i < |s| ==> s[i] == ' '
  {
    if s != [] && s[|s| - 1] == ' ' then DropSpaces(s[..|s| - 1]) else s
  }

  function Trim(s: string): string {
    DropSpaces(SkipSpaces(s))
  }

  predicate Trimmed(s: string) {
    s == [] || (s[0] != ' ' && s[|s| - 1] != ' ')
  }

  lemma TrimTrimmed(s: string)
    ensures Trimmed(Trim(s))
    ensures Trimmed(s) ==> Trim(s) == s && SkipSpaces(s) == s
  {
  }

  // ----- Searches do not look past what they find -----

  lemma FindCrLfExtends(s: string, e: string, from: nat)
    requires FindCrLf(s, from) != -1
    ensures FindCrLf(s + e, from) == FindCrLf(s, from)
  {
    var r, r' := FindCrLf(s, from), FindCrLf(s + e, from);
    assert CrLfAt(s + e, r);
    assert forall i: nat :: i <= r ==> (CrLfAt(s + e, i) <==> CrLfAt(s, i));
  }

  lemma FindBlankExtends(s: string, e: string, from: nat)
    requires FindBlank(s, from) != -1
    ensures FindBlank(s + e, from) == FindBlank(s, from)
  {
    var r := FindBlank(s, from);
    assert forall i: nat :: i + 3 < |s| ==> (BlankAt(s + e, i) <==> BlankAt(s, i));
    assert BlankAt(s + e, r);
  }

  lemma FindCrLfPrefix(s: string, k: nat, from: nat)
    requires k <= |s|
    ensures FindCrLf(s[..k], from) == if FindCrLf(s, from) + 2 <= k then FindCrLf(s, from) else -1
  {
    var r := FindCrLf(s, from);
    assert forall i: nat :: CrLfAt(s[..k], i) <==> CrLfAt(s, i) && i + 2 <= k;
  }

  lemma FindBlankPrefix(s: string, k: nat, from: nat)
    requires k <= |s|
    ensures FindBlank(s[..k], from) == if FindBlank(s, from) + 4 <= k then FindBlank(s, from) else -1
  {
    var r := FindBlank(s, from);
    assert forall i: nat :: BlankAt(s[..k], i) <==> BlankAt(s, i) && i + 4 <= k;
  }
}
