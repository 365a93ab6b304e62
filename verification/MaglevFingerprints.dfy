/**
 The fingerprint by which the Maglev balancer recognises the peers that are available, and how far the table that it
 keeps is theirs.
 */
module MaglevFingerprints {

  import opened Sequences
  import opened Maglev
  import opened MaglevPeers

  // ----- Fingerprints -----

  function Digits(n: nat): (s: string)
    ensures s != "" && forall i :: 0 <= i < |s| ==> '0' <= s[i] <= '9'
  {
    (if n < 10 then "" else Digits(n / 10)) + [(48 + n % 10) as char]
  }

  function Decimal(n: int): string {
    if n < 0 then ['-'] + Digits(-n) else Digits(n)
  }

  function Value(s: string): int {
    if s == "" then 0 else Value(s[..|s| - 1]) * 10 + s[|s| - 1] as int - 48
  }

  lemma {:induction false} DigitsValue(n: nat)
    ensures Value(Digits(n)) == n
  {
    var s := Digits(n);
    if n >= 10 {
      DigitsValue(n / 10);
      assert s[..|s| - 1] == Digits(n / 10);
    } else {
      assert s[..|s| - 1] == "";
    }
  }

  lemma DigitsInjective(a: nat, b: nat)
    requires Digits(a) == Digits(b)
    ensures a == b
  {
    DigitsValue(a);
    DigitsValue(b);
  }

  lemma SignShown(n: int)
    ensures Decimal(n) != "" && (Decimal(n)[0] == '-' <==> n < 0) && (n < 0 ==> Decimal(n)[1..] == Digits(-n))
  {
  }

  lemma DecimalInjective(a: int, b: int)
    requires Decimal(a) == Decimal(b)
    ensures a == b
  {
    SignShown(a);
    SignShown(b);
    if a < 0 {
      DigitsInjective(-a, -b);
    } else {
      DigitsInjective(a, b);
    }
  }

  predicate Free(s: string, c: char) {
    forall i :: 0 <= i < |s| ==> s[i] != c
  }

  lemma DecimalFree(n: int)
    ensures Free(Decimal(n), ':') && Free(Decimal(n), ';')
  {
  }

  /** The name and the weight of one peer, and of all of them one after the other. */
  function Label(p: Peer): string {
    p.name + [':'] + Decimal(p.weight)
  }

  function Fingerprint(live: seq<Peer>): string {
    if live == [] then "" else Fingerprint(live[..|live| - 1]) + Label(live[|live| - 1]) + [';']
  }

  /** What stands behind the last separator is determined. */
  lemma LastPart(a: string, u: string, b: string, v: string, c: char)
    requires a + u == b + v && Free(u, c) && Free(v, c)
    requires (a == "" || a[|a| - 1] == c) && (b == "" || b[|b| - 1] == c)
    ensures a == b && u == v
  {
    assert b == "" || (a + u)[|b| - 1] == c;
    assert a == "" || (b + v)[|a| - 1] == c;
    assert (a + u)[..|a|] == a && (b + v)[..|b|] == b;
    assert (a + u)[|a|..] == u && (b + v)[|b|..] == v;
  }

  /** The name looks, up to some place, like the label of another peer. */
  ghost predicate Splits(name: string, u: string, w: int, y: string) {
    name == u + [':'] + Decimal(w) + [';'] + y
  }

  /** It does so with a weight that peers may have. */
  ghost predicate Ambiguous(ok: int -> bool, name: string) {
    exists u, w, y :: ok(w) && Splits(name, u, w, y)
  }

  ghost predicate Legible(ok: int -> bool, live: seq<Peer>) {
    forall p :: p in live ==> ok(p.weight) && !Ambiguous(ok, p.name)
  }

  lemma PrintEnds(live: seq<Peer>)
    ensures live == [] <==> Fingerprint(live) == ""
    ensures live != [] ==> Fingerprint(live)[|Fingerprint(live)| - 1] == ';'
  {
  }

  /** The mark at the end of `p` is not part of a weight. */
  lemma NoStraddle(p: string, n: string, q: string, w: int, n': string)
    requires p == "" || p[|p| - 1] == ';'
    requires p + n == q + [':'] + Decimal(w) + [';'] + n' && |p| <= |q| + 1 + |Decimal(w)|
    ensures |p| <= |q|
  {
    DecimalFree(w);
    var s := q + [':'] + Decimal(w) + [';'] + n';
    assert p == "" || s[|p| - 1] == ';';
    assert s[|q|] == ':' && forall i :: 0 <= i < |Decimal(w)| ==> s[|q| + 1 + i] == Decimal(w)[i];
  }

  /** If the front parts of two fingerprints ended at different places, a name would be ambiguous. */
  lemma FrontsAlign(ok: int -> bool, p: string, n: string, q: string, w: int, n': string)
    requires ok(w) && (p == "" || p[|p| - 1] == ';')
    requires p + n == q + [':'] + Decimal(w) + [';'] + n' && |p| <= |q| + 1 + |Decimal(w)|
    ensures Ambiguous(ok, n)
  {
    NoStraddle(p, n, q, w, n');
    assert n == (p + n)[|p|..];
    assert n == q[|p|..] + [':'] + Decimal(w) + [';'] + n';
    assert Splits(n, q[|p|..], w, n');
  }

  lemma SameFront(ok: int -> bool, a: seq<Peer>, n: string, b: seq<Peer>, n': string)
    requires Fingerprint(a) + n == Fingerprint(b) + n' && !Ambiguous(ok, n) && Legible(ok, b)
    ensures |Fingerprint(b)| <= |Fingerprint(a)|
  {
    PrintEnds(a);
    if b != [] && |Fingerprint(a)| < |Fingerprint(b)| {
      var x := b[|b| - 1];
      assert x in b;
      Unfolded(Fingerprint(b[..|b| - 1]), x.name, Decimal(x.weight));
      FrontsAlign(ok, Fingerprint(a), n, Fingerprint(b[..|b| - 1]) + x.name, x.weight, n');
    }
  }

  lemma Unfolded(s: string, name: string, d: string)
    ensures s + (name + [':'] + d) + [';'] == s + name + [':'] + d + [';']
  {
  }

  lemma Unmarked(s: string, name: string, d: string)
    ensures var t := s + (name + [':'] + d) + [';']; t[..|t| - 1] == s + name + [':'] + d
  {
  }

  /** The last weight, and where the last name ends, are determined. */
  lemma LastWeight(p: string, x: Peer, q: string, y: Peer)
    requires p + Label(x) + [';'] == q + Label(y) + [';']
    ensures p + x.name == q + y.name && x.weight == y.weight
  {
    Unmarked(p, x.name, Decimal(x.weight));
    Unmarked(q, y.name, Decimal(y.weight));
    DecimalFree(x.weight);
    DecimalFree(y.weight);
    LastPart(p + x.name + [':'], Decimal(x.weight), q + y.name + [':'], Decimal(y.weight), ':');
    DecimalInjective(x.weight, y.weight);
    Dropped(p + x.name, q + y.name, ':');
  }

  lemma LastPrinted(ok: int -> bool, a: seq<Peer>, x: Peer, b: seq<Peer>, y: Peer)
    requires Legible(ok, a) && Legible(ok, b) && !Ambiguous(ok, x.name) && !Ambiguous(ok, y.name)
    requires Fingerprint(a) + Label(x) + [';'] == Fingerprint(b) + Label(y) + [';']
    ensures x == y && Fingerprint(a) == Fingerprint(b)
  {
    LastWeight(Fingerprint(a), x, Fingerprint(b), y);
    SameFront(ok, a, x.name, b, y.name);
    SameFront(ok, b, y.name, a, x.name);
    SameSplit(Fingerprint(a), x.name, Fingerprint(b), y.name);
  }

  lemma Dropped(s: string, t: string, c: char)
    requires s + [c] == t + [c]
    ensures s == t
  {
    assert (s + [c])[..|s|] == s && (t + [c])[..|t|] == t;
  }

  lemma SameSplit(p: string, n: string, q: string, n': string)
    requires p + n == q + n' && |p| == |q|
    ensures p == q && n == n'
  {
    assert (p + n)[..|p|] == p && (q + n')[..|q|] == q;
    assert (p + n)[|p|..] == n && (q + n')[|q|..] == n';
  }

  lemma LegibleParts(ok: int -> bool, a: seq<Peer>)
    requires Legible(ok, a) && a != []
    ensures Legible(ok, a[..|a| - 1]) && ok(a[|a| - 1].weight) && !Ambiguous(ok, a[|a| - 1].name)
  {
    assert a[|a| - 1] in a;
  }

  lemma SameParts<T>(a: seq<T>, b: seq<T>)
    requires a != [] && b != [] && a[..|a| - 1] == b[..|b| - 1] && a[|a| - 1] == b[|b| - 1]
    ensures a == b
  {
    assert a == a[..|a| - 1] + [a[|a| - 1]] && b == b[..|b| - 1] + [b[|b| - 1]];
  }

  /** A fingerprint determines the available peers, their names and their weights, if no name is ambiguous. */
  lemma {:induction false} FingerprintInjective(ok: int -> bool, a: seq<Peer>, b: seq<Peer>)
    requires Legible(ok, a) && Legible(ok, b) && Fingerprint(a) == Fingerprint(b)
    ensures a == b
    decreases |a|
  {
    PrintEnds(a);
    PrintEnds(b);
    if a != [] {
      LegibleParts(ok, a);
      LegibleParts(ok, b);
      LastPrinted(ok, a[..|a| - 1], a[|a| - 1], b[..|b| - 1], b[|b| - 1]);
      FingerprintInjective(ok, a[..|a| - 1], b[..|b| - 1]);
      SameParts(a, b);
    }
  }

  lemma OnePrinted(p: Peer)
    ensures Fingerprint([p]) == Label(p) + [';']
  {
    assert [p][..0] == [];
    assert Fingerprint([p]) == "" + Label(p) + [';'];
  }

  lemma TwoPrinted(p: Peer, q: Peer)
    ensures Fingerprint([p, q]) == Label(p) + [';'] + Label(q) + [';']
  {
    OnePrinted(p);
    assert [p, q][..1] == [p];
  }

  lemma Resplit(front: string, y: string, d: string)
    ensures front + [';'] + y + [':'] + d == front + [';'] + (y + [':'] + d)
  {
    Regroup(front + [';'] + y, [':'], d);
    Regroup(front + [';'], y, [':'] + d);
    Regroup(y, [':'], d);
  }

  lemma LabelSplits(p: Peer, u: string, w: int, y: string)
    requires Splits(p.name, u, w, y)
    ensures Label(p) == Label(Peer(u, w)) + [';'] + Label(Peer(y, p.weight))
  {
    Resplit(u + [':'] + Decimal(w), y, Decimal(p.weight));
  }

  /** A peer whose name splits has the fingerprint of the two peers that it splits into. */
  lemma FingerprintsClash(p: Peer, u: string, w: int, y: string)
    requires Splits(p.name, u, w, y)
    ensures Fingerprint([Peer(u, w), Peer(y, p.weight)]) == Fingerprint([p])
  {
    LabelSplits(p, u, w, y);
    OnePrinted(p);
    TwoPrinted(Peer(u, w), Peer(y, p.weight));
  }

  // ----- The table that is kept -----

  /** For whom the table is, after a call that finds `live` available; nobody before the first table. */
  function Keep(source: seq<Peer>, live: seq<Peer>): seq<Peer> {
    if live == [] || Fingerprint(source) == Fingerprint(live) then source else live
  }

  /** The same after calls that find the peers in the given conditions. */
  function KeptAfter(peers: seq<Peer>, calls: seq<Peer -> bool>): seq<Peer> {
    if calls == [] then []
    else Keep(KeptAfter(peers, calls[..|calls| - 1]), Live(peers, calls[|calls| - 1]))
  }

  /** Whatever happened before, a call that finds somebody available uses the table of those who are. */
  ghost predicate AlwaysCurrent(peers: seq<Peer>) {
    forall calls: seq<Peer -> bool> {:trigger KeptAfter(peers, calls)} ::
      calls != [] && Live(peers, calls[|calls| - 1]) != [] ==>
        KeptAfter(peers, calls) == Live(peers, calls[|calls| - 1])
  }

  ghost predicate Distinguishes(peers: seq<Peer>) {
    forall f, g :: Fingerprint(Live(peers, f)) == Fingerprint(Live(peers, g)) ==> Live(peers, f) == Live(peers, g)
  }

  lemma {:induction false} KeptIsLive(peers: seq<Peer>, calls: seq<Peer -> bool>)
    ensures exists f :: KeptAfter(peers, calls) == Live(peers, f)
  {
    if calls == [] {
      NobodyLive(peers);
    } else {
      KeptIsLive(peers, calls[..|calls| - 1]);
      var f :| KeptAfter(peers, calls[..|calls| - 1]) == Live(peers, f);
      assert KeptAfter(peers, calls) == Live(peers, f) || KeptAfter(peers, calls) == Live(peers, calls[|calls| - 1]);
    }
  }

  lemma {:induction false} NobodyLive(peers: seq<Peer>)
    ensures Live(peers, p => false) == []
  {
    if peers != [] {
      NobodyLive(peers[..|peers| - 1]);
    }
  }

  lemma TwoCalls(peers: seq<Peer>, f: Peer -> bool, g: Peer -> bool)
    requires Live(peers, f) != []
    ensures KeptAfter(peers, [f, g]) == Keep(Live(peers, f), Live(peers, g))
  {
    assert [f, g][..1] == [f] && [f][..0] == [];
    PrintEnds(Live(peers, f));
    assert KeptAfter(peers, [f]) == Live(peers, f);
  }

  /** The kept table is always the current one exactly if no two conditions of the peers share a fingerprint. */
  lemma CurrentIffDistinct(peers: seq<Peer>)
    ensures AlwaysCurrent(peers) <==> Distinguishes(peers)
  {
    if Distinguishes(peers) {
      forall calls: seq<Peer -> bool> {:trigger KeptAfter(peers, calls)}
        | calls != [] && Live(peers, calls[|calls| - 1]) != []
        ensures KeptAfter(peers, calls) == Live(peers, calls[|calls| - 1])
      {
        KeptIsLive(peers, calls[..|calls| - 1]);
      }
    } else {
      var f, g :| Fingerprint(Live(peers, f)) == Fingerprint(Live(peers, g)) && Live(peers, f) != Live(peers, g);
      SharedStale(peers, f, g);
    }
  }

  lemma SharedStale(peers: seq<Peer>, f: Peer -> bool, g: Peer -> bool)
    requires Fingerprint(Live(peers, f)) == Fingerprint(Live(peers, g)) && Live(peers, f) != Live(peers, g)
    ensures !AlwaysCurrent(peers)
  {
    PrintEnds(Live(peers, f));
    PrintEnds(Live(peers, g));
    TwoCalls(peers, f, g);
    NotCurrent(peers, f, g);
  }

  lemma LegibleDistinct(ok: int -> bool, peers: seq<Peer>)
    requires Legible(ok, peers)
    ensures AlwaysCurrent(peers)
  {
    forall f, g | Fingerprint(Live(peers, f)) == Fingerprint(Live(peers, g)) ensures Live(peers, f) == Live(peers, g) {
      FingerprintInjective(ok, Live(peers, f), Live(peers, g));
    }
    CurrentIffDistinct(peers);
  }

  // ----- Which names are safe -----

  /** The parts of a name of the class are names of the class. */
  ghost predicate Closed(ok: int -> bool, names: string -> bool) {
    forall s, u, w, y :: names(s) && ok(w) && Splits(s, u, w, y) ==> names(u) && names(y)
  }

  ghost predicate Named(ok: int -> bool, names: string -> bool, peers: seq<Peer>) {
    forall p :: p in peers ==> ok(p.weight) && names(p.name)
  }

  lemma ThreeLive(p: Peer, q: Peer, r: Peer, f: Peer -> bool)
    ensures Live([p, q, r], f) ==
      (if f(p) then [p] else []) + (if f(q) then [q] else []) + (if f(r) then [r] else [])
  {
    var all := [p, q, r];
    assert all[..2] == [p, q] && [p, q][..1] == [p] && [p][..0] == [];
    assert Live([p], f) == [] + if f(p) then [p] else [];
    assert Live([p, q], f) == Live([p], f) + if f(q) then [q] else [];
    assert Live(all, f) == Live([p, q], f) + if f(r) then [r] else [];
  }

  function Only(p: Peer): Peer -> bool {
    q => q == p
  }

  function Except(p: Peer): Peer -> bool {
    q => q != p
  }

  lemma SplitLive(p: Peer, one: Peer, two: Peer)
    requires p != one && p != two
    ensures Live([p, one, two], Only(p)) == [p] && Live([p, one, two], Except(p)) == [one, two]
  {
    ThreeLive(p, one, two, Only(p));
    ThreeLive(p, one, two, Except(p));
  }

  lemma SplitShorter(name: string, u: string, w: int, y: string)
    requires Splits(name, u, w, y)
    ensures |u| < |name| && |y| < |name|
  {
  }

  /** The table built for a peer is kept when only the two peers that its name splits into are available. */
  lemma SplitStale(p: Peer, u: string, w: int, y: string)
    requires Splits(p.name, u, w, y)
    ensures var one, two := Peer(u, w), Peer(y, p.weight);
      && KeptAfter([p, one, two], [Only(p), Except(p)]) == [p]
      && p != one && p != two && Live([p, one, two], Except(p)) == [one, two]
  {
    var one, two := Peer(u, w), Peer(y, p.weight);
    SplitShorter(p.name, u, w, y);
    SplitLive(p, one, two);
    TwoCalls([p, one, two], Only(p), Except(p));
    FingerprintsClash(p, u, w, y);
  }

  lemma NotCurrent(peers: seq<Peer>, f: Peer -> bool, g: Peer -> bool)
    requires Live(peers, g) != [] && KeptAfter(peers, [f, g]) != Live(peers, g)
    ensures !AlwaysCurrent(peers)
  {
    var calls := [f, g];
    assert calls[|calls| - 1] == g;
  }

  lemma SplitNotCurrent(p: Peer, u: string, w: int, y: string)
    requires Splits(p.name, u, w, y)
    ensures !AlwaysCurrent([p, Peer(u, w), Peer(y, p.weight)])
  {
    SplitStale(p, u, w, y);
    NotCurrent([p, Peer(u, w), Peer(y, p.weight)], Only(p), Except(p));
  }

  lemma AmbiguousStale(ok: int -> bool, names: string -> bool, s: string)
    requires Closed(ok, names) && names(s) && Ambiguous(ok, s)
    ensures exists peers :: Named(ok, names, peers) && !AlwaysCurrent(peers)
  {
    var u, w, y :| ok(w) && Splits(s, u, w, y);
    StaleParts(ok, names, s, u, w, y);
  }

  lemma StaleParts(ok: int -> bool, names: string -> bool, s: string, u: string, w: int, y: string)
    requires ok(w) && names(s) && names(u) && names(y) && Splits(s, u, w, y)
    ensures exists peers :: Named(ok, names, peers) && !AlwaysCurrent(peers)
  {
    SplitNotCurrent(Peer(s, w), u, w, y);
    NamedThree(ok, names, Peer(s, w), Peer(u, w), Peer(y, w));
  }

  lemma NamedThree(ok: int -> bool, names: string -> bool, p: Peer, q: Peer, r: Peer)
    requires ok(p.weight) && ok(q.weight) && ok(r.weight) && names(p.name) && names(q.name) && names(r.name)
    ensures Named(ok, names, [p, q, r])
  {
  }

  /** For a class of names that contains the parts of its names, the kept table is right exactly if none splits. */
  lemma CurrentIffUnambiguous(ok: int -> bool, names: string -> bool)
    requires Closed(ok, names)
    ensures (forall peers :: Named(ok, names, peers) ==> AlwaysCurrent(peers)) <==>
            (forall s :: names(s) ==> !Ambiguous(ok, s))
  {
    if s :| names(s) && Ambiguous(ok, s) {
      AmbiguousStale(ok, names, s);
    } else {
      forall peers | Named(ok, names, peers) ensures AlwaysCurrent(peers) {
        LegibleDistinct(ok, peers);
      }
    }
  }

  // ----- Peers as the configuration admits them -----

  const MAX_WEIGHT := 0x7FFF_FFFF

  function Weights(): int -> bool {
    w => 0 <= w <= MAX_WEIGHT
  }

  /** Names are not empty and differ, and weights are not negative (src/gateway/gateway_config_yaml.cc:499-509). */
  ghost predicate Configured(peers: seq<Peer>) {
    && (forall i :: 0 <= i < |peers| ==> peers[i].name != "" && Weights()(peers[i].weight))
    && forall i, j :: 0 <= i < j < |peers| ==> peers[i].name != peers[j].name
  }

  predicate Over(chars: set<char>, name: string) {
    forall i :: 0 <= i < |name| ==> name[i] in chars
  }

  ghost predicate AllOver(chars: set<char>, peers: seq<Peer>) {
    forall p :: p in peers ==> Over(chars, p.name)
  }

  /** Names over these characters can contain a colon, a digit and a semicolon. */
  ghost predicate CanSplit(chars: set<char>) {
    ':' in chars && ';' in chars && exists d :: d in chars && '0' <= d <= '9'
  }

  lemma SplitChars(chars: set<char>, name: string, u: string, w: int, y: string)
    requires Over(chars, name) && Splits(name, u, w, y)
    ensures CanSplit(chars)
  {
    var d := Decimal(w);
    SignShown(w);
    assert name[|u|] == ':' && name[|u| + 1 + |d|] == ';' && name[|u| + |d|] == d[|d| - 1];
    assert '0' <= d[|d| - 1] <= '9';
  }

  lemma DigitDecimal(d: char)
    requires '0' <= d <= '9'
    ensures Decimal(d as int - 48) == [d] && Weights()(d as int - 48)
  {
  }

  lemma ThreeConfigured(chars: set<char>, w: int, a: string, b: string, c: string)
    requires Weights()(w) && Over(chars, a) && Over(chars, b) && Over(chars, c) && 0 < |a| < |b| < |c|
    ensures var peers := [Peer(c, w), Peer(a, w), Peer(b, w)]; Configured(peers) && AllOver(chars, peers)
  {
  }

  lemma SplitOver(chars: set<char>)
    requires CanSplit(chars)
    ensures exists peers :: Configured(peers) && AllOver(chars, peers) && !AlwaysCurrent(peers)
  {
    var d :| d in chars && '0' <= d <= '9';
    DigitDecimal(d);
    var w, u, y, s := d as int - 48, [':'], [':', ':'], [':', ':', d, ';', ':', ':'];
    assert Splits(s, u, w, y);
    ThreeConfigured(chars, w, u, y, s);
    SplitNotCurrent(Peer(s, w), u, w, y);
  }

  /**
   For names over given characters, and peers as the configuration admits them: the kept table is always the current one
   exactly if a colon, a semicolon and a digit are not all among the characters.
   */
  lemma CurrentIffCharacters(chars: set<char>)
    ensures (forall peers :: Configured(peers) && AllOver(chars, peers) ==> AlwaysCurrent(peers)) <==> !CanSplit(chars)
  {
    if CanSplit(chars) {
      SplitOver(chars);
    } else {
      forall peers | Configured(peers) && AllOver(chars, peers) ensures AlwaysCurrent(peers) {
        forall p: Peer | p in peers ensures Weights()(p.weight) && !Ambiguous(Weights(), p.name) {
          if u, w, y :| Weights()(w) && Splits(p.name, u, w, y) {
            SplitChars(chars, p.name, u, w, y);
          }
        }
        LegibleDistinct(Weights(), peers);
      }
    }
  }

  // ----- Every ambiguous name does harm -----

  lemma {:induction false} LiveNone(peers: seq<Peer>, f: Peer -> bool)
    requires forall p :: p in peers ==> !f(p)
    ensures Live(peers, f) == []
  {
    if peers != [] {
      LiveNone(peers[..|peers| - 1], f);
    }
  }

  lemma LiveLast(a: seq<Peer>, p: Peer, f: Peer -> bool)
    ensures Live(a + [p], f) == Live(a, f) + if f(p) then [p] else []
  {
    assert (a + [p])[..|a|] == a;
  }

  lemma LiveStep(a: seq<Peer>, b: seq<Peer>, p: Peer, f: Peer -> bool)
    requires Live(a + b, f) == Live(a, f) + Live(b, f)
    ensures Live(a + (b + [p]), f) == Live(a, f) + Live(b + [p], f)
  {
    LiveLast(b, p, f);
    LiveLast(a + b, p, f);
    Regroup(a, b, [p]);
    Regroup(Live(a, f), Live(b, f), if f(p) then [p] else []);
  }

  lemma {:induction false} LiveAppend(a: seq<Peer>, b: seq<Peer>, f: Peer -> bool)
    ensures Live(a + b, f) == Live(a, f) + Live(b, f)
    decreases |b|
  {
    if b == [] {
      Regroup(a, b, []);
      Regroup(Live(a, f), [], []);
    } else {
      var front, last := b[..|b| - 1], b[|b| - 1];
      LiveAppend(a, front, f);
      LiveStep(a, front, last, f);
      FrontLast(b);
    }
  }

  lemma {:induction false} LiveEverybody(peers: seq<Peer>, f: Peer -> bool)
    requires forall p :: p in peers ==> f(p)
    ensures Live(peers, f) == peers
  {
    if peers != [] {
      LiveEverybody(peers[..|peers| - 1], f);
      assert peers == peers[..|peers| - 1] + [peers[|peers| - 1]];
    }
  }

  function In(a: seq<Peer>): Peer -> bool {
    p => p in a
  }

  function NotIn(a: seq<Peer>): Peer -> bool {
    p => p !in a
  }

  lemma TwoHalves(a: seq<Peer>, b: seq<Peer>)
    requires forall p :: p in b ==> p !in a
    ensures Live(a + b, In(a)) == a && Live(a + b, NotIn(a)) == b
  {
    LiveAppend(a, b, In(a));
    LiveEverybody(a, In(a));
    LiveNone(b, In(a));
    LiveAppend(a, b, NotIn(a));
    LiveNone(a, NotIn(a));
    LiveEverybody(b, NotIn(a));
  }

  lemma ThreePrinted(p: Peer, q: Peer, r: Peer)
    ensures Fingerprint([p, q, r]) == Label(p) + [';'] + Label(q) + [';'] + Label(r) + [';']
  {
    TwoPrinted(p, q);
    assert [p, q, r][..2] == [p, q];
  }

  lemma FourParts(a: string, b: string, c: string, d: string, m: string)
    ensures a + m + (b + m + c) + m + d + m == a + m + b + m + (c + m + d) + m
  {
    assert a + m + (b + m + c) == a + m + b + m + c;
    assert a + m + b + m + (c + m + d) == a + m + b + m + c + m + d;
  }

  /** With a peer before it and one behind it, an ambiguous name is cut into parts of longer names. */
  lemma Recombined(z: Peer, p: Peer, z': Peer, u: string, w: int, y: string, q: Peer, q': Peer)
    requires Splits(p.name, u, w, y) && q.weight == w && q'.weight == z'.weight
    requires Splits(q.name, z.name, z.weight, u) && Splits(q'.name, y, p.weight, z'.name)
    ensures Fingerprint([z, p, z']) == Fingerprint([q, q'])
  {
    ThreePrinted(z, p, z');
    TwoPrinted(q, q');
    LabelSplits(p, u, w, y);
    LabelSplits(q, z.name, z.weight, u);
    LabelSplits(q', y, p.weight, z'.name);
    FourParts(Label(z), Label(Peer(u, w)), Label(Peer(y, p.weight)), Label(z'), [';']);
  }

  /** Peers of other lengths than `p`, so that all names differ. */
  lemma Partners(p: Peer, u: string, w: int, y: string) returns (z: Peer, z': Peer, q: Peer, q': Peer)
    requires Splits(p.name, u, w, y)
    ensures z.weight == z'.weight == q'.weight == 0 && q.weight == w
    ensures Splits(q.name, z.name, z.weight, u) && Splits(q'.name, y, p.weight, z'.name)
    ensures |p.name| < |z.name| < |q.name| < |z'.name| < |q'.name|
  {
    SplitShorter(p.name, u, w, y);
    z, z' := Peer(p.name + ['a'], 0), Peer(p.name + p.name + ['b', 'b', 'b', 'b'], 0);
    q, q' := Peer(z.name + [':'] + Decimal(0) + [';'] + u, w), Peer(y + [':'] + Decimal(p.weight) + [';'] + z'.name, 0);
    assert |Decimal(0)| == 1;
  }

  lemma FiveConfigured(z: Peer, p: Peer, z': Peer, q: Peer, q': Peer)
    requires |p.name| < |z.name| < |q.name| < |z'.name| < |q'.name| && p.name != ""
    requires Weights()(z.weight) && Weights()(p.weight) && Weights()(z'.weight)
    requires Weights()(q.weight) && Weights()(q'.weight)
    ensures Configured([z, p, z'] + [q, q']) && forall x :: x in [q, q'] ==> x !in [z, p, z']
  {
  }

  /**
   Every peer whose name is ambiguous can be configured together with others so that, after two calls, the table is one
   for peers none of which is available.
   */
  lemma AmbiguousHarms(p: Peer) returns (a: seq<Peer>, b: seq<Peer>)
    requires p.name != "" && Weights()(p.weight) && Ambiguous(Weights(), p.name)
    ensures Configured(a + b) && p in a && b != [] && (forall x :: x in b ==> x !in a)
    ensures Live(a + b, NotIn(a)) == b && KeptAfter(a + b, [In(a), NotIn(a)]) == a
  {
    var u, w, y :| Weights()(w) && Splits(p.name, u, w, y);
    var z, z', q, q' := Partners(p, u, w, y);
    a, b := [z, p, z'], [q, q'];
    FiveConfigured(z, p, z', q, q');
    Recombined(z, p, z', u, w, y, q, q');
    TwoHalves(a, b);
    TwoCalls(a + b, In(a), NotIn(a));
  }
}
