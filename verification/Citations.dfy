/** The citation scanner: the leftmost, non-overlapping matches of `\[(\d+)\]`. */
module Scanner {
  import opened Prelude
  import opened FiniteSets
  import opened Decimal

  /** A marker: '[' at `start`, ']' just before `stop`, one or more digits between. */
  datatype Span = Span(start: nat, stop: nat)

  predicate IsMarker(s: string, m: Span) {
    && m.start + 3 <= m.stop <= |s|
    && s[m.start] == '[' && s[m.stop - 1] == ']'
    && forall k :: m.start < k < m.stop - 1 ==> IsDigit(s[k])
  }

  function Digits(s: string, m: Span): (digits: string)
    requires IsMarker(s, m)
    ensures digits != "" && AllDigits(digits)
  {
    s[m.start + 1..m.stop - 1]
  }

  /** End of the run of digits that starts at `i`. */
  function DigitsEnd(s: string, i: nat): (j: nat)
    requires i <= |s|
    ensures i <= j <= |s|
    ensures forall k :: i <= k < j ==> IsDigit(s[k])
    ensures j < |s| ==> !IsDigit(s[j])
    decreases |s| - i
  {
    if i < |s| && IsDigit(s[i]) then DigitsEnd(s, i + 1) else i
  }

  /** The match of the pattern at position `i`, if there is one. */
  function MatchAt(s: string, i: nat): (m: Option<Span>)
    requires i < |s|
    ensures m.Some? ==> m.value.start == i && IsMarker(s, m.value)
  {
    if s[i] != '[' then None
    else
      var j := DigitsEnd(s, i + 1);
      if j > i + 1 && j < |s| && s[j] == ']' then Some(Span(i, j + 1)) else None
  }

  /** Greedy matching misses no marker: there is at most one at a position, and it is found. */
  lemma MatchAtComplete(s: string, m: Span)
    requires IsMarker(s, m)
    ensures MatchAt(s, m.start) == Some(m)
  {
    assert !IsDigit(s[m.stop - 1]);
    assert DigitsEnd(s, m.start + 1) == m.stop - 1;
  }

  /** The matches from position `i` on, each sought after the end of the one before. */
  function Matches(s: string, i: nat): (ms: seq<Span>)
    requires i <= |s|
    ensures forall k :: 0 <= k < |ms| ==> IsMarker(s, ms[k]) && i <= ms[k].start
    ensures forall k, l :: 0 <= k < l < |ms| ==> ms[k].stop <= ms[l].start
    decreases |s| - i
  {
    if i == |s| then []
    else
      match MatchAt(s, i)
      case None => Matches(s, i + 1)
      case Some(m) => [m] + Matches(s, m.stop)
  }

  lemma MatchOrder(s: string, j: nat, k: nat)
    requires j < |Matches(s, 0)| && k < |Matches(s, 0)|
    ensures j < k <==> Matches(s, 0)[j].start < Matches(s, 0)[k].start
  {
  }

  /** The scan finds every marker: none starts inside another. */
  lemma {:induction false} MatchesComplete(s: string, i: nat, m: Span)
    requires i <= |s| && IsMarker(s, m) && i <= m.start
    ensures m in Matches(s, i)
    decreases |s| - i
  {
    MatchAtComplete(s, m);
    match MatchAt(s, i)
    case None => MatchesComplete(s, i + 1, m);
    case Some(first) =>
      if m != first {
        NoneInside(s, first, m);
        MatchesComplete(s, first.stop, m);
      }
  }

  lemma NoneInside(s: string, first: Span, m: Span)
    requires IsMarker(s, first) && IsMarker(s, m) && first.start <= m.start && first != m
    ensures first.stop <= m.start
  {
    MatchAtComplete(s, first);
    MatchAtComplete(s, m);
    assert !IsDigit(s[m.start]);
  }

  const USIZE_MAX := 0xFFFF_FFFF_FFFF_FFFF

  /** A numeral that does not fit 64 bits does not parse. */
  function ParseUsize(digits: string): Option<nat>
    requires AllDigits(digits)
  {
    if Value(digits) <= USIZE_MAX then Some(Value(digits)) else None
  }

  /** The number of a marker, 0 if it does not parse; 0 is never in range. */
  function NumberOf(s: string, m: Span): nat
    requires IsMarker(s, m)
  {
    match ParseUsize(Digits(s, m))
    case Some(n) => n
    case None => 0
  }

  function NumbersOf(s: string, ms: seq<Span>): (ns: seq<nat>)
    requires forall k :: 0 <= k < |ms| ==> IsMarker(s, ms[k])
    ensures |ns| == |ms| && forall k :: 0 <= k < |ms| ==> ns[k] == NumberOf(s, ms[k])
  {
    seq(|ms|, k requires 0 <= k < |ms| => NumberOf(s, ms[k]))
  }

  function Noted(acc: seq<nat>, n: nat, limit: nat): seq<nat> {
    if 1 <= n <= limit && n !in acc then acc + [n] else acc
  }

  /** The numbers of `ns` from 1 to `limit`, each where it first occurs, after those of `acc`. */
  function Gather(acc: seq<nat>, ns: seq<nat>, limit: nat): seq<nat>
    decreases |ns|
  {
    if ns == [] then acc else Gather(Noted(acc, ns[0], limit), ns[1..], limit)
  }

  function FirstOccurrences(ns: seq<nat>, limit: nat): seq<nat> {
    Gather([], ns, limit)
  }

  lemma GatherNext(acc: seq<nat>, n: nat, rest: seq<nat>, limit: nat)
    ensures Gather(acc, [n] + rest, limit) == Gather(Noted(acc, n, limit), rest, limit)
  {
    assert ([n] + rest)[1..] == rest;
  }

  /** Exactly the numbers in range that occur, each once. */
  lemma {:induction false} GatherContents(acc: seq<nat>, ns: seq<nat>, limit: nat)
    requires Distinct(acc)
    ensures Distinct(Gather(acc, ns, limit)) && acc <= Gather(acc, ns, limit)
    ensures forall n :: n in Gather(acc, ns, limit) <==> n in acc || (1 <= n <= limit && n in ns)
    decreases |ns|
  {
    if ns != [] {
      var acc' := Noted(acc, ns[0], limit);
      GatherContents(acc', ns[1..], limit);
      assert forall n :: n in ns <==> n == ns[0] || n in ns[1..];
      assert forall n :: n in acc' <==> n in acc || (n == ns[0] && 1 <= n <= limit);
    }
  }

  /** What is gathered after `acc` is new and in range. */
  lemma GatherLater(acc: seq<nat>, ns: seq<nat>, limit: nat, b: nat)
    requires Distinct(acc) && |acc| <= b < |Gather(acc, ns, limit)|
    ensures Gather(acc, ns, limit)[b] !in acc && 1 <= Gather(acc, ns, limit)[b] <= limit
  {
    var all := Gather(acc, ns, limit);
    GatherContents(acc, ns, limit);
    assert all[b] in all;
    assert forall i :: 0 <= i < |acc| ==> acc[i] == all[i];
  }

  lemma NotAmong(ns: seq<nat>, j: nat, x: nat)
    requires ns != [] && j < |ns| && x != ns[0] && x !in ns[1..][..j]
    ensures x !in ns[..j + 1]
  {
    assert ns[..j + 1] == [ns[0]] + ns[1..][..j];
  }

  /** A number gathered earlier occurs before the first occurrence of any number gathered later. */
  lemma {:induction false} GatherOrder(acc: seq<nat>, ns: seq<nat>, limit: nat, a: nat, b: nat) returns (k: nat)
    requires Distinct(acc) && |acc| <= a < b < |Gather(acc, ns, limit)|
    ensures k < |ns| && ns[k] == Gather(acc, ns, limit)[a] && Gather(acc, ns, limit)[b] !in ns[..k]
    decreases |ns|
  {
    var acc' := Noted(acc, ns[0], limit);
    if a < |acc'| {
      GatherContents(acc', ns[1..], limit);
      assert Gather(acc, ns, limit)[a] == acc'[a];
      k := 0;
    } else {
      var j := GatherOrder(acc', ns[1..], limit, a, b);
      GatherLater(acc', ns[1..], limit, b);
      NotAmong(ns, j, Gather(acc, ns, limit)[b]);
      k := j + 1;
    }
  }

  /** Distinct numbers in range come back unchanged. */
  lemma {:induction false} GatherDistinct(acc: seq<nat>, ns: seq<nat>, limit: nat)
    requires Distinct(acc + ns) && forall k :: 0 <= k < |ns| ==> 1 <= ns[k] <= limit
    ensures Gather(acc, ns, limit) == acc + ns
    decreases |ns|
  {
    if ns == [] {
      assert acc + ns == acc;
    } else {
      assert (acc + [ns[0]]) + ns[1..] == acc + ns;
      assert (acc + ns)[|acc|] == ns[0];
      assert forall i :: 0 <= i < |acc| ==> acc[i] == (acc + ns)[i];
      GatherDistinct(acc + [ns[0]], ns[1..], limit);
    }
  }
}

/** Citations: the distinct in-range numbers an answer cites, resolved through the prompt's maps. */
module Citations {
  import opened Prelude
  import opened Scanner
  import opened Prompt

  datatype Citation = Citation(n: nat, chunkId: nat, documentId: nat, ord: I32)

  /** Marker `m` of the answer cites block `n`. */
  predicate Cites(answer: string, m: Span, n: nat) {
    IsMarker(answer, m) && ParseUsize(Digits(answer, m)) == Some(n)
  }

  predicate InRange(built: BuiltPrompt, n: nat) {
    1 <= n <= |built.idMap|
  }

  ghost predicate Parallel(built: BuiltPrompt) {
    |built.idMap| == |built.docMap| == |built.ordMap| <= USIZE_MAX
  }

  /** Some marker that starts before `end` cites `n`. */
  ghost predicate CitedBefore(answer: string, end: nat, n: nat) {
    exists m: Span :: m.start < end && Cites(answer, m, n)
  }

  /** Each number once, in the order in which the answer first cites them. */
  ghost predicate FirstAppearances(answer: string, out: seq<Citation>) {
    forall a, b :: 0 <= a < b < |out| ==>
      && out[a].n != out[b].n
      && exists m: Span :: Cites(answer, m, out[a].n) && !CitedBefore(answer, m.start, out[b].n)
  }

  ghost predicate Resolves(built: BuiltPrompt, c: Citation)
    requires Parallel(built)
  {
    && InRange(built, c.n)
    && c == Citation(c.n, built.idMap[c.n - 1], built.docMap[c.n - 1], built.ordMap[c.n - 1])
  }

  ghost predicate Lists(out: seq<Citation>, n: nat) {
    exists k :: 0 <= k < |out| && out[k].n == n
  }

  function NumbersIn(out: seq<Citation>): (ns: seq<nat>)
    ensures |ns| == |out| && forall k :: 0 <= k < |out| ==> ns[k] == out[k].n
  {
    seq(|out|, k requires 0 <= k < |out| => out[k].n)
  }

  /** The numbers of all markers of an answer from position `pos` on. */
  function Scanned(answer: string, pos: nat): seq<nat>
    requires pos <= |answer|
  {
    NumbersOf(answer, Matches(answer, pos))
  }

  lemma ScanStep(answer: string, pos: nat)
    requires pos < |answer|
    ensures Scanned(answer, pos) ==
      match MatchAt(answer, pos)
      case None => Scanned(answer, pos + 1)
      case Some(m) => [NumberOf(answer, m)] + Scanned(answer, m.stop)
  {
  }

  /** The loop from `pos` on, with `acc` noted so far. */
  function Collect(answer: string, pos: nat, acc: seq<nat>, limit: nat): seq<nat>
    requires pos <= |answer|
    decreases |answer| - pos
  {
    if pos == |answer| then acc
    else
      match MatchAt(answer, pos)
      case None => Collect(answer, pos + 1, acc, limit)
      case Some(m) => Collect(answer, m.stop, Noted(acc, NumberOf(answer, m), limit), limit)
  }

  lemma CollectNothing(answer: string, pos: nat, acc: seq<nat>, limit: nat)
    requires pos < |answer| && MatchAt(answer, pos) == None
    requires Collect(answer, pos + 1, acc, limit) == Gather(acc, Scanned(answer, pos + 1), limit)
    ensures Collect(answer, pos, acc, limit) == Gather(acc, Scanned(answer, pos), limit)
  {
    ScanStep(answer, pos);
  }

  lemma CollectMarker(answer: string, pos: nat, acc: seq<nat>, limit: nat, m: Span)
    requires pos < |answer| && MatchAt(answer, pos) == Some(m)
    requires var acc' := Noted(acc, NumberOf(answer, m), limit);
      Collect(answer, m.stop, acc', limit) == Gather(acc', Scanned(answer, m.stop), limit)
    ensures Collect(answer, pos, acc, limit) == Gather(acc, Scanned(answer, pos), limit)
  {
    ScanStep(answer, pos);
    GatherNext(acc, NumberOf(answer, m), Scanned(answer, m.stop), limit);
  }

  lemma {:induction false} CollectGathers(answer: string, pos: nat, acc: seq<nat>, limit: nat)
    requires pos <= |answer|
    ensures Collect(answer, pos, acc, limit) == Gather(acc, Scanned(answer, pos), limit)
    decreases |answer| - pos
  {
    if pos < |answer| {
      match MatchAt(answer, pos)
      case None =>
        CollectGathers(answer, pos + 1, acc, limit);
        CollectNothing(answer, pos, acc, limit);
      case Some(m) =>
        CollectGathers(answer, m.stop, Noted(acc, NumberOf(answer, m), limit), limit);
        CollectMarker(answer, pos, acc, limit, m);
    }
  }

  lemma NumberListed(out: seq<Citation>, n: nat)
    ensures Lists(out, n) <==> n in NumbersIn(out)
  {
    if Lists(out, n) {
      var k :| 0 <= k < |out| && out[k].n == n;
      assert NumbersIn(out)[k] == n;
    }
  }

  ghost predicate AllResolve(built: BuiltPrompt, out: seq<Citation>)
    requires Parallel(built)
  {
    forall k :: 0 <= k < |out| ==> Resolves(built, out[k])
  }

  lemma CitationAppended(built: BuiltPrompt, out: seq<Citation>, c: Citation)
    requires Parallel(built) && AllResolve(built, out) && Resolves(built, c)
    ensures AllResolve(built, out + [c]) && NumbersIn(out + [c]) == NumbersIn(out) + [c.n]
  {
  }

  ghost predicate SeenIn(seen: set<nat>, out: seq<Citation>) {
    forall n :: n in seen <==> n in NumbersIn(out)
  }

  /** Appends a parsed number that is in range and new, resolved through the maps. */
  method NoteCitation(built: BuiltPrompt, parsed: Option<nat>, seen: set<nat>, out: seq<Citation>)
    returns (seen': set<nat>, out': seq<Citation>)
    requires Parallel(built) && AllResolve(built, out) && SeenIn(seen, out)
    ensures AllResolve(built, out') && SeenIn(seen', out')
    ensures NumbersIn(out') == Noted(NumbersIn(out), if parsed.Some? then parsed.value else 0, |built.idMap|)
  {
    seen', out' := seen, out;
    if parsed.Some? && 1 <= parsed.value <= |built.idMap| && parsed.value !in seen {
      var n := parsed.value;
      var c := Citation(n, built.idMap[n - 1], built.docMap[n - 1], built.ordMap[n - 1]);
      CitationAppended(built, out, c);
      seen', out' := seen + {n}, out + [c];
    }
  }

  method ExtractCitations(answer: string, built: BuiltPrompt) returns (out: seq<Citation>)
    requires Parallel(built)
    ensures AllResolve(built, out)
    ensures NumbersIn(out) == FirstOccurrences(Scanned(answer, 0), |built.idMap|)
  {
    out := [];
    var seen: set<nat> := {};
    var pos := 0;
    ghost var limit := |built.idMap|;
    while pos < |answer|
      invariant pos <= |answer|
      invariant Collect(answer, 0, [], limit) == Collect(answer, pos, NumbersIn(out), limit)
      invariant SeenIn(seen, out)
      invariant AllResolve(built, out)
    {
      match MatchAt(answer, pos) {
        case None =>
          pos := pos + 1;
        case Some(m) =>
          seen, out := NoteCitation(built, ParseUsize(Digits(answer, m)), seen, out);
          pos := m.stop;
      }
    }
    CollectGathers(answer, 0, [], limit);
  }

  /** A number is listed if and only if it is in range and some marker of the answer cites it. */
  lemma ListedExactly(answer: string, built: BuiltPrompt, out: seq<Citation>)
    requires NumbersIn(out) == FirstOccurrences(Scanned(answer, 0), |built.idMap|)
    ensures forall n :: Lists(out, n) <==> InRange(built, n) && CitedBefore(answer, |answer|, n)
  {
    GatherContents([], Scanned(answer, 0), |built.idMap|);
    forall n ensures Lists(out, n) <==> InRange(built, n) && CitedBefore(answer, |answer|, n) {
      NumberListed(out, n);
      if n >= 1 {
        ScannedExactly(answer, n);
      }
    }
  }

  /** The scan sees exactly the numbers some marker cites. */
  lemma ScannedExactly(answer: string, n: nat)
    requires n >= 1
    ensures n in Scanned(answer, 0) <==> CitedBefore(answer, |answer|, n)
  {
    if n in Scanned(answer, 0) {
      var k :| 0 <= k < |Scanned(answer, 0)| && Scanned(answer, 0)[k] == n;
      ScannedCites(answer, k);
    }
    if m: Span :| m.start < |answer| && Cites(answer, m, n) {
      CitedScanned(answer, m, n);
    }
  }

  lemma ScannedCites(answer: string, k: nat)
    requires k < |Scanned(answer, 0)| && Scanned(answer, 0)[k] >= 1
    ensures Cites(answer, Matches(answer, 0)[k], Scanned(answer, 0)[k])
  {
  }

  lemma CitedScanned(answer: string, m: Span, n: nat)
    requires Cites(answer, m, n) && m.start < |answer|
    ensures n in Scanned(answer, 0)
  {
    MatchesComplete(answer, 0, m);
    var k :| 0 <= k < |Matches(answer, 0)| && Matches(answer, 0)[k] == m;
    assert Scanned(answer, 0)[k] == n;
  }

  /** A marker that starts before the k-th match is one of the matches before it. */
  lemma EarlierMatch(answer: string, k: nat, m: Span) returns (j: nat)
    requires k < |Matches(answer, 0)| && IsMarker(answer, m) && m.start < Matches(answer, 0)[k].start
    ensures j < k && Matches(answer, 0)[j] == m
  {
    var ms := Matches(answer, 0);
    MatchesComplete(answer, 0, m);
    j :| 0 <= j < |ms| && ms[j] == m;
    MatchOrder(answer, j, k);
  }

  lemma CitedEarlier(answer: string, k: nat, n: nat)
    requires k < |Matches(answer, 0)| && CitedBefore(answer, Matches(answer, 0)[k].start, n) && n >= 1
    ensures n in Scanned(answer, 0)[..k]
  {
    var e: Span :| e.start < Matches(answer, 0)[k].start && Cites(answer, e, n);
    var j := EarlierMatch(answer, k, e);
    assert Scanned(answer, 0)[..k][j] == n;
  }

  /** The list has each number once, in the order of first appearance. */
  lemma FirstAppearanceOrder(answer: string, out: seq<Citation>, limit: nat)
    requires NumbersIn(out) == FirstOccurrences(Scanned(answer, 0), limit)
    ensures FirstAppearances(answer, out)
  {
    var ns := Scanned(answer, 0);
    GatherContents([], ns, limit);
    forall a, b | 0 <= a < b < |out|
      ensures out[a].n != out[b].n
      ensures exists m: Span :: Cites(answer, m, out[a].n) && !CitedBefore(answer, m.start, out[b].n)
    {
      assert NumbersIn(out)[a] != NumbersIn(out)[b];
      var k := GatherOrder([], ns, limit, a, b);
      var m := Matches(answer, 0)[k];
      assert NumbersIn(out)[a] in NumbersIn(out);
      assert Cites(answer, m, out[a].n);
      assert NumbersIn(out)[b] in NumbersIn(out);
      if CitedBefore(answer, m.start, out[b].n) {
        CitedEarlier(answer, k, out[b].n);
      }
    }
  }

  ghost predicate Rising(out: seq<Citation>) {
    forall a, b :: 0 <= a < b < |out| ==> out[a].n < out[b].n
  }

  /** No marker of the answer cites a number ahead of the first marker of a smaller number it cites. */
  ghost predicate CitedInOrder(answer: string, limit: nat) {
    forall n, m, e: Span :: 1 <= n < m <= limit && Cites(answer, e, m) && CitedBefore(answer, |answer|, n) ==>
      CitedBefore(answer, e.start, n)
  }

  /** Two markers that start at one place are one marker. */
  lemma MarkerCitesOne(answer: string, e: Span, n: nat, f: Span, m: nat)
    requires Cites(answer, e, n) && Cites(answer, f, m) && n != m
    ensures e.start != f.start
  {
    MatchAtComplete(answer, e);
    MatchAtComplete(answer, f);
  }

  lemma AppearsFirst(answer: string, out: seq<Citation>, a: nat, b: nat) returns (f: Span)
    requires FirstAppearances(answer, out) && a < b < |out|
    ensures Cites(answer, f, out[a].n) && !CitedBefore(answer, f.start, out[b].n)
  {
    assert out[a].n != out[b].n;
    f :| Cites(answer, f, out[a].n) && !CitedBefore(answer, f.start, out[b].n);
  }

  lemma RisingPlaces(out: seq<Citation>, n: nat, m: nat) returns (a: nat, b: nat)
    requires Rising(out) && Lists(out, n) && Lists(out, m) && n < m
    ensures a < b < |out| && out[a].n == n && out[b].n == m
  {
    a :| 0 <= a < |out| && out[a].n == n;
    b :| 0 <= b < |out| && out[b].n == m;
  }

  /** In a rising list the smaller of two listed numbers is cited before any marker of the larger. */
  lemma SmallerCitedFirst(answer: string, out: seq<Citation>, n: nat, m: nat) returns (f: Span)
    requires FirstAppearances(answer, out) && Rising(out) && Lists(out, n) && Lists(out, m) && n < m
    ensures Cites(answer, f, n) && !CitedBefore(answer, f.start, m)
  {
    var a, b := RisingPlaces(out, n, m);
    f := AppearsFirst(answer, out, a, b);
  }

  lemma RisingMeansInOrder(answer: string, out: seq<Citation>, n: nat, m: nat, e: Span)
    requires FirstAppearances(answer, out) && Rising(out) && Lists(out, n) && Lists(out, m) && n < m
    requires Cites(answer, e, m)
    ensures CitedBefore(answer, e.start, n)
  {
    var f := SmallerCitedFirst(answer, out, n, m);
    MarkerCitesOne(answer, f, n, e, m);
  }

  /**
   * The list is sorted, as its documentation promises, if and only if the
   * answer never cites a number before a smaller one that it cites later for
   * the first time.
   */
  lemma SortedExactly(answer: string, built: BuiltPrompt, out: seq<Citation>)
    requires NumbersIn(out) == FirstOccurrences(Scanned(answer, 0), |built.idMap|)
    ensures Rising(out) <==> CitedInOrder(answer, |built.idMap|)
  {
    ListedExactly(answer, built, out);
    FirstAppearanceOrder(answer, out, |built.idMap|);
    if Rising(out) {
      forall n, m, e: Span |
        1 <= n < m <= |built.idMap| && Cites(answer, e, m) && CitedBefore(answer, |answer|, n)
        ensures CitedBefore(answer, e.start, n)
      {
        assert CitedBefore(answer, |answer|, m);
        RisingMeansInOrder(answer, out, n, m, e);
      }
    }
    if CitedInOrder(answer, |built.idMap|) {
      forall a, b | 0 <= a < b < |out| ensures out[a].n < out[b].n {
        assert Lists(out, out[a].n) && Lists(out, out[b].n);
        var f := AppearsFirst(answer, out, a, b);
      }
    }
  }
}

/** Rendering markers into an answer and extracting them again. */
module CitationRoundTrip {
  import opened Prelude
  import opened FiniteSets
  import opened Decimal
  import opened Scanner
  import opened Citations

  /** A marker and the text that follows it. */
  datatype Piece = Piece(number: nat, after: string)

  function Render(lead: string, pieces: seq<Piece>): string
    decreases |pieces|
  {
    if pieces == [] then lead
    else lead + ("[" + Show(pieces[0].number) + "]") + Render(pieces[0].after, pieces[1..])
  }

  function NumbersRendered(pieces: seq<Piece>): (ns: seq<nat>) {
    if pieces == [] then [] else [pieces[0].number] + NumbersRendered(pieces[1..])
  }

  /** Texts without '[', numbers that fit 64 bits. */
  ghost predicate Renderable(lead: string, pieces: seq<Piece>) {
    && '[' !in lead
    && forall k :: 0 <= k < |pieces| ==> '[' !in pieces[k].after && pieces[k].number <= USIZE_MAX
  }

  lemma MarkerAt(s: string, i: nat, digits: string, tail: string)
    requires i <= |s| && s[i..] == "[" + digits + "]" + tail && AllDigits(digits) && digits != ""
    ensures var m := Span(i, i + 2 + |digits|);
      IsMarker(s, m) && Digits(s, m) == digits && s[m.stop..] == tail
  {
    var t := s[i..];
    assert forall k :: 0 <= k < |t| ==> t[k] == s[i + k];
    assert t[0] == '[' && t[1 + |digits|] == ']';
    assert t[1..1 + |digits|] == digits && t[2 + |digits|..] == tail;
    assert s[i + 1..i + 1 + |digits|] == t[1..1 + |digits|];
    forall k | i < k < i + 1 + |digits| ensures IsDigit(s[k]) {
      assert s[k] == digits[k - i - 1];
    }
    assert s[i + 2 + |digits|..] == t[2 + |digits|..];
  }

  /** The scan passes over text before a marker. */
  lemma TextPassed(s: string, i: nat, lead: string, pieces: seq<Piece>)
    requires i <= |s| && s[i..] == Render(lead, pieces) && Renderable(lead, pieces) && lead != ""
    ensures i < |s| && MatchAt(s, i) == None
    ensures s[i + 1..] == Render(lead[1..], pieces) && Renderable(lead[1..], pieces)
  {
    LeadDropped(lead, pieces);
    assert s[i] == s[i..][0] == lead[0];
    assert lead[0] in lead;
    assert s[i + 1..] == s[i..][1..];
    assert forall c :: c in lead[1..] ==> c in lead;
  }

  /** The scan takes a rendered marker as one match with its number. */
  lemma MarkerTaken(s: string, i: nat, pieces: seq<Piece>) returns (m: Span)
    requires i <= |s| && s[i..] == Render("", pieces) && Renderable("", pieces) && pieces != []
    ensures i < |s| && MatchAt(s, i) == Some(m) && NumberOf(s, m) == pieces[0].number
    ensures s[m.stop..] == Render(pieces[0].after, pieces[1..]) && Renderable(pieces[0].after, pieces[1..])
  {
    var n, tail := pieces[0].number, Render(pieces[0].after, pieces[1..]);
    assert s[i..] == "[" + Show(n) + "]" + tail;
    MarkerAt(s, i, Show(n), tail);
    m := Span(i, i + 2 + |Show(n)|);
    MatchAtComplete(s, m);
    ValueOfShow(n);
  }

  lemma {:induction false} ScanRendered(s: string, i: nat, lead: string, pieces: seq<Piece>)
    requires i <= |s| && s[i..] == Render(lead, pieces) && Renderable(lead, pieces)
    ensures Scanned(s, i) == NumbersRendered(pieces)
    decreases |s| - i
  {
    if lead != "" {
      TextPassed(s, i, lead, pieces);
      ScanStep(s, i);
      ScanRendered(s, i + 1, lead[1..], pieces);
    } else if pieces != [] {
      var m := MarkerTaken(s, i, pieces);
      ScanStep(s, i);
      ScanRendered(s, m.stop, pieces[0].after, pieces[1..]);
    }
  }

  lemma LeadDropped(lead: string, pieces: seq<Piece>)
    requires lead != ""
    ensures Render(lead, pieces) != "" && Render(lead, pieces)[0] == lead[0]
    ensures Render(lead, pieces)[1..] == Render(lead[1..], pieces)
  {
  }

  /**
   * Markers rendered between texts without '[' are extracted in their order,
   * repeats and numbers out of range dropped; distinct numbers in range come
   * back exactly.
   */
  lemma RoundTrip(lead: string, pieces: seq<Piece>, limit: nat)
    requires Renderable(lead, pieces)
    ensures var answer := Render(lead, pieces);
      && FirstOccurrences(Scanned(answer, 0), limit) == FirstOccurrences(NumbersRendered(pieces), limit)
      && (Distinct(NumbersRendered(pieces))
          && (forall k :: 0 <= k < |NumbersRendered(pieces)| ==> 1 <= NumbersRendered(pieces)[k] <= limit) ==>
            FirstOccurrences(Scanned(answer, 0), limit) == NumbersRendered(pieces))
  {
    var answer := Render(lead, pieces);
    assert answer[0..] == answer;
    ScanRendered(answer, 0, lead, pieces);
    var ns := NumbersRendered(pieces);
    if Distinct(ns) && forall k :: 0 <= k < |ns| ==> 1 <= ns[k] <= limit {
      assert [] + ns == ns;
      GatherDistinct([], ns, limit);
    }
  }

  lemma TwoNumbers(a: nat, b: nat)
    ensures NumbersRendered([Piece(a, ""), Piece(b, "")]) == [a, b]
  {
    var last := [Piece(b, "")];
    assert last[1..] == [] && NumbersRendered(last) == [b];
    assert [Piece(a, ""), Piece(b, "")][1..] == last;
  }

  /** The order is that of first appearance, not sorted: two falling numbers come back falling. */
  lemma NotSorted(a: nat, b: nat, limit: nat)
    requires 1 <= b < a <= limit <= USIZE_MAX
    ensures FirstOccurrences(Scanned(Render("", [Piece(a, ""), Piece(b, "")]), 0), limit) == [a, b]
  {
    TwoNumbers(a, b);
    RoundTrip("", [Piece(a, ""), Piece(b, "")], limit);
  }
}

/** The ask flow: build the prompt, complete it, resolve the citations of the answer. */
module AskFlow {
  import opened Prelude
  import opened Decimal
  import opened Prompt
  import opened Citations
  import opened Scanner

  datatype AskResult = AskResult(answer: string, citations: seq<Citation>, chunksInPrompt: nat, droppedForBudget: nat)

  /** `prompt` and `places` are the prompt that was completed, and where it shows which chunk. */
  method Ask(question: string, chunks: seq<PromptChunk>, budget: I32, complete: string -> Result<string, CoreError>)
    returns (r: Result<AskResult, CoreError>, ghost prompt: string, ghost places: seq<Place>)
    requires |chunks| <= USIZE_MAX
    ensures r.Err? <==>
      || budget <= 0 || chunks == [] || chunks[0].tokenCount > budget
      || complete(PromptText(question, Selected(chunks, Included(chunks, budget, |chunks|)))).Err?
    ensures r.Ok? ==>
      && complete(prompt) == Ok(r.value.answer)
      && r.value.chunksInPrompt == |Included(chunks, budget, |chunks|)| == |places|
      && r.value.chunksInPrompt + r.value.droppedForBudget == |chunks|
    ensures r.Ok? ==>
      var picked := Selected(chunks, Included(chunks, budget, |chunks|));
      forall k :: 0 <= k < |r.value.citations| ==>
        var c := r.value.citations[k];
        && 1 <= c.n <= |places| == |picked|
        && c == Citation(c.n, picked[c.n - 1].chunkId, picked[c.n - 1].documentId, picked[c.n - 1].ord)
        && places[c.n - 1].start <= places[c.n - 1].stop <= |prompt|
        && prompt[places[c.n - 1].start..places[c.n - 1].stop] == "[" + Show(c.n) + "] " + picked[c.n - 1].text + "\n\n"
    ensures r.Ok? ==>
      NumbersIn(r.value.citations) == FirstOccurrences(Scanned(r.value.answer, 0), r.value.chunksInPrompt)
  {
    prompt := "";
    var built;
    built, places := BuildAskPrompt(question, chunks, budget);
    if built.Err? {
      return Err(built.error), prompt, places;
    }
    prompt := built.value.promptText;
    var completion := complete(built.value.promptText);
    if completion.Err? {
      return Err(completion.error), prompt, places;
    }
    var citations := ExtractCitations(completion.value, built.value);
    assert forall k :: 0 <= k < |citations| ==> Resolves(built.value, citations[k]);
    return Ok(AskResult(completion.value, citations, |built.value.idMap|, built.value.droppedCount)), prompt, places;
  }
}
