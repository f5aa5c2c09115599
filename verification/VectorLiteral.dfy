/**
 * The text form `[v1,v2,...]` of a vector: printing, parsing, and that each
 * undoes the other. How a single number is printed and read is left open.
 */
module VectorLiteral {
  import opened Prelude
  import opened Sequences
  import Decimal

  type Show = real -> string
  type Read = string -> Option<real>

  /** Unicode White_Space, which trimming removes. */
  predicate IsSpace(c: char) {
    var n := c as int;
    || 0x9 <= n <= 0xD || n == 0x20 || n == 0x85 || n == 0xA0 || n == 0x1680
    || 0x2000 <= n <= 0x200A || n == 0x2028 || n == 0x2029 || n == 0x202F || n == 0x205F || n == 0x3000
  }

  function TrimStart(s: string): string {
    if s != "" && IsSpace(s[0]) then TrimStart(s[1..]) else s
  }

  function TrimEnd(s: string): string {
    if s != "" && IsSpace(s[|s| - 1]) then TrimEnd(s[..|s| - 1]) else s
  }

  function Trim(s: string): string {
    TrimEnd(TrimStart(s))
  }

  /** Splits `s` at every comma, `current` being the part under way. */
  function SplitRest(current: string, s: string): seq<string>
    decreases |s|
  {
    if s == "" then [current]
    else if s[0] == ',' then [current] + SplitRest("", s[1..])
    else SplitRest(current + [s[0]], s[1..])
  }

  /** The empty string is one empty part. */
  function Split(s: string): seq<string> {
    SplitRest("", s)
  }

  function Join(parts: seq<string>): string {
    if parts == [] then ""
    else if |parts| == 1 then parts[0]
    else parts[0] + ("," + Join(parts[1..]))
  }

  function ShowAll(show: Show, v: seq<real>): (parts: seq<string>)
    ensures |parts| == |v| && forall i :: 0 <= i < |v| ==> parts[i] == show(v[i])
  {
    seq(|v|, i requires 0 <= i < |v| => show(v[i]))
  }

  function Literal(show: Show, v: seq<real>): string {
    "[" + Join(ShowAll(show, v)) + "]"
  }

  /** Every part trimmed and read; one failure fails all. */
  function ReadAll(read: Read, parts: seq<string>): Option<seq<real>> {
    if parts == [] then Some([])
    else
      var n := |parts| - 1;
      match ReadAll(read, parts[..n])
      case None => None
      case Some(front) =>
        match read(Trim(parts[n]))
        case None => None
        case Some(x) => Some(front + [x])
  }

  /** What is between the brackets of a trimmed literal. */
  function Inner(s: string): Option<string> {
    var t := Trim(s);
    if |t| >= 2 && t[0] == '[' && t[|t| - 1] == ']' then Some(t[1..|t| - 1]) else None
  }

  function Parsed(read: Read, s: string): Option<seq<real>> {
    match Inner(s)
    case None => None
    case Some(inner) => if inner == "" then Some([]) else ReadAll(read, Split(inner))
  }

  lemma {:induction false} JoinAppended(parts: seq<string>, part: string)
    ensures Join(parts + [part]) == if parts == [] then part else Join(parts) + ("," + part)
    decreases |parts|
  {
    var all := parts + [part];
    if |parts| > 1 {
      var rest, last := "," + Join(parts[1..]), "," + part;
      JoinAppended(parts[1..], part);
      assert all[0] == parts[0] && all[1..] == parts[1..] + [part];
      ConcatAssociative(",", Join(parts[1..]), last);
      ConcatAssociative(parts[0], rest, last);
    } else if |parts| == 1 {
      assert all[1..] == [part];
    }
  }

  method PrintVector(show: Show, v: seq<real>) returns (s: string)
    ensures s == Literal(show, v)
  {
    s := "[";
    var first := true;
    for i := 0 to |v|
      invariant first <==> i == 0
      invariant s == "[" + Join(ShowAll(show, v[..i]))
    {
      JoinShown(show, v, i);
      ghost var body := Join(ShowAll(show, v[..i]));
      if !first {
        ConcatAssociative("[", body, ",");
        ConcatAssociative("[", body + ",", show(v[i]));
        ConcatAssociative(body, ",", show(v[i]));
        s := s + ",";
      }
      first := false;
      s := s + show(v[i]);
    }
    assert v[..|v|] == v;
    s := s + "]";
  }

  lemma JoinShown(show: Show, v: seq<real>, i: nat)
    requires i < |v|
    ensures var body := Join(ShowAll(show, v[..i]));
      Join(ShowAll(show, v[..i + 1])) == if i == 0 then show(v[i]) else body + ("," + show(v[i]))
  {
    JoinAppended(ShowAll(show, v[..i]), show(v[i]));
    assert ShowAll(show, v[..i + 1]) == ShowAll(show, v[..i]) + [show(v[i])];
  }

  lemma MoveOver(parts: seq<string>, part: string, rest: seq<string>)
    ensures parts + ([part] + rest) == (parts + [part]) + rest
  {
  }

  /** The parts of `s`, one character at a time. */
  method SplitAtCommas(s: string) returns (parts: seq<string>)
    ensures parts == Split(s)
  {
    parts := [];
    var current := "";
    assert s[0..] == s;
    for i := 0 to |s|
      invariant Split(s) == parts + SplitRest(current, s[i..])
    {
      assert s[i..][1..] == s[i + 1..] && s[i..][0] == s[i];
      if s[i] == ',' {
        MoveOver(parts, current, SplitRest("", s[i + 1..]));
        parts, current := parts + [current], "";
      } else {
        current := current + [s[i]];
      }
    }
    parts := parts + [current];
  }

  method ParseVectorLiteral(read: Read, s: string) returns (r: Option<seq<real>>)
    ensures r == Parsed(read, s)
  {
    var t := Trim(s);
    if |t| < 2 || t[0] != '[' || t[|t| - 1] != ']' {
      return None;
    }
    var inner := t[1..|t| - 1];
    if inner == "" {
      return Some([]);
    }
    var parts := SplitAtCommas(inner);
    var out := [];
    for i := 0 to |parts|
      invariant ReadAll(read, parts[..i]) == Some(out)
    {
      assert parts[..i + 1][..i] == parts[..i];
      var x := read(Trim(parts[i]));
      if x.None? {
        ReadAllFails(read, parts, i + 1);
        return None;
      }
      out := out + [x.value];
    }
    assert parts[..|parts|] == parts;
    return Some(out);
  }

  lemma {:induction false} ReadAllFails(read: Read, parts: seq<string>, i: nat)
    requires i <= |parts| && ReadAll(read, parts[..i]) == None
    ensures ReadAll(read, parts) == None
    decreases |parts| - i
  {
    if i == |parts| {
      assert parts[..i] == parts;
    } else {
      assert parts[..i + 1][..i] == parts[..i];
      ReadAllFails(read, parts, i + 1);
    }
  }

  /** Part `i`, trimmed, reads as the number at its place. */
  ghost predicate ReadsAt(read: Read, parts: seq<string>, v: seq<real>, i: nat)
    requires i < |parts| == |v|
  {
    read(Trim(parts[i])) == Some(v[i])
  }

  ghost predicate ReadsEach(read: Read, parts: seq<string>, v: seq<real>) {
    |v| == |parts| && forall i :: 0 <= i < |parts| ==> ReadsAt(read, parts, v, i)
  }

  lemma {:induction false} ReadAllSound(read: Read, parts: seq<string>, v: seq<real>)
    requires ReadAll(read, parts) == Some(v)
    ensures ReadsEach(read, parts, v)
    decreases |parts|
  {
    if parts != [] {
      var n := |parts| - 1;
      var front := ReadAll(read, parts[..n]).value;
      ReadAllSound(read, parts[..n], front);
      assert v == front + [read(Trim(parts[n])).value];
      forall i | 0 <= i < |parts| ensures ReadsAt(read, parts, v, i) {
        assert i < n ==> ReadsAt(read, parts[..n], front, i);
      }
    }
  }

  lemma {:induction false} ReadAllComplete(read: Read, parts: seq<string>, v: seq<real>)
    requires ReadsEach(read, parts, v)
    ensures ReadAll(read, parts) == Some(v)
    decreases |parts|
  {
    if parts != [] {
      var n := |parts| - 1;
      forall i | 0 <= i < n ensures ReadsAt(read, parts[..n], v[..n], i) {
        assert ReadsAt(read, parts, v, i);
      }
      ReadAllComplete(read, parts[..n], v[..n]);
      assert ReadsAt(read, parts, v, n);
      assert v == v[..n] + [v[n]];
    }
  }

  /** Parsing the parts succeeds with `v` exactly if each part, trimmed, reads as the number at its place. */
  lemma ReadAllExact(read: Read, parts: seq<string>, v: seq<real>)
    ensures ReadAll(read, parts) == Some(v) <==> ReadsEach(read, parts, v)
  {
    if ReadAll(read, parts) == Some(v) {
      ReadAllSound(read, parts, v);
    }
    if ReadsEach(read, parts, v) {
      ReadAllComplete(read, parts, v);
    }
  }

  /** `x` prints to a non-empty text without commas or white space that reads back as `x`. */
  ghost predicate PrintsFaithfully(show: Show, read: Read, x: real) {
    show(x) != "" && Plain(show(x)) && read(show(x)) == Some(x)
  }

  /** Every number of the vector does. */
  ghost predicate Faithful(show: Show, read: Read, v: seq<real>) {
    forall i :: 0 <= i < |v| ==> PrintsFaithfully(show, read, v[i])
  }

  /** Every number that some text reads as does. */
  ghost predicate PrintsWhatItReads(show: Show, read: Read) {
    forall t :: read(t).Some? ==> PrintsFaithfully(show, read, read(t).value)
  }

  ghost predicate Plain(s: string) {
    forall i :: 0 <= i < |s| ==> s[i] != ',' && !IsSpace(s[i])
  }

  /** Splitting takes a comma-free part off. */
  lemma {:induction false} SplitFirst(current: string, p: string, rest: string)
    requires ',' !in p
    ensures SplitRest(current, p + ("," + rest)) == [current + p] + Split(rest)
    decreases |p|
  {
    var s := p + ("," + rest);
    if p == "" {
      assert s == "," + rest && s[1..] == rest && current + p == current;
    } else {
      SplitFirst(current + [p[0]], p[1..], rest);
      assert s[0] == p[0] && s[1..] == p[1..] + ("," + rest);
      assert (current + [p[0]]) + p[1..] == current + p;
    }
  }

  lemma {:induction false} SplitSingle(current: string, p: string)
    requires ',' !in p
    ensures SplitRest(current, p) == [current + p]
    decreases |p|
  {
    if p == "" {
      assert current + p == current;
    } else {
      SplitSingle(current + [p[0]], p[1..]);
      assert (current + [p[0]]) + p[1..] == current + p;
    }
  }

  ghost predicate NoCommas(parts: seq<string>) {
    forall i :: 0 <= i < |parts| ==> ',' !in parts[i]
  }

  lemma {:induction false} SplitUndoesJoin(parts: seq<string>)
    requires parts != [] && NoCommas(parts)
    ensures Split(Join(parts)) == parts
    decreases |parts|
  {
    if |parts| == 1 {
      SplitSingle("", parts[0]);
      assert "" + parts[0] == parts[0];
    } else {
      SplitUndoesJoin(parts[1..]);
      SplitFirst("", parts[0], Join(parts[1..]));
      assert "" + parts[0] == parts[0];
    }
  }

  lemma {:induction false} SplitParts(current: string, s: string)
    requires ',' !in current
    ensures SplitRest(current, s) != [] && NoCommas(SplitRest(current, s)) && Join(SplitRest(current, s)) == current + s
    decreases |s|
  {
    if s == "" {
      assert current + s == current;
    } else if s[0] == ',' {
      SplitParts("", s[1..]);
      var rest := SplitRest("", s[1..]);
      assert ([current] + rest)[1..] == rest;
      assert "" + s[1..] == s[1..] && "," + s[1..] == s;
    } else {
      SplitParts(current + [s[0]], s[1..]);
      assert (current + [s[0]]) + s[1..] == current + s;
    }
  }

  /** Splitting at commas gives the one list of comma-free parts that joined with commas is the text. */
  lemma SplitExactly(s: string, parts: seq<string>)
    ensures Split(s) == parts <==> parts != [] && NoCommas(parts) && Join(parts) == s
  {
    SplitParts("", s);
    assert "" + s == s;
    if parts != [] && NoCommas(parts) && Join(parts) == s {
      SplitUndoesJoin(parts);
    }
  }

  lemma BracketsOff(inner: string)
    ensures var t := "[" + inner + "]"; |t| >= 2 && t[..|t| - 1] == "[" + inner
  {
  }

  lemma ShownAppended(show: Show, v: seq<real>, x: real)
    ensures ShowAll(show, v + [x]) == ShowAll(show, v) + [show(x)]
  {
  }

  /** The text of a literal: brackets around the numbers, a comma before each but the first. */
  lemma LiteralText(show: Show, v: seq<real>, x: real)
    ensures Literal(show, []) == "[]" && Literal(show, [x]) == "[" + show(x) + "]"
    ensures v != [] ==>
      Literal(show, v + [x]) == Literal(show, v)[..|Literal(show, v)| - 1] + ("," + show(x)) + "]"
  {
    var parts := ShowAll(show, v);
    assert ShowAll(show, [x]) == [show(x)];
    ShownAppended(show, v, x);
    JoinAppended(parts, show(x));
    BracketsOff(Join(parts));
    ConcatAssociative("[", Join(parts), "," + show(x));
  }

  ghost predicate Spaces(s: string) {
    forall i :: 0 <= i < |s| ==> IsSpace(s[i])
  }

  lemma {:induction false} TrimStartSkips(pre: string, s: string)
    requires Spaces(pre)
    ensures TrimStart(pre + s) == TrimStart(s)
    decreases |pre|
  {
    if pre == "" {
      assert pre + s == s;
    } else {
      assert (pre + s)[1..] == pre[1..] + s;
      TrimStartSkips(pre[1..], s);
    }
  }

  lemma {:induction false} TrimEndSkips(s: string, post: string)
    requires Spaces(post)
    ensures TrimEnd(s + post) == TrimEnd(s)
    decreases |post|
  {
    if post == "" {
      assert s + post == s;
    } else {
      var n := |post| - 1;
      assert (s + post)[..|s + post| - 1] == s + post[..n];
      TrimEndSkips(s, post[..n]);
    }
  }

  lemma {:induction false} TrimStartBefore(s: string, post: string)
    requires Spaces(post)
    ensures TrimStart(s + post) == TrimStart(s) + post || (TrimStart(s) == "" && TrimStart(s + post) == "")
    decreases |s|
  {
    if s == "" {
      TrimStartSkips(post, "");
      assert s + post == post && post + "" == post;
    } else if IsSpace(s[0]) {
      assert (s + post)[1..] == s[1..] + post;
      TrimStartBefore(s[1..], post);
    }
  }

  /** White space around a text makes no difference to what is left of it. */
  lemma TrimPadded(pre: string, s: string, post: string)
    requires Spaces(pre) && Spaces(post)
    ensures Trim(pre + s + post) == Trim(s)
  {
    assert pre + s + post == pre + (s + post);
    TrimStartSkips(pre, s + post);
    TrimStartBefore(s, post);
    TrimEndSkips(TrimStart(s), post);
  }

  /** Blanks, tabs and line ends are white space, so padding with them changes no result. */
  lemma PaddingIgnored(read: Read, pre: string, s: string, post: string)
    requires forall i :: 0 <= i < |pre| ==> pre[i] in " \t\n\r"
    requires forall i :: 0 <= i < |post| ==> post[i] in " \t\n\r"
    ensures Trim(pre + s + post) == Trim(s) && Parsed(read, pre + s + post) == Parsed(read, s)
  {
    TrimPadded(pre, s, post);
  }

  lemma {:induction false} TrimStartParts(s: string) returns (pre: string)
    ensures s == pre + TrimStart(s) && Spaces(pre)
  {
    if s != "" && IsSpace(s[0]) {
      var rest := TrimStartParts(s[1..]);
      pre := [s[0]] + rest;
      assert s == [s[0]] + s[1..];
    } else {
      pre := "";
    }
  }

  lemma {:induction false} TrimEndParts(s: string) returns (post: string)
    ensures s == TrimEnd(s) + post && Spaces(post)
  {
    if s != "" && IsSpace(s[|s| - 1]) {
      var n := |s| - 1;
      var rest := TrimEndParts(s[..n]);
      post := rest + [s[n]];
      assert s == s[..n] + [s[n]];
    } else {
      post := "";
    }
  }

  /** The text is `inner` in brackets, with white space around. */
  ghost predicate Brackets(s: string, pre: string, inner: string, post: string) {
    Spaces(pre) && Spaces(post) && s == pre + ("[" + inner + "]") + post
  }

  lemma TrimBare(t: string)
    requires t != "" && !IsSpace(t[0]) && !IsSpace(t[|t| - 1])
    ensures Trim(t) == t
  {
  }

  lemma InnerOf(s: string, t: string, inner: string)
    requires Trim(s) == t && |t| == |inner| + 2 && t[0] == '[' && t[|t| - 1] == ']' && t[1..|t| - 1] == inner
    ensures Inner(s) == Some(inner)
  {
  }

  lemma BracketsInner(s: string, pre: string, inner: string, post: string)
    requires Brackets(s, pre, inner, post)
    ensures Inner(s) == Some(inner)
  {
    var t := "[" + inner + "]";
    TrimPadded(pre, t, post);
    TrimBare(t);
    InnerOf(s, t, inner);
  }

  lemma Bracketed(t: string, inner: string)
    requires |t| >= 2 && t[0] == '[' && t[|t| - 1] == ']' && inner == t[1..|t| - 1]
    ensures t == "[" + inner + "]"
  {
  }

  lemma InnerExactly(s: string, inner: string)
    ensures Inner(s) == Some(inner) <==> exists pre, post :: Brackets(s, pre, inner, post)
  {
    if Inner(s) == Some(inner) {
      Bracketed(Trim(s), inner);
      var pre := TrimStartParts(s);
      var post := TrimEndParts(TrimStart(s));
      ConcatAssociative(pre, Trim(s), post);
      assert Brackets(s, pre, inner, post);
    }
    if pre, post :| Brackets(s, pre, inner, post) {
      BracketsInner(s, pre, inner, post);
    }
  }

  /** Nothing, or the texts of the numbers, free of commas and joined with commas. */
  ghost predicate Lists(read: Read, inner: string, v: seq<real>) {
    if inner == "" then v == []
    else exists parts :: parts != [] && NoCommas(parts) && Join(parts) == inner && ReadsEach(read, parts, v)
  }

  /** A text parses to `v` if and only if it lists the numbers of `v` in brackets, white space around them aside. */
  lemma ParsesExactly(read: Read, s: string, v: seq<real>)
    ensures Parsed(read, s) == Some(v) <==>
      exists pre, inner, post :: Brackets(s, pre, inner, post) && Lists(read, inner, v)
  {
    if Parsed(read, s) == Some(v) {
      var inner := Inner(s).value;
      InnerExactly(s, inner);
      SplitExactly(inner, Split(inner));
      ReadAllExact(read, Split(inner), v);
    }
    if pre, inner, post :| Brackets(s, pre, inner, post) && Lists(read, inner, v) {
      InnerExactly(s, inner);
      if inner != "" {
        var parts :| parts != [] && NoCommas(parts) && Join(parts) == inner && ReadsEach(read, parts, v);
        SplitExactly(inner, parts);
        ReadAllExact(read, parts, v);
      }
    }
  }

  lemma TrimPlain(s: string)
    requires Plain(s)
    ensures Trim(s) == s
  {
  }

  lemma ReadAllAppended(read: Read, parts: seq<string>, p: string, v: seq<real>, x: real)
    requires ReadAll(read, parts) == Some(v) && read(Trim(p)) == Some(x)
    ensures ReadAll(read, parts + [p]) == Some(v + [x])
  {
    assert (parts + [p])[..|parts|] == parts;
  }

  lemma {:induction false} ReadAllShown(show: Show, read: Read, v: seq<real>)
    requires Faithful(show, read, v)
    ensures ReadAll(read, ShowAll(show, v)) == Some(v)
    decreases |v|
  {
    if v != [] {
      var n := |v| - 1;
      assert Faithful(show, read, v[..n]) by {
        assert forall i :: 0 <= i < n ==> v[..n][i] == v[i];
      }
      ReadAllShown(show, read, v[..n]);
      assert PrintsFaithfully(show, read, v[n]);
      TrimPlain(show(v[n]));
      ReadAllAppended(read, ShowAll(show, v[..n]), show(v[n]), v[..n], v[n]);
      assert ShowAll(show, v) == ShowAll(show, v[..n]) + [show(v[n])];
      assert v == v[..n] + [v[n]];
    }
  }

  /** Parsing undoes printing for every vector whose numbers print faithfully, the empty one included. */
  lemma RoundTrip(show: Show, read: Read, v: seq<real>)
    requires Faithful(show, read, v)
    ensures Parsed(read, Literal(show, v)) == Some(v)
  {
    var parts := ShowAll(show, v);
    var inner := Join(parts);
    var s := "[" + inner + "]";
    assert s[0] == '[' && s[|s| - 1] == ']' && s[1..|s| - 1] == inner;
    assert Trim(s) == s;
    if v != [] {
      assert forall i :: 0 <= i < |v| ==> PrintsFaithfully(show, read, v[i]);
      assert inner != "" by {
        assert parts[0] != "";
      }
      assert NoCommas(parts);
      SplitUndoesJoin(parts);
      ReadAllShown(show, read, v);
    }
  }

  /** Printing what was parsed and parsing it again changes nothing, whatever the white space of the original. */
  lemma PrintingIsCanonical(show: Show, read: Read, s: string)
    requires PrintsWhatItReads(show, read) && Parsed(read, s).Some?
    ensures Parsed(read, Literal(show, Parsed(read, s).value)) == Parsed(read, s)
  {
    var v := Parsed(read, s).value;
    var inner := Inner(s).value;
    if inner != "" {
      ReadAllSound(read, Split(inner), v);
      forall i | 0 <= i < |v| ensures PrintsFaithfully(show, read, v[i]) {
        assert ReadsAt(read, Split(inner), v, i);
      }
    }
    RoundTrip(show, read, v);
  }

  /** Decimal numerals print and read the natural numbers. */
  function ShowNatural(x: real): string {
    if x >= 0.0 then Decimal.Show(x.Floor) else "-"
  }

  function ReadNatural(t: string): Option<real> {
    if t != "" && Decimal.AllDigits(t) then Some(Decimal.Value(t) as real) else None
  }

  lemma NaturalPrints(n: nat)
    ensures PrintsFaithfully(ShowNatural, ReadNatural, n as real)
  {
    var s := ShowNatural(n as real);
    Decimal.ValueOfShow(n);
    forall i | 0 <= i < |s| ensures s[i] != ',' && !IsSpace(s[i]) {
      assert Decimal.IsDigit(s[i]);
    }
  }

  /** The hypotheses can be met: numerals print faithfully whatever they read. */
  lemma NumeralsAreFaithful()
    ensures PrintsWhatItReads(ShowNatural, ReadNatural)
  {
    forall t | ReadNatural(t).Some? ensures PrintsFaithfully(ShowNatural, ReadNatural, ReadNatural(t).value) {
      NaturalPrints(Decimal.Value(t));
    }
  }

  /** The hypothesis on empty texts is needed: a number printed as nothing makes [x] read as the empty vector. */
  lemma EmptyTextLosesTheNumber(show: Show, read: Read, x: real)
    requires show(x) == ""
    ensures Parsed(read, Literal(show, [x])) == Some([])
  {
    var s := "[" + Join(ShowAll(show, [x])) + "]";
    assert s == "[]";
    assert Trim("[]") == "[]";
    assert "[]"[1..1] == "";
  }
}
