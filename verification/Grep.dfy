/** The matcher and the line loop of user/grep.c.

    A C string is the sequence of its characters without the final NUL, and advancing a text
    pointer is dropping characters from the front.  The meaning of a pattern is declarative: the
    text splits into pieces, one for each item of the pattern. */
module Grep {
  const BUF: nat := 1024
  const NUL: char := 0 as char

  // ---------------------------------------------------------------- what a pattern means

  datatype Atom = Any | Exactly(c: char)
  datatype Item = One(a: Atom) | Star(a: Atom)
  datatype Regex = Regex(start: bool, items: seq<Item>, end: bool)

  function ToAtom(c: char): Atom { if c == '.' then Any else Exactly(c) }

  predicate Accepts(a: Atom, c: char) { a == Any || a == Exactly(c) }

  /** The piece of text p is an instance of the item. */
  predicate Instance(it: Item, p: string) {
    match it
    case One(a) => |p| == 1 && Accepts(a, p[0])
    case Star(a) => forall i :: 0 <= i < |p| ==> Accepts(a, p[i])
  }

  function Concat(pieces: seq<string>): string {
    if pieces == [] then [] else pieces[0] + Concat(pieces[1..])
  }

  predicate Fits(items: seq<Item>, pieces: seq<string>) {
    |items| == |pieces| && forall i :: 0 <= i < |items| ==> Instance(items[i], pieces[i])
  }

  /** The text is before ++ pieces ++ after, as the anchors allow. */
  predicate Splits(r: Regex, text: string, before: string, pieces: seq<string>, after: string) {
    && Fits(r.items, pieces) && text == before + Concat(pieces) + after
    && (r.start ==> before == []) && (r.end ==> after == [])
  }

  ghost predicate Matches(r: Regex, text: string) {
    exists before, pieces, after :: Splits(r, text, before, pieces, after)
  }

  /** A character followed by '*' is starred, whatever it is; a '$' is an anchor only as the
      last character and only if it is not starred. */
  function Body(re: string): Regex {
    if re == [] then Regex(true, [], false)
    else if |re| > 1 && re[1] == '*' then
      var r := Body(re[2..]); r.(items := [Star(ToAtom(re[0]))] + r.items)
    else if re == "$" then Regex(true, [], true)
    else var r := Body(re[1..]); r.(items := [One(ToAtom(re[0]))] + r.items)
  }

  function Compile(re: string): Regex {
    if re != [] && re[0] == '^' then Body(re[1..]) else Body(re).(start := false)
  }

  lemma {:induction false} BodyStarts(re: string)
    ensures Body(re).start
  {
    if re != [] {
      if |re| > 1 && re[1] == '*' { BodyStarts(re[2..]); } else if re != "$" { BodyStarts(re[1..]); }
    }
  }

  // ---------------------------------------------------------------- how patterns are written

  function Sign(it: Item): char { if it.a == Any then '.' else it.a.c }

  function WriteItem(it: Item): string { if it.Star? then [Sign(it), '*'] else [Sign(it)] }

  function WriteItems(items: seq<Item>, end: bool): string {
    if items == [] then (if end then "$" else "") else WriteItem(items[0]) + WriteItems(items[1..], end)
  }

  function Write(r: Regex): string { (if r.start then "^" else "") + WriteItems(r.items, r.end) }

  /** Items that can be written down: a dot is no ordinary character, a '*' that is one stands first
      or behind a starred item, and a '$' that is one does not stand last. */
  predicate Plain(items: seq<Item>, end: bool) {
    && (forall k :: 0 <= k < |items| ==> items[k].a != Exactly('.'))
    && (forall k :: 1 <= k < |items| && Sign(items[k]) == '*' ==> items[k - 1].Star?)
    && (items != [] && !end ==> items[|items| - 1] != One(Exactly('$')))
  }

  /** And a '^' that is one does not stand first without an anchor. */
  predicate Writable(r: Regex) {
    Plain(r.items, r.end) && (!r.start && r.items != [] ==> Sign(r.items[0]) != '^')
  }

  /** A dot stands for every character, and every other character for itself. */
  lemma AtomMeans(c: char, x: char)
    ensures Accepts(ToAtom(c), x) <==> c == '.' || c == x
  {
  }

  lemma FirstSign(items: seq<Item>, end: bool)
    ensures items != [] ==> WriteItems(items, end) != [] && WriteItems(items, end)[0] == Sign(items[0])
  {
  }

  lemma BodyNone(end: bool)
    ensures Body(if end then "$" else "") == Regex(true, [], end)
  {
  }

  /** The first item of a body. */
  lemma BodyStep(re: string)
    requires re != [] && re != "$"
    ensures if |re| > 1 && re[1] == '*'
            then Body(re) == Body(re[2..]).(items := [Star(ToAtom(re[0]))] + Body(re[2..]).items)
            else Body(re) == Body(re[1..]).(items := [One(ToAtom(re[0]))] + Body(re[1..]).items)
  {
  }

  /** An item in front of a body, unless it would be read as something else. */
  lemma BodyFirst(it: Item, rest: string)
    requires it.a != Exactly('.') && (it.One? && rest != [] ==> rest[0] != '*')
    requires it != One(Exactly('$')) || rest != []
    ensures Body(WriteItem(it) + rest) == Body(rest).(items := [it] + Body(rest).items)
  {
    hide Body;
    var re := WriteItem(it) + rest;
    assert re[0] == Sign(it) && ToAtom(re[0]) == it.a;
    if it.Star? {
      assert re[1] == '*' && re[2..] == rest;
    } else {
      assert re[1..] == rest && (rest != [] ==> re[1] == rest[0]);
    }
    BodyStep(re);
  }

  lemma {:induction false} BodyOf(items: seq<Item>, end: bool)
    requires Plain(items, end)
    ensures Body(WriteItems(items, end)) == Regex(true, items, end)
    decreases |items|
  {
    hide Body;
    if items == [] {
      BodyNone(end);
    } else {
      assert Plain(items[1..], end);
      BodyOf(items[1..], end);
      FirstSign(items[1..], end);
      assert items == [items[0]] + items[1..];
      BodyFirst(items[0], WriteItems(items[1..], end));
    }
  }

  lemma PlainMore(it: Item, items: seq<Item>, end: bool)
    requires Plain(items, end) && it.a != Exactly('.') && (items != [] && Sign(items[0]) == '*' ==> it.Star?)
    requires items == [] && !end ==> it != One(Exactly('$'))
    ensures Plain([it] + items, end)
  {
    var all := [it] + items;
    forall k | 1 <= k < |all| && Sign(all[k]) == '*' ensures all[k - 1].Star? {
      assert all[k] == items[k - 1] && (k > 1 ==> all[k - 1] == items[k - 2]);
    }
  }

  lemma NoItems(re: string)
    requires re == [] || re == "$"
    ensures var r := Body(re); r.start && WriteItems(r.items, r.end) == re && Plain(r.items, r.end)
  {
  }

  lemma FirstWritten(it: Item, items: seq<Item>, end: bool)
    ensures WriteItems([it] + items, end) == WriteItem(it) + WriteItems(items, end)
  {
    assert ([it] + items)[1..] == items;
  }

  lemma NotLast(items: seq<Item>, end: bool)
    ensures items == [] && !end ==> WriteItems(items, end) == []
  {
  }

  lemma {:induction false} BodyBack(re: string)
    ensures WriteItems(Body(re).items, Body(re).end) == re && Plain(Body(re).items, Body(re).end) && Body(re).start
    decreases |re|
  {
    hide Plain, WriteItems, Body;
    if re == [] || re == "$" {
      NoItems(re);
    } else if |re| > 1 && re[1] == '*' {
      var r, it := Body(re[2..]), Star(ToAtom(re[0]));
      BodyStep(re);
      BodyBack(re[2..]);
      FirstWritten(it, r.items, r.end);
      assert re == [re[0], '*'] + re[2..];
      PlainMore(it, r.items, r.end);
    } else {
      var r, it := Body(re[1..]), One(ToAtom(re[0]));
      BodyStep(re);
      BodyBack(re[1..]);
      FirstWritten(it, r.items, r.end);
      assert re == [re[0]] + re[1..];
      FirstSign(r.items, r.end);
      NotLast(r.items, r.end);
      PlainMore(it, r.items, r.end);
    }
  }

  /** Every pattern is one writable regular expression written down, and that one only. */
  lemma WriteCompile(re: string, r: Regex)
    ensures Write(Compile(re)) == re && Writable(Compile(re))
    ensures Writable(r) ==> Compile(Write(r)) == r
  {
    hide Body, Plain;
    if re != [] && re[0] == '^' {
      BodyBack(re[1..]);
    } else {
      BodyBack(re);
      FirstSign(Body(re).items, Body(re).end);
    }
    if Writable(r) {
      BodyOf(r.items, r.end);
      FirstSign(r.items, r.end);
      assert r.start ==> Write(r)[1..] == WriteItems(r.items, r.end);
      assert !r.start ==> Write(r) == WriteItems(r.items, r.end);
    }
  }

  // ---------------------------------------------------------------- how matches decompose

  lemma MatchesNone(end: bool, text: string)
    ensures Matches(Regex(true, [], end), text) <==> (end ==> text == [])
  {
    var r := Regex(true, [], end);
    if end ==> text == [] {
      assert Splits(r, text, [], [], text);
    }
    if Matches(r, text) {
      var before, pieces, after :| Splits(r, text, before, pieces, after);
      assert pieces == [];
    }
  }

  lemma SplitFirst(it: Item, items: seq<Item>, end: bool, text: string, n: nat)
    requires n <= |text| && Instance(it, text[..n]) && Matches(Regex(true, items, end), text[n..])
    ensures Matches(Regex(true, [it] + items, end), text)
  {
    var before, pieces, after :| Splits(Regex(true, items, end), text[n..], before, pieces, after);
    var all := [text[..n]] + pieces;
    assert all[1..] == pieces;
    assert text == text[..n] + text[n..];
    assert Splits(Regex(true, [it] + items, end), text, [], all, after);
  }

  lemma FirstSplit(it: Item, items: seq<Item>, end: bool, text: string) returns (n: nat)
    requires Matches(Regex(true, [it] + items, end), text)
    ensures n <= |text| && Instance(it, text[..n]) && Matches(Regex(true, items, end), text[n..])
  {
    var before, pieces, after :| Splits(Regex(true, [it] + items, end), text, before, pieces, after);
    n := |pieces[0]|;
    assert Concat(pieces) == pieces[0] + Concat(pieces[1..]);
    assert text == pieces[0] + (Concat(pieces[1..]) + after);
    assert text[..n] == pieces[0];
    assert Instance(([it] + items)[0], pieces[0]);
    assert Fits(items, pieces[1..]) by {
      forall i | 0 <= i < |items| ensures Instance(items[i], pieces[1..][i]) {
        assert Instance(([it] + items)[i + 1], pieces[i + 1]);
      }
    }
    assert Splits(Regex(true, items, end), text[n..], [], pieces[1..], after);
  }

  lemma MatchesOne(a: Atom, items: seq<Item>, end: bool, text: string)
    ensures Matches(Regex(true, [One(a)] + items, end), text)
            <==> text != [] && Accepts(a, text[0]) && Matches(Regex(true, items, end), text[1..])
  {
    if text != [] && Accepts(a, text[0]) && Matches(Regex(true, items, end), text[1..]) {
      SplitFirst(One(a), items, end, text, 1);
    }
    if Matches(Regex(true, [One(a)] + items, end), text) {
      var n := FirstSplit(One(a), items, end, text);
    }
  }

  lemma MatchesLater(r: Regex, text: string, i: nat)
    requires r.start && i <= |text| && Matches(r, text[i..])
    ensures Matches(r.(start := false), text)
  {
    var before, pieces, after :| Splits(r, text[i..], before, pieces, after);
    assert text == text[..i] + text[i..];
    assert Splits(r.(start := false), text, text[..i], pieces, after);
  }

  lemma MatchStart(r: Regex, text: string) returns (i: nat)
    requires r.start && Matches(r.(start := false), text)
    ensures i <= |text| && Matches(r, text[i..])
  {
    var before, pieces, after :| Splits(r.(start := false), text, before, pieces, after);
    i := |before|;
    assert text == before + (Concat(pieces) + after);
    assert Splits(r, text[i..], [], pieces, after);
  }

  /** Unanchored matching tries every suffix. */
  lemma MatchesAnywhere(r: Regex, text: string)
    requires r.start
    ensures Matches(r.(start := false), text) <==> exists i :: 0 <= i <= |text| && Matches(r, text[i..])
  {
    hide Matches;
    if i :| 0 <= i <= |text| && Matches(r, text[i..]) {
      MatchesLater(r, text, i);
    }
    if Matches(r.(start := false), text) {
      var i := MatchStart(r, text);
    }
  }

  lemma StarredAt(a: Atom, text: string, n: nat, i: nat)
    requires i < n <= |text| && Instance(Star(a), text[..n])
    ensures Accepts(a, text[i])
  {
    assert text[..n][i] == text[i];
  }

  /** Once a character is refused, longer instances of a starred item are too. */
  lemma StarStops(a: Atom, items: seq<Item>, end: bool, text: string, i: nat)
    requires i <= |text| && (i == |text| || !Accepts(a, text[i]))
    requires forall n :: 0 <= n <= i ==> !Matches(Regex(true, items, end), text[n..])
    ensures !Matches(Regex(true, [Star(a)] + items, end), text)
  {
    hide Matches, Instance;
    if Matches(Regex(true, [Star(a)] + items, end), text) {
      var n := FirstSplit(Star(a), items, end, text);
      if i < n {
        StarredAt(a, text, n, i);
      }
    }
  }

  // ---------------------------------------------------------------- the matcher

  /** matchhere(). */
  method MatchHere(re: string, text: string) returns (b: bool)
    ensures b <==> Matches(Body(re), text)
    decreases |re|, |text| + 1
  {
    BodyStarts(re);
    if re == [] {
      MatchesNone(false, text);
      return true;
    }
    if |re| > 1 && re[1] == '*' {
      BodyStarts(re[2..]);
      b := MatchStar(re[0], re[2..], text);
      return;
    }
    if re[0] == '$' && |re| == 1 {
      MatchesNone(true, text);
      return text == [];
    }
    var rest := Body(re[1..]);
    BodyStarts(re[1..]);
    MatchesOne(ToAtom(re[0]), rest.items, rest.end, text);
    if text != [] && (re[0] == '.' || re[0] == text[0]) {
      b := MatchHere(re[1..], text[1..]);
      return;
    }
    return false;
  }

  /** matchstar(): its loop takes the shortest instances of c first. */
  method MatchStar(c: char, re: string, text: string) returns (b: bool)
    requires Body(re).start
    ensures b <==> Matches(Body(re).(items := [Star(ToAtom(c))] + Body(re).items), text)
    decreases |re| + 1, 0
  {
    ghost var r := Body(re);
    var i := 0;
    while true
      invariant i <= |text| && forall k :: 0 <= k < i ==> Accepts(ToAtom(c), text[k])
      invariant forall n :: 0 <= n < i ==> !Matches(r, text[n..])
      decreases |text| - i
    {
      b := MatchHere(re, text[i..]);
      if b {
        SplitFirst(Star(ToAtom(c)), r.items, r.end, text, i);
        return;
      }
      if i < |text| && (text[i] == c || c == '.') {
        i := i + 1;
      } else {
        break;
      }
    }
    StarStops(ToAtom(c), r.items, r.end, text, i);
  }

  /** match(): the matcher decides the declarative meaning, for every pattern and text. */
  method Match(re: string, text: string) returns (b: bool)
    ensures b <==> Matches(Compile(re), text)
  {
    if re != [] && re[0] == '^' {
      b := MatchHere(re[1..], text);
      return;
    }
    BodyStarts(re);
    MatchesAnywhere(Body(re), text);
    var i := 0;
    while true
      invariant i <= |text| && forall k :: 0 <= k < i ==> !Matches(Body(re), text[k..])
      decreases |text| - i
    {
      b := MatchHere(re, text[i..]);
      if b {
        return;
      }
      if i == |text| {
        break;
      }
      i := i + 1;
    }
  }

  // ---------------------------------------------------------------- the lines of the input

  /** The position of the first newline, or the length if there is none. */
  function Newline(s: string): (k: nat)
    ensures k <= |s| && (k < |s| ==> s[k] == '\n') && forall i :: 0 <= i < k ==> s[i] != '\n'
  {
    if s == [] || s[0] == '\n' then 0 else 1 + Newline(s[1..])
  }

  /** The newline-ended lines of s that match, with their newlines. */
  ghost function Selected(re: string, s: string): string
    decreases |s|
  {
    var k := Newline(s);
    if k == |s| then [] else (if Matches(Compile(re), s[..k]) then s[..k + 1] else []) + Selected(re, s[k + 1..])
  }

  /** The input up to the first line that, with its newline, exceeds what one read can see. */
  function Fitting(s: string): string
    decreases |s|
  {
    var k := Newline(s);
    if k == |s| || k + 1 > BUF - 1 then [] else s[..k + 1] + Fitting(s[k + 1..])
  }

  /** No newline-ended line is longer than the buffer. */
  predicate Short(s: string)
    decreases |s|
  {
    var k := Newline(s);
    k < |s| ==> k + 1 <= BUF - 1 && Short(s[k + 1..])
  }

  lemma NewlineAt(s: string, k: nat)
    requires k < |s| && s[k] == '\n' && forall i :: 0 <= i < k ==> s[i] != '\n'
    ensures Newline(s) == k
  {
  }

  lemma NewlinePrefix(s: string, m: nat)
    requires m <= |s|
    ensures Newline(s[..m]) == if Newline(s) < m then Newline(s) else m
  {
    if Newline(s) < m {
      NewlineAt(s[..m], Newline(s));
    }
  }

  lemma {:induction false} SelectedOf(re: string, line: string, s: string)
    requires line != [] && Newline(line) == |line| - 1
    ensures Selected(re, line + s) == (if Matches(Compile(re), line[..|line| - 1]) then line else []) + Selected(re, s)
  {
    var k := |line| - 1;
    NewlineAt(line + s, k);
    assert (line + s)[..k] == line[..k] && (line + s)[..k + 1] == line && (line + s)[k + 1..] == s;
  }

  lemma {:induction false} SelectedFits(re: string, s: string)
    requires Short(s)
    ensures Selected(re, Fitting(s)) == Selected(re, s)
    decreases |s|
  {
    var k := Newline(s);
    if k < |s| {
      var line := s[..k + 1];
      NewlineAt(line, k);
      SelectedOf(re, line, Fitting(s[k + 1..]));
      SelectedFits(re, s[k + 1..]);
      assert line[..k] == s[..k];
    }
  }

  lemma EverythingMatches(text: string)
    ensures Matches(Compile(""), text)
  {
    assert Splits(Compile(""), text, [], [], text);
  }

  /** Complete lines can be taken off the front of what fits. */
  lemma {:induction false} FittingOf(line: string, s: string)
    requires 0 < |line| <= BUF - 1 && Newline(line) == |line| - 1
    ensures Fitting(line + s) == line + Fitting(s)
  {
    var k := |line| - 1;
    NewlineAt(line + s, k);
    assert (line + s)[..k + 1] == line && (line + s)[k + 1..] == s;
  }

  lemma Nothing()
    ensures Selected("", []) == []
  {
  }

  /** The first line is too long. */
  lemma FirstLost(s: string)
    requires Newline(s) < |s| && Newline(s) + 1 > BUF - 1
    ensures |Selected("", Fitting(s))| < |Selected("", s)|
  {
    hide Matches, Compile, Newline;
    EverythingMatches(s[..Newline(s)]);
    Nothing();
    assert |Selected("", s)| >= Newline(s) + 1;
  }

  lemma ShortFirst(s: string, k: nat)
    requires k == Newline(s) < |s| && k + 1 <= BUF - 1 && Short(s[k + 1..])
    ensures Short(s)
  {
    hide Newline;
  }

  lemma HasLine(s: string)
    requires !Short(s)
    ensures Newline(s) < |s|
  {
  }

  lemma {:induction false} LongLineLost(s: string)
    requires !Short(s)
    ensures |Selected("", Fitting(s))| < |Selected("", s)|
    decreases |s|
  {
    hide Matches, Compile, Selected, Fitting, Short;
    var k := Newline(s);
    HasLine(s);
    if k + 1 > BUF - 1 {
      FirstLost(s);
    } else {
      var line := s[..k + 1];
      if Short(s[k + 1..]) {
        ShortFirst(s, k);
      }
      NewlineAt(line, k);
      FittingOf(line, s[k + 1..]);
      SelectedOf("", line, Fitting(s[k + 1..]));
      SelectedOf("", line, s[k + 1..]);
      LongLineLost(s[k + 1..]);
      assert line + s[k + 1..] == s;
    }
  }

  /** What the string functions see of s: nothing from the first NUL on. */
  function CString(s: string): (r: string)
    ensures r <= s && NUL !in r && (|r| < |s| ==> s[|r|] == NUL)
  {
    if s == [] || s[0] == NUL then [] else [s[0]] + CString(s[1..])
  }

  lemma CStringIs(s: string, k: nat)
    requires k <= |s| && (k < |s| ==> s[k] == NUL) && forall i :: 0 <= i < k ==> s[i] != NUL
    ensures CString(s) == s[..k]
  {
    var r := CString(s);
    assert forall i :: 0 <= i < |r| ==> r[i] == s[i] && r[i] in r;
  }

  /** What is seen of s followed by t, beyond what is seen of s. */
  function Beyond(s: string, t: string): string { if NUL in s then [] else CString(t) }

  lemma Seen(s: string)
    ensures CString(s) == s[..|CString(s)|] && forall i :: 0 <= i < |CString(s)| ==> s[i] != NUL
  {
    hide CString;
    var r := CString(s);
    assert forall i :: 0 <= i < |r| ==> r[i] == s[i] && r[i] in r;
  }

  lemma CStringDrop(s: string, p: nat)
    requires p <= |CString(s)|
    ensures CString(s[p..]) == CString(s)[p..]
  {
    hide CString;
    Seen(s);
    CStringIs(s[p..], |CString(s)| - p);
  }

  lemma CStringPlus(s: string, t: string)
    ensures CString(s + t) == CString(s) + Beyond(s, t)
  {
    hide CString;
    Seen(s);
    Seen(t);
    var v, u := CString(s), CString(t);
    if |v| < |s| {
      CStringIs(s + t, |v|);
      assert (s + t)[..|v|] == s[..|v|];
    } else {
      assert v == s;
      CStringIs(s + t, |s| + |u|);
      assert (s + t)[..|s| + |u|] == s + t[..|u|];
    }
  }

  lemma CStringFrom(s: string, t: string, p: nat)
    requires p <= |CString(s)|
    ensures CString(s[p..] + t) == CString(s)[p..] + Beyond(s, t) && CString(s[p..]) == CString(s)[p..]
  {
    hide CString;
    CStringDrop(s, p);
    CStringPlus(s[p..], t);
    Seen(s);
    assert NUL in s <==> |CString(s)| < |s|;
    assert NUL in s[p..] <==> |CString(s[p..])| < |s[p..]|;
  }

  /** An unfinished line at the end does not count. */
  lemma {:induction false} SelectedTail(re: string, a: string, b: string)
    requires Newline(b) == |b|
    ensures Selected(re, a + b) == Selected(re, a)
    decreases |a|
  {
    var k := Newline(a);
    if k < |a| {
      NewlineAt(a + b, k);
      assert (a + b)[..k + 1] == a[..k + 1] && (a + b)[..k] == a[..k] && (a + b)[k + 1..] == a[k + 1..] + b;
      SelectedTail(re, a[k + 1..], b);
    } else {
      NoNewline(a, b);
    }
  }

  lemma NoNewline(a: string, b: string)
    requires Newline(a) == |a| && Newline(b) == |b|
    ensures Newline(a + b) == |a + b|
  {
    var s := a + b;
    assert forall i :: 0 <= i < |s| ==> s[i] == if i < |a| then a[i] else b[i - |a|];
  }

  /** The empty pattern selects every line. */
  lemma {:induction false} SelectedAll(s: string, j: int)
    requires j == -1 || (0 <= j < |s| && s[j] == '\n')
    ensures j < |Selected("", s)| <= |s|
    decreases |s|
  {
    var k := Newline(s);
    if k < |s| {
      EverythingMatches(s[..k]);
      SelectedAll(s[k + 1..], if j <= k then -1 else j - k - 1);
    }
  }

  lemma {:induction false} FittingWithin(s: string)
    ensures |Fitting(s)| <= |s|
    decreases |s|
  {
    var k := Newline(s);
    if k < |s| {
      FittingWithin(s[k + 1..]);
    }
  }

  /** grep() prints all it should, for every pattern, exactly if all lines fit the buffer and no
      line ends behind a NUL. */
  lemma CompleteIff(s: string)
    ensures (forall re :: Selected(re, Fitting(CString(s))) == Selected(re, s)) <==>
              Short(CString(s)) && Newline(s[|CString(s)|..]) == |s| - |CString(s)|
  {
    hide Selected, Fitting, CString, Short;
    var v, rest := CString(s), s[|CString(s)|..];
    assert s == v + rest;
    if Newline(rest) < |rest| {
      SelectedAll(s, |v| + Newline(rest));
      FittingWithin(v);
      SelectedAll(Fitting(v), -1);
      assert Selected("", Fitting(v)) != Selected("", s);
    } else {
      forall re ensures Selected(re, s) == Selected(re, v) { SelectedTail(re, v, rest); }
      if Short(v) {
        forall re ensures Selected(re, Fitting(v)) == Selected(re, v) { SelectedFits(re, v); }
      } else {
        LongLineLost(v);
        assert Selected("", Fitting(v)) != Selected("", s);
      }
    }
  }

  // ---------------------------------------------------------------- the line loop

  /** From position p on, the buffer holds the string s and a final NUL. */
  ghost predicate Holds(buf: array<char>, s: string, p: nat)
    reads buf
  {
    |s| < buf.Length && buf[|s|] == NUL && forall i :: p <= i < |s| ==> buf[i] == s[i] && s[i] != NUL
  }

  /** strchr(p, '\n'). */
  method FindNewline(buf: array<char>, p: nat, ghost s: string) returns (q: nat)
    requires p <= |s| && Holds(buf, s, p)
    ensures p <= q <= |s| && q == p + Newline(s[p..]) && (q < |s| ==> s[q] == '\n')
  {
    q := p;
    while buf[q] != '\n' && buf[q] != NUL
      invariant p <= q <= |s| && forall i :: p <= i < q ==> s[i] != '\n'
      decreases |s| - q
    {
      q := q + 1;
    }
    NewlineFrom(s, p, q);
  }

  lemma NewlineFrom(s: string, p: nat, q: nat)
    requires p <= q <= |s| && (q == |s| || s[q] == '\n') && forall i :: p <= i < q ==> s[i] != '\n'
    ensures Newline(s[p..]) == q - p
  {
    if q < |s| {
      NewlineAt(s[p..], q - p);
    }
  }

  /** The newline becomes a NUL while match() looks at the line. */
  method PrintLine(re: string, buf: array<char>, p: nat, q: nat, ghost s: string) returns (out: string)
    requires p <= q < |s| && Holds(buf, s, p) && s[q] == '\n'
    modifies buf
    ensures Holds(buf, s, q + 1) && forall i :: q < i < buf.Length ==> buf[i] == old(buf[i])
    ensures out == if Matches(Compile(re), s[p..q]) then s[p..q + 1] else []
  {
    hide Matches, Compile;
    buf[q] := NUL;
    var text := buf[p..q];
    assert text == s[p..q];
    var b := Match(re, text);
    if b {
      buf[q] := '\n';
      out := buf[p..q + 1];
      assert out == s[p..q + 1];
    } else {
      out := [];
    }
  }

  /** One round of grep() after a read: the complete lines in the buffer are printed if they
      match, and the rest moves to the front; t is the input still to be read. */
  method ScanLines(re: string, buf: array<char>, m: nat, ghost s: string, ghost t: string)
    returns (out: string, left: nat)
    requires m == |s| < BUF == buf.Length && forall i :: 0 <= i < m ==> buf[i] == s[i]
    modifies buf
    ensures left <= m && (forall i :: 0 <= i < left ==> buf[i] == s[m - left + i]) && NoLine(s[m - left..])
    ensures Selected(re, Fitting(CString(s + t))) == out + Selected(re, Fitting(CString(s[m - left..] + t)))
  {
    hide Selected, Fitting, Matches, Compile, Newline, CString, Beyond;
    buf[m] := NUL;
    ghost var v := CString(s);
    CStringPlus(s, t);
    Seen(s);
    var p;
    out, p := PrintLines(re, buf, v, Beyond(s, t));
    left := m - p;
    CStringFrom(s, t, p);
    MoveDown(buf, p, left);
  }

  /** The loop over the lines that strchr() finds; v is what it sees, t what follows later. */
  method PrintLines(re: string, buf: array<char>, ghost v: string, ghost t: string) returns (out: string, p: nat)
    requires |v| < BUF && Holds(buf, v, 0)
    modifies buf
    ensures p <= |v| && Newline(v[p..]) == |v| - p && forall i :: p <= i < buf.Length ==> buf[i] == old(buf[i])
    ensures Selected(re, Fitting(v + t)) == out + Selected(re, Fitting(v[p..] + t))
  {
    hide Selected, Fitting, Matches, Compile, Newline;
    p, out := 0, [];
    assert v[0..] == v;
    var q := FindNewline(buf, p, v);
    while buf[q] != NUL
      invariant p <= q <= |v| && Holds(buf, v, p) && q == p + Newline(v[p..]) && (q < |v| ==> v[q] == '\n')
      invariant forall i :: p <= i < buf.Length ==> buf[i] == old(buf[i])
      invariant Selected(re, Fitting(v + t)) == out + Selected(re, Fitting(v[p..] + t))
      decreases |v| - p
    {
      var more := PrintLine(re, buf, p, q, v);
      LineStep(re, v, p, q, t);
      out := out + more;
      p := q + 1;
      q := FindNewline(buf, p, v);
    }
  }

  /** No complete line can be seen in s. */
  predicate NoLine(s: string) { Newline(CString(s)) == |CString(s)| }

  lemma LineStep(re: string, s: string, p: nat, q: nat, t: string)
    requires p <= q < |s| < BUF && q == p + Newline(s[p..])
    ensures Selected(re, Fitting(s[p..] + t))
            == (if Matches(Compile(re), s[p..q]) then s[p..q + 1] else []) + Selected(re, Fitting(s[q + 1..] + t))
  {
    hide Matches, Compile, Selected, Fitting, Newline;
    var line := s[p..q + 1];
    LineAlone(s, p, q);
    assert s[p..] + t == line + (s[q + 1..] + t);
    FittingOf(line, s[q + 1..] + t);
    SelectedOf(re, line, Fitting(s[q + 1..] + t));
    assert line[..|line| - 1] == s[p..q];
  }

  lemma LineAlone(s: string, p: nat, q: nat)
    requires p <= q < |s| && q == p + Newline(s[p..])
    ensures Newline(s[p..q + 1]) == q - p
  {
    assert forall i :: p <= i <= q ==> s[i] == s[p..][i - p];
    NewlineAt(s[p..q + 1], q - p);
  }

  /** memmove(buf, buf + p, n). */
  method MoveDown(buf: array<char>, p: nat, n: nat)
    requires p + n <= buf.Length
    modifies buf
    ensures forall k :: 0 <= k < n ==> buf[k] == old(buf[p + k])
  {
    var i := 0;
    while i < n
      invariant i <= n && (forall k :: 0 <= k < i ==> buf[k] == old(buf[p + k]))
      invariant forall k :: i <= k < buf.Length ==> buf[k] == old(buf[k])
    {
      buf[i] := buf[p + i];
      i := i + 1;
    }
  }

  /** grep(): whatever sizes read() returns, the output is the matching newline-ended lines up to
      the first line that does not fit or that holds a NUL, in order. */
  method GrepFile(re: string, input: string) returns (out: string)
    ensures out == Selected(re, Fitting(CString(input)))
  {
    hide Selected, Fitting, CString, NoLine;
    var buf := new char[BUF];
    var m: nat, pos: nat := 0, 0;
    out := [];
    NothingYet(input);
    while true
      invariant m <= pos <= |input| && m < BUF && forall i :: 0 <= i < m ==> buf[i] == input[pos - m + i]
      invariant NoLine(input[pos - m..pos])
      invariant Selected(re, Fitting(CString(input))) == out + Selected(re, Fitting(CString(input[pos - m..])))
      decreases |input| - pos
    {
      var room := if BUF - m - 1 <= |input| - pos then BUF - m - 1 else |input| - pos;
      if room == 0 {
        break;
      }
      var n: nat :| 1 <= n <= room; // read() may return less than was asked for
      Receive(buf, m, input, pos, n);
      m, pos := m + n, pos + n;
      Piece(input, pos - m, pos);
      var more, left := ScanLines(re, buf, m, input[pos - m..pos], input[pos..]);
      Remainder(input, pos - m, pos, left);
      out := out + more;
      m := left;
    }
    NothingMore(re, input, pos - m, m);
  }

  lemma NothingYet(s: string)
    ensures NoLine(s[0..0]) && s[0..] == s
  {
  }

  lemma Piece(s: string, a: nat, b: nat)
    requires a <= b <= |s|
    ensures s[a..b] + s[b..] == s[a..] && forall i :: 0 <= i < b - a ==> s[a..b][i] == s[a + i]
  {
  }

  lemma Remainder(s: string, a: nat, b: nat, left: nat)
    requires a <= b <= |s| && left <= b - a
    ensures s[a..b][b - a - left..] == s[b - left..b] && s[b - left..b] + s[b..] == s[b - left..]
  {
  }

  /** When read() returns 0, what is left holds no line that fits. */
  lemma NothingMore(re: string, input: string, start: nat, m: nat)
    requires start + m <= |input| && NoLine(input[start..start + m])
    requires m == BUF - 1 || start + m == |input|
    ensures Selected(re, Fitting(CString(input[start..]))) == []
  {
    var piece, t := input[start..start + m], input[start + m..];
    assert input[start..] == piece[0..] + t;
    CStringFrom(piece, t, 0);
    var w := CString(input[start..]);
    assert piece[0..] == piece && CString(piece)[0..] == CString(piece);
    assert w == CString(piece) + Beyond(piece, t);
    assert w[..|CString(piece)|] == CString(piece);
    NewlinePrefix(w, |CString(piece)|);
  }

  method Receive(buf: array<char>, m: nat, input: string, pos: nat, n: nat)
    requires m + n < buf.Length && m <= pos && pos + n <= |input|
    requires forall i :: 0 <= i < m ==> buf[i] == input[pos - m + i]
    modifies buf
    ensures forall i :: 0 <= i < m + n ==> buf[i] == input[pos - m + i]
  {
    var i := 0;
    while i < n
      invariant i <= n && forall k :: 0 <= k < m + i ==> buf[k] == input[pos - m + k]
    {
      buf[m + i] := input[pos + i];
      i := i + 1;
    }
  }
}
