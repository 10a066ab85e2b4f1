/** The command parser of user/sh.c.

    The input is a NUL-terminated buffer; a token is the span of its positions.  The functions
    say what each parsing routine returns, panics included; class Parser is the code, moving the
    cursor over the buffer, and NulTerminate() writes the terminators into it. */
module Shell {
  const NUL: char := 0 as char
  const MAXARGS: nat := 10

  predicate White(c: char) { c == ' ' || c == '\t' || c == '\r' || c == '\n' || c == '\U{0B}' }

  predicate Symbol(c: char) { c == '<' || c == '|' || c == '>' || c == '&' || c == ';' || c == '(' || c == ')' }

  predicate WordChar(c: char) { c != NUL && !White(c) && !Symbol(c) }

  // ---------------------------------------------------------------- commands

  datatype Mode = Input | Output | Append
  datatype Cmd<W> =
    | Exec(argv: seq<W>)
    | Redir(cmd: Cmd<W>, mode: Mode, file: W)
    | Pipe(left: Cmd<W>, right: Cmd<W>)
    | List(left: Cmd<W>, right: Cmd<W>)
    | Back(cmd: Cmd<W>)

  datatype Span = Span(lo: nat, hi: nat)
  datatype Redirection = Redirection(mode: Mode, file: Span)
  datatype Result<T> = Ok(value: T, pos: nat) | Panic(message: string)

  /** A whole word: only word characters, and none right behind it. */
  predicate Token(t: string, w: Span) {
    && w.lo < w.hi <= |t| && (forall k :: w.lo <= k < w.hi ==> WordChar(t[k]))
    && (w.hi == |t| || !WordChar(t[w.hi]))
  }

  predicate Tokens(t: string, c: Cmd<Span>) {
    match c
    case Exec(argv) => forall i :: 0 <= i < |argv| ==> Token(t, argv[i])
    case Redir(cmd, mode, file) => Tokens(t, cmd) && Token(t, file)
    case Pipe(left, right) => Tokens(t, left) && Tokens(t, right)
    case List(left, right) => Tokens(t, left) && Tokens(t, right)
    case Back(cmd) => Tokens(t, cmd)
  }

  /** The redirections of a command, applied from the inside out. */
  function Wrap(c: Cmd<Span>, rs: seq<Redirection>): Cmd<Span>
    decreases |rs|
  {
    if rs == [] then c else Wrap(Redir(c, rs[0].mode, rs[0].file), rs[1..])
  }

  predicate Files(t: string, rs: seq<Redirection>) { forall i :: 0 <= i < |rs| ==> Token(t, rs[i].file) }

  lemma {:induction false} WrapTokens(t: string, c: Cmd<Span>, rs: seq<Redirection>)
    requires Tokens(t, c) && Files(t, rs)
    ensures Tokens(t, Wrap(c, rs))
    decreases |rs|
  {
    if rs != [] {
      WrapTokens(t, Redir(c, rs[0].mode, rs[0].file), rs[1..]);
    }
  }

  // ---------------------------------------------------------------- tokens

  function Skip(t: string, i: nat): (p: nat)
    requires i <= |t|
    ensures i <= p <= |t| && (p < |t| ==> !White(t[p]))
    decreases |t| - i
  {
    if i < |t| && White(t[i]) then Skip(t, i + 1) else i
  }

  function WordEnd(t: string, i: nat): (p: nat)
    requires i <= |t|
    ensures i <= p <= |t| && (p < |t| ==> White(t[p]) || Symbol(t[p]))
    ensures forall k :: i <= k < p ==> !White(t[k]) && !Symbol(t[k])
    decreases |t| - i
  {
    if i < |t| && !White(t[i]) && !Symbol(t[i]) then WordEnd(t, i + 1) else i
  }

  /** *s for a cursor in the text or at its end. */
  function At(t: string, i: nat): char { if i < |t| then t[i] else NUL }

  /** What gettoken() returns and stores; the kind of a word is 'a', of ">>" it is '+'. */
  datatype Tok = Tok(kind: char, span: Span, next: nat)

  function GetTok(t: string, i: nat): (r: Tok)
    requires i <= |t| && NUL !in t
    ensures i <= r.span.lo <= r.span.hi <= r.next <= |t|
    ensures r.kind == 'a' ==> Token(t, r.span)
    ensures r.kind == NUL ==> r.next == |t|
    ensures r.kind != NUL ==> i < r.next
  {
    var q := Skip(t, i);
    if q == |t| then Tok(NUL, Span(q, q), q)
    else if t[q] == '>' then
      (if At(t, q + 1) == '>' then Tok('+', Span(q, q + 2), Skip(t, q + 2))
        else Tok('>', Span(q, q + 1), Skip(t, q + 1)))
    else if Symbol(t[q]) then Tok(t[q], Span(q, q + 1), Skip(t, q + 1))
    else var e := WordEnd(t, q); Tok('a', Span(q, e), Skip(t, e))
  }

  // ---------------------------------------------------------------- the parser as functions

  function ModeOf(kind: char): Mode { if kind == '<' then Input else if kind == '>' then Output else Append }

  function Redirs(t: string, i: nat, rs: seq<Redirection>): (r: Result<seq<Redirection>>)
    requires i <= |t| && NUL !in t && Files(t, rs)
    ensures r.Ok? ==> i <= r.pos <= |t| && Files(t, r.value)
    decreases |t| - i
  {
    var p := Skip(t, i);
    if At(t, p) == '<' || At(t, p) == '>' then
      var op := GetTok(t, p);
      var file := GetTok(t, op.next);
      if file.kind != 'a' then Panic("missing file for redirection")
      else Redirs(t, file.next, rs + [Redirection(ModeOf(op.kind), file.span)])
    else Ok(rs, p)
  }

  predicate Stops(c: char) { c == '|' || c == ')' || c == '&' || c == ';' }

  function Args(t: string, i: nat, argv: seq<Span>, rs: seq<Redirection>): (r: Result<Cmd<Span>>)
    requires i <= |t| && NUL !in t && Files(t, rs) && Tokens(t, Exec(argv))
    ensures r.Ok? ==> i <= r.pos <= |t| && Tokens(t, r.value)
    decreases |t| - i
  {
    var p := Skip(t, i);
    if Stops(At(t, p)) then WrapTokens(t, Exec(argv), rs); Ok(Wrap(Exec(argv), rs), p)
    else
      var w := GetTok(t, p);
      if w.kind == NUL then WrapTokens(t, Exec(argv), rs); Ok(Wrap(Exec(argv), rs), w.next)
      else if w.kind != 'a' then Panic("syntax")
      else if |argv| + 1 >= MAXARGS then Panic("too many args")
      else
        var r := Redirs(t, w.next, rs);
        if r.Panic? then Panic(r.message) else Args(t, r.pos, argv + [w.span], r.value)
  }

  function ParseExec(t: string, i: nat): (r: Result<Cmd<Span>>)
    requires i <= |t| && NUL !in t
    ensures r.Ok? ==> i <= r.pos <= |t| && Tokens(t, r.value)
    decreases |t| - i, 1
  {
    var p := Skip(t, i);
    if At(t, p) == '(' then ParseBlock(t, p)
    else
      var r := Redirs(t, p, []);
      if r.Panic? then Panic(r.message) else Args(t, r.pos, [], r.value)
  }

  function ParseBlock(t: string, i: nat): (r: Result<Cmd<Span>>)
    requires i < |t| && NUL !in t && t[i] == '('
    ensures r.Ok? ==> i < r.pos <= |t| && Tokens(t, r.value)
    decreases |t| - i, 0
  {
    var c := ParseLine(t, GetTok(t, i).next);
    if c.Panic? then c
    else
      var p := Skip(t, c.pos);
      if At(t, p) != ')' then Panic("syntax - missing )")
      else
        var r := Redirs(t, GetTok(t, p).next, []);
        if r.Panic? then Panic(r.message) else WrapTokens(t, c.value, r.value); Ok(Wrap(c.value, r.value), r.pos)
  }

  function ParsePipe(t: string, i: nat): (r: Result<Cmd<Span>>)
    requires i <= |t| && NUL !in t
    ensures r.Ok? ==> i <= r.pos <= |t| && Tokens(t, r.value)
    decreases |t| - i, 2
  {
    var c := ParseExec(t, i);
    if c.Panic? then c
    else
      var p := Skip(t, c.pos);
      if At(t, p) != '|' then Ok(c.value, p)
      else
        var d := ParsePipe(t, GetTok(t, p).next);
        if d.Panic? then d else Ok(Pipe(c.value, d.value), d.pos)
  }

  function Backs(t: string, i: nat, c: Cmd<Span>): (r: Result<Cmd<Span>>)
    requires i <= |t| && NUL !in t && Tokens(t, c)
    ensures r.Ok? && i <= r.pos <= |t| && Tokens(t, r.value)
    decreases |t| - i
  {
    var p := Skip(t, i);
    if At(t, p) == '&' then Backs(t, GetTok(t, p).next, Back(c)) else Ok(c, p)
  }

  function ParseLine(t: string, i: nat): (r: Result<Cmd<Span>>)
    requires i <= |t| && NUL !in t
    ensures r.Ok? ==> i <= r.pos <= |t| && Tokens(t, r.value)
    decreases |t| - i, 3
  {
    var c := ParsePipe(t, i);
    if c.Panic? then c
    else
      var b := Backs(t, c.pos, c.value);
      var p := Skip(t, b.pos);
      if At(t, p) != ';' then Ok(b.value, p)
      else
        var d := ParseLine(t, GetTok(t, p).next);
        if d.Panic? then d else Ok(List(b.value, d.value), d.pos)
  }

  function Parse(t: string): (r: Result<Cmd<Span>>)
    requires NUL !in t
    ensures r.Ok? ==> Tokens(t, r.value)
  {
    var c := ParseLine(t, 0);
    if c.Panic? then c
    else if Skip(t, c.pos) != |t| then Panic("syntax")
    else Ok(c.value, |t|)
  }

  // ---------------------------------------------------------------- printing

  predicate Word(w: string) { w != [] && forall k :: 0 <= k < |w| ==> WordChar(w[k]) }

  /** Non-empty words free of separators, and at most nine of them in a command. */
  predicate Printable(c: Cmd<string>) {
    match c
    case Exec(argv) => |argv| < MAXARGS && forall i :: 0 <= i < |argv| ==> Word(argv[i])
    case Redir(cmd, mode, file) => Printable(cmd) && Word(file)
    case Pipe(left, right) => Printable(left) && Printable(right)
    case List(left, right) => Printable(left) && Printable(right)
    case Back(cmd) => Printable(cmd)
  }

  function Spaced(argv: seq<string>): string {
    if argv == [] then [] else argv[0] + " " + Spaced(argv[1..])
  }

  function Operator(m: Mode): string { match m case Input => "<" case Output => ">" case Append => ">>" }

  function Print(c: Cmd<string>): string {
    match c
    case Exec(argv) => Spaced(argv)
    case Redir(cmd, mode, file) => "(" + Print(cmd) + ")" + Operator(mode) + " " + file + " "
    case Pipe(left, right) => "(" + Print(left) + ")|(" + Print(right) + ")"
    case List(left, right) => "(" + Print(left) + ");(" + Print(right) + ")"
    case Back(cmd) => "(" + Print(cmd) + ")&"
  }

  /** The command with the text of its tokens. */
  function Text(t: string, c: Cmd<Span>): Cmd<string>
    requires Tokens(t, c)
  {
    match c
    case Exec(argv) => Exec(seq(|argv|, i requires 0 <= i < |argv| => t[argv[i].lo..argv[i].hi]))
    case Redir(cmd, mode, file) => Redir(Text(t, cmd), mode, t[file.lo..file.hi])
    case Pipe(left, right) => Pipe(Text(t, left), Text(t, right))
    case List(left, right) => List(Text(t, left), Text(t, right))
    case Back(cmd) => Back(Text(t, cmd))
  }

  // ---------------------------------------------------------------- round trip

  /** A printed command ends where the text does or at a closing parenthesis. */
  predicate Closed(t: string, j: nat) { j == |t| || (j < |t| && t[j] == ')') }

  predicate Printed(t: string, i: nat, j: nat, c: Cmd<string>) {
    i <= j <= |t| && NUL !in t && Closed(t, j) && Printable(c) && t[i..j] == Print(c)
  }

  /** The text at i parses as c, up to j. */
  predicate Parsed(t: string, i: nat, j: nat, c: Cmd<string>)
    requires i <= |t| && NUL !in t
  {
    var r := ParseLine(t, i);
    r.Ok? && r.pos == j && Text(t, r.value) == c
  }

  /** What follows a complete command ends the line too. */
  lemma LineOfExec(t: string, i: nat)
    requires i <= |t| && NUL !in t && ParseExec(t, i).Ok? && Closed(t, ParseExec(t, i).pos)
    ensures ParseLine(t, i) == ParseExec(t, i) == ParsePipe(t, i)
  {
  }

  lemma PrintStart(c: Cmd<string>)
    requires Printable(c) && Print(c) != []
    ensures Print(c)[0] == '(' || WordChar(Print(c)[0])
  {
    if c.Exec? {
      assert Word(c.argv[0]);
    }
  }

  lemma Slice(t: string, i: nat, j: nat, a: string, b: string)
    requires i <= j <= |t| && t[i..j] == a + b
    ensures i + |a| <= j && t[i..i + |a|] == a && t[i + |a|..j] == b
  {
    assert t[i..i + |a|] == t[i..j][..|a|];
    assert t[i + |a|..j] == t[i..j][|a|..];
  }

  lemma PrintedStart(t: string, i: nat, j: nat, c: Cmd<string>)
    requires Printed(t, i, j, c)
    ensures Skip(t, i) == i
  {
    if i < j {
      PrintStart(c);
      assert t[i] == t[i..j][0];
    }
  }

  lemma SymbolAt(t: string, i: nat)
    requires i < |t| && NUL !in t && (t[i] == '(' || Stops(t[i]))
    ensures Skip(t, i) == i && GetTok(t, i).next == Skip(t, i + 1)
  {
  }

  /** A parenthesised command, read by parseblock() up to its redirections. */
  lemma BlockOf(t: string, i: nat, a: nat, c: Cmd<string>)
    requires i < |t| && a < |t| && Printed(t, i + 1, a, c) && t[i] == '(' && t[a] == ')' && Parsed(t, i + 1, a, c)
    ensures ParseExec(t, i) == ParseBlock(t, i)
    ensures var r := Redirs(t, Skip(t, a + 1), []);
            ParseBlock(t, i)
            == if r.Panic? then Panic(r.message) else Ok(Wrap(ParseLine(t, i + 1).value, r.value), r.pos)
  {
    hide ParseLine, Redirs, GetTok, Text, Print, Printable, Tokens, Wrap;
    PrintedStart(t, i + 1, a, c);
    SymbolAt(t, i);
    SymbolAt(t, a);
  }

  /** Such a command alone is a line; followed by a symbol it is what that symbol applies to. */
  lemma BlockThen(t: string, i: nat, a: nat, c: Cmd<string>)
    requires i < |t| && a < |t| && Printed(t, i + 1, a, c) && t[i] == '(' && t[a] == ')' && Parsed(t, i + 1, a, c)
    requires Closed(t, a + 1) || Stops(t[a + 1])
    ensures ParseExec(t, i) == Ok(ParseLine(t, i + 1).value, a + 1)
  {
    BlockOf(t, i, a, c);
    assert Skip(t, a + 1) == a + 1;
  }

  lemma WordAt(t: string, i: nat, w: string)
    requires NUL !in t && Word(w) && i + |w| < |t| && t[i..i + |w|] == w && t[i + |w|] == ' '
    ensures GetTok(t, i) == Tok('a', Span(i, i + |w|), Skip(t, i + |w| + 1))
  {
    assert forall k :: i <= k < i + |w| ==> t[k] == w[k - i];
    assert WordEnd(t, i) == i + |w|;
  }

  /** The spans of words that stand one after the other, each followed by a space. */
  function Laid(i: nat, words: seq<string>): seq<Span>
    decreases |words|
  {
    if words == [] then [] else [Span(i, i + |words[0]|)] + Laid(i + |words[0]| + 1, words[1..])
  }

  predicate Plain(words: seq<string>) { forall k :: 0 <= k < |words| ==> Word(words[k]) }

  lemma {:induction false} LaidTokens(t: string, i: nat, j: nat, words: seq<string>)
    requires i <= j <= |t| && Plain(words) && t[i..j] == Spaced(words)
    ensures |Laid(i, words)| == |words|
    ensures forall k :: 0 <= k < |words| ==>
            Token(t, Laid(i, words)[k]) && t[Laid(i, words)[k].lo..Laid(i, words)[k].hi] == words[k]
    decreases |words|
  {
    hide Token, Word, Spaced;
    if words != [] {
      var e := FirstWord(t, i, j, words);
      LaidTokens(t, e + 1, j, words[1..]);
    }
  }

  lemma FirstWord(t: string, i: nat, j: nat, words: seq<string>) returns (e: nat)
    requires i <= j <= |t| && Plain(words) && t[i..j] == Spaced(words) && words != []
    ensures e == i + |words[0]| < j && t[i..e] == words[0] && t[e] == ' ' && t[e + 1..j] == Spaced(words[1..])
    ensures Token(t, Span(i, e)) && Word(words[0]) && Plain(words[1..])
  {
    var w := words[0];
    e := i + |w|;
    assert Spaced(words) == w + (" " + Spaced(words[1..]));
    Slice(t, i, j, w, " " + Spaced(words[1..]));
    Slice(t, e, j, " ", Spaced(words[1..]));
    assert t[e] == t[e..e + 1][0];
    assert forall k :: i <= k < e ==> t[k] == w[k - i];
    assert Word(w);
  }

  /** At the start of more words, or of none, there is no redirection. */
  lemma NoRedirs(t: string, i: nat, j: nat, words: seq<string>)
    requires i <= j <= |t| && NUL !in t && Plain(words) && t[i..j] == Spaced(words) && Closed(t, j)
    ensures Skip(t, i) == i && Redirs(t, i, []) == Ok([], i) && At(t, i) != '(' && (words == [] ==> i == j)
  {
    if words != [] {
      var e := FirstWord(t, i, j, words);
    }
  }

  lemma ArgsEnd(t: string, i: nat, argv: seq<Span>)
    requires i <= |t| && NUL !in t && Closed(t, i) && Tokens(t, Exec(argv))
    ensures Args(t, i, argv, []) == Ok(Exec(argv), i)
  {
  }

  lemma ArgsStep(t: string, i: nat, e: nat, argv: seq<Span>)
    requires i < e < |t| && NUL !in t && Tokens(t, Exec(argv)) && Token(t, Span(i, e)) && |argv| + 1 < MAXARGS
    requires Skip(t, i) == i && GetTok(t, i) == Tok('a', Span(i, e), e + 1) && Redirs(t, e + 1, []) == Ok([], e + 1)
    ensures Tokens(t, Exec(argv + [Span(i, e)])) && Args(t, i, argv, []) == Args(t, e + 1, argv + [Span(i, e)], [])
  {
    hide GetTok, Redirs, Skip, Token, Tokens, Wrap, Files, Stops, At;
    MoreTokens(t, i, e, argv);
  }

  lemma MoreTokens(t: string, i: nat, e: nat, argv: seq<Span>)
    requires i < e < |t| && Tokens(t, Exec(argv)) && Token(t, Span(i, e))
    ensures Tokens(t, Exec(argv + [Span(i, e)])) && !Stops(At(t, i))
  {
    assert WordChar(t[i]);
  }

  lemma LaidStep(done: seq<Span>, i: nat, words: seq<string>)
    ensures words == [] ==> done + Laid(i, words) == done
    ensures words != [] ==>
            var e := i + |words[0]|;
            done + Laid(i, words) == done + [Span(i, e)] + Laid(e + 1, words[1..])
  {
  }

  lemma {:induction false} ArgsOf(t: string, i: nat, j: nat, done: seq<Span>, words: seq<string>)
    requires i <= j <= |t| && NUL !in t && Plain(words) && t[i..j] == Spaced(words) && Closed(t, j)
    requires Tokens(t, Exec(done)) && |done| + |words| < MAXARGS
    ensures Args(t, i, done, []) == Ok(Exec(done + Laid(i, words)), j)
    decreases |words|
  {
    hide Args, GetTok, Redirs, Skip, Token, Tokens, Word, Closed, Spaced, Plain, Laid, At, Files;
    NoRedirs(t, i, j, words);
    LaidStep(done, i, words);
    if words == [] {
      ArgsEnd(t, i, done);
    } else {
      var e := FirstWord(t, i, j, words);
      WordAt(t, i, words[0]);
      NoRedirs(t, e + 1, j, words[1..]);
      ArgsStep(t, i, e, done);
      ArgsOf(t, e + 1, j, done + [Span(i, e)], words[1..]);
    }
  }

  lemma ExecOf(t: string, i: nat, j: nat, argv: seq<string>)
    requires Printed(t, i, j, Exec(argv))
    ensures ParseExec(t, i) == Ok(Exec(Laid(i, argv)), j)
  {
    hide Args, GetTok, Redirs, Skip, Token, Word, Laid, Spaced;
    NoRedirs(t, i, j, argv);
    ArgsOf(t, i, j, [], argv);
    assert [] + Laid(i, argv) == Laid(i, argv);
  }

  lemma ExecTrip(t: string, i: nat, j: nat, argv: seq<string>)
    requires Printed(t, i, j, Exec(argv))
    ensures Parsed(t, i, j, Exec(argv))
  {
    hide ParseExec, ParsePipe, ParseLine, Laid, Spaced, Word;
    ExecOf(t, i, j, argv);
    LaidTokens(t, i, j, argv);
    LineOfExec(t, i);
    assert Text(t, Exec(Laid(i, argv))) == Exec(argv);
  }

  // ---- the other commands

  lemma RedirTrip(t: string, i: nat, j: nat, c: Cmd<string>, mode: Mode, file: string, a: nat)
    requires Printed(t, i, j, Redir(c, mode, file)) && i < a < j && t[i] == '(' && Printed(t, i + 1, a, c)
    requires t[a] == ')'
    requires t[a + 1..j] == Operator(mode) + " " + file + " " && Parsed(t, i + 1, a, c) && Word(file)
    ensures Parsed(t, i, j, Redir(c, mode, file))
  {
    hide ParseLine, ParsePipe, ParseExec, ParseBlock, Redirs, GetTok, Tokens, Print, Printable;
    BlockOf(t, i, a, c);
    var w := RedirOf(t, a + 1, j, mode, file);
    assert Wrap(ParseLine(t, i + 1).value, [Redirection(mode, w)]) == Redir(ParseLine(t, i + 1).value, mode, w);
    LineOfExec(t, i);
  }

  lemma RedirOf(t: string, i: nat, j: nat, mode: Mode, file: string) returns (w: Span)
    requires i <= j <= |t| && NUL !in t && Closed(t, j) && Word(file) && t[i..j] == Operator(mode) + " " + file + " "
    ensures Skip(t, i) == i && Token(t, w) && t[w.lo..w.hi] == file && Redirs(t, i, []) == Ok([Redirection(mode, w)], j)
  {
    hide Redirs, GetTok, ModeOf, Operator, Token, Word, Closed, Skip;
    var o := i + |Operator(mode)|;
    w := Span(o + 1, o + 1 + |file|);
    assert |t[i..j]| == |Operator(mode) + " " + file + " "|;
    OperatorAt(t, i, o, w.hi, mode, file);
    WordAt(t, o + 1, file);
    RedirsOnce(t, i, j, mode, w);
  }

  lemma OperatorAt(t: string, i: nat, o: nat, e: nat, mode: Mode, file: string)
    requires o == i + |Operator(mode)| && e == o + 1 + |file| && e < |t| && NUL !in t && Word(file)
    requires t[i..e + 1] == Operator(mode) + " " + file + " "
    ensures t[o + 1..e] == file && t[e] == ' ' && Token(t, Span(o + 1, e))
    ensures Skip(t, i) == i && (t[i] == '<' || t[i] == '>')
    ensures GetTok(t, i).next == o + 1 && ModeOf(GetTok(t, i).kind) == mode
  {
    hide GetTok, ModeOf, Operator;
    Layout(t, i, o, e, Operator(mode), file);
    assert forall k :: o + 1 <= k < e ==> t[k] == t[o + 1..e][k - o - 1];
    OperatorTok(t, i, o, mode);
  }

  lemma Layout(t: string, i: nat, o: nat, e: nat, op: string, file: string)
    requires o == i + |op| && e == o + 1 + |file| && e < |t| && t[i..e + 1] == op + " " + file + " "
    ensures t[i..o] == op && t[o] == ' ' && t[o + 1..e] == file && t[e] == ' '
  {
    assert t[i..e + 1] == op + (" " + (file + " "));
    Slice(t, i, e + 1, op, " " + (file + " "));
    Slice(t, o, e + 1, " ", file + " ");
    Slice(t, o + 1, e + 1, file, " ");
    assert t[o] == t[o..o + 1][0] && t[e] == t[e..e + 1][0];
  }

  lemma OperatorTok(t: string, i: nat, o: nat, mode: Mode)
    requires o == i + |Operator(mode)| && o + 1 < |t| && NUL !in t && t[i..o] == Operator(mode) && t[o] == ' '
    requires WordChar(t[o + 1])
    ensures Skip(t, i) == i && (t[i] == '<' || t[i] == '>')
    ensures GetTok(t, i).next == o + 1 && ModeOf(GetTok(t, i).kind) == mode
  {
    assert t[i] == t[i..o][0] && (mode == Append ==> t[i + 1] == t[i..o][1]);
    assert Skip(t, o + 1) == o + 1;
    assert Skip(t, o) == o + 1;
  }

  lemma RedirsOnce(t: string, i: nat, j: nat, mode: Mode, w: Span)
    requires i <= j <= |t| && NUL !in t && Closed(t, j) && Skip(t, i) == i && i < |t| && (t[i] == '<' || t[i] == '>')
    requires GetTok(t, i).next == w.lo && ModeOf(GetTok(t, i).kind) == mode && Token(t, w)
    requires w.lo <= |t| && GetTok(t, w.lo) == Tok('a', w, Skip(t, j))
    ensures Redirs(t, i, []) == Ok([Redirection(mode, w)], j)
  {
    hide GetTok, Token;
    assert Skip(t, j) == j;
    assert [] + [Redirection(mode, w)] == [Redirection(mode, w)];
    assert Redirs(t, j, [Redirection(mode, w)]) == Ok([Redirection(mode, w)], j);
  }

  // ---- one step of parsepipe() and parseline()

  /** The text at p belongs to no command before it. */
  predicate Parts(t: string, p: nat) { p == |t| || (p < |t| && Stops(t[p])) }

  lemma PipeOfExec(t: string, i: nat)
    requires i <= |t| && NUL !in t && ParseExec(t, i).Ok? && Parts(t, ParseExec(t, i).pos)
    requires At(t, ParseExec(t, i).pos) != '|'
    ensures ParsePipe(t, i) == ParseExec(t, i)
  {
    hide ParseExec, GetTok, Tokens;
  }

  lemma PipeStep(t: string, i: nat, p: nat, q: nat, c: Cmd<Span>, d: Cmd<Span>)
    requires i <= p < |t| && NUL !in t && t[p] == '|' && Skip(t, p + 1) == p + 1
    requires ParseExec(t, i) == Ok(c, p) && ParsePipe(t, p + 1) == Ok(d, q)
    ensures ParsePipe(t, i) == Ok(Pipe(c, d), q)
  {
    hide ParseExec, GetTok, Tokens;
    SymbolAt(t, p);
  }

  lemma LineOfPipe(t: string, i: nat)
    requires i <= |t| && NUL !in t && ParsePipe(t, i).Ok? && Closed(t, ParsePipe(t, i).pos)
    ensures ParseLine(t, i) == ParsePipe(t, i)
  {
    hide ParsePipe, GetTok, Tokens;
  }

  lemma LineStep(t: string, i: nat, p: nat, q: nat, c: Cmd<Span>, d: Cmd<Span>)
    requires i <= p < |t| && NUL !in t && t[p] == ';' && Skip(t, p + 1) == p + 1
    requires ParsePipe(t, i) == Ok(c, p) && ParseLine(t, p + 1) == Ok(d, q)
    ensures ParseLine(t, i) == Ok(List(c, d), q)
  {
    hide ParsePipe, GetTok, Tokens;
    SymbolAt(t, p);
    assert Backs(t, p, c) == Ok(c, p);
  }

  lemma BackStep(t: string, i: nat, p: nat, c: Cmd<Span>)
    requires i <= p < |t| && NUL !in t && t[p] == '&' && Closed(t, p + 1) && ParsePipe(t, i) == Ok(c, p)
    ensures ParseLine(t, i) == Ok(Back(c), p + 1)
  {
    hide ParsePipe, GetTok;
    SymbolAt(t, p);
    assert Backs(t, p + 1, Back(c)) == Ok(Back(c), p + 1);
    assert Backs(t, p, c) == Ok(Back(c), p + 1);
  }

  lemma PipeTrip(t: string, i: nat, j: nat, l: Cmd<string>, r: Cmd<string>, a: nat)
    requires Printed(t, i, j, Pipe(l, r)) && i < a && a + 3 < j
    requires t[i] == '(' && Printed(t, i + 1, a, l) && Parsed(t, i + 1, a, l) && t[a] == ')' && t[a + 1] == '|'
    requires t[a + 2] == '(' && Printed(t, a + 3, j - 1, r) && Parsed(t, a + 3, j - 1, r) && t[j - 1] == ')'
    ensures Parsed(t, i, j, Pipe(l, r))
  {
    hide ParseLine, ParsePipe, ParseBlock, ParseExec, Tokens, Print, Printable;
    BlockThen(t, i, a, l);
    BlockThen(t, a + 2, j - 1, r);
    PipeOfExec(t, a + 2);
    PipeStep(t, i, a + 1, j, ParseLine(t, i + 1).value, ParseLine(t, a + 3).value);
    LineOfPipe(t, i);
  }

  lemma ListTrip(t: string, i: nat, j: nat, l: Cmd<string>, r: Cmd<string>, a: nat)
    requires Printed(t, i, j, List(l, r)) && i < a && a + 3 < j
    requires t[i] == '(' && Printed(t, i + 1, a, l) && Parsed(t, i + 1, a, l) && t[a] == ')' && t[a + 1] == ';'
    requires t[a + 2] == '(' && Printed(t, a + 3, j - 1, r) && Parsed(t, a + 3, j - 1, r) && t[j - 1] == ')'
    ensures Parsed(t, i, j, List(l, r))
  {
    hide ParseLine, ParsePipe, ParseBlock, ParseExec, Tokens, Print, Printable;
    BlockThen(t, i, a, l);
    PipeOfExec(t, i);
    BlockThen(t, a + 2, j - 1, r);
    PipeOfExec(t, a + 2);
    LineOfPipe(t, a + 2);
    LineStep(t, i, a + 1, j, ParseLine(t, i + 1).value, ParseLine(t, a + 3).value);
  }

  lemma BackTrip(t: string, i: nat, j: nat, c: Cmd<string>, a: nat)
    requires Printed(t, i, j, Back(c)) && i < a && a + 2 == j
    requires t[i] == '(' && Printed(t, i + 1, a, c) && Parsed(t, i + 1, a, c) && t[a] == ')' && t[a + 1] == '&'
    ensures Parsed(t, i, j, Back(c))
  {
    hide ParseLine, ParsePipe, ParseBlock, ParseExec, Tokens, Print, Printable;
    BlockThen(t, i, a, c);
    PipeOfExec(t, i);
    BackStep(t, i, a + 1, ParseLine(t, i + 1).value);
  }

  /** The parenthesised command at the front of a printed one. */
  lemma Inside(t: string, i: nat, j: nat, c: Cmd<string>, rest: string) returns (a: nat)
    requires i <= j <= |t| && NUL !in t && Printable(c) && t[i..j] == "(" + Print(c) + ")" + rest
    ensures i < a < j && t[i] == '(' && t[a] == ')' && t[a + 1..j] == rest && Printed(t, i + 1, a, c)
  {
    a := i + 1 + |Print(c)|;
    var s := t[i..j];
    assert s == "(" + (Print(c) + (")" + rest));
    Slice(t, i, j, "(", Print(c) + (")" + rest));
    Slice(t, i + 1, j, Print(c), ")" + rest);
    Slice(t, a, j, ")", rest);
    assert t[i] == t[i..i + 1][0] && t[a] == t[a..a + 1][0];
  }

  /** Printing any command tree with parentheses and parsing it gives the tree back. */
  lemma {:induction false} Trip(t: string, i: nat, j: nat, c: Cmd<string>)
    requires Printed(t, i, j, c)
    ensures Parsed(t, i, j, c)
    decreases c
  {
    hide Parsed, Spaced, Word, Closed;
    match c
    case Exec(argv) => ExecTrip(t, i, j, argv);
    case Redir(cmd, mode, file) =>
      var a := RedirInside(t, i, j, cmd, mode, file);
      Trip(t, i + 1, a, cmd);
      RedirTrip(t, i, j, cmd, mode, file, a);
    case Pipe(l, r) =>
      var a := TwoInside(t, i, j, l, r, '|');
      Trip(t, i + 1, a, l);
      Trip(t, a + 3, j - 1, r);
      PipeTrip(t, i, j, l, r, a);
    case List(l, r) =>
      var a := TwoInside(t, i, j, l, r, ';');
      Trip(t, i + 1, a, l);
      Trip(t, a + 3, j - 1, r);
      ListTrip(t, i, j, l, r, a);
    case Back(cmd) =>
      var a := BackInside(t, i, j, cmd);
      Trip(t, i + 1, a, cmd);
      BackTrip(t, i, j, cmd, a);
  }

  lemma BackInside(t: string, i: nat, j: nat, c: Cmd<string>) returns (a: nat)
    requires Printed(t, i, j, Back(c))
    ensures i < a && a + 2 == j && t[i] == '(' && t[a] == ')' && t[a + 1] == '&' && Printed(t, i + 1, a, c)
  {
    assert t[i..j] == "(" + Print(c) + ")" + "&";
    a := Inside(t, i, j, c, "&");
    assert t[a + 1] == t[a + 1..j][0];
  }

  lemma RedirInside(t: string, i: nat, j: nat, c: Cmd<string>, mode: Mode, file: string) returns (a: nat)
    requires Printed(t, i, j, Redir(c, mode, file))
    ensures i < a < j && t[i] == '(' && t[a] == ')' && t[a + 1..j] == Operator(mode) + " " + file + " "
    ensures Printed(t, i + 1, a, c)
  {
    assert Print(Redir(c, mode, file)) == "(" + Print(c) + ")" + (Operator(mode) + " " + file + " ");
    a := Inside(t, i, j, c, Operator(mode) + " " + file + " ");
  }

  lemma TwoInside(t: string, i: nat, j: nat, l: Cmd<string>, r: Cmd<string>, op: char) returns (a: nat)
    requires i <= j <= |t| && NUL !in t && Printable(l) && Printable(r)
    requires t[i..j] == "(" + Print(l) + (")" + [op] + "(") + Print(r) + ")"
    ensures i < a && a + 3 < j && t[i] == '(' && t[a] == ')' && t[a + 1] == op && t[a + 2] == '(' && t[j - 1] == ')'
    ensures Printed(t, i + 1, a, l) && Printed(t, a + 3, j - 1, r)
  {
    hide Print, Printable;
    a := i + 1 + |Print(l)|;
    Pieces(t, i, a, j, Print(l), op, Print(r));
  }

  lemma Pieces(t: string, i: nat, a: nat, j: nat, l: string, op: char, r: string)
    requires i <= j <= |t| && a == i + 1 + |l| && t[i..j] == "(" + l + (")" + [op] + "(") + r + ")"
    ensures a + 3 < j && t[i + 1..a] == l && t[a + 3..j - 1] == r
    ensures t[i] == '(' && t[a] == ')' && t[a + 1] == op && t[a + 2] == '(' && t[j - 1] == ')'
  {
    var mid := ")" + [op] + "(";
    assert t[i..j] == "(" + (l + (mid + (r + ")")));
    Slice(t, i, j, "(", l + (mid + (r + ")")));
    Slice(t, i + 1, j, l, mid + (r + ")"));
    Slice(t, a, j, mid, r + ")");
    Slice(t, a + 3, j, r, ")");
    assert t[i] == t[i..i + 1][0] && t[j - 1] == t[a + 3 + |r|..j][0];
    assert t[a] == t[a..a + 3][0] && t[a + 1] == t[a..a + 3][1] && t[a + 2] == t[a..a + 3][2];
  }

  lemma {:induction false} NulFree(c: Cmd<string>)
    requires Printable(c)
    ensures NUL !in Print(c)
    decreases c
  {
    match c
    case Exec(argv) => SpacedNulFree(argv);
    case Redir(cmd, mode, file) => NulFree(cmd);
    case Pipe(l, r) => NulFree(l); NulFree(r);
    case List(l, r) => NulFree(l); NulFree(r);
    case Back(cmd) => NulFree(cmd);
  }

  lemma {:induction false} SpacedNulFree(words: seq<string>)
    requires Plain(words)
    ensures NUL !in Spaced(words)
    decreases |words|
  {
    if words != [] {
      assert Word(words[0]);
      SpacedNulFree(words[1..]);
    }
  }

  lemma RoundTrip(c: Cmd<string>)
    requires Printable(c)
    ensures NUL !in Print(c) && Parse(Print(c)).Ok? && Text(Print(c), Parse(Print(c)).value) == c
  {
    hide ParseLine, Print, Tokens, Text;
    NulFree(c);
    var t := Print(c);
    assert t[0..|t|] == t;
    Trip(t, 0, |t|, c);
  }

  lemma RedirsSkip(t: string, i: nat, rs: seq<Redirection>)
    requires i <= |t| && NUL !in t && Files(t, rs)
    ensures Redirs(t, Skip(t, i), rs) == Redirs(t, i, rs)
  {
    hide GetTok, Files;
    SkipTwice(t, i);
  }

  lemma SkipTwice(t: string, i: nat)
    requires i <= |t|
    ensures Skip(t, Skip(t, i)) == Skip(t, i)
  {
  }

  lemma RedirsStep(t: string, p: nat, rs: seq<Redirection>)
    requires p <= |t| && NUL !in t && Files(t, rs) && Skip(t, p) == p && (At(t, p) == '<' || At(t, p) == '>')
    ensures var op := GetTok(t, p); var file := GetTok(t, op.next);
            if file.kind != 'a' then Redirs(t, p, rs) == Panic("missing file for redirection")
            else var more := rs + [Redirection(ModeOf(op.kind), file.span)];
              Files(t, more) && p < file.next && Redirs(t, p, rs) == Redirs(t, file.next, more)
  {
    hide GetTok, Skip, Token;
  }

  lemma RedirsEnd(t: string, p: nat, rs: seq<Redirection>)
    requires p <= |t| && NUL !in t && Files(t, rs) && Skip(t, p) == p && At(t, p) != '<' && At(t, p) != '>'
    ensures Redirs(t, p, rs) == Ok(rs, p)
  {
    hide GetTok, Skip, Token, Files;
  }

  lemma NoFiles(t: string)
    ensures Files(t, [])
  {
  }

  lemma NoTokens(t: string)
    ensures Tokens(t, Exec([]))
  {
  }

  lemma ArgsSkip(t: string, i: nat, argv: seq<Span>, rs: seq<Redirection>)
    requires i <= |t| && NUL !in t && Files(t, rs) && Tokens(t, Exec(argv))
    ensures Args(t, Skip(t, i), argv, rs) == Args(t, i, argv, rs)
  {
    hide GetTok, Files, Tokens, Skip, Redirs;
    SkipTwice(t, i);
  }

  lemma ArgsStop(t: string, p: nat, argv: seq<Span>, rs: seq<Redirection>)
    requires p <= |t| && NUL !in t && Files(t, rs) && Tokens(t, Exec(argv)) && Skip(t, p) == p && Stops(At(t, p))
    ensures Args(t, p, argv, rs) == Ok(Wrap(Exec(argv), rs), p)
  {
    hide GetTok, Files, Tokens, Skip, Redirs;
  }

  lemma ArgsNext(t: string, p: nat, argv: seq<Span>, rs: seq<Redirection>)
    requires p <= |t| && NUL !in t && Files(t, rs) && Tokens(t, Exec(argv)) && Skip(t, p) == p && !Stops(At(t, p))
    ensures var w := GetTok(t, p);
            if w.kind == NUL then Args(t, p, argv, rs) == Ok(Wrap(Exec(argv), rs), w.next)
            else if w.kind != 'a' then Args(t, p, argv, rs) == Panic("syntax")
            else if |argv| + 1 >= MAXARGS then Args(t, p, argv, rs) == Panic("too many args")
            else
              var r := Redirs(t, w.next, rs);
              Tokens(t, Exec(argv + [w.span])) && p < w.next &&
              Args(t, p, argv, rs) == if r.Panic? then Panic(r.message) else Args(t, r.pos, argv + [w.span], r.value)
  {
    hide GetTok, Files, Skip, Redirs, Token;
  }

  lemma BacksSkip(t: string, i: nat, c: Cmd<Span>)
    requires i <= |t| && NUL !in t && Tokens(t, c)
    ensures Backs(t, Skip(t, i), c) == Backs(t, i, c)
  {
    hide GetTok, Tokens;
    SkipTwice(t, i);
  }

  lemma BacksStep(t: string, p: nat, c: Cmd<Span>)
    requires p <= |t| && NUL !in t && Tokens(t, c) && Skip(t, p) == p
    ensures if At(t, p) == '&' then p < GetTok(t, p).next && Backs(t, p, c) == Backs(t, GetTok(t, p).next, Back(c))
            else Backs(t, p, c) == Ok(c, p)
  {
    hide GetTok, Skip;
  }

  // ---------------------------------------------------------------- terminating the words

  /** Some word of the command ends at k. */
  ghost predicate EndsAt(c: Cmd<Span>, k: nat) {
    match c
    case Exec(argv) => exists i :: 0 <= i < |argv| && argv[i].hi == k
    case Redir(cmd, mode, file) => EndsAt(cmd, k) || file.hi == k
    case Pipe(left, right) => EndsAt(left, k) || EndsAt(right, k)
    case List(left, right) => EndsAt(left, k) || EndsAt(right, k)
    case Back(cmd) => EndsAt(cmd, k)
  }

  /** The buffer with a NUL behind each word of the command. */
  ghost predicate Terminated(b: seq<char>, t: string, c: Cmd<Span>) {
    |t| < |b| && b[|t|] == NUL && forall k: nat :: k < |t| ==> b[k] == if EndsAt(c, k) then NUL else t[k]
  }

  /** The C string at p. */
  function CString(b: seq<char>, p: nat): string
    decreases |b| - p
  {
    if p >= |b| || b[p] == NUL then [] else [b[p]] + CString(b, p + 1)
  }

  /** The command as runcmd() will see it: argv[i] and file are C strings. */
  function CStrings(b: seq<char>, c: Cmd<Span>): Cmd<string> {
    match c
    case Exec(argv) => Exec(seq(|argv|, i requires 0 <= i < |argv| => CString(b, argv[i].lo)))
    case Redir(cmd, mode, file) => Redir(CStrings(b, cmd), mode, CString(b, file.lo))
    case Pipe(left, right) => Pipe(CStrings(b, left), CStrings(b, right))
    case List(left, right) => List(CStrings(b, left), CStrings(b, right))
    case Back(cmd) => Back(CStrings(b, cmd))
  }

  lemma {:induction false} CStringIs(b: seq<char>, lo: nat, hi: nat)
    requires lo <= hi < |b| && b[hi] == NUL && forall k :: lo <= k < hi ==> b[k] != NUL
    ensures CString(b, lo) == b[lo..hi]
    decreases hi - lo
  {
    if lo < hi {
      CStringIs(b, lo + 1, hi);
    }
  }

  /** No terminator falls inside a word. */
  lemma {:induction false} EndOutside(t: string, c: Cmd<Span>, k: nat)
    requires Tokens(t, c) && EndsAt(c, k)
    ensures k <= |t| && (k < |t| ==> !WordChar(t[k]))
    decreases c
  {
    match c
    case Exec(argv) =>
    case Redir(cmd, mode, file) => if EndsAt(cmd, k) { EndOutside(t, cmd, k); }
    case Pipe(left, right) => if EndsAt(left, k) { EndOutside(t, left, k); } else { EndOutside(t, right, k); }
    case List(left, right) => if EndsAt(left, k) { EndOutside(t, left, k); } else { EndOutside(t, right, k); }
    case Back(cmd) => EndOutside(t, cmd, k);
  }

  lemma WordSurvives(b: seq<char>, t: string, all: Cmd<Span>, w: Span)
    requires Tokens(t, all) && Terminated(b, t, all) && Token(t, w) && EndsAt(all, w.hi)
    ensures CString(b, w.lo) == t[w.lo..w.hi]
  {
    hide EndsAt, Tokens;
    forall k: nat | w.lo <= k < w.hi ensures b[k] == t[k] && b[k] != NUL {
      if EndsAt(all, k) {
        EndOutside(t, all, k);
      }
    }
    CStringIs(b, w.lo, w.hi);
  }

  /** c is part of the whole command. */
  ghost predicate Part(c: Cmd<Span>, all: Cmd<Span>) { forall k: nat :: EndsAt(c, k) ==> EndsAt(all, k) }

  /** After termination every argument and every file name is exactly its token. */
  lemma {:induction false} WordsSurvive(b: seq<char>, t: string, all: Cmd<Span>, c: Cmd<Span>)
    requires Tokens(t, all) && Terminated(b, t, all) && Tokens(t, c) && Part(c, all)
    ensures CStrings(b, c) == Text(t, c)
    decreases c
  {
    hide CString, Terminated;
    match c
    case Exec(argv) =>
      forall i | 0 <= i < |argv| ensures CString(b, argv[i].lo) == t[argv[i].lo..argv[i].hi] {
        assert EndsAt(c, argv[i].hi);
        WordSurvives(b, t, all, argv[i]);
      }
    case Redir(cmd, mode, file) =>
      assert EndsAt(c, file.hi);
      WordSurvives(b, t, all, file);
      assert forall k: nat :: EndsAt(cmd, k) ==> EndsAt(c, k);
      WordsSurvive(b, t, all, cmd);
    case Pipe(left, right) =>
      assert forall k: nat :: EndsAt(left, k) || EndsAt(right, k) ==> EndsAt(c, k);
      WordsSurvive(b, t, all, left);
      WordsSurvive(b, t, all, right);
    case List(left, right) =>
      assert forall k: nat :: EndsAt(left, k) || EndsAt(right, k) ==> EndsAt(c, k);
      WordsSurvive(b, t, all, left);
      WordsSurvive(b, t, all, right);
    case Back(cmd) =>
      assert forall k: nat :: EndsAt(cmd, k) ==> EndsAt(c, k);
      WordsSurvive(b, t, all, cmd);
  }

  /** All words end inside the buffer. */
  ghost predicate Within(c: Cmd<Span>, n: nat) { forall k: nat :: EndsAt(c, k) ==> k < n }

  /** nulterminate(): NULs exactly where words end. */
  method NulTerminate(buf: array<char>, c: Cmd<Span>)
    requires Within(c, buf.Length)
    modifies buf
    ensures forall k: nat :: k < buf.Length ==> buf[k] == if EndsAt(c, k) then NUL else old(buf[k])
    decreases c
  {
    match c
    case Exec(argv) =>
      var i := 0;
      while i < |argv|
        invariant i <= |argv|
        invariant forall k: nat :: k < buf.Length ==> buf[k] == if EndsAt(Exec(argv[..i]), k) then NUL else old(buf[k])
      {
        assert EndsAt(c, argv[i].hi);
        buf[argv[i].hi] := NUL;
        OneMore(argv, i);
        i := i + 1;
      }
      assert argv[..i] == argv;
    case Redir(cmd, mode, file) =>
      assert EndsAt(c, file.hi);
      assert forall k: nat :: EndsAt(cmd, k) ==> EndsAt(c, k);
      NulTerminate(buf, cmd);
      buf[file.hi] := NUL;
    case Pipe(left, right) =>
      assert forall k: nat :: EndsAt(left, k) || EndsAt(right, k) ==> EndsAt(c, k);
      NulTerminate(buf, left);
      NulTerminate(buf, right);
    case List(left, right) =>
      assert forall k: nat :: EndsAt(left, k) || EndsAt(right, k) ==> EndsAt(c, k);
      NulTerminate(buf, left);
      NulTerminate(buf, right);
    case Back(cmd) =>
      assert forall k: nat :: EndsAt(cmd, k) ==> EndsAt(c, k);
      NulTerminate(buf, cmd);
  }

  lemma OneMore(argv: seq<Span>, i: nat)
    requires i < |argv|
    ensures forall k: nat :: EndsAt(Exec(argv[..i + 1]), k) <==> EndsAt(Exec(argv[..i]), k) || argv[i].hi == k
  {
    assert argv[..i + 1] == argv[..i] + [argv[i]];
    forall k: nat ensures EndsAt(Exec(argv[..i + 1]), k) <==> EndsAt(Exec(argv[..i]), k) || argv[i].hi == k {
      if argv[i].hi == k { assert argv[..i + 1][i].hi == k; }
      if EndsAt(Exec(argv[..i]), k) {
        var m :| 0 <= m < i && argv[..i][m].hi == k;
        assert argv[..i + 1][m].hi == k;
      }
    }
  }

  lemma AtEnd(b: seq<char>, t: string, c: Cmd<Span>)
    requires |t| < |b|
    requires forall k: nat :: k < |b| ==>
             b[k] == if EndsAt(c, k) then NUL else if k < |t| then t[k] else if k == |t| then NUL else b[k]
    ensures Terminated(b, t, c)
  {
  }

  // ---------------------------------------------------------------- the code

  class Parser {
    const buf: array<char>
    const es: nat
    var ps: nat

    ghost predicate Valid()
      reads this, buf
    {
      es < buf.Length && buf[es] == NUL && NUL !in buf[..es] && ps <= es
    }

    ghost function T(): string
      requires es <= buf.Length
      reads buf
    {
      buf[..es]
    }

    /** The input is a C string of length es. */
    constructor (buf: array<char>, es: nat)
      requires es < buf.Length && buf[es] == NUL && NUL !in buf[..es]
      ensures Valid() && ps == 0 && this.buf == buf && this.es == es
    {
      this.buf, this.es, ps := buf, es, 0;
    }

    method SkipWhite()
      requires Valid()
      modifies this`ps
      ensures Valid() && ps == Skip(T(), old(ps))
    {
      while ps < es && White(buf[ps])
        invariant Valid() && Skip(T(), ps) == Skip(T(), old(ps))
        decreases es - ps
      {
        ps := ps + 1;
      }
    }

    /** peek(): the character at the cursor, NUL if none, behind the white space. */
    method Peek() returns (c: char)
      requires Valid()
      modifies this`ps
      ensures Valid() && ps == Skip(T(), old(ps)) == Skip(T(), ps) && c == At(T(), ps)
    {
      SkipWhite();
      c := buf[ps];
    }

    method ScanWord()
      requires Valid()
      modifies this`ps
      ensures Valid() && ps == WordEnd(T(), old(ps))
    {
      while ps < es && !White(buf[ps]) && !Symbol(buf[ps])
        invariant Valid() && WordEnd(T(), ps) == WordEnd(T(), old(ps))
        decreases es - ps
      {
        ps := ps + 1;
      }
    }

    /** gettoken(). */
    method GetToken() returns (kind: char, w: Span)
      requires Valid()
      modifies this`ps
      ensures Valid() && Tok(kind, w, ps) == GetTok(T(), old(ps))
    {
      hide Skip, WordEnd, Token, White;
      SkipWhite();
      var q := ps;
      kind := buf[ps];
      if kind == NUL {
      } else if kind == '>' {
        ps := ps + 1;
        if buf[ps] == '>' {
          kind := '+';
          ps := ps + 1;
        }
      } else if Symbol(kind) {
        ps := ps + 1;
      } else {
        kind := 'a';
        ScanWord();
      }
      w := Span(q, ps);
      SkipWhite();
    }

    /** parseredirs(), collecting the redirections around a command. */
    method ParseRedirs(rs: seq<Redirection>) returns (r: Result<seq<Redirection>>)
      requires Valid() && Files(T(), rs)
      modifies this`ps
      ensures Valid() && r == Redirs(T(), old(ps), rs) && (r.Ok? ==> ps == r.pos)
    {
      hide Skip, GetTok, Token, Redirs, Files;
      var got := rs;
      RedirsSkip(T(), ps, got);
      var c := Peek();
      while c == '<' || c == '>'
        invariant Valid() && Files(T(), got) && ps == Skip(T(), ps) && c == At(T(), ps)
        invariant Redirs(T(), ps, got) == Redirs(T(), old(ps), rs)
        decreases es - ps
      {
        RedirsStep(T(), ps, got);
        var op, _ := GetToken();
        var kind, file := GetToken();
        if kind != 'a' {
          return Panic("missing file for redirection");
        }
        got := got + [Redirection(ModeOf(op), file)];
        RedirsSkip(T(), ps, got);
        c := Peek();
      }
      RedirsEnd(T(), ps, got);
      return Ok(got, ps);
    }

    /** parseexec() behind the test for a parenthesis. */
    method ParseSimple() returns (r: Result<Cmd<Span>>)
      requires Valid()
      modifies this`ps
      ensures Valid() && (r.Ok? ==> ps == r.pos)
      ensures var d := Redirs(T(), old(ps), []);
              r == if d.Panic? then Panic(d.message) else Args(T(), d.pos, [], d.value)
    {
      hide Skip, GetTok, Token, Redirs, Files, Args, Tokens;
      NoFiles(T());
      var d := ParseRedirs([]);
      if d.Panic? {
        return Panic(d.message);
      }
      ghost var start := ps;
      var argv, got := [], d.value;
      NoTokens(T());
      ArgsSkip(T(), ps, argv, got);
      var c := Peek();
      while !Stops(c)
        invariant Valid() && Files(T(), got) && Tokens(T(), Exec(argv)) && ps == Skip(T(), ps) && c == At(T(), ps)
        invariant Args(T(), ps, argv, got) == Args(T(), start, [], d.value)
        decreases es - ps
      {
        ArgsNext(T(), ps, argv, got);
        var kind, w := GetToken();
        if kind == NUL {
          return Ok(Wrap(Exec(argv), got), ps);
        }
        if kind != 'a' {
          return Panic("syntax");
        }
        argv := argv + [w];
        if |argv| >= MAXARGS {
          return Panic("too many args");
        }
        var e := ParseRedirs(got);
        if e.Panic? {
          return Panic(e.message);
        }
        got := e.value;
        ArgsSkip(T(), ps, argv, got);
        c := Peek();
      }
      ArgsStop(T(), ps, argv, got);
      return Ok(Wrap(Exec(argv), got), ps);
    }

    method ParseExecCmd() returns (r: Result<Cmd<Span>>)
      requires Valid()
      modifies this`ps
      ensures Valid() && r == ParseExec(T(), old(ps)) && (r.Ok? ==> ps == r.pos)
      decreases es - ps, 1
    {
      hide Skip, Redirs, Args, ParseBlock, Tokens;
      var c := Peek();
      if c == '(' {
        r := ParseBlockCmd();
      } else {
        r := ParseSimple();
      }
    }

    method ParseBlockCmd() returns (r: Result<Cmd<Span>>)
      requires Valid() && ps < es && buf[ps] == '('
      modifies this`ps
      ensures Valid() && r == ParseBlock(T(), old(ps)) && (r.Ok? ==> ps == r.pos)
      decreases es - ps, 0
    {
      hide Skip, Redirs, ParseLine, Tokens, GetTok;
      var _, _ := GetToken();
      var c := ParseLineCmd();
      if c.Panic? {
        return c;
      }
      var ch := Peek();
      if ch != ')' {
        return Panic("syntax - missing )");
      }
      var _, _ := GetToken();
      NoFiles(T());
      var d := ParseRedirs([]);
      if d.Panic? {
        return Panic(d.message);
      }
      return Ok(Wrap(c.value, d.value), ps);
    }

    method ParsePipeCmd() returns (r: Result<Cmd<Span>>)
      requires Valid()
      modifies this`ps
      ensures Valid() && r == ParsePipe(T(), old(ps)) && (r.Ok? ==> ps == r.pos)
      decreases es - ps, 2
    {
      hide Skip, ParseExec, Tokens, GetTok;
      r := ParseExecCmd();
      if r.Panic? {
        return;
      }
      var c := Peek();
      if c != '|' {
        return Ok(r.value, ps);
      }
      var _, _ := GetToken();
      var d := ParsePipeCmd();
      if d.Panic? {
        return d;
      }
      return Ok(Pipe(r.value, d.value), ps);
    }

    method ParseLineCmd() returns (r: Result<Cmd<Span>>)
      requires Valid()
      modifies this`ps
      ensures Valid() && r == ParseLine(T(), old(ps)) && (r.Ok? ==> ps == r.pos)
      decreases es - ps, 3
    {
      hide Skip, ParsePipe, Tokens, GetTok, Backs;
      r := ParsePipeCmd();
      if r.Panic? {
        return;
      }
      var b := ParseBacks(r.value);
      var c := Peek();
      if c != ';' {
        return Ok(b, ps);
      }
      var _, _ := GetToken();
      var d := ParseLineCmd();
      if d.Panic? {
        return d;
      }
      return Ok(List(b, d.value), ps);
    }

    /** The loop of parseline(). */
    method ParseBacks(cmd: Cmd<Span>) returns (b: Cmd<Span>)
      requires Valid() && Tokens(T(), cmd)
      modifies this`ps
      ensures Valid() && Ok(b, ps) == Backs(T(), old(ps), cmd)
    {
      hide Skip, GetTok, Backs;
      b := cmd;
      BacksSkip(T(), ps, b);
      var c := Peek();
      while c == '&'
        invariant Valid() && Tokens(T(), b) && ps == Skip(T(), ps) && c == At(T(), ps)
        invariant Backs(T(), ps, b) == Backs(T(), old(ps), cmd)
        decreases es - ps
      {
        BacksStep(T(), ps, b);
        var _, _ := GetToken();
        b := Back(b);
        BacksSkip(T(), ps, b);
        c := Peek();
      }
      BacksStep(T(), ps, b);
    }
  }

  /** parsecmd(): parse, and terminate the words in place; every string is its token. */
  method ParseCmd(buf: array<char>, n: nat) returns (r: Result<Cmd<Span>>)
    requires n < buf.Length && buf[n] == NUL && NUL !in buf[..n]
    modifies buf
    ensures NUL !in old(buf[..n]) && r == Parse(old(buf[..n]))
    ensures r.Ok? ==> CStrings(buf[..], r.value) == Text(old(buf[..n]), r.value)
    ensures r.Panic? ==> buf[..] == old(buf[..])
  {
    hide ParseLine, Tokens, Text, CStrings, EndsAt;
    ghost var t := buf[..n];
    var p := new Parser(buf, n);
    r := p.ParseLineCmd();
    if r.Panic? {
      return;
    }
    p.SkipWhite();
    if p.ps != n {
      return Panic("syntax");
    }
    forall k: nat | EndsAt(r.value, k) ensures k < buf.Length {
      EndOutside(t, r.value, k);
    }
    NulTerminate(buf, r.value);
    AtEnd(buf[..], t, r.value);
    WordsSurvive(buf[..], t, r.value, r.value);
    r := Ok(r.value, n);
  }
}
