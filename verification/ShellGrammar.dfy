/** The command language of user/sh.c as a grammar over lexemes, and the parser against it: it
    accepts exactly the texts of the grammar, however they are spaced, and builds their tree. */
module ShellGrammar {
  import opened Shell

  // ---------------------------------------------------------------- lexemes

  /** A word, or a symbol; '+' is the symbol ">>". */
  datatype Lexeme = Name(w: string) | Sign(s: char)

  predicate Sound(x: Lexeme) { match x case Name(w) => Word(w) case Sign(s) => Symbol(s) || s == '+' }

  function Spelling(x: Lexeme): string { match x case Name(w) => w case Sign(s) => if s == '+' then ">>" else [s] }

  predicate Blank(t: string, i: nat, p: nat) { i <= p <= |t| && forall k :: i <= k < p ==> White(t[k]) }

  /** x stands at p, as long as it can be. */
  predicate Stands(t: string, p: nat, x: Lexeme) {
    var e := p + |Spelling(x)|;
    && e <= |t| && t[p..e] == Spelling(x)
    && (x.Name? ==> e == |t| || !WordChar(t[e])) && (x == Sign('>') ==> e == |t| || t[e] != '>')
  }

  /** From i on the text is these lexemes with any white space around them. */
  ghost predicate Spells(t: string, i: nat, xs: seq<Lexeme>)
    decreases |xs|
  {
    if xs == [] then Blank(t, i, |t|)
    else exists p: nat :: Blank(t, i, p) && Stands(t, p, xs[0]) && Spells(t, p + |Spelling(xs[0])|, xs[1..])
  }

  function LexemeOf(t: string, k: Tok): Lexeme
    requires k.span.lo <= k.span.hi <= |t|
  {
    if k.kind == 'a' then Name(t[k.span.lo..k.span.hi]) else Sign(k.kind)
  }

  /** What gettoken() returns one after the other. */
  function Lex(t: string, i: nat): seq<Lexeme>
    requires i <= |t| && NUL !in t
    decreases |t| - i
  {
    var k := GetTok(t, i);
    if k.kind == NUL then [] else [LexemeOf(t, k)] + Lex(t, k.next)
  }

  lemma {:induction false} SkipTo(t: string, i: nat, p: nat)
    requires Blank(t, i, p) && (p == |t| || !White(t[p]))
    ensures Skip(t, i) == p
    decreases p - i
  {
    if i < p {
      SkipTo(t, i + 1, p);
    }
  }

  lemma {:induction false} SkipBlank(t: string, i: nat)
    requires i <= |t|
    ensures Blank(t, i, Skip(t, i))
    decreases |t| - i
  {
    if i < |t| && White(t[i]) {
      SkipBlank(t, i + 1);
    }
  }

  lemma SkipGap(t: string, i: nat, p: nat)
    requires Blank(t, i, p)
    ensures Skip(t, i) == Skip(t, p)
  {
    SkipBlank(t, p);
    SkipTo(t, i, Skip(t, p));
  }

  lemma {:induction false} EndTo(t: string, i: nat, e: nat)
    requires i <= e <= |t| && NUL !in t && (forall k :: i <= k < e ==> WordChar(t[k])) && (e == |t| || !WordChar(t[e]))
    ensures WordEnd(t, i) == e
    decreases e - i
  {
    if i < e {
      EndTo(t, i + 1, e);
    } else if e < |t| {
      assert t[e] != NUL;
    }
  }

  /** gettoken() finds the lexeme that stands behind the white space. */
  lemma TokOf(t: string, i: nat, p: nat, x: Lexeme)
    requires NUL !in t && Blank(t, i, p) && Stands(t, p, x) && Sound(x)
    ensures var k := GetTok(t, i);
            k.kind != NUL && k.span == Span(p, p + |Spelling(x)|) && LexemeOf(t, k) == x
            && k.next == Skip(t, p + |Spelling(x)|)
  {
    var e := p + |Spelling(x)|;
    assert forall k :: p <= k < e ==> t[k] == t[p..e][k - p];
    assert p < e && t[p] == Spelling(x)[0];
    SkipTo(t, i, p);
    if x.Name? {
      EndTo(t, p, e);
    } else if x.s == '+' {
      assert t[p + 1] == Spelling(x)[1];
    }
  }

  /** What gettoken() returns stands in the text behind white space. */
  lemma TokStands(t: string, i: nat)
    requires i <= |t| && NUL !in t
    ensures var k := GetTok(t, i);
            if k.kind == NUL then Blank(t, i, |t|)
            else
              && Blank(t, i, k.span.lo) && Sound(LexemeOf(t, k)) && Stands(t, k.span.lo, LexemeOf(t, k))
              && k.span.hi == k.span.lo + |Spelling(LexemeOf(t, k))| && k.next == Skip(t, k.span.hi)
  {
    hide WordEnd, Blank;
    SkipBlank(t, i);
  }

  lemma {:induction false} LexSkip(t: string, i: nat, p: nat)
    requires NUL !in t && Blank(t, i, p)
    ensures GetTok(t, i) == GetTok(t, p) && Lex(t, i) == Lex(t, p)
  {
    SkipGap(t, i, p);
  }

  /** White space in front does not matter. */
  lemma SpellsGap(t: string, i: nat, p: nat, xs: seq<Lexeme>)
    requires Blank(t, i, p) && Spells(t, p, xs)
    ensures Spells(t, i, xs)
  {
    hide Stands;
    if xs != [] {
      var q: nat :| Blank(t, p, q) && Stands(t, q, xs[0]) && Spells(t, q + |Spelling(xs[0])|, xs[1..]);
      assert Blank(t, i, q);
    }
  }

  lemma SpellsMore(t: string, i: nat, p: nat, x: Lexeme, xs: seq<Lexeme>)
    requires Blank(t, i, p) && Stands(t, p, x) && Spells(t, p + |Spelling(x)|, xs)
    ensures Spells(t, i, [x] + xs)
  {
    hide Stands, Blank, Spelling;
    var all := [x] + xs;
    assert all[0] == x && all[1..] == xs;
  }

  lemma {:induction false} LexSpells(t: string, i: nat)
    requires i <= |t| && NUL !in t
    ensures Spells(t, i, Lex(t, i)) && forall k :: 0 <= k < |Lex(t, i)| ==> Sound(Lex(t, i)[k])
    decreases |t| - i
  {
    hide GetTok, Stands, Sound, Spelling, Blank, LexemeOf;
    var k := GetTok(t, i);
    TokStands(t, i);
    if k.kind != NUL {
      SkipBlank(t, k.span.hi);
      LexSpells(t, k.next);
      SpellsGap(t, k.span.hi, k.next, Lex(t, k.next));
      SpellsMore(t, i, k.span.lo, LexemeOf(t, k), Lex(t, k.next));
    }
  }

  lemma {:induction false} SpellsLex(t: string, i: nat, xs: seq<Lexeme>)
    requires i <= |t| && NUL !in t && Spells(t, i, xs) && forall k :: 0 <= k < |xs| ==> Sound(xs[k])
    ensures Lex(t, i) == xs
    decreases |xs|
  {
    hide GetTok, Stands, Sound, Blank, LexemeOf, Spelling;
    if xs == [] {
      SkipTo(t, i, |t|);
      NoTok(t, i);
    } else {
      var p: nat :| Blank(t, i, p) && Stands(t, p, xs[0]) && Spells(t, p + |Spelling(xs[0])|, xs[1..]);
      var e := p + |Spelling(xs[0])|;
      TokOf(t, i, p, xs[0]);
      EndInside(t, p, xs[0]);
      SkipBlank(t, e);
      LexSkip(t, e, Skip(t, e));
      SpellsLex(t, e, xs[1..]);
      assert xs == [xs[0]] + xs[1..];
    }
  }

  lemma NoTok(t: string, i: nat)
    requires i <= |t| && NUL !in t && Skip(t, i) == |t|
    ensures GetTok(t, i).kind == NUL
  {
  }

  lemma EndInside(t: string, p: nat, x: Lexeme)
    requires Stands(t, p, x)
    ensures p + |Spelling(x)| <= |t|
  {
  }

  /** gettoken() reads exactly the spelling: longest words, ">>" before ">", any white space. */
  lemma LexIff(t: string, xs: seq<Lexeme>)
    requires NUL !in t && forall k :: 0 <= k < |xs| ==> Sound(xs[k])
    ensures Spells(t, 0, xs) <==> Lex(t, 0) == xs
  {
    LexSpells(t, 0);
    if Spells(t, 0, xs) {
      SpellsLex(t, 0, xs);
    }
  }

  // ---------------------------------------------------------------- the grammar

  datatype Red = Red(mode: Mode, file: string)

  /** A word, or a redirection, in a simple command. */
  datatype Item = Arg(w: string) | To(r: Red)

  datatype Atom = Simple(items: seq<Item>) | Block(line: Line, reds: seq<Red>)
  datatype Chain = Last(a: Atom) | PipeTo(a: Atom, rest: Chain)
  datatype Line = Line(chain: Chain, amps: nat, more: More)
  datatype More = Done | Then(line: Line)

  function OpSign(m: Mode): Lexeme { match m case Input => Sign('<') case Output => Sign('>') case Append => Sign('+') }

  function ShowRed(r: Red): seq<Lexeme> { [OpSign(r.mode), Name(r.file)] }

  function ShowReds(rs: seq<Red>): seq<Lexeme> { if rs == [] then [] else ShowRed(rs[0]) + ShowReds(rs[1..]) }

  function ShowItem(x: Item): seq<Lexeme> { match x case Arg(w) => [Name(w)] case To(r) => ShowRed(r) }

  function ShowItems(xs: seq<Item>): seq<Lexeme> { if xs == [] then [] else ShowItem(xs[0]) + ShowItems(xs[1..]) }

  function Amps(n: nat): seq<Lexeme> { if n == 0 then [] else [Sign('&')] + Amps(n - 1) }

  function ShowAtom(a: Atom): seq<Lexeme> {
    match a
    case Simple(items) => ShowItems(items)
    case Block(line, reds) => [Sign('(')] + ShowLine(line) + [Sign(')')] + ShowReds(reds)
  }

  function ShowChain(c: Chain): seq<Lexeme> {
    match c
    case Last(a) => ShowAtom(a)
    case PipeTo(a, rest) => ShowAtom(a) + [Sign('|')] + ShowChain(rest)
  }

  function ShowLine(l: Line): seq<Lexeme> { ShowChain(l.chain) + Amps(l.amps) + ShowMore(l.more) }

  function ShowMore(m: More): seq<Lexeme> { match m case Done => [] case Then(line) => [Sign(';')] + ShowLine(line) }

  // ---- what a text of the grammar means

  function Words(xs: seq<Item>): seq<string> {
    if xs == [] then [] else (if xs[0].Arg? then [xs[0].w] else []) + Words(xs[1..])
  }

  function Reds(xs: seq<Item>): seq<Red> {
    if xs == [] then [] else (if xs[0].To? then [xs[0].r] else []) + Reds(xs[1..])
  }

  /** The last redirection is the outermost. */
  function Redirected(c: Cmd<string>, rs: seq<Red>): Cmd<string>
    decreases |rs|
  {
    if rs == [] then c
    else
      var k := |rs| - 1;
      Redir(Redirected(c, rs[..k]), rs[k].mode, rs[k].file)
  }

  function Background(c: Cmd<string>, n: nat): Cmd<string> { if n == 0 then c else Back(Background(c, n - 1)) }

  function AtomTree(a: Atom): Cmd<string> {
    match a
    case Simple(items) => Redirected(Exec(Words(items)), Reds(items))
    case Block(line, reds) => Redirected(LineTree(line), reds)
  }

  function ChainTree(c: Chain): Cmd<string> {
    match c
    case Last(a) => AtomTree(a)
    case PipeTo(a, rest) => Pipe(AtomTree(a), ChainTree(rest))
  }

  function LineTree(l: Line): Cmd<string> {
    var c := Background(ChainTree(l.chain), l.amps);
    match l.more
    case Done => c
    case Then(line) => List(c, LineTree(line))
  }

  /** Words and file names are words, and a simple command has at most nine. */
  predicate AtomFits(a: Atom) {
    match a
    case Simple(items) =>
      && |Words(items)| < MAXARGS
      && forall k :: 0 <= k < |items| ==> Word(if items[k].Arg? then items[k].w else items[k].r.file)
    case Block(line, reds) => LineFits(line) && forall k :: 0 <= k < |reds| ==> Word(reds[k].file)
  }

  predicate ChainFits(c: Chain) {
    match c
    case Last(a) => AtomFits(a)
    case PipeTo(a, rest) => AtomFits(a) && ChainFits(rest)
  }

  predicate LineFits(l: Line) { ChainFits(l.chain) && MoreFits(l.more) }

  predicate MoreFits(m: More) { m.Then? ==> LineFits(m.line) }

  // ---------------------------------------------------------------- looking ahead

  predicate IsSign(xs: seq<Lexeme>, c: char) { xs != [] && xs[0] == Sign(c) }

  /** A simple command or a redirection list ends here. */
  predicate Follows(xs: seq<Lexeme>) {
    xs == [] || IsSign(xs, '|') || IsSign(xs, '&') || IsSign(xs, ';') || IsSign(xs, ')')
  }

  predicate NoRed(xs: seq<Lexeme>) { !IsSign(xs, '<') && !IsSign(xs, '>') && !IsSign(xs, '+') }

  /** The character c begins the lexemes xs, as far as symbols go. */
  predicate Seen(c: char, xs: seq<Lexeme>) {
    && (c == '<' <==> IsSign(xs, '<')) && (c == '|' <==> IsSign(xs, '|')) && (c == '&' <==> IsSign(xs, '&'))
    && (c == ';' <==> IsSign(xs, ';')) && (c == '(' <==> IsSign(xs, '(')) && (c == ')' <==> IsSign(xs, ')'))
    && (c == '>' <==> IsSign(xs, '>') || IsSign(xs, '+'))
  }

  /** What peek() sees is the next lexeme, and gettoken() takes it. */
  lemma Peeked(t: string, i: nat)
    requires i <= |t| && NUL !in t
    ensures var p, xs := Skip(t, i), Lex(t, i);
            && Lex(t, p) == xs && Skip(t, p) == p && (xs == [] <==> p == |t|)
            && Seen(At(t, p), xs)
            && GetTok(t, p) == GetTok(t, i) && (GetTok(t, p).kind == NUL <==> xs == [])
            && (xs != [] ==> LexemeOf(t, GetTok(t, p)) == xs[0] && Lex(t, GetTok(t, p).next) == xs[1..])
  {
    hide Lex, WordEnd;
    SkipBlank(t, i);
    LexSkip(t, i, Skip(t, i));
    SkipTwice(t, i);
    LexStep(t, i);
  }

  lemma LexStep(t: string, i: nat)
    requires i <= |t| && NUL !in t
    ensures var k, xs := GetTok(t, i), Lex(t, i);
            && (k.kind == NUL <==> xs == [])
            && (xs != [] ==> LexemeOf(t, k) == xs[0] && Lex(t, k.next) == xs[1..])
  {
    hide GetTok;
  }

  // ---------------------------------------------------------------- redirections

  function RedTexts(t: string, rs: seq<Redirection>): seq<Red>
    requires Files(t, rs)
  {
    seq(|rs|, k requires 0 <= k < |rs| => Red(rs[k].mode, t[rs[k].file.lo..rs[k].file.hi]))
  }

  lemma {:induction false} InnerRed(c: Cmd<string>, r: Red, rs: seq<Red>)
    ensures Redirected(c, [r] + rs) == Redirected(Redir(c, r.mode, r.file), rs)
    decreases |rs|
  {
    if rs == [] {
      assert [r] + rs == [r] && [r][..0] == [];
      assert Redirected(c, [r]) == Redir(Redirected(c, [r][..0]), r.mode, r.file);
    } else {
      var k := |rs| - 1;
      assert ([r] + rs)[..k + 1] == [r] + rs[..k];
      InnerRed(c, r, rs[..k]);
    }
  }

  /** The redirections are nested in the order in which they were read. */
  lemma {:induction false} WrapText(t: string, c: Cmd<Span>, rs: seq<Redirection>)
    requires Tokens(t, c) && Files(t, rs)
    ensures Tokens(t, Wrap(c, rs)) && Text(t, Wrap(c, rs)) == Redirected(Text(t, c), RedTexts(t, rs))
    decreases |rs|
  {
    hide Token;
    WrapTokens(t, c, rs);
    if rs != [] {
      var d := Redir(c, rs[0].mode, rs[0].file);
      WrapText(t, d, rs[1..]);
      var texts := RedTexts(t, rs);
      assert texts == [texts[0]] + RedTexts(t, rs[1..]);
      InnerRed(Text(t, c), texts[0], RedTexts(t, rs[1..]));
    }
  }

  lemma RedSign(t: string, i: nat, mode: Mode)
    requires i <= |t| && NUL !in t && Lex(t, i) != [] && Lex(t, i)[0] == OpSign(mode)
    ensures var p := Skip(t, i); (At(t, p) == '<' || At(t, p) == '>') && ModeOf(GetTok(t, p).kind) == mode
  {
    hide Lex, GetTok, Skip;
    Peeked(t, i);
  }

  /** The redirections at i, whatever follows. */
  lemma {:induction false} RedirsRead(t: string, i: nat, rs: seq<Redirection>, reds: seq<Red>, rest: seq<Lexeme>)
    requires i <= |t| && NUL !in t && Files(t, rs) && Lex(t, i) == ShowReds(reds) + rest && NoRed(rest)
    ensures var r := Redirs(t, i, rs);
            r.Ok? && Lex(t, r.pos) == rest && RedTexts(t, r.value) == RedTexts(t, rs) + reds
    decreases |reds|
  {
    hide Lex, GetTok, Skip, Token, Redirs, NoRed;
    var p := Skip(t, i);
    Peeked(t, i);
    RedirsSkip(t, i, rs);
    if reds == [] {
      assert ShowReds(reds) + rest == rest;
      NoRedAhead(t, i);
      RedirsEnd(t, p, rs);
      assert RedTexts(t, rs) + [] == RedTexts(t, rs);
    } else {
      assert ShowReds(reds) + rest == [OpSign(reds[0].mode), Name(reds[0].file)] + (ShowReds(reds[1..]) + rest);
      RedSign(t, i, reds[0].mode);
      RedirsStep(t, p, rs);
      var op := GetTok(t, p);
      var file := GetTok(t, op.next);
      Peeked(t, op.next);
      LexStep(t, op.next);
      NameTok(t, op.next);
      var more := rs + [Redirection(reds[0].mode, file.span)];
      RedirsRead(t, file.next, more, reds[1..], rest);
      assert RedTexts(t, more) == RedTexts(t, rs) + [reds[0]];
      assert RedTexts(t, rs) + [reds[0]] + reds[1..] == RedTexts(t, rs) + reds;
    }
  }

  lemma NoRedAhead(t: string, i: nat)
    requires i <= |t| && NUL !in t
    ensures NoRed(Lex(t, i)) <==> At(t, Skip(t, i)) != '<' && At(t, Skip(t, i)) != '>'
  {
    hide Lex, GetTok, Skip;
    Peeked(t, i);
  }

  lemma NameTok(t: string, i: nat)
    requires i <= |t| && NUL !in t && Lex(t, i) != [] && Lex(t, i)[0].Name?
    ensures var k := GetTok(t, i); k.kind == 'a' && t[k.span.lo..k.span.hi] == Lex(t, i)[0].w
  {
    hide GetTok;
  }

  // ---------------------------------------------------------------- simple commands

  function Spelled(t: string, argv: seq<Span>): seq<string>
    requires Tokens(t, Exec(argv))
  {
    seq(|argv|, k requires 0 <= k < |argv| => t[argv[k].lo..argv[k].hi])
  }

  /** The redirections at the front. */
  function Lead(xs: seq<Item>): seq<Red> { if xs == [] || xs[0].Arg? then [] else [xs[0].r] + Lead(xs[1..]) }

  lemma Assoc<T>(a: seq<T>, b: seq<T>, c: seq<T>)
    ensures a + b + c == a + (b + c)
  {
  }

  lemma FirstRed(xs: seq<Item>)
    requires xs != [] && xs[0].To?
    ensures ShowItems(xs) == ShowRed(xs[0].r) + ShowItems(xs[1..])
    ensures Reds(xs) == [xs[0].r] + Reds(xs[1..]) && Words(xs) == Words(xs[1..])
  {
  }

  lemma LeadRed(r: Red, rs: seq<Red>)
    ensures ShowReds([r] + rs) == ShowRed(r) + ShowReds(rs)
  {
    assert ([r] + rs)[1..] == rs;
  }

  lemma NoReds()
    ensures ShowReds([]) == []
  {
  }

  lemma {:induction false} LeadIs(xs: seq<Item>)
    ensures var n := |Lead(xs)|;
            && n <= |xs| && (n < |xs| ==> xs[n].Arg?) && ShowItems(xs) == ShowReds(Lead(xs)) + ShowItems(xs[n..])
            && Reds(xs) == Lead(xs) + Reds(xs[n..]) && Words(xs) == Words(xs[n..])
    decreases |xs|
  {
    hide ShowItems, ShowReds, Reds, Words, ShowRed;
    if xs != [] && xs[0].To? {
      LeadIs(xs[1..]);
      var n := |Lead(xs[1..])|;
      assert xs[1..][n..] == xs[n + 1..];
      FirstRed(xs);
      LeadRed(xs[0].r, Lead(xs[1..]));
      assert Lead(xs) == [xs[0].r] + Lead(xs[1..]);
      Assoc(ShowRed(xs[0].r), ShowReds(Lead(xs[1..])), ShowItems(xs[n + 1..]));
      Assoc([xs[0].r], Lead(xs[1..]), Reds(xs[n + 1..]));
    } else {
      assert xs[0..] == xs;
      NoReds();
      assert [] + ShowItems(xs) == ShowItems(xs) && [] + Reds(xs) == Reds(xs);
    }
  }

  lemma ItemsNoRed(xs: seq<Item>, rest: seq<Lexeme>)
    requires (xs == [] || xs[0].Arg?) && Follows(rest)
    ensures NoRed(ShowItems(xs) + rest)
  {
    if xs == [] {
      assert ShowItems(xs) + rest == rest;
    }
  }

  lemma NameAhead(t: string, i: nat)
    requires i <= |t| && NUL !in t && Lex(t, i) != [] && Lex(t, i)[0].Name?
    ensures !Stops(At(t, Skip(t, i))) && At(t, Skip(t, i)) != '('
  {
    hide Lex, GetTok, Skip;
    Peeked(t, i);
  }

  lemma MoreSpelled(t: string, argv: seq<Span>, w: Span)
    requires Tokens(t, Exec(argv)) && Token(t, w)
    ensures Tokens(t, Exec(argv + [w])) && Spelled(t, argv + [w]) == Spelled(t, argv) + [t[w.lo..w.hi]]
  {
    hide Token;
  }

  lemma ArgsEndRead(t: string, i: nat, argv: seq<Span>, rs: seq<Redirection>)
    requires i <= |t| && NUL !in t && Files(t, rs) && Tokens(t, Exec(argv)) && Follows(Lex(t, i))
    ensures var r := Args(t, Skip(t, i), argv, rs);
            && r.Ok? && Lex(t, r.pos) == Lex(t, i)
            && Text(t, r.value) == Redirected(Exec(Spelled(t, argv)), RedTexts(t, rs))
  {
    hide Lex, GetTok, Skip, Token, Redirs, Args, Files;
    Peeked(t, i);
    var p := Skip(t, i);
    WrapText(t, Exec(argv), rs);
    if Stops(At(t, p)) {
      ArgsStop(t, p, argv, rs);
    } else {
      FollowsStops(t, i);
      ArgsNext(t, p, argv, rs);
      LexEnd(t, p);
    }
  }

  lemma FollowsStops(t: string, i: nat)
    requires i <= |t| && NUL !in t
    ensures Follows(Lex(t, i)) <==> Lex(t, i) == [] || Stops(At(t, Skip(t, i)))
  {
    hide Lex, GetTok, Skip;
    Peeked(t, i);
  }

  lemma LexEnd(t: string, p: nat)
    requires p <= |t| && NUL !in t && Lex(t, p) == []
    ensures GetTok(t, p).kind == NUL && Lex(t, GetTok(t, p).next) == []
  {
  }

  lemma FirstItem(xs: seq<Item>)
    requires xs != [] && xs[0].Arg?
    ensures ShowItems(xs) == [Name(xs[0].w)] + ShowItems(xs[1..])
    ensures Words(xs) == [xs[0].w] + Words(xs[1..]) && Reds(xs) == Reds(xs[1..])
  {
  }

  /** One word and the redirections behind it. */
  lemma WordRead(t: string, i: nat, argv: seq<Span>, rs: seq<Redirection>, xs: seq<Item>, rest: seq<Lexeme>)
    requires i <= |t| && NUL !in t && Files(t, rs) && Tokens(t, Exec(argv)) && xs != [] && xs[0].Arg?
    requires Lex(t, i) == ShowItems(xs) + rest && Follows(rest) && |argv| + 1 < MAXARGS
    ensures var w, tail := GetTok(t, i), xs[1..];
            var n, r := |Lead(tail)|, Redirs(t, w.next, rs);
            && r.Ok? && n <= |tail| && Lex(t, r.pos) == ShowItems(tail[n..]) + rest
            && RedTexts(t, r.value) == RedTexts(t, rs) + Lead(tail)
            && Tokens(t, Exec(argv + [w.span])) && Spelled(t, argv + [w.span]) == Spelled(t, argv) + [xs[0].w]
            && Args(t, i, argv, rs) == Args(t, r.pos, argv + [w.span], r.value)
  {
    hide Lex, GetTok, Skip, Token, Redirs, Follows, Args, Files, NoRed, RedTexts, Tokens, Spelled;
    hide ShowItems, ShowReds, Lead, Reds, Words;
    var p := Skip(t, i);
    ArgsSkip(t, i, argv, rs);
    Peeked(t, i);
    var tail := xs[1..];
    FirstItem(xs);
    Assoc([Name(xs[0].w)], ShowItems(tail), rest);
    NameAhead(t, i);
    NameTok(t, i);
    ArgsNext(t, p, argv, rs);
    var w := GetTok(t, p);
    LeadIs(tail);
    var n := |Lead(tail)|;
    ItemsNoRed(tail[n..], rest);
    Assoc(ShowReds(Lead(tail)), ShowItems(tail[n..]), rest);
    RedirsRead(t, w.next, rs, Lead(tail), ShowItems(tail[n..]) + rest);
    MoreSpelled(t, argv, w.span);
  }

  /** The loop of parseexec() from a word on. */
  lemma {:induction false} ArgsRead(t: string, i: nat, argv: seq<Span>, rs: seq<Redirection>, xs: seq<Item>,
                                    rest: seq<Lexeme>)
    requires i <= |t| && NUL !in t && Files(t, rs) && Tokens(t, Exec(argv)) && (xs == [] || xs[0].Arg?)
    requires Lex(t, i) == ShowItems(xs) + rest && Follows(rest) && |argv| + |Words(xs)| < MAXARGS
    ensures var r := Args(t, i, argv, rs);
            && r.Ok? && Lex(t, r.pos) == rest
            && Text(t, r.value) == Redirected(Exec(Spelled(t, argv) + Words(xs)), RedTexts(t, rs) + Reds(xs))
    decreases |xs|
  {
    hide Lex, GetTok, Token, Redirs, Follows, Args, Files, NoRed, Text, RedTexts, Spelled, Tokens, ShowItems;
    hide Redirected, Lead, Reds, Words, ShowReds;
    if xs == [] {
      NoItems();
      assert [] + rest == rest;
      assert Spelled(t, argv) + [] == Spelled(t, argv) && RedTexts(t, rs) + [] == RedTexts(t, rs);
      ArgsSkip(t, i, argv, rs);
      ArgsEndRead(t, i, argv, rs);
    } else {
      var w, tail := GetTok(t, i), xs[1..];
      FirstItem(xs);
      WordRead(t, i, argv, rs, xs, rest);
      LeadIs(tail);
      var n, r := |Lead(tail)|, Redirs(t, w.next, rs);
      ArgsRead(t, r.pos, argv + [w.span], r.value, tail[n..], rest);
      Assoc(Spelled(t, argv), [xs[0].w], Words(tail[n..]));
      Assoc(RedTexts(t, rs), Lead(tail), Reds(tail[n..]));
    }
  }

  lemma NoItems()
    ensures ShowItems([]) == [] && Words([]) == [] && Reds([]) == []
  {
  }

  lemma ItemsAhead(xs: seq<Item>, rest: seq<Lexeme>)
    requires Follows(rest)
    ensures !IsSign(ShowItems(xs) + rest, '(')
  {
    if xs == [] {
      assert ShowItems(xs) + rest == rest;
    } else {
      assert (ShowItems(xs) + rest)[0] == ShowItem(xs[0])[0];
    }
  }

  lemma SimpleRead(t: string, i: nat, xs: seq<Item>, rest: seq<Lexeme>)
    requires i <= |t| && NUL !in t && Lex(t, i) == ShowItems(xs) + rest && Follows(rest) && |Words(xs)| < MAXARGS
    ensures var r := ParseExec(t, i);
            r.Ok? && Lex(t, r.pos) == rest && Text(t, r.value) == Redirected(Exec(Words(xs)), Reds(xs))
  {
    hide Lex, GetTok, Token, Redirs, Follows, Args, Files, NoRed, Text, RedTexts, ShowItems, Redirected, ShowReds, Lead;
    hide Reds, Words, ParseBlock;
    var p := Skip(t, i);
    Peeked(t, i);
    ItemsAhead(xs, rest);
    LeadIs(xs);
    var n := |Lead(xs)|;
    NoFiles(t);
    NoTokens(t);
    ItemsNoRed(xs[n..], rest);
    Assoc(ShowReds(Lead(xs)), ShowItems(xs[n..]), rest);
    RedirsRead(t, p, [], Lead(xs), ShowItems(xs[n..]) + rest);
    var r := Redirs(t, p, []);
    ArgsRead(t, r.pos, [], r.value, xs[n..], rest);
    NoneYet(t);
    assert [] + Words(xs[n..]) == Words(xs) && [] + Lead(xs) + Reds(xs[n..]) == Reds(xs);
  }

  lemma NoneYet(t: string)
    ensures Files(t, []) && Tokens(t, Exec([])) && RedTexts(t, []) == [] && Spelled(t, []) == []
  {
  }

  // ---------------------------------------------------------------- pipes, lists and blocks

  /** A line ends here. */
  predicate LineEnds(xs: seq<Lexeme>) { xs == [] || IsSign(xs, ')') }

  predicate ChainEnds(xs: seq<Lexeme>) { Follows(xs) && !IsSign(xs, '|') }

  lemma {:induction false} InnerBack(c: Cmd<string>, n: nat)
    ensures Background(Back(c), n) == Background(c, n + 1)
  {
    if n > 0 {
      InnerBack(c, n - 1);
    }
  }

  lemma {:induction false} BacksRead(t: string, i: nat, c: Cmd<Span>, n: nat, rest: seq<Lexeme>)
    requires i <= |t| && NUL !in t && Tokens(t, c) && Lex(t, i) == Amps(n) + rest && !IsSign(rest, '&')
    ensures var r := Backs(t, i, c);
            r.Ok? && Lex(t, r.pos) == rest && Text(t, r.value) == Background(Text(t, c), n)
    decreases n
  {
    hide Lex, GetTok, Skip, Tokens, Backs;
    var p := Skip(t, i);
    Peeked(t, i);
    BacksSkip(t, i, c);
    BacksStep(t, p, c);
    if n == 0 {
      assert Amps(n) + rest == rest;
    } else {
      assert Amps(n) + rest == [Sign('&')] + (Amps(n - 1) + rest);
      BackTokens(t, c);
      BacksRead(t, GetTok(t, p).next, Back(c), n - 1, rest);
      InnerBack(Text(t, c), n - 1);
    }
  }

  lemma BackTokens(t: string, c: Cmd<Span>)
    requires Tokens(t, c)
    ensures Tokens(t, Back(c)) && Text(t, Back(c)) == Back(Text(t, c))
  {
  }

  lemma FollowsNoRed(rest: seq<Lexeme>)
    requires Follows(rest)
    ensures NoRed(rest)
  {
  }

  lemma MoreAhead(m: More, rest: seq<Lexeme>)
    requires LineEnds(rest)
    ensures var xs := ShowMore(m) + rest; ChainEnds(xs) && !IsSign(xs, '&')
    ensures m.Done? ==> ShowMore(m) + rest == rest
    ensures m.Then? ==> ShowMore(m) + rest == [Sign(';')] + (ShowLine(m.line) + rest)
  {
    hide ShowLine;
    if m.Done? {
      assert ShowMore(m) + rest == rest;
    }
  }

  lemma AmpsAhead(n: nat, rest: seq<Lexeme>)
    requires ChainEnds(rest)
    ensures ChainEnds(Amps(n) + rest)
  {
    if n == 0 {
      assert Amps(n) + rest == rest;
    }
  }

  /** What stands behind the first chain of a line. */
  lemma AfterChain(l: Line, rest: seq<Lexeme>)
    requires LineEnds(rest)
    ensures ShowLine(l) + rest == ShowChain(l.chain) + (Amps(l.amps) + (ShowMore(l.more) + rest))
    ensures ChainEnds(Amps(l.amps) + (ShowMore(l.more) + rest)) && !IsSign(ShowMore(l.more) + rest, '&')
    ensures l.more.Done? ==> ShowMore(l.more) + rest == rest
    ensures l.more.Then? ==> ShowMore(l.more) + rest == [Sign(';')] + (ShowLine(l.more.line) + rest)
  {
    hide ShowChain, Amps;
    var more := ShowMore(l.more) + rest;
    Assoc(ShowChain(l.chain) + Amps(l.amps), ShowMore(l.more), rest);
    Assoc(ShowChain(l.chain), Amps(l.amps), more);
    MoreAhead(l.more, rest);
    AmpsAhead(l.amps, more);
  }

  lemma {:induction false} AtomRead(t: string, i: nat, a: Atom, rest: seq<Lexeme>)
    requires i <= |t| && NUL !in t && Lex(t, i) == ShowAtom(a) + rest && Follows(rest) && AtomFits(a)
    ensures var r := ParseExec(t, i); r.Ok? && Lex(t, r.pos) == rest && Text(t, r.value) == AtomTree(a)
    decreases a, 0
  {
    hide Lex, GetTok, Follows, Text, ShowReds, ShowItems, ParseExec, Redirected, Words, Reds;
    match a
    case Simple(items) => SimpleRead(t, i, items, rest);
    case Block(line, reds) =>
      var behind := [Sign(')')] + (ShowReds(reds) + rest);
      assert ShowAtom(a) + rest == [Sign('(')] + (ShowLine(line) + behind);
      var p := Skip(t, i);
      Peeked(t, i);
      LineRead(t, GetTok(t, p).next, line, behind);
      BlockRead(t, i, reds, rest);
  }

  lemma BlockRead(t: string, i: nat, reds: seq<Red>, rest: seq<Lexeme>)
    requires i <= |t| && NUL !in t && IsSign(Lex(t, i), '(') && Follows(rest)
    requires var c := ParseLine(t, GetTok(t, Skip(t, i)).next);
             c.Ok? && Lex(t, c.pos) == [Sign(')')] + (ShowReds(reds) + rest)
    ensures var c, r := ParseLine(t, GetTok(t, Skip(t, i)).next), ParseExec(t, i);
            r.Ok? && Lex(t, r.pos) == rest && Text(t, r.value) == Redirected(Text(t, c.value), reds)
  {
    hide Lex, GetTok, Skip, Follows, Text, ShowReds, ParseLine, Redirs, Tokens, Wrap, Redirected, RedTexts;
    var i0 := Skip(t, i);
    Peeked(t, i);
    NotAtEnd(t, i);
    var c := ParseLine(t, GetTok(t, i0).next);
    Peeked(t, c.pos);
    var p := Skip(t, c.pos);
    NoneYet(t);
    FollowsNoRed(rest);
    RedirsRead(t, GetTok(t, p).next, [], reds, rest);
    var r := Redirs(t, GetTok(t, p).next, []);
    WrapText(t, c.value, r.value);
    assert [] + reds == reds;
  }

  lemma NotAtEnd(t: string, i: nat)
    requires i <= |t| && NUL !in t && Lex(t, i) != []
    ensures Skip(t, i) < |t| && At(t, Skip(t, i)) == t[Skip(t, i)]
  {
    hide Lex, Skip;
    Peeked(t, i);
  }

  lemma {:induction false} ChainRead(t: string, i: nat, c: Chain, rest: seq<Lexeme>)
    requires i <= |t| && NUL !in t && Lex(t, i) == ShowChain(c) + rest && ChainEnds(rest) && ChainFits(c)
    ensures var r := ParsePipe(t, i); r.Ok? && Lex(t, r.pos) == rest && Text(t, r.value) == ChainTree(c)
    decreases c, 0
  {
    hide Lex, GetTok, Skip, ShowAtom, AtomFits, AtomTree, Text, ParsePipe, ParseExec;
    match c
    case Last(a) =>
      AtomRead(t, i, a, rest);
      PipeRead(t, i);
    case PipeTo(a, more) =>
      var behind := [Sign('|')] + (ShowChain(more) + rest);
      assert ShowChain(c) + rest == ShowAtom(a) + behind;
      AtomRead(t, i, a, behind);
      PipeRead(t, i);
      var e := ParseExec(t, i);
      Peeked(t, e.pos);
      ChainRead(t, GetTok(t, Skip(t, e.pos)).next, more, rest);
  }

  /** parsepipe() in terms of what it finds behind the first command. */
  lemma PipeRead(t: string, i: nat)
    requires i <= |t| && NUL !in t && ParseExec(t, i).Ok?
    ensures var c, r := ParseExec(t, i), ParsePipe(t, i);
            if !IsSign(Lex(t, c.pos), '|') then r.Ok? && r.value == c.value && Lex(t, r.pos) == Lex(t, c.pos)
            else
              var d := ParsePipe(t, GetTok(t, Skip(t, c.pos)).next);
              if d.Panic? then r == d
              else r.Ok? && Text(t, r.value) == Pipe(Text(t, c.value), Text(t, d.value)) && r.pos == d.pos
  {
    hide Lex, GetTok, Skip, ParseExec;
    Peeked(t, ParseExec(t, i).pos);
  }

  lemma {:induction false} LineRead(t: string, i: nat, l: Line, rest: seq<Lexeme>)
    requires i <= |t| && NUL !in t && Lex(t, i) == ShowLine(l) + rest && LineEnds(rest) && LineFits(l)
    ensures var r := ParseLine(t, i); r.Ok? && Lex(t, r.pos) == rest && Text(t, r.value) == LineTree(l)
    decreases l, 1
  {
    hide Lex, GetTok, Skip, ShowChain, ChainFits, ChainTree, ChainEnds, Amps, Background, Text;
    hide ParsePipe, ParseLine, Backs;
    AfterChain(l, rest);
    var more := ShowMore(l.more) + rest;
    ChainRead(t, i, l.chain, Amps(l.amps) + more);
    var c := ParsePipe(t, i);
    BacksRead(t, c.pos, c.value, l.amps, more);
    ListRead(t, i);
    if l.more.Then? {
      var b := Backs(t, c.pos, c.value);
      Peeked(t, b.pos);
      LineRead(t, GetTok(t, Skip(t, b.pos)).next, l.more.line, rest);
    }
  }

  /** parseline() in terms of what it finds behind the first pipe. */
  lemma ListRead(t: string, i: nat)
    requires i <= |t| && NUL !in t && ParsePipe(t, i).Ok?
    ensures var c, r := ParsePipe(t, i), ParseLine(t, i);
            var b := Backs(t, c.pos, c.value);
            if !IsSign(Lex(t, b.pos), ';') then r.Ok? && r.value == b.value && Lex(t, r.pos) == Lex(t, b.pos)
            else
              var d := ParseLine(t, GetTok(t, Skip(t, b.pos)).next);
              if d.Panic? then r == d
              else r.Ok? && Text(t, r.value) == List(Text(t, b.value), Text(t, d.value)) && r.pos == d.pos
  {
    hide Lex, GetTok, Skip, ParsePipe, Backs;
    Peeked(t, Backs(t, ParsePipe(t, i).pos, ParsePipe(t, i).value).pos);
  }

  ghost predicate AllSound(xs: seq<Lexeme>) { forall k :: 0 <= k < |xs| ==> Sound(xs[k]) }

  lemma {:induction false} RedsSound(rs: seq<Red>)
    requires forall k :: 0 <= k < |rs| ==> Word(rs[k].file)
    ensures AllSound(ShowReds(rs))
    decreases |rs|
  {
    hide Word;
    if rs != [] {
      RedsSound(rs[1..]);
    }
  }

  lemma {:induction false} ItemsSound(xs: seq<Item>)
    requires forall k :: 0 <= k < |xs| ==> Word(if xs[k].Arg? then xs[k].w else xs[k].r.file)
    ensures AllSound(ShowItems(xs))
    decreases |xs|
  {
    hide Word;
    if xs != [] {
      ItemsSound(xs[1..]);
    }
  }

  lemma {:induction false} AmpsSound(n: nat)
    ensures AllSound(Amps(n))
  {
    if n > 0 {
      AmpsSound(n - 1);
    }
  }

  lemma {:induction false} AtomSound(a: Atom)
    requires AtomFits(a)
    ensures AllSound(ShowAtom(a))
    decreases a, 0
  {
    hide ShowReds, ShowItems, Word;
    match a
    case Simple(items) => ItemsSound(items);
    case Block(line, reds) =>
      LineSound(line);
      RedsSound(reds);
  }

  lemma {:induction false} ChainSound(c: Chain)
    requires ChainFits(c)
    ensures AllSound(ShowChain(c))
    decreases c, 0
  {
    hide ShowAtom, AtomFits;
    AtomSound(c.a);
    if c.PipeTo? {
      ChainSound(c.rest);
    }
  }

  lemma {:induction false} LineSound(l: Line)
    requires LineFits(l)
    ensures AllSound(ShowLine(l))
    decreases l, 1
  {
    hide ShowChain, ChainFits, Amps;
    ChainSound(l.chain);
    AmpsSound(l.amps);
    if l.more.Then? {
      LineSound(l.more.line);
    }
  }

  /** A text of the grammar, however spaced, parses as its tree. */
  lemma GrammarParses(t: string, l: Line)
    requires NUL !in t && Spells(t, 0, ShowLine(l)) && LineFits(l)
    ensures Parse(t).Ok? && Text(t, Parse(t).value) == LineTree(l)
  {
    hide Lex, GetTok, Spells, LineFits, ParseLine, Text;
    LineSound(l);
    SpellsLex(t, 0, ShowLine(l));
    assert ShowLine(l) + [] == ShowLine(l);
    LineRead(t, 0, l, []);
    Peeked(t, ParseLine(t, 0).pos);
  }

  // ---------------------------------------------------------------- only texts of the grammar

  lemma {:induction false} RedirsShape(t: string, i: nat, rs: seq<Redirection>) returns (reds: seq<Red>)
    requires i <= |t| && NUL !in t && Files(t, rs) && Redirs(t, i, rs).Ok?
    ensures var rest := Lex(t, Redirs(t, i, rs).pos); Lex(t, i) == ShowReds(reds) + rest && NoRed(rest)
    ensures forall k :: 0 <= k < |reds| ==> Word(reds[k].file)
    decreases |t| - i
  {
    hide Lex, GetTok, Skip, Token, Redirs, NoRed, Word;
    var p := Skip(t, i);
    Peeked(t, i);
    RedirsSkip(t, i, rs);
    NoRedAhead(t, i);
    if NoRed(Lex(t, i)) {
      RedirsEnd(t, p, rs);
      reds := [];
      assert [] + Lex(t, i) == Lex(t, i);
    } else {
      RedirsStep(t, p, rs);
      var op := GetTok(t, p);
      var file := GetTok(t, op.next);
      var w := WordTok(t, op.next);
      var mode := ModeOf(op.kind);
      SignMode(t, i);
      var tail := RedirsShape(t, file.next, rs + [Redirection(mode, file.span)]);
      reds := [Red(mode, w)] + tail;
      assert reds[1..] == tail;
      Assoc([OpSign(mode), Name(w)], ShowReds(tail), Lex(t, Redirs(t, i, rs).pos));
      assert Lex(t, i) == [OpSign(mode)] + ([Name(w)] + Lex(t, file.next));
    }
  }

  lemma SignMode(t: string, i: nat)
    requires i <= |t| && NUL !in t && !NoRed(Lex(t, i))
    ensures Lex(t, i)[0] == OpSign(ModeOf(GetTok(t, Skip(t, i)).kind))
  {
    hide Lex, GetTok, Skip;
    Peeked(t, i);
  }

  lemma WordTok(t: string, i: nat) returns (w: string)
    requires i <= |t| && NUL !in t && GetTok(t, i).kind == 'a'
    ensures Word(w) && Lex(t, i) == [Name(w)] + Lex(t, GetTok(t, i).next)
  {
    hide GetTok, Word;
    var k := GetTok(t, i);
    w := t[k.span.lo..k.span.hi];
    TokenWord(t, k.span);
  }

  lemma TokenWord(t: string, w: Span)
    requires Token(t, w)
    ensures Word(t[w.lo..w.hi])
  {
  }

  function Items(reds: seq<Red>): seq<Item> { seq(|reds|, k requires 0 <= k < |reds| => To(reds[k])) }

  lemma {:induction false} RedItems(reds: seq<Red>, xs: seq<Item>)
    ensures ShowItems(Items(reds) + xs) == ShowReds(reds) + ShowItems(xs) && Words(Items(reds) + xs) == Words(xs)
    decreases |reds|
  {
    if reds == [] {
      assert Items(reds) + xs == xs;
      assert ShowReds(reds) + ShowItems(xs) == ShowItems(xs);
    } else {
      var all := Items(reds) + xs;
      assert all[1..] == Items(reds[1..]) + xs && all[0] == To(reds[0]);
      RedItems(reds[1..], xs);
      Assoc(ShowRed(reds[0]), ShowReds(reds[1..]), ShowItems(xs));
    }
  }

  predicate ItemsOk(xs: seq<Item>) { forall k :: 0 <= k < |xs| ==> Word(if xs[k].Arg? then xs[k].w else xs[k].r.file) }

  lemma {:induction false} ArgsShape(t: string, i: nat, argv: seq<Span>, rs: seq<Redirection>) returns (xs: seq<Item>)
    requires i <= |t| && NUL !in t && Files(t, rs) && Tokens(t, Exec(argv)) && Args(t, i, argv, rs).Ok?
    requires |argv| < MAXARGS
    ensures var rest := Lex(t, Args(t, i, argv, rs).pos); Lex(t, i) == ShowItems(xs) + rest && Follows(rest)
    ensures ItemsOk(xs) && |argv| + |Words(xs)| < MAXARGS
    decreases |t| - i
  {
    hide Lex, GetTok, Skip, Token, Redirs, Follows, Args, Files, Tokens, Word, ShowItems, Words, ShowReds;
    var p := Skip(t, i);
    ArgsSkip(t, i, argv, rs);
    Peeked(t, i);
    FollowsStops(t, i);
    NoItems();
    if Stops(At(t, p)) {
      ArgsStop(t, p, argv, rs);
      xs := [];
      assert [] + Lex(t, i) == Lex(t, i);
    } else {
      ArgsNext(t, p, argv, rs);
      var w := GetTok(t, p);
      if w.kind == NUL {
        LexEnd(t, p);
        xs := [];
        assert [] + Lex(t, i) == Lex(t, i);
      } else {
        xs := ArgsMore(t, i, argv, rs);
      }
    }
  }

  lemma {:induction false} ArgsMore(t: string, i: nat, argv: seq<Span>, rs: seq<Redirection>) returns (xs: seq<Item>)
    requires i <= |t| && NUL !in t && Files(t, rs) && Tokens(t, Exec(argv)) && Args(t, i, argv, rs).Ok?
    requires |argv| < MAXARGS && !Stops(At(t, Skip(t, i))) && GetTok(t, Skip(t, i)).kind != NUL
    ensures var rest := Lex(t, Args(t, i, argv, rs).pos); Lex(t, i) == ShowItems(xs) + rest && Follows(rest)
    ensures ItemsOk(xs) && |argv| + |Words(xs)| < MAXARGS
    decreases |t| - i, 0
  {
    hide Lex, GetTok, Skip, Token, Redirs, Follows, Args, Files, Tokens, Word, ShowItems, Words, ShowReds;
    var p := Skip(t, i);
    ArgsSkip(t, i, argv, rs);
    Peeked(t, i);
    ArgsNext(t, p, argv, rs);
    var w := GetTok(t, p);
    var name := WordTok(t, p);
    var r := Redirs(t, w.next, rs);
    var reds := RedirsShape(t, w.next, rs);
    var tail := ArgsShape(t, r.pos, argv + [w.span], r.value);
    var rest := Lex(t, Args(t, i, argv, rs).pos);
    xs := [Arg(name)] + (Items(reds) + tail);
    assert xs[1..] == Items(reds) + tail;
    RedItems(reds, tail);
    FirstItem(xs);
    Assoc(ShowReds(reds), ShowItems(tail), rest);
    Assoc([Name(name)], ShowReds(reds) + ShowItems(tail), rest);
  }

  lemma {:induction false} ExecShape(t: string, i: nat) returns (a: Atom)
    requires i <= |t| && NUL !in t && ParseExec(t, i).Ok?
    ensures var rest := Lex(t, ParseExec(t, i).pos);
            Lex(t, i) == ShowAtom(a) + rest && AtomFits(a)
    decreases |t| - i, 1
  {
    hide Lex, GetTok, Skip, Redirs, Follows, Args, Files, Tokens, Word, ShowItems, Words, ShowReds, ParseLine, NoRed;
    var p := Skip(t, i);
    Peeked(t, i);
    NoneYet(t);
    if At(t, p) == '(' {
      NotAtEnd(t, i);
      var c := ParseLine(t, GetTok(t, p).next);
      var line := LineShape(t, GetTok(t, p).next);
      var q := Skip(t, c.pos);
      Peeked(t, c.pos);
      var reds := RedirsShape(t, GetTok(t, q).next, []);
      a := Block(line, reds);
      var rest := Lex(t, ParseExec(t, i).pos);
      assert Lex(t, i) == [Sign('(')] + (ShowLine(line) + ([Sign(')')] + (ShowReds(reds) + rest)));
      assert ShowAtom(a) + rest == [Sign('(')] + (ShowLine(line) + ([Sign(')')] + (ShowReds(reds) + rest)));
    } else {
      var r := Redirs(t, p, []);
      var reds := RedirsShape(t, p, []);
      var xs := ArgsShape(t, r.pos, [], r.value);
      var rest := Lex(t, ParseExec(t, i).pos);
      a := Simple(Items(reds) + xs);
      RedItems(reds, xs);
      Assoc(ShowReds(reds), ShowItems(xs), rest);
    }
  }

  lemma {:induction false} PipeShape(t: string, i: nat) returns (c: Chain)
    requires i <= |t| && NUL !in t && ParsePipe(t, i).Ok?
    ensures Lex(t, i) == ShowChain(c) + Lex(t, ParsePipe(t, i).pos) && ChainFits(c)
    decreases |t| - i, 2
  {
    hide Lex, GetTok, Skip, ParseExec, ShowAtom, AtomFits;
    var e := ParseExec(t, i);
    var a := ExecShape(t, i);
    var p := Skip(t, e.pos);
    Peeked(t, e.pos);
    if At(t, p) == '|' {
      var more := PipeShape(t, GetTok(t, p).next);
      c := PipeTo(a, more);
      var rest := Lex(t, ParsePipe(t, i).pos);
      assert Lex(t, e.pos) == [Sign('|')] + (ShowChain(more) + rest);
      Assoc(ShowAtom(a), [Sign('|')], ShowChain(more) + rest);
      Assoc(ShowAtom(a) + [Sign('|')], ShowChain(more), rest);
    } else {
      c := Last(a);
    }
  }

  lemma {:induction false} BacksShape(t: string, i: nat, c: Cmd<Span>) returns (n: nat)
    requires i <= |t| && NUL !in t && Tokens(t, c)
    ensures Lex(t, i) == Amps(n) + Lex(t, Backs(t, i, c).pos)
    decreases |t| - i
  {
    hide Lex, GetTok, Skip, Tokens, Backs;
    var p := Skip(t, i);
    Peeked(t, i);
    BacksSkip(t, i, c);
    BacksStep(t, p, c);
    if At(t, p) == '&' {
      BackTokens(t, c);
      var m := BacksShape(t, GetTok(t, p).next, Back(c));
      n := m + 1;
      Assoc([Sign('&')], Amps(m), Lex(t, Backs(t, i, c).pos));
    } else {
      n := 0;
      assert [] + Lex(t, i) == Lex(t, i);
    }
  }

  lemma {:induction false} LineShape(t: string, i: nat) returns (l: Line)
    requires i <= |t| && NUL !in t && ParseLine(t, i).Ok?
    ensures Lex(t, i) == ShowLine(l) + Lex(t, ParseLine(t, i).pos) && LineFits(l)
    decreases |t| - i, 3
  {
    hide Lex, GetTok, Skip, ParsePipe, Backs, ShowChain, ChainFits, Amps;
    var c := ParsePipe(t, i);
    var chain := PipeShape(t, i);
    var b := Backs(t, c.pos, c.value);
    var n := BacksShape(t, c.pos, c.value);
    var p := Skip(t, b.pos);
    Peeked(t, b.pos);
    var rest, more := Lex(t, ParseLine(t, i).pos), Done;
    if At(t, p) == ';' {
      var line := LineShape(t, GetTok(t, p).next);
      more := Then(line);
      Assoc([Sign(';')], ShowLine(line), rest);
    } else {
      assert [] + rest == rest;
    }
    l := Line(chain, n, more);
    assert Lex(t, b.pos) == ShowMore(more) + rest;
    Assoc(ShowChain(chain), Amps(n), ShowMore(more) + rest);
    Assoc(ShowChain(chain) + Amps(n), ShowMore(more), rest);
  }

  lemma WholeLine(t: string) returns (l: Line)
    requires NUL !in t && Parse(t).Ok?
    ensures LineFits(l) && Spells(t, 0, ShowLine(l))
  {
    hide Lex, Spells, LineFits, ShowLine, ParseLine;
    l := LineShape(t, 0);
    Peeked(t, ParseLine(t, 0).pos);
    assert ShowLine(l) + [] == ShowLine(l);
    LexSpells(t, 0);
  }

  /** The parser accepts exactly the texts of the grammar, and returns their tree. */
  lemma ParsesExactly(t: string)
    requires NUL !in t
    ensures Parse(t).Ok? <==> exists l :: LineFits(l) && Spells(t, 0, ShowLine(l))
    ensures forall l :: LineFits(l) && Spells(t, 0, ShowLine(l)) ==> Text(t, Parse(t).value) == LineTree(l)
  {
    hide Lex, Spells, LineFits, ShowLine, LineTree, Text, Parse;
    forall l | LineFits(l) && Spells(t, 0, ShowLine(l))
      ensures Parse(t).Ok? && Text(t, Parse(t).value) == LineTree(l)
    {
      GrammarParses(t, l);
    }
    if Parse(t).Ok? {
      var l := WholeLine(t);
    }
  }
}
