/** The grammar that the parser of user/sh.c recognises, apart from how the parser goes about it.  A sentence is a
    tree of this grammar; the parser accepts a line exactly if its tokens are those of a sentence, and yields
    what the sentence means. */
module ShellGrammar {

  import opened Shell

  /** A token with its text, if it is a word; kind is what gettoken returns. */
  datatype Tok = Tok(kind: char, text: string)

  datatype Redirect = Redirect(how: How, file: string)

  /** An argument, and the redirections that follow it. */
  datatype Item = Item(word: string, rs: seq<Redirect>)

  datatype Simple = Words(rs: seq<Redirect>, items: seq<Item>) | Paren(line: Line, rs: seq<Redirect>)

  datatype Pipeline = Last(c: Simple) | Through(c: Simple, next: Pipeline)

  datatype Rest = NoMore | Then(line: Line)

  datatype Line = Line(p: Pipeline, amps: nat, more: Rest)

  // ---------------------------------------------------------------------------------------------
  // Sentences: their tokens and what they mean
  // ---------------------------------------------------------------------------------------------

  function KindOf(h: How): (k: char) {
    match h
    case In => '<'
    case Out => '>'
    case Append => '+'
  }

  predicate IsRedirect(k: char) {
    k == '<' || k == '>' || k == '+'
  }

  /** What ends a simple command. */
  predicate Stops(k: char) {
    k == '|' || k == ')' || k == '&' || k == ';'
  }

  function Sym(k: char): (t: Tok) {
    Tok(k, "")
  }

  function RedirToks(rs: seq<Redirect>): (ts: seq<Tok>) {
    if rs == [] then [] else [Sym(KindOf(rs[0].how)), Tok('a', rs[0].file)] + RedirToks(rs[1..])
  }

  function ItemToks(items: seq<Item>): (ts: seq<Tok>) {
    if items == [] then [] else [Tok('a', items[0].word)] + RedirToks(items[0].rs) + ItemToks(items[1..])
  }

  function SimpleToks(c: Simple): (ts: seq<Tok>)
    decreases c
  {
    match c
    case Words(rs, items) => RedirToks(rs) + ItemToks(items)
    case Paren(l, rs) => [Sym('(')] + LineToks(l) + [Sym(')')] + RedirToks(rs)
  }

  function PipeToks(p: Pipeline): (ts: seq<Tok>)
    decreases p
  {
    match p
    case Last(c) => SimpleToks(c)
    case Through(c, next) => SimpleToks(c) + [Sym('|')] + PipeToks(next)
  }

  function Amps(n: nat): (ts: seq<Tok>) {
    if n == 0 then [] else [Sym('&')] + Amps(n - 1)
  }

  function RestToks(r: Rest): (ts: seq<Tok>)
    decreases r
  {
    match r
    case NoMore => []
    case Then(l) => [Sym(';')] + LineToks(l)
  }

  function LineToks(l: Line): (ts: seq<Tok>)
    decreases l
  {
    PipeToks(l.p) + Amps(l.amps) + RestToks(l.more)
  }

  /** The redirections around t, the first one innermost. */
  function Wrapped(t: Tree, rs: seq<Redirect>): (r: Tree) {
    if rs == [] then t else TRedir(Wrapped(t, rs[..|rs| - 1]), rs[|rs| - 1].file, rs[|rs| - 1].how)
  }

  function WordsOf(items: seq<Item>): (ws: seq<string>) {
    if items == [] then [] else [items[0].word] + WordsOf(items[1..])
  }

  function RedirectsOf(items: seq<Item>): (rs: seq<Redirect>) {
    if items == [] then [] else items[0].rs + RedirectsOf(items[1..])
  }

  function Backed(t: Tree, n: nat): (r: Tree) {
    if n == 0 then t else TBack(Backed(t, n - 1))
  }

  /** The words make one command, inside all the redirections in the order of the line. */
  function SimpleTree(c: Simple): (t: Tree)
    decreases c
  {
    match c
    case Words(rs, items) => Wrapped(TExec(WordsOf(items)), rs + RedirectsOf(items))
    case Paren(l, rs) => Wrapped(LineTree(l), rs)
  }

  function PipeTree(p: Pipeline): (t: Tree)
    decreases p
  {
    match p
    case Last(c) => SimpleTree(c)
    case Through(c, next) => TPipe(SimpleTree(c), PipeTree(next))
  }

  function LineTree(l: Line): (t: Tree)
    decreases l
  {
    var first := Backed(PipeTree(l.p), l.amps);
    match l.more
    case NoMore => first
    case Then(m) => TList(first, LineTree(m))
  }

  /** No command has too many arguments. */
  predicate SimpleFits(c: Simple)
    decreases c
  {
    match c
    case Words(_, items) => |items| < MAXARGS
    case Paren(l, _) => LineFits(l)
  }

  predicate PipeFits(p: Pipeline)
    decreases p
  {
    match p
    case Last(c) => SimpleFits(c)
    case Through(c, next) => SimpleFits(c) && PipeFits(next)
  }

  predicate LineFits(l: Line)
    decreases l
  {
    PipeFits(l.p) && match l.more case NoMore => true case Then(m) => LineFits(m)
  }

  // ---------------------------------------------------------------------------------------------
  // The tokens of a line
  // ---------------------------------------------------------------------------------------------

  function TokOf(s: string, t: Token): (k: Tok) {
    Tok(t.kind, if t.kind == 'a' then Text(s, Span(t.q, t.eq)) else "")
  }

  /** All tokens from position i on. */
  function Toks(s: string, i: nat): (ts: seq<Tok>)
    requires i <= |s|
    decreases |s| - i
  {
    var t := GetToken(s, i);
    if t.kind == NUL then [] else [TokOf(s, t)] + Toks(s, t.pos)
  }

  /** The kind of the next token. */
  function Next(s: string, i: nat): (k: char)
    requires i <= |s|
  {
    GetToken(s, i).kind
  }

  lemma Advance(s: string, i: nat)
    requires i <= |s|
    ensures if Next(s, i) == NUL then Toks(s, i) == [] else Toks(s, i) == [TokOf(s, GetToken(s, i))] + Toks(s, GetToken(s, i).pos)
  {
  }

  /** Blanks make no difference. */
  lemma SkipTwice(s: string, i: nat)
    requires i <= |s|
    ensures PeekPos(s, PeekPos(s, i)) == PeekPos(s, i) && GetToken(s, PeekPos(s, i)) == GetToken(s, i)
  {
  }

  lemma ToksSkip(s: string, i: nat)
    requires i <= |s|
    ensures Toks(s, PeekPos(s, i)) == Toks(s, i)
  {
    SkipTwice(s, i);
    hide GetToken, PeekPos;
    Advance(s, i);
    Advance(s, PeekPos(s, i));
  }

  /** What a look ahead tells is the kind of the next token. */
  lemma PeekKinds(s: string, i: nat)
    requires i <= |s| && NulFree(s)
    ensures PeekIs(s, i, "<>") <==> IsRedirect(Next(s, i))
    ensures PeekIs(s, i, "|)&;") <==> Stops(Next(s, i))
    ensures PeekIs(s, i, "(") <==> Next(s, i) == '('
    ensures PeekIs(s, i, ")") <==> Next(s, i) == ')'
    ensures PeekIs(s, i, "|") <==> Next(s, i) == '|'
    ensures PeekIs(s, i, "&") <==> Next(s, i) == '&'
    ensures PeekIs(s, i, ";") <==> Next(s, i) == ';'
    ensures PeekPos(s, i) == |s| <==> Next(s, i) == NUL
  {
  }

  function Head(ts: seq<Tok>): (k: char) {
    if ts == [] then NUL else ts[0].kind
  }

  lemma NextIsHead(s: string, i: nat)
    requires i <= |s|
    ensures Next(s, i) == Head(Toks(s, i)) && (Next(s, i) == NUL <==> Toks(s, i) == [])
    ensures Toks(s, i) != [] ==> TokOf(s, GetToken(s, i)) == Toks(s, i)[0] && Toks(s, GetToken(s, i).pos) == Toks(s, i)[1..]
  {
    Advance(s, i);
    hide GetToken, Toks, TokOf;
  }

  // ---------------------------------------------------------------------------------------------
  // One step of each parsing function
  // ---------------------------------------------------------------------------------------------

  lemma RedirsIs(s: string, cmd: Cmd, i: nat)
    requires i <= |s| && NulFree(s)
    ensures !IsRedirect(Next(s, i)) ==> ParseRedirs(s, cmd, i) == Ok(cmd, PeekPos(s, i))
    ensures IsRedirect(Next(s, i)) ==>
      var op := GetToken(s, i);
      var f := GetToken(s, op.pos);
      ParseRedirs(s, cmd, i) == if f.kind != 'a' then Panic else ParseRedirs(s, Redir(cmd, Span(f.q, f.eq), HowOf(op.kind)), f.pos)
  {
    PeekKinds(s, i);
    SkipTwice(s, i);
    hide GetToken, PeekIs, PeekPos;
  }

  lemma ArgsIs(s: string, ret: Cmd, argc: nat, i: nat)
    requires i <= |s| && NulFree(s)
    ensures var t := GetToken(s, i);
      if Stops(t.kind) then ParseArgs(s, ret, argc, i) == Ok(ret, PeekPos(s, i))
      else if t.kind == NUL then ParseArgs(s, ret, argc, i) == Ok(ret, t.pos)
      else if t.kind != 'a' || argc + 1 >= MAXARGS then ParseArgs(s, ret, argc, i) == Panic
      else
        var r := ParseRedirs(s, AddArg(ret, Span(t.q, t.eq)), t.pos);
        ParseArgs(s, ret, argc, i) == if r.Panic? then Panic else ParseArgs(s, r.cmd, argc + 1, r.pos)
  {
    PeekKinds(s, i);
    SkipTwice(s, i);
    hide GetToken, PeekIs, PeekPos, ParseRedirs;
  }

  lemma ExecIs(s: string, i: nat)
    requires i <= |s| && NulFree(s)
    ensures Next(s, i) == '(' ==>
      var r := ParseLine(s, GetToken(s, i).pos);
      ParseExec(s, i) == if r.Panic? || Next(s, r.pos) != ')' then Panic else ParseRedirs(s, r.cmd, GetToken(s, r.pos).pos)
    ensures Next(s, i) != '(' ==>
      var r := ParseRedirs(s, Exec([]), PeekPos(s, i));
      ParseExec(s, i) == if r.Panic? then Panic else ParseArgs(s, r.cmd, 0, r.pos)
  {
    PeekKinds(s, i);
    SkipTwice(s, i);
    PeekKinds(s, PeekPos(s, i));
    var r := ParseLine(s, GetToken(s, i).pos);
    if r.Ok? {
      PeekKinds(s, r.pos);
      SkipTwice(s, r.pos);
    }
    hide GetToken, PeekIs, PeekPos, ParseRedirs, ParseLine, ParseArgs;
  }

  lemma PipeIs(s: string, i: nat)
    requires i <= |s| && NulFree(s)
    ensures var l := ParseExec(s, i);
      if l.Panic? then ParsePipe(s, i) == Panic
      else if Next(s, l.pos) != '|' then ParsePipe(s, i) == Ok(l.cmd, PeekPos(s, l.pos))
      else
        var r := ParsePipe(s, GetToken(s, l.pos).pos);
        ParsePipe(s, i) == if r.Panic? then Panic else Ok(Pipe(l.cmd, r.cmd), r.pos)
  {
    var l := ParseExec(s, i);
    if l.Ok? {
      PeekKinds(s, l.pos);
      SkipTwice(s, l.pos);
    }
    hide GetToken, PeekIs, PeekPos, ParseExec;
  }

  lemma BacksIs(s: string, cmd: Cmd, i: nat)
    requires i <= |s| && NulFree(s)
    ensures ParseBacks(s, cmd, i) == if Next(s, i) != '&' then Ok(cmd, PeekPos(s, i)) else ParseBacks(s, Back(cmd), GetToken(s, i).pos)
  {
    PeekKinds(s, i);
    SkipTwice(s, i);
    hide GetToken, PeekIs, PeekPos;
  }

  lemma LineIs(s: string, i: nat)
    requires i <= |s| && NulFree(s)
    ensures var l := ParsePipe(s, i);
      if l.Panic? then ParseLine(s, i) == Panic
      else
        var b := ParseBacks(s, l.cmd, l.pos);
        if Next(s, b.pos) != ';' then ParseLine(s, i) == Ok(b.cmd, PeekPos(s, b.pos))
        else
          var r := ParseLine(s, GetToken(s, b.pos).pos);
          ParseLine(s, i) == if r.Panic? then Panic else Ok(List(b.cmd, r.cmd), r.pos)
  {
    var l := ParsePipe(s, i);
    if l.Ok? {
      var b := ParseBacks(s, l.cmd, l.pos);
      PeekKinds(s, b.pos);
      SkipTwice(s, b.pos);
    }
    hide GetToken, PeekIs, PeekPos, ParsePipe, ParseBacks;
  }

  // ---------------------------------------------------------------------------------------------
  // Redirections and arguments
  // ---------------------------------------------------------------------------------------------

  lemma {:induction false} WrappedCons(t: Tree, r: Redirect, rs: seq<Redirect>)
    ensures Wrapped(t, [r] + rs) == Wrapped(TRedir(t, r.file, r.how), rs)
    decreases |rs|
  {
    var x := [r] + rs;
    if rs == [] {
      assert x[..|x| - 1] == [];
    } else {
      assert x[..|x| - 1] == [r] + rs[..|rs| - 1];
      WrappedCons(t, r, rs[..|rs| - 1]);
    }
  }

  lemma {:induction false} WrappedMore(t: Tree, rs: seq<Redirect>, more: seq<Redirect>)
    ensures Wrapped(Wrapped(t, rs), more) == Wrapped(t, rs + more)
    decreases |more|
  {
    var x := rs + more;
    if more == [] {
      assert x == rs;
    } else {
      assert x[..|x| - 1] == rs + more[..|more| - 1];
      WrappedMore(t, rs, more[..|more| - 1]);
    }
  }

  /** An argument goes to the command inside the redirections. */
  lemma {:induction false} AddArgWrapped(s: string, cmd: Cmd, a: Span, ws: seq<string>, rs: seq<Redirect>)
    requires Resolve(s, cmd) == Wrapped(TExec(ws), rs)
    ensures Resolve(s, AddArg(cmd, a)) == Wrapped(TExec(ws + [Text(s, a)]), rs)
    decreases |rs|
  {
    if rs == [] {
      assert Texts(s, cmd.args + [a]) == Texts(s, cmd.args) + [Text(s, a)];
    } else {
      AddArgWrapped(s, cmd.cmd, a, ws, rs[..|rs| - 1]);
    }
  }

  lemma KindHow(k: char)
    requires IsRedirect(k)
    ensures KindOf(HowOf(k)) == k
  {
  }

  /** Whatever parseredirs accepts is a sequence of redirections. */
  lemma {:induction false} RedirsDerive(s: string, cmd: Cmd, i: nat) returns (rs: seq<Redirect>)
    requires i <= |s| && NulFree(s) && ParseRedirs(s, cmd, i).Ok?
    ensures var r := ParseRedirs(s, cmd, i);
      Toks(s, i) == RedirToks(rs) + Toks(s, r.pos) && Resolve(s, r.cmd) == Wrapped(Resolve(s, cmd), rs) && !IsRedirect(Next(s, r.pos))
    decreases |s| - i
  {
    hide GetToken, ParseRedirs, Toks, HowOf, NulFree, PeekPos, Text;
    RedirsIs(s, cmd, i);
    if !IsRedirect(Next(s, i)) {
      rs := [];
      ToksSkip(s, i);
      SkipTwice(s, i);
    } else {
      var op := GetToken(s, i);
      var f := GetToken(s, op.pos);
      NextIsHead(s, i);
      NextIsHead(s, op.pos);
      Forward(s, i);
      Forward(s, op.pos);
      var x := Redirect(HowOf(op.kind), Text(s, Span(f.q, f.eq)));
      KindHow(op.kind);
      var rest := RedirsDerive(s, Redir(cmd, Span(f.q, f.eq), HowOf(op.kind)), f.pos);
      rs := [x] + rest;
      WrappedCons(Resolve(s, cmd), x, rest);
      TwoMore(Toks(s, i), Toks(s, op.pos), Toks(s, f.pos));
      assert RedirToks(rs) == [Sym(op.kind), Tok('a', x.file)] + RedirToks(rest);
    }
  }

  /** A token takes up room. */
  lemma Forward(s: string, i: nat)
    requires i <= |s| && Next(s, i) != NUL
    ensures GetToken(s, i).pos > i
  {
  }

  lemma TwoMore(a: seq<Tok>, b: seq<Tok>, c: seq<Tok>)
    requires a != [] && b == a[1..] && b != [] && c == b[1..]
    ensures a == [a[0], b[0]] + c
  {
  }

  /** Whatever the loop of parseexec accepts is a sequence of arguments with redirections. */
  lemma {:induction false} ArgsDerive(s: string, ret: Cmd, argc: nat, i: nat, ws: seq<string>, rs: seq<Redirect>) returns (items: seq<Item>)
    requires i <= |s| && NulFree(s) && ParseArgs(s, ret, argc, i).Ok? && Resolve(s, ret) == Wrapped(TExec(ws), rs) && argc < MAXARGS
    ensures var r := ParseArgs(s, ret, argc, i);
      && Toks(s, i) == ItemToks(items) + Toks(s, r.pos) && argc + |items| < MAXARGS
      && Resolve(s, r.cmd) == Wrapped(TExec(ws + WordsOf(items)), rs + RedirectsOf(items))
    decreases |s| - i
  {
    hide GetToken, ParseArgs, ParseRedirs, Toks, NulFree, PeekPos, Text, Resolve, Wrapped, AddArg;
    ArgsIs(s, ret, argc, i);
    NextIsHead(s, i);
    var t := GetToken(s, i);
    if Stops(t.kind) || t.kind == NUL {
      items := [];
      ToksSkip(s, i);
      if t.kind == NUL {
        AtTheEnd(s, i);
      }
      assert ws + [] == ws && rs + [] == rs;
    } else {
      Forward(s, i);
      var a := Span(t.q, t.eq);
      AddArgWrapped(s, ret, a, ws, rs);
      var rs1 := RedirsDerive(s, AddArg(ret, a), t.pos);
      var r := ParseRedirs(s, AddArg(ret, a), t.pos);
      WrappedMore(TExec(ws + [Text(s, a)]), rs, rs1);
      var rest := ArgsDerive(s, r.cmd, argc + 1, r.pos, ws + [Text(s, a)], rs + rs1);
      var x := Item(Text(s, a), rs1);
      items := [x] + rest;
      ItemsCons(x, rest, ws, rs);
      assert Toks(s, i) == [Tok('a', x.word)] + Toks(s, t.pos);
      JoinItem(Toks(s, i), Toks(s, t.pos), Toks(s, r.pos), Toks(s, ParseArgs(s, ret, argc, i).pos), x, rest);
    }
  }

  lemma JoinItem(a: seq<Tok>, b: seq<Tok>, c: seq<Tok>, d: seq<Tok>, x: Item, rest: seq<Item>)
    requires a == [Tok('a', x.word)] + b && b == RedirToks(x.rs) + c && c == ItemToks(rest) + d
    ensures a == ItemToks([x] + rest) + d
  {
    ItemsCons(x, rest, [], []);
    hide RedirToks, ItemToks;
  }

  lemma ItemsCons(x: Item, rest: seq<Item>, ws: seq<string>, rs: seq<Redirect>)
    ensures ItemToks([x] + rest) == [Tok('a', x.word)] + RedirToks(x.rs) + ItemToks(rest)
    ensures ws + WordsOf([x] + rest) == ws + [x.word] + WordsOf(rest)
    ensures rs + RedirectsOf([x] + rest) == rs + x.rs + RedirectsOf(rest)
  {
    assert ([x] + rest)[1..] == rest;
  }

  /** At the end of the line gettoken stays there. */
  lemma AtTheEnd(s: string, i: nat)
    requires i <= |s| && NulFree(s) && Next(s, i) == NUL
    ensures Toks(s, GetToken(s, i).pos) == [] && Next(s, GetToken(s, i).pos) == NUL
  {
  }

  lemma {:induction false} ExecDerive(s: string, i: nat) returns (c: Simple)
    requires i <= |s| && NulFree(s) && ParseExec(s, i).Ok?
    ensures var r := ParseExec(s, i);
      Toks(s, i) == SimpleToks(c) + Toks(s, r.pos) && Resolve(s, r.cmd) == SimpleTree(c) && SimpleFits(c)
    decreases |s| - i, 1
  {
    hide GetToken, ParseExec, Toks, NulFree, SimpleToks, SimpleTree, SimpleFits, Next;
    if Next(s, i) == '(' {
      c := BlockDerive(s, i);
    } else {
      c := WordsDerive(s, i);
    }
  }

  lemma WordsDerive(s: string, i: nat) returns (c: Simple)
    requires i <= |s| && NulFree(s) && ParseExec(s, i).Ok? && Next(s, i) != '('
    ensures var r := ParseExec(s, i);
      Toks(s, i) == SimpleToks(c) + Toks(s, r.pos) && Resolve(s, r.cmd) == SimpleTree(c) && SimpleFits(c)
  {
    hide GetToken, ParseExec, ParseArgs, ParseRedirs, Toks, NulFree, PeekPos, Wrapped, Resolve, Next;
    ExecIs(s, i);
    ToksSkip(s, i);
    var rs := RedirsDerive(s, Exec([]), PeekPos(s, i));
    var r := ParseRedirs(s, Exec([]), PeekPos(s, i));
    NoWords(s);
    var items := ArgsDerive(s, r.cmd, 0, r.pos, [], rs);
    c := Words(rs, items);
    assert [] + WordsOf(items) == WordsOf(items);
    assert Toks(s, i) == RedirToks(rs) + (ItemToks(items) + Toks(s, ParseExec(s, i).pos));
  }

  lemma {:induction false} BlockDerive(s: string, i: nat) returns (c: Simple)
    requires i <= |s| && NulFree(s) && ParseExec(s, i).Ok? && Next(s, i) == '('
    ensures var r := ParseExec(s, i);
      Toks(s, i) == SimpleToks(c) + Toks(s, r.pos) && Resolve(s, r.cmd) == SimpleTree(c) && SimpleFits(c)
    decreases |s| - i, 0
  {
    hide GetToken, ParseExec, ParseLine, ParseArgs, ParseRedirs, Toks, NulFree, PeekPos, Wrapped, Resolve, LineToks, LineTree, LineFits;
    ExecIs(s, i);
    NextIsHead(s, i);
    Forward(s, i);
    var l := LineDerive(s, GetToken(s, i).pos);
    var r := ParseLine(s, GetToken(s, i).pos);
    NextIsHead(s, r.pos);
    var rs := RedirsDerive(s, r.cmd, GetToken(s, r.pos).pos);
    c := Paren(l, rs);
    assert Toks(s, i) == [Sym('(')] + (LineToks(l) + ([Sym(')')] + (RedirToks(rs) + Toks(s, ParseExec(s, i).pos))));
  }

  lemma NoWords(s: string)
    ensures Resolve(s, Exec([])) == TExec([])
  {
  }

  lemma {:induction false} PipeDerive(s: string, i: nat) returns (p: Pipeline)
    requires i <= |s| && NulFree(s) && ParsePipe(s, i).Ok?
    ensures var r := ParsePipe(s, i);
      Toks(s, i) == PipeToks(p) + Toks(s, r.pos) && Resolve(s, r.cmd) == PipeTree(p) && PipeFits(p)
    decreases |s| - i, 2
  {
    hide GetToken, ParseExec, ParsePipe, Toks, NulFree, PeekPos, SimpleToks, SimpleTree, SimpleFits;
    PipeIs(s, i);
    var c := ExecDerive(s, i);
    var l := ParseExec(s, i);
    if Next(s, l.pos) != '|' {
      p := Last(c);
      ToksSkip(s, l.pos);
    } else {
      NextIsHead(s, l.pos);
      Forward(s, l.pos);
      var next := PipeDerive(s, GetToken(s, l.pos).pos);
      p := Through(c, next);
      assert Toks(s, i) == SimpleToks(c) + ([Sym('|')] + (PipeToks(next) + Toks(s, ParsePipe(s, i).pos)));
    }
  }

  lemma {:induction false} BacksDerive(s: string, cmd: Cmd, i: nat) returns (n: nat)
    requires i <= |s| && NulFree(s)
    ensures var r := ParseBacks(s, cmd, i);
      Toks(s, i) == Amps(n) + Toks(s, r.pos) && Resolve(s, r.cmd) == Backed(Resolve(s, cmd), n)
    decreases |s| - i
  {
    hide GetToken, ParseBacks, Toks, NulFree, PeekPos;
    BacksIs(s, cmd, i);
    if Next(s, i) != '&' {
      n := 0;
      ToksSkip(s, i);
    } else {
      NextIsHead(s, i);
      Forward(s, i);
      var m := BacksDerive(s, Back(cmd), GetToken(s, i).pos);
      n := m + 1;
      BackedCons(Resolve(s, cmd), m);
    }
  }

  lemma {:induction false} BackedCons(t: Tree, n: nat)
    ensures Backed(TBack(t), n) == Backed(t, n + 1)
  {
    if n > 0 {
      BackedCons(t, n - 1);
    }
  }

  lemma {:induction false} LineDerive(s: string, i: nat) returns (l: Line)
    requires i <= |s| && NulFree(s) && ParseLine(s, i).Ok?
    ensures var r := ParseLine(s, i);
      Toks(s, i) == LineToks(l) + Toks(s, r.pos) && Resolve(s, r.cmd) == LineTree(l) && LineFits(l)
    decreases |s| - i, 3
  {
    hide GetToken, ParsePipe, ParseBacks, ParseLine, Toks, NulFree, PeekPos, PipeToks, PipeTree, PipeFits, Amps, Backed;
    LineIs(s, i);
    var p := PipeDerive(s, i);
    var c := ParsePipe(s, i);
    var n := BacksDerive(s, c.cmd, c.pos);
    var b := ParseBacks(s, c.cmd, c.pos);
    if Next(s, b.pos) != ';' {
      l := Line(p, n, NoMore);
      ToksSkip(s, b.pos);
      assert Toks(s, i) == PipeToks(p) + (Amps(n) + Toks(s, ParseLine(s, i).pos));
    } else {
      NextIsHead(s, b.pos);
      Forward(s, b.pos);
      var m := LineDerive(s, GetToken(s, b.pos).pos);
      l := Line(p, n, Then(m));
      assert Toks(s, i) == PipeToks(p) + (Amps(n) + ([Sym(';')] + (LineToks(m) + Toks(s, ParseLine(s, i).pos))));
    }
  }

  // ---------------------------------------------------------------------------------------------
  // Every sentence is parsed as what it means
  // ---------------------------------------------------------------------------------------------

  /** The next token, when the tokens from i on are known. */
  lemma Takes(s: string, i: nat, t: Tok, ts: seq<Tok>)
    requires i <= |s| && Toks(s, i) == [t] + ts
    ensures Next(s, i) == t.kind != NUL && TokOf(s, GetToken(s, i)) == t && Toks(s, GetToken(s, i).pos) == ts
  {
    NextIsHead(s, i);
    hide GetToken, Toks, TokOf;
  }

  lemma RedirToksCons(rs: seq<Redirect>, rest: seq<Tok>)
    requires rs != []
    ensures RedirToks(rs) + rest == [Sym(KindOf(rs[0].how))] + ([Tok('a', rs[0].file)] + (RedirToks(rs[1..]) + rest))
  {
  }

  lemma HowKind(h: How)
    ensures HowOf(KindOf(h)) == h && IsRedirect(KindOf(h))
  {
  }

  lemma {:induction false} RedirsParse(s: string, cmd: Cmd, i: nat, rs: seq<Redirect>, rest: seq<Tok>)
    requires i <= |s| && NulFree(s) && Toks(s, i) == RedirToks(rs) + rest && !IsRedirect(Head(rest))
    ensures var r := ParseRedirs(s, cmd, i);
      r.Ok? && Resolve(s, r.cmd) == Wrapped(Resolve(s, cmd), rs) && Toks(s, r.pos) == rest
    decreases |rs|
  {
    hide GetToken, ParseRedirs, Toks, HowOf, NulFree, PeekPos, Text, Wrapped, KindOf;
    RedirsIs(s, cmd, i);
    if rs == [] {
      NextIsHead(s, i);
      ToksSkip(s, i);
      WrappedNone(Resolve(s, cmd));
    } else {
      RedirToksCons(rs, rest);
      HowKind(rs[0].how);
      Takes(s, i, Sym(KindOf(rs[0].how)), [Tok('a', rs[0].file)] + (RedirToks(rs[1..]) + rest));
      var op := GetToken(s, i);
      Takes(s, op.pos, Tok('a', rs[0].file), RedirToks(rs[1..]) + rest);
      var f := GetToken(s, op.pos);
      RedirsParse(s, Redir(cmd, Span(f.q, f.eq), HowOf(op.kind)), f.pos, rs[1..], rest);
      WrappedCons(Resolve(s, cmd), rs[0], rs[1..]);
      assert [rs[0]] + rs[1..] == rs;
    }
  }

  lemma WrappedNone(t: Tree)
    ensures Wrapped(t, []) == t
  {
  }

  /** What may follow a simple command. */
  predicate Ends(ts: seq<Tok>) {
    ts == [] || Stops(ts[0].kind)
  }

  lemma ItemToksCons(items: seq<Item>, rest: seq<Tok>)
    requires items != []
    ensures ItemToks(items) + rest == [Tok('a', items[0].word)] + (RedirToks(items[0].rs) + (ItemToks(items[1..]) + rest))
  {
  }

  /** Arguments start with a word. */
  lemma ItemToksHead(items: seq<Item>, rest: seq<Tok>)
    requires Ends(rest)
    ensures !IsRedirect(Head(ItemToks(items) + rest)) && Head(ItemToks(items) + rest) != '('
  {
  }

  lemma {:induction false} ArgsParse(s: string, ret: Cmd, argc: nat, i: nat, items: seq<Item>, rest: seq<Tok>, ws: seq<string>,
                                     rs: seq<Redirect>)
    requires i <= |s| && NulFree(s) && Toks(s, i) == ItemToks(items) + rest && Ends(rest) && argc + |items| < MAXARGS
    requires Resolve(s, ret) == Wrapped(TExec(ws), rs)
    ensures var r := ParseArgs(s, ret, argc, i);
      r.Ok? && Resolve(s, r.cmd) == Wrapped(TExec(ws + WordsOf(items)), rs + RedirectsOf(items)) && Toks(s, r.pos) == rest
    decreases |items|
  {
    hide GetToken, ParseArgs, ParseRedirs, Toks, NulFree, PeekPos, Text, Resolve, Wrapped, AddArg, RedirToks;
    ArgsIs(s, ret, argc, i);
    if items == [] {
      ArgsStop(s, i, rest);
      assert ws + [] == ws && rs + [] == rs;
    } else {
      var x, more := items[0], items[1..];
      ItemToksCons(items, rest);
      Takes(s, i, Tok('a', x.word), RedirToks(x.rs) + (ItemToks(more) + rest));
      var t := GetToken(s, i);
      var a := Span(t.q, t.eq);
      AddArgWrapped(s, ret, a, ws, rs);
      ItemToksHead(more, rest);
      RedirsParse(s, AddArg(ret, a), t.pos, x.rs, ItemToks(more) + rest);
      var r := ParseRedirs(s, AddArg(ret, a), t.pos);
      WrappedMore(TExec(ws + [x.word]), rs, x.rs);
      ArgsParse(s, r.cmd, argc + 1, r.pos, more, rest, ws + [x.word], rs + x.rs);
      ItemsCons(x, more, ws, rs);
      assert [x] + more == items;
    }
  }

  lemma ArgsStop(s: string, i: nat, rest: seq<Tok>)
    requires i <= |s| && NulFree(s) && Toks(s, i) == rest && Ends(rest)
    ensures (Stops(Next(s, i)) || Next(s, i) == NUL) && Toks(s, PeekPos(s, i)) == rest
    ensures Next(s, i) == NUL ==> Toks(s, GetToken(s, i).pos) == rest
  {
    NextIsHead(s, i);
    ToksSkip(s, i);
    if Next(s, i) == NUL {
      AtTheEnd(s, i);
    }
  }

  lemma WordsHead(rs: seq<Redirect>, items: seq<Item>, rest: seq<Tok>)
    requires Ends(rest)
    ensures Head(RedirToks(rs) + (ItemToks(items) + rest)) != '('
  {
    ItemToksHead(items, rest);
    if rs != [] {
      RedirToksCons(rs, ItemToks(items) + rest);
    }
  }

  lemma WordsParse(s: string, i: nat, c: Simple, rest: seq<Tok>)
    requires i <= |s| && NulFree(s) && c.Words? && Toks(s, i) == SimpleToks(c) + rest && Ends(rest) && SimpleFits(c)
    ensures var r := ParseExec(s, i);
      r.Ok? && Resolve(s, r.cmd) == SimpleTree(c) && Toks(s, r.pos) == rest
  {
    hide GetToken, ParseExec, ParseArgs, ParseRedirs, Toks, NulFree, PeekPos, Resolve, Wrapped, Head, RedirToks, ItemToks;
    hide WordsOf, RedirectsOf, IsRedirect, Ends;
    var ts := ItemToks(c.items) + rest;
    assert SimpleToks(c) + rest == RedirToks(c.rs) + ts;
    hide SimpleToks;
    WordsHead(c.rs, c.items, rest);
    NextIsHead(s, i);
    ExecIs(s, i);
    ToksSkip(s, i);
    ItemToksHead(c.items, rest);
    RedirsParse(s, Exec([]), PeekPos(s, i), c.rs, ts);
    var r := ParseRedirs(s, Exec([]), PeekPos(s, i));
    NoWords(s);
    ArgsParse(s, r.cmd, 0, r.pos, c.items, rest, [], c.rs);
    assert [] + WordsOf(c.items) == WordsOf(c.items);
  }

  lemma {:induction false} BlockParses(s: string, i: nat, c: Simple, rest: seq<Tok>)
    requires i <= |s| && NulFree(s) && c.Paren? && Toks(s, i) == SimpleToks(c) + rest && Ends(rest) && SimpleFits(c)
    ensures var r := ParseExec(s, i);
      r.Ok? && Resolve(s, r.cmd) == SimpleTree(c) && Toks(s, r.pos) == rest
    decreases c, 0
  {
    hide GetToken, ParseExec, ParseLine, ParseRedirs, Toks, NulFree, Resolve, Wrapped, LineToks, LineTree, LineFits, RedirToks;
    var inner := [Sym(')')] + (RedirToks(c.rs) + rest);
    assert SimpleToks(c) + rest == [Sym('(')] + (LineToks(c.line) + inner);
    Takes(s, i, Sym('('), LineToks(c.line) + inner);
    ExecIs(s, i);
    LineParses(s, GetToken(s, i).pos, c.line, inner);
    var r := ParseLine(s, GetToken(s, i).pos);
    Takes(s, r.pos, Sym(')'), RedirToks(c.rs) + rest);
    RedirsParse(s, r.cmd, GetToken(s, r.pos).pos, c.rs, rest);
  }

  lemma {:induction false} SimpleParses(s: string, i: nat, c: Simple, rest: seq<Tok>)
    requires i <= |s| && NulFree(s) && Toks(s, i) == SimpleToks(c) + rest && Ends(rest) && SimpleFits(c)
    ensures var r := ParseExec(s, i);
      r.Ok? && Resolve(s, r.cmd) == SimpleTree(c) && Toks(s, r.pos) == rest
    decreases c, 1
  {
    hide ParseExec, Toks, NulFree, Resolve, SimpleToks, SimpleTree, SimpleFits;
    if c.Words? {
      WordsParse(s, i, c, rest);
    } else {
      BlockParses(s, i, c, rest);
    }
  }

  lemma {:induction false} PipeParses(s: string, i: nat, p: Pipeline, rest: seq<Tok>)
    requires i <= |s| && NulFree(s) && Toks(s, i) == PipeToks(p) + rest && Ends(rest) && Head(rest) != '|' && PipeFits(p)
    ensures var r := ParsePipe(s, i);
      r.Ok? && Resolve(s, r.cmd) == PipeTree(p) && Toks(s, r.pos) == rest
    decreases p
  {
    hide GetToken, ParseExec, ParsePipe, Toks, NulFree, SimpleToks, SimpleTree, SimpleFits, PeekPos;
    PipeIs(s, i);
    match p
    case Last(c) =>
      SimpleParses(s, i, c, rest);
      var l := ParseExec(s, i);
      NextIsHead(s, l.pos);
      ToksSkip(s, l.pos);
    case Through(c, next) =>
      var tail := PipeToks(next) + rest;
      assert PipeToks(p) + rest == SimpleToks(c) + ([Sym('|')] + tail);
      SimpleParses(s, i, c, [Sym('|')] + tail);
      var l := ParseExec(s, i);
      Takes(s, l.pos, Sym('|'), tail);
      PipeParses(s, GetToken(s, l.pos).pos, next, rest);
  }

  lemma {:induction false} BacksParse(s: string, cmd: Cmd, i: nat, n: nat, rest: seq<Tok>)
    requires i <= |s| && NulFree(s) && Toks(s, i) == Amps(n) + rest && Head(rest) != '&'
    ensures var r := ParseBacks(s, cmd, i);
      Resolve(s, r.cmd) == Backed(Resolve(s, cmd), n) && Toks(s, r.pos) == rest
    decreases n
  {
    hide GetToken, ParseBacks, Toks, NulFree, PeekPos;
    BacksIs(s, cmd, i);
    if n == 0 {
      NextIsHead(s, i);
      ToksSkip(s, i);
    } else {
      assert Amps(n) + rest == [Sym('&')] + (Amps(n - 1) + rest);
      Takes(s, i, Sym('&'), Amps(n - 1) + rest);
      BacksParse(s, Back(cmd), GetToken(s, i).pos, n - 1, rest);
      BackedCons(Resolve(s, cmd), n - 1);
    }
  }

  lemma AmpsHead(n: nat, rest: seq<Tok>)
    requires rest == [] || rest[0].kind == ')' || rest[0].kind == ';'
    ensures Ends(Amps(n) + rest) && Head(Amps(n) + rest) != '|' && Head(rest) != '&' && Ends(rest)
  {
  }

  lemma {:induction false} LineParses(s: string, i: nat, l: Line, rest: seq<Tok>)
    requires i <= |s| && NulFree(s) && Toks(s, i) == LineToks(l) + rest && (rest == [] || rest[0].kind == ')') && LineFits(l)
    ensures var r := ParseLine(s, i);
      r.Ok? && Resolve(s, r.cmd) == LineTree(l) && Toks(s, r.pos) == rest
    decreases l
  {
    hide GetToken, ParsePipe, ParseBacks, ParseLine, Toks, NulFree, PeekPos, PipeToks, PipeTree, PipeFits, Amps, Backed, Ends;
    LineIs(s, i);
    var after := RestToks(l.more) + rest;
    assert LineToks(l) + rest == PipeToks(l.p) + (Amps(l.amps) + after);
    AmpsHead(l.amps, after);
    PipeParses(s, i, l.p, Amps(l.amps) + after);
    var c := ParsePipe(s, i);
    BacksParse(s, c.cmd, c.pos, l.amps, after);
    var b := ParseBacks(s, c.cmd, c.pos);
    match l.more
    case NoMore =>
      assert after == rest;
      NextIsHead(s, b.pos);
      ToksSkip(s, b.pos);
    case Then(m) =>
      assert after == [Sym(';')] + (LineToks(m) + rest);
      Takes(s, b.pos, Sym(';'), LineToks(m) + rest);
      LineParses(s, GetToken(s, b.pos).pos, m, rest);
  }

  // ---------------------------------------------------------------------------------------------
  // The language of the shell
  // ---------------------------------------------------------------------------------------------

  /** The tokens of line s are those of sentence l. */
  predicate IsSentence(s: string, l: Line) {
    LineFits(l) && Toks(s, 0) == LineToks(l)
  }

  /** A line that is a sentence is parsed as what the sentence means, whatever its blanks: | binds tighter than &,
      & tighter than ;, and | and ; group to the right. */
  lemma SentenceIsParsed(s: string, l: Line)
    requires NulFree(s) && IsSentence(s, l)
    ensures ParseCmd(s).Ok? && Resolve(s, ParseCmd(s).cmd) == LineTree(l)
  {
    hide ParseLine, Toks, LineToks, LineTree, LineFits, PeekPos, GetToken;
    assert LineToks(l) + [] == LineToks(l);
    LineParses(s, 0, l, []);
    var r := ParseLine(s, 0);
    NextIsHead(s, r.pos);
    PeekKinds(s, r.pos);
  }

  /** parsecmd accepts a line exactly if it is a sentence in which no command has too many arguments; on all others
      it panics. */
  lemma AcceptsExactly(s: string)
    requires NulFree(s)
    ensures ParseCmd(s).Ok? <==> exists l :: IsSentence(s, l)
  {
    hide ParseLine, Toks, LineToks, LineTree, LineFits, PeekPos, GetToken, Resolve;
    if ParseCmd(s).Ok? {
      var l := LineDerive(s, 0);
      var r := ParseLine(s, 0);
      PeekKinds(s, r.pos);
      NextIsHead(s, r.pos);
      assert IsSentence(s, l);
    }
    if l :| IsSentence(s, l) {
      SentenceIsParsed(s, l);
    }
  }

  /** The grammar is unambiguous: a line means one thing. */
  lemma OneMeaning(s: string, l: Line, m: Line)
    requires NulFree(s) && IsSentence(s, l) && IsSentence(s, m)
    ensures LineTree(l) == LineTree(m)
  {
    SentenceIsParsed(s, l);
    SentenceIsParsed(s, m);
  }
}
