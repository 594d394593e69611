/** The parser of user/sh.c.  The line is a string without NUL; a pointer into it is a position, and the
    position after the last character holds NUL. */
module Shell {

  const NUL := '\0'
  const MAXARGS: nat := 10

  predicate IsSpace(c: char) {
    c == ' ' || c == '\t' || c == '\r' || c == '\n' || c == '\U{0b}'
  }

  predicate IsSymbol(c: char) {
    c == '<' || c == '|' || c == '>' || c == '&' || c == ';' || c == '(' || c == ')'
  }

  predicate IsWordChar(c: char) {
    c != NUL && !IsSpace(c) && !IsSymbol(c)
  }

  function At(s: string, i: nat): (c: char) {
    if i < |s| then s[i] else NUL
  }

  /** A token between two positions. */
  datatype Span = Span(q: nat, eq: nat)

  /** The redirections: open mode and descriptor follow from the operator. */
  datatype How = In | Out | Append

  datatype Cmd =
    | Exec(args: seq<Span>)
    | Redir(cmd: Cmd, file: Span, how: How)
    | Pipe(left: Cmd, right: Cmd)
    | List(left: Cmd, right: Cmd)
    | Back(cmd: Cmd)

  /** pos is where the parser has got to; Panic is a call of panic. */
  datatype Parsed = Ok(cmd: Cmd, pos: nat) | Panic

  datatype Token = Token(kind: char, q: nat, eq: nat, pos: nat)

  // ---------------------------------------------------------------------------------------------
  // Tokens
  // ---------------------------------------------------------------------------------------------

  function SkipSpace(s: string, i: nat): (j: nat)
    requires i <= |s|
    ensures i <= j <= |s| && (j < |s| ==> !IsSpace(s[j]))
    decreases |s| - i
  {
    if i < |s| && IsSpace(s[i]) then SkipSpace(s, i + 1) else i
  }

  function SkipWord(s: string, i: nat): (j: nat)
    requires i <= |s|
    ensures i <= j <= |s| && (i < |s| && !IsSpace(s[i]) && !IsSymbol(s[i]) ==> i < j)
    decreases |s| - i
  {
    if i < |s| && !IsSpace(s[i]) && !IsSymbol(s[i]) then SkipWord(s, i + 1) else i
  }

  /** Where the token at position p ends, and its kind. */
  function TokenEnd(s: string, p: nat): (r: (char, nat))
    requires p <= |s| && (p < |s| ==> !IsSpace(s[p]))
    ensures p <= r.1 <= |s| && (p < |s| && s[p] != NUL ==> p < r.1) && (r.0 == 'a' ==> p < r.1)
  {
    var c := At(s, p);
    if c == NUL then (NUL, p)
    else if c == '>' then (if At(s, p + 1) == '>' then ('+', p + 2) else ('>', p + 1))
    else if IsSymbol(c) then (c, p + 1)
    else ('a', SkipWord(s, p))
  }

  function GetToken(s: string, i: nat): (t: Token)
    requires i <= |s|
    ensures i <= t.q <= t.eq <= t.pos <= |s|
    ensures (t.q < |s| && s[t.q] != NUL ==> t.q < t.eq) && (t.kind == 'a' ==> t.q < t.eq)
  {
    var p := SkipSpace(s, i);
    var e := TokenEnd(s, p);
    Token(e.0, p, e.1, SkipSpace(s, e.1))
  }

  /** A blank, and a character that ends a word, as user/sh.c lists them. */
  predicate Blank(c: char) {
    c in [' ', '\t', '\r', '\n', '\U{000b}']
  }

  predicate Breaks(c: char) {
    Blank(c) || c in "<|>&;()"
  }

  /** From i to j all characters are blank, and the one at j, if there is one, is not. */
  ghost predicate Blanks(s: string, i: nat, j: nat) {
    i <= j <= |s| && (forall k :: i <= k < j ==> Blank(s[k])) && (j < |s| ==> !Blank(s[j]))
  }

  lemma {:induction false} SkipsBlanks(s: string, i: nat)
    requires i <= |s|
    ensures Blanks(s, i, SkipSpace(s, i))
    decreases |s| - i
  {
    if i < |s| && IsSpace(s[i]) {
      SkipsBlanks(s, i + 1);
    }
  }

  lemma {:induction false} SkipsWord(s: string, i: nat)
    requires i <= |s|
    ensures var j := SkipWord(s, i); (forall k :: i <= k < j ==> !Breaks(s[k])) && (j < |s| ==> Breaks(s[j]))
    decreases |s| - i
  {
    if i < |s| && !IsSpace(s[i]) && !IsSymbol(s[i]) {
      SkipsWord(s, i + 1);
    }
  }

  /** What gettoken returns, said by characters: after the blanks, nothing at the end of the line; an operator, of which
      only two greater-than signs make one token; or a word, which goes on up to the next blank or operator.  The
      position moves on over the blanks that follow. */
  lemma TokenIs(s: string, i: nat)
    requires i <= |s| && forall k :: 0 <= k < |s| ==> s[k] != NUL
    ensures var t := GetToken(s, i);
      && Blanks(s, i, t.q) && Blanks(s, t.eq, t.pos)
      && if t.q == |s| then t.kind == NUL && t.eq == t.q
         else if s[t.q] == '>' && t.q + 1 < |s| && s[t.q + 1] == '>' then t.kind == '+' && t.eq == t.q + 2
         else if s[t.q] in "<|>&;()" then t.kind == s[t.q] && t.eq == t.q + 1
         else
           && t.kind == 'a' && t.q < t.eq <= |s|
           && (forall k :: t.q <= k < t.eq ==> !Breaks(s[k])) && (t.eq < |s| ==> Breaks(s[t.eq]))
  {
    var p := SkipSpace(s, i);
    SkipsBlanks(s, i);
    SkipsBlanks(s, TokenEnd(s, p).1);
    SkipsWord(s, p);
  }

  /** What peek answers, said by characters. */
  lemma PeekIsNext(s: string, i: nat, toks: string)
    requires i <= |s|
    ensures Blanks(s, i, PeekPos(s, i))
    ensures PeekIs(s, i, toks) <==> PeekPos(s, i) < |s| && s[PeekPos(s, i)] != NUL && s[PeekPos(s, i)] in toks
  {
    SkipsBlanks(s, i);
  }

  function PeekPos(s: string, i: nat): (j: nat)
    requires i <= |s|
    ensures i <= j <= |s|
  {
    SkipSpace(s, i)
  }

  predicate PeekIs(s: string, i: nat, toks: string)
    requires i <= |s|
  {
    var c := At(s, SkipSpace(s, i));
    c != NUL && c in toks
  }

  // ---------------------------------------------------------------------------------------------
  // The grammar
  // ---------------------------------------------------------------------------------------------

  function HowOf(kind: char): (h: How) {
    if kind == '<' then In else if kind == '>' then Out else Append
  }

  /** parseredirs. */
  function ParseRedirs(s: string, cmd: Cmd, i: nat): (r: Parsed)
    requires i <= |s|
    ensures r.Ok? ==> i <= r.pos <= |s|
    decreases |s| - i
  {
    var p := PeekPos(s, i);
    if !PeekIs(s, i, "<>") then Ok(cmd, p)
    else
      var op := GetToken(s, p);
      var f := GetToken(s, op.pos);
      if f.kind != 'a' then Panic
      else ParseRedirs(s, Redir(cmd, Span(f.q, f.eq), HowOf(op.kind)), f.pos)
  }

  /** The argument goes to the exec command, through the redirections already put around it. */
  function AddArg(cmd: Cmd, a: Span): (r: Cmd) {
    match cmd
    case Exec(args) => Exec(args + [a])
    case Redir(c, f, h) => Redir(AddArg(c, a), f, h)
    case _ => cmd
  }

  /** The loop of parseexec; ret has argc arguments. */
  function ParseArgs(s: string, ret: Cmd, argc: nat, i: nat): (r: Parsed)
    requires i <= |s|
    ensures r.Ok? ==> i <= r.pos <= |s|
    decreases |s| - i
  {
    var p := PeekPos(s, i);
    if PeekIs(s, i, "|)&;") then Ok(ret, p)
    else
      var t := GetToken(s, p);
      if t.kind == NUL then Ok(ret, t.pos)
      else if t.kind != 'a' || argc + 1 >= MAXARGS then Panic
      else
        var r := ParseRedirs(s, AddArg(ret, Span(t.q, t.eq)), t.pos);
        if r.Panic? then Panic else ParseArgs(s, r.cmd, argc + 1, r.pos)
  }

  function ParseExec(s: string, i: nat): (r: Parsed)
    requires i <= |s|
    ensures r.Ok? ==> i <= r.pos <= |s|
    decreases |s| - i, 1
  {
    if PeekIs(s, i, "(") then ParseBlock(s, PeekPos(s, i))
    else
      var r := ParseRedirs(s, Exec([]), PeekPos(s, i));
      if r.Panic? then Panic else ParseArgs(s, r.cmd, 0, r.pos)
  }

  function ParseBlock(s: string, i: nat): (r: Parsed)
    requires i <= |s|
    ensures r.Ok? ==> i <= r.pos <= |s|
    decreases |s| - i, 0
  {
    if !PeekIs(s, i, "(") then Panic
    else
      var r := ParseLine(s, GetToken(s, PeekPos(s, i)).pos);
      if r.Panic? || !PeekIs(s, r.pos, ")") then Panic
      else ParseRedirs(s, r.cmd, GetToken(s, PeekPos(s, r.pos)).pos)
  }

  function ParsePipe(s: string, i: nat): (r: Parsed)
    requires i <= |s|
    ensures r.Ok? ==> i <= r.pos <= |s|
    decreases |s| - i, 2
  {
    var l := ParseExec(s, i);
    if l.Panic? then Panic
    else if !PeekIs(s, l.pos, "|") then Ok(l.cmd, PeekPos(s, l.pos))
    else
      var r := ParsePipe(s, GetToken(s, PeekPos(s, l.pos)).pos);
      if r.Panic? then Panic else Ok(Pipe(l.cmd, r.cmd), r.pos)
  }

  /** The loop of parseline. */
  function ParseBacks(s: string, cmd: Cmd, i: nat): (r: Parsed)
    requires i <= |s|
    ensures r.Ok? && i <= r.pos <= |s|
    decreases |s| - i
  {
    if !PeekIs(s, i, "&") then Ok(cmd, PeekPos(s, i)) else ParseBacks(s, Back(cmd), GetToken(s, PeekPos(s, i)).pos)
  }

  function ParseLine(s: string, i: nat): (r: Parsed)
    requires i <= |s|
    ensures r.Ok? ==> i <= r.pos <= |s|
    decreases |s| - i, 3
  {
    var l := ParsePipe(s, i);
    if l.Panic? then Panic
    else
      var b := ParseBacks(s, l.cmd, l.pos);
      if !PeekIs(s, b.pos, ";") then Ok(b.cmd, PeekPos(s, b.pos))
      else
        var r := ParseLine(s, GetToken(s, PeekPos(s, b.pos)).pos);
        if r.Panic? then Panic else Ok(List(b.cmd, r.cmd), r.pos)
  }

  /** parsecmd, up to nulterminate. */
  function ParseCmd(s: string): (r: Parsed)
    ensures r.Ok? ==> r.pos == |s|
  {
    var r := ParseLine(s, 0);
    if r.Panic? || PeekPos(s, r.pos) != |s| then Panic else Ok(r.cmd, |s|)
  }

  // ---------------------------------------------------------------------------------------------
  // Printing and parsing back
  // ---------------------------------------------------------------------------------------------

  /** Commands with their words written out. */
  datatype Tree =
    | TExec(words: seq<string>)
    | TRedir(t: Tree, file: string, how: How)
    | TPipe(l: Tree, r: Tree)
    | TList(l: Tree, r: Tree)
    | TBack(t: Tree)

  predicate ValidWord(w: string) {
    w != [] && forall i :: 0 <= i < |w| ==> IsWordChar(w[i])
  }

  predicate ValidTree(t: Tree) {
    match t
    case TExec(words) => |words| < MAXARGS && forall i :: 0 <= i < |words| ==> ValidWord(words[i])
    case TRedir(c, f, _) => ValidTree(c) && ValidWord(f)
    case TPipe(l, r) => ValidTree(l) && ValidTree(r)
    case TList(l, r) => ValidTree(l) && ValidTree(r)
    case TBack(c) => ValidTree(c)
  }

  function Operator(h: How): (o: string) {
    match h
    case In => "<"
    case Out => ">"
    case Append => ">>"
  }

  function PrintWords(ws: seq<string>): (o: string) {
    if ws == [] then "" else ws[0] + " " + PrintWords(ws[1..])
  }

  function Block(t: Tree): (o: string)
    decreases t, 1
  {
    "(" + Print(t) + ")"
  }

  /** Every subcommand in parentheses. */
  function Print(t: Tree): (o: string)
    decreases t, 0
  {
    match t
    case TExec(words) => PrintWords(words)
    case TRedir(c, f, h) => Block(c) + (Operator(h) + f)
    case TPipe(l, r) => Block(l) + ("|" + Block(r))
    case TList(l, r) => Block(l) + (";" + Block(r))
    case TBack(c) => Block(c) + "&"
  }

  function Text(s: string, a: Span): (w: string) {
    if a.q <= a.eq <= |s| then s[a.q..a.eq] else ""
  }

  function Texts(s: string, args: seq<Span>): (ws: seq<string>)
    ensures |ws| == |args|
  {
    seq(|args|, i requires 0 <= i < |args| => Text(s, args[i]))
  }

  /** The tree that a parsed command stands for. */
  function Resolve(s: string, cmd: Cmd): (t: Tree) {
    match cmd
    case Exec(args) => TExec(Texts(s, args))
    case Redir(c, f, h) => TRedir(Resolve(s, c), Text(s, f), h)
    case Pipe(l, r) => TPipe(Resolve(s, l), Resolve(s, r))
    case List(l, r) => TList(Resolve(s, l), Resolve(s, r))
    case Back(c) => TBack(Resolve(s, c))
  }

  predicate Has(s: string, i: nat, x: string) {
    i + |x| <= |s| && s[i..i + |x|] == x
  }

  lemma HasSplit(s: string, i: nat, x: string, y: string)
    requires Has(s, i, x + y)
    ensures Has(s, i, x) && Has(s, i + |x|, y)
  {
    var z := x + y;
    assert s[i..i + |x|] == z[..|x|];
    assert s[i + |x|..i + |x| + |y|] == z[|x|..];
  }

  predicate NulFree(s: string) {
    forall i :: 0 <= i < |s| ==> s[i] != NUL
  }

  /** A command ends at the end of the line or at a closing parenthesis. */
  predicate AtEnd(s: string, j: nat) {
    j == |s| || (j < |s| && s[j] == ')')
  }

  /** A position where no blank is skipped. */
  predicate NoSpace(s: string, j: nat) {
    j == |s| || (j < |s| && !IsSpace(s[j]))
  }

  lemma {:induction false} WordEnds(s: string, i: nat, k: nat)
    requires i <= k <= |s| && (forall p :: i <= p < k ==> IsWordChar(s[p])) && (k < |s| ==> !IsWordChar(s[k])) && NulFree(s)
    ensures SkipWord(s, i) == k
    decreases k - i
  {
    if i < k {
      WordEnds(s, i + 1, k);
    }
  }

  lemma SymbolToken(s: string, i: nat)
    requires i < |s| && IsSymbol(s[i]) && s[i] != '>' && NoSpace(s, i + 1)
    ensures GetToken(s, i) == Token(s[i], i, i + 1, i + 1)
  {
  }

  lemma WordToken(s: string, i: nat, w: string)
    requires Has(s, i, w) && ValidWord(w) && NulFree(s) && (i + |w| < |s| ==> !IsWordChar(s[i + |w|]))
    ensures GetToken(s, i) == Token('a', i, i + |w|, SkipSpace(s, i + |w|)) && Text(s, Span(i, i + |w|)) == w
  {
    assert forall p :: i <= p < i + |w| ==> s[p] == w[p - i];
    WordEnds(s, i, i + |w|);
  }

  lemma NoRedirs(s: string, cmd: Cmd, i: nat)
    requires NoSpace(s, i) && At(s, i) != '<' && At(s, i) != '>'
    ensures ParseRedirs(s, cmd, i) == Ok(cmd, i)
  {
  }

  /** What is printed starts with no blank, so the parser skips none before it. */
  lemma WordsStart(s: string, i: nat, ws: seq<string>)
    requires Has(s, i, PrintWords(ws)) && AtEnd(s, i + |PrintWords(ws)|) && (forall k :: 0 <= k < |ws| ==> ValidWord(ws[k]))
    ensures NoSpace(s, i) && (if ws == [] then AtEnd(s, i) else IsWordChar(At(s, i)))
  {
  }

  /** One round of the loop of parseexec: a word, and a blank after it. */
  lemma ArgsStep(s: string, i: nat, seen: seq<Span>, w: string)
    requires NulFree(s) && Has(s, i, w) && ValidWord(w) && |seen| + 1 < MAXARGS
    requires i + |w| < |s| && s[i + |w|] == ' ' && NoSpace(s, i + |w| + 1) && At(s, i + |w| + 1) != '<' && At(s, i + |w| + 1) != '>'
    ensures Text(s, Span(i, i + |w|)) == w
    ensures ParseArgs(s, Exec(seen), |seen|, i) == ParseArgs(s, Exec(seen + [Span(i, i + |w|)]), |seen| + 1, i + |w| + 1)
  {
    assert i + |w| <= |s|;
    hide ParseArgs, ParseRedirs, GetToken, Text, Has, ValidWord, NulFree, PeekIs, SkipSpace;
    var j := i + |w|;
    NotAWord(s[j]);
    WordToken(s, i, w);
    WordStarts(s, i, w);
    OneSpace(s, j);
    NoRedirs(s, Exec(seen + [Span(i, j)]), j + 1);
    ArgsRound(s, Exec(seen), |seen|, i, GetToken(s, i), Exec(seen + [Span(i, j)]), j + 1);
  }

  lemma NotAWord(c: char)
    requires c == ' '
    ensures !IsWordChar(c)
  {
  }

  lemma OneSpace(s: string, j: nat)
    requires j < |s| && s[j] == ' ' && NoSpace(s, j + 1)
    ensures SkipSpace(s, j) == j + 1
  {
  }

  lemma WordStarts(s: string, i: nat, w: string)
    requires Has(s, i, w) && ValidWord(w)
    ensures NoSpace(s, i) && !PeekIs(s, i, "|)&;")
  {
  }

  lemma ArgsRound(s: string, ret: Cmd, argc: nat, i: nat, t: Token, c: Cmd, p: nat)
    requires NoSpace(s, i) && !PeekIs(s, i, "|)&;") && GetToken(s, i) == t && t.kind == 'a' && argc + 1 < MAXARGS
    requires ParseRedirs(s, AddArg(ret, Span(t.q, t.eq)), t.pos) == Ok(c, p)
    ensures p <= |s| && ParseArgs(s, ret, argc, i) == ParseArgs(s, c, argc + 1, p)
  {
  }

  lemma ArgsEnd(s: string, i: nat, cmd: Cmd, argc: nat)
    requires AtEnd(s, i)
    ensures ParseArgs(s, cmd, argc, i) == Ok(cmd, i)
  {
  }

  /** The loop of parseexec reads back the words. */
  lemma {:induction false} ArgsBack(s: string, i: nat, seen: seq<Span>, ws: seq<string>) returns (more: seq<Span>)
    requires NulFree(s) && Has(s, i, PrintWords(ws)) && AtEnd(s, i + |PrintWords(ws)|)
    requires |seen| + |ws| < MAXARGS && forall k :: 0 <= k < |ws| ==> ValidWord(ws[k])
    ensures ParseArgs(s, Exec(seen), |seen|, i) == Ok(Exec(seen + more), i + |PrintWords(ws)|)
    ensures Texts(s, more) == ws
    decreases |ws|
  {
    hide ParseArgs, Has, ValidWord, Text;
    if ws == [] {
      more := [];
      ArgsEnd(s, i, Exec(seen), |seen|);
      assert seen + more == seen;
    } else {
      var w, rest := ws[0], PrintWords(ws[1..]);
      HasSplit(s, i, w + " ", rest);
      HasSplit(s, i, w, " ");
      SpaceAt(s, i + |w|);
      assert forall k :: 0 <= k < |ws[1..]| ==> ws[1..][k] == ws[k + 1];
      WordsStart(s, i + |w| + 1, ws[1..]);
      ArgsStep(s, i, seen, w);
      var a := Span(i, i + |w|);
      var tail := ArgsBack(s, i + |w| + 1, seen + [a], ws[1..]);
      more := [a] + tail;
      assert seen + [a] + tail == seen + more;
      assert Texts(s, more) == [w] + Texts(s, tail);
    }
  }

  lemma SpaceAt(s: string, i: nat)
    requires Has(s, i, " ")
    ensures i < |s| && s[i] == ' '
  {
  }

  /** Nothing follows a command at its end: parsepipe and parseline return what parseexec returned. */
  lemma LineEnds(s: string, i: nat, cmd: Cmd, j: nat)
    requires i <= |s| && ParseExec(s, i) == Ok(cmd, j) && AtEnd(s, j)
    ensures ParsePipe(s, i) == Ok(cmd, j) && ParseLine(s, i) == Ok(cmd, j)
  {
  }

  /** A block is read back, and then its redirections are parsed. */
  lemma BlockBack(s: string, i: nat, t: Tree, cmd: Cmd)
    requires Has(s, i, Block(t)) && NoSpace(s, i + 1) && NoSpace(s, i + |Block(t)|)
    requires ParseLine(s, i + 1) == Ok(cmd, i + 1 + |Print(t)|)
    ensures ParseExec(s, i) == ParseRedirs(s, cmd, i + |Block(t)|)
  {
    hide ParseLine, ParseRedirs, Block, Print, Has;
    BlockParts(s, i, t);
    SymbolToken(s, i);
    SymbolToken(s, i + 1 + |Print(t)|);
    hide GetToken;
  }

  lemma BlockParts(s: string, i: nat, t: Tree)
    requires Has(s, i, Block(t))
    ensures i < |s| && s[i] == '(' && Has(s, i + 1, Print(t)) && |Block(t)| == |Print(t)| + 2
    ensures i + 1 + |Print(t)| < |s| && s[i + 1 + |Print(t)|] == ')'
  {
    hide Print;
    HasSplit(s, i, "(" + Print(t), ")");
    HasSplit(s, i, "(", Print(t));
    assert s[i..i + 1][0] == s[i];
    var k := i + 1 + |Print(t)|;
    assert s[k..k + 1][0] == s[k];
  }

  /** What is printed starts with a parenthesis or a word, or is empty. */
  lemma PrintStart(s: string, i: nat, t: Tree)
    requires ValidTree(t) && Has(s, i, Print(t)) && AtEnd(s, i + |Print(t)|)
    ensures NoSpace(s, i)
  {
    match t
    case TExec(ws) => WordsStart(s, i, ws);
    case TRedir(c, f, h) => HasSplit(s, i, Block(c), Operator(h) + f); BlockParts(s, i, c);
    case TPipe(l, r) => HasSplit(s, i, Block(l), "|" + Block(r)); BlockParts(s, i, l);
    case TList(l, r) => HasSplit(s, i, Block(l), ";" + Block(r)); BlockParts(s, i, l);
    case TBack(c) => HasSplit(s, i, Block(c), "&"); BlockParts(s, i, c);
  }

  /** The operator and the file name of a redirection. */
  lemma RedirBack(s: string, j: nat, cmd: Cmd, f: string, h: How)
    requires NulFree(s) && ValidWord(f) && Has(s, j, Operator(h) + f) && AtEnd(s, j + |Operator(h) + f|)
    ensures var k := j + |Operator(h)|;
      ParseRedirs(s, cmd, j) == Ok(Redir(cmd, Span(k, k + |f|), h), k + |f|) && Text(s, Span(k, k + |f|)) == f
  {
    hide GetToken, Has, ValidWord, Text, NulFree, Operator, PeekIs, HowOf;
    var k := j + |Operator(h)|;
    HasSplit(s, j, Operator(h), f);
    OperatorToken(s, j, h, f);
    WordToken(s, k, f);
    var c := Redir(cmd, Span(k, k + |f|), h);
    NoRedirs(s, c, k + |f|);
    RedirStep(s, cmd, j);
  }

  /** One round of the loop of parseredirs. */
  lemma RedirStep(s: string, cmd: Cmd, j: nat)
    requires j <= |s| && NoSpace(s, j) && PeekIs(s, j, "<>") && GetToken(s, GetToken(s, j).pos).kind == 'a'
    ensures var f := GetToken(s, GetToken(s, j).pos);
      ParseRedirs(s, cmd, j) == ParseRedirs(s, Redir(cmd, Span(f.q, f.eq), HowOf(GetToken(s, j).kind)), f.pos)
  {
  }

  lemma OperatorToken(s: string, j: nat, h: How, f: string)
    requires Has(s, j, Operator(h)) && Has(s, j + |Operator(h)|, f) && ValidWord(f)
    ensures NoSpace(s, j) && PeekIs(s, j, "<>") && GetToken(s, j).pos == j + |Operator(h)| && HowOf(GetToken(s, j).kind) == h
  {
    assert s[j..j + |Operator(h)|] == Operator(h) && s[j] == Operator(h)[0];
    assert h.Append? ==> s[j + 1] == Operator(h)[1];
  }

  /** What follows two blocks joined by an operator. */
  lemma PipeBack(s: string, i: nat, cl: Cmd, j: nat, cr: Cmd, k: nat)
    requires i <= j < |s| && ParseExec(s, i) == Ok(cl, j) && s[j] == '|' && NoSpace(s, j + 1)
    requires ParsePipe(s, j + 1) == Ok(cr, k) && AtEnd(s, k)
    ensures ParseLine(s, i) == Ok(Pipe(cl, cr), k)
  {
    SymbolToken(s, j);
    hide ParseExec;
    assert ParsePipe(s, i) == Ok(Pipe(cl, cr), k);
    hide ParsePipe;
  }

  lemma ListBack(s: string, i: nat, cl: Cmd, j: nat, cr: Cmd, k: nat)
    requires i <= j < |s| && ParseExec(s, i) == Ok(cl, j) && s[j] == ';' && NoSpace(s, j + 1)
    requires ParseLine(s, j + 1) == Ok(cr, k)
    ensures ParseLine(s, i) == Ok(List(cl, cr), k)
  {
    SymbolToken(s, j);
    hide ParseExec;
    assert ParsePipe(s, i) == Ok(cl, j) && ParseBacks(s, cl, j) == Ok(cl, j);
    hide ParsePipe, ParseBacks;
  }

  lemma BackBack(s: string, i: nat, c: Cmd, j: nat)
    requires i <= j < |s| && ParseExec(s, i) == Ok(c, j) && s[j] == '&' && AtEnd(s, j + 1)
    ensures ParseLine(s, i) == Ok(Back(c), j + 1)
  {
    SymbolToken(s, j);
    hide ParseExec;
    assert ParsePipe(s, i) == Ok(c, j);
    hide ParsePipe;
    assert ParseBacks(s, Back(c), j + 1) == Ok(Back(c), j + 1);
    assert ParseBacks(s, c, j) == Ok(Back(c), j + 1);
  }

  lemma ExecBack(s: string, i: nat, ws: seq<string>) returns (cmd: Cmd)
    requires NulFree(s) && ValidTree(TExec(ws)) && Has(s, i, PrintWords(ws)) && AtEnd(s, i + |PrintWords(ws)|)
    ensures ParseLine(s, i) == Ok(cmd, i + |PrintWords(ws)|) && Resolve(s, cmd) == TExec(ws)
  {
    WordsStart(s, i, ws);
    NoRedirs(s, Exec([]), i);
    var args := ArgsBack(s, i, [], ws);
    assert [] + args == args;
    cmd := Exec(args);
    hide ParseArgs, ParseRedirs;
    assert ParseExec(s, i) == Ok(cmd, i + |PrintWords(ws)|);
    hide ParseExec;
    LineEnds(s, i, cmd, i + |PrintWords(ws)|);
  }

  /** Parsing what was printed gives the tree back and stops right behind it. */
  lemma {:induction false} ParseBack(s: string, i: nat, t: Tree) returns (cmd: Cmd)
    requires NulFree(s) && ValidTree(t) && Has(s, i, Print(t)) && AtEnd(s, i + |Print(t)|)
    ensures ParseLine(s, i) == Ok(cmd, i + |Print(t)|) && Resolve(s, cmd) == t
    decreases t, 3
  {
    hide ParseLine, ParsePipe, ParseExec, ParseRedirs, Has, NulFree, Block, Print;
    match t
    case TExec(ws) => PrintIs(t); cmd := ExecBack(s, i, ws);
    case TRedir(_, _, _) => cmd := RedirTree(s, i, t);
    case TPipe(_, _) => cmd := PairTree(s, i, t);
    case TList(_, _) => cmd := PairTree(s, i, t);
    case TBack(_) => cmd := BackTree(s, i, t);
  }

  lemma PrintIs(t: Tree)
    ensures t.TExec? ==> Print(t) == PrintWords(t.words)
  {
  }

  lemma {:induction false} RedirTree(s: string, i: nat, t: Tree) returns (cmd: Cmd)
    requires NulFree(s) && ValidTree(t) && t.TRedir? && Has(s, i, Print(t)) && AtEnd(s, i + |Print(t)|)
    ensures ParseLine(s, i) == Ok(cmd, i + |Print(t)|) && Resolve(s, cmd) == t
    decreases t, 2
  {
    hide ParseLine, ParsePipe, ParseExec, ParseRedirs, Has, NulFree, Block, Operator;
    var c, f, h := t.t, t.file, t.how;
    HasSplit(s, i, Block(c), Operator(h) + f);
    HasSplit(s, i + |Block(c)|, Operator(h), f);
    OperatorToken(s, i + |Block(c)|, h, f);
    var inner := BlockParse(s, i, c);
    cmd := RedirCase(s, i, c, f, h, inner);
  }

  lemma {:induction false} PairTree(s: string, i: nat, t: Tree) returns (cmd: Cmd)
    requires NulFree(s) && ValidTree(t) && (t.TPipe? || t.TList?) && Has(s, i, Print(t)) && AtEnd(s, i + |Print(t)|)
    ensures ParseLine(s, i) == Ok(cmd, i + |Print(t)|) && Resolve(s, cmd) == t
    decreases t, 2
  {
    hide ParseLine, ParsePipe, ParseExec, ParseRedirs, Has, NulFree, Block;
    var op := if t.TPipe? then "|" else ";";
    OpenAfter(s, i, t.l, op, t.r);
    var cl := BlockParse(s, i, t.l);
    var cr := BlockParse(s, i + |Block(t.l)| + 1, t.r);
    PairCase(s, i, t.l, t.r, cl, cr);
    cmd := if t.TPipe? then Pipe(cl, cr) else List(cl, cr);
  }

  lemma {:induction false} BackTree(s: string, i: nat, t: Tree) returns (cmd: Cmd)
    requires NulFree(s) && ValidTree(t) && t.TBack? && Has(s, i, Print(t)) && AtEnd(s, i + |Print(t)|)
    ensures ParseLine(s, i) == Ok(cmd, i + |Print(t)|) && Resolve(s, cmd) == t
    decreases t, 2
  {
    hide ParseLine, ParsePipe, ParseExec, ParseRedirs, Has, NulFree, Block;
    var j := i + |Block(t.t)|;
    HasSplit(s, i, Block(t.t), "&");
    CharAt(s, j, "&");
    var inner := BlockParse(s, i, t.t);
    NoRedirs(s, inner, j);
    BackBack(s, i, inner, j);
    cmd := Back(inner);
  }

  lemma RedirCase(s: string, i: nat, c: Tree, f: string, h: How, inner: Cmd) returns (cmd: Cmd)
    requires NulFree(s) && ValidWord(f) && Has(s, i, Block(c)) && Has(s, i + |Block(c)|, Operator(h) + f)
    requires AtEnd(s, i + |Block(c) + (Operator(h) + f)|)
    requires ParseExec(s, i) == ParseRedirs(s, inner, i + |Block(c)|) && Resolve(s, inner) == c
    ensures ParseLine(s, i) == Ok(cmd, i + |Block(c) + (Operator(h) + f)|) && Resolve(s, cmd) == TRedir(c, f, h)
  {
    hide ParseLine, ParsePipe, ParseExec, ParseRedirs, NulFree, Block, ValidWord, Text, Operator;
    var j := i + |Block(c)|;
    RedirBack(s, j, inner, f, h);
    var k := j + |Operator(h)|;
    cmd := Redir(inner, Span(k, k + |f|), h);
    LineEnds(s, i, cmd, k + |f|);
  }

  /** Two blocks with | or ; between them. */
  lemma PairCase(s: string, i: nat, l: Tree, r: Tree, cl: Cmd, cr: Cmd)
    requires var j := i + |Block(l)|;
      && j < |s| && (s[j] == '|' || s[j] == ';') && NoSpace(s, j + 1)
      && j + 1 + |Block(r)| <= |s| && AtEnd(s, j + 1 + |Block(r)|)
      && ParseExec(s, i) == ParseRedirs(s, cl, j) && ParseExec(s, j + 1) == ParseRedirs(s, cr, j + 1 + |Block(r)|)
    ensures var j := i + |Block(l)|;
      ParseLine(s, i) == Ok(if s[j] == '|' then Pipe(cl, cr) else List(cl, cr), j + 1 + |Block(r)|)
  {
    hide ParseLine, ParsePipe, ParseExec, ParseRedirs, Block;
    var j := i + |Block(l)|;
    var k := j + 1 + |Block(r)|;
    NoRedirs(s, cl, j);
    NoRedirs(s, cr, k);
    LineEnds(s, j + 1, cr, k);
    if s[j] == '|' {
      PipeBack(s, i, cl, j, cr, k);
    } else {
      ListBack(s, i, cl, j, cr, k);
    }
  }

  lemma CharAt(s: string, i: nat, x: string)
    requires Has(s, i, x) && |x| == 1
    ensures i < |s| && s[i] == x[0]
  {
  }

  /** One operator between two blocks. */
  lemma OpenAfter(s: string, i: nat, l: Tree, op: string, r: Tree)
    requires |op| == 1 && IsSymbol(op[0]) && Has(s, i, Block(l) + (op + Block(r)))
    ensures var j := i + |Block(l)|;
      Has(s, i, Block(l)) && j < |s| && s[j] == op[0] && Has(s, j + 1, Block(r)) && NoSpace(s, j) && NoSpace(s, j + 1)
  {
    hide Block, Has;
    var j := i + |Block(l)|;
    HasSplit(s, i, Block(l), op + Block(r));
    HasSplit(s, j, op, Block(r));
    CharAt(s, j, op);
    BlockParts(s, j + 1, r);
  }

  /** A block is read back, up to its redirections. */
  lemma {:induction false} BlockParse(s: string, i: nat, t: Tree) returns (cmd: Cmd)
    requires NulFree(s) && ValidTree(t) && Has(s, i, Block(t)) && NoSpace(s, i + |Block(t)|)
    ensures ParseExec(s, i) == ParseRedirs(s, cmd, i + |Block(t)|) && Resolve(s, cmd) == t
    decreases t, 4
  {
    hide ParseLine, ParsePipe, ParseExec, ParseRedirs, Has, NulFree, Block, Print;
    BlockParts(s, i, t);
    PrintStart(s, i + 1, t);
    cmd := ParseBack(s, i + 1, t);
    BlockBack(s, i, t, cmd);
  }

  /** For every command with valid words and at most nine arguments each, parsing its printed form gives the
      command back and consumes the whole line. */
  lemma RoundTrip(t: Tree)
    requires ValidTree(t)
    ensures var r := ParseCmd(Print(t)); r.Ok? && Resolve(Print(t), r.cmd) == t
  {
    hide Print, ParseLine, NulFree, ValidTree, Resolve;
    var s := Print(t);
    PrintIsNulFree(t);
    assert s[0..0 + |s|] == s;
    var cmd := ParseBack(s, 0, t);
  }

  lemma {:induction false} WordsNulFree(ws: seq<string>)
    requires forall k :: 0 <= k < |ws| ==> ValidWord(ws[k])
    ensures NulFree(PrintWords(ws))
  {
    if ws != [] {
      assert ValidWord(ws[0]);
      assert forall k :: 0 <= k < |ws[1..]| ==> ws[1..][k] == ws[k + 1];
      WordsNulFree(ws[1..]);
    }
  }

  lemma {:induction false} PrintIsNulFree(t: Tree)
    requires ValidTree(t)
    ensures NulFree(Print(t))
    decreases t
  {
    match t
    case TExec(ws) => WordsNulFree(ws);
    case TRedir(c, f, h) => PrintIsNulFree(c);
    case TPipe(l, r) => PrintIsNulFree(l); PrintIsNulFree(r);
    case TList(l, r) => PrintIsNulFree(l); PrintIsNulFree(r);
    case TBack(c) => PrintIsNulFree(c);
  }
}
