/** The code of the shell's parser, which advances a position in loops, and nulterminate, which writes the
    line in place; both are proved against the functions of Shell. */
module ShellCode {
  import opened Shell

  // ---------------------------------------------------------------------------------------------
  // The parser
  // ---------------------------------------------------------------------------------------------

  method Gettoken(s: string, i: nat) returns (t: Token)
    requires i <= |s|
    ensures t == GetToken(s, i)
  {
    var p := i;
    while p < |s| && IsSpace(s[p])
      invariant i <= p <= |s| && SkipSpace(s, p) == SkipSpace(s, i)
    {
      p := p + 1;
    }
    var kind, e := At(s, p), p;
    if kind == NUL {
    } else if kind == '>' {
      e := e + 1;
      if At(s, e) == '>' {
        kind, e := '+', e + 1;
      }
    } else if IsSymbol(kind) {
      e := e + 1;
    } else {
      kind := 'a';
      while e < |s| && !IsSpace(s[e]) && !IsSymbol(s[e])
        invariant p <= e <= |s| && SkipWord(s, e) == SkipWord(s, p)
      {
        e := e + 1;
      }
    }
    var k := e;
    while k < |s| && IsSpace(s[k])
      invariant e <= k <= |s| && SkipSpace(s, k) == SkipSpace(s, e)
    {
      k := k + 1;
    }
    t := Token(kind, p, e, k);
  }

  method Peek(s: string, i: nat, toks: string) returns (hit: bool, j: nat)
    requires i <= |s|
    ensures hit == PeekIs(s, i, toks) && j == PeekPos(s, i)
    ensures hit ==> j < |s| && s[j] != NUL
  {
    j := i;
    while j < |s| && IsSpace(s[j])
      invariant i <= j <= |s| && SkipSpace(s, j) == SkipSpace(s, i)
    {
      j := j + 1;
    }
    hit := At(s, j) != NUL && At(s, j) in toks;
  }

  method Parseredirs(s: string, cmd: Cmd, i: nat) returns (r: Parsed)
    requires i <= |s|
    ensures r == ParseRedirs(s, cmd, i)
  {
    var c, p := cmd, i;
    var hit;
    hit, p := Peek(s, p, "<>");
    while hit
      invariant p <= |s| && hit == PeekIs(s, p, "<>") && PeekPos(s, p) == p
      invariant ParseRedirs(s, c, p) == ParseRedirs(s, cmd, i)
      decreases |s| - p
    {
      var op := Gettoken(s, p);
      var f := Gettoken(s, op.pos);
      if f.kind != 'a' {
        return Panic;
      }
      c := Redir(c, Span(f.q, f.eq), HowOf(op.kind));
      hit, p := Peek(s, f.pos, "<>");
    }
    return Ok(c, p);
  }

  method Parseexec(s: string, i: nat) returns (r: Parsed)
    requires i <= |s|
    ensures r == ParseExec(s, i)
    decreases |s| - i, 1
  {
    var hit, p := Peek(s, i, "(");
    if hit {
      r := Parseblock(s, p);
      return;
    }
    r := Parseredirs(s, Exec([]), p);
    if r.Panic? {
      return;
    }
    r := Arguments(s, r.cmd, r.pos);
  }

  /** Looking ahead a second time sees the same. */
  lemma PeekAgain(s: string, i: nat, toks: string)
    requires i <= |s|
    ensures PeekIs(s, PeekPos(s, i), toks) == PeekIs(s, i, toks) && PeekPos(s, PeekPos(s, i)) == PeekPos(s, i)
  {
  }

  /** The loop of parseexec over the arguments. */
  method Arguments(s: string, first: Cmd, i: nat) returns (r: Parsed)
    requires i <= |s|
    ensures r == ParseArgs(s, first, 0, i)
  {
    hide GetToken, PeekIs, ParseRedirs;
    var argc, ret := 0, first;
    var hit, p := Peek(s, i, "|)&;");
    PeekAgain(s, i, "|)&;");
    while !hit
      invariant p <= |s| && hit == PeekIs(s, p, "|)&;") && PeekPos(s, p) == p
      invariant ParseArgs(s, ret, argc, p) == ParseArgs(s, first, 0, i)
      decreases |s| - p
    {
      var t := Gettoken(s, p);
      if t.kind == NUL {
        return Ok(ret, t.pos);
      }
      if t.kind != 'a' {
        return Panic;
      }
      ret := AddArg(ret, Span(t.q, t.eq));
      argc := argc + 1;
      if argc >= MAXARGS {
        return Panic;
      }
      r := Parseredirs(s, ret, t.pos);
      if r.Panic? {
        return;
      }
      ret := r.cmd;
      hit, p := Peek(s, r.pos, "|)&;");
      PeekAgain(s, r.pos, "|)&;");
    }
    return Ok(ret, p);
  }

  method Parseblock(s: string, i: nat) returns (r: Parsed)
    requires i <= |s|
    ensures r == ParseBlock(s, i)
    decreases |s| - i, 0
  {
    var hit, p := Peek(s, i, "(");
    if !hit {
      return Panic;
    }
    var t := Gettoken(s, p);
    r := Parseline(s, t.pos);
    if r.Panic? {
      return;
    }
    hit, p := Peek(s, r.pos, ")");
    if !hit {
      return Panic;
    }
    t := Gettoken(s, p);
    r := Parseredirs(s, r.cmd, t.pos);
  }

  method Parsepipe(s: string, i: nat) returns (r: Parsed)
    requires i <= |s|
    ensures r == ParsePipe(s, i)
    decreases |s| - i, 2
  {
    r := Parseexec(s, i);
    if r.Panic? {
      return;
    }
    var hit, p := Peek(s, r.pos, "|");
    if !hit {
      return Ok(r.cmd, p);
    }
    var t := Gettoken(s, p);
    var right := Parsepipe(s, t.pos);
    if right.Panic? {
      return Panic;
    }
    return Ok(Pipe(r.cmd, right.cmd), right.pos);
  }

  method Parseline(s: string, i: nat) returns (r: Parsed)
    requires i <= |s|
    ensures r == ParseLine(s, i)
    decreases |s| - i, 3
  {
    r := Parsepipe(s, i);
    if r.Panic? {
      return;
    }
    ghost var start := r;
    var c := r.cmd;
    var hit, p := Peek(s, r.pos, "&");
    while hit
      invariant p <= |s| && hit == PeekIs(s, p, "&") && PeekPos(s, p) == p && i <= p
      invariant ParseBacks(s, c, p) == ParseBacks(s, start.cmd, start.pos)
      decreases |s| - p
    {
      var t := Gettoken(s, p);
      c := Back(c);
      hit, p := Peek(s, t.pos, "&");
    }
    hit, p := Peek(s, p, ";");
    if !hit {
      return Ok(c, p);
    }
    var t := Gettoken(s, p);
    var right := Parseline(s, t.pos);
    if right.Panic? {
      return Panic;
    }
    return Ok(List(c, right.cmd), right.pos);
  }

  // ---------------------------------------------------------------------------------------------
  // Where tokens end
  // ---------------------------------------------------------------------------------------------

  /** A word of the line, complete on its right. */
  ghost predicate WordSpan(s: string, a: Span) {
    && a.q < a.eq <= |s| && (forall p :: a.q <= p < a.eq ==> IsWordChar(s[p]))
    && (a.eq < |s| ==> !IsWordChar(s[a.eq]))
  }

  /** Every string of the command is a word of the line, and no command has too many arguments. */
  ghost predicate Good(s: string, cmd: Cmd) {
    match cmd
    case Exec(args) => |args| < MAXARGS && forall k :: 0 <= k < |args| ==> WordSpan(s, args[k])
    case Redir(c, f, _) => Good(s, c) && WordSpan(s, f)
    case Pipe(l, r) => Good(s, l) && Good(s, r)
    case List(l, r) => Good(s, l) && Good(s, r)
    case Back(c) => Good(s, c)
  }

  lemma {:induction false} SkipWordChars(s: string, i: nat)
    requires i <= |s| && NulFree(s)
    ensures var k := SkipWord(s, i);
      (forall p :: i <= p < k ==> IsWordChar(s[p])) && (k < |s| ==> !IsWordChar(s[k]))
    decreases |s| - i
  {
    if i < |s| && !IsSpace(s[i]) && !IsSymbol(s[i]) {
      SkipWordChars(s, i + 1);
    }
  }

  lemma TokenIsWord(s: string, i: nat)
    requires i <= |s| && NulFree(s) && GetToken(s, i).kind == 'a'
    ensures WordSpan(s, Span(GetToken(s, i).q, GetToken(s, i).eq))
  {
    SkipWordChars(s, SkipSpace(s, i));
  }

  /** The number of arguments of the exec command inside redirections; -1 if there is none. */
  ghost function Argc(cmd: Cmd): (n: int) {
    match cmd
    case Exec(args) => |args|
    case Redir(c, _, _) => Argc(c)
    case _ => -1
  }

  lemma {:induction false} AddArgGood(s: string, cmd: Cmd, a: Span)
    requires Good(s, cmd) && 0 <= Argc(cmd) < MAXARGS - 1 && WordSpan(s, a)
    ensures Good(s, AddArg(cmd, a)) && Argc(AddArg(cmd, a)) == Argc(cmd) + 1
  {
    match cmd
    case Exec(_) =>
    case Redir(c, _, _) => AddArgGood(s, c, a);
    case _ =>
  }

  lemma {:induction false} RedirsGood(s: string, cmd: Cmd, i: nat)
    requires i <= |s| && NulFree(s) && Good(s, cmd)
    ensures var r := ParseRedirs(s, cmd, i); r.Ok? ==> Good(s, r.cmd) && Argc(r.cmd) == Argc(cmd)
    decreases |s| - i
  {
    var p := PeekPos(s, i);
    if PeekIs(s, i, "<>") {
      var op := GetToken(s, p);
      var f := GetToken(s, op.pos);
      if f.kind == 'a' {
        TokenIsWord(s, op.pos);
        RedirsGood(s, Redir(cmd, Span(f.q, f.eq), HowOf(op.kind)), f.pos);
      }
    }
  }

  lemma {:induction false} ArgsGood(s: string, ret: Cmd, argc: nat, i: nat)
    requires i <= |s| && NulFree(s) && Good(s, ret) && Argc(ret) == argc < MAXARGS
    ensures var r := ParseArgs(s, ret, argc, i); r.Ok? ==> Good(s, r.cmd)
    decreases |s| - i
  {
    hide GetToken, PeekIs, ParseRedirs, Good, NulFree, WordSpan;
    var p := PeekPos(s, i);
    if !PeekIs(s, i, "|)&;") {
      var t := GetToken(s, p);
      if t.kind == 'a' && argc + 1 < MAXARGS {
        TokenIsWord(s, p);
        var a := AddArg(ret, Span(t.q, t.eq));
        AddArgGood(s, ret, Span(t.q, t.eq));
        RedirsGood(s, a, t.pos);
        var r := ParseRedirs(s, a, t.pos);
        if r.Ok? {
          ArgsGood(s, r.cmd, argc + 1, r.pos);
        }
      }
    }
  }

  lemma {:induction false} ExecGood(s: string, i: nat)
    requires i <= |s| && NulFree(s)
    ensures var r := ParseExec(s, i); r.Ok? ==> Good(s, r.cmd)
    decreases |s| - i, 1
  {
    if PeekIs(s, i, "(") {
      BlockGood(s, PeekPos(s, i));
    } else {
      var p := PeekPos(s, i);
      RedirsGood(s, Exec([]), p);
      var r := ParseRedirs(s, Exec([]), p);
      if r.Ok? {
        ArgsGood(s, r.cmd, 0, r.pos);
      }
    }
  }

  lemma {:induction false} BlockGood(s: string, i: nat)
    requires i <= |s| && NulFree(s)
    ensures var r := ParseBlock(s, i); r.Ok? ==> Good(s, r.cmd)
    decreases |s| - i, 0
  {
    if PeekIs(s, i, "(") {
      var p := GetToken(s, PeekPos(s, i)).pos;
      LineGood(s, p);
      var r := ParseLine(s, p);
      if r.Ok? && PeekIs(s, r.pos, ")") {
        RedirsGood(s, r.cmd, GetToken(s, PeekPos(s, r.pos)).pos);
      }
    }
  }

  lemma {:induction false} PipeGood(s: string, i: nat)
    requires i <= |s| && NulFree(s)
    ensures var r := ParsePipe(s, i); r.Ok? ==> Good(s, r.cmd)
    decreases |s| - i, 2
  {
    ExecGood(s, i);
    var l := ParseExec(s, i);
    if l.Ok? && PeekIs(s, l.pos, "|") {
      PipeGood(s, GetToken(s, PeekPos(s, l.pos)).pos);
    }
  }

  lemma {:induction false} BacksGood(s: string, cmd: Cmd, i: nat)
    requires i <= |s| && Good(s, cmd)
    ensures Good(s, ParseBacks(s, cmd, i).cmd)
    decreases |s| - i
  {
    if PeekIs(s, i, "&") {
      BacksGood(s, Back(cmd), GetToken(s, PeekPos(s, i)).pos);
    }
  }

  lemma {:induction false} LineGood(s: string, i: nat)
    requires i <= |s| && NulFree(s)
    ensures var r := ParseLine(s, i); r.Ok? ==> Good(s, r.cmd)
    decreases |s| - i, 3
  {
    PipeGood(s, i);
    var l := ParsePipe(s, i);
    if l.Ok? {
      BacksGood(s, l.cmd, l.pos);
      var b := ParseBacks(s, l.cmd, l.pos);
      if PeekIs(s, b.pos, ";") {
        LineGood(s, GetToken(s, PeekPos(s, b.pos)).pos);
      }
    }
  }

  // ---------------------------------------------------------------------------------------------
  // nulterminate
  // ---------------------------------------------------------------------------------------------

  /** a is one of the strings of the command. */
  ghost predicate SpanOf(cmd: Cmd, a: Span) {
    match cmd
    case Exec(args) => a in args
    case Redir(c, f, _) => a == f || SpanOf(c, a)
    case Pipe(l, r) => SpanOf(l, a) || SpanOf(r, a)
    case List(l, r) => SpanOf(l, a) || SpanOf(r, a)
    case Back(c) => SpanOf(c, a)
  }

  /** Position p is the end of one of the strings of the command. */
  ghost predicate IsEnd(cmd: Cmd, p: nat) {
    exists a :: SpanOf(cmd, a) && a.eq == p
  }

  lemma {:induction false} GoodSpan(s: string, cmd: Cmd, a: Span)
    requires Good(s, cmd) && SpanOf(cmd, a)
    ensures WordSpan(s, a)
  {
    match cmd
    case Exec(args) =>
    case Redir(c, f, _) =>
      if a != f {
        GoodSpan(s, c, a);
      }
    case Pipe(l, r) =>
      if SpanOf(l, a) {
        GoodSpan(s, l, a);
      } else {
        GoodSpan(s, r, a);
      }
    case List(l, r) =>
      if SpanOf(l, a) {
        GoodSpan(s, l, a);
      } else {
        GoodSpan(s, r, a);
      }
    case Back(c) => GoodSpan(s, c, a);
  }

  /** nulterminate: NUL at the end of every string, and nothing else. */
  method Nulterminate(buf: array<char>, cmd: Cmd, ghost s: string)
    requires Good(s, cmd) && buf.Length == |s| + 1
    modifies buf
    ensures forall p :: 0 <= p < buf.Length ==> buf[p] == if IsEnd(cmd, p) then NUL else old(buf[p])
    decreases cmd
  {
    match cmd
    case Exec(args) =>
      var k := 0;
      while k < |args|
        invariant 0 <= k <= |args|
        invariant forall p :: 0 <= p < buf.Length ==> buf[p] == if IsEnd(Exec(args[..k]), p) then NUL else old(buf[p])
      {
        EndsMore(args, k);
        buf[args[k].eq] := NUL;
        k := k + 1;
      }
      assert args[..k] == args;
    case Redir(c, f, h) =>
      Nulterminate(buf, c, s);
      buf[f.eq] := NUL;
      EndsRedir(c, f, h);
    case Pipe(l, r) =>
      Nulterminate(buf, l, s);
      Nulterminate(buf, r, s);
      EndsPair(l, r);
    case List(l, r) =>
      Nulterminate(buf, l, s);
      Nulterminate(buf, r, s);
      EndsPair(l, r);
    case Back(c) =>
      Nulterminate(buf, c, s);
      EndsBack(c);
  }

  lemma EndsMore(args: seq<Span>, k: nat)
    requires k < |args|
    ensures forall p: nat :: IsEnd(Exec(args[..k + 1]), p) <==> IsEnd(Exec(args[..k]), p) || p == args[k].eq
  {
  }

  lemma EndsRedir(c: Cmd, f: Span, h: How)
    ensures forall p: nat :: IsEnd(Redir(c, f, h), p) <==> IsEnd(c, p) || p == f.eq
  {
  }

  lemma EndsPair(l: Cmd, r: Cmd)
    ensures forall p: nat :: IsEnd(Pipe(l, r), p) <==> IsEnd(l, p) || IsEnd(r, p)
    ensures forall p: nat :: IsEnd(List(l, r), p) <==> IsEnd(l, p) || IsEnd(r, p)
  {
  }

  lemma EndsBack(c: Cmd)
    ensures forall p: nat :: IsEnd(Back(c), p) <==> IsEnd(c, p)
  {
  }

  /** The string that a C pointer to position q of the buffer denotes is w. */
  ghost predicate StringAt(buf: seq<char>, q: nat, w: string) {
    && q + |w| < |buf| && buf[q..q + |w|] == w && buf[q + |w|] == NUL && NulFree(w)
  }

  /** parsecmd: panic, or a command every string of which is exactly its token in the line now cut up. */
  method Parsecmd(buf: array<char>) returns (r: Parsed)
    requires buf.Length > 0 && NulFree(buf[..buf.Length - 1]) && buf[buf.Length - 1] == NUL
    modifies buf
    ensures r == ParseCmd(old(buf[..buf.Length - 1]))
    ensures r.Panic? ==> buf[..] == old(buf[..])
    ensures r.Ok? ==> forall a :: SpanOf(r.cmd, a) ==> StringAt(buf[..], a.q, Text(old(buf[..buf.Length - 1]), a))
  {
    var s := buf[..buf.Length - 1];
    r := Parseline(s, 0);
    if r.Panic? {
      return;
    }
    LineGood(s, 0);
    var hit, p := Peek(s, r.pos, "");
    if p != |s| {
      return Panic;
    }
    Nulterminate(buf, r.cmd, s);
    forall a | SpanOf(r.cmd, a) ensures StringAt(buf[..], a.q, Text(s, a)) {
      Untouched(s, r.cmd, a, buf[..]);
    }
    return Ok(r.cmd, |s|);
  }

  /** The end of one token is never inside another. */
  lemma Untouched(s: string, cmd: Cmd, a: Span, b: seq<char>)
    requires Good(s, cmd) && SpanOf(cmd, a) && NulFree(s) && |b| == |s| + 1
    requires forall p :: 0 <= p < |b| ==> b[p] == if IsEnd(cmd, p) then NUL else At(s, p)
    ensures StringAt(b, a.q, Text(s, a))
  {
    hide Good, SpanOf;
    GoodSpan(s, cmd, a);
    assert IsEnd(cmd, a.eq);
    forall p | a.q <= p < a.eq ensures b[p] == s[p] {
      if IsEnd(cmd, p) {
        var c :| SpanOf(cmd, c) && c.eq == p;
        GoodSpan(s, cmd, c);
      }
    }
  }
}
