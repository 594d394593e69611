/** The pattern matcher of user/grep.c and the loop that runs it over a file.  C strings are sequences
    of characters without NUL; a pointer into one is the suffix that starts there. */
module Grep {

  const NUL := '\0'
  const BUFSIZE: nat := 1024

  // ---------------------------------------------------------------------------------------------
  // The language of a pattern
  // ---------------------------------------------------------------------------------------------

  /** One character of the pattern, alone or followed by a star. */
  datatype Item = One(c: char) | Star(c: char)

  predicate Accepts(c: char, x: char) {
    c == '.' || c == x
  }

  /** The items of a pattern without its leading ^ and its final $. */
  function Items(re: string): (r: seq<Item>) {
    if re == [] then []
    else if |re| >= 2 && re[1] == '*' then [Star(re[0])] + Items(re[2..])
    else if re == "$" then []
    else [One(re[0])] + Items(re[1..])
  }

  /** The pattern ends in a $ that is not starred. */
  predicate AtEnd(re: string) {
    if re == [] then false
    else if |re| >= 2 && re[1] == '*' then AtEnd(re[2..])
    else re == "$" || AtEnd(re[1..])
  }

  predicate ItemAccepts(it: Item, s: string) {
    match it
    case One(c) => |s| == 1 && Accepts(c, s[0])
    case Star(c) => forall i :: 0 <= i < |s| ==> Accepts(c, s[i])
  }

  function Flatten(parts: seq<string>): (s: string) {
    if parts == [] then [] else parts[0] + Flatten(parts[1..])
  }

  ghost predicate SplitsInto(items: seq<Item>, s: string, parts: seq<string>) {
    && |parts| == |items| && Flatten(parts) == s
    && forall i :: 0 <= i < |items| ==> ItemAccepts(items[i], parts[i])
  }

  /** s is in the language of the items: it can be cut into one piece for each item. */
  ghost predicate InLanguage(items: seq<Item>, s: string) {
    exists parts :: SplitsInto(items, s, parts)
  }

  /** Some prefix of text, all of it if the pattern ends in $, is in the language. */
  ghost predicate MatchesHere(re: string, text: string) {
    exists j :: 0 <= j <= |text| && Upto(re, text, j)
  }

  ghost predicate Upto(re: string, text: string, j: nat)
    requires j <= |text|
  {
    InLanguage(Items(re), text[..j]) && (AtEnd(re) ==> j == |text|)
  }

  /** What match promises: some substring of text is in the language, at the start of text if the pattern
      begins with ^ and at the end of text if it ends with $. */
  ghost predicate Matches(re: string, text: string) {
    if re != [] && re[0] == '^' then MatchesHere(re[1..], text)
    else exists i :: 0 <= i <= |text| && MatchesHere(re, text[i..])
  }

  lemma LanguageEmpty(s: string)
    ensures InLanguage([], s) <==> s == []
  {
    if s == [] {
      assert SplitsInto([], s, []);
    }
  }

  lemma LanguageOne(c: char, rest: seq<Item>, s: string)
    ensures InLanguage([One(c)] + rest, s) <==> s != [] && Accepts(c, s[0]) && InLanguage(rest, s[1..])
  {
    var items := [One(c)] + rest;
    if InLanguage(items, s) {
      var parts :| SplitsInto(items, s, parts);
      assert ItemAccepts(items[0], parts[0]);
      assert s[1..] == Flatten(parts[1..]);
      assert SplitsInto(rest, s[1..], parts[1..]) by {
        forall i | 0 <= i < |rest| ensures ItemAccepts(rest[i], parts[1..][i]) {
          assert ItemAccepts(items[i + 1], parts[i + 1]);
        }
      }
    }
    if s != [] && Accepts(c, s[0]) && InLanguage(rest, s[1..]) {
      var parts :| SplitsInto(rest, s[1..], parts);
      var all := [[s[0]]] + parts;
      assert all[1..] == parts;
      assert SplitsInto(items, s, all);
    }
  }

  /** A starred item takes k characters. */
  ghost predicate StarTakes(c: char, rest: seq<Item>, s: string, k: nat) {
    k <= |s| && ItemAccepts(Star(c), s[..k]) && InLanguage(rest, s[k..])
  }

  lemma LanguageStar(c: char, rest: seq<Item>, s: string)
    ensures InLanguage([Star(c)] + rest, s) <==> exists k: nat :: StarTakes(c, rest, s, k)
  {
    var items := [Star(c)] + rest;
    if InLanguage(items, s) {
      var parts :| SplitsInto(items, s, parts);
      assert ItemAccepts(items[0], parts[0]);
      var k := |parts[0]|;
      assert s[k..] == Flatten(parts[1..]) && s[..k] == parts[0];
      assert SplitsInto(rest, s[k..], parts[1..]) by {
        forall i | 0 <= i < |rest| ensures ItemAccepts(rest[i], parts[1..][i]) {
          assert ItemAccepts(items[i + 1], parts[i + 1]);
        }
      }
      assert StarTakes(c, rest, s, k);
    }
    if exists k: nat :: StarTakes(c, rest, s, k) {
      var k: nat :| StarTakes(c, rest, s, k);
      var parts :| SplitsInto(rest, s[k..], parts);
      var all := [s[..k]] + parts;
      assert all[1..] == parts && s == s[..k] + s[k..];
      assert SplitsInto(items, s, all);
    }
  }

  /** The empty pattern matches everywhere. */
  lemma HereEmpty(text: string)
    ensures MatchesHere([], text)
  {
    LanguageEmpty(text[..0]);
    assert Upto([], text, 0);
  }

  /** A lone $ matches the end only. */
  lemma HereEnd(text: string)
    ensures MatchesHere("$", text) <==> text == []
  {
    LanguageEmpty(text[..|text|]);
    assert text == [] ==> Upto("$", text, 0);
    assert text != [] ==> !Upto("$", text, |text|);
  }

  lemma HereOne(re: string, text: string)
    requires re != [] && !(|re| >= 2 && re[1] == '*') && re != "$"
    ensures MatchesHere(re, text) <==> text != [] && Accepts(re[0], text[0]) && MatchesHere(re[1..], text[1..])
  {
    assert Items(re) == [One(re[0])] + Items(re[1..]) && AtEnd(re) == AtEnd(re[1..]);
    forall j | 0 <= j < |text|
      ensures Upto(re, text, j + 1) <==> Accepts(re[0], text[0]) && Upto(re[1..], text[1..], j)
    {
      LanguageOne(re[0], Items(re[1..]), text[..j + 1]);
      assert text[..j + 1][1..] == text[1..][..j];
    }
    LanguageOne(re[0], Items(re[1..]), text[..0]);
    if MatchesHere(re, text) {
      var j :| 0 <= j <= |text| && Upto(re, text, j);
      assert j > 0;
      assert Upto(re, text, (j - 1) + 1);
      assert Upto(re[1..], text[1..], j - 1);
    }
    if text != [] && Accepts(re[0], text[0]) && MatchesHere(re[1..], text[1..]) {
      var j :| 0 <= j <= |text[1..]| && Upto(re[1..], text[1..], j);
      assert Upto(re, text, j + 1);
    }
  }

  /** The rest of the pattern matches after k characters taken by the star. */
  ghost predicate AfterStar(c: char, re: string, text: string, k: nat) {
    k <= |text| && ItemAccepts(Star(c), text[..k]) && MatchesHere(re, text[k..])
  }

  lemma HereStar(c: char, re: string, text: string)
    ensures MatchesHere([c, '*'] + re, text) <==> exists k: nat :: AfterStar(c, re, text, k)
  {
    var whole := [c, '*'] + re;
    assert whole[2..] == re;
    assert Items(whole) == [Star(c)] + Items(re) && AtEnd(whole) == AtEnd(re);
    if MatchesHere(whole, text) {
      var j :| 0 <= j <= |text| && Upto(whole, text, j);
      LanguageStar(c, Items(re), text[..j]);
      var k: nat :| StarTakes(c, Items(re), text[..j], k);
      assert text[..j][k..] == text[k..][..j - k] && text[..j][..k] == text[..k];
      assert Upto(re, text[k..], j - k);
      assert AfterStar(c, re, text, k);
    }
    if exists k: nat :: AfterStar(c, re, text, k) {
      var k: nat :| AfterStar(c, re, text, k);
      var j :| 0 <= j <= |text[k..]| && Upto(re, text[k..], j);
      assert text[..k + j][k..] == text[k..][..j] && text[..k + j][..k] == text[..k];
      assert StarTakes(c, Items(re), text[..k + j], k);
      LanguageStar(c, Items(re), text[..k + j]);
      assert Upto(whole, text, k + j);
    }
  }

  /** The star cannot take character i. */
  lemma StarStops(c: char, re: string, text: string, i: nat)
    requires i <= |text| && (i < |text| ==> !Accepts(c, text[i]))
    ensures forall k: nat :: k > i ==> !AfterStar(c, re, text, k)
  {
  }

  // ---------------------------------------------------------------------------------------------
  // The matcher
  // ---------------------------------------------------------------------------------------------

  method Match(re: string, text: string) returns (r: bool)
    ensures r <==> Matches(re, text)
  {
    if re != [] && re[0] == '^' {
      r := MatchHere(re[1..], text);
      return;
    }
    var i := 0;
    while true
      invariant 0 <= i <= |text|
      invariant forall k :: 0 <= k < i ==> !MatchesHere(re, text[k..])
      decreases |text| - i
    {
      var here := MatchHere(re, text[i..]);
      if here {
        return true;
      }
      if i == |text| {
        return false;
      }
      i := i + 1;
    }
  }

  method MatchHere(re: string, text: string) returns (r: bool)
    ensures r <==> MatchesHere(re, text)
    decreases |re|, 0
  {
    if re == [] {
      HereEmpty(text);
      return true;
    }
    if |re| >= 2 && re[1] == '*' {
      HereStar(re[0], re[2..], text);
      assert re == [re[0], '*'] + re[2..];
      r := MatchStar(re[0], re[2..], text);
      return;
    }
    if re[0] == '$' && |re| == 1 {
      HereEnd(text);
      assert re == "$";
      return text == [];
    }
    HereOne(re, text);
    if text != [] && (re[0] == '.' || re[0] == text[0]) {
      r := MatchHere(re[1..], text[1..]);
      return;
    }
    return false;
  }

  method MatchStar(c: char, re: string, text: string) returns (r: bool)
    ensures r <==> exists k: nat :: AfterStar(c, re, text, k)
    decreases |re|, 1
  {
    var i := 0;
    while true
      invariant 0 <= i <= |text| && ItemAccepts(Star(c), text[..i])
      invariant forall k: nat :: k < i ==> !AfterStar(c, re, text, k)
      decreases |text| - i
    {
      var here := MatchHere(re, text[i..]);
      if here {
        assert AfterStar(c, re, text, i);
        return true;
      }
      assert !AfterStar(c, re, text, i);
      if i == |text| || !(text[i] == c || c == '.') {
        StarStops(c, re, text, i);
        return false;
      }
      i := i + 1;
    }
  }

  // ---------------------------------------------------------------------------------------------
  // The loop over a file
  // ---------------------------------------------------------------------------------------------

  /** The position of the first newline, or the length if there is none. */
  function FirstNewline(s: string): (k: nat)
    ensures k <= |s| && '\n' !in s[..k] && (k < |s| ==> s[k] == '\n')
  {
    if s == [] || s[0] == '\n' then 0
    else
      var k := FirstNewline(s[1..]);
      assert s[..k + 1] == [s[0]] + s[1..][..k];
      k + 1
  }

  /** The newline-terminated lines of s that match, in order. */
  ghost function MatchingLines(re: string, s: string): (r: string)
    decreases |s|
  {
    var k := FirstNewline(s);
    if k == |s| then []
    else (if Matches(re, s[..k]) then s[..k + 1] else []) + MatchingLines(re, s[k + 1..])
  }

  /** The first newline is determined by what FirstNewline promises. */
  lemma FirstNewlineIs(s: string, k: nat)
    requires k <= |s| && '\n' !in s[..k] && (k < |s| ==> s[k] == '\n')
    ensures FirstNewline(s) == k
  {
  }

  lemma NoNewlineNoLines(re: string, s: string)
    requires '\n' !in s
    ensures MatchingLines(re, s) == []
  {
  }

  lemma LinesUnfold(re: string, s: string, k: nat)
    requires k < |s| && FirstNewline(s) == k
    ensures MatchingLines(re, s) == (if Matches(re, s[..k]) then s[..k + 1] else []) + MatchingLines(re, s[k + 1..])
  {
  }

  /** One more complete line. */
  lemma {:induction false} LinesAppend(re: string, s: string, line: string)
    requires (s == [] || s[|s| - 1] == '\n') && '\n' !in line
    ensures MatchingLines(re, s + line + ['\n']) ==
      MatchingLines(re, s) + (if Matches(re, line) then line + ['\n'] else [])
    decreases |s|
  {
    var all := s + line + ['\n'];
    hide FirstNewline, Matches, MatchingLines;
    if s == [] {
      assert all == line + ['\n'];
      assert all[..|line|] == line && all[|line| + 1..] == [] && all[..|line| + 1] == line + ['\n'];
      FirstNewlineIs(all, |line|);
      NoNewlineNoLines(re, []);
      LinesUnfold(re, all, |line|);
    } else {
      var k := FirstNewline(s);
      assert k < |s| by {
        assert s[..|s|] == s;
      }
      assert all[..k] == s[..k];
      FirstNewlineIs(all, k);
      var rest := s[k + 1..];
      assert all[..k + 1] == s[..k + 1] && all[k + 1..] == rest + line + ['\n'];
      LinesAppend(re, rest, line);
      LinesUnfold(re, all, k);
      LinesUnfold(re, s, k);
    }
  }

  /** Every stretch of 1023 bytes with a byte after it holds a newline: no line is longer than the buffer. */
  ghost predicate LinesFit(data: string, upto: nat)
    requires upto <= |data|
  {
    forall i {:trigger Window(data, i)} :: 0 <= i && i + BUFSIZE - 1 < upto ==> '\n' in Window(data, i)
  }

  ghost function Window(data: string, i: nat): (w: string)
    requires i + BUFSIZE - 1 <= |data|
  {
    data[i..i + BUFSIZE - 1]
  }

  /** The buffer starts at the beginning of a line and cannot hold more than BUFSIZE - 1 bytes, so a read
      never takes the data past a line that is too long. */
  lemma FitsStep(data: string, start: nat, pos: nat, next: nat)
    requires start <= pos <= next <= |data| && next <= start + BUFSIZE - 1
    requires start == 0 || data[start - 1] == '\n'
    requires LinesFit(data, pos)
    ensures LinesFit(data, next)
  {
  }

  /** strchr(buf + p, '\n'): the first newline at or after p and before any NUL, if there is one. */
  method Strchr(buf: array<char>, p: nat, m: nat) returns (q: nat)
    requires p <= m < buf.Length && buf[m] == NUL
    ensures p <= q <= m && (forall i :: p <= i < q ==> buf[i] != '\n' && buf[i] != NUL)
    ensures buf[q] == '\n' || buf[q] == NUL
  {
    q := p;
    while buf[q] != NUL && buf[q] != '\n'
      invariant p <= q <= m && forall i :: p <= i < q ==> buf[i] != '\n' && buf[i] != NUL
      decreases m - q
    {
      q := q + 1;
    }
  }

  /** A trailing piece of a line adds nothing. */
  lemma {:induction false} LinesTail(re: string, s: string, tail: string)
    requires (s == [] || s[|s| - 1] == '\n') && '\n' !in tail
    ensures MatchingLines(re, s + tail) == MatchingLines(re, s)
    decreases |s|
  {
    var all := s + tail;
    hide FirstNewline, Matches, MatchingLines;
    if s == [] {
      NoNewlineNoLines(re, all);
      NoNewlineNoLines(re, s);
    } else {
      var k := FirstNewline(s);
      assert k < |s| by {
        assert s[..|s|] == s;
      }
      assert all[..k] == s[..k];
      FirstNewlineIs(all, k);
      var rest := s[k + 1..];
      assert all[..k + 1] == s[..k + 1] && all[k + 1..] == rest + tail;
      LinesTail(re, rest, tail);
      LinesUnfold(re, all, k);
      LinesUnfold(re, s, k);
    }
  }

  /** The line between p and q has been dealt with. */
  lemma LineDone(re: string, done: string, b: string, p: nat, q: nat)
    requires p <= q < |b| && '\n' !in b[p..q] && b[q] == '\n'
    requires (done == [] || done[|done| - 1] == '\n') && (p == 0 || b[p - 1] == '\n')
    ensures MatchingLines(re, done + b[..q + 1]) ==
      MatchingLines(re, done + b[..p]) + (if Matches(re, b[p..q]) then b[p..q + 1] else [])
  {
    hide MatchingLines, Matches;
    LinesAppend(re, done + b[..p], b[p..q]);
    assert done + b[..q + 1] == done + b[..p] + b[p..q] + ['\n'];
    assert b[p..q + 1] == b[p..q] + ['\n'];
  }

  /** The string that a pointer to buf + p stands for: what comes before the first NUL. */
  method CString(buf: array<char>, p: nat, ghost end: nat) returns (s: string)
    requires p <= end < buf.Length && buf[end] == NUL
    ensures p + |s| <= end && buf[p + |s|] == NUL && NUL !in s && s == buf[p..p + |s|]
  {
    var q := p;
    while buf[q] != NUL
      invariant p <= q <= end && NUL !in buf[p..q]
      decreases end - q
    {
      assert buf[p..q + 1] == buf[p..q] + [buf[q]];
      q := q + 1;
    }
    s := buf[p..q];
  }

  /** One line: its newline is overwritten for the match, and restored if the line is printed. */
  method PrintLine(re: string, buf: array<char>, p: nat, q: nat, ghost held: string) returns (out: string)
    requires p <= q < |held| <= buf.Length && buf[p..q + 1] == held[p..q + 1] && held[q] == '\n' && NUL !in held[p..q]
    modifies buf
    ensures forall i :: q < i < buf.Length ==> buf[i] == old(buf[i])
    ensures out == if Matches(re, held[p..q]) then held[p..q + 1] else []
  {
    hide Matches;
    ghost var line := buf[p..q + 1];
    buf[q] := NUL;
    assert buf[p..q] == line[..q - p] == held[p..q];
    var text := CString(buf, p, q);
    var hit := Match(re, text);
    if !hit {
      return [];
    }
    buf[q] := '\n';
    assert buf[p..q + 1] == line;
    return buf[p..q + 1];
  }

  /** The inner loop: every complete line of the buffer is matched, and printed if it matches. */
  method PrintLines(re: string, buf: array<char>, m: nat, ghost done: string, ghost held: string)
    returns (out: string, p: nat)
    requires m < buf.Length && buf[m] == NUL && buf[..m] == held && (done == [] || done[|done| - 1] == '\n')
    modifies buf
    ensures p <= m && buf[p..m] == held[p..] && (p == 0 || held[p - 1] == '\n')
    ensures NUL !in held ==> '\n' !in held[p..]
    ensures MatchingLines(re, done) + out == MatchingLines(re, done + held[..p])
  {
    hide MatchingLines, Matches;
    out, p := [], 0;
    assert done + held[..0] == done;
    while true
      invariant p <= m && buf[m] == NUL && forall i :: p <= i < m ==> buf[i] == held[i]
      invariant p == 0 || held[p - 1] == '\n'
      invariant MatchingLines(re, done) + out == MatchingLines(re, done + held[..p])
      decreases m - p
    {
      var q := Strchr(buf, p, m);
      if buf[q] != '\n' {
        return;
      }
      LineDone(re, done, held, p, q);
      assert forall i :: p <= i < q ==> held[i] != NUL;
      var line := PrintLine(re, buf, p, q, held);
      out := out + line;
      p := q + 1;
    }
  }

  /** What read(fd, buf + m, cap) gives when the file holds data and pos bytes of it have been read: at
      least one byte if there is room and anything is left, and otherwise as the device pleases. */
  function ReadCount(want: nat, cap: nat, left: nat): (n: nat)
    ensures n <= cap && n <= left && (n == 0 <==> cap == 0 || left == 0)
  {
    if want + 1 <= cap && want + 1 <= left then want + 1 else if cap <= left then cap else left
  }

  /** The bytes that read stores after the first m, and the NUL that grep adds. */
  method Append(buf: array<char>, m: nat, bytes: string)
    requires m + |bytes| < buf.Length
    modifies buf
    ensures buf[..m + |bytes|] == old(buf[..m]) + bytes && buf[m + |bytes|] == NUL
  {
    forall i | 0 <= i < |bytes| {
      buf[m + i] := bytes[i];
    }
    buf[m + |bytes|] := NUL;
  }

  /** memmove(buf, buf + p, m - p). */
  method Shift(buf: array<char>, p: nat, m: nat)
    requires p <= m <= buf.Length
    modifies buf
    ensures buf[..m - p] == old(buf[p..m])
  {
    forall i | 0 <= i < m - p {
      buf[i] := buf[p + i];
    }
  }

  /** The buffer holds what has been read from the start of a line on. */
  ghost predicate Holds(data: string, start: nat, pos: nat, held: string) {
    start <= pos <= |data| && held == data[start..pos] && (start == 0 || data[start - 1] == '\n')
  }

  lemma HoldsMore(data: string, start: nat, pos: nat, bytes: string, held: string)
    requires Holds(data, start, pos, held) && pos + |bytes| <= |data| && bytes == data[pos..pos + |bytes|]
    ensures Holds(data, start, pos + |bytes|, held + bytes) && start + |held| == pos
    ensures data[..start] == [] || data[..start][|data[..start]| - 1] == '\n'
  {
  }

  lemma HoldsLess(data: string, start: nat, pos: nat, p: nat, held: string)
    requires Holds(data, start, pos, held) && p <= |held| && (p == 0 || held[p - 1] == '\n')
    ensures Holds(data, start + p, pos, held[p..]) && data[..start] + held[..p] == data[..start + p]
  {
  }

  /** One round of grep: the lines completed by the bytes just read. */
  method Round(re: string, buf: array<char>, m: nat, bytes: string, ghost done: string, ghost held: string)
    returns (out: string, p: nat)
    requires m + |bytes| < buf.Length && buf[..m] + bytes == held && (done == [] || done[|done| - 1] == '\n')
    modifies buf
    ensures
      && p <= |held| && buf[..|held| - p] == held[p..] && (p == 0 || held[p - 1] == '\n')
      && (NUL !in held ==> '\n' !in held[p..])
      && MatchingLines(re, done) + out == MatchingLines(re, done + held[..p])
  {
    hide MatchingLines;
    var m' := m + |bytes|;
    Append(buf, m, bytes);
    out, p := PrintLines(re, buf, m', done, held);
    Shift(buf, p, m');
  }

  /** What one round makes of the state of the loop. */
  lemma RoundDone(re: string, data: string, start: nat, pos: nat, bytes: string, held: string, all: string, p: nat, out: string,
                  line: string)
    requires Holds(data, start, pos, held) && Clean(data, pos, held) && Printed(re, data, start, out)
    requires pos + |bytes| <= |data| && bytes == data[pos..pos + |bytes|] && |held| + |bytes| < BUFSIZE
    requires all == held + bytes && p <= |all| && (p == 0 || all[p - 1] == '\n')
    requires NUL !in all ==> '\n' !in all[p..]
    requires MatchingLines(re, data[..start]) + line == MatchingLines(re, data[..start] + all[..p])
    ensures Holds(data, start + p, pos + |bytes|, all[p..]) && start + p <= pos + |bytes|
    ensures Clean(data, pos + |bytes|, all[p..]) && Printed(re, data, start + p, out + line)
  {
    hide MatchingLines, LinesFit;
    HoldsMore(data, start, pos, bytes, held);
    HoldsLess(data, start, pos + |bytes|, p, all);
    if NUL !in data {
      FitsStep(data, start, pos, pos + |bytes|);
    }
  }

  /** One round, and what it makes of the state of the loop. */
  method Turn(re: string, buf: array<char>, m: nat, bytes: string, ghost data: string, ghost start: nat, ghost pos: nat,
              ghost held: string, ghost out: string)
    returns (line: string, p: nat)
    requires m + |bytes| < BUFSIZE == buf.Length && |held| == m && buf[..m] == held
    requires Holds(data, start, pos, held) && Clean(data, pos, held) && Printed(re, data, start, out)
    requires pos + |bytes| <= |data| && bytes == data[pos..pos + |bytes|]
    modifies buf
    ensures p <= m + |bytes| && buf[..m + |bytes| - p] == (held + bytes)[p..] && start + p <= pos + |bytes|
    ensures Holds(data, start + p, pos + |bytes|, (held + bytes)[p..])
    ensures Clean(data, pos + |bytes|, (held + bytes)[p..]) && Printed(re, data, start + p, out + line)
  {
    hide Holds, Clean, Printed, MatchingLines, LinesFit;
    HoldsMore(data, start, pos, bytes, held);
    ghost var all := held + bytes;
    line, p := Round(re, buf, m, bytes, data[..start], all);
    RoundDone(re, data, start, pos, bytes, held, all, p, out, line);
  }

  /** grep: `chunk` decides how many bytes each read returns. */
  method Run(re: string, data: string, chunk: nat -> nat) returns (out: string, pos: nat)
    ensures pos <= |data|
    ensures NUL !in data ==> out == MatchingLines(re, data[..pos]) && (pos == |data| <==> LinesFit(data, |data|))
    ensures NUL !in data && LinesFit(data, |data|) ==> out == MatchingLines(re, data)
  {
    hide Holds, Clean, Printed, MatchingLines, LinesFit;
    var buf := new char[BUFSIZE];
    var m: nat, k: nat := 0, 0;
    out, pos := [], 0;
    ghost var start: nat, held: string := 0, [];
    Begin(re, data);
    while true
      invariant start <= pos <= |data| && |held| == m < BUFSIZE && buf[..m] == held
      invariant Holds(data, start, pos, held) && Clean(data, pos, held) && Printed(re, data, start, out)
      decreases |data| - pos
    {
      var n := ReadCount(chunk(k), BUFSIZE - m - 1, |data| - pos);
      k := k + 1;
      if n == 0 {
        break;
      }
      var bytes := data[pos..pos + n];
      var line, p := Turn(re, buf, m, bytes, data, start, pos, held, out);
      out := out + line;
      m, pos := m + n - p, pos + n;
      start, held := start + p, (held + bytes)[p..];
    }
    Finished(re, data, start, pos, held, out);
  }

  /** A line of n characters. */
  function Long(n: nat): (s: string) {
    seq(n, _ => 'a') + ['\n']
  }

  lemma LongLine(re: string, n: nat, pos: nat)
    requires pos <= n
    ensures '\n' !in Long(n)[..pos] && NUL !in Long(n) && (LinesFit(Long(n), n + 1) <==> n < BUFSIZE - 1)
    ensures MatchingLines(re, Long(n)[..pos]) == [] && MatchingLines(re, Long(n)) == if Matches(re, Long(n)[..n]) then Long(n) else []
  {
    hide Matches, MatchingLines, LinesFit;
    NoNewlineNoLines(re, Long(n)[..pos]);
    assert Long(n)[..n] + ['\n'] == Long(n);
    LinesAppend(re, [], Long(n)[..n]);
    assert [] + Long(n)[..n] + ['\n'] == Long(n);
    NoNewlineNoLines(re, []);
    LongFits(n);
  }

  lemma LongFits(n: nat)
    ensures LinesFit(Long(n), n + 1) <==> n < BUFSIZE - 1
  {
    var s := Long(n);
    if n < BUFSIZE - 1 {
      assert LinesFit(s, n + 1);
    } else {
      assert '\n' !in Window(s, 0);
    }
  }

  /** A file of one line of 1023 characters and its newline: grep stops before the newline and prints nothing, although
      the line matches. */
  method OneLongLine(chunk: nat -> nat) returns (out: string, pos: nat)
    ensures pos < 1024 && out == "" && MatchingLines("a", Long(1023)) == Long(1023) != ""
  {
    hide MatchingLines, LinesFit, Matches;
    var data := Long(1023);
    out, pos := Run("a", data, chunk);
    LongLine("a", 1023, if pos <= 1023 then pos else 0);
    AMatches(data[..1023]);
  }

  lemma AMatches(text: string)
    requires text != [] && text[0] == 'a'
    ensures Matches("a", text)
  {
    assert "a"[1..] == [] && text[0..] == text;
    HereEmpty(text[1..]);
    HereOne("a", text);
    assert MatchesHere("a", text[0..]);
  }

  /** The buffer holds no complete line, and no line has been too long so far. */
  ghost predicate Clean(data: string, pos: nat, held: string) {
    pos <= |data| && (NUL !in data ==> '\n' !in held && LinesFit(data, pos))
  }

  /** The complete lines before start have been dealt with. */
  ghost predicate Printed(re: string, data: string, start: nat, out: string) {
    start <= |data| && out == MatchingLines(re, data[..start])
  }

  lemma Begin(re: string, data: string)
    ensures Holds(data, 0, 0, []) && Clean(data, 0, []) && Printed(re, data, 0, [])
  {
  }

  /** read returned nothing: the file is at its end, or one line fills the buffer. */
  lemma Finished(re: string, data: string, start: nat, pos: nat, held: string, out: string)
    requires Holds(data, start, pos, held) && Clean(data, pos, held) && Printed(re, data, start, out)
    requires pos == |data| || |held| == BUFSIZE - 1
    ensures NUL !in data ==> out == MatchingLines(re, data[..pos]) && (pos == |data| <==> LinesFit(data, |data|))
    ensures pos == |data| ==> data[..pos] == data
  {
    if NUL !in data {
      hide MatchingLines;
      LinesTail(re, data[..start], data[start..pos]);
      assert data[..start] + data[start..pos] == data[..pos];
      assert pos < |data| ==> Window(data, start) == data[start..pos];
    }
  }
}
