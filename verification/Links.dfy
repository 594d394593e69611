/** Link counts under create, link and unlink of kernel/sysfile.c, with directories as lists of entries.  What a
    call does while it holds the locks of the inodes involved is one step; link lets go of its inode between
    raising the count and entering the name, and is two. */
module Links {

  const ROOT: nat := 1

  datatype Kind = Free | File | Dir

  datatype Name = Dot | DotDot | Other(text: string)

  /** A directory entry; an empty one has number 0. */
  datatype Dirent = Dirent(inum: nat, name: Name)

  const NONE := Dirent(0, Other([]))

  /** An inode on disk; es are the entries if it is a directory. */
  datatype Node = Node(kind: Kind, nlink: int, es: seq<Dirent>)

  /** flight: calls of link that have raised the count of a file and not yet entered its new name. */
  datatype State = State(nodes: map<nat, Node>, flight: map<nat, nat>)

  /** ok says whether the entries could be written; a create that fails has written the first `dots` entries
      of the new directory. */
  datatype Event =
    | Create(dp: nat, name: Name, n: nat, kind: Kind, ok: bool, dots: nat)
    | LinkUp(p: nat, n: nat)
    | LinkName(p: nat, dp: nat, name: Name, ok: bool)
    | Unlink(dp: nat, k: nat)
    | Release(n: nat)

  /** nlink is a 16-bit field. */
  function Inc(n: int): (r: int) {
    if n == 32767 then -32768 else n + 1
  }

  // ---------------------------------------------------------------------------------------------
  // The steps
  // ---------------------------------------------------------------------------------------------

  /** dirlookup: the position of name, or the length. */
  function Lookup(es: seq<Dirent>, name: Name, i: nat): (k: nat)
    requires i <= |es|
    ensures i <= k <= |es|
    decreases |es| - i
  {
    if i == |es| || (es[i].inum != 0 && es[i].name == name) then i else Lookup(es, name, i + 1)
  }

  /** dirlink: the first empty entry, or the end. */
  function Empty(es: seq<Dirent>, i: nat): (k: nat)
    requires i <= |es|
    ensures i <= k <= |es|
    decreases |es| - i
  {
    if i == |es| || es[i].inum == 0 then i else Empty(es, i + 1)
  }

  function Put(es: seq<Dirent>, e: Dirent): (r: seq<Dirent>) {
    var k := Empty(es, 0);
    if k == |es| then es + [e] else es[k := e]
  }

  /** The loop of dirlookup. */
  method Dirlookup(es: seq<Dirent>, name: Name) returns (k: nat)
    ensures k == Lookup(es, name, 0)
    ensures k < |es| ==> es[k].inum != 0 && es[k].name == name
    ensures forall j :: 0 <= j < k ==> !(es[j].inum != 0 && es[j].name == name)
  {
    k := 0;
    while k < |es|
      invariant k <= |es| && Lookup(es, name, 0) == Lookup(es, name, k)
      invariant forall j :: 0 <= j < k ==> !(es[j].inum != 0 && es[j].name == name)
    {
      if es[k].inum != 0 && es[k].name == name {
        return;
      }
      k := k + 1;
    }
  }

  /** dirlink, when the name is new and the entry can be written: the first empty slot, or one more at the end. */
  method Dirlink(es: seq<Dirent>, e: Dirent) returns (r: seq<Dirent>)
    ensures r == Put(es, e)
    ensures exists k: nat :: k < |r| && r[k] == e && (k < |es| ==> es[k].inum == 0) && r == if k < |es| then es[k := e] else es + [e]
  {
    var k := 0;
    while k < |es| && es[k].inum != 0
      invariant k <= |es| && Empty(es, 0) == Empty(es, k)
    {
      k := k + 1;
    }
    r := if k < |es| then es[k := e] else es + [e];
    assert r[k] == e;
  }

  /** The loop of isdirempty, which starts behind the dots. */
  method Isdirempty(es: seq<Dirent>) returns (b: bool)
    ensures b == OnlyDots(es)
  {
    var k := 2;
    while k < |es|
      invariant 2 <= k && forall j :: 2 <= j < k && j < |es| ==> es[j].inum == 0
    {
      if es[k].inum != 0 {
        return false;
      }
      k := k + 1;
    }
    return true;
  }

  predicate IsDir(s: State, d: nat) {
    d in s.nodes && s.nodes[d].kind == Dir
  }

  predicate Linked(s: State, d: nat) {
    IsDir(s, d) && s.nodes[d].nlink > 0
  }

  /** isdirempty. */
  predicate OnlyDots(es: seq<Dirent>) {
    forall k :: 2 <= k < |es| ==> es[k].inum == 0
  }

  predicate Enabled(s: State, ev: Event) {
    match ev
    case Create(dp, name, n, kind, ok, dots) =>
      && IsDir(s, dp) && Lookup(s.nodes[dp].es, name, 0) == |s.nodes[dp].es| && kind != Free
      && n in s.nodes && s.nodes[n].kind == Free && dots <= |Fresh(n, dp, kind).es|
    case LinkUp(p, n) => p !in s.flight && n in s.nodes && s.nodes[n].kind == File
    case LinkName(p, dp, name, ok) =>
      && p in s.flight && s.flight[p] in s.nodes
      && (ok ==> IsDir(s, dp) && Lookup(s.nodes[dp].es, name, 0) == |s.nodes[dp].es|)
    case Unlink(dp, k) =>
      && IsDir(s, dp) && k < |s.nodes[dp].es| && s.nodes[dp].es[k].name != Dot && s.nodes[dp].es[k].name != DotDot
      && var c := s.nodes[dp].es[k].inum;
        c != 0 && c in s.nodes && (s.nodes[c].kind == Dir ==> OnlyDots(s.nodes[c].es) && c != dp)
    case Release(n) => n in s.nodes && s.nodes[n].nlink == 0 && s.nodes[n].kind != Free
  }

  function Fresh(n: nat, dp: nat, kind: Kind): (x: Node) {
    Node(kind, 1, if kind == Dir then [Dirent(n, Dot), Dirent(dp, DotDot)] else [])
  }

  function Entered(s: State, dp: nat, e: Dirent): (s': State)
    requires dp in s.nodes
  {
    s.(nodes := s.nodes[dp := s.nodes[dp].(es := Put(s.nodes[dp].es, e))])
  }

  function Counted(s: State, n: nat, c: int): (s': State)
    requires n in s.nodes
  {
    s.(nodes := s.nodes[n := s.nodes[n].(nlink := c)])
  }

  function Erased(s: State, dp: nat, k: nat, c: int): (s': State)
    requires dp in s.nodes && k < |s.nodes[dp].es|
  {
    s.(nodes := s.nodes[dp := s.nodes[dp].(es := s.nodes[dp].es[k := NONE], nlink := c)])
  }

  function Apply(s: State, ev: Event): (s': State)
    requires Enabled(s, ev)
  {
    match ev
    case Create(dp, name, n, kind, ok, dots) =>
      var x := Fresh(n, dp, kind);
      if !ok then s.(nodes := s.nodes[n := Node(kind, 0, x.es[..dots])])
      else
        var s1 := s.(nodes := s.nodes[n := x]);
        var s2 := Entered(s1, dp, Dirent(n, name));
        if kind == Dir then Counted(s2, dp, Inc(s2.nodes[dp].nlink)) else s2
    case LinkUp(p, n) => Counted(s, n, Inc(s.nodes[n].nlink)).(flight := s.flight[p := n])
    case LinkName(p, dp, name, ok) =>
      var n := s.flight[p];
      var s1 := s.(flight := s.flight - {p});
      if ok then Entered(s1, dp, Dirent(n, name)) else Counted(s1, n, s.nodes[n].nlink - 1)
    case Unlink(dp, k) =>
      var c := s.nodes[dp].es[k].inum;
      var s1 := Erased(s, dp, k, if s.nodes[c].kind == Dir then s.nodes[dp].nlink - 1 else s.nodes[dp].nlink);
      Counted(s1, c, s1.nodes[c].nlink - 1)
    case Release(n) => s.(nodes := s.nodes[n := Node(Free, 0, [])])
  }

  // ---------------------------------------------------------------------------------------------
  // The invariant
  // ---------------------------------------------------------------------------------------------

  /** Entry k of directory d, other than ".", names n, and d is still linked. */
  ghost predicate NamedAt(s: State, n: nat, d: nat, k: nat) {
    Linked(s, d) && k < |s.nodes[d].es| && s.nodes[d].es[k].inum == n && s.nodes[d].es[k].name != Dot
  }

  ghost function Names(s: State, n: nat): (r: set<(nat, nat)>) {
    set d, k | d in s.nodes && 0 <= k < |s.nodes[d].es| && NamedAt(s, n, d, k) :: (d, k)
  }

  ghost function InFlight(s: State, n: nat): (r: set<nat>) {
    set p | p in s.flight && s.flight[p] == n
  }

  /** The count of n is the number of its names plus its links in flight. */
  ghost predicate CountOk(s: State, n: nat)
    requires n in s.nodes
  {
    s.nodes[n].nlink == |Names(s, n)| + |InFlight(s, n)|
  }

  ghost predicate CountsOk(s: State) {
    forall n :: n in s.nodes ==> CountOk(s, n)
  }

  ghost predicate FreeOk(s: State) {
    && 0 !in s.nodes && Linked(s, ROOT) && |s.nodes[ROOT].es| >= 2 && s.nodes[ROOT].es[1].inum == ROOT
    && (forall n :: n in s.nodes && s.nodes[n].kind == Free ==> s.nodes[n].nlink == 0)
    && (forall p :: p in s.flight ==> s.flight[p] in s.nodes && s.nodes[s.flight[p]].kind == File)
  }

  /** A linked directory starts with "." and "..", and ".." leads to a linked directory; one that is not linked
      has nothing beyond them. */
  ghost predicate DotsOk(s: State, d: nat)
    requires d in s.nodes
  {
    var x := s.nodes[d];
    && (x.nlink > 0 ==> |x.es| >= 2 && x.es[0] == Dirent(d, Dot) && x.es[1].name == DotDot && Linked(s, x.es[1].inum))
    && (x.nlink <= 0 ==> OnlyDots(x.es) && forall k :: 0 <= k < 2 && k < |x.es| ==> x.es[k].name == Dot || x.es[k].name == DotDot)
  }

  /** An entry beyond the dots names an inode there is; if that is a directory, its ".." leads back. */
  ghost predicate EntryOk(s: State, d: nat, k: nat)
    requires d in s.nodes && k < |s.nodes[d].es|
  {
    var e := s.nodes[d].es[k];
    && (e.inum != 0 ==> e.name != Dot && e.name != DotDot && e.inum in s.nodes && e.inum != ROOT)
    && (e.inum != 0 && IsDir(s, e.inum) ==> |s.nodes[e.inum].es| >= 2 && s.nodes[e.inum].es[1].inum == d)
  }

  ghost predicate AllDots(s: State) {
    forall d :: IsDir(s, d) ==> DotsOk(s, d)
  }

  ghost predicate AllEntries(s: State) {
    forall d, k :: IsDir(s, d) && 2 <= k < |s.nodes[d].es| ==> EntryOk(s, d, k)
  }

  ghost predicate TreeOk(s: State) {
    AllDots(s) && AllEntries(s)
  }

  /** A directory has one name beyond the dots, in the directory that its ".." leads to. */
  ghost predicate OneParent(s: State) {
    && (forall d, k, j :: (IsDir(s, d) && 2 <= k < |s.nodes[d].es| && 2 <= j < |s.nodes[d].es| && IsDir(s, s.nodes[d].es[k].inum)
      && s.nodes[d].es[k].inum == s.nodes[d].es[j].inum) ==> k == j)
    && (forall c :: Linked(s, c) && c != ROOT ==> HasName(s, c))
  }

  ghost predicate HasName(s: State, c: nat) {
    && c in s.nodes && |s.nodes[c].es| >= 2 && s.nodes[c].es[1].inum in s.nodes
    && exists k :: Holds(s, s.nodes[c].es[1].inum, k, c)
  }

  /** Entry k of d, beyond the dots, names c. */
  ghost predicate Holds(s: State, d: nat, k: nat, c: nat) {
    d in s.nodes && 2 <= k < |s.nodes[d].es| && s.nodes[d].es[k].inum == c
  }

  ghost predicate Inv(s: State) {
    CountsOk(s) && FreeOk(s) && TreeOk(s) && OneParent(s)
  }

  // ---------------------------------------------------------------------------------------------
  // How the names change
  // ---------------------------------------------------------------------------------------------

  lemma {:induction false} EmptyWhat(es: seq<Dirent>, i: nat)
    requires i <= |es|
    ensures Empty(es, i) < |es| ==> es[Empty(es, i)].inum == 0
    ensures forall j :: i <= j < Empty(es, i) ==> es[j].inum != 0
    decreases |es| - i
  {
    if i < |es| && es[i].inum != 0 {
      EmptyWhat(es, i + 1);
    }
  }

  lemma {:induction false} LookupWhat(es: seq<Dirent>, name: Name, i: nat)
    requires i <= |es| && Lookup(es, name, i) == |es|
    ensures forall j :: i <= j < |es| ==> !(es[j].inum != 0 && es[j].name == name)
    decreases |es| - i
  {
    if i < |es| && !(es[i].inum != 0 && es[i].name == name) {
      LookupWhat(es, name, i + 1);
    }
  }

  lemma PutWhat(es: seq<Dirent>, e: Dirent)
    ensures var k := Empty(es, 0);
      && k < |Put(es, e)| && |Put(es, e)| >= |es| && Put(es, e)[k] == e && (k < |es| ==> es[k].inum == 0)
      && forall j :: 0 <= j < |Put(es, e)| && j != k ==> j < |es| && Put(es, e)[j] == es[j]
  {
    EmptyWhat(es, 0);
  }

  /** A new name. */
  lemma NamesEntered(s: State, dp: nat, e: Dirent, n: nat)
    requires Linked(s, dp) && e.name != Dot && n != 0
    ensures var s', k := Entered(s, dp, e), Empty(s.nodes[dp].es, 0);
      Names(s', n) == Names(s, n) + (if n == e.inum then {(dp, k)} else {}) && (dp, k) !in Names(s, n)
  {
    var s', k := Entered(s, dp, e), Empty(s.nodes[dp].es, 0);
    PutWhat(s.nodes[dp].es, e);
    var r, r' := Names(s, n), Names(s', n);
    forall d: nat, j: nat ensures (d, j) in r' <==> (d, j) in r || (n == e.inum && d == dp && j == k) {
      assert (d, j) in r <==> NamedAt(s, n, d, j);
      assert (d, j) in r' <==> NamedAt(s', n, d, j);
    }
  }

  /** A new directory with its two dots. */
  lemma NamesNewDir(s: State, x: nat, dp: nat, n: nat)
    requires x in s.nodes && !Linked(s, x)
    ensures var s' := s.(nodes := s.nodes[x := Fresh(x, dp, Dir)]);
      Names(s', n) == Names(s, n) + (if n == dp then {(x, 1)} else {}) && (x, 1) !in Names(s, n)
  {
  }

  /** A name gone. */
  lemma NamesErased(s: State, dp: nat, k: nat, c: int, n: nat)
    requires Linked(s, dp) && c > 0 && k < |s.nodes[dp].es| && n != 0
    ensures Names(Erased(s, dp, k, c), n) == Names(s, n) - {(dp, k)}
  {
  }

  /** A directory that loses its last link takes its ".." with it. */
  lemma NamesUnlinked(s: State, x: nat, n: nat)
    requires Linked(s, x) && OnlyDots(s.nodes[x].es) && |s.nodes[x].es| >= 2 && s.nodes[x].es[0].name == Dot && n != 0
    ensures Names(Counted(s, x, 0), n) == Names(s, n) - {(x, 1)}
  {
  }

  // ---------------------------------------------------------------------------------------------
  // The counts after each step
  // ---------------------------------------------------------------------------------------------

  lemma FlightMore(s: State, p: nat, n: nat, m: nat)
    requires p !in s.flight
    ensures InFlight(s.(flight := s.flight[p := n]), m) == InFlight(s, m) + (if m == n then {p} else {}) && p !in InFlight(s, m)
  {
  }

  lemma FlightLess(s: State, p: nat, m: nat)
    requires p in s.flight
    ensures InFlight(s.(flight := s.flight - {p}), m) == InFlight(s, m) - {p} && (p in InFlight(s, m) <==> m == s.flight[p])
  {
  }

  /** No one names a free inode. */
  lemma NotNamed(s: State, n: nat)
    requires CountsOk(s) && n in s.nodes && s.nodes[n].nlink == 0
    ensures Names(s, n) == {} && InFlight(s, n) == {}
  {
  }

  lemma FlightSame(s: State, s': State, m: nat)
    requires s'.flight == s.flight
    ensures InFlight(s', m) == InFlight(s, m)
  {
  }

  /** An inode that is no linked directory before or after names nothing. */
  lemma NamesIdle(s: State, n: nat, x: Node, m: nat)
    requires n in s.nodes && !Linked(s, n) && !(x.kind == Dir && x.nlink > 0)
    ensures Names(s.(nodes := s.nodes[n := x]), m) == Names(s, m)
  {
  }

  /** Only the count of n changes, and not to or from 0 if it is a directory. */
  lemma NamesCounted(s: State, n: nat, c: int, m: nat)
    requires n in s.nodes && (s.nodes[n].kind == Dir ==> (c > 0 <==> s.nodes[n].nlink > 0))
    ensures Names(Counted(s, n, c), m) == Names(s, m)
  {
  }

  lemma CreateDirNames(s: State, dp: nat, name: Name, n: nat, c: int, m: nat)
    requires Linked(s, dp) && name != Dot && n in s.nodes && !Linked(s, n) && m != 0 && c > 0
    ensures var s2 := Entered(s.(nodes := s.nodes[n := Fresh(n, dp, Dir)]), dp, Dirent(n, name));
      |Names(Counted(s2, dp, c), m)| == |Names(s, m)| + (if m == n then 1 else 0) + (if m == dp then 1 else 0)
  {
    var s1 := s.(nodes := s.nodes[n := Fresh(n, dp, Dir)]);
    hide Names, Put;
    NamesNewDir(s, n, dp, m);
    NamesEntered(s1, dp, Dirent(n, name), m);
    NamesCounted(Entered(s1, dp, Dirent(n, name)), dp, c, m);
  }

  lemma CreateFileNames(s: State, dp: nat, name: Name, n: nat, m: nat)
    requires Linked(s, dp) && name != Dot && n in s.nodes && !Linked(s, n) && m != 0
    ensures var s2 := Entered(s.(nodes := s.nodes[n := Fresh(n, dp, File)]), dp, Dirent(n, name));
      |Names(s2, m)| == |Names(s, m)| + (if m == n then 1 else 0)
  {
    var x := Fresh(n, dp, File);
    hide Names, Put;
    NamesIdle(s, n, x, m);
    NamesEntered(s.(nodes := s.nodes[n := x]), dp, Dirent(n, name), m);
  }

  lemma CreateNames(s: State, ev: Event, m: nat)
    requires Inv(s) && ev.Create? && Enabled(s, ev) && Sound(s, ev) && m in s.nodes
    ensures |Names(Apply(s, ev), m)| == |Names(s, m)| + (if ev.ok && (m == ev.n || (m == ev.dp && ev.kind == Dir)) then 1 else 0)
    ensures InFlight(Apply(s, ev), m) == InFlight(s, m)
  {
    hide Names, Lookup, TreeOk, OneParent, CountsOk, Put, InFlight;
    FlightSame(s, Apply(s, ev), m);
    if !ev.ok {
      NamesIdle(s, ev.n, Node(ev.kind, 0, Fresh(ev.n, ev.dp, ev.kind).es[..ev.dots]), m);
    } else {
      NewName(s, ev);
      if ev.kind == Dir {
        CreateDirNames(s, ev.dp, ev.name, ev.n, Inc(s.nodes[ev.dp].nlink), m);
      } else {
        CreateFileNames(s, ev.dp, ev.name, ev.n, m);
      }
    }
  }

  lemma CreateCounts(s: State, ev: Event)
    requires Inv(s) && ev.Create? && Enabled(s, ev) && Sound(s, ev)
    ensures CountsOk(Apply(s, ev))
  {
    var s' := Apply(s, ev);
    forall m | m in s'.nodes ensures CountOk(s', m) {
      assert CountOk(s, m);
      CreateCountAt(s, ev, m);
    }
  }

  lemma CreateCountAt(s: State, ev: Event, m: nat)
    requires Inv(s) && ev.Create? && Enabled(s, ev) && Sound(s, ev) && m in s.nodes && CountOk(s, m)
    ensures CountOk(Apply(s, ev), m)
  {
    CreateNames(s, ev, m);
    NotNamed(s, ev.n);
    hide Inv, Names, Put, Lookup, InFlight;
  }

  /** A name that is not yet in a linked directory is neither "." nor "..". */
  lemma NewName(s: State, ev: Event)
    requires Inv(s) && Enabled(s, ev) && (ev.Create? || (ev.LinkName? && ev.ok)) && Linked(s, ev.dp)
    ensures ev.name != Dot && ev.name != DotDot && 0 !in s.nodes && Empty(s.nodes[ev.dp].es, 0) >= 2
  {
    var es := s.nodes[ev.dp].es;
    assert DotsOk(s, ev.dp);
    LookupWhat(es, ev.name, 0);
    EmptyWhat(es, 0);
    assert es[0].inum != 0 && es[1].inum != 0;
  }

  /** When a step keeps the counts right: the directory that takes the new name is still linked, and no count
      is at its limit. */
  predicate Sound(s: State, ev: Event)
    requires Enabled(s, ev)
  {
    match ev
    case Create(dp, _, _, kind, ok, _) => ok ==> Linked(s, dp) && (kind == Dir ==> s.nodes[dp].nlink != 32767)
    case LinkUp(_, n) => s.nodes[n].nlink != 32767
    case LinkName(_, dp, _, ok) => ok ==> Linked(s, dp)
    case _ => true
  }

  lemma LinkUpCounts(s: State, ev: Event)
    requires Inv(s) && ev.LinkUp? && Enabled(s, ev) && Sound(s, ev)
    ensures CountsOk(Apply(s, ev))
  {
    var s' := Apply(s, ev);
    forall m | m in s'.nodes ensures CountOk(s', m) {
      assert CountOk(s, m);
      LinkUpAt(s, ev, m);
    }
  }

  lemma LinkUpAt(s: State, ev: Event, m: nat)
    requires ev.LinkUp? && Enabled(s, ev) && Sound(s, ev) && m in s.nodes && CountOk(s, m)
    ensures CountOk(Apply(s, ev), m)
  {
    hide Names, InFlight;
    var s1 := Counted(s, ev.n, Inc(s.nodes[ev.n].nlink));
    FlightMore(s, ev.p, ev.n, m);
    FlightSame(s.(flight := s.flight[ev.p := ev.n]), Apply(s, ev), m);
    NamesCounted(s, ev.n, Inc(s.nodes[ev.n].nlink), m);
    NamesFlight(s1, Apply(s, ev), m);
  }

  lemma NamesFlight(s: State, s': State, m: nat)
    requires s'.nodes == s.nodes
    ensures Names(s', m) == Names(s, m)
  {
  }

  lemma LinkNameAt(s: State, ev: Event, m: nat)
    requires Inv(s) && ev.LinkName? && Enabled(s, ev) && Sound(s, ev) && m in s.nodes
    ensures |Names(Apply(s, ev), m)| == |Names(s, m)| + (if ev.ok && m == s.flight[ev.p] then 1 else 0)
    ensures |InFlight(Apply(s, ev), m)| == |InFlight(s, m)| - (if m == s.flight[ev.p] then 1 else 0)
  {
    hide TreeOk, OneParent, CountsOk, Names, Put, Lookup, InFlight;
    var n, s1 := s.flight[ev.p], s.(flight := s.flight - {ev.p});
    FlightLess(s, ev.p, m);
    FlightSame(s1, Apply(s, ev), m);
    NamesFlight(s, s1, m);
    if ev.ok {
      NewName(s, ev);
      NamesEntered(s1, ev.dp, Dirent(n, ev.name), m);
    } else {
      NamesCounted(s1, n, s.nodes[n].nlink - 1, m);
    }
  }

  lemma LinkNameCounts(s: State, ev: Event)
    requires Inv(s) && ev.LinkName? && Enabled(s, ev) && Sound(s, ev)
    ensures CountsOk(Apply(s, ev))
  {
    var s' := Apply(s, ev);
    hide TreeOk, OneParent, Names, Put, Lookup, InFlight;
    forall m | m in s'.nodes ensures CountOk(s', m) {
      assert CountOk(s, m);
      LinkNameAt(s, ev, m);
    }
  }

  /** Whatever names an empty directory is the one entry in its parent. */
  lemma OnlyHere(s: State, dp: nat, k: nat, c: nat, d: nat, j: nat)
    requires Inv(s) && IsDir(s, dp) && Holds(s, dp, k, c) && IsDir(s, c) && OnlyDots(s.nodes[c].es) && c != 0
    ensures NamedAt(s, c, d, j) ==> d == dp && j == k
  {
    if Linked(s, d) {
      assert DotsOk(s, d) && EntryOk(s, dp, k);
      if d != ROOT {
        assert HasName(s, d);
      }
      if 2 <= j < |s.nodes[d].es| {
        assert EntryOk(s, d, j);
      }
    }
  }

  /** Only the entry that unlink erases names a directory that has nothing in it. */
  lemma OneName(s: State, dp: nat, k: nat, c: nat)
    requires Inv(s) && IsDir(s, dp) && Holds(s, dp, k, c) && IsDir(s, c) && OnlyDots(s.nodes[c].es) && NamedAt(s, c, dp, k) && c != 0
    ensures Names(s, c) == {(dp, k)} && s.nodes[c].nlink == 1
  {
    forall d: nat, j: nat ensures NamedAt(s, c, d, j) ==> d == dp && j == k {
      OnlyHere(s, dp, k, c, d, j);
    }
    assert CountOk(s, c);
    assert InFlight(s, c) == {} by {
      assert forall p :: p in s.flight ==> s.flight[p] != c;
    }
  }

  /** Every linked directory has a name of its own, which is no subdirectory's "..". */
  lemma OwnName(s: State, dp: nat) returns (d: nat, j: nat)
    requires FreeOk(s) && TreeOk(s) && OneParent(s) && Linked(s, dp)
    ensures NamedAt(s, dp, d, j) && (j >= 2 || (d == dp && j == 1))
  {
    assert DotsOk(s, dp);
    if dp == ROOT {
      d, j := ROOT, 1;
    } else {
      assert HasName(s, dp);
      d := s.nodes[dp].es[1].inum;
      j :| Holds(s, d, j, dp);
      assert EntryOk(s, d, j);
    }
  }

  lemma TwoIn(r: set<(nat, nat)>, a: (nat, nat), b: (nat, nat))
    requires a in r && b in r && a != b
    ensures |r| >= 2
  {
    assert |r - {a} - {b}| == |r| - 2;
  }

  /** A directory with a subdirectory is named by its own entry and by the subdirectory's "..". */
  lemma TwoNames(s: State, dp: nat, c: nat)
    requires Inv(s) && Linked(s, dp) && Linked(s, c) && c != dp && |s.nodes[c].es| >= 2 && s.nodes[c].es[1] == Dirent(dp, DotDot)
    ensures s.nodes[dp].nlink >= 2
  {
    var d, j := OwnName(s, dp);
    assert NamedAt(s, dp, c, 1);
    assert CountOk(s, dp);
    hide TreeOk, OneParent, FreeOk, CountsOk;
    NamedIn(s, dp, d, j);
    NamedIn(s, dp, c, 1);
    hide Names;
    TwoIn(Names(s, dp), (d, j), (c, 1));
  }

  lemma NamedIn(s: State, n: nat, d: nat, k: nat)
    requires NamedAt(s, n, d, k)
    ensures (d, k) in Names(s, n)
  {
  }

  /** What unlink finds: the directory is linked, and the entry is beyond the dots. */
  lemma UnlinkFinds(s: State, dp: nat, k: nat, c: nat)
    requires TreeOk(s) && FreeOk(s) && Enabled(s, Unlink(dp, k)) && c == s.nodes[dp].es[k].inum
    ensures Linked(s, dp) && k >= 2 && NamedAt(s, c, dp, k) && Holds(s, dp, k, c) && c != dp && c != ROOT && EntryOk(s, dp, k)
  {
  }

  /** The panic of unlink on a count below 1 is never reached. */
  lemma UnlinkNeverPanics(s: State, dp: nat, k: nat)
    requires Inv(s) && Enabled(s, Unlink(dp, k))
    ensures s.nodes[s.nodes[dp].es[k].inum].nlink >= 1
  {
    var c := s.nodes[dp].es[k].inum;
    UnlinkFinds(s, dp, k, c);
    assert CountOk(s, c);
    hide Inv, TreeOk, OneParent, FreeOk, CountsOk, EntryOk;
    OnlyOne(s, c, dp, k);
  }

  /** And if it is a directory. */
  lemma UnlinkFindsDir(s: State, dp: nat, k: nat, c: nat)
    requires Enabled(s, Unlink(dp, k)) && c == s.nodes[dp].es[k].inum && IsDir(s, c) && Inv(s)
    ensures Linked(s, c) && |s.nodes[c].es| >= 2 && s.nodes[c].es[0] == Dirent(c, Dot) && s.nodes[c].es[1] == Dirent(dp, DotDot)
    ensures s.nodes[c].nlink == 1 && s.nodes[dp].nlink >= 2
  {
    UnlinkFinds(s, dp, k, c);
    hide CountsOk, OneParent, FreeOk, Names;
    OneName(s, dp, k, c);
    assert DotsOk(s, c);
    hide TreeOk;
    TwoNames(s, dp, c);
  }

  /** An entry names one inode. */
  lemma OnlyOne(s: State, m: nat, d: nat, k: nat)
    requires Linked(s, d) && k < |s.nodes[d].es|
    ensures (d, k) in Names(s, m) <==> NamedAt(s, m, d, k)
    ensures |Names(s, m) - {(d, k)}| == |Names(s, m)| - (if NamedAt(s, m, d, k) then 1 else 0)
  {
  }

  lemma ErasedCount(s: State, dp: nat, k: nat, c: int, m: nat)
    requires Linked(s, dp) && c > 0 && k < |s.nodes[dp].es| && m != 0
    ensures |Names(Erased(s, dp, k, c), m)| == |Names(s, m)| - (if NamedAt(s, m, dp, k) then 1 else 0)
  {
    hide Names;
    OnlyOne(s, m, dp, k);
    NamesErased(s, dp, k, c, m);
  }

  lemma UnlinkedCount(s: State, x: nat, m: nat)
    requires Linked(s, x) && OnlyDots(s.nodes[x].es) && |s.nodes[x].es| >= 2 && s.nodes[x].es[0].name == Dot && m != 0
    ensures |Names(Counted(s, x, 0), m)| == |Names(s, m)| - (if NamedAt(s, m, x, 1) then 1 else 0)
  {
    hide Names;
    OnlyOne(s, m, x, 1);
    NamesUnlinked(s, x, m);
  }

  lemma UnlinkFileNames(s: State, dp: nat, k: nat, c: nat, m: nat)
    requires Linked(s, dp) && NamedAt(s, c, dp, k) && c in s.nodes && !IsDir(s, c) && m != 0
    ensures var s1 := Erased(s, dp, k, s.nodes[dp].nlink);
      |Names(Counted(s1, c, s1.nodes[c].nlink - 1), m)| == |Names(s, m)| - (if m == c then 1 else 0)
  {
    var s1 := Erased(s, dp, k, s.nodes[dp].nlink);
    hide Names;
    ErasedCount(s, dp, k, s.nodes[dp].nlink, m);
    NamesCounted(s1, c, s1.nodes[c].nlink - 1, m);
  }

  lemma UnlinkDirNames(s: State, dp: nat, k: nat, c: nat, m: nat)
    requires Linked(s, dp) && NamedAt(s, c, dp, k) && Linked(s, c) && c != dp && m != 0 && s.nodes[dp].nlink >= 2
    requires s.nodes[c].nlink == 1 && OnlyDots(s.nodes[c].es) && |s.nodes[c].es| >= 2
    requires s.nodes[c].es[0].name == Dot && s.nodes[c].es[1] == Dirent(dp, DotDot)
    ensures var s1 := Erased(s, dp, k, s.nodes[dp].nlink - 1);
      |Names(Counted(s1, c, 0), m)| == |Names(s, m)| - (if m == c then 1 else 0) - (if m == dp then 1 else 0)
  {
    var s1 := Erased(s, dp, k, s.nodes[dp].nlink - 1);
    hide Names;
    ErasedCount(s, dp, k, s.nodes[dp].nlink - 1, m);
    UnlinkedCount(s1, c, m);
  }

  lemma UnlinkParts(s: State, dp: nat, k: nat, c: nat)
    requires Enabled(s, Unlink(dp, k)) && c == s.nodes[dp].es[k].inum && Inv(s)
    ensures Linked(s, dp) && NamedAt(s, c, dp, k) && c != dp && c in s.nodes && (IsDir(s, c) ==> OnlyDots(s.nodes[c].es))
  {
    UnlinkFinds(s, dp, k, c);
  }

  lemma UnlinkIs(s: State, dp: nat, k: nat, c: nat)
    requires Enabled(s, Unlink(dp, k)) && c == s.nodes[dp].es[k].inum && c != dp
    ensures Apply(s, Unlink(dp, k)) ==
      Counted(Erased(s, dp, k, if IsDir(s, c) then s.nodes[dp].nlink - 1 else s.nodes[dp].nlink), c, s.nodes[c].nlink - 1)
    ensures Apply(s, Unlink(dp, k)).nodes.Keys == s.nodes.Keys
  {
  }

  lemma UnlinkNamesDir(s: State, dp: nat, k: nat, c: nat, m: nat)
    requires Enabled(s, Unlink(dp, k)) && c == s.nodes[dp].es[k].inum && m != 0 && IsDir(s, c) && Inv(s)
    ensures |Names(Apply(s, Unlink(dp, k)), m)| == |Names(s, m)| - (if m == c then 1 else 0) - (if m == dp then 1 else 0)
  {
    hide Names, Inv, Apply, NamedAt, OnlyDots, Erased, Counted;
    UnlinkParts(s, dp, k, c);
    UnlinkFindsDir(s, dp, k, c);
    UnlinkIs(s, dp, k, c);
    UnlinkDirNames(s, dp, k, c, m);
  }

  lemma UnlinkNamesFile(s: State, dp: nat, k: nat, c: nat, m: nat)
    requires Enabled(s, Unlink(dp, k)) && c == s.nodes[dp].es[k].inum && m != 0 && !IsDir(s, c) && Inv(s)
    ensures |Names(Apply(s, Unlink(dp, k)), m)| == |Names(s, m)| - (if m == c then 1 else 0)
  {
    hide Names, Inv, NamedAt;
    UnlinkParts(s, dp, k, c);
    UnlinkFileNames(s, dp, k, c, m);
  }

  lemma UnlinkNames(s: State, dp: nat, k: nat, c: nat, m: nat)
    requires Enabled(s, Unlink(dp, k)) && c == s.nodes[dp].es[k].inum && m in s.nodes && Inv(s)
    ensures |Names(Apply(s, Unlink(dp, k)), m)| == |Names(s, m)| - (if m == c then 1 else 0) - (if m == dp && IsDir(s, c) then 1 else 0)
  {
    NotZero(s, m);
    hide Names, Inv, Apply;
    if IsDir(s, c) {
      UnlinkNamesDir(s, dp, k, c, m);
    } else {
      UnlinkNamesFile(s, dp, k, c, m);
    }
  }

  lemma NotZero(s: State, m: nat)
    requires Inv(s) && m in s.nodes
    ensures m != 0
  {
  }

  lemma UnlinkCountAt(s: State, dp: nat, k: nat, c: nat, m: nat)
    requires Enabled(s, Unlink(dp, k)) && c == s.nodes[dp].es[k].inum && m in s.nodes && CountOk(s, m) && Inv(s)
    ensures m in Apply(s, Unlink(dp, k)).nodes && CountOk(Apply(s, Unlink(dp, k)), m)
  {
    UnlinkFinds(s, dp, k, c);
    hide Inv, Names, InFlight, EntryOk, Enabled, NamedAt, Holds;
    UnlinkIs(s, dp, k, c);
    UnlinkNames(s, dp, k, c, m);
    hide Apply;
    FlightSame(s, Apply(s, Unlink(dp, k)), m);
  }

  lemma UnlinkCounts(s: State, dp: nat, k: nat)
    requires Inv(s) && Enabled(s, Unlink(dp, k))
    ensures CountsOk(Apply(s, Unlink(dp, k)))
  {
    var c := s.nodes[dp].es[k].inum;
    var s' := Apply(s, Unlink(dp, k));
    forall m | m in s'.nodes ensures CountOk(s', m) {
      UnlinkFinds(s, dp, k, c);
      UnlinkIs(s, dp, k, c);
      assert CountOk(s, m);
      hide Inv, Names, InFlight, EntryOk, Apply;
      UnlinkCountAt(s, dp, k, c, m);
    }
  }

  lemma ReleaseCounts(s: State, n: nat)
    requires Inv(s) && Enabled(s, Release(n))
    ensures CountsOk(Apply(s, Release(n)))
  {
    var s' := Apply(s, Release(n));
    forall m | m in s'.nodes ensures CountOk(s', m) {
      assert CountOk(s, m);
      ReleaseAt(s, n, m);
    }
  }

  lemma ReleaseAt(s: State, n: nat, m: nat)
    requires Enabled(s, Release(n)) && m in s.nodes && CountOk(s, m)
    ensures CountOk(Apply(s, Release(n)), m)
  {
    hide Names, InFlight;
    FlightSame(s, Apply(s, Release(n)), m);
    NamesIdle(s, n, Node(Free, 0, []), m);
  }

  // ---------------------------------------------------------------------------------------------
  // The tree after each step
  // ---------------------------------------------------------------------------------------------

  /** An inode without names is not in any directory, except as "." of itself or in one that is unlinked. */
  lemma Unnamed(s: State, n: nat, d: nat, k: nat)
    requires TreeOk(s) && Names(s, n) == {} && n != 0 && IsDir(s, d) && k < |s.nodes[d].es|
    ensures k >= 2 ==> s.nodes[d].es[k].inum != n
    ensures k == 1 && s.nodes[d].nlink > 0 ==> s.nodes[d].es[k].inum != n
  {
    assert DotsOk(s, d);
    if k >= 2 {
      assert EntryOk(s, d, k);
    }
    if s.nodes[d].nlink > 0 && s.nodes[d].es[k].inum == n && k >= 1 {
      NamedIn(s, n, d, k);
    }
  }

  /** A step that changes no directory and makes or unmakes none. */
  lemma SameTree(s: State, s': State)
    requires TreeOk(s) && OneParent(s) && s'.nodes.Keys == s.nodes.Keys
    requires forall d :: IsDir(s, d) <==> IsDir(s', d)
    requires forall d :: IsDir(s, d) && IsDir(s', d) ==> s'.nodes[d] == s.nodes[d]
    ensures TreeOk(s') && OneParent(s')
  {
    forall d | IsDir(s', d) ensures DotsOk(s', d) {
      assert DotsOk(s, d);
    }
    forall d, k | IsDir(s', d) && 2 <= k < |s'.nodes[d].es| ensures EntryOk(s', d, k) {
      assert EntryOk(s, d, k);
    }
    forall c | Linked(s', c) && c != ROOT ensures HasName(s', c) {
      assert HasName(s, c);
      assert DotsOk(s, c);
      var p := s.nodes[c].es[1].inum;
      var k :| Holds(s, p, k, c);
      assert Holds(s', p, k, c);
    }
  }

  /** A free inode becomes a file, or an unlinked one goes away, or a create fails: no directory names it. */
  lemma OffTree(s: State, n: nat, x: Node)
    requires Inv(s) && n in s.nodes && s.nodes[n].nlink == 0 && (x.kind == Dir ==> x.nlink == 0 && OnlyDots(x.es))
    requires x.kind == Dir ==> forall k :: 0 <= k < |x.es| ==> x.es[k].name == Dot || x.es[k].name == DotDot
    ensures TreeOk(s.(nodes := s.nodes[n := x])) && OneParent(s.(nodes := s.nodes[n := x]))
  {
    NotNamed(s, n);
    NotZero(s, n);
    hide CountsOk, Names;
    OffTreeDots(s, n, x);
    OffTreeEntries(s, n, x);
    OffTreeParents(s, n, x);
  }

  lemma OffTreeDots(s: State, n: nat, x: Node)
    requires TreeOk(s) && n in s.nodes && s.nodes[n].nlink == 0
    requires (x.kind == Dir ==> x.nlink == 0 && OnlyDots(x.es)) && Names(s, n) == {} && n != 0
    requires x.kind == Dir ==> forall k :: 0 <= k < |x.es| ==> x.es[k].name == Dot || x.es[k].name == DotDot
    ensures AllDots(s.(nodes := s.nodes[n := x]))
  {
    var s' := s.(nodes := s.nodes[n := x]);
    hide Names;
    forall d | IsDir(s', d) ensures DotsOk(s', d) {
      if d != n {
        assert DotsOk(s, d);
        if s.nodes[d].nlink > 0 {
          Unnamed(s, n, d, 1);
        }
      }
    }
  }

  lemma OffTreeEntries(s: State, n: nat, x: Node)
    requires TreeOk(s) && n in s.nodes && (x.kind == Dir ==> OnlyDots(x.es)) && Names(s, n) == {} && n != 0
    ensures AllEntries(s.(nodes := s.nodes[n := x]))
  {
    var s' := s.(nodes := s.nodes[n := x]);
    hide Names;
    forall d, k | IsDir(s', d) && 2 <= k < |s'.nodes[d].es| ensures EntryOk(s', d, k) {
      if d != n {
        assert EntryOk(s, d, k);
        Unnamed(s, n, d, k);
      }
    }
  }

  lemma OffTreeParents(s: State, n: nat, x: Node)
    requires Inv(s) && n in s.nodes && s.nodes[n].nlink == 0
    requires (x.kind == Dir ==> x.nlink == 0 && OnlyDots(x.es)) && Names(s, n) == {} && n != 0
    ensures OneParent(s.(nodes := s.nodes[n := x]))
  {
    var s' := s.(nodes := s.nodes[n := x]);
    hide Names, CountsOk;
    forall c | Linked(s', c) && c != ROOT ensures HasName(s', c) {
      assert HasName(s, c) && DotsOk(s, c);
      var p := s.nodes[c].es[1].inum;
      var k :| Holds(s, p, k, c);
      assert Holds(s', p, k, c);
    }
    forall d, k, j | IsDir(s', d) && 2 <= k < |s'.nodes[d].es| && 2 <= j < |s'.nodes[d].es| && IsDir(s', s'.nodes[d].es[k].inum)
        && s'.nodes[d].es[k].inum == s'.nodes[d].es[j].inum ensures k == j {
      if d != n {
        Unnamed(s, n, d, k);
      }
    }
  }

  /** How the entries of dp change when one is put in at k, beyond the dots. */
  ghost predicate PutIn(s: State, s': State, dp: nat, k: nat, e: Dirent) {
    && dp in s.nodes && dp in s'.nodes && s'.nodes[dp].kind == s.nodes[dp].kind && (s'.nodes[dp].nlink > 0 <==> s.nodes[dp].nlink > 0)
    && 2 <= k < |s'.nodes[dp].es| && |s'.nodes[dp].es| >= |s.nodes[dp].es| >= 2 && s'.nodes[dp].es[k] == e
    && (k < |s.nodes[dp].es| ==> s.nodes[dp].es[k].inum == 0)
    && forall j :: 0 <= j < |s'.nodes[dp].es| && j != k ==> j < |s.nodes[dp].es| && s'.nodes[dp].es[j] == s.nodes[dp].es[j]
  }

  /** A file gets a name. */
  lemma FileEntered(s: State, s': State, dp: nat, k: nat, e: Dirent)
    requires TreeOk(s) && OneParent(s) && Linked(s, dp) && PutIn(s, s', dp, k, e) && s'.nodes.Keys == s.nodes.Keys && 0 !in s.nodes
    requires forall d :: d in s.nodes && d != dp ==> s'.nodes[d] == s.nodes[d]
    requires e.inum in s.nodes && !IsDir(s, e.inum) && e.inum != ROOT && e.name != Dot && e.name != DotDot
    ensures TreeOk(s') && OneParent(s')
  {
    FileEnteredParents(s, s', dp, k, e);
    FileEnteredEntries(s, s', dp, k, e);
    hide AllEntries, OneParent;
    assert forall d :: (IsDir(s', d) <==> IsDir(s, d)) && (Linked(s', d) <==> Linked(s, d));
    forall d | IsDir(s', d) ensures DotsOk(s', d) {
      assert DotsOk(s, d);
    }
  }

  lemma FileEnteredEntries(s: State, s': State, dp: nat, k: nat, e: Dirent)
    requires AllEntries(s) && Linked(s, dp) && PutIn(s, s', dp, k, e) && s'.nodes.Keys == s.nodes.Keys
    requires forall d :: d in s.nodes && d != dp ==> s'.nodes[d] == s.nodes[d]
    requires e.inum in s.nodes && !IsDir(s, e.inum) && e.inum != ROOT && e.name != Dot && e.name != DotDot
    ensures AllEntries(s')
  {
    forall d, j | IsDir(s', d) && 2 <= j < |s'.nodes[d].es| ensures EntryOk(s', d, j) {
      if !(d == dp && j == k) {
        var same := s'.nodes[d].es[j];
        assert EntryOk(s, d, j);
      }
    }
  }

  lemma FileEnteredParents(s: State, s': State, dp: nat, k: nat, e: Dirent)
    requires TreeOk(s) && OneParent(s) && Linked(s, dp) && PutIn(s, s', dp, k, e) && s'.nodes.Keys == s.nodes.Keys
    requires forall d :: d in s.nodes && d != dp ==> s'.nodes[d] == s.nodes[d]
    requires !IsDir(s, e.inum) && 0 !in s.nodes
    ensures OneParent(s')
  {
    assert forall d :: (IsDir(s', d) <==> IsDir(s, d)) && (Linked(s', d) <==> Linked(s, d));
    forall c | Linked(s', c) && c != ROOT ensures HasName(s', c) {
      NameKept(s, s', c, dp, k);
    }
  }

  /** A directory whose name is not the entry that changes keeps its name. */
  lemma NameKept(s: State, s': State, c: nat, dp: nat, k: nat)
    requires TreeOk(s) && OneParent(s) && Linked(s, c) && c != ROOT && c in s'.nodes
    requires |s'.nodes[c].es| >= 2 && s'.nodes[c].es[1] == s.nodes[c].es[1]
    requires s'.nodes.Keys >= s.nodes.Keys && dp in s.nodes && (k < |s.nodes[dp].es| ==> s.nodes[dp].es[k].inum != c)
    requires forall d, j :: d in s.nodes && 0 <= j < |s.nodes[d].es| && !(d == dp && j == k) ==>
      j < |s'.nodes[d].es| && s'.nodes[d].es[j] == s.nodes[d].es[j]
    ensures HasName(s', c)
  {
    assert DotsOk(s, c) && HasName(s, c);
    var p := s.nodes[c].es[1].inum;
    var j :| Holds(s, p, j, c);
    assert Holds(s', p, j, c);
  }

  /** A new directory n, entered in dp at k, with its ".." leading back. */
  ghost predicate NewDir(s: State, s': State, dp: nat, k: nat, n: nat, name: Name) {
    && Linked(s, dp) && n in s.nodes && !IsDir(s, n) && n != dp && n != 0 && n != ROOT && Names(s, n) == {} && 0 !in s.nodes
    && PutIn(s, s', dp, k, Dirent(n, name)) && name != Dot && name != DotDot
    && s'.nodes.Keys == s.nodes.Keys && s'.nodes[n] == Fresh(n, dp, Dir)
    && forall d :: d in s.nodes && d != dp && d != n ==> s'.nodes[d] == s.nodes[d]
  }

  lemma NewDirDots(s: State, s': State, dp: nat, k: nat, n: nat, name: Name)
    requires TreeOk(s) && NewDir(s, s', dp, k, n, name)
    ensures AllDots(s')
  {
    hide Names;
    forall d | IsDir(s', d) ensures DotsOk(s', d) {
      if d != n {
        assert DotsOk(s, d);
        if s.nodes[d].nlink > 0 {
          Unnamed(s, n, d, 1);
        }
      }
    }
  }

  lemma NewDirEntries(s: State, s': State, dp: nat, k: nat, n: nat, name: Name)
    requires TreeOk(s) && NewDir(s, s', dp, k, n, name)
    ensures AllEntries(s')
  {
    hide Names;
    forall d, j | IsDir(s', d) && 2 <= j < |s'.nodes[d].es| ensures EntryOk(s', d, j) {
      if d != n && !(d == dp && j == k) {
        var same := s'.nodes[d].es[j];
        assert EntryOk(s, d, j);
        Unnamed(s, n, d, j);
      }
    }
  }

  lemma NewDirParents(s: State, s': State, dp: nat, k: nat, n: nat, name: Name)
    requires TreeOk(s) && OneParent(s) && NewDir(s, s', dp, k, n, name)
    ensures OneParent(s')
  {
    hide Names;
    forall c | Linked(s', c) && c != ROOT ensures HasName(s', c) {
      if c == n {
        assert Holds(s', dp, k, n);
      } else {
        assert DotsOk(s, c);
        NameKeptBut(s, s', c, dp, k, n);
      }
    }
    forall d, i, j | IsDir(s', d) && 2 <= i < |s'.nodes[d].es| && 2 <= j < |s'.nodes[d].es| && IsDir(s', s'.nodes[d].es[i].inum)
        && s'.nodes[d].es[i].inum == s'.nodes[d].es[j].inum ensures i == j {
      NewDirUnique(s, s', dp, k, n, name, d, i, j);
    }
  }

  lemma NameKeptBut(s: State, s': State, c: nat, dp: nat, k: nat, n: nat)
    requires TreeOk(s) && OneParent(s) && Linked(s, c) && c != ROOT && c in s'.nodes
    requires |s'.nodes[c].es| >= 2 && s'.nodes[c].es[1] == s.nodes[c].es[1]
    requires s'.nodes.Keys >= s.nodes.Keys && dp in s.nodes && (k < |s.nodes[dp].es| ==> s.nodes[dp].es[k].inum != c) && !IsDir(s, n)
    requires forall d, j :: d in s.nodes && d != n && 0 <= j < |s.nodes[d].es| && !(d == dp && j == k) ==>
      j < |s'.nodes[d].es| && s'.nodes[d].es[j] == s.nodes[d].es[j]
    ensures HasName(s', c)
  {
    assert DotsOk(s, c) && HasName(s, c);
    var p := s.nodes[c].es[1].inum;
    var j :| Holds(s, p, j, c);
    assert Holds(s', p, j, c);
  }

  lemma NewDirUnique(s: State, s': State, dp: nat, k: nat, n: nat, name: Name, d: nat, i: nat, j: nat)
    requires TreeOk(s) && OneParent(s) && NewDir(s, s', dp, k, n, name)
    requires IsDir(s', d) && 2 <= i < |s'.nodes[d].es| && 2 <= j < |s'.nodes[d].es| && IsDir(s', s'.nodes[d].es[i].inum)
    requires s'.nodes[d].es[i].inum == s'.nodes[d].es[j].inum
    ensures i == j
  {
    hide Names;
    assert d != n;
    if !(d == dp && i == k) {
      Unnamed(s, n, d, i);
    }
    if !(d == dp && j == k) {
      Unnamed(s, n, d, j);
    }
  }

  /** An entry is erased. */
  lemma ErasedTree(s: State, s': State, dp: nat, k: nat, c: nat)
    requires Inv(s) && Linked(s, dp) && Holds(s, dp, k, c) && s'.nodes.Keys == s.nodes.Keys && c in s.nodes && c != dp && c != ROOT
    requires s'.nodes[dp] == Node(Dir, s'.nodes[dp].nlink, s.nodes[dp].es[k := NONE]) && s'.nodes[dp].nlink > 0
    requires s'.nodes[c] == s.nodes[c].(nlink := s'.nodes[c].nlink)
    requires forall d :: d in s.nodes && d != dp && d != c ==> s'.nodes[d] == s.nodes[d]
    requires IsDir(s, c) ==> s'.nodes[c].nlink == 0 && OnlyDots(s.nodes[c].es) && s.nodes[c].nlink > 0
    ensures TreeOk(s') && OneParent(s')
  {
    ErasedDots(s, s', dp, k, c);
    ErasedEntries(s, s', dp, k, c);
    ErasedParents(s, s', dp, k, c);
  }

  lemma ErasedDots(s: State, s': State, dp: nat, k: nat, c: nat)
    requires Inv(s) && Linked(s, dp) && Holds(s, dp, k, c) && s'.nodes.Keys == s.nodes.Keys
    requires c in s.nodes && c != dp && c != ROOT && c != 0
    requires s'.nodes[dp] == Node(Dir, s'.nodes[dp].nlink, s.nodes[dp].es[k := NONE]) && s'.nodes[dp].nlink > 0
    requires s'.nodes[c] == s.nodes[c].(nlink := s'.nodes[c].nlink)
    requires forall d :: d in s.nodes && d != dp && d != c ==> s'.nodes[d] == s.nodes[d]
    requires IsDir(s, c) ==> s'.nodes[c].nlink == 0 && OnlyDots(s.nodes[c].es) && s.nodes[c].nlink > 0
    ensures AllDots(s')
  {
    hide CountsOk, AllEntries;
    forall d | IsDir(s', d) ensures DotsOk(s', d) {
      assert DotsOk(s, d);
      if IsDir(s, c) && s.nodes[d].nlink > 0 {
        OnlyHere(s, dp, k, c, d, 1);
      }
    }
  }

  lemma ErasedEntries(s: State, s': State, dp: nat, k: nat, c: nat)
    requires AllEntries(s) && IsDir(s, dp) && 2 <= k < |s.nodes[dp].es| && s'.nodes.Keys == s.nodes.Keys && c in s.nodes && c != dp
    requires s'.nodes[dp] == Node(Dir, s'.nodes[dp].nlink, s.nodes[dp].es[k := NONE])
    requires s'.nodes[c] == s.nodes[c].(nlink := s'.nodes[c].nlink)
    requires forall d :: d in s.nodes && d != dp && d != c ==> s'.nodes[d] == s.nodes[d]
    ensures AllEntries(s')
  {
    forall d, j | IsDir(s', d) && 2 <= j < |s'.nodes[d].es| ensures EntryOk(s', d, j) {
      assert EntryOk(s, d, j);
    }
  }

  lemma ErasedParents(s: State, s': State, dp: nat, k: nat, c: nat)
    requires TreeOk(s) && OneParent(s) && Linked(s, dp) && Holds(s, dp, k, c)
    requires s'.nodes.Keys == s.nodes.Keys && c in s.nodes && c != dp && 0 !in s.nodes
    requires s'.nodes[dp] == Node(Dir, s'.nodes[dp].nlink, s.nodes[dp].es[k := NONE])
    requires s'.nodes[c] == s.nodes[c].(nlink := s'.nodes[c].nlink)
    requires forall d :: d in s.nodes && d != dp && d != c ==> s'.nodes[d] == s.nodes[d]
    requires IsDir(s, c) ==> s'.nodes[c].nlink == 0
    ensures OneParent(s')
  {
    hide AllEntries;
    forall x | Linked(s', x) && x != ROOT ensures HasName(s', x) {
      assert DotsOk(s, x);
      NameKept(s, s', x, dp, k);
    }
  }

  // ---------------------------------------------------------------------------------------------
  // Every step
  // ---------------------------------------------------------------------------------------------

  /** What create leaves when it succeeds: the new inode, its entry in dp, and the count of dp. */
  lemma CreateIs(s: State, ev: Event)
    requires ev.Create? && ev.ok && Enabled(s, ev) && Sound(s, ev) && |s.nodes[ev.dp].es| >= 2 && Empty(s.nodes[ev.dp].es, 0) >= 2
    ensures var s' := Apply(s, ev);
      && s'.flight == s.flight && s'.nodes.Keys == s.nodes.Keys && s'.nodes[ev.n] == Fresh(ev.n, ev.dp, ev.kind)
      && (forall d :: d in s.nodes && d != ev.dp && d != ev.n ==> s'.nodes[d] == s.nodes[d])
      && PutIn(s, s', ev.dp, Empty(s.nodes[ev.dp].es, 0), Dirent(ev.n, ev.name)) && s'.nodes[ev.dp].nlink > 0
  {
    PutWhat(s.nodes[ev.dp].es, Dirent(ev.n, ev.name));
    hide Put, Empty, Lookup;
  }

  lemma CreateTree(s: State, ev: Event)
    requires Inv(s) && ev.Create? && Enabled(s, ev) && Sound(s, ev)
    ensures TreeOk(Apply(s, ev)) && OneParent(Apply(s, ev)) && FreeOk(Apply(s, ev))
  {
    hide TreeOk, OneParent, CountsOk, FreeOk;
    if !ev.ok {
      CreateFails(s, ev);
    } else if ev.kind == Dir {
      CreateDirTree(s, ev);
    } else {
      CreateFileTree(s, ev);
    }
  }

  /** Whatever is put in place of an inode that is not linked and that no link call holds. */
  lemma FreeKept(s: State, n: nat, x: Node)
    requires FreeOk(s) && n in s.nodes && s.nodes[n].nlink == 0 && (x.kind == Free ==> x.nlink == 0)
    requires forall p :: p in s.flight ==> s.flight[p] != n
    ensures FreeOk(s.(nodes := s.nodes[n := x]))
  {
  }

  lemma CreateFailsIs(s: State, ev: Event)
    requires ev.Create? && !ev.ok && Enabled(s, ev)
    ensures Apply(s, ev) == s.(nodes := s.nodes[ev.n := Node(ev.kind, 0, Fresh(ev.n, ev.dp, ev.kind).es[..ev.dots])])
  {
  }

  lemma CreateFails(s: State, ev: Event)
    requires ev.Create? && !ev.ok && Enabled(s, ev) && Inv(s)
    ensures TreeOk(Apply(s, ev)) && OneParent(Apply(s, ev)) && FreeOk(Apply(s, ev))
  {
    hide TreeOk, OneParent, CountsOk, FreeOk, Lookup, Inv, IsDir;
    var x := Node(ev.kind, 0, Fresh(ev.n, ev.dp, ev.kind).es[..ev.dots]);
    FreeUnflown(s, ev.n);
    CreateFailsIs(s, ev);
    hide Apply;
    OffTree(s, ev.n, x);
    InvFree(s);
    FreeKept(s, ev.n, x);
  }

  lemma InvFree(s: State)
    requires Inv(s)
    ensures FreeOk(s) && TreeOk(s) && OneParent(s)
  {
  }

  lemma FreeUnflown(s: State, n: nat)
    requires n in s.nodes && s.nodes[n].kind == Free && Inv(s)
    ensures n != ROOT && n != 0 && s.nodes[n].nlink == 0 && 0 !in s.nodes && forall p :: p in s.flight ==> s.flight[p] != n
  {
  }

  lemma CreateDirTree(s: State, ev: Event)
    requires ev.Create? && ev.ok && ev.kind == Dir && Enabled(s, ev) && Sound(s, ev) && Inv(s)
    ensures TreeOk(Apply(s, ev)) && OneParent(Apply(s, ev)) && FreeOk(Apply(s, ev))
  {
    hide Names, CountsOk, TreeOk, OneParent, FreeOk, Put, Empty, Lookup, DotsOk, Inv;
    var n, dp, k := ev.n, ev.dp, Empty(s.nodes[ev.dp].es, 0);
    var s' := Apply(s, ev);
    NewName(s, ev);
    LinkedLong(s, dp);
    FreeUnflown(s, n);
    FreeUnnamed(s, n);
    InvFree(s);
    CreateIs(s, ev);
    hide Apply, Enabled, Fresh, PutIn;
    NewDirRest(s, s', dp, k, n, ev.name);
  }

  lemma LinkedLong(s: State, d: nat)
    requires Inv(s) && Linked(s, d)
    ensures |s.nodes[d].es| >= 2
  {
    assert DotsOk(s, d);
  }

  lemma FreeUnnamed(s: State, n: nat)
    requires Inv(s) && n in s.nodes && s.nodes[n].kind == Free
    ensures Names(s, n) == {} && InFlight(s, n) == {}
  {
  }

  lemma NewDirRest(s: State, s': State, dp: nat, k: nat, n: nat, name: Name)
    requires FreeOk(s) && TreeOk(s) && OneParent(s) && NewDir(s, s', dp, k, n, name) && s'.flight == s.flight && s.nodes[n].kind == Free
    ensures TreeOk(s') && OneParent(s') && FreeOk(s')
  {
    NewDirDots(s, s', dp, k, n, name);
    NewDirEntries(s, s', dp, k, n, name);
    NewDirParents(s, s', dp, k, n, name);
    hide TreeOk, OneParent, AllDots, AllEntries, Names;
  }

  lemma CreateFileTree(s: State, ev: Event)
    requires ev.Create? && ev.ok && ev.kind == File && Enabled(s, ev) && Sound(s, ev) && Inv(s)
    ensures TreeOk(Apply(s, ev)) && OneParent(Apply(s, ev)) && FreeOk(Apply(s, ev))
  {
    hide Names, CountsOk, TreeOk, OneParent, FreeOk, Put, Empty, Lookup, DotsOk, Inv;
    var n, dp, k := ev.n, ev.dp, Empty(s.nodes[ev.dp].es, 0);
    var s' := Apply(s, ev);
    NewName(s, ev);
    LinkedLong(s, dp);
    FreeUnflown(s, n);
    InvFree(s);
    OffTree(s, n, Fresh(n, dp, File));
    CreateIs(s, ev);
    hide Apply, Enabled, PutIn;
    NewFileRest(s, s', dp, k, n, ev.name);
  }

  lemma NewFileRest(s: State, s': State, dp: nat, k: nat, n: nat, name: Name)
    requires FreeOk(s) && Linked(s, dp) && n in s.nodes && s.nodes[n].kind == Free && n != dp && n != ROOT && name != Dot && name != DotDot
    requires var s1 := s.(nodes := s.nodes[n := Fresh(n, dp, File)]); TreeOk(s1) && OneParent(s1)
    requires s'.flight == s.flight && s'.nodes.Keys == s.nodes.Keys && s'.nodes[n] == Fresh(n, dp, File)
    requires (forall d :: d in s.nodes && d != dp && d != n ==> s'.nodes[d] == s.nodes[d])
    requires PutIn(s, s', dp, k, Dirent(n, name)) && s'.nodes[dp].nlink > 0
    ensures TreeOk(s') && OneParent(s') && FreeOk(s')
  {
    hide TreeOk, OneParent;
    var s1 := s.(nodes := s.nodes[n := Fresh(n, dp, File)]);
    PutInSame(s, s1, s', dp, k, Dirent(n, name));
    FileEntered(s1, s', dp, k, Dirent(n, name));
  }

  lemma PutInSame(s: State, s1: State, s': State, dp: nat, k: nat, e: Dirent)
    requires PutIn(s, s', dp, k, e) && dp in s1.nodes && s1.nodes[dp] == s.nodes[dp]
    ensures PutIn(s1, s', dp, k, e)
  {
  }

  lemma LinkTree(s: State, ev: Event)
    requires (ev.LinkUp? || ev.LinkName?) && Enabled(s, ev) && Sound(s, ev) && Inv(s)
    ensures TreeOk(Apply(s, ev)) && OneParent(Apply(s, ev)) && FreeOk(Apply(s, ev))
  {
    hide TreeOk, OneParent, FreeOk, CountsOk, Inv, Apply;
    if ev.LinkName? && ev.ok {
      LinkNameTree(s, ev);
    } else {
      CountTree(s, ev);
    }
  }

  /** Only the count of a file changes. */
  lemma CountIs(s: State, ev: Event)
    requires (ev.LinkUp? || (ev.LinkName? && !ev.ok)) && Enabled(s, ev) && FreeOk(s)
    ensures var n, s' := if ev.LinkUp? then ev.n else s.flight[ev.p], Apply(s, ev);
      && n in s.nodes && s.nodes[n].kind == File && s'.nodes.Keys == s.nodes.Keys && s'.nodes[n].kind == File && n != ROOT
      && (forall d :: d in s.nodes && d != n ==> s'.nodes[d] == s.nodes[d])
      && (forall p :: p in s'.flight ==> (p in s.flight && s'.flight[p] == s.flight[p]) || s'.flight[p] == n)
  {
  }

  lemma CountTree(s: State, ev: Event)
    requires (ev.LinkUp? || (ev.LinkName? && !ev.ok)) && Enabled(s, ev) && Inv(s)
    ensures TreeOk(Apply(s, ev)) && OneParent(Apply(s, ev)) && FreeOk(Apply(s, ev))
  {
    hide TreeOk, OneParent, FreeOk, CountsOk, Lookup, Inv;
    InvFree(s);
    CountIs(s, ev);
    var n := if ev.LinkUp? then ev.n else s.flight[ev.p];
    var s' := Apply(s, ev);
    hide Apply, Enabled;
    FileCounted(s, s', n);
  }

  lemma FileCounted(s: State, s': State, n: nat)
    requires FreeOk(s) && TreeOk(s) && OneParent(s) && n in s.nodes && s.nodes[n].kind == File && s'.nodes.Keys == s.nodes.Keys
    requires s'.nodes[n].kind == File && (forall d :: d in s.nodes && d != n ==> s'.nodes[d] == s.nodes[d])
    requires forall p :: p in s'.flight ==> (p in s.flight && s'.flight[p] == s.flight[p]) || s'.flight[p] == n
    ensures TreeOk(s') && OneParent(s') && FreeOk(s')
  {
    hide TreeOk, OneParent;
    SameTree(s, s');
  }

  lemma LinkNameIs(s: State, ev: Event)
    requires ev.LinkName? && ev.ok && Enabled(s, ev) && Sound(s, ev) && |s.nodes[ev.dp].es| >= 2 && Empty(s.nodes[ev.dp].es, 0) >= 2
    ensures var s' := Apply(s, ev);
      && s'.flight == s.flight - {ev.p} && s'.nodes.Keys == s.nodes.Keys && (forall d :: d in s.nodes && d != ev.dp ==>
        s'.nodes[d] == s.nodes[d])
      && PutIn(s, s', ev.dp, Empty(s.nodes[ev.dp].es, 0), Dirent(s.flight[ev.p], ev.name))
  {
    PutWhat(s.nodes[ev.dp].es, Dirent(s.flight[ev.p], ev.name));
    hide Put, Empty, Lookup;
  }

  lemma LinkNameTree(s: State, ev: Event)
    requires ev.LinkName? && ev.ok && Enabled(s, ev) && Sound(s, ev) && Inv(s)
    ensures TreeOk(Apply(s, ev)) && OneParent(Apply(s, ev)) && FreeOk(Apply(s, ev))
  {
    var dp, k, e := ev.dp, Empty(s.nodes[ev.dp].es, 0), Dirent(s.flight[ev.p], ev.name);
    assert DotsOk(s, dp);
    NewName(s, ev);
    assert !IsDir(s, e.inum) && e.inum != ROOT;
    hide Names, CountsOk, TreeOk, OneParent, Put, Empty, Lookup, DotsOk, PutIn;
    LinkNameIs(s, ev);
    var s' := Apply(s, ev);
    hide Apply;
    FileEntered(s, s', dp, k, e);
    LinkNameFree(s, s', dp, k, e);
  }

  lemma LinkNameFree(s: State, s': State, dp: nat, k: nat, e: Dirent)
    requires FreeOk(s) && s'.nodes.Keys == s.nodes.Keys && (forall d :: d in s.nodes && d != dp ==> s'.nodes[d] == s.nodes[d])
    requires Linked(s, dp) && PutIn(s, s', dp, k, e) && (forall p :: p in s'.flight ==> p in s.flight && s'.flight[p] == s.flight[p])
    ensures FreeOk(s')
  {
  }

  lemma UnlinkTree(s: State, dp: nat, k: nat)
    requires Enabled(s, Unlink(dp, k)) && Inv(s)
    ensures var s' := Apply(s, Unlink(dp, k)); TreeOk(s') && OneParent(s') && FreeOk(s')
  {
    var c, s' := s.nodes[dp].es[k].inum, Apply(s, Unlink(dp, k));
    UnlinkNeverPanics(s, dp, k);
    UnlinkParts(s, dp, k, c);
    UnlinkFinds(s, dp, k, c);
    hide Names, CountsOk, TreeOk, OneParent, EntryOk, FreeOk, Inv;
    UnlinkIs(s, dp, k, c);
    hide Apply;
    if IsDir(s, c) {
      UnlinkFindsDir(s, dp, k, c);
    }
    UnlinkRest(s, s', dp, k, c);
  }

  lemma UnlinkNodes(s: State, s': State, dp: nat, k: nat, c: nat, m: int)
    requires Linked(s, dp) && Holds(s, dp, k, c) && c in s.nodes && c != dp && s' == Counted(Erased(s, dp, k, m), c, s.nodes[c].nlink - 1)
    ensures s'.flight == s.flight && s'.nodes.Keys == s.nodes.Keys && s'.nodes[dp] == Node(Dir, m, s.nodes[dp].es[k := NONE])
    ensures s'.nodes[c] == s.nodes[c].(nlink := s.nodes[c].nlink - 1)
    ensures forall d :: d in s.nodes && d != dp && d != c ==> s'.nodes[d] == s.nodes[d]
  {
  }

  lemma UnlinkRest(s: State, s': State, dp: nat, k: nat, c: nat)
    requires Linked(s, dp) && Holds(s, dp, k, c) && c in s.nodes && c != dp && c != ROOT && s.nodes[c].nlink >= 1
    requires s' == Counted(Erased(s, dp, k, if IsDir(s, c) then s.nodes[dp].nlink - 1 else s.nodes[dp].nlink), c, s.nodes[c].nlink - 1)
    requires IsDir(s, c) ==> OnlyDots(s.nodes[c].es) && s.nodes[c].nlink == 1 && s.nodes[dp].nlink >= 2
    requires Inv(s)
    ensures TreeOk(s') && OneParent(s') && FreeOk(s')
  {
    hide TreeOk, OneParent, FreeOk, CountsOk, Inv, OnlyDots, Counted, Erased, Holds;
    InvFree(s);
    UnlinkNodes(s, s', dp, k, c, if IsDir(s, c) then s.nodes[dp].nlink - 1 else s.nodes[dp].nlink);
    UnlinkFree(s, s', dp, k, c);
    ErasedTree(s, s', dp, k, c);
  }

  lemma UnlinkFree(s: State, s': State, dp: nat, k: nat, c: nat)
    requires FreeOk(s) && Linked(s, dp) && Holds(s, dp, k, c) && s'.nodes.Keys == s.nodes.Keys && c in s.nodes && c != dp && c != ROOT
    requires s'.nodes[dp] == Node(Dir, s'.nodes[dp].nlink, s.nodes[dp].es[k := NONE]) && s'.nodes[dp].nlink > 0 && s.nodes[c].nlink >= 1
    requires s'.nodes[c] == s.nodes[c].(nlink := s'.nodes[c].nlink)
    requires forall d :: d in s.nodes && d != dp && d != c ==> s'.nodes[d] == s.nodes[d]
    requires s'.flight == s.flight
    ensures FreeOk(s')
  {
  }

  lemma ReleaseTree(s: State, n: nat)
    requires Enabled(s, Release(n)) && Inv(s)
    ensures var s' := Apply(s, Release(n)); TreeOk(s') && OneParent(s') && FreeOk(s')
  {
    hide Names, CountsOk, TreeOk, OneParent, FreeOk, InFlight, Inv;
    InvFree(s);
    InvNotNamed(s, n);
    OffTree(s, n, Node(Free, 0, []));
    FreeKept(s, n, Node(Free, 0, []));
  }

  lemma InvNotNamed(s: State, n: nat)
    requires Inv(s) && n in s.nodes && s.nodes[n].nlink == 0
    ensures forall p :: p in s.flight ==> s.flight[p] != n
  {
    NotNamed(s, n);
    Unflown(s, n);
  }

  lemma Unflown(s: State, n: nat)
    requires InFlight(s, n) == {}
    ensures forall p :: p in s.flight ==> s.flight[p] != n
  {
    assert forall p :: p in s.flight && s.flight[p] == n ==> p in InFlight(s, n);
  }

  /** Every step that puts no name into an unlinked directory and overflows no count keeps all of it. */
  lemma StepKeepsInv(s: State, ev: Event)
    requires Inv(s) && Enabled(s, ev) && Sound(s, ev)
    ensures Inv(Apply(s, ev))
  {
    hide CountsOk, TreeOk, OneParent, FreeOk;
    match ev
    case Create(_, _, _, _, _, _) => CreateCounts(s, ev); CreateTree(s, ev);
    case LinkUp(_, _) => LinkUpCounts(s, ev); LinkTree(s, ev);
    case LinkName(_, _, _, _) => LinkNameCounts(s, ev); LinkTree(s, ev);
    case Unlink(dp, k) => UnlinkCounts(s, dp, k); UnlinkTree(s, dp, k);
    case Release(n) => ReleaseCounts(s, n); ReleaseTree(s, n);
  }

  // ---------------------------------------------------------------------------------------------
  // Exactly when
  // ---------------------------------------------------------------------------------------------

  /** No count is negative while the counts are right. */
  lemma CountsNotNegative(s: State, n: nat)
    requires n in s.nodes && s.nodes[n].nlink < 0
    ensures !CountsOk(s)
  {
  }

  /** A name entered in an unlinked directory counts for nothing. */
  lemma NamesHidden(s: State, dp: nat, e: Dirent, m: nat)
    requires dp in s.nodes && !Linked(s, dp)
    ensures Names(Entered(s, dp, e), m) == Names(s, m)
  {
  }

  /** A file created in an unlinked directory has a count and no name. */
  lemma CreateFileUnsound(s: State, ev: Event)
    requires ev.Create? && ev.ok && ev.kind == File && Enabled(s, ev) && !Linked(s, ev.dp) && Inv(s)
    ensures !CountsOk(Apply(s, ev))
  {
    hide Names, InFlight, Inv, Put, Lookup;
    var n, s', s1 := ev.n, Apply(s, ev), s.(nodes := s.nodes[ev.n := Fresh(ev.n, ev.dp, File)]);
    FreeUnnamed(s, n);
    NamesIdle(s, n, Fresh(n, ev.dp, File), n);
    NamesHidden(s1, ev.dp, Dirent(n, ev.name), n);
    FlightSame(s, s', n);
    assert !CountOk(s', n);
  }

  lemma UnlinkedZero(s: State, d: nat)
    requires Inv(s) && IsDir(s, d) && !Linked(s, d)
    ensures d != ROOT && d != 0 && s.nodes[d].nlink == 0 && Names(s, d) == {}
  {
  }

  /** A directory created in an unlinked one links that one again, without a name. */
  lemma CreateDirUnsound(s: State, ev: Event)
    requires ev.Create? && ev.ok && ev.kind == Dir && Enabled(s, ev) && !Linked(s, ev.dp) && Inv(s)
    ensures !Inv(Apply(s, ev))
  {
    hide Inv, Names, Put, Lookup, InFlight, Apply, TreeOk, OneParent, FreeOk;
    var n, dp, s' := ev.n, ev.dp, Apply(s, ev);
    UnlinkedZero(s, dp);
    InvFree(s);
    if Inv(s') {
      InvFree(s');
      var k := UnlinkedIs(s, ev);
      UnlinkedEntry(s, s', dp, n, k);
    }
  }

  ghost predicate SameBut(es: seq<Dirent>, es': seq<Dirent>, k: nat) {
    forall j :: 0 <= j < |es'| && j != k ==> j < |es| && es'[j] == es[j]
  }

  lemma UnlinkedIs(s: State, ev: Event) returns (k: nat)
    requires ev.Create? && ev.ok && ev.kind == Dir && Enabled(s, ev) && s.nodes[ev.dp].nlink == 0
    ensures var s' := Apply(s, ev);
      && s'.nodes.Keys == s.nodes.Keys && s'.nodes[ev.n] == Fresh(ev.n, ev.dp, Dir)
      && (forall d :: d in s.nodes && d != ev.dp && d != ev.n ==> s'.nodes[d] == s.nodes[d])
      && Linked(s', ev.dp) && k < |s'.nodes[ev.dp].es| && s'.nodes[ev.dp].es[k].inum == ev.n
      && SameBut(s.nodes[ev.dp].es, s'.nodes[ev.dp].es, k)
  {
    k := Empty(s.nodes[ev.dp].es, 0);
    PutWhat(s.nodes[ev.dp].es, Dirent(ev.n, ev.name));
    hide Lookup;
  }

  lemma UnlinkedEntry(s: State, s': State, dp: nat, n: nat, k: nat)
    requires TreeOk(s) && IsDir(s, dp) && Names(s, dp) == {} && dp != 0 && dp != ROOT && n in s.nodes && n != dp
    requires s'.nodes.Keys == s.nodes.Keys && s'.nodes[n] == Fresh(n, dp, Dir)
    requires (forall d :: d in s.nodes && d != dp && d != n ==> s'.nodes[d] == s.nodes[d])
    requires Linked(s', dp) && k < |s'.nodes[dp].es| && s'.nodes[dp].es[k].inum == n
    requires SameBut(s.nodes[dp].es, s'.nodes[dp].es, k)
    ensures !(TreeOk(s') && OneParent(s'))
  {
    hide Names;
    if TreeOk(s') && OneParent(s') {
      assert DotsOk(s', dp) && HasName(s', dp);
      var p := s'.nodes[dp].es[1].inum;
      var j :| Holds(s', p, j, dp);
      Unnamed(s, dp, p, j);
      assert false;
    }
  }

  lemma LinkNameUnsound(s: State, ev: Event)
    requires ev.LinkName? && ev.ok && Enabled(s, ev) && !Linked(s, ev.dp) && Inv(s)
    ensures !CountsOk(Apply(s, ev))
  {
    hide Names, InFlight, Inv, Put, Lookup;
    var n, s1, s' := s.flight[ev.p], s.(flight := s.flight - {ev.p}), Apply(s, ev);
    InvCount(s, n);
    FlightLess(s, ev.p, n);
    FlightSame(s1, s', n);
    NamesFlight(s, s1, n);
    NamesHidden(s1, ev.dp, Dirent(n, ev.name), n);
    assert !CountOk(s', n);
  }

  lemma InvCount(s: State, n: nat)
    requires Inv(s) && n in s.nodes
    ensures CountOk(s, n)
  {
  }

  lemma UnsoundBreaks(s: State, ev: Event)
    requires Enabled(s, ev) && !Sound(s, ev) && Inv(s)
    ensures !Inv(Apply(s, ev))
  {
    hide CountsOk, TreeOk, OneParent, FreeOk, Put, Lookup;
    var s' := Apply(s, ev);
    match ev
    case Create(dp, _, _, kind, _, _) =>
      if Linked(s, dp) {
        CountsNotNegative(s', dp);
      } else if kind == File {
        CreateFileUnsound(s, ev);
      } else {
        CreateDirUnsound(s, ev);
      }
    case LinkUp(_, n) => CountsNotNegative(s', n);
    case LinkName(_, _, _, _) => LinkNameUnsound(s, ev);
  }

  /** The counts and the tree stay right exactly when the directory that takes a new name is linked and no count
      is at its limit. */
  lemma StepExact(s: State, ev: Event)
    requires Inv(s) && Enabled(s, ev)
    ensures Inv(Apply(s, ev)) <==> Sound(s, ev)
  {
    hide Inv, Apply;
    if Sound(s, ev) {
      StepKeepsInv(s, ev);
    } else {
      UnsoundBreaks(s, ev);
    }
  }

  // ---------------------------------------------------------------------------------------------
  // Runs
  // ---------------------------------------------------------------------------------------------

  ghost predicate IsRun(s: State, evs: seq<Event>)
    decreases |evs|
  {
    evs == [] || (Enabled(s, evs[0]) && IsRun(Apply(s, evs[0]), evs[1..]))
  }

  ghost predicate SoundRun(s: State, evs: seq<Event>)
    requires IsRun(s, evs)
    decreases |evs|
  {
    evs == [] || (Sound(s, evs[0]) && SoundRun(Apply(s, evs[0]), evs[1..]))
  }

  ghost predicate InvRun(s: State, evs: seq<Event>)
    requires IsRun(s, evs)
    decreases |evs|
  {
    Inv(s) && (evs == [] || InvRun(Apply(s, evs[0]), evs[1..]))
  }

  ghost function Final(s: State, evs: seq<Event>): (s': State)
    requires IsRun(s, evs)
    decreases |evs|
  {
    if evs == [] then s else Final(Apply(s, evs[0]), evs[1..])
  }

  /** Along every run, from any state where they are right. */
  lemma {:induction false} RunExact(s: State, evs: seq<Event>)
    requires Inv(s) && IsRun(s, evs)
    ensures InvRun(s, evs) <==> SoundRun(s, evs)
    ensures SoundRun(s, evs) ==> Inv(Final(s, evs))
    decreases |evs|
  {
    hide Inv, Apply;
    if evs != [] {
      var s' := Apply(s, evs[0]);
      StepExact(s, evs[0]);
      if Inv(s') {
        RunExact(s', evs[1..]);
      }
    }
  }

  /** The entries of the root directory that mkfs writes, padded to whole blocks. */
  function RootEntries(names: seq<string>, pad: nat): (es: seq<Dirent>) {
    [Dirent(ROOT, Dot), Dirent(ROOT, DotDot)]
    + seq(|names|, i requires 0 <= i < |names| => Dirent(i + 2, Other(names[i])))
    + seq(pad, _ => NONE)
  }

  function FormattedNode(names: seq<string>, pad: nat, i: nat): (x: Node) {
    if i == ROOT then Node(Dir, 1, RootEntries(names, pad)) else if i < |names| + 2 then Node(File, 1, []) else Node(Free, 0, [])
  }

  /** The image that mkfs makes: the root directory, the files in it, and inodes to spare. */
  function Formatted(names: seq<string>, pad: nat, spare: nat): (s: State) {
    State(map i: nat | 1 <= i < |names| + spare + 2 :: FormattedNode(names, pad, i), map[])
  }

  lemma FormattedNames(names: seq<string>, pad: nat, spare: nat, n: nat)
    requires 1 <= n < |names| + spare + 2
    ensures Names(Formatted(names, pad, spare), n) == if n < |names| + 2 then {(ROOT, n)} else {}
  {
  }

  lemma FormattedInv(names: seq<string>, pad: nat, spare: nat)
    ensures Inv(Formatted(names, pad, spare))
  {
    var s := Formatted(names, pad, spare);
    forall n | n in s.nodes ensures CountOk(s, n) {
      FormattedNames(names, pad, spare, n);
      assert InFlight(s, n) == {};
    }
    hide CountsOk;
    assert forall d :: IsDir(s, d) <==> d == ROOT;
    assert DotsOk(s, ROOT);
    forall k | 2 <= k < |RootEntries(names, pad)| ensures EntryOk(s, ROOT, k) {
    }
  }

  /** From the image that mkfs makes, every run of sound steps keeps the counts and the tree. */
  lemma FromMkfs(names: seq<string>, pad: nat, spare: nat, evs: seq<Event>)
    requires IsRun(Formatted(names, pad, spare), evs)
    ensures InvRun(Formatted(names, pad, spare), evs) <==> SoundRun(Formatted(names, pad, spare), evs)
  {
    FormattedInv(names, pad, spare);
    RunExact(Formatted(names, pad, spare), evs);
  }

  // ---------------------------------------------------------------------------------------------
  // Every linked directory can be reached from the root
  // ---------------------------------------------------------------------------------------------

  /** ".." leads downwards in rank, except at the root. */
  ghost predicate Ranked(s: State, rank: map<nat, nat>) {
    && ROOT in rank
    && forall d :: Linked(s, d) && d != ROOT ==> d in rank && |s.nodes[d].es| >= 2 && Lower(rank, s.nodes[d].es[1].inum, d)
  }

  ghost predicate Lower(rank: map<nat, nat>, p: nat, d: nat) {
    p in rank && d in rank && rank[p] < rank[d]
  }

  /** No directory becomes linked, and none gets another parent. */
  ghost predicate ParentsKept(s: State, s': State) {
    forall d :: Linked(s', d) && d != ROOT ==>
      Linked(s, d) && |s.nodes[d].es| >= 2 && |s'.nodes[d].es| >= 2 && s'.nodes[d].es[1] == s.nodes[d].es[1]
  }

  lemma RankKept(s: State, s': State, rank: map<nat, nat>)
    requires Ranked(s, rank) && ParentsKept(s, s')
    ensures Ranked(s', rank)
  {
  }

  lemma InvLong(s: State)
    requires Inv(s)
    ensures forall d :: Linked(s, d) ==> |s.nodes[d].es| >= 2
  {
    forall d | Linked(s, d) ensures |s.nodes[d].es| >= 2 {
      LinkedLong(s, d);
    }
  }

  lemma UnlinkParents(s: State, dp: nat, k: nat)
    requires Enabled(s, Unlink(dp, k)) && Inv(s)
    ensures ParentsKept(s, Apply(s, Unlink(dp, k)))
  {
    hide Inv, TreeOk, FreeOk, OneParent, CountsOk, EntryOk, OnlyDots, NamedAt, Apply;
    var c, s' := s.nodes[dp].es[k].inum, Apply(s, Unlink(dp, k));
    InvFree(s);
    UnlinkFinds(s, dp, k, c);
    InvLong(s);
    UnlinkIs(s, dp, k, c);
    UnlinkNodes(s, s', dp, k, c, if IsDir(s, c) then s.nodes[dp].nlink - 1 else s.nodes[dp].nlink);
    hide Counted, Erased, Enabled;
  }

  lemma LinkNameParents(s: State, ev: Event)
    requires ev.LinkName? && ev.ok && Enabled(s, ev) && Sound(s, ev) && Inv(s)
    ensures ParentsKept(s, Apply(s, ev))
  {
    hide Inv, TreeOk, OneParent, CountsOk, Put, Lookup, FreeOk, Apply;
    InvLong(s);
    NewName(s, ev);
    LinkedLong(s, ev.dp);
    LinkNameIs(s, ev);
  }

  lemma CountParents(s: State, ev: Event)
    requires (ev.LinkUp? || (ev.LinkName? && !ev.ok)) && Enabled(s, ev) && Inv(s)
    ensures ParentsKept(s, Apply(s, ev))
  {
    hide Inv, TreeOk, OneParent, CountsOk, Lookup, FreeOk, Apply;
    InvLong(s);
    InvFree(s);
    CountIs(s, ev);
  }

  /** An inode is released, or created in vain. */
  lemma OffParents(s: State, ev: Event)
    requires (ev.Release? || (ev.Create? && !ev.ok)) && Enabled(s, ev) && Inv(s)
    ensures ParentsKept(s, Apply(s, ev))
  {
    hide Inv, Lookup, Fresh;
    InvLong(s);
  }

  lemma NamingParents(s: State, ev: Event)
    requires Enabled(s, ev) && Sound(s, ev) && !ev.Unlink? && !(ev.Create? && ev.ok) && Inv(s)
    ensures ParentsKept(s, Apply(s, ev))
  {
    hide Inv, Enabled, Apply, ParentsKept, Sound;
    if ev.LinkName? && ev.ok {
      LinkNameParents(s, ev);
    } else if ev.LinkUp? || ev.LinkName? {
      CountParents(s, ev);
    } else {
      OffParents(s, ev);
    }
  }

  lemma CreateFileParents(s: State, ev: Event)
    requires ev.Create? && ev.ok && ev.kind == File && Enabled(s, ev) && Sound(s, ev) && Inv(s)
    ensures ParentsKept(s, Apply(s, ev))
  {
    hide Inv, Put, Lookup, Apply;
    InvLong(s);
    NewName(s, ev);
    LinkedLong(s, ev.dp);
    CreateIs(s, ev);
  }

  /** A new directory ranks above the one that it is created in. */
  lemma CreateRank(s: State, ev: Event, rank: map<nat, nat>)
    requires ev.Create? && ev.ok && ev.kind == Dir && Enabled(s, ev) && Sound(s, ev) && Inv(s) && Ranked(s, rank)
    ensures ev.dp in rank && Ranked(Apply(s, ev), rank[ev.n := rank[ev.dp] + 1])
  {
    hide Inv, Put, Lookup, Apply, TreeOk, OneParent, FreeOk, Names;
    var n, dp, s' := ev.n, ev.dp, Apply(s, ev);
    InvLong(s);
    InvFree(s);
    NewName(s, ev);
    FreeUnflown(s, n);
    FreeUnnamed(s, n);
    CreateIs(s, ev);
    forall d | Linked(s, d) ensures s.nodes[d].es[1].inum != n {
      Unnamed(s, n, d, 1);
    }
  }

  lemma StepRanked(s: State, ev: Event, rank: map<nat, nat>) returns (rank': map<nat, nat>)
    requires Enabled(s, ev) && Sound(s, ev) && Inv(s) && Ranked(s, rank)
    ensures Ranked(Apply(s, ev), rank')
  {
    hide Inv, Enabled, Apply, Ranked, ParentsKept, Sound;
    rank' := rank;
    if ev.Create? && ev.ok && ev.kind == Dir {
      CreateRank(s, ev, rank);
      rank' := rank[ev.n := rank[ev.dp] + 1];
    } else {
      if ev.Unlink? {
        UnlinkParents(s, ev.dp, ev.k);
      } else if ev.Create? && ev.ok {
        NotFree(s, ev);
        CreateFileParents(s, ev);
      } else {
        NamingParents(s, ev);
      }
      RankKept(s, Apply(s, ev), rank);
    }
  }

  lemma NotFree(s: State, ev: Event)
    requires Enabled(s, ev) && ev.Create?
    ensures ev.kind != Free
  {
  }

  lemma {:induction false} RunRanked(s: State, evs: seq<Event>, rank: map<nat, nat>) returns (rank': map<nat, nat>)
    requires Inv(s) && IsRun(s, evs) && SoundRun(s, evs) && Ranked(s, rank)
    ensures Ranked(Final(s, evs), rank')
    decreases |evs|
  {
    hide Inv, Apply, Ranked;
    if evs == [] {
      rank' := rank;
    } else {
      StepKeepsInv(s, evs[0]);
      var r := StepRanked(s, evs[0], rank);
      rank' := RunRanked(Apply(s, evs[0]), evs[1..], r);
    }
  }

  /** From the root to d, each directory by an entry of the one before. */
  ghost predicate PathTo(s: State, ds: seq<nat>, d: nat) {
    && ds != [] && ds[0] == ROOT && ds[|ds| - 1] == d
    && forall i :: 0 <= i < |ds| - 1 ==> Linked(s, ds[i]) && Names1(s, ds[i], ds[i + 1])
  }

  ghost predicate Names1(s: State, p: nat, d: nat) {
    exists k :: Holds(s, p, k, d)
  }

  lemma RankOf(s: State, rank: map<nat, nat>, d: nat)
    requires Ranked(s, rank) && Linked(s, d) && d != ROOT
    ensures |s.nodes[d].es| >= 2 && Lower(rank, s.nodes[d].es[1].inum, d)
  {
  }

  lemma {:induction false} Reachable(s: State, rank: map<nat, nat>, d: nat) returns (ds: seq<nat>)
    requires Inv(s) && Ranked(s, rank) && Linked(s, d)
    ensures PathTo(s, ds, d)
    decreases if d in rank then rank[d] else 0
  {
    hide Inv, Ranked, Names1, Linked;
    if d == ROOT {
      ds := [ROOT];
    } else {
      var p := Upwards(s, d);
      RankOf(s, rank, d);
      var up := Reachable(s, rank, p);
      ds := up + [d];
    }
  }

  lemma Upwards(s: State, d: nat) returns (p: nat)
    requires Inv(s) && Linked(s, d) && d != ROOT
    ensures |s.nodes[d].es| >= 2 && p == s.nodes[d].es[1].inum && Linked(s, p) && Names1(s, p, d)
  {
    hide CountsOk;
    assert DotsOk(s, d) && HasName(s, d);
    p := s.nodes[d].es[1].inum;
  }

  /** Whatever sound steps follow mkfs, every directory that is still linked can be reached from the root by names:
      there are no cycles and no islands. */
  lemma AllReachable(names: seq<string>, pad: nat, spare: nat, evs: seq<Event>, d: nat) returns (ds: seq<nat>)
    requires IsRun(Formatted(names, pad, spare), evs) && SoundRun(Formatted(names, pad, spare), evs)
    requires Linked(Final(Formatted(names, pad, spare), evs), d)
    ensures PathTo(Final(Formatted(names, pad, spare), evs), ds, d)
  {
    hide Inv, Apply;
    var s := Formatted(names, pad, spare);
    FormattedInv(names, pad, spare);
    assert Ranked(s, map[ROOT := 0]);
    hide Formatted, Ranked, PathTo;
    RunExact(s, evs);
    var rank := RunRanked(s, evs, map[ROOT := 0]);
    ds := Reachable(Final(s, evs), rank, d);
  }

  /** What the counts are for: whatever a linked directory names is allocated and linked, so it is never released. */
  lemma NamedIsAllocated(s: State, n: nat, d: nat, k: nat)
    requires Inv(s) && NamedAt(s, n, d, k) && n in s.nodes
    ensures s.nodes[n].nlink >= 1 && s.nodes[n].kind != Free && !Enabled(s, Release(n))
  {
    hide Inv, Names, InFlight, NamedAt;
    InvCount(s, n);
    NamedIn(s, n, d, k);
    assert |Names(s, n)| >= 1;
    if s.nodes[n].kind == Free {
      FreeUnflown(s, n);
    }
  }

  /** Such a step is within reach: remove a directory, and create a file in it by way of the working directory. */
  lemma UnsoundReachable()
    ensures exists evs :: IsRun(Formatted([], 0, 2), evs) && !SoundRun(Formatted([], 0, 2), evs)
  {
    var d, f := Create(ROOT, Other(['d']), 2, Dir, true, 0), Create(2, Other(['f']), 3, File, true, 0);
    var s0 := Formatted([], 0, 2);
    assert s0.nodes[ROOT].es == [Dirent(ROOT, Dot), Dirent(ROOT, DotDot)];
    assert Enabled(s0, d) by {
      LookupNone(s0.nodes[ROOT].es, Other(['d']), 0);
    }
    var s1 := Apply(s0, d);
    EmptyNone(s0.nodes[ROOT].es, 0);
    assert s1.nodes[ROOT].es == [Dirent(ROOT, Dot), Dirent(ROOT, DotDot), Dirent(2, Other(['d']))];
    assert Enabled(s1, Unlink(ROOT, 2));
    var s2 := Apply(s1, Unlink(ROOT, 2));
    assert s2.nodes[2] == Node(Dir, 0, [Dirent(2, Dot), Dirent(ROOT, DotDot)]);
    assert Enabled(s2, f) by {
      LookupNone(s2.nodes[2].es, Other(['f']), 0);
    }
    var s3 := Apply(s2, f);
    hide Apply, Enabled, Sound;
    assert !Sound(s2, f) by {
      NotSound(s2, f);
    }
    RunThree(s0, d, s1, Unlink(ROOT, 2), s2, f);
  }

  /** Nor does ".." of a removed directory keep what it leads to: make a directory and one in it, remove both, and
      release the outer one.  The inner one, still allocated, then names a free inode. */
  lemma StaleParentReachable() returns (evs: seq<Event>)
    ensures IsRun(Formatted([], 0, 2), evs) && SoundRun(Formatted([], 0, 2), evs)
    ensures var s := Final(Formatted([], 0, 2), evs);
      && IsDir(s, 3) && |s.nodes[3].es| == 2 && s.nodes[3].es[1] == Dirent(2, DotDot) && 2 in s.nodes && s.nodes[2].kind == Free
  {
    var a, b := Create(ROOT, Other(['a']), 2, Dir, true, 0), Create(2, Other(['b']), 3, Dir, true, 0);
    var s0 := Formatted([], 0, 2);
    var dots := [Dirent(ROOT, Dot), Dirent(ROOT, DotDot)];
    assert s0.nodes[ROOT].es == dots;
    LookupNone(dots, Other(['a']), 0);
    EmptyNone(dots, 0);
    var s1 := Apply(s0, a);
    var dots2 := [Dirent(2, Dot), Dirent(ROOT, DotDot)];
    assert s1.nodes[2] == Node(Dir, 1, dots2) && s1.nodes[ROOT] == Node(Dir, 2, dots + [Dirent(2, Other(['a']))]);
    LookupNone(dots2, Other(['b']), 0);
    EmptyNone(dots2, 0);
    var s2 := Apply(s1, b);
    assert s2.nodes[2] == Node(Dir, 2, dots2 + [Dirent(3, Other(['b']))]);
    assert s2.nodes[3] == Node(Dir, 1, [Dirent(3, Dot), Dirent(2, DotDot)]) && s2.nodes[ROOT] == s1.nodes[ROOT];
    evs := StaleRest(s0, a, s1, b, s2);
  }

  lemma StaleRest(s0: State, a: Event, s1: State, b: Event, s2: State) returns (evs: seq<Event>)
    requires Enabled(s0, a) && Sound(s0, a) && s1 == Apply(s0, a) && Enabled(s1, b) && Sound(s1, b) && s2 == Apply(s1, b)
    requires s2.nodes.Keys == {1, 2, 3} && |s2.nodes[1].es| == 3 && s2.nodes[1].kind == Dir && s2.nodes[1].es[2] == Dirent(2, Other(['a']))
    requires s2.nodes[2] == Node(Dir, 2, [Dirent(2, Dot), Dirent(1, DotDot), Dirent(3, Other(['b']))])
    requires s2.nodes[3] == Node(Dir, 1, [Dirent(3, Dot), Dirent(2, DotDot)])
    ensures IsRun(s0, evs) && SoundRun(s0, evs)
    ensures var s := Final(s0, evs);
      && IsDir(s, 3) && |s.nodes[3].es| == 2 && s.nodes[3].es[1] == Dirent(2, DotDot) && 2 in s.nodes && s.nodes[2].kind == Free
  {
    var s3 := Apply(s2, Unlink(2, 2));
    assert s3.nodes[2] == Node(Dir, 1, [Dirent(2, Dot), Dirent(1, DotDot), NONE]) && s3.nodes[3] == s2.nodes[3].(nlink := 0);
    var s4 := Apply(s3, Unlink(1, 2));
    assert s4.nodes[2].nlink == 0 && s4.nodes[3] == s3.nodes[3];
    var s5 := Apply(s4, Release(2));
    hide Enabled, Apply, Sound;
    evs := [];
    evs := OneBefore(s4, Release(2), evs);
    evs := OneBefore(s3, Unlink(1, 2), evs);
    evs := OneBefore(s2, Unlink(2, 2), evs);
    evs := OneBefore(s1, b, evs);
    evs := OneBefore(s0, a, evs);
  }

  lemma OneBefore(s: State, ev: Event, evs: seq<Event>) returns (all: seq<Event>)
    requires Enabled(s, ev) && Sound(s, ev) && IsRun(Apply(s, ev), evs) && SoundRun(Apply(s, ev), evs)
    ensures IsRun(s, all) && SoundRun(s, all) && Final(s, all) == Final(Apply(s, ev), evs)
  {
    hide Enabled, Apply, Sound;
    all := [ev] + evs;
    assert all[1..] == evs;
  }

  lemma NotSound(s: State, ev: Event)
    requires ev.Create? && ev.ok && Enabled(s, ev) && s.nodes[ev.dp].nlink == 0
    ensures !Sound(s, ev)
  {
  }

  lemma RunThree(s0: State, a: Event, s1: State, b: Event, s2: State, c: Event)
    requires Enabled(s0, a) && s1 == Apply(s0, a) && Enabled(s1, b) && s2 == Apply(s1, b) && Enabled(s2, c) && !Sound(s2, c)
    ensures IsRun(s0, [a, b, c]) && !SoundRun(s0, [a, b, c])
  {
    hide Enabled, Apply, Sound;
    assert [a, b, c][1..] == [b, c] && [b, c][1..] == [c] && [c][1..] == [];
    assert IsRun(Apply(s2, c), []);
    assert IsRun(s2, [c]) && !SoundRun(s2, [c]);
    assert IsRun(s1, [b, c]) && !SoundRun(s1, [b, c]);
  }

  lemma {:induction false} LookupNone(es: seq<Dirent>, name: Name, i: nat)
    requires i <= |es| && forall j :: i <= j < |es| ==> es[j].name != name
    ensures Lookup(es, name, i) == |es|
    decreases |es| - i
  {
    if i < |es| {
      LookupNone(es, name, i + 1);
    }
  }

  lemma {:induction false} EmptyNone(es: seq<Dirent>, i: nat)
    requires i <= |es| && forall j :: i <= j < |es| ==> es[j].inum != 0
    ensures Empty(es, i) == |es|
    decreases |es| - i
  {
    if i < |es| {
      EmptyNone(es, i + 1);
    }
  }
}
