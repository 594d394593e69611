/** What create, link and unlink do to names, whatever slot of a directory an entry is in: every directory is a map from
    names to inode numbers. */
module Namespace {
  import opened Links

  predicate InUse(es: seq<Dirent>, k: nat) {
    k < |es| && es[k].inum != 0
  }

  /** No name is in use twice. */
  ghost predicate Unique(es: seq<Dirent>) {
    forall i, j :: 0 <= i < j < |es| && InUse(es, i) && InUse(es, j) ==> es[i].name != es[j].name
  }

  ghost predicate AllUnique(s: State) {
    0 !in s.nodes && (forall d :: d in s.nodes ==> Unique(s.nodes[d].es)) && forall p :: p in s.flight ==> s.flight[p] != 0
  }

  /** What dirlookup finds under a name; 0 stands for nothing. */
  function Target(es: seq<Dirent>, name: Name): (n: nat) {
    var k := Lookup(es, name, 0);
    if k < |es| then es[k].inum else 0
  }

  function At(s: State, d: nat, name: Name): (n: nat) {
    if d in s.nodes then Target(s.nodes[d].es, name) else 0
  }

  lemma {:induction false} LookupFirst(es: seq<Dirent>, name: Name, i: nat)
    requires i <= |es|
    ensures var k := Lookup(es, name, i);
      && (k < |es| ==> InUse(es, k) && es[k].name == name)
      && forall j :: i <= j < k ==> !(InUse(es, j) && es[j].name == name)
    decreases |es| - i
  {
    if i < |es| && !(es[i].inum != 0 && es[i].name == name) {
      LookupFirst(es, name, i + 1);
    }
  }

  /** The entry in use with the name, if there is one. */
  lemma TargetIs(es: seq<Dirent>, name: Name)
    requires Unique(es)
    ensures forall k: nat :: InUse(es, k) && es[k].name == name ==> Target(es, name) == es[k].inum
    ensures (forall k: nat :: InUse(es, k) ==> es[k].name != name) <==> Target(es, name) == 0
  {
    LookupFirst(es, name, 0);
    var j := Lookup(es, name, 0);
    forall k: nat | InUse(es, k) && es[k].name == name ensures k == j {
    }
  }

  lemma TargetPut(es: seq<Dirent>, e: Dirent, name: Name)
    requires Unique(es) && e.inum != 0 && Lookup(es, e.name, 0) == |es|
    ensures Unique(Put(es, e)) && Target(Put(es, e), name) == if name == e.name then e.inum else Target(es, name)
  {
    LookupFirst(es, e.name, 0);
    PutWhat(es, e);
    var r, k := Put(es, e), Empty(es, 0);
    hide Put, Empty, Lookup;
    assert InUse(r, k);
    assert forall j: nat :: j != k && j < |r| ==> (InUse(r, j) <==> InUse(es, j));
    assert Unique(r);
    SameTarget(es, r, name, k, e);
  }

  lemma SameTarget(es: seq<Dirent>, r: seq<Dirent>, name: Name, k: nat, e: Dirent)
    requires Unique(es) && Unique(r) && k < |r| && r[k] == e && e.inum != 0 && |es| <= |r| && !InUse(es, k)
    requires forall j: nat :: j != k && j < |r| ==> j < |es| && r[j] == es[j]
    ensures Target(r, name) == if name == e.name then e.inum else Target(es, name)
  {
    TargetIs(es, name);
    TargetIs(r, name);
    hide Target;
    assert InUse(r, k);
    if name != e.name {
      if j: nat :| InUse(r, j) && r[j].name == name {
        assert InUse(es, j);
      }
      forall j: nat | InUse(es, j) && es[j].name == name ensures InUse(r, j) && r[j] == es[j] {
      }
    }
  }

  lemma TargetErased(es: seq<Dirent>, k: nat, name: Name)
    requires Unique(es) && InUse(es, k)
    ensures Unique(es[k := NONE]) && Target(es[k := NONE], name) == if name == es[k].name then 0 else Target(es, name)
  {
    var r := es[k := NONE];
    assert forall j: nat :: InUse(r, j) <==> InUse(es, j) && j != k;
    assert Unique(r);
    TargetIs(es, name);
    TargetIs(r, name);
    hide Target;
    if name != es[k].name {
      if j: nat :| InUse(es, j) && es[j].name == name {
        assert InUse(r, j);
      }
    }
  }

  /** The name that unlink removes. */
  function NameAt(s: State, dp: nat, k: nat): (nm: Name) {
    if dp in s.nodes && k < |s.nodes[dp].es| then s.nodes[dp].es[k].name else Dot
  }

  function FlightOf(s: State, p: nat): (n: nat) {
    if p in s.flight then s.flight[p] else 0
  }

  /** What directory d has under a name after a step, in terms of names only: create and link enter one name in one
      directory, a new directory has its two dots, unlink removes one name, and an inode that is released has none.  A
      create that fails leaves no name behind, save in the inode that it gives up. */
  function Effect(s: State, ev: Event, d: nat, name: Name): (n: nat) {
    match ev
    case Create(dp, nm, n, kind, ok, dots) =>
      if d == n then
        if kind == Dir && name == Dot && (ok || dots >= 1) then n
        else if kind == Dir && name == DotDot && (ok || dots >= 2) then dp
        else 0
      else if ok && d == dp && name == nm then n
      else At(s, d, name)
    case LinkUp(_, _) => At(s, d, name)
    case LinkName(p, dp, nm, ok) => if ok && d == dp && name == nm then FlightOf(s, p) else At(s, d, name)
    case Unlink(dp, k) => if d == dp && name == NameAt(s, dp, k) then 0 else At(s, d, name)
    case Release(n) => if d == n then 0 else At(s, d, name)
  }

  lemma DotsTarget(n: nat, dp: nat, dots: nat, name: Name)
    requires n != 0 && dp != 0 && dots <= 2
    ensures var es := [Dirent(n, Dot), Dirent(dp, DotDot)][..dots];
      && Unique(es)
      && Target(es, name) == if name == Dot && dots >= 1 then n else if name == DotDot && dots >= 2 then dp else 0
  {
    var es := [Dirent(n, Dot), Dirent(dp, DotDot)][..dots];
    TargetIs(es, name);
    assert dots >= 1 ==> InUse(es, 0);
    assert dots >= 2 ==> InUse(es, 1);
    hide Target;
  }

  lemma NoTarget(name: Name)
    ensures Unique([]) && Target([], name) == 0
  {
  }

  lemma CreateNode(s: State, ev: Event, name: Name)
    requires AllUnique(s) && Enabled(s, ev) && ev.Create?
    ensures var s' := Apply(s, ev);
      ev.n in s'.nodes && Unique(s'.nodes[ev.n].es) && At(s', ev.n, name) == Effect(s, ev, ev.n, name)
  {
    NoTarget(name);
    assert ev.n != ev.dp;
    if ev.kind == Dir {
      DotsTarget(ev.n, ev.dp, if ev.ok then 2 else ev.dots, name);
      assert [Dirent(ev.n, Dot), Dirent(ev.dp, DotDot)][..2] == [Dirent(ev.n, Dot), Dirent(ev.dp, DotDot)];
    }
    hide Target, Put, Lookup;
  }

  lemma CreateParent(s: State, ev: Event, name: Name)
    requires AllUnique(s) && Enabled(s, ev) && ev.Create?
    ensures var s' := Apply(s, ev);
      ev.dp in s'.nodes && Unique(s'.nodes[ev.dp].es) && At(s', ev.dp, name) == Effect(s, ev, ev.dp, name)
  {
    assert ev.n != ev.dp;
    TargetPut(s.nodes[ev.dp].es, Dirent(ev.n, ev.name), name);
    hide Target, Put, Lookup;
  }

  lemma OneStep(s: State, ev: Event, d: nat, name: Name)
    requires AllUnique(s) && Enabled(s, ev) && d in s.nodes
    ensures d in Apply(s, ev).nodes && Unique(Apply(s, ev).nodes[d].es) && At(Apply(s, ev), d, name) == Effect(s, ev, d, name)
  {
    if ev.Create? && d == ev.n {
      CreateNode(s, ev, name);
    } else if ev.Create? && d == ev.dp {
      CreateParent(s, ev, name);
    } else if ev.LinkName? && ev.ok && d == ev.dp {
      TargetPut(s.nodes[d].es, Dirent(s.flight[ev.p], ev.name), name);
      hide Target, Put, Lookup;
    } else if ev.Unlink? && d == ev.dp {
      TargetErased(s.nodes[d].es, ev.k, name);
      hide Target, Put, Lookup;
    } else {
      NoTarget(name);
      hide Target, Put, Lookup;
    }
  }

  /** Every step of create, link and unlink has exactly that effect on every name of every directory, and names stay
      unique. */
  lemma StepNames(s: State, ev: Event, d: nat, name: Name)
    requires AllUnique(s) && Enabled(s, ev)
    ensures AllUnique(Apply(s, ev)) && At(Apply(s, ev), d, name) == Effect(s, ev, d, name)
  {
    hide Put, Lookup, Unique, Target;
    forall x | x in s.nodes ensures x in Apply(s, ev).nodes && Unique(Apply(s, ev).nodes[x].es) {
      OneStep(s, ev, x, name);
    }
    if d in s.nodes {
      OneStep(s, ev, d, name);
    }
  }

  /** No inode appears or disappears; create gives it a kind and release takes it away. */
  lemma StepKinds(s: State, ev: Event, n: nat)
    requires Enabled(s, ev) && n in s.nodes
    ensures Apply(s, ev).nodes.Keys == s.nodes.Keys
    ensures Apply(s, ev).nodes[n].kind ==
      if ev.Create? && n == ev.n then ev.kind else if ev.Release? && n == ev.n then Free else s.nodes[n].kind
  {
    hide Put, Lookup;
  }

  /** Names are unique along every run, */
  lemma {:induction false} RunUnique(s: State, evs: seq<Event>)
    requires AllUnique(s) && IsRun(s, evs)
    ensures AllUnique(Final(s, evs))
    decreases |evs|
  {
    hide AllUnique, Enabled, Apply;
    if evs != [] {
      StepNames(s, evs[0], 0, Dot);
      RunUnique(Apply(s, evs[0]), evs[1..]);
    }
  }

  /** from the image that mkfs makes of files with different names. */
  lemma FormattedUnique(names: seq<string>, pad: nat, spare: nat)
    requires forall i, j :: 0 <= i < j < |names| ==> names[i] != names[j]
    ensures AllUnique(Formatted(names, pad, spare))
  {
  }

  // ---------------------------------------------------------------------------------------------
  // Paths
  // ---------------------------------------------------------------------------------------------

  /** namex: the inode that a path leads to from d, or 0. */
  function Walk(s: State, d: nat, path: seq<Name>): (n: nat)
    decreases |path|
  {
    if path == [] then d else if At(s, d, path[0]) == 0 then 0 else Walk(s, At(s, d, path[0]), path[1..])
  }

  /** The path does not go through entry `name` of directory dp. */
  predicate Avoids(s: State, d: nat, path: seq<Name>, dp: nat, name: Name)
    decreases |path|
  {
    path == [] || (!(d == dp && path[0] == name) && (At(s, d, path[0]) == 0 || Avoids(s, At(s, d, path[0]), path[1..], dp, name)))
  }

  /** A file that is created can be found under its path, */
  lemma CreateFinds(s: State, ev: Event)
    requires AllUnique(s) && Enabled(s, ev) && ev.Create? && ev.ok
    ensures Walk(Apply(s, ev), ev.dp, [ev.name]) == ev.n
  {
    StepNames(s, ev, ev.dp, ev.name);
    assert ev.n in s.nodes && ev.n != ev.dp;
    hide Apply, AllUnique, Lookup, At;
    assert [ev.name][1..] == [];
  }

  /** and unlink takes away no path but those through the name that it removes. */
  lemma {:induction false} UnlinkSpares(s: State, ev: Event, d: nat, path: seq<Name>)
    requires AllUnique(s) && Enabled(s, ev) && ev.Unlink? && Avoids(s, d, path, ev.dp, NameAt(s, ev.dp, ev.k))
    ensures Walk(Apply(s, ev), d, path) == Walk(s, d, path)
    decreases |path|
  {
    hide AllUnique, Enabled, Apply, At, NameAt;
    if path != [] {
      StepNames(s, ev, d, path[0]);
      if At(s, d, path[0]) != 0 {
        UnlinkSpares(s, ev, At(s, d, path[0]), path[1..]);
      }
    }
  }
}
