/** The operations of kernel/vm.c on user page tables.  A virtual address is given by its page number; sizes are in
    bytes. */
module Vm {
  import opened Sums
  import opened Kalloc
  import opened PageTable
  import opened Tables

  /** The physical pages between KERNBASE and PHYSTOP. */
  const NFRAMES: nat := 32768

  /** The page table is in memory and none of its pages is free. */
  ghost predicate Lives(mem: map<nat, Page>, free: seq<nat>, sp: Space) {
    Rep(mem, sp) && forall f :: f in sp.tabs ==> f !in free
  }

  ghost predicate SameOutside(mem: map<nat, Page>, mem': map<nat, Page>, s: set<nat>) {
    forall f :: f in mem && f !in s ==> f in mem' && mem'[f] == mem[f]
  }

  ghost function Elems(q: seq<nat>): (s: set<nat>) {
    set x | x in q
  }

  /** Only tables have been added, in the pages taken. */
  ghost predicate Grew(sp: Space, sp': Space, taken: seq<nat>) {
    sp'.root == sp.root && sp'.leaves == sp.leaves && sp'.tabs.Keys == sp.tabs.Keys + Elems(taken)
  }

  function Px(level: nat, v: nat): (i: nat)
    ensures i < 512
  {
    if level == 2 then v / 512 / 512 % 512 else if level == 1 then v / 512 % 512 else v % 512
  }

  /** Where walk is after the levels above. */
  ghost predicate Reached(sp: Space, v: nat, level: nat, pt: nat) {
    if level == 2 then pt == sp.root
    else if level == 1 then v / 512 / 512 in sp.mids && pt == sp.mids[v / 512 / 512]
    else v / 512 in sp.lows && pt == sp.lows[v / 512]
  }

  /** The table below, if there is one. */
  ghost predicate HasBelow(sp: Space, v: nat, level: nat) {
    if level == 2 then v / 512 / 512 in sp.mids else v / 512 in sp.lows
  }

  function Grown(sp: Space, v: nat, level: nat, f: nat): (r: Space) {
    if level == 2 then WithMid(sp, v / 512 / 512, f) else WithLow(sp, v / 512, f)
  }

  lemma WalkEntry(mem: map<nat, Page>, sp: Space, v: nat, level: nat, pt: nat)
    requires Rep(mem, sp) && v < MAXVPN && (level == 2 || level == 1) && Reached(sp, v, level, pt)
    ensures IsTable(mem, pt) && pt in sp.tabs && (mem[pt].ptes[Px(level, v)].v <==> HasBelow(sp, v, level))
    ensures HasBelow(sp, v, level) ==> Reached(sp, v, level - 1, mem[pt].ptes[Px(level, v)].ppn) && mem[pt].ptes[Px(level, v)].ppn > 0
  {
    if level == 2 {
      RootEntry(mem, sp, v / 512 / 512);
    } else {
      MidEntry(mem, sp, v / 512);
    }
  }

  lemma WalkGrows(mem: map<nat, Page>, sp: Space, v: nat, level: nat, pt: nat, f: nat)
    requires Rep(mem, sp) && v < MAXVPN && (level == 2 || level == 1) && Reached(sp, v, level, pt) && !HasBelow(sp, v, level)
    requires f > 0 && f !in sp.tabs
    ensures IsTable(mem[f := Zeros()], pt) && Rep(SetPte(mem[f := Zeros()], pt, Px(level, v), Ptr(f)), Grown(sp, v, level, f))
    ensures Reached(Grown(sp, v, level, f), v, level - 1, f)
  {
    if level == 2 {
      AddMid(mem, sp, v / 512 / 512, f);
    } else {
      AddLow(mem, sp, v / 512, f);
    }
  }

  /** walk: the lowest table for page v, or 0. */
  method Walk(k: Memory, root: nat, v: nat, alloc: bool, ghost sp: Space) returns (pt: nat, ghost sp': Space, ghost taken: seq<nat>)
    requires k.Valid() && Lives(k.mem, k.free, sp) && root == sp.root && v < MAXVPN
    modifies k
    ensures k.Valid() && Lives(k.mem, k.free, sp') && Grew(sp, sp', taken)
    ensures old(k.free) == taken + k.free && SameOutside(old(k.mem), k.mem, sp'.tabs.Keys) && k.mem.Keys == old(k.mem.Keys)
    ensures pt != 0 ==> Low(v) in sp'.lows && pt == sp'.lows[Low(v)]
    ensures !alloc ==> sp' == sp && unchanged(k) && (pt != 0 <==> Low(v) in sp.lows)
    ensures alloc ==> (pt != 0 <==> |old(k.free)| >= Need(sp, v, v + 1))
    ensures alloc && pt != 0 ==> Paid(sp, sp', v, v + 1, |taken|)
    ensures alloc && pt == 0 ==> k.free == []
  {
    hide Lives, Grew, SameOutside, FreeOk, Need, Paid, Lack, Below, OneBelow, HasBelow;
    pt, sp', taken := root, sp, [];
    WalkStart(k.mem, sp, v);
    var level := 2;
    while level > 0
      invariant 0 <= level <= 2 && k.Valid() && Lives(k.mem, k.free, sp') && Grew(sp, sp', taken) && Reached(sp', v, level, pt)
      invariant old(k.free) == taken + k.free && SameOutside(old(k.mem), k.mem, sp'.tabs.Keys) && k.mem.Keys == old(k.mem.Keys)
      invariant !alloc ==> sp' == sp && unchanged(k)
      invariant alloc ==> |taken| + Lack(sp', v, level) == Lack(sp, v, 2) && Below(sp, sp', v, level)
    {
      ghost var t2: seq<nat>;
      ghost var m1, s1 := k.mem, sp';
      pt, sp', t2 := Descend(k, pt, level, v, alloc, sp');
      WalkOn(old(k.mem), m1, k.mem, sp, s1, sp', taken, t2);
      taken := taken + t2;
      if pt == 0 {
        WalkLacks(k.mem, k.free, s1, v, level);
        LackIsNeed(sp, v);
        return;
      }
      if alloc {
        WalkBelow(sp, s1, sp', v, level);
      }
      level := level - 1;
    }
    LowNotNull(k.mem, k.free, sp', v);
    if alloc {
      WalkPaid(sp, sp', v);
      LackIsNeed(sp, v);
    }
  }

  lemma WalkOn(m0: map<nat, Page>, m1: map<nat, Page>, m2: map<nat, Page>, s0: Space, s1: Space, s2: Space, t1: seq<nat>, t2: seq<nat>)
    requires SameOutside(m0, m1, s1.tabs.Keys) && SameOutside(m1, m2, s2.tabs.Keys) && Grew(s0, s1, t1) && Grew(s1, s2, t2)
    ensures SameOutside(m0, m2, s2.tabs.Keys) && Grew(s0, s2, t1 + t2)
  {
    assert Elems(t1 + t2) == Elems(t1) + Elems(t2);
  }

  lemma LowNotNull(mem: map<nat, Page>, free: seq<nat>, sp: Space, v: nat)
    requires Lives(mem, free, sp)
    ensures v / 512 in sp.lows ==> sp.lows[v / 512] > 0
  {
    Reaches(mem, sp, v);
  }

  /** The tables below the levels that walk has gone down are there, and no others are new. */
  ghost predicate Below(sp: Space, sp': Space, v: nat, level: nat) {
    && sp'.mids.Keys == sp.mids.Keys + (if level < 2 then {v / 512 / 512} else {})
    && sp'.lows.Keys == sp.lows.Keys + (if level < 1 then {v / 512} else {})
  }

  lemma WalkStart(mem: map<nat, Page>, sp: Space, v: nat)
    ensures Below(sp, sp, v, 2) && Grew(sp, sp, []) && SameOutside(mem, mem, sp.tabs.Keys)
  {
  }

  lemma WalkLacks(mem: map<nat, Page>, free: seq<nat>, sp: Space, v: nat, level: nat)
    requires Lives(mem, free, sp) && (level == 2 || level == 1) && !HasBelow(sp, v, level)
    ensures Lack(sp, v, level) > 0 && v / 512 !in sp.lows
  {
    Reaches(mem, sp, v);
  }

  lemma WalkBelow(s0: Space, s1: Space, s2: Space, v: nat, level: nat)
    requires (level == 2 || level == 1) && Below(s0, s1, v, level) && OneBelow(s1, s2, v, level)
    ensures Below(s0, s2, v, level - 1)
  {
  }

  lemma WalkPaid(sp: Space, sp': Space, v: nat)
    requires Below(sp, sp', v, 0)
    ensures Paid(sp, sp', v, v + 1, Lack(sp, v, 2)) && Lack(sp', v, 0) == 0
  {
    One(v);
    LackIsNeed(sp, v);
  }

  /** One level of walk. */
  method Descend(k: Memory, pt: nat, level: nat, v: nat, alloc: bool, ghost sp: Space)
      returns (next: nat, ghost sp': Space, ghost taken: seq<nat>)
    requires k.Valid() && Lives(k.mem, k.free, sp) && v < MAXVPN && (level == 2 || level == 1) && Reached(sp, v, level, pt)
    modifies k
    ensures k.Valid() && Lives(k.mem, k.free, sp') && Grew(sp, sp', taken)
    ensures old(k.free) == taken + k.free && SameOutside(old(k.mem), k.mem, sp'.tabs.Keys) && k.mem.Keys == old(k.mem.Keys)
    ensures next != 0 ==> Reached(sp', v, level - 1, next)
    ensures !alloc ==> sp' == sp && unchanged(k) && (next == 0 ==> !HasBelow(sp, v, level))
    ensures alloc && next == 0 ==> k.free == [] == taken && !HasBelow(sp, v, level) && sp' == sp
    ensures alloc && next != 0 ==> |taken| + Lack(sp', v, level - 1) == Lack(sp, v, level) && OneBelow(sp, sp', v, level)
  {
    hide Lives, Grew, FreeOk, Reached, HasBelow, OneBelow, Lack, SameOutside;
    sp', taken := sp, [];
    GrewNothing(sp);
    LiveEntry(k.mem, k.free, sp, v, level, pt);
    var pte := k.mem[pt].ptes[Px(level, v)];
    if pte.v {
      NoneBelow(sp, v, level);
      return pte.ppn, sp, [];
    }
    if !alloc {
      return 0, sp, [];
    }
    next, sp', taken := NewTable(k, pt, level, v, sp);
  }

  /** The table below the given level has been added, if it was not there. */
  ghost predicate OneBelow(sp: Space, sp': Space, v: nat, level: nat) {
    && sp'.mids.Keys == sp.mids.Keys + (if level == 2 then {v / 512 / 512} else {})
    && sp'.lows.Keys == sp.lows.Keys + (if level == 1 then {v / 512} else {})
  }

  lemma GrownBelow(sp: Space, v: nat, level: nat, f: nat)
    requires (level == 2 || level == 1) && !HasBelow(sp, v, level)
    ensures OneBelow(sp, Grown(sp, v, level, f), v, level)
    ensures 1 + Lack(Grown(sp, v, level, f), v, level - 1) == Lack(sp, v, level)
  {
  }

  /** Where there is a table below, nothing is needed. */
  lemma NoneBelow(sp: Space, v: nat, level: nat)
    requires (level == 2 || level == 1) && HasBelow(sp, v, level)
    ensures Lack(sp, v, level) == Lack(sp, v, level - 1) && OneBelow(sp, sp, v, level)
  {
  }

  lemma LiveEntry(mem: map<nat, Page>, free: seq<nat>, sp: Space, v: nat, level: nat, pt: nat)
    requires Lives(mem, free, sp) && v < MAXVPN && (level == 2 || level == 1) && Reached(sp, v, level, pt)
    ensures IsTable(mem, pt) && (mem[pt].ptes[Px(level, v)].v <==> HasBelow(sp, v, level)) && SameOutside(mem, mem, sp.tabs.Keys)
    ensures HasBelow(sp, v, level) ==> Reached(sp, v, level - 1, mem[pt].ptes[Px(level, v)].ppn) && mem[pt].ptes[Px(level, v)].ppn > 0
  {
    hide Rep, Reached, HasBelow, Px;
    WalkEntry(mem, sp, v, level, pt);
  }

  /** A table off the free list, cleared and entered in the table above. */
  method NewTable(k: Memory, pt: nat, level: nat, v: nat, ghost sp: Space) returns (next: nat, ghost sp': Space, ghost taken: seq<nat>)
    requires k.Valid() && Lives(k.mem, k.free, sp) && v < MAXVPN && (level == 2 || level == 1)
    requires Reached(sp, v, level, pt) && !HasBelow(sp, v, level)
    modifies k
    ensures k.Valid() && Lives(k.mem, k.free, sp') && Grew(sp, sp', taken)
    ensures old(k.free) == taken + k.free && SameOutside(old(k.mem), k.mem, sp'.tabs.Keys) && k.mem.Keys == old(k.mem.Keys)
    ensures next != 0 ==> Reached(sp', v, level - 1, next)
    ensures next == 0 ==> k.free == [] == taken && sp' == sp
    ensures next != 0 ==> |taken| + Lack(sp', v, level - 1) == Lack(sp, v, level) && OneBelow(sp, sp', v, level)
  {
    hide FreeOk, Reached, HasBelow, Grown, Lives, Grew, OneBelow, Lack;
    ghost var mem0, free0 := k.mem, k.free;
    next := k.Kalloc();
    if next == 0 {
      GrewNothing(sp);
      return 0, sp, [];
    }
    assert free0 == [next] + k.free;
    TableAdded(mem0, k.mem, k.free, sp, v, level, pt, next);
    GrownBelow(sp, v, level, next);
    FreeKept(k.mem, SetPte(k.mem[next := Zeros()], pt, Px(level, v), Ptr(next)), k.freelist, k.free);
    k.mem := k.mem[next := Zeros()];
    k.mem := SetPte(k.mem, pt, Px(level, v), Ptr(next));
    sp', taken := Grown(sp, v, level, next), [next];
  }

  lemma GrewNothing(sp: Space)
    ensures Grew(sp, sp, [])
  {
  }

  lemma TableAdded(mem0: map<nat, Page>, mem: map<nat, Page>, free: seq<nat>, sp: Space, v: nat, level: nat, pt: nat, f: nat)
    requires Lives(mem0, [f] + free, sp) && v < MAXVPN && (level == 2 || level == 1) && Reached(sp, v, level, pt) && !HasBelow(sp, v, level)
    requires f > 0 && f !in free && f in mem && mem == mem0[f := mem[f]]
    ensures IsTable(mem[f := Zeros()], pt) && pt !in free && pt != f
    ensures var mem', sp' := SetPte(mem[f := Zeros()], pt, Px(level, v), Ptr(f)), Grown(sp, v, level, f);
      Lives(mem', free, sp') && Grew(sp, sp', [f]) && Reached(sp', v, level - 1, f) && SameOutside(mem0, mem', sp'.tabs.Keys)
  {
    hide Rep;
    assert f in [f] + free;
    WalkEntry(mem0, sp, v, level, pt);
    WalkGrows(mem0, sp, v, level, pt, f);
    assert mem[f := Zeros()] == mem0[f := Zeros()];
    var sp' := Grown(sp, v, level, f);
    assert sp'.tabs.Keys == sp.tabs.Keys + {f};
    assert Elems([f]) == {f};
    assert pt in sp.tabs;
    forall g | g in sp'.tabs ensures g !in free {
      assert g != f ==> g !in [f] + free;
    }
  }

  /** Pointers to tables are not null, and a table hangs on the ones above. */
  lemma Reaches(mem: map<nat, Page>, sp: Space, v: nat)
    requires Rep(mem, sp)
    ensures v / 512 in sp.lows ==> v / 512 / 512 in sp.mids && sp.lows[v / 512] > 0
  {
  }

  // ---------------------------------------------------------------------------------------------
  // Mapping and unmapping
  // ---------------------------------------------------------------------------------------------

  /** n pages from v on, mapped to consecutive physical pages. */
  function MapRange(leaves: map<nat, Leaf>, v: nat, ppn: nat, n: nat, perm: nat): (r: map<nat, Leaf>) {
    if n == 0 then leaves else MapRange(leaves, v, ppn, n - 1, perm)[v + n - 1 := Leaf(ppn + n - 1, perm)]
  }

  lemma {:induction false} MapRangeAt(leaves: map<nat, Leaf>, v: nat, ppn: nat, n: nat, perm: nat, u: nat)
    ensures v <= u < v + n ==> u in MapRange(leaves, v, ppn, n, perm) && MapRange(leaves, v, ppn, n, perm)[u] == Leaf(ppn + u - v, perm)
    ensures !(v <= u < v + n) ==> (u in MapRange(leaves, v, ppn, n, perm) <==> u in leaves)
    ensures !(v <= u < v + n) && u in leaves ==> MapRange(leaves, v, ppn, n, perm)[u] == leaves[u]
  {
    if n > 0 {
      MapRangeAt(leaves, v, ppn, n - 1, perm, u);
    }
  }

  /** One round of mappages: false if walk finds no page for a table. */
  method MapOne(k: Memory, root: nat, v: nat, ppn: nat, perm: nat, ghost sp: Space)
      returns (ok: bool, ghost sp': Space, ghost taken: seq<nat>)
    requires k.Valid() && Lives(k.mem, k.free, sp) && root == sp.root && v < MAXVPN && v !in sp.leaves && perm != 0
    modifies k
    ensures k.Valid() && Lives(k.mem, k.free, sp') && sp'.root == root && sp'.tabs.Keys == sp.tabs.Keys + Elems(taken)
    ensures old(k.free) == taken + k.free && SameOutside(old(k.mem), k.mem, sp'.tabs.Keys) && k.mem.Keys == old(k.mem.Keys)
    ensures sp'.leaves == if ok then sp.leaves[v := Leaf(ppn, perm)] else sp.leaves
    ensures ok <==> |old(k.free)| >= Need(sp, v, v + 1)
    ensures ok ==> Paid(sp, sp', v, v + 1, |taken|)
    ensures !ok ==> k.free == []
  {
    hide Rep, FreeOk, Need, Paid;
    var pt;
    pt, sp', taken := Walk(k, root, v, true, sp);
    if pt == 0 {
      return false, sp', taken;
    }
    LowEntry(k.mem, sp', v);
    AddLeaf(k.mem, sp', v, Leaf(ppn, perm));
    LowIsTable(k.mem, sp', Low(v));
    FreeKept(k.mem, SetPte(k.mem, pt, Index0(v), Pte(true, ppn, perm)), k.freelist, k.free);
    k.mem := SetPte(k.mem, pt, Index0(v), Pte(true, ppn, perm));
    LeafPaid(sp, sp', v, |taken|, Leaf(ppn, perm));
    sp' := WithLeaf(sp', v, Leaf(ppn, perm));
    ok := true;
  }

  lemma LeafPaid(sp: Space, sp': Space, v: nat, n: nat, x: Leaf)
    requires Paid(sp, sp', v, v + 1, n)
    ensures Paid(sp, WithLeaf(sp', v, x), v, v + 1, n)
  {
  }

  lemma LowIsTable(mem: map<nat, Page>, sp: Space, l: nat)
    requires Rep(mem, sp) && l in sp.lows
    ensures sp.lows[l] in sp.tabs
  {
  }

  /** mappages.  Its panics, on a page mapped already and on no pages, are the preconditions; when it fails
      the pages mapped so far stay mapped. */
  method Mappages(k: Memory, root: nat, v: nat, n: nat, ppn: nat, perm: nat, ghost sp: Space)
    returns (r: int, ghost sp': Space, ghost taken: seq<nat>, ghost done: nat)
    requires k.Valid() && Lives(k.mem, k.free, sp) && root == sp.root && n > 0 && v + n <= MAXVPN && perm != 0
    requires forall u :: v <= u < v + n ==> u !in sp.leaves
    modifies k
    ensures k.Valid() && Lives(k.mem, k.free, sp') && sp'.root == root && sp'.tabs.Keys == sp.tabs.Keys + Elems(taken)
    ensures old(k.free) == taken + k.free && SameOutside(old(k.mem), k.mem, sp'.tabs.Keys) && k.mem.Keys == old(k.mem.Keys)
    ensures sp'.leaves == MapRange(sp.leaves, v, ppn, done, perm)
    ensures (r == 0 && done == n) || (r == -1 && done < n && k.free == [])
    ensures r == 0 <==> |old(k.free)| >= Need(sp, v, v + n)
    ensures r == 0 ==> Paid(sp, sp', v, v + n, |taken|)
  {
    hide Lives, FreeOk, Need, Paid;
    NothingPaid(sp, v);
    sp', taken, done := sp, [], 0;
    assert Elems([]) == {};
    var a := v;
    while true
      invariant v <= a < v + n && done == a - v && k.Valid() && Lives(k.mem, k.free, sp') && sp'.root == root
      invariant sp'.tabs.Keys == sp.tabs.Keys + Elems(taken) && old(k.free) == taken + k.free
      invariant SameOutside(old(k.mem), k.mem, sp'.tabs.Keys) && k.mem.Keys == old(k.mem.Keys)
      invariant sp'.leaves == MapRange(sp.leaves, v, ppn, done, perm)
      invariant Paid(sp, sp', v, a, |taken|)
      decreases v + n - a
    {
      Unaffordable(sp, sp', v, a, v + n, |taken|);
      ghost var s1 := sp';
      MapRangeAt(sp.leaves, v, ppn, done, perm, a);
      var ok;
      ghost var t2;
      ok, sp', t2 := MapOne(k, root, a, ppn + (a - v), perm, sp');
      assert Elems(taken + t2) == Elems(taken) + Elems(t2);
      taken := taken + t2;
      if !ok {
        return -1, sp', taken, done;
      }
      PaidMore(sp, s1, sp', v, a, a + 1, |taken| - |t2|, |t2|);
      done := done + 1;
      if a == v + n - 1 {
        break;
      }
      a := a + 1;
    }
    PaidPrice(sp, sp', v, v + n, |taken|);
    r := 0;
  }

  lemma PaidPrice(sp: Space, sp': Space, lo: nat, hi: nat, n: nat)
    requires Paid(sp, sp', lo, hi, n)
    ensures n == Need(sp, lo, hi)
  {
  }

  /** The pages from lo up to hi are mapped, each to a page of its own that is neither free nor a table. */
  ghost predicate Private(mem: map<nat, Page>, free: seq<nat>, sp: Space, lo: nat, hi: nat) {
    && (forall u :: lo <= u < hi ==> u in sp.leaves && OwnPage(mem, free, sp, sp.leaves[u].ppn))
    && (forall u, w :: lo <= u < hi && lo <= w < hi && u in sp.leaves && w in sp.leaves && sp.leaves[u].ppn == sp.leaves[w].ppn ==> u == w)
  }

  ghost predicate OwnPage(mem: map<nat, Page>, free: seq<nat>, sp: Space, f: nat) {
    f > 0 && f in mem && mem[f].Data? && f !in free && f !in sp.tabs
  }

  /** The mappings without those from lo up to hi. */
  ghost function Without(leaves: map<nat, Leaf>, lo: nat, hi: nat): (r: map<nat, Leaf>) {
    map u | u in leaves && !(lo <= u < hi) :: leaves[u]
  }

  /** The physical pages behind the virtual pages from lo up to hi. */
  ghost function Behind(leaves: map<nat, Leaf>, lo: nat, hi: nat): (s: set<nat>) {
    set u | u in leaves && lo <= u < hi :: leaves[u].ppn
  }

  /** What may be freed when page u is unmapped. */
  ghost predicate MayUnmap(mem: map<nat, Page>, free: seq<nat>, sp: Space, lo: nat, hi: nat, doFree: bool) {
    && (forall u :: lo <= u < hi ==> u in sp.leaves)
    && (doFree ==> Private(mem, free, sp, lo, hi))
  }

  /** One round of uvmunmap. */
  method UnmapOne(k: Memory, root: nat, a: nat, doFree: bool, ghost sp: Space, ghost hi: nat)
      returns (ghost sp': Space, ghost freed: seq<nat>)
    requires k.Valid() && Lives(k.mem, k.free, sp) && root == sp.root && a < hi <= MAXVPN && MayUnmap(k.mem, k.free, sp, a, hi, doFree)
    modifies k
    ensures k.Valid() && sp' == WithoutLeaf(sp, a) && Lives(k.mem, k.free, sp') && MayUnmap(k.mem, k.free, sp', a + 1, hi, doFree)
    ensures freed == (if doFree then [sp.leaves[a].ppn] else []) && k.free == freed + old(k.free)
    ensures SameOutside(old(k.mem), k.mem, sp.tabs.Keys + Elems(freed)) && k.mem.Keys == old(k.mem.Keys)
  {
    hide Rep, FreeOk;
    var pt;
    ghost var t: seq<nat>;
    LeafHasTable(k.mem, sp, a);
    pt, sp', t := Walk(k, root, a, false, sp);
    LowEntry(k.mem, sp, a);
    LowIsTable(k.mem, sp, Low(a));
    var pte := k.mem[pt].ptes[Index0(a)];
    assert pte.v && pte.perm != 0;
    ghost var mem0, free0 := k.mem, k.free;
    freed := [];
    if doFree {
      freed := [pte.ppn];
      FreedOne(k.mem, k.free, sp, a, hi);
      k.Kfree(pte.ppn);
      RepKept(mem0, k.mem, sp);
    }
    RemoveLeaf(k.mem, sp, a);
    FreeKept(k.mem, SetPte(k.mem, pt, Index0(a), NIL), k.freelist, k.free);
    hide SetPte;
    UnmapDone(mem0, free0, sp, a, hi, doFree, pt, k.mem, k.free);
    k.mem := SetPte(k.mem, pt, Index0(a), NIL);
    sp' := WithoutLeaf(sp, a);
  }

  lemma LeafHasTable(mem: map<nat, Page>, sp: Space, v: nat)
    requires Rep(mem, sp) && v in sp.leaves
    ensures Low(v) in sp.lows && sp.leaves[v].perm != 0
  {
  }

  lemma FreedOne(mem: map<nat, Page>, free: seq<nat>, sp: Space, a: nat, hi: nat)
    requires Private(mem, free, sp, a, hi) && a < hi
    ensures a in sp.leaves && OwnPage(mem, free, sp, sp.leaves[a].ppn)
  {
  }

  /** The pages that are still mapped are as private as before. */
  lemma UnmapDone(mem0: map<nat, Page>, free0: seq<nat>, sp: Space, a: nat, hi: nat, doFree: bool, pt: nat, mem1: map<nat, Page>,
                  free1: seq<nat>)
    requires a < hi && MayUnmap(mem0, free0, sp, a, hi, doFree) && a in sp.leaves && pt in sp.tabs && pt in mem0 && IsTable(mem1, pt)
    requires var f := sp.leaves[a].ppn;
      && (doFree ==> f in mem0 && f in mem1 && mem1 == mem0[f := mem1[f]] && free1 == [f] + free0)
      && (!doFree ==> mem1 == mem0 && free1 == free0)
    ensures var mem2 := SetPte(mem1, pt, Index0(a), NIL);
      && mem2.Keys == mem0.Keys && SameOutside(mem0, mem2, sp.tabs.Keys + Elems(if doFree then [sp.leaves[a].ppn] else []))
      && MayUnmap(mem2, free1, WithoutLeaf(sp, a), a + 1, hi, doFree)
  {
  }

  /** uvmunmap.  Its panics on a page that is not mapped are the precondition. */
  method Uvmunmap(k: Memory, root: nat, v: nat, n: nat, doFree: bool, ghost sp: Space) returns (ghost sp': Space, ghost freed: seq<nat>)
    requires k.Valid() && Lives(k.mem, k.free, sp) && root == sp.root && v + n <= MAXVPN && MayUnmap(k.mem, k.free, sp, v, v + n, doFree)
    modifies k
    ensures k.Valid() && Lives(k.mem, k.free, sp') && sp' == sp.(leaves := Without(sp.leaves, v, v + n))
    ensures k.free == freed + old(k.free) && SameOutside(old(k.mem), k.mem, sp.tabs.Keys + Elems(freed)) && k.mem.Keys == old(k.mem.Keys)
    ensures if doFree then |freed| == n && Elems(freed) == Behind(sp.leaves, v, v + n) else freed == []
  {
    hide Lives, FreeOk, MayUnmap;
    sp', freed := sp, [];
    UnmapStart(sp, v);
    var a := v;
    while a < v + n
      invariant v <= a <= v + n && k.Valid() && Lives(k.mem, k.free, sp') && sp' == sp.(leaves := Without(sp.leaves, v, a))
      invariant k.free == freed + old(k.free) && MayUnmap(k.mem, k.free, sp', a, v + n, doFree)
      invariant SameOutside(old(k.mem), k.mem, sp.tabs.Keys + Elems(freed)) && k.mem.Keys == old(k.mem.Keys)
      invariant if doFree then |freed| == a - v && Elems(freed) == Behind(sp.leaves, v, a) else freed == []
    {
      ghost var f2, was, mem1;
      UnmapHas(k.mem, k.free, sp', a, v + n, doFree);
      was, mem1 := sp', k.mem;
      sp', f2 := UnmapOne(k, root, a, doFree, sp', v + n);
      UnmapMore(sp, v, a, freed, f2);
      OutsideMore(old(k.mem), mem1, k.mem, sp.tabs.Keys, freed, f2);
      freed := f2 + freed;
      a := a + 1;
    }
  }

  lemma UnmapStart(sp: Space, v: nat)
    ensures sp == sp.(leaves := Without(sp.leaves, v, v)) && Elems([]) == {} && Behind(sp.leaves, v, v) == {}
  {
  }

  lemma UnmapHas(mem: map<nat, Page>, free: seq<nat>, sp: Space, a: nat, hi: nat, doFree: bool)
    requires MayUnmap(mem, free, sp, a, hi, doFree) && a < hi
    ensures a in sp.leaves
  {
  }

  lemma UnmapMore(sp: Space, v: nat, a: nat, freed: seq<nat>, f2: seq<nat>)
    requires v <= a && a in sp.leaves
    ensures WithoutLeaf(sp.(leaves := Without(sp.leaves, v, a)), a) == sp.(leaves := Without(sp.leaves, v, a + 1))
    ensures Elems(f2 + freed) == Elems(f2) + Elems(freed) && Elems([sp.leaves[a].ppn]) == {sp.leaves[a].ppn}
    ensures Behind(sp.leaves, v, a + 1) == Behind(sp.leaves, v, a) + {sp.leaves[a].ppn}
    ensures a in Without(sp.leaves, v, a) && Without(sp.leaves, v, a)[a] == sp.leaves[a]
  {
  }

  lemma OutsideMore(mem0: map<nat, Page>, mem1: map<nat, Page>, mem2: map<nat, Page>, tabs: set<nat>, freed: seq<nat>, f2: seq<nat>)
    requires SameOutside(mem0, mem1, tabs + Elems(freed)) && SameOutside(mem1, mem2, tabs + Elems(f2))
    ensures SameOutside(mem0, mem2, tabs + Elems(f2 + freed))
  {
  }

  // ---------------------------------------------------------------------------------------------
  // User memory
  // ---------------------------------------------------------------------------------------------

  const PTE_R: nat := 2
  const PTE_U: nat := 16

  function PgUp(sz: nat): (n: nat) {
    (sz + 4095) / 4096
  }

  /** User memory is the pages below n, each with a page of its own; above there are only the trapframe and
      the trampoline. */
  ghost predicate User(mem: map<nat, Page>, free: seq<nat>, sp: Space, n: nat) {
    Private(mem, free, sp, 0, n) && forall u :: u in sp.leaves ==> u < n || u >= TRAPFRAME
  }

  /** As many physical pages as there are virtual ones below n. */
  lemma {:induction false} PagesBehind(mem: map<nat, Page>, free: seq<nat>, sp: Space, n: nat) returns (s: set<nat>)
    requires Private(mem, free, sp, 0, n)
    ensures |s| == n && s <= mem.Keys && forall f :: f in s <==> exists u :: 0 <= u < n && u in sp.leaves && sp.leaves[u].ppn == f
  {
    if n == 0 {
      s := {};
    } else {
      var t := PagesBehind(mem, free, sp, n - 1);
      var f := sp.leaves[n - 1].ppn;
      assert f !in t;
      s := t + {f};
      assert OwnPage(mem, free, sp, f);
    }
  }

  /** Since every page of user memory has a physical page of its own, user memory stays far below the
      trapframe. */
  lemma UserBelowTrapframe(mem: map<nat, Page>, free: seq<nat>, sp: Space, n: nat)
    requires User(mem, free, sp, n) && |mem| <= NFRAMES
    ensures n <= NFRAMES && n < TRAPFRAME && n !in sp.leaves
  {
    var s := PagesBehind(mem, free, sp, n);
    SubsetSize(s, mem.Keys);
    assert |mem| == |mem.Keys|;
  }

  /** Pages and tables taken from the free list leave user memory as it was. */
  lemma UserKept(mem: map<nat, Page>, free: seq<nat>, sp: Space, n: nat, mem': map<nat, Page>, free': seq<nat>, sp': Space)
    requires User(mem, free, sp, n) && sp'.leaves == sp.leaves
    requires SameOutside(mem, mem', Elems(free) + sp.tabs.Keys)
    requires Elems(free') <= Elems(free) && sp'.tabs.Keys <= sp.tabs.Keys + Elems(free)
    ensures User(mem', free', sp', n)
  {
  }

  /** One more page, from the free list. */
  lemma UserMore(mem: map<nat, Page>, free: seq<nat>, sp: Space, n: nat, f: nat, perm: nat)
    requires User(mem, free, sp, n) && OwnPage(mem, free, sp, f) && n < TRAPFRAME
    requires forall u :: 0 <= u < n ==> u in sp.leaves && sp.leaves[u].ppn != f
    ensures User(mem, free, WithLeaf(sp, n, Leaf(f, perm)), n + 1)
  {
  }

  /** What a step that takes pages for tables may have changed. */
  ghost predicate Taken(mem: map<nat, Page>, free: seq<nat>, sp: Space, mem': map<nat, Page>, free': seq<nat>, sp': Space,
                        taken: seq<nat>) {
    && Lives(mem', free', sp') && sp'.root == sp.root && sp'.tabs.Keys == sp.tabs.Keys + Elems(taken)
    && SameOutside(mem, mem', Elems(free) + sp.tabs.Keys) && mem'.Keys == mem.Keys
    && Elems(taken) <= Elems(free) && Elems(free') <= Elems(free)
  }

  /** That, and as many tables have been added as pages were taken for them. */
  ghost predicate Took(mem: map<nat, Page>, free: seq<nat>, sp: Space, mem': map<nat, Page>, free': seq<nat>, sp': Space, taken: seq<nat>) {
    Taken(mem, free, sp, mem', free', sp', taken) && Added(sp, sp', taken)
  }

  /** As many tables have been added as pages were taken for them. */
  ghost predicate Added(sp: Space, sp': Space, taken: seq<nat>) {
    |sp'.tabs.Keys| == |sp.tabs.Keys| + |taken|
  }

  lemma {:induction false} DistinctSize(q: seq<nat>)
    requires forall i, j :: 0 <= i < j < |q| ==> q[i] != q[j]
    ensures |Elems(q)| == |q|
  {
    if q == [] {
      assert Elems(q) == {};
    } else {
      DistinctSize(q[1..]);
      assert Elems(q) == {q[0]} + Elems(q[1..]);
      assert q[0] !in q[1..];
    }
  }

  /** Tables that come off the free list are new to the page table. */
  lemma TabsMore(mem: map<nat, Page>, head: nat, free: seq<nat>, sp: Space, sp': Space, taken: seq<nat>, rest: seq<nat>)
    requires FreeOk(mem, head, free) && free == taken + rest && (forall f :: f in sp.tabs ==> f !in free)
    requires sp'.tabs.Keys == sp.tabs.Keys + Elems(taken)
    ensures Added(sp, sp', taken)
  {
    forall i, j | 0 <= i < j < |taken| ensures taken[i] != taken[j] {
      assert free[i] == taken[i] && free[j] == taken[j];
    }
    DistinctSize(taken);
    hide FreeOk;
    assert sp.tabs.Keys !! Elems(taken);
  }

  /** A page off the free list, filled, is mapped at n, the first page above user memory; on failure it goes
      back.  This is one round of uvmalloc and of uvmcopy. */
  method GrowOne(k: Memory, root: nat, n: nat, perm: nat, bytes: Bytes, ghost sp: Space)
      returns (ok: bool, ghost sp': Space, ghost taken: seq<nat>, ghost f: nat)
    requires k.Valid() && Lives(k.mem, k.free, sp) && root == sp.root && User(k.mem, k.free, sp, n) && |k.mem| <= NFRAMES && perm != 0
    modifies k
    ensures k.Valid() && Took(old(k.mem), old(k.free), sp, k.mem, k.free, sp', taken)
    ensures User(k.mem, k.free, sp', if ok then n + 1 else n)
    ensures sp'.leaves == if ok then sp.leaves[n := Leaf(f, perm)] else sp.leaves
    ensures ok ==> f in old(k.free) && f in k.mem && k.mem[f] == Data(bytes)
    ensures |old(k.free)| == |k.free| + |taken| + if ok then 1 else 0
    ensures ok <==> |old(k.free)| >= 1 + Need(sp, n, n + 1)
    ensures ok ==> Paid(sp, sp', n, n + 1, |taken|)
  {
    hide Rep, FreeOk, User, Private, Added, Need, Paid;
    UserBelowTrapframe(k.mem, k.free, sp, n);
    ghost var mem0, free0 := k.mem, k.free;
    var g := k.Kalloc();
    f := g;
    if g == 0 {
      TookNothing(mem0, free0, sp);
      return false, sp, [], 0;
    }
    assert free0 == [g] + k.free;
    FreeKept(k.mem, k.mem[g := Data(bytes)], k.freelist, k.free);
    k.mem := k.mem[g := Data(bytes)];
    PageTaken(mem0, free0, sp, n, g, k.mem, k.free);
    var r;
    ghost var mem1, free1, head1, done := k.mem, k.free, k.freelist, 0;
    r, sp', taken, done := Mappages(k, root, n, 1, g, perm, sp);
    TabsMore(mem1, head1, free1, sp, sp', taken, k.free);
    MapRangeOne(sp.leaves, n, g, perm);
    Grabbed(mem0, free0, sp, n, g, mem1, free1, k.mem, k.free, sp', taken, perm, bytes, done);
    if r != 0 {
      ghost var mem2, free2 := k.mem, k.free;
      k.Kfree(g);
      PutBack(mem0, free0, sp, n, g, mem2, free2, sp', taken, k.mem, k.free);
      return false, sp', taken, 0;
    }
    ok := true;
  }

  lemma TookNothing(mem: map<nat, Page>, free: seq<nat>, sp: Space)
    requires Lives(mem, free, sp)
    ensures Took(mem, free, sp, mem, free, sp, [])
  {
  }

  lemma MapRangeOne(leaves: map<nat, Leaf>, v: nat, ppn: nat, perm: nat)
    ensures MapRange(leaves, v, ppn, 0, perm) == leaves && MapRange(leaves, v, ppn, 1, perm) == leaves[v := Leaf(ppn, perm)]
  {
  }

  /** The page off the free list is in no one's hands. */
  lemma PageTaken(mem0: map<nat, Page>, free0: seq<nat>, sp: Space, n: nat, g: nat, mem1: map<nat, Page>, free1: seq<nat>)
    requires Lives(mem0, free0, sp) && User(mem0, free0, sp, n) && free0 == [g] + free1
    requires g in mem0 && g in mem1 && mem1 == mem0[g := mem1[g]]
    ensures Lives(mem1, free1, sp) && User(mem1, free1, sp, n) && g !in sp.tabs && SameOutside(mem0, mem1, {g})
    ensures forall u :: 0 <= u < n ==> u in sp.leaves && sp.leaves[u].ppn != g
    ensures Elems(free0) == {g} + Elems(free1)
  {
    assert g in free0;
    RepKept(mem0, mem1, sp);
    hide Rep;
    forall f | f in sp.tabs ensures f !in free1 {
      assert f !in [g] + free1;
    }
    assert Elems(free0) == {g} + Elems(free1);
    UserKept(mem0, free0, sp, n, mem1, free1, sp);
    forall u | 0 <= u < n ensures u in sp.leaves && sp.leaves[u].ppn != g {
      assert OwnPage(mem0, free0, sp, sp.leaves[u].ppn);
    }
  }

  /** After mappages: the page is mapped, or tables have been taken in vain. */
  lemma Grabbed(mem0: map<nat, Page>, free0: seq<nat>, sp: Space, n: nat, g: nat, mem1: map<nat, Page>, free1: seq<nat>,
                mem2: map<nat, Page>, free2: seq<nat>, sp': Space, taken: seq<nat>, perm: nat, bytes: Bytes, done: nat)
    requires free0 == [g] + free1 && g > 0 && g !in free1 && g in mem0 && mem1 == mem0[g := Data(bytes)] && g !in sp.tabs
    requires User(mem1, free1, sp, n) && n < TRAPFRAME && (forall u :: 0 <= u < n ==> u in sp.leaves && sp.leaves[u].ppn != g)
    requires Lives(mem2, free2, sp') && sp'.root == sp.root && sp'.tabs.Keys == sp.tabs.Keys + Elems(taken) && free1 == taken + free2
    requires SameOutside(mem1, mem2, sp'.tabs.Keys) && mem2.Keys == mem1.Keys && Added(sp, sp', taken)
    requires sp'.leaves == if done == 1 then sp.leaves[n := Leaf(g, perm)] else sp.leaves
    ensures Took(mem0, free0, sp, mem2, free2, sp', taken) && g !in sp'.tabs && g in mem2 && mem2[g] == Data(bytes) && g !in free2
    ensures User(mem2, free2, sp', if done == 1 then n + 1 else n)
  {
    hide Rep, User, Private, Added;
    assert Elems(free1) == Elems(taken) + Elems(free2) && Elems(free0) == {g} + Elems(free1);
    assert g !in Elems(free1);
    var sp1 := sp'.(leaves := sp.leaves);
    UserKept(mem1, free1, sp, n, mem2, free2, sp1);
    if done == 1 {
      assert OwnPage(mem2, free2, sp1, g);
      UserMore(mem2, free2, sp1, n, g, perm);
      assert WithLeaf(sp1, n, Leaf(g, perm)) == sp';
    } else {
      assert sp1 == sp';
    }
  }

  /** The page goes back to the free list. */
  lemma PutBack(mem0: map<nat, Page>, free0: seq<nat>, sp: Space, n: nat, g: nat, mem2: map<nat, Page>, free2: seq<nat>,
                sp': Space, taken: seq<nat>,
                mem3: map<nat, Page>, free3: seq<nat>)
    requires Took(mem0, free0, sp, mem2, free2, sp', taken) && User(mem2, free2, sp', n) && g !in sp'.tabs && g in free0 && g in mem2
    requires free3 == [g] + free2 && g in mem3 && mem3 == mem2[g := mem3[g]]
    requires forall u :: 0 <= u < n && u in sp'.leaves ==> sp'.leaves[u].ppn != g
    ensures Took(mem0, free0, sp, mem3, free3, sp', taken) && User(mem3, free3, sp', n)
  {
    hide Added, User;
    PutBackUser(sp', n, g, mem2, free2, mem3, free3);
    RepKept(mem2, mem3, sp');
    hide Rep;
    assert Elems(free3) == {g} + Elems(free2);
    forall f | f in sp'.tabs ensures f !in free3 {
    }
  }

  lemma PutBackUser(sp: Space, n: nat, g: nat, mem2: map<nat, Page>, free2: seq<nat>, mem3: map<nat, Page>, free3: seq<nat>)
    requires User(mem2, free2, sp, n) && g in mem2
    requires free3 == [g] + free2 && g in mem3 && mem3 == mem2[g := mem3[g]]
    requires forall u :: 0 <= u < n && u in sp.leaves ==> sp.leaves[u].ppn != g
    ensures User(mem3, free3, sp, n)
  {
    forall u | 0 <= u < n ensures u in sp.leaves && OwnPage(mem3, free3, sp, sp.leaves[u].ppn) {
      assert OwnPage(mem2, free2, sp, sp.leaves[u].ppn);
    }
  }

  /** uvmdealloc. */
  method Uvmdealloc(k: Memory, root: nat, oldsz: nat, newsz: nat, ghost sp: Space) returns (r: nat, ghost sp': Space, ghost freed: seq<nat>)
    requires k.Valid() && Lives(k.mem, k.free, sp) && root == sp.root && User(k.mem, k.free, sp, PgUp(oldsz)) && |k.mem| <= NFRAMES
    modifies k
    ensures r == if newsz >= oldsz then oldsz else newsz
    ensures k.Valid() && Lives(k.mem, k.free, sp') && sp' == sp.(leaves := Without(sp.leaves, PgUp(r), PgUp(oldsz)))
    ensures User(k.mem, k.free, sp', PgUp(r))
    ensures k.free == freed + old(k.free) && Elems(freed) == Behind(sp.leaves, PgUp(r), PgUp(oldsz)) && |freed| == PgUp(oldsz) - PgUp(r)
    ensures SameOutside(old(k.mem), k.mem, sp.tabs.Keys + Elems(freed)) && k.mem.Keys == old(k.mem.Keys)
  {
    hide Lives, FreeOk, User, MayUnmap, PgUp, Behind, Without;
    r := if newsz >= oldsz then oldsz else newsz;
    PgUpMonotone(r, oldsz);
    UnmapStart(sp, PgUp(oldsz));
    sp', freed := sp, [];
    UserBelowTrapframe(k.mem, k.free, sp, PgUp(oldsz));
    if newsz < oldsz && PgUp(newsz) < PgUp(oldsz) {
      var npages := PgUp(oldsz) - PgUp(newsz);
      UserUnmap(k.mem, k.free, sp, PgUp(newsz), PgUp(oldsz));
      ghost var mem0, free0 := k.mem, k.free;
      sp', freed := Uvmunmap(k, root, PgUp(newsz), npages, true, sp);
      UserLess(mem0, free0, sp, PgUp(newsz), PgUp(oldsz), k.mem, k.free, freed);
    }
  }

  lemma PgUpMonotone(a: nat, b: nat)
    requires a <= b
    ensures PgUp(a) <= PgUp(b)
  {
  }

  lemma UserUnmap(mem: map<nat, Page>, free: seq<nat>, sp: Space, lo: nat, hi: nat)
    requires User(mem, free, sp, hi) && lo <= hi
    ensures MayUnmap(mem, free, sp, lo, hi, true)
  {
  }

  lemma UserLess(mem: map<nat, Page>, free: seq<nat>, sp: Space, lo: nat, hi: nat, mem': map<nat, Page>, free': seq<nat>, freed: seq<nat>)
    requires User(mem, free, sp, hi) && lo <= hi && free' == freed + free && Elems(freed) == Behind(sp.leaves, lo, hi)
    requires SameOutside(mem, mem', sp.tabs.Keys + Elems(freed))
    ensures User(mem', free', sp.(leaves := Without(sp.leaves, lo, hi)), lo)
  {
  }

  // ---------------------------------------------------------------------------------------------
  // Growing
  // ---------------------------------------------------------------------------------------------

  lemma AddedMore(s0: Space, s1: Space, t1: seq<nat>, s2: Space, t2: seq<nat>)
    requires Added(s0, s1, t1) && Added(s1, s2, t2)
    ensures Added(s0, s2, t1 + t2)
  {
  }

  lemma TakenMore(m0: map<nat, Page>, f0: seq<nat>, s0: Space, m1: map<nat, Page>, f1: seq<nat>, s1: Space, t1: seq<nat>,
                 m2: map<nat, Page>, f2: seq<nat>, s2: Space, t2: seq<nat>)
    requires Taken(m0, f0, s0, m1, f1, s1, t1) && Taken(m1, f1, s1, m2, f2, s2, t2)
    ensures Taken(m0, f0, s0, m2, f2, s2, t1 + t2)
  {
    hide Lives;
  }

  lemma TookMore(m0: map<nat, Page>, f0: seq<nat>, s0: Space, m1: map<nat, Page>, f1: seq<nat>, s1: Space, t1: seq<nat>,
                 m2: map<nat, Page>, f2: seq<nat>, s2: Space, t2: seq<nat>)
    requires Took(m0, f0, s0, m1, f1, s1, t1) && Took(m1, f1, s1, m2, f2, s2, t2)
    ensures Took(m0, f0, s0, m2, f2, s2, t1 + t2)
  {
    hide Added, Taken;
    TakenMore(m0, f0, s0, m1, f1, s1, t1, m2, f2, s2, t2);
    AddedMore(s0, s1, t1, s2, t2);
  }

  /** The pages from lo up to hi are new: they come from the free list that there was, hold these bytes, and
      have these flags. */
  ghost predicate Fresh(mem: map<nat, Page>, free0: seq<nat>, leaves: map<nat, Leaf>, lo: nat, hi: nat, perm: nat, bytes: Bytes) {
    forall u :: lo <= u < hi ==>
      u in leaves && leaves[u].perm == perm && leaves[u].ppn in free0 && leaves[u].ppn in mem && mem[leaves[u].ppn] == Data(bytes)
  }

  /** uvmalloc: ok says whether there was memory; if not, user memory is as it was, except that pages taken
      for tables stay with the page table. */
  method Uvmalloc(k: Memory, root: nat, oldsz: nat, newsz: nat, xperm: nat, ghost sp: Space)
      returns (r: nat, ghost ok: bool, ghost sp': Space, ghost tk: seq<nat>)
    requires k.Valid() && Lives(k.mem, k.free, sp) && root == sp.root && User(k.mem, k.free, sp, PgUp(oldsz)) && |k.mem| <= NFRAMES
    modifies k
    ensures k.Valid() && Took(old(k.mem), old(k.free), sp, k.mem, k.free, sp', tk)
    ensures r == if newsz < oldsz then oldsz else if ok then newsz else 0
    ensures newsz < oldsz ==> sp' == sp && unchanged(k)
    ensures newsz >= oldsz ==> User(k.mem, k.free, sp', PgUp(if ok then newsz else oldsz))
    ensures newsz >= oldsz && ok ==> Without(sp'.leaves, PgUp(oldsz), PgUp(newsz)) == sp.leaves
    ensures newsz >= oldsz && ok ==> Fresh(k.mem, old(k.free), sp'.leaves, PgUp(oldsz), PgUp(newsz), PTE_R + PTE_U + xperm, Junk(0))
    ensures newsz >= oldsz && ok ==> |old(k.free)| == |k.free| + |tk| + PgUp(newsz) - PgUp(oldsz)
    ensures newsz >= oldsz && !ok ==> sp'.leaves == sp.leaves && |old(k.free)| == |k.free| + |tk|
    ensures newsz >= oldsz ==>
      (ok <==> |old(k.free)| >= PgUp(newsz) - PgUp(oldsz) + Need(sp, PgUp(oldsz), PgUp(newsz)))
    ensures newsz >= oldsz && ok ==> Paid(sp, sp', PgUp(oldsz), PgUp(newsz), |tk|)
  {
    hide Lives, FreeOk, User, Took, Fresh, Need, Paid;
    sp', tk, ok := sp, [], true;
    TookNothing(k.mem, k.free, sp);
    if newsz < oldsz {
      return oldsz, true, sp', tk;
    }
    PgUpMonotone(oldsz, newsz);
    var up0 := PgUp(oldsz);
    var a := up0;
    GrowStart(k.mem, k.free, sp.leaves, up0, PTE_R + PTE_U + xperm, Junk(0));
    NothingPaid(sp, up0);
    while a * 4096 < newsz
      invariant up0 <= a <= PgUp(newsz) && k.Valid() && User(k.mem, k.free, sp', a) && k.mem.Keys == old(k.mem.Keys)
      invariant Took(old(k.mem), old(k.free), sp, k.mem, k.free, sp', tk)
      invariant Without(sp'.leaves, up0, a) == sp.leaves && |old(k.free)| == |k.free| + |tk| + a - up0
      invariant Fresh(k.mem, old(k.free), sp'.leaves, up0, a, PTE_R + PTE_U + xperm, Junk(0))
      invariant Paid(sp, sp', up0, a, |tk|)
      decreases PgUp(newsz) - a
    {
      Unaffordable(sp, sp', up0, a, PgUp(newsz), |tk|);
      ghost var m1, f1, s1 := k.mem, k.free, sp';
      TookParts(old(k.mem), old(k.free), sp, m1, f1, s1, tk);
      SameSize(old(k.mem), k.mem);
      UserBelowTrapframe(k.mem, k.free, sp', a);
      var grown;
      ghost var t2, f;
      grown, sp', t2, f := GrowOne(k, root, a, PTE_R + PTE_U + xperm, Junk(0), sp');
      hide PgUp, Without;
      TookMore(old(k.mem), old(k.free), sp, m1, f1, s1, tk, k.mem, k.free, sp', t2);
      TookParts(m1, f1, s1, k.mem, k.free, sp', t2);
      GrowMore(m1, f1, s1, k.mem, k.free, sp', t2, old(k.free), sp.leaves, up0, a, f, grown, PTE_R + PTE_U + xperm, Junk(0));
      tk := tk + t2;
      if !grown {
        SameSize(m1, k.mem);
        sp' := GiveBack(k, root, up0, a, PTE_R + PTE_U + xperm, sp', old(k.mem), old(k.free), sp, tk);
        return 0, false, sp', tk;
      }
      PaidMore(sp, s1, sp', up0, a, a + 1, |tk| - |t2|, |t2|);
      a := a + 1;
    }
    assert a == PgUp(newsz);
    PaidPrice(sp, sp', up0, a, |tk|);
    r := newsz;
  }

  /** uvmalloc has run out of memory: uvmdealloc takes user memory back to where it was. */
  method GiveBack(k: Memory, root: nat, up0: nat, a: nat, perm: nat, ghost sp: Space, ghost m0: map<nat, Page>,
                  ghost f0: seq<nat>, ghost s0: Space, ghost tk: seq<nat>)
    returns (ghost sp': Space)
    requires k.Valid() && Lives(k.mem, k.free, sp) && root == sp.root && User(k.mem, k.free, sp, a) && |k.mem| <= NFRAMES && up0 <= a
    requires Took(m0, f0, s0, k.mem, k.free, sp, tk) && Without(sp.leaves, up0, a) == s0.leaves && |f0| == |k.free| + |tk| + a - up0
    requires Fresh(k.mem, f0, sp.leaves, up0, a, perm, Junk(0))
    modifies k
    ensures k.Valid() && Took(m0, f0, s0, k.mem, k.free, sp', tk) && sp'.leaves == s0.leaves && User(k.mem, k.free, sp', up0)
    ensures |f0| == |k.free| + |tk|
  {
    hide Lives, FreeOk, User, Took, Fresh;
    ghost var m2, f2 := k.mem, k.free;
    PgUpExact(a);
    PgUpExact(up0);
    var back;
    ghost var freed;
    back, sp', freed := Uvmdealloc(k, root, a * 4096, up0 * 4096, sp);
    Undone(m0, f0, s0, m2, f2, sp, tk, k.mem, k.free, sp', freed, up0, a, perm, Junk(0));
  }

  lemma TookParts(m0: map<nat, Page>, f0: seq<nat>, s0: Space, m1: map<nat, Page>, f1: seq<nat>, s1: Space, t: seq<nat>)
    requires Took(m0, f0, s0, m1, f1, s1, t)
    ensures Lives(m1, f1, s1) && s1.root == s0.root && m1.Keys == m0.Keys && Elems(f1) <= Elems(f0)
  {
  }

  lemma SameSize(m: map<nat, Page>, m': map<nat, Page>)
    requires m.Keys == m'.Keys
    ensures |m| == |m'|
  {
  }

  lemma PgUpExact(a: nat)
    ensures PgUp(a * 4096) == a
  {
  }

  lemma GrowStart(mem: map<nat, Page>, free: seq<nat>, leaves: map<nat, Leaf>, up0: nat, perm: nat, bytes: Bytes)
    ensures Without(leaves, up0, up0) == leaves && Fresh(mem, free, leaves, up0, up0, perm, bytes)
  {
  }

  /** Taking pages for another purpose leaves a private page as it was. */
  lemma PageKept(m1: map<nat, Page>, f1: seq<nat>, s1: Space, m2: map<nat, Page>, f: nat)
    requires OwnPage(m1, f1, s1, f) && SameOutside(m1, m2, Elems(f1) + s1.tabs.Keys)
    ensures f in m2 && m2[f] == m1[f] && f !in Elems(f1)
  {
  }

  lemma UserPage(mem: map<nat, Page>, free: seq<nat>, sp: Space, n: nat, u: nat)
    requires User(mem, free, sp, n) && u < n
    ensures u in sp.leaves && OwnPage(mem, free, sp, sp.leaves[u].ppn)
  {
  }

  /** The pages mapped before keep what they hold, and the new one is as it should be. */
  lemma GrowMore(m1: map<nat, Page>, f1: seq<nat>, s1: Space, m2: map<nat, Page>, f2: seq<nat>, s2: Space, t2: seq<nat>,
                 free0: seq<nat>, leaves0: map<nat, Leaf>, up0: nat, a: nat, f: nat, grown: bool, perm: nat, bytes: Bytes)
    requires Took(m1, f1, s1, m2, f2, s2, t2) && User(m1, f1, s1, a) && up0 <= a && a !in s1.leaves && Elems(f1) <= Elems(free0)
    requires Without(s1.leaves, up0, a) == leaves0 && Fresh(m1, free0, s1.leaves, up0, a, perm, bytes)
    requires s2.leaves == if grown then s1.leaves[a := Leaf(f, perm)] else s1.leaves
    requires grown ==> f in f1 && f in m2 && m2[f] == Data(bytes)
    ensures Without(s2.leaves, up0, if grown then a + 1 else a) == leaves0
    ensures Fresh(m2, free0, s2.leaves, up0, if grown then a + 1 else a, perm, bytes)
  {
    hide Lives, User, OwnPage, Added;
    assert grown ==> f in Elems(f1);
    forall u | up0 <= u < a
      ensures u in s2.leaves && s2.leaves[u] == s1.leaves[u] && s1.leaves[u].ppn in m2 && m2[s1.leaves[u].ppn] == m1[s1.leaves[u].ppn]
    {
      UserPage(m1, f1, s1, a, u);
      PageKept(m1, f1, s1, m2, s1.leaves[u].ppn);
    }
  }

  /** Undoing the growth gives every page back that was not taken for a table. */
  lemma Undone(m0: map<nat, Page>, f0: seq<nat>, s0: Space, m2: map<nat, Page>, f2: seq<nat>, s2: Space, tk: seq<nat>,
               m3: map<nat, Page>, f3: seq<nat>, s3: Space, freed: seq<nat>, up0: nat, a: nat, perm: nat, bytes: Bytes)
    requires Took(m0, f0, s0, m2, f2, s2, tk) && Fresh(m2, f0, s2.leaves, up0, a, perm, bytes) && Without(s2.leaves, up0, a) == s0.leaves
    requires s3 == s2.(leaves := Without(s2.leaves, up0, a)) && Lives(m3, f3, s3)
    requires f3 == freed + f2 && Elems(freed) == Behind(s2.leaves, up0, a)
    requires SameOutside(m2, m3, s2.tabs.Keys + Elems(freed)) && m3.Keys == m2.Keys
    ensures Took(m0, f0, s0, m3, f3, s3, tk) && s3.leaves == s0.leaves
  {
    hide Lives, Took, Added;
    assert Elems(freed) <= Elems(f0);
    UndoTook(m0, f0, s0, m2, f2, s2, tk, m3, f3, s3, freed);
  }

  /** Pages that came off the free list go back to it. */
  lemma AddedSame(s0: Space, s1: Space, s2: Space, t: seq<nat>)
    requires Added(s0, s1, t) && s2.tabs == s1.tabs
    ensures Added(s0, s2, t)
  {
  }

  lemma UndoTook(m0: map<nat, Page>, f0: seq<nat>, s0: Space, m2: map<nat, Page>, f2: seq<nat>, s2: Space, tk: seq<nat>,
                 m3: map<nat, Page>, f3: seq<nat>, s3: Space, freed: seq<nat>)
    requires Took(m0, f0, s0, m2, f2, s2, tk) && s3.root == s2.root && s3.tabs == s2.tabs && Lives(m3, f3, s3)
    requires f3 == freed + f2 && Elems(freed) <= Elems(f0) && SameOutside(m2, m3, s2.tabs.Keys + Elems(freed)) && m3.Keys == m2.Keys
    ensures Took(m0, f0, s0, m3, f3, s3, tk)
  {
    hide Added;
    AddedSame(s0, s2, s3, tk);
  }

  // ---------------------------------------------------------------------------------------------
  // Copying
  // ---------------------------------------------------------------------------------------------

  /** Two page tables have no page in common, and the one's user pages are not the other's tables. */
  ghost predicate Separate(a: Space, b: Space, n: nat) {
    && (forall f :: f in a.tabs ==> f !in b.tabs)
    && (forall u :: 0 <= u < n && u in a.leaves ==> a.leaves[u].ppn !in b.tabs)
  }

  /** The first i pages of the child hold the same bytes with the same flags as the parent's, each in a page
      off the free list that there was. */
  ghost predicate Copied(mem0: map<nat, Page>, free0: seq<nat>, mem: map<nat, Page>, a: Space, b: Space, i: nat) {
    forall u :: 0 <= u < i ==> (u in a.leaves && u in b.leaves && b.leaves[u].perm == a.leaves[u].perm && b.leaves[u].ppn in free0
      && a.leaves[u].ppn in mem0 && b.leaves[u].ppn in mem && mem[b.leaves[u].ppn] == mem0[a.leaves[u].ppn])
  }

  /** uvmcopy, into a page table without user memory. */
  method Uvmcopy(k: Memory, oldroot: nat, newroot: nat, sz: nat, ghost a: Space, ghost b: Space)
      returns (r: int, ghost b': Space, ghost tk: seq<nat>)
    requires k.Valid() && Lives(k.mem, k.free, a) && Lives(k.mem, k.free, b) && oldroot == a.root && newroot == b.root && |k.mem| <= NFRAMES
    requires User(k.mem, k.free, a, PgUp(sz)) && User(k.mem, k.free, b, 0) && Separate(a, b, PgUp(sz))
    modifies k
    ensures k.Valid() && Lives(k.mem, k.free, a) && User(k.mem, k.free, a, PgUp(sz))
    ensures Took(old(k.mem), old(k.free), b, k.mem, k.free, b', tk)
    ensures SamePages(old(k.mem), k.mem, a, PgUp(sz))
    ensures r == 0 || r == -1
    ensures r == 0 ==> User(k.mem, k.free, b', PgUp(sz)) && Copied(old(k.mem), old(k.free), k.mem, a, b', PgUp(sz))
    ensures r == 0 ==> |old(k.free)| == |k.free| + |tk| + PgUp(sz) && Without(b'.leaves, 0, PgUp(sz)) == b.leaves
    ensures r == -1 ==> b'.leaves == b.leaves && User(k.mem, k.free, b', 0) && |old(k.free)| == |k.free| + |tk|
    ensures Separate(a, b', PgUp(sz))
    ensures r == 0 <==> |old(k.free)| >= PgUp(sz) + Need(b, 0, PgUp(sz))
  {
    hide Lives, FreeOk, User, Took, Copied, Separate, Without, SameOutside, SamePages, Need, Paid;
    NothingPaid(b, 0);
    ghost var mem0, free0, n := k.mem, k.free, PgUp(sz);
    b', tk := b, [];
    TookNothing(k.mem, k.free, b);
    CopyStart(mem0, free0, k.mem, a, b, n);
    var i := 0;
    while i * 4096 < sz
      invariant 0 <= i <= n && k.Valid() && Lives(k.mem, k.free, a) && User(k.mem, k.free, a, n)
      invariant User(k.mem, k.free, b', i) && Separate(a, b', n)
      invariant Took(mem0, free0, b, k.mem, k.free, b', tk) && k.mem.Keys == mem0.Keys && |free0| == |k.free| + |tk| + i
      invariant Copied(mem0, free0, k.mem, a, b', i) && SamePages(mem0, k.mem, a, n) && Without(b'.leaves, 0, i) == b.leaves
      invariant Paid(b, b', 0, i, |tk|)
      decreases n - i
    {
      Unaffordable(b, b', 0, i, n, |tk|);
      TookParts(mem0, free0, b, k.mem, k.free, b', tk);
      SameSize(mem0, k.mem);
      ghost var m1, f1, b1 := k.mem, k.free, b';
      var perm, bytes := ReadPage(k, oldroot, i, a, n);
      UserBelowTrapframe(k.mem, k.free, b', i);
      var grown;
      ghost var t2, f;
      grown, b', t2, f := GrowOne(k, newroot, i, perm, bytes, b');
      TookMore(mem0, free0, b, m1, f1, b1, tk, k.mem, k.free, b', t2);
      TookParts(m1, f1, b1, k.mem, k.free, b', t2);
      OtherKept(m1, f1, b1, k.mem, k.free, b', t2, a, n);
      CopyMore(mem0, free0, m1, f1, b1, k.mem, k.free, b', t2, a, b.leaves, n, i, f, grown, perm, bytes);
      tk := tk + t2;
      if !grown {
        SameSize(m1, k.mem);
        b' := CopyBack(k, newroot, i, b', mem0, free0, b, tk, a, n);
        return -1, b', tk;
      }
      PaidMore(b, b1, b', 0, i, i + 1, |tk| - |t2|, |t2|);
      i := i + 1;
    }
    assert i == n;
    PaidPrice(b, b', 0, n, |tk|);
    r := 0;
  }

  /** uvmcopy has run out of memory: the pages copied so far go back. */
  method CopyBack(k: Memory, root: nat, i: nat, ghost b2: Space, ghost mem0: map<nat, Page>, ghost free0: seq<nat>,
                  ghost b: Space, ghost tk: seq<nat>,
                  ghost a: Space, ghost n: nat)
    returns (ghost b': Space)
    requires k.Valid() && Lives(k.mem, k.free, a) && Lives(k.mem, k.free, b2) && root == b2.root && |k.mem| <= NFRAMES && i <= n
    requires User(k.mem, k.free, a, n) && User(k.mem, k.free, b2, i) && Separate(a, b2, n)
    requires Took(mem0, free0, b, k.mem, k.free, b2, tk) && |free0| == |k.free| + |tk| + i && k.mem.Keys == mem0.Keys
    requires Lives(mem0, free0, a) && User(mem0, free0, a, n)
    requires Copied(mem0, free0, k.mem, a, b2, i) && SamePages(mem0, k.mem, a, n) && Without(b2.leaves, 0, i) == b.leaves
    modifies k
    ensures k.Valid() && Lives(k.mem, k.free, a) && User(k.mem, k.free, a, n) && Took(mem0, free0, b, k.mem, k.free, b', tk)
    ensures SamePages(mem0, k.mem, a, n) && b'.leaves == b.leaves && User(k.mem, k.free, b', 0) && |free0| == |k.free| + |tk|
    ensures Separate(a, b', n)
  {
    hide Lives, FreeOk, User, Took, Copied, Separate, SamePages, MayUnmap, Without, Behind, Elems, SameOutside;
    ghost var m2, f2 := k.mem, k.free;
    UserUnmap(k.mem, k.free, b2, 0, i);
    ghost var freed;
    UserBelowTrapframe(k.mem, k.free, b2, i);
    b', freed := Uvmunmap(k, root, 0, i, true, b2);
    UserLess(m2, f2, b2, 0, i, k.mem, k.free, freed);
    CopyUndone(mem0, free0, b, m2, f2, b2, tk, k.mem, k.free, b', freed, a, n, i);
    SeparateSame(a, b2, b', n);
  }

  lemma SeparateSame(a: Space, b: Space, b': Space, n: nat)
    requires Separate(a, b, n) && b'.tabs == b.tabs
    ensures Separate(a, b', n)
  {
  }

  /** walk in the parent's page table, for a page that user memory has. */
  method ReadPage(k: Memory, root: nat, i: nat, ghost a: Space, ghost n: nat) returns (perm: nat, bytes: Bytes)
    requires k.Valid() && Lives(k.mem, k.free, a) && root == a.root && User(k.mem, k.free, a, n) && i < n && |k.mem| <= NFRAMES
    modifies k
    ensures unchanged(k) && i in a.leaves && perm == a.leaves[i].perm && perm != 0
    ensures a.leaves[i].ppn in k.mem && k.mem[a.leaves[i].ppn] == Data(bytes)
  {
    UserBelowTrapframe(k.mem, k.free, a, n);
    assert OwnPage(k.mem, k.free, a, a.leaves[i].ppn);
    hide FreeOk, User;
    LeafHasTable(k.mem, a, i);
    LowEntry(k.mem, a, i);
    hide Rep;
    var pt;
    ghost var s1, t1;
    pt, s1, t1 := Walk(k, root, i, false, a);
    var pte := k.mem[pt].ptes[Index0(i)];
    perm, bytes := pte.perm, k.mem[pte.ppn].bytes;
  }

  ghost predicate SamePages(mem0: map<nat, Page>, mem: map<nat, Page>, a: Space, n: nat) {
    forall u :: 0 <= u < n && u in a.leaves ==>
      a.leaves[u].ppn in mem && a.leaves[u].ppn in mem0 && mem[a.leaves[u].ppn] == mem0[a.leaves[u].ppn]
  }

  lemma CopyStart(mem0: map<nat, Page>, free0: seq<nat>, mem: map<nat, Page>, a: Space, b: Space, n: nat)
    requires mem == mem0 && User(mem, free0, a, n)
    ensures Copied(mem0, free0, mem, a, b, 0) && SamePages(mem0, mem, a, n) && Without(b.leaves, 0, 0) == b.leaves
  {
  }

  /** A change of memory outside an address space, after which none of its pages is free. */
  lemma SpaceKept(m1: map<nat, Page>, f1: seq<nat>, m2: map<nat, Page>, f2: seq<nat>, a: Space, n: nat, touched: set<nat>)
    requires Lives(m1, f1, a) && User(m1, f1, a, n) && SameOutside(m1, m2, touched)
    requires forall f :: f in a.tabs ==> f !in touched && f !in Elems(f2)
    requires forall u :: 0 <= u < n && u in a.leaves ==> a.leaves[u].ppn !in touched && a.leaves[u].ppn !in Elems(f2)
    ensures Lives(m2, f2, a) && User(m2, f2, a, n) && SamePages(m1, m2, a, n)
  {
    RepKept(m1, m2, a);
    hide Rep;
    forall u | 0 <= u < n ensures u in a.leaves && OwnPage(m2, f2, a, a.leaves[u].ppn) && a.leaves[u].ppn in m1
      && m2[a.leaves[u].ppn] == m1[a.leaves[u].ppn] {
      assert OwnPage(m1, f1, a, a.leaves[u].ppn);
    }
  }

  lemma NoneFree(mem: map<nat, Page>, free: seq<nat>, a: Space, n: nat)
    requires Lives(mem, free, a) && User(mem, free, a, n)
    ensures forall f :: f in a.tabs ==> f !in Elems(free)
    ensures forall u :: 0 <= u < n && u in a.leaves ==> a.leaves[u].ppn !in Elems(free)
  {
  }

  /** What is done to one page table leaves another alone. */
  lemma OtherKept(m1: map<nat, Page>, f1: seq<nat>, b1: Space, m2: map<nat, Page>, f2: seq<nat>, b2: Space, t2: seq<nat>, a: Space, n: nat)
    requires Took(m1, f1, b1, m2, f2, b2, t2) && Lives(m1, f1, a) && User(m1, f1, a, n) && Separate(a, b1, n)
    ensures Lives(m2, f2, a) && User(m2, f2, a, n) && Separate(a, b2, n) && SamePages(m1, m2, a, n)
  {
    hide Added;
    NoneFree(m1, f1, a, n);
    hide User, Lives;
    SpaceKept(m1, f1, m2, f2, a, n, Elems(f1) + b1.tabs.Keys);
  }

  lemma CopyMore(mem0: map<nat, Page>, free0: seq<nat>, m1: map<nat, Page>, f1: seq<nat>, b1: Space, m2: map<nat, Page>,
                 f2: seq<nat>, b2: Space, t2: seq<nat>,
                 a: Space, leaves0: map<nat, Leaf>, n: nat, i: nat, f: nat, grown: bool, perm: nat, bytes: Bytes)
    requires Took(m1, f1, b1, m2, f2, b2, t2) && User(m1, f1, b1, i) && i < n && i !in b1.leaves && Elems(f1) <= Elems(free0)
    requires Copied(mem0, free0, m1, a, b1, i) && SamePages(mem0, m1, a, n)
    requires SamePages(m1, m2, a, n) && Without(b1.leaves, 0, i) == leaves0
    requires i in a.leaves && perm == a.leaves[i].perm && a.leaves[i].ppn in m1 && m1[a.leaves[i].ppn] == Data(bytes)
    requires b2.leaves == if grown then b1.leaves[i := Leaf(f, perm)] else b1.leaves
    requires grown ==> f in f1 && f in m2 && m2[f] == Data(bytes)
    ensures Copied(mem0, free0, m2, a, b2, if grown then i + 1 else i) && SamePages(mem0, m2, a, n)
    ensures Without(b2.leaves, 0, if grown then i + 1 else i) == leaves0
  {
    hide Lives, User, OwnPage, Added;
    assert grown ==> f in Elems(f1);
    forall u | 0 <= u < i
      ensures u in b2.leaves && b2.leaves[u] == b1.leaves[u] && b1.leaves[u].ppn in m2 && m2[b1.leaves[u].ppn] == m1[b1.leaves[u].ppn]
    {
      UserPage(m1, f1, b1, i, u);
      PageKept(m1, f1, b1, m2, b1.leaves[u].ppn);
    }
  }

  lemma CopyUndone(m0: map<nat, Page>, f0: seq<nat>, b: Space, m2: map<nat, Page>, f2: seq<nat>, b2: Space, tk: seq<nat>,
                   m3: map<nat, Page>, f3: seq<nat>, b3: Space, freed: seq<nat>, a: Space, n: nat, i: nat)
    requires Took(m0, f0, b, m2, f2, b2, tk) && Copied(m0, f0, m2, a, b2, i) && Without(b2.leaves, 0, i) == b.leaves && i <= n
    requires Lives(m2, f2, a) && User(m2, f2, a, n) && Separate(a, b2, n)
    requires SamePages(m0, m2, a, n) && User(m0, f0, a, n) && Lives(m0, f0, a)
    requires b3 == b2.(leaves := Without(b2.leaves, 0, i)) && Lives(m3, f3, b3)
    requires f3 == freed + f2 && Elems(freed) == Behind(b2.leaves, 0, i)
    requires SameOutside(m2, m3, b2.tabs.Keys + Elems(freed)) && m3.Keys == m2.Keys
    ensures Took(m0, f0, b, m3, f3, b3, tk) && b3.leaves == b.leaves && SamePages(m0, m3, a, n)
    ensures Lives(m3, f3, a) && User(m3, f3, a, n)
  {
    hide User, Lives, Took, Copied, Added;
    FreshFreed(m0, f0, m2, a, b2, i, freed);
    NoneFree(m0, f0, a, n);
    UndoTook(m0, f0, b, m2, f2, b2, tk, m3, f3, b3, freed);
    TookParts(m0, f0, b, m2, f2, b2, tk);
    assert Elems(f3) == Elems(freed) + Elems(f2);
    SpaceKept(m2, f2, m3, f3, a, n, b2.tabs.Keys + Elems(freed));
  }

  lemma FreshFreed(m0: map<nat, Page>, f0: seq<nat>, m2: map<nat, Page>, a: Space, b2: Space, i: nat, freed: seq<nat>)
    requires Copied(m0, f0, m2, a, b2, i) && Elems(freed) == Behind(b2.leaves, 0, i)
    ensures Elems(freed) <= Elems(f0)
  {
  }
}
