/** Freeing page tables: freewalk and uvmfree of kernel/vm.c, proc_freepagetable and growproc of kernel/proc.c. */
module VmFree {
  import opened Kalloc
  import opened PageTable
  import opened Tables
  import opened Vm

  // ---------------------------------------------------------------------------------------------
  // What hangs on a table
  // ---------------------------------------------------------------------------------------------

  /** The table in page f is at level lv, and is number idx there. */
  ghost predicate IsAt(sp: Space, f: nat, lv: nat, idx: nat) {
    if lv == 2 then f == sp.root && idx == 0
    else if lv == 1 then idx in sp.mids && f == sp.mids[idx]
    else lv == 0 && idx in sp.lows && f == sp.lows[idx]
  }

  /** A page with this role hangs on one of the first i entries of the table at level lv, number idx. */
  predicate Hangs(r: Role, lv: nat, idx: nat, i: nat) {
    match r
    case Root => false
    case MidTable(m) => lv == 2 && m < i
    case LowTable(l) => (lv == 2 && l / 512 < i) || (lv == 1 && 512 * idx <= l < 512 * idx + i)
  }

  ghost function Below(sp: Space, lv: nat, idx: nat, i: nat): (s: set<nat>) {
    set g | g in sp.tabs && Hangs(sp.tabs[g], lv, idx, i)
  }

  /** The tables below one entry. */
  ghost function BelowAt(sp: Space, lv: nat, idx: nat, i: nat): (s: set<nat>)
    requires lv > 0
  {
    var c := 512 * idx + i;
    if lv == 2 then (if c in sp.mids then Below(sp, 1, c, 512) + {sp.mids[c]} else {})
    else (if c in sp.lows then {sp.lows[c]} else {})
  }

  /** The tables of this subtree are in memory. */
  ghost predicate Intact(mem: map<nat, Page>, sp: Space, lv: nat, idx: nat) {
    && (lv == 2 ==> Points(mem, sp.root, 0, sp.mids) && forall m :: m in sp.mids ==> Points(mem, sp.mids[m], 512 * m, sp.lows))
    && (lv == 1 ==> idx in sp.mids && Points(mem, sp.mids[idx], 512 * idx, sp.lows))
    && (lv == 0 ==> idx in sp.lows && Maps(mem, sp.lows[idx], 512 * idx, sp.leaves))
    && (forall l :: l in sp.lows && (lv == 2 || (lv == 1 && l / 512 == idx)) ==> Maps(mem, sp.lows[l], 512 * l, sp.leaves))
  }

  lemma RepIntact(mem: map<nat, Page>, sp: Space)
    requires Rep(mem, sp)
    ensures Intact(mem, sp, 2, 0)
  {
  }

  /** The entry that freewalk reads. */
  ghost predicate EntryIs(sp: Space, lv: nat, idx: nat, i: nat, p: Pte) {
    var c := 512 * idx + i;
    if lv == 2 then p == if c in sp.mids then Ptr(sp.mids[c]) else NIL
    else if lv == 1 then p == if c in sp.lows then Ptr(sp.lows[c]) else NIL
    else p == NIL
  }

  lemma Entries(mem: map<nat, Page>, sp: Space, f: nat, lv: nat, idx: nat, i: nat)
    requires Intact(mem, sp, lv, idx) && IsAt(sp, f, lv, idx) && lv <= 2 && sp.leaves == map[] && i < 512
    ensures IsTable(mem, f) && EntryIs(sp, lv, idx, i, mem[f].ptes[i])
  {
  }

  /** One more entry. */
  lemma BelowMore(sp: Space, lv: nat, idx: nat, i: nat)
    requires Shape(sp) && (lv == 1 || lv == 2) && i < 512 && (lv == 2 ==> idx == 0)
    ensures Below(sp, lv, idx, i + 1) == Below(sp, lv, idx, i) + BelowAt(sp, lv, idx, i)
  {
    var c := 512 * idx + i;
    var more, less, at := Below(sp, lv, idx, i + 1), Below(sp, lv, idx, i), BelowAt(sp, lv, idx, i);
    forall g ensures g in more <==> g in less || g in at {
      if g in sp.tabs {
        assert RoleOk(sp, g);
      }
      if g in at {
        assert g in sp.tabs;
      }
    }
  }

  lemma BelowNone(sp: Space, lv: nat, idx: nat)
    requires Shape(sp)
    ensures Below(sp, lv, idx, 0) == {} && Below(sp, 0, idx, 512) == {}
  {
  }

  /** Below an entry lies nothing that lies below another, nor the table itself. */
  lemma BelowApart(sp: Space, f: nat, lv: nat, idx: nat, i: nat)
    requires Shape(sp) && (lv == 1 || lv == 2) && i < 512 && (lv == 2 ==> idx == 0) && IsAt(sp, f, lv, idx)
    ensures f !in BelowAt(sp, lv, idx, i) && f !in Below(sp, lv, idx, i) && Below(sp, lv, idx, i) * BelowAt(sp, lv, idx, i) == {}
  {
  }

  /** The child's subtree is still in memory when the entries before it have been dealt with. */
  lemma ChildIntact(mem0: map<nat, Page>, mem: map<nat, Page>, sp: Space, f: nat, lv: nat, idx: nat, i: nat)
    requires Shape(sp) && (lv == 1 || lv == 2) && i < 512 && (lv == 2 ==> idx == 0) && IsAt(sp, f, lv, idx) && Intact(mem0, sp, lv, idx)
    requires SameOutside(mem0, mem, Below(sp, lv, idx, i) + {f})
    requires if lv == 2 then 512 * idx + i in sp.mids else 512 * idx + i in sp.lows
    ensures Intact(mem, sp, lv - 1, 512 * idx + i)
  {
    var c := 512 * idx + i;
    if lv == 2 {
      ChildKept(mem0, mem, sp, f, lv, idx, i, sp.mids[c]);
      forall l | l in sp.lows && l / 512 == c ensures Maps(mem, sp.lows[l], 512 * l, sp.leaves) {
        assert Maps(mem0, sp.lows[l], 512 * l, sp.leaves);
        ChildKept(mem0, mem, sp, f, lv, idx, i, sp.lows[l]);
      }
    } else {
      assert c / 512 == idx;
      ChildKept(mem0, mem, sp, f, lv, idx, i, sp.lows[c]);
    }
  }

  lemma ChildKept(mem0: map<nat, Page>, mem: map<nat, Page>, sp: Space, f: nat, lv: nat, idx: nat, i: nat, g: nat)
    requires Shape(sp) && (lv == 1 || lv == 2) && i < 512 && (lv == 2 ==> idx == 0) && IsAt(sp, f, lv, idx)
    requires SameOutside(mem0, mem, Below(sp, lv, idx, i) + {f}) && g in BelowAt(sp, lv, idx, i)
    ensures g in mem0 ==> g in mem && mem[g] == mem0[g]
  {
  }

  /** The child's subtree is what lies below its entry. */
  lemma ChildBelow(sp: Space, lv: nat, idx: nat, i: nat, child: nat)
    requires Shape(sp) && (lv == 1 || lv == 2) && IsAt(sp, child, lv - 1, 512 * idx + i)
    ensures BelowAt(sp, lv, idx, i) == Below(sp, lv - 1, 512 * idx + i, 512) + {child}
  {
  }

  lemma {:induction false} BelowGrows(sp: Space, lv: nat, idx: nat, i: nat, j: nat)
    requires i <= j
    ensures Below(sp, lv, idx, i) <= Below(sp, lv, idx, j)
  {
  }

  /** freewalk: every table of the subtree goes back to the free list, exactly once. */
  method Freewalk(k: Memory, f: nat, ghost sp: Space, ghost lv: nat, ghost idx: nat) returns (ghost freed: seq<nat>)
    requires k.Valid() && lv <= 2 && Shape(sp) && sp.leaves == map[]
    requires Intact(k.mem, sp, lv, idx) && IsAt(sp, f, lv, idx) && (lv == 2 ==> idx == 0)
    requires forall g :: g in Below(sp, lv, idx, 512) + {f} ==> g !in k.free
    modifies k
    ensures k.Valid() && k.free == freed + old(k.free) && Elems(freed) == Below(sp, lv, idx, 512) + {f}
    ensures SameOutside(old(k.mem), k.mem, Elems(freed)) && k.mem.Keys == old(k.mem.Keys)
    decreases lv
  {
    hide FreeOk, Shape, Intact, Below, BelowAt;
    freed := [];
    assert Elems([]) == {};
    BelowNone(sp, lv, idx);
    TablePage(k.mem, sp, f, lv, idx);
    ghost var mem0 := k.mem;
    var i := 0;
    while i < 512
      invariant 0 <= i <= 512 && k.Valid() && k.free == freed + old(k.free)
      invariant Elems(freed) == (if lv == 0 then {} else Below(sp, lv, idx, i))
      invariant SameOutside(mem0, k.mem, Elems(freed) + {f}) && k.mem.Keys == mem0.Keys
      invariant IsTable(k.mem, f) && forall j :: i <= j < 512 ==> k.mem[f].ptes[j] == mem0[f].ptes[j]
    {
      Entries(mem0, sp, f, lv, idx, i);
      var pte := k.mem[f].ptes[i];
      if lv > 0 {
        BelowMore(sp, lv, idx, i);
        ChildOf(sp, lv, idx, i, pte);
        StillOwned(sp, f, lv, idx, i, freed, old(k.free), k.free);
      }
      if pte.v && pte.perm == 0 {
        ghost var f2 := FreeChild(k, f, i, pte.ppn, sp, lv, idx, mem0, freed);
        freed := f2 + freed;
      }
      i := i + 1;
    }
    NotFreeItself(sp, f, lv, idx, freed, old(k.free), k.free);
    k.Kfree(f);
    assert Elems([f] + freed) == {f} + Elems(freed);
    freed := [f] + freed;
  }

  lemma ChildOf(sp: Space, lv: nat, idx: nat, i: nat, p: Pte)
    requires (lv == 1 || lv == 2) && EntryIs(sp, lv, idx, i, p)
    ensures if p.v then p.perm == 0 && IsAt(sp, p.ppn, lv - 1, 512 * idx + i) else BelowAt(sp, lv, idx, i) == {}
  {
  }

  lemma StillOwned(sp: Space, f: nat, lv: nat, idx: nat, i: nat, freed: seq<nat>, free0: seq<nat>, free: seq<nat>)
    requires Shape(sp) && (lv == 1 || lv == 2) && IsAt(sp, f, lv, idx) && (lv == 2 ==> idx == 0) && i < 512
    requires free == freed + free0 && Elems(freed) == Below(sp, lv, idx, i)
    requires forall g :: g in Below(sp, lv, idx, 512) + {f} ==> g !in free0
    ensures forall g :: g in BelowAt(sp, lv, idx, i) + {f} ==> g !in free
  {
    BelowMore(sp, lv, idx, i);
    BelowGrows(sp, lv, idx, i + 1, 512);
    BelowApart(sp, f, lv, idx, i);
    hide Shape, Below, BelowAt;
    forall g | g in BelowAt(sp, lv, idx, i) + {f} ensures g !in free {
      assert g in freed ==> g in Elems(freed);
    }
  }

  lemma TablePage(mem: map<nat, Page>, sp: Space, f: nat, lv: nat, idx: nat)
    requires Intact(mem, sp, lv, idx) && IsAt(sp, f, lv, idx) && lv <= 2 && Shape(sp)
    ensures IsTable(mem, f) && f > 0
  {
  }

  lemma NotFreeItself(sp: Space, f: nat, lv: nat, idx: nat, freed: seq<nat>, free0: seq<nat>, free: seq<nat>)
    requires Shape(sp) && lv <= 2 && IsAt(sp, f, lv, idx) && (lv == 2 ==> idx == 0) && f !in free0 && free == freed + free0
    requires Elems(freed) == if lv == 0 then {} else Below(sp, lv, idx, 512)
    ensures f !in free
  {
    assert f in freed ==> f in Elems(freed);
  }

  /** The recursive call of freewalk, and the clearing of the entry. */
  method FreeChild(k: Memory, f: nat, i: nat, child: nat, ghost sp: Space, ghost lv: nat, ghost idx: nat, ghost mem0: map<nat,
                   Page>, ghost freed: seq<nat>)
    returns (ghost f2: seq<nat>)
    requires k.Valid() && lv <= 2 && Shape(sp) && sp.leaves == map[] && Intact(mem0, sp, lv, idx)
    requires IsAt(sp, f, lv, idx) && (lv == 2 ==> idx == 0) && i < 512
    requires lv > 0 && IsTable(k.mem, f) && IsAt(sp, child, lv - 1, 512 * idx + i)
    requires SameOutside(mem0, k.mem, Below(sp, lv, idx, i) + {f}) && k.mem.Keys == mem0.Keys && Elems(freed) == Below(sp, lv, idx, i)
    requires forall g :: g in BelowAt(sp, lv, idx, i) + {f} ==> g !in k.free
    modifies k
    ensures k.Valid() && k.free == f2 + old(k.free) && Elems(f2) == BelowAt(sp, lv, idx, i) && Elems(f2 + freed) == Elems(f2) + Elems(freed)
    ensures SameOutside(old(k.mem), k.mem, Elems(f2) + {f}) && k.mem.Keys == old(k.mem.Keys)
    ensures IsTable(k.mem, f) && forall j :: i < j < 512 ==> k.mem[f].ptes[j] == old(k.mem)[f].ptes[j]
    decreases lv, 0
  {
    hide FreeOk, Shape, Intact, Below, BelowAt;
    ChildIntact(mem0, k.mem, sp, f, lv, idx, i);
    ChildBelow(sp, lv, idx, i, child);
    BelowApart(sp, f, lv, idx, i);
    f2 := Freewalk(k, child, sp, lv - 1, 512 * idx + i);
    FreeKept(k.mem, SetPte(k.mem, f, i, NIL), k.freelist, k.free);
    k.mem := SetPte(k.mem, f, i, NIL);
  }

  // ---------------------------------------------------------------------------------------------
  // Freeing an address space
  // ---------------------------------------------------------------------------------------------

  /** The root's subtree is the whole page table. */
  lemma RootBelow(sp: Space)
    requires Shape(sp)
    ensures Below(sp, 2, 0, 512) + {sp.root} == sp.tabs.Keys
  {
  }

  /** uvmfree: every page of user memory and every page of the page table is free again. */
  method Uvmfree(k: Memory, root: nat, sz: nat, ghost sp: Space) returns (ghost freed: seq<nat>)
    requires k.Valid() && Lives(k.mem, k.free, sp) && root == sp.root && User(k.mem, k.free, sp, PgUp(sz)) && |k.mem| <= NFRAMES
    requires forall u :: u in sp.leaves ==> u < PgUp(sz)
    modifies k
    ensures k.Valid() && k.free == freed + old(k.free) && Elems(freed) == Behind(sp.leaves, 0, PgUp(sz)) + sp.tabs.Keys
    ensures SameOutside(old(k.mem), k.mem, Elems(freed)) && k.mem.Keys == old(k.mem.Keys)
  {
    hide FreeOk, User, Rep, Shape, MayUnmap;
    ghost var sp' := sp;
    UserBelowTrapframe(k.mem, k.free, sp, PgUp(sz));
    freed := [];
    AllGone(sp, PgUp(sz));
    if sz > 0 {
      UserUnmap(k.mem, k.free, sp, 0, PgUp(sz));
      sp', freed := Uvmunmap(k, root, 0, PgUp(sz), true, sp);
    }
    RepShape(k.mem, sp');
    RepIntact(k.mem, sp');
    RootBelow(sp');
    ghost var f2 := Freewalk(k, root, sp', 2, 0);
    ElemsJoin(f2, freed);
    freed := f2 + freed;
  }

  lemma ElemsJoin(a: seq<nat>, b: seq<nat>)
    ensures Elems(a + b) == Elems(a) + Elems(b)
  {
  }

  lemma RepShape(mem: map<nat, Page>, sp: Space)
    requires Rep(mem, sp)
    ensures Shape(sp)
  {
  }

  lemma AllGone(sp: Space, n: nat)
    requires forall u :: u in sp.leaves ==> u < n
    ensures Without(sp.leaves, 0, n) == map[] && (n == 0 ==> sp.leaves == map[] && Behind(sp.leaves, 0, n) == {}) && Elems([]) == {}
  {
  }

  /** An address space comes and goes without a page lost: afterwards the free list is longer by exactly
      the pages that it had. */
  lemma CountAfterFree(mem: map<nat, Page>, head: nat, free: seq<nat>, free0: seq<nat>, freed: seq<nat>)
    requires FreeOk(mem, head, free) && free == freed + free0
    ensures |free| == |Elems(freed)| + |free0|
  {
    forall i, j | 0 <= i < j < |freed| ensures freed[i] != freed[j] {
      assert free[i] == freed[i] && free[j] == freed[j];
    }
    DistinctSize(freed);
  }

  /** proc_freepagetable: the trampoline and the trapframe are unmapped and not freed. */
  method FreePagetable(k: Memory, root: nat, sz: nat, ghost sp: Space) returns (ghost freed: seq<nat>)
    requires k.Valid() && Lives(k.mem, k.free, sp) && root == sp.root && User(k.mem, k.free, sp, PgUp(sz)) && |k.mem| <= NFRAMES
    requires TRAMPOLINE in sp.leaves && TRAPFRAME in sp.leaves
      && forall u :: u in sp.leaves ==> u < PgUp(sz) || u == TRAMPOLINE || u == TRAPFRAME
    modifies k
    ensures k.Valid() && k.free == freed + old(k.free) && Elems(freed) == Behind(sp.leaves, 0, PgUp(sz)) + sp.tabs.Keys
    ensures |k.free| == |old(k.free)| + |Behind(sp.leaves, 0, PgUp(sz)) + sp.tabs.Keys|
    ensures SameOutside(old(k.mem), k.mem, Elems(freed)) && k.mem.Keys == old(k.mem.Keys)
  {
    hide FreeOk, User, Lives;
    ghost var mem0, free0 := k.mem, k.free;
    UserBelowTrapframe(k.mem, k.free, sp, PgUp(sz));
    ghost var s1 := UnmapShared(k, root, TRAMPOLINE, sp, PgUp(sz));
    ghost var s2 := UnmapShared(k, root, TRAPFRAME, s1, PgUp(sz));
    SameSize(mem0, k.mem);
    freed := Uvmfree(k, root, sz, s2);
    CountAfterFree(k.mem, k.freelist, k.free, free0, freed);
  }

  /** uvmunmap of one page above user memory, without freeing it. */
  method UnmapShared(k: Memory, root: nat, v: nat, ghost sp: Space, ghost n: nat) returns (ghost sp': Space)
    requires k.Valid() && Lives(k.mem, k.free, sp) && root == sp.root && User(k.mem, k.free, sp, n) && n <= v < MAXVPN && v in sp.leaves
    modifies k
    ensures k.Valid() && Lives(k.mem, k.free, sp') && sp'.root == root && sp'.tabs == sp.tabs && User(k.mem, k.free, sp', n)
    ensures k.free == old(k.free) && k.mem.Keys == old(k.mem.Keys) && Behind(sp'.leaves, 0, n) == Behind(sp.leaves, 0, n)
    ensures forall u :: u in sp'.leaves <==> u in sp.leaves && u != v
    ensures SameOutside(old(k.mem), k.mem, sp.tabs.Keys)
  {
    hide FreeOk, User, Lives;
    assert Elems([]) == {};
    ghost var mem0, free0, f1 := k.mem, k.free, [];
    sp', f1 := Uvmunmap(k, root, v, 1, false, sp);
    assert k.free == free0;
    UnmapHigh(mem0, k.mem, k.free, sp, sp', v, n);
  }

  /** Unmapping a page above user memory leaves user memory as it was. */
  lemma UnmapHigh(mem: map<nat, Page>, mem': map<nat, Page>, free: seq<nat>, sp: Space, sp': Space, v: nat, n: nat)
    requires User(mem, free, sp, n) && n <= v && sp' == sp.(leaves := Without(sp.leaves, v, v + 1))
    requires SameOutside(mem, mem', sp.tabs.Keys + Elems([]))
    ensures User(mem', free, sp', n) && Behind(sp'.leaves, 0, n) == Behind(sp.leaves, 0, n)
    ensures forall u :: u in sp'.leaves <==> u in sp.leaves && u != v
  {
    assert Elems([]) == {};
    forall u | 0 <= u < n ensures u in sp'.leaves && sp'.leaves[u] == sp.leaves[u] && OwnPage(mem', free, sp', sp'.leaves[u].ppn) {
      assert OwnPage(mem, free, sp, sp.leaves[u].ppn);
    }
    assert Behind(sp'.leaves, 0, n) == Behind(sp.leaves, 0, n);
  }

  /** growproc.  A shrink by more than the size wraps to a huge size, which uvmdealloc ignores. */
  method Growproc(k: Memory, root: nat, sz: nat, n: int, ghost sp: Space) returns (r: int, sz': nat, ghost sp': Space)
    requires k.Valid() && Lives(k.mem, k.free, sp) && root == sp.root && User(k.mem, k.free, sp, PgUp(sz)) && |k.mem| <= NFRAMES
    requires -0x8000_0000 <= n < 0x8000_0000
    modifies k
    ensures k.Valid() && Lives(k.mem, k.free, sp') && sp'.root == root && User(k.mem, k.free, sp', PgUp(sz'))
    ensures k.mem.Keys == old(k.mem.Keys) && PgUp(sz') < TRAPFRAME
    ensures r == 0 ==> sz' == if sz + n < 0 then sz else sz + n
    ensures r == 0 || (r == -1 && sz' == sz && n > 0 && sp'.leaves == sp.leaves)
    ensures r == -1 <==> n > 0 && |old(k.free)| < PgUp(sz + n) - PgUp(sz) + Need(sp, PgUp(sz), PgUp(sz + n))
    ensures r == 0 && n > 0 ==>
      && Without(sp'.leaves, PgUp(sz), PgUp(sz')) == sp.leaves
      && Fresh(k.mem, old(k.free), sp'.leaves, PgUp(sz), PgUp(sz'), PTE_R + PTE_U + 4, Junk(0))
    ensures n <= 0 ==> sp' == sp.(leaves := Without(sp.leaves, PgUp(sz'), PgUp(sz))) && (sz + n < 0 || n == 0 ==> sp' == sp)
    ensures SamePages(old(k.mem), k.mem, sp, if PgUp(sz') < PgUp(sz) then PgUp(sz') else PgUp(sz))
  {
    hide Lives, FreeOk, User, Took, Fresh, SamePages, Without, SameOutside, Need, Paid;
    r, sz', sp' := 0, sz, sp;
    UnmapStart(sp, PgUp(sz));
    SelfSame(k.mem, k.free, sp, PgUp(sz));
    if n > 0 {
      ghost var ok, tk;
      var s;
      s, ok, sp', tk := Uvmalloc(k, root, sz, sz + n, 4, sp);
      TookParts(old(k.mem), old(k.free), sp, k.mem, k.free, sp', tk);
      TookSame(old(k.mem), old(k.free), sp, k.mem, k.free, sp', tk, PgUp(sz));
      if s == 0 {
        r := -1;
      } else {
        sz' := s;
      }
      PgUpMonotone(sz, sz + n);
    } else if n < 0 {
      ghost var freed;
      UserBelowTrapframe(k.mem, k.free, sp, PgUp(sz));
      var newsz: nat := if sz + n < 0 then sz + n + 0x1_0000_0000_0000_0000 else sz + n;
      ghost var mem0, free0 := k.mem, k.free;
      sz', sp', freed := Uvmdealloc(k, root, sz, newsz, sp);
      PgUpMonotone(sz', sz);
      LessSame(mem0, free0, sp, k.mem, freed, PgUp(sz'), PgUp(sz));
    }
    SameSize(old(k.mem), k.mem);
    UserBelowTrapframe(k.mem, k.free, sp', PgUp(sz'));
  }

  lemma SelfSame(mem: map<nat, Page>, free: seq<nat>, sp: Space, n: nat)
    requires User(mem, free, sp, n)
    ensures SamePages(mem, mem, sp, n)
  {
    forall u | 0 <= u < n ensures u in sp.leaves && sp.leaves[u].ppn in mem {
      assert OwnPage(mem, free, sp, sp.leaves[u].ppn);
    }
  }

  /** Taking pages off the free list leaves user memory alone. */
  lemma TookSame(m0: map<nat, Page>, f0: seq<nat>, s0: Space, m1: map<nat, Page>, f1: seq<nat>, s1: Space, t: seq<nat>, n: nat)
    requires Took(m0, f0, s0, m1, f1, s1, t) && User(m0, f0, s0, n)
    ensures SamePages(m0, m1, s0, n)
  {
    hide Lives;
    forall u | 0 <= u < n && u in s0.leaves
      ensures s0.leaves[u].ppn in m1 && s0.leaves[u].ppn in m0 && m1[s0.leaves[u].ppn] == m0[s0.leaves[u].ppn]
    {
      assert OwnPage(m0, f0, s0, s0.leaves[u].ppn);
      PageKept(m0, f0, s0, m1, s0.leaves[u].ppn);
    }
  }

  /** So does freeing the pages above lo. */
  lemma LessSame(mem: map<nat, Page>, free: seq<nat>, sp: Space, mem': map<nat, Page>, freed: seq<nat>, lo: nat, hi: nat)
    requires User(mem, free, sp, hi) && lo <= hi && Elems(freed) == Behind(sp.leaves, lo, hi)
    requires SameOutside(mem, mem', sp.tabs.Keys + Elems(freed))
    ensures SamePages(mem, mem', sp, lo)
  {
    forall u | 0 <= u < lo && u in sp.leaves
      ensures sp.leaves[u].ppn in mem' && sp.leaves[u].ppn in mem && mem'[sp.leaves[u].ppn] == mem[sp.leaves[u].ppn]
    {
      assert OwnPage(mem, free, sp, sp.leaves[u].ppn);
      assert sp.leaves[u].ppn !in Behind(sp.leaves, lo, hi);
    }
  }
}
