/** Address spaces from the cradle to the grave: uvmcreate and proc_pagetable, and the count of free memory over the
    life of a process and its child. */
module VmProc {
  import opened Kalloc
  import opened PageTable
  import opened Tables
  import opened Vm
  import opened VmFree

  const PTE_W: nat := 4
  const PTE_X: nat := 8

  /** A page table without mappings, in one page. */
  function Bare(root: nat): (sp: Space) {
    Space(root, map[], map[], map[], map[root := Root])
  }

  lemma BareLives(mem: map<nat, Page>, free: seq<nat>, root: nat)
    requires root > 0 && root in mem && mem[root] == Zeros() && root !in free
    ensures Lives(mem, free, Bare(root))
  {
  }

  /** uvmcreate: a cleared page off the free list, or 0. */
  method Uvmcreate(k: Memory) returns (root: nat, ghost sp: Space)
    requires k.Valid()
    modifies k
    ensures k.Valid() && (root == 0 <==> old(k.free) == []) && (root == 0 ==> unchanged(k))
    ensures root != 0 ==> sp == Bare(root) && Lives(k.mem, k.free, sp) && old(k.free) == [root] + k.free
    ensures root != 0 ==> root in old(k.mem) && k.mem == old(k.mem)[root := Zeros()]
  {
    hide FreeOk, Lives;
    root := k.Kalloc();
    sp := Bare(root);
    if root != 0 {
      FreeKept(k.mem, k.mem[root := Zeros()], k.freelist, k.free);
      k.mem := k.mem[root := Zeros()];
      PageNotNull(old(k.mem), old(k.freelist), old(k.free));
      BareLives(k.mem, k.free, root);
    }
  }

  lemma PageNotNull(mem: map<nat, Page>, head: nat, free: seq<nat>)
    requires FreeOk(mem, head, free) && free != []
    ensures free[0] > 0
  {
    FreeAt(mem, head, free, 0);
  }

  // ---------------------------------------------------------------------------------------------
  // The address space of a process
  // ---------------------------------------------------------------------------------------------

  /** User memory below n, and above it the trampoline and the trapframe. */
  ghost predicate Proc(mem: map<nat, Page>, free: seq<nat>, sp: Space, n: nat) {
    && Lives(mem, free, sp) && User(mem, free, sp, n) && TRAMPOLINE in sp.leaves && TRAPFRAME in sp.leaves
    && forall u :: u in sp.leaves ==> u < n || u == TRAMPOLINE || u == TRAPFRAME
  }

  /** The pages that it has. */
  ghost function Size(sp: Space, n: nat): (c: nat) {
    n + |sp.tabs.Keys|
  }

  ghost function Pages(sp: Space, n: nat): (s: set<nat>) {
    Behind(sp.leaves, 0, n) + sp.tabs.Keys
  }

  lemma PagesSize(mem: map<nat, Page>, free: seq<nat>, sp: Space, n: nat)
    requires User(mem, free, sp, n)
    ensures |Pages(sp, n)| == Size(sp, n)
  {
    var s := PagesBehind(mem, free, sp, n);
    assert s == Behind(sp.leaves, 0, n);
    forall f | f in s ensures f !in sp.tabs {
      var u :| 0 <= u < n && u in sp.leaves && sp.leaves[u].ppn == f;
      assert OwnPage(mem, free, sp, sp.leaves[u].ppn);
    }
    assert s !! sp.tabs.Keys;
  }

  /** Pages off the free list are no page of an address space. */
  lemma PagesNotFree(mem: map<nat, Page>, free: seq<nat>, sp: Space, n: nat)
    requires Lives(mem, free, sp) && User(mem, free, sp, n)
    ensures Pages(sp, n) !! Elems(free)
  {
    forall f | f in Behind(sp.leaves, 0, n) ensures f !in Elems(free) {
      var u :| u in sp.leaves && 0 <= u < n && sp.leaves[u].ppn == f;
      assert OwnPage(mem, free, sp, sp.leaves[u].ppn);
    }
  }

  /** What happens to other pages leaves it alone. */
  lemma ProcKept(m1: map<nat, Page>, f1: seq<nat>, m2: map<nat, Page>, f2: seq<nat>, sp: Space, n: nat, touched: set<nat>)
    requires Proc(m1, f1, sp, n) && SameOutside(m1, m2, touched) && Pages(sp, n) !! touched && Pages(sp, n) !! Elems(f2)
    ensures Proc(m2, f2, sp, n) && SamePages(m1, m2, sp, n)
  {
    hide Lives, User, SameOutside, SamePages, Elems;
    PagesHas(sp, n);
    SpaceKept(m1, f1, m2, f2, sp, n, touched);
  }

  lemma PagesHas(sp: Space, n: nat)
    ensures forall f :: f in sp.tabs ==> f in Pages(sp, n)
    ensures forall u :: 0 <= u < n && u in sp.leaves ==> sp.leaves[u].ppn in Pages(sp, n)
  {
  }

  /** proc_freepagetable gives back exactly the pages that the process has. */
  method FreeProc(k: Memory, root: nat, sz: nat, ghost sp: Space) returns (ghost freed: seq<nat>)
    requires k.Valid() && |k.mem| <= NFRAMES && root == sp.root && Proc(k.mem, k.free, sp, PgUp(sz))
    modifies k
    ensures k.Valid() && k.mem.Keys == old(k.mem.Keys) && k.free == freed + old(k.free) && Elems(freed) == Pages(sp, PgUp(sz))
    ensures |k.free| == |old(k.free)| + Size(sp, PgUp(sz)) && SameOutside(old(k.mem), k.mem, Elems(freed))
  {
    hide FreeOk, Lives, User, SameOutside, Elems;
    PagesSize(k.mem, k.free, sp, PgUp(sz));
    freed := FreePagetable(k, root, sz, sp);
  }

  // ---------------------------------------------------------------------------------------------
  // Creating one
  // ---------------------------------------------------------------------------------------------

  /** Since m0 and f0, the pages q have gone from the free list to the page table, and only they have changed. */
  ghost predicate Built(m0: map<nat, Page>, f0: seq<nat>, m: map<nat, Page>, f: seq<nat>, sp: Space, q: seq<nat>) {
    && f0 == q + f && Elems(q) == sp.tabs.Keys && AsMany(q, sp) && SameOutside(m0, m, Elems(q)) && m.Keys == m0.Keys
    && Lives(m, f, sp) && forall u :: u in sp.leaves ==> u >= TRAPFRAME
  }

  ghost predicate AsMany(q: seq<nat>, sp: Space) {
    |q| == |sp.tabs.Keys|
  }

  lemma BuiltBare(m0: map<nat, Page>, f0: seq<nat>, m: map<nat, Page>, f: seq<nat>, root: nat)
    requires f0 == [root] + f && root in m0 && m == m0[root := Zeros()] && Lives(m, f, Bare(root))
    ensures Built(m0, f0, m, f, Bare(root), [root])
  {
    hide Lives;
    assert Elems([root]) == {root} == Bare(root).tabs.Keys;
  }

  lemma BuiltMore(m0: map<nat, Page>, f0: seq<nat>, m1: map<nat, Page>, f1: seq<nat>, s1: Space, q: seq<nat>, m2: map<nat, Page>,
                  f2: seq<nat>, s2: Space, t: seq<nat>, v: nat, x: Leaf)
    requires Built(m0, f0, m1, f1, s1, q) && f1 == t + f2 && s2.tabs.Keys == s1.tabs.Keys + Elems(t) && Added(s1, s2, t)
    requires SameOutside(m1, m2, s2.tabs.Keys) && m2.Keys == m1.Keys && Lives(m2, f2, s2)
    requires s2.leaves == s1.leaves || (v >= TRAPFRAME && s2.leaves == s1.leaves[v := x])
    ensures Built(m0, f0, m2, f2, s2, q + t)
  {
    hide Lives, SameOutside, Elems, Added, AsMany;
    ElemsJoin(q, t);
    OutsideMore(m0, m1, m2, Elems(q), s2.tabs.Keys);
    ManyMore(q, s1, s2, t);
    assert q + t + f2 == f0;
  }

  lemma OutsideMore(m0: map<nat, Page>, m1: map<nat, Page>, m2: map<nat, Page>, a: set<nat>, b: set<nat>)
    requires SameOutside(m0, m1, a) && SameOutside(m1, m2, b) && a <= b
    ensures SameOutside(m0, m2, b)
  {
  }

  lemma ManyMore(q: seq<nat>, sp: Space, sp': Space, t: seq<nat>)
    requires AsMany(q, sp) && Added(sp, sp', t)
    ensures AsMany(q + t, sp')
  {
  }

  lemma BuiltUser(m0: map<nat, Page>, f0: seq<nat>, m: map<nat, Page>, f: seq<nat>, sp: Space, q: seq<nat>)
    requires Built(m0, f0, m, f, sp, q)
    ensures User(m, f, sp, 0) && |f0| == |f| + Size(sp, 0) && Lives(m, f, sp) && m.Keys == m0.Keys
  {
    hide Lives;
  }

  /** One page above user memory is mapped. */
  method MapShared(k: Memory, root: nat, v: nat, ppn: nat, perm: nat, ghost sp: Space, ghost m0: map<nat, Page>,
                   ghost f0: seq<nat>, ghost q: seq<nat>)
    returns (ok: bool, ghost sp': Space, ghost t: seq<nat>)
    requires k.Valid() && root == sp.root && TRAPFRAME <= v < MAXVPN && v !in sp.leaves && perm != 0 && Built(m0, f0, k.mem, k.free, sp, q)
    modifies k
    ensures k.Valid() && sp'.root == root && Built(m0, f0, k.mem, k.free, sp', q + t) && old(k.free) == t + k.free
    ensures sp'.leaves == if ok then sp.leaves[v := Leaf(ppn, perm)] else sp.leaves
    ensures ok <==> |old(k.free)| >= Need(sp, v, v + 1)
    ensures ok ==> Paid(sp, sp', v, v + 1, |t|)
  {
    hide FreeOk, Lives, SameOutside, Elems, Need, Paid, Built, Added, MapRange;
    BuiltUser(m0, f0, k.mem, k.free, sp, q);
    ghost var m1, f1, h1 := k.mem, k.free, k.freelist;
    var r;
    ghost var done;
    LivesFree(m1, f1, sp);
    r, sp', t, done := Mappages(k, root, v, 1, ppn, perm, sp);
    MapRangeOne(sp.leaves, v, ppn, perm);
    TabsMore(m1, h1, f1, sp, sp', t, k.free);
    BuiltMore(m0, f0, m1, f1, sp, q, k.mem, k.free, sp', t, v, Leaf(ppn, perm));
    ok := r == 0;
  }

  lemma LivesFree(mem: map<nat, Page>, free: seq<nat>, sp: Space)
    requires Lives(mem, free, sp)
    ensures forall f :: f in sp.tabs ==> f !in free
  {
  }

  /** uvmfree of a page table without user memory gives back exactly what was taken. */
  method Unbuild(k: Memory, root: nat, ghost sp: Space, ghost m0: map<nat, Page>, ghost f0: seq<nat>, ghost q: seq<nat>)
    requires k.Valid() && |k.mem| <= NFRAMES && root == sp.root && sp.leaves == map[] && Built(m0, f0, k.mem, k.free, sp, q)
    modifies k
    ensures k.Valid() && k.mem.Keys == m0.Keys && |k.free| == |f0| && Elems(k.free) == Elems(f0) && SameOutside(m0, k.mem, Elems(f0))
  {
    hide FreeOk, Lives, User;
    ghost var m1, f1 := k.mem, k.free;
    BuiltUser(m0, f0, k.mem, k.free, sp, q);
    ghost var freed := Uvmfree(k, root, 0, sp);
    CountAfterFree(k.mem, k.freelist, k.free, f1, freed);
    assert Behind(sp.leaves, 0, PgUp(0)) == {};
    ElemsJoin(freed, f1);
    ElemsJoin(q, f1);
  }

  /** proc_pagetable: an address space without user memory; or 0, with every page back on the free list. */
  method ProcPagetable(k: Memory, trampoline: nat, trapframe: nat) returns (root: nat, ghost sp: Space)
    requires k.Valid() && |k.mem| <= NFRAMES
    modifies k
    ensures k.Valid() && k.mem.Keys == old(k.mem.Keys)
    ensures SameOutside(old(k.mem), k.mem, Elems(old(k.free))) && Elems(k.free) <= Elems(old(k.free))
    ensures root == 0 ==> |k.free| == |old(k.free)|
    ensures root != 0 <==> |old(k.free)| >= 3
    ensures root != 0 ==> TopOnly(sp) && Size(sp, 0) == 3
    ensures root != 0 ==>
      && sp.root == root && Proc(k.mem, k.free, sp, 0) && |old(k.free)| == |k.free| + Size(sp, 0) && Pages(sp, 0) <= Elems(old(k.free))
      && sp.leaves == map[TRAMPOLINE := Leaf(trampoline, PTE_R + PTE_X), TRAPFRAME := Leaf(trapframe, PTE_R + PTE_W)]
  {
    hide FreeOk, Lives, SameOutside, Elems, Built, Need, Paid, TopOnly, Proc;
    ghost var m0, f0 := k.mem, k.free;
    root, sp := Uvmcreate(k);
    if root == 0 {
      NothingChanged(m0, f0);
      return;
    }
    ghost var q := [root];
    BuiltBare(m0, f0, k.mem, k.free, root);
    BareNeeds(sp);
    ghost var s1 := sp;
    var ok;
    ghost var t;
    ok, sp, t := MapShared(k, root, TRAMPOLINE, trampoline, PTE_R + PTE_X, sp, m0, f0, q);
    q := q + t;
    BuiltUser(m0, f0, k.mem, k.free, sp, q);
    SameSize(m0, k.mem);
    if !ok {
      Unbuild(k, root, sp, m0, f0, q);
      return 0, sp;
    }
    TopNeeds(s1, sp, |t|);
    s1 := sp;
    ok, sp, t := MapShared(k, root, TRAPFRAME, trapframe, PTE_R + PTE_W, sp, m0, f0, q);
    q := q + t;
    BuiltUser(m0, f0, k.mem, k.free, sp, q);
    SameSize(m0, k.mem);
    // The tables for the trampoline cover the trapframe too, so this mapping never fails and the source's clean-up
    // after a failure is not reached.
    assert ok;
    TopKept(s1, sp, |t|);
    BuiltProc(m0, f0, k.mem, k.free, sp, q);
  }

  /** The trampoline needs two tables, */
  lemma BareNeeds(sp: Space)
    requires sp.mids == map[] && sp.lows == map[]
    ensures Need(sp, TRAMPOLINE, TRAMPOLINE + 1) == 2
  {
    LackIsNeed(sp, TRAMPOLINE);
  }

  lemma TopTables()
    ensures TRAMPOLINE / 512 == TRAPFRAME / 512 == 131071 && TRAMPOLINE / 512 / 512 == TRAPFRAME / 512 / 512 == 255
  {
  }

  lemma TopNeeds(s0: Space, s1: Space, n: nat)
    requires s0.mids == map[] && s0.lows == map[] && Paid(s0, s1, TRAMPOLINE, TRAMPOLINE + 1, n)
    ensures TopOnly(s1) && n == 2 && Need(s1, TRAPFRAME, TRAPFRAME + 1) == 0
  {
    hide Need, MidsOf, LowsOf;
    TopTables();
    One(TRAMPOLINE);
    BareNeeds(s0);
    LackIsNeed(s1, TRAPFRAME);
  }

  /** and the trapframe has the same. */
  lemma TopKept(s1: Space, s2: Space, n: nat)
    requires TopOnly(s1) && Paid(s1, s2, TRAPFRAME, TRAPFRAME + 1, n)
    ensures TopOnly(s2) && n == 0
  {
    hide Need, MidsOf, LowsOf;
    TopTables();
    One(TRAPFRAME);
    LackIsNeed(s1, TRAPFRAME);
  }

  lemma NothingChanged(m: map<nat, Page>, f: seq<nat>)
    ensures SameOutside(m, m, Elems(f)) && Elems(f) <= Elems(f)
  {
  }

  lemma BuiltProc(m0: map<nat, Page>, f0: seq<nat>, m: map<nat, Page>, f: seq<nat>, sp: Space, q: seq<nat>)
    requires Built(m0, f0, m, f, sp, q) && sp.leaves.Keys == {TRAMPOLINE, TRAPFRAME}
    ensures Proc(m, f, sp, 0) && Pages(sp, 0) <= Elems(f0) && SameOutside(m0, m, Elems(f0)) && Elems(f) <= Elems(f0)
  {
    hide Lives;
    ElemsJoin(q, f);
    BuiltUser(m0, f0, m, f, sp, q);
    assert Behind(sp.leaves, 0, 0) == {};
  }

  // ---------------------------------------------------------------------------------------------
  // A process and its child
  // ---------------------------------------------------------------------------------------------

  /** uvmalloc for a process: the pages that it gains are exactly those that the free list loses. */
  method Grow(k: Memory, root: nat, sz: nat, ghost sp: Space) returns (sz': nat, ghost sp': Space)
    requires k.Valid() && |k.mem| <= NFRAMES && root == sp.root && Proc(k.mem, k.free, sp, 0)
    modifies k
    ensures k.Valid() && k.mem.Keys == old(k.mem.Keys) && sp'.root == root && Proc(k.mem, k.free, sp', PgUp(sz'))
    ensures |old(k.free)| + Size(sp, 0) == |k.free| + Size(sp', PgUp(sz'))
    ensures sz' == if |old(k.free)| >= PgUp(sz) + Need(sp, 0, PgUp(sz)) then sz else 0
  {
    hide FreeOk, Lives, User, Took, Fresh, Without, Need, Paid;
    ghost var ok, tk;
    ghost var m0, f0 := k.mem, k.free;
    sz', ok, sp', tk := Uvmalloc(k, root, 0, sz, PTE_W, sp);
    TookParts(m0, f0, sp, k.mem, k.free, sp', tk);
    TookSize(m0, f0, sp, k.mem, k.free, sp', tk);
    HighKept(sp.leaves, sp'.leaves, PgUp(sz));
    if !ok {
      HighKept(sp.leaves, sp'.leaves, 0);
    }
  }

  lemma TookSize(m0: map<nat, Page>, f0: seq<nat>, s0: Space, m1: map<nat, Page>, f1: seq<nat>, s1: Space, t: seq<nat>)
    requires Took(m0, f0, s0, m1, f1, s1, t)
    ensures |s1.tabs.Keys| == |s0.tabs.Keys| + |t|
  {
  }

  /** Above user memory nothing changes. */
  lemma HighKept(a: map<nat, Leaf>, b: map<nat, Leaf>, n: nat)
    requires TRAMPOLINE in a && TRAPFRAME in a && forall u :: u in a ==> u == TRAMPOLINE || u == TRAPFRAME
    ensures Without(b, 0, n) == a || b == a ==>
      && TRAMPOLINE in b && TRAPFRAME in b
      && forall u :: u in b ==> u < n || u == TRAMPOLINE || u == TRAPFRAME
  {
    if Without(b, 0, n) == a {
      assert TRAMPOLINE in Without(b, 0, n) && TRAPFRAME in Without(b, 0, n);
      forall u | u in b && u >= n ensures u == TRAMPOLINE || u == TRAPFRAME {
        assert u in Without(b, 0, n);
      }
    }
  }

  /** What the child has came off the free list. */
  lemma CopyPages(m1: map<nat, Page>, f1: seq<nat>, m2: map<nat, Page>, f2: seq<nat>, a: Space, b: Space, b': Space, tk: seq<nat>,
                  n: nat, all: set<nat>)
    requires Took(m1, f1, b, m2, f2, b', tk) && Copied(m1, f1, m2, a, b', n) && Elems(f1) <= all && b.tabs.Keys <= all
    ensures Pages(b', n) <= all && Elems(f2) <= all
  {
    hide Lives, Added, SameOutside;
    forall f | f in Behind(b'.leaves, 0, n) ensures f in all {
      var u :| u in b'.leaves && 0 <= u < n && b'.leaves[u].ppn == f;
      assert f in Elems(f1);
    }
  }

  lemma NothingCopied(m1: map<nat, Page>, f1: seq<nat>, m2: map<nat, Page>, a: Space, b: Space)
    ensures Copied(m1, f1, m2, a, b, 0)
  {
  }

  lemma Apart(a: Space, b: Space, n: nat)
    requires Pages(a, n) !! b.tabs.Keys
    ensures Separate(a, b, n)
  {
    PagesHas(a, n);
  }

  /** The part of fork that makes the child's address space: a copy of the parent's in pages of its own; or 0, with every
      page back on the free list.  Either way the parent's memory is as it was. */
  method Fork(k: Memory, root: nat, sz: nat, trampoline: nat, trapframe: nat, ghost a: Space) returns (child: nat, ghost b: Space)
    requires k.Valid() && |k.mem| <= NFRAMES && root == a.root && Proc(k.mem, k.free, a, PgUp(sz))
    modifies k
    ensures k.Valid() && k.mem.Keys == old(k.mem.Keys) && Proc(k.mem, k.free, a, PgUp(sz)) && SamePages(old(k.mem), k.mem, a, PgUp(sz))
    ensures child == 0 ==> |k.free| == |old(k.free)|
    ensures child != 0 <==> var n := PgUp(sz); |old(k.free)| >= 3 + n + (n + 511) / 512 + (n + 262143) / 262144
    ensures child != 0 ==>
      && b.root == child && Proc(k.mem, k.free, b, PgUp(sz)) && Pages(b, PgUp(sz)) !! Pages(a, PgUp(sz))
      && Copied(old(k.mem), old(k.free), k.mem, a, b, PgUp(sz)) && |old(k.free)| == |k.free| + Size(b, PgUp(sz))
  {
    hide FreeOk, Lives, User, SameOutside, Elems, Proc, Pages, SamePages, Copied, TopOnly, Size, Need;
    ghost var m0, f0, n := k.mem, k.free, PgUp(sz);
    ProcParts(m0, f0, a, n);
    UserBelowTrapframe(m0, f0, a, n);
    PagesNotFree(m0, f0, a, n);
    child, b := ProcPagetable(k, trampoline, trapframe);
    ProcKept(m0, f0, k.mem, k.free, a, n, Elems(f0));
    if child == 0 {
      return;
    }
    SameSize(m0, k.mem);
    NeedFromTop(b, n);
    child, b := CopyInto(k, root, child, sz, a, b, m0, f0);
  }

  lemma ProcParts(mem: map<nat, Page>, free: seq<nat>, sp: Space, n: nat)
    requires Proc(mem, free, sp, n)
    ensures Lives(mem, free, sp) && User(mem, free, sp, n)
  {
  }

  /** uvmcopy into the child's new page table; on failure that is freed again. */
  method CopyInto(k: Memory, root: nat, croot: nat, sz: nat, ghost a: Space, ghost b0: Space, ghost m0: map<nat, Page>, ghost f0: seq<nat>)
    returns (child: nat, ghost b: Space)
    requires k.Valid() && |k.mem| <= NFRAMES && root == a.root && Proc(k.mem, k.free, a, PgUp(sz)) && SamePages(m0, k.mem, a, PgUp(sz))
    requires croot != 0 && croot == b0.root && Proc(k.mem, k.free, b0, 0) && b0.leaves.Keys == {TRAMPOLINE, TRAPFRAME}
    requires Pages(a, PgUp(sz)) !! Elems(f0) && Pages(b0, 0) <= Elems(f0) && Elems(k.free) <= Elems(f0) && |f0| == |k.free| + Size(b0, 0)
    requires k.mem.Keys == m0.Keys
    modifies k
    ensures k.Valid() && k.mem.Keys == m0.Keys && Proc(k.mem, k.free, a, PgUp(sz)) && SamePages(m0, k.mem, a, PgUp(sz))
    ensures child == 0 ==> |k.free| == |f0|
    ensures child != 0 <==> |old(k.free)| >= PgUp(sz) + Need(b0, 0, PgUp(sz))
    ensures child != 0 ==>
      && b.root == child && Proc(k.mem, k.free, b, PgUp(sz)) && Pages(b, PgUp(sz)) !! Pages(a, PgUp(sz))
      && Copied(m0, f0, k.mem, a, b, PgUp(sz)) && |f0| == |k.free| + Size(b, PgUp(sz))
  {
    hide FreeOk, Lives, User, SameOutside, Elems, SamePages, Copied, Took, Without, Need;
    ghost var m1, f1, n := k.mem, k.free, PgUp(sz);
    PagesHas(b0, 0);
    Apart(a, b0, n);
    var r;
    ghost var tk;
    r, b, tk := Uvmcopy(k, root, croot, sz, a, b0);
    SameTwice(m0, m1, k.mem, a, n);
    TookParts(m1, f1, b0, k.mem, k.free, b, tk);
    TookSize(m1, f1, b0, k.mem, k.free, b, tk);
    HighKept(b0.leaves, b.leaves, n);
    HighKept(b0.leaves, b.leaves, 0);
    SameSize(m1, k.mem);
    if r != 0 {
      NothingCopied(m1, f1, k.mem, a, b);
      CopyPages(m1, f1, k.mem, k.free, a, b0, b, tk, 0, Elems(f0));
      ghost var m2, f2 := k.mem, k.free;
      ghost var freed := FreeProc(k, croot, 0, b);
      ElemsJoin(freed, f2);
      ProcKept(m2, f2, k.mem, k.free, a, n, Elems(freed));
      SameTwice(m0, m2, k.mem, a, n);
      return 0, b;
    }
    CopyPages(m1, f1, k.mem, k.free, a, b0, b, tk, n, Elems(f0));
    CopiedFrom(m0, f0, m1, f1, k.mem, a, b, n);
    child := croot;
  }

  lemma SameTwice(m0: map<nat, Page>, m1: map<nat, Page>, m2: map<nat, Page>, a: Space, n: nat)
    requires SamePages(m0, m1, a, n) && SamePages(m1, m2, a, n)
    ensures SamePages(m0, m2, a, n)
  {
  }

  lemma CopiedFrom(m0: map<nat, Page>, f0: seq<nat>, m1: map<nat, Page>, f1: seq<nat>, m2: map<nat, Page>, a: Space, b: Space, n: nat)
    requires SamePages(m0, m1, a, n) && Copied(m1, f1, m2, a, b, n) && Elems(f1) <= Elems(f0)
    ensures Copied(m0, f0, m2, a, b, n)
  {
    forall u | 0 <= u < n && u in b.leaves && b.leaves[u].ppn in f1 ensures b.leaves[u].ppn in f0 {
      assert b.leaves[u].ppn in Elems(f1);
    }
  }

  /** A process is made, grows, forks, and both parent and child are freed.  Whatever fails on the way for lack of memory,
      the count of free memory is afterwards what it was before. */
  method Life(k: Memory, sz: nat, trampoline: nat, trapframe: nat, trapframe2: nat) returns (before: nat, after: nat)
    requires k.Valid() && |k.mem| <= NFRAMES
    modifies k
    ensures k.Valid() && before == after == PGSIZE * |old(k.free)| == PGSIZE * |k.free|
  {
    hide FreeOk, Lives, User, SameOutside, Elems, Proc, Pages, SamePages, Copied, Size;
    before := k.CountFreeMem();
    ghost var m0, f0 := k.mem, k.free;
    var p, c, s;
    ghost var a, b;
    p, a := ProcPagetable(k, trampoline, trapframe);
    if p != 0 {
      SameSize(m0, k.mem);
      s, a := Grow(k, p, sz, a);
      SameSize(m0, k.mem);
      c, b := Fork(k, p, s, trampoline, trapframe2, a);
      SameSize(m0, k.mem);
      if c != 0 {
        ghost var m2, f2 := k.mem, k.free;
        PagesFree(m2, f2, a, PgUp(s));
        ghost var freed := FreeProc(k, c, s, b);
        ElemsJoin(freed, f2);
        ProcKept(m2, f2, k.mem, k.free, a, PgUp(s), Elems(freed));
        SameSize(m0, k.mem);
      }
      ghost var freed := FreeProc(k, p, s, a);
    }
    after := k.CountFreeMem();
  }

  lemma PagesFree(mem: map<nat, Page>, free: seq<nat>, sp: Space, n: nat)
    requires Proc(mem, free, sp, n)
    ensures Pages(sp, n) !! Elems(free)
  {
    PagesNotFree(mem, free, sp, n);
  }
}
