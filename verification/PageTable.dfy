/** Three-level page tables in physical memory, and the partial map from virtual pages to physical pages that
    they stand for.  The scheme is Sv39 of section 4.4 of the RISC-V Privileged Architecture; a page table
    covers the 2^26 pages below MAXVA. */
module PageTable {
  import opened Kalloc

  const MAXVPN: nat := 67108864
  const TRAMPOLINE: nat := MAXVPN - 1
  const TRAPFRAME: nat := MAXVPN - 2

  const NIL := Pte(false, 0, 0)

  function Ptr(f: nat): (p: Pte) {
    Pte(true, f, 0)
  }

  /** The index of virtual page v at each level, and the number of the table of each level that covers it. */
  function Index0(v: nat): (i: nat)
    ensures i < 512
  {
    v % 512
  }

  function Low(v: nat): (l: nat) {
    v / 512
  }

  /** What a page maps to; perm is not 0, which would be a pointer. */
  datatype Leaf = Leaf(ppn: nat, perm: nat)

  datatype Role = Root | MidTable(m: nat) | LowTable(l: nat)

  /** A page table: its middle tables by index, its lowest tables by number, its mappings, and the part that
      each of its pages plays. */
  datatype Space = Space(root: nat, mids: map<nat, nat>, lows: map<nat, nat>, leaves: map<nat, Leaf>, tabs: map<nat, Role>)

  ghost predicate IsTable(mem: map<nat, Page>, f: nat) {
    f in mem && mem[f].Table? && |mem[f].ptes| == 512
  }

  /** The entries of the table in page f are the pointers or mappings numbered from base on. */
  ghost predicate Points(mem: map<nat, Page>, f: nat, base: nat, down: map<nat, nat>) {
    && IsTable(mem, f)
    && forall i :: 0 <= i < 512 ==> mem[f].ptes[i] == if base + i in down then Ptr(down[base + i]) else NIL
  }

  ghost predicate Maps(mem: map<nat, Page>, f: nat, base: nat, leaves: map<nat, Leaf>) {
    && IsTable(mem, f)
    && forall i :: 0 <= i < 512 ==>
      mem[f].ptes[i] == if base + i in leaves then Pte(true, leaves[base + i].ppn, leaves[base + i].perm) else NIL
  }

  /** Every table hangs on the one above it, and each page of the page table plays one part. */
  ghost predicate Shape(sp: Space) {
    && sp.root > 0 && sp.root in sp.tabs && sp.tabs[sp.root] == Root
    && (forall m :: m in sp.mids ==> m < 512 && sp.mids[m] > 0 && sp.mids[m] in sp.tabs && sp.tabs[sp.mids[m]] == MidTable(m))
    && (forall l :: l in sp.lows ==> l / 512 in sp.mids && sp.lows[l] > 0 && sp.lows[l] in sp.tabs && sp.tabs[sp.lows[l]] == LowTable(l))
    && (forall v :: v in sp.leaves ==> Low(v) in sp.lows && sp.leaves[v].perm != 0)
    && (forall f :: f in sp.tabs ==> RoleOk(sp, f))
  }

  ghost predicate RoleOk(sp: Space, f: nat)
    requires f in sp.tabs
  {
    match sp.tabs[f]
    case Root => f == sp.root
    case MidTable(m) => m in sp.mids && sp.mids[m] == f
    case LowTable(l) => l in sp.lows && sp.lows[l] == f
  }

  /** Memory holds the page table. */
  ghost predicate Rep(mem: map<nat, Page>, sp: Space) {
    && Shape(sp) && Points(mem, sp.root, 0, sp.mids)
    && (forall m :: m in sp.mids ==> Points(mem, sp.mids[m], 512 * m, sp.lows))
    && (forall l :: l in sp.lows ==> Maps(mem, sp.lows[l], 512 * l, sp.leaves))
  }

  /** Memory may change anywhere but in the pages of the page table. */
  lemma RepKept(mem: map<nat, Page>, mem': map<nat, Page>, sp: Space)
    requires Rep(mem, sp) && forall f :: f in sp.tabs && f in mem ==> f in mem' && mem'[f] == mem[f]
    ensures Rep(mem', sp)
  {
  }

  function Zeros(): (p: Page) {
    Table(seq(512, _ => NIL))
  }

  function SetPte(mem: map<nat, Page>, f: nat, i: nat, p: Pte): (r: map<nat, Page>)
    requires f in mem && mem[f].Table? && i < |mem[f].ptes|
  {
    mem[f := Table(mem[f].ptes[i := p])]
  }

  /** One entry of a table of pointers is set. */
  lemma PointsSet(mem: map<nat, Page>, f: nat, base: nat, down: map<nat, nat>, i: nat, g: nat)
    requires Points(mem, f, base, down) && i < 512
    ensures Points(SetPte(mem, f, i, Ptr(g)), f, base, down[base + i := g])
  {
  }

  /** Neither the page of the table nor its part of the map changes. */
  lemma PointsKept(mem: map<nat, Page>, mem': map<nat, Page>, f: nat, base: nat, down: map<nat, nat>, l: nat, g: nat)
    requires Points(mem, f, base, down) && f in mem' && mem'[f] == mem[f] && !(base <= l < base + 512)
    ensures Points(mem', f, base, down[l := g])
  {
  }

  lemma MapsSet(mem: map<nat, Page>, f: nat, base: nat, leaves: map<nat, Leaf>, i: nat, x: Leaf)
    requires Maps(mem, f, base, leaves) && i < 512
    ensures Maps(SetPte(mem, f, i, Pte(true, x.ppn, x.perm)), f, base, leaves[base + i := x])
    ensures Maps(SetPte(mem, f, i, NIL), f, base, leaves - {base + i})
  {
  }

  lemma MapsKept(mem: map<nat, Page>, mem': map<nat, Page>, f: nat, base: nat, leaves: map<nat, Leaf>, v: nat, x: Leaf)
    requires Maps(mem, f, base, leaves) && f in mem' && mem'[f] == mem[f] && !(base <= v < base + 512)
    ensures Maps(mem', f, base, leaves[v := x]) && Maps(mem', f, base, leaves - {v})
  {
  }

  /** The number of an entry. */
  lemma Entry(l: nat, k: nat)
    ensures 512 * (l / 512) + l % 512 == l && (512 * k <= l < 512 * k + 512 <==> k == l / 512)
  {
  }

  // ---------------------------------------------------------------------------------------------
  // Adding a table, adding and removing a mapping
  // ---------------------------------------------------------------------------------------------

  function WithMid(sp: Space, m: nat, f: nat): (r: Space) {
    sp.(mids := sp.mids[m := f], tabs := sp.tabs[f := MidTable(m)])
  }

  lemma MidShape(sp: Space, m: nat, f: nat)
    requires Shape(sp) && m < 512 && m !in sp.mids && f > 0 && f !in sp.tabs
    ensures Shape(WithMid(sp, m, f))
  {
    var sp' := WithMid(sp, m, f);
    forall g | g in sp'.tabs ensures RoleOk(sp', g) {
      assert g != f ==> RoleOk(sp, g);
    }
  }

  /** A new middle table, empty, entered in the root. */
  lemma AddMid(mem: map<nat, Page>, sp: Space, m: nat, f: nat)
    requires Rep(mem, sp) && m < 512 && m !in sp.mids && f > 0 && f !in sp.tabs
    ensures IsTable(mem[f := Zeros()], sp.root)
    ensures Rep(SetPte(mem[f := Zeros()], sp.root, m, Ptr(f)), WithMid(sp, m, f))
  {
    var mem', sp' := SetPte(mem[f := Zeros()], sp.root, m, Ptr(f)), WithMid(sp, m, f);
    MidShape(sp, m, f);
    forall k | k in sp'.mids ensures Points(mem', sp'.mids[k], 512 * k, sp'.lows) {
      if k == m {
        NothingBelow(sp, m);
      } else {
        assert Points(mem, sp.mids[k], 512 * k, sp.lows);
      }
    }
    forall l | l in sp'.lows ensures Maps(mem', sp'.lows[l], 512 * l, sp'.leaves) {
      assert Maps(mem, sp.lows[l], 512 * l, sp.leaves);
    }
  }

  lemma NothingBelow(sp: Space, m: nat)
    requires Shape(sp) && m !in sp.mids
    ensures forall l :: 512 * m <= l < 512 * m + 512 ==> l !in sp.lows
  {
  }

  function WithLow(sp: Space, l: nat, f: nat): (r: Space) {
    sp.(lows := sp.lows[l := f], tabs := sp.tabs[f := LowTable(l)])
  }

  lemma LowShape(sp: Space, l: nat, f: nat)
    requires Shape(sp) && l / 512 in sp.mids && l !in sp.lows && f > 0 && f !in sp.tabs
    ensures Shape(WithLow(sp, l, f))
  {
    var sp' := WithLow(sp, l, f);
    forall g | g in sp'.tabs ensures RoleOk(sp', g) {
      assert g != f ==> RoleOk(sp, g);
    }
  }

  /** A new lowest table, empty, entered in its middle table. */
  lemma AddLow(mem: map<nat, Page>, sp: Space, l: nat, f: nat)
    requires Rep(mem, sp) && l / 512 in sp.mids && l !in sp.lows && f > 0 && f !in sp.tabs
    ensures IsTable(mem[f := Zeros()], sp.mids[l / 512])
    ensures Rep(SetPte(mem[f := Zeros()], sp.mids[l / 512], l % 512, Ptr(f)), WithLow(sp, l, f))
  {
    var t := sp.mids[l / 512];
    assert Points(mem, t, 512 * (l / 512), sp.lows);
    var mem', sp' := SetPte(mem[f := Zeros()], t, l % 512, Ptr(f)), WithLow(sp, l, f);
    LowShape(sp, l, f);
    forall k | k in sp'.mids ensures Points(mem', sp'.mids[k], 512 * k, sp'.lows) {
      AddLowMid(mem, sp, l, f, k);
    }
    forall j | j in sp'.lows ensures Maps(mem', sp'.lows[j], 512 * j, sp'.leaves) {
      AddLowLow(mem, sp, l, f, j);
    }
    assert Points(mem', sp.root, 0, sp.mids);
  }

  lemma AddLowMid(mem: map<nat, Page>, sp: Space, l: nat, f: nat, k: nat)
    requires Rep(mem, sp) && l / 512 in sp.mids && l !in sp.lows && f > 0 && f !in sp.tabs && k in sp.mids
    requires IsTable(mem[f := Zeros()], sp.mids[l / 512])
    ensures Points(SetPte(mem[f := Zeros()], sp.mids[l / 512], l % 512, Ptr(f)), sp.mids[k], 512 * k, sp.lows[l := f])
  {
    var t, mem1 := sp.mids[l / 512], mem[f := Zeros()];
    assert Points(mem, sp.mids[k], 512 * k, sp.lows) && Points(mem, t, 512 * (l / 512), sp.lows);
    assert sp.mids[k] == t ==> k == l / 512;
    hide Points, Maps, Shape;
    Entry(l, k);
    if k == l / 512 {
      PointsUnchanged(mem, mem1, t, 512 * k, sp.lows);
      PointsSet(mem1, t, 512 * k, sp.lows, l % 512, f);
    } else {
      PointsKept(mem, SetPte(mem1, t, l % 512, Ptr(f)), sp.mids[k], 512 * k, sp.lows, l, f);
    }
  }

  lemma AddLowLow(mem: map<nat, Page>, sp: Space, l: nat, f: nat, j: nat)
    requires Rep(mem, sp) && l / 512 in sp.mids && l !in sp.lows && f > 0 && f !in sp.tabs && (j in sp.lows || j == l)
    requires IsTable(mem[f := Zeros()], sp.mids[l / 512])
    ensures Maps(SetPte(mem[f := Zeros()], sp.mids[l / 512], l % 512, Ptr(f)), sp.lows[l := f][j], 512 * j, sp.leaves)
  {
    if j == l {
      NoLeafBelow(sp, l);
    } else {
      assert Maps(mem, sp.lows[j], 512 * j, sp.leaves);
    }
  }

  lemma PointsUnchanged(mem: map<nat, Page>, mem': map<nat, Page>, f: nat, base: nat, down: map<nat, nat>)
    requires Points(mem, f, base, down) && f in mem' && mem'[f] == mem[f]
    ensures Points(mem', f, base, down)
  {
  }

  lemma NoLeafBelow(sp: Space, l: nat)
    requires Shape(sp) && l !in sp.lows
    ensures forall v :: 512 * l <= v < 512 * l + 512 ==> v !in sp.leaves
  {
  }

  function WithLeaf(sp: Space, v: nat, x: Leaf): (r: Space) {
    sp.(leaves := sp.leaves[v := x])
  }

  /** The page of one lowest table changes: the tables above it do not. */
  lemma UpperKept(mem: map<nat, Page>, mem': map<nat, Page>, sp: Space, l: nat)
    requires Rep(mem, sp) && l in sp.lows
    requires forall f :: f in mem && f != sp.lows[l] ==> f in mem' && mem'[f] == mem[f]
    ensures Points(mem', sp.root, 0, sp.mids)
    ensures forall m :: m in sp.mids ==> Points(mem', sp.mids[m], 512 * m, sp.lows)
  {
  }

  lemma LeafShape(sp: Space, leaves: map<nat, Leaf>)
    requires Shape(sp) && forall v :: v in leaves ==> Low(v) in sp.lows && leaves[v].perm != 0
    ensures Shape(sp.(leaves := leaves))
  {
  }

  /** A mapping entered in its table. */
  lemma AddLeaf(mem: map<nat, Page>, sp: Space, v: nat, x: Leaf)
    requires Rep(mem, sp) && Low(v) in sp.lows && x.perm != 0
    ensures IsTable(mem, sp.lows[Low(v)]) && Rep(SetPte(mem, sp.lows[Low(v)], Index0(v), Pte(true, x.ppn, x.perm)), WithLeaf(sp, v, x))
  {
    var t := sp.lows[Low(v)];
    assert Maps(mem, t, 512 * Low(v), sp.leaves);
    var mem', sp' := SetPte(mem, t, Index0(v), Pte(true, x.ppn, x.perm)), WithLeaf(sp, v, x);
    LeafShape(sp, sp'.leaves);
    UpperKept(mem, mem', sp, Low(v));
    hide Points, Maps, Shape;
    forall l | l in sp.lows ensures Maps(mem', sp.lows[l], 512 * l, sp'.leaves) {
      LeafSet(mem, sp, v, x, l);
    }
  }

  lemma LeafSet(mem: map<nat, Page>, sp: Space, v: nat, x: Leaf, l: nat)
    requires Rep(mem, sp) && Low(v) in sp.lows && l in sp.lows && IsTable(mem, sp.lows[Low(v)])
    ensures Maps(SetPte(mem, sp.lows[Low(v)], Index0(v), Pte(true, x.ppn, x.perm)), sp.lows[l], 512 * l, sp.leaves[v := x])
    ensures Maps(SetPte(mem, sp.lows[Low(v)], Index0(v), NIL), sp.lows[l], 512 * l, sp.leaves - {v})
  {
    var t := sp.lows[Low(v)];
    assert Maps(mem, sp.lows[l], 512 * l, sp.leaves);
    assert sp.lows[l] == t ==> l == Low(v);
    assert sp.lows[l] in mem;
    hide Points, Maps, Shape;
    Entry(v, l);
    if l == Low(v) {
      MapsSet(mem, t, 512 * l, sp.leaves, Index0(v), x);
    } else {
      MapsKept(mem, SetPte(mem, t, Index0(v), Pte(true, x.ppn, x.perm)), sp.lows[l], 512 * l, sp.leaves, v, x);
      MapsKept(mem, SetPte(mem, t, Index0(v), NIL), sp.lows[l], 512 * l, sp.leaves, v, x);
    }
  }

  function WithoutLeaf(sp: Space, v: nat): (r: Space) {
    sp.(leaves := sp.leaves - {v})
  }

  lemma RemoveLeaf(mem: map<nat, Page>, sp: Space, v: nat)
    requires Rep(mem, sp) && Low(v) in sp.lows
    ensures IsTable(mem, sp.lows[Low(v)]) && Rep(SetPte(mem, sp.lows[Low(v)], Index0(v), NIL), WithoutLeaf(sp, v))
  {
    var t := sp.lows[Low(v)];
    assert Maps(mem, t, 512 * Low(v), sp.leaves);
    var mem', sp' := SetPte(mem, t, Index0(v), NIL), WithoutLeaf(sp, v);
    assert forall u :: u in sp'.leaves ==> u in sp.leaves && sp'.leaves[u] == sp.leaves[u];
    LeafShape(sp, sp'.leaves);
    UpperKept(mem, mem', sp, Low(v));
    hide Points, Maps, Shape;
    forall l | l in sp.lows ensures Maps(mem', sp.lows[l], 512 * l, sp'.leaves) {
      LeafSet(mem, sp, v, Leaf(0, 1), l);
    }
  }

  // ---------------------------------------------------------------------------------------------
  // What walk reads
  // ---------------------------------------------------------------------------------------------

  lemma RootEntry(mem: map<nat, Page>, sp: Space, m: nat)
    requires Rep(mem, sp) && m < 512
    ensures IsTable(mem, sp.root) && mem[sp.root].ptes[m] == if m in sp.mids then Ptr(sp.mids[m]) else NIL
  {
  }

  lemma MidEntry(mem: map<nat, Page>, sp: Space, l: nat)
    requires Rep(mem, sp) && l / 512 in sp.mids
    ensures IsTable(mem, sp.mids[l / 512]) && mem[sp.mids[l / 512]].ptes[l % 512] == if l in sp.lows then Ptr(sp.lows[l]) else NIL
  {
  }

  lemma LowEntry(mem: map<nat, Page>, sp: Space, v: nat)
    requires Rep(mem, sp) && Low(v) in sp.lows
    ensures IsTable(mem, sp.lows[Low(v)])
    ensures mem[sp.lows[Low(v)]].ptes[Index0(v)] == if v in sp.leaves then Pte(true, sp.leaves[v].ppn, sp.leaves[v].perm) else NIL
  {
    assert Maps(mem, sp.lows[Low(v)], 512 * Low(v), sp.leaves);
    assert 512 * Low(v) + Index0(v) == v;
  }
}
