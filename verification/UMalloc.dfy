/** The Kernighan and Ritchie allocator of user/umalloc.c.  Addresses count Header units; memory maps
    the address of a header to its two fields.  The static header `base` lies below the heap. */
module UMalloc {
  import opened Sums

  const HEADER: nat := 16

  datatype Header = Header(ptr: int, size: nat)

  /** A block of `size` units whose header is its first unit. */
  datatype Blk = Blk(addr: int, size: nat) {
    function End(): (e: int) {
      addr + size
    }
  }

  // ---------------------------------------------------------------------------------------------
  // The free list as a sequence of blocks
  // ---------------------------------------------------------------------------------------------

  /** In address order, without overlap, and with a gap between any two blocks, so that nothing is left
      to coalesce. */
  ghost predicate Apart(fl: seq<Blk>) {
    forall i, j :: 0 <= i < j < |fl| ==> fl[i].End() < fl[j].addr
  }

  /** The free list starts at base, which has no units. */
  ghost predicate FreeList(base: int, fl: seq<Blk>) {
    && |fl| >= 1 && fl[0] == Blk(base, 0) && Apart(fl)
    && (forall i :: 1 <= i < |fl| ==> fl[i].size >= 1)
  }

  /** b fits between block k and the next one. */
  ghost predicate Fits(fl: seq<Blk>, k: nat, b: Blk) {
    && k < |fl| && b.size >= 1 && fl[k].addr < b.addr && fl[k].End() <= b.addr
    && (k + 1 < |fl| ==> b.End() <= fl[k + 1].addr)
  }

  function InsertAfter(fl: seq<Blk>, k: nat, b: Blk): (r: seq<Blk>)
    requires k < |fl|
  {
    fl[..k + 1] + [b] + fl[k + 1..]
  }

  /** Blocks i and i + 1 become one if they touch. */
  function Coalesce(fl: seq<Blk>, i: nat): (r: seq<Blk>) {
    if i + 1 < |fl| && fl[i].End() == fl[i + 1].addr
    then fl[..i] + [Blk(fl[i].addr, fl[i].size + fl[i + 1].size)] + fl[i + 2..]
    else fl
  }

  /** What free makes of the list: b after block k, merged with its neighbours where they touch. */
  function Insert(fl: seq<Blk>, k: nat, b: Blk): (r: seq<Blk>)
    requires k < |fl|
  {
    Coalesce(Coalesce(InsertAfter(fl, k, b), k + 1), k)
  }

  ghost predicate Inserted(fl: seq<Blk>, k: nat, b: Blk, r: seq<Blk>) {
    Fits(fl, k, b) && r == Insert(fl, k, b)
  }

  function Units(fl: seq<Blk>): (n: nat) {
    if fl == [] then 0 else fl[0].size + Units(fl[1..])
  }

  lemma {:induction false} UnitsConcat(a: seq<Blk>, b: seq<Blk>)
    ensures Units(a + b) == Units(a) + Units(b)
  {
    if a == [] {
      assert a + b == b;
    } else {
      assert (a + b)[1..] == a[1..] + b;
      UnitsConcat(a[1..], b);
    }
  }

  /** The blocks of s between positions i and j. */
  lemma UnitsSplit(fl: seq<Blk>, k: nat)
    requires k < |fl|
    ensures Units(fl) == Units(fl[..k]) + fl[k].size + Units(fl[k + 1..])
  {
    assert Units([fl[k]]) == fl[k].size;
    hide Units;
    var rest := [fl[k]] + fl[k + 1..];
    UnitsConcat([fl[k]], fl[k + 1..]);
    UnitsConcat(fl[..k], rest);
    assert fl == fl[..k] + rest;
  }

  lemma UnitsReplace(fl: seq<Blk>, k: nat, b: Blk)
    requires k < |fl|
    ensures Units(fl[..k] + [b] + fl[k + 1..]) == Units(fl) - fl[k].size + b.size
  {
    UnitsSplit(fl, k);
    var r := fl[..k] + [b] + fl[k + 1..];
    UnitsSplit(r, k);
    assert r[..k] == fl[..k] && r[k + 1..] == fl[k + 1..];
  }

  lemma UnitsRemove(fl: seq<Blk>, k: nat)
    requires k < |fl|
    ensures Units(fl[..k] + fl[k + 1..]) == Units(fl) - fl[k].size
  {
    UnitsSplit(fl, k);
    UnitsConcat(fl[..k], fl[k + 1..]);
  }

  lemma InsertAfterUnits(fl: seq<Blk>, k: nat, b: Blk)
    requires k < |fl|
    ensures Units(InsertAfter(fl, k, b)) == Units(fl) + b.size
  {
    var r := InsertAfter(fl, k, b);
    UnitsSplit(r, k + 1);
    assert r[..k + 1] == fl[..k + 1] && r[k + 2..] == fl[k + 1..];
    assert fl == fl[..k + 1] + fl[k + 1..];
    UnitsConcat(fl[..k + 1], fl[k + 1..]);
  }

  lemma CoalesceUnits(fl: seq<Blk>, i: nat)
    ensures Units(Coalesce(fl, i)) == Units(fl)
  {
    if i + 1 < |fl| && fl[i].End() == fl[i + 1].addr {
      var r := Coalesce(fl, i);
      UnitsSplit(fl, i);
      UnitsSplit(fl[i + 1..], 0);
      assert fl[i + 1..][0 + 1..] == fl[i + 2..] && fl[i + 1..][..0] == [];
      UnitsSplit(r, i);
      assert r[..i] == fl[..i] && r[i + 1..] == fl[i + 2..];
    }
  }

  /** In order, with gaps everywhere except possibly after blocks a and b. */
  ghost predicate ApartBut(fl: seq<Blk>, a: int, b: int) {
    && (forall i, j :: 0 <= i < j < |fl| ==> fl[i].End() <= fl[j].addr)
    && (forall i, j :: 0 <= i < j < |fl| && (j != i + 1 || (i != a && i != b)) ==> fl[i].End() < fl[j].addr)
  }

  lemma InsertAfterApart(fl: seq<Blk>, k: nat, b: Blk)
    requires Apart(fl) && Fits(fl, k, b)
    ensures ApartBut(InsertAfter(fl, k, b), k, k + 1)
  {
    var r := InsertAfter(fl, k, b);
    forall i, j | 0 <= i < j < |r|
      ensures r[i].End() <= r[j].addr && (j != i + 1 || (i != k && i != k + 1) ==> r[i].End() < r[j].addr)
    {
      assert r[i] == if i <= k then fl[i] else if i == k + 1 then b else fl[i - 1];
      assert r[j] == if j <= k then fl[j] else if j == k + 1 then b else fl[j - 1];
    }
  }

  /** Block n of the list after blocks i and i + 1 have become one. */
  lemma CoalesceAt(fl: seq<Blk>, i: nat, n: nat)
    requires i + 1 < |fl| && fl[i].End() == fl[i + 1].addr && n < |fl| - 1
    ensures |Coalesce(fl, i)| == |fl| - 1
    ensures Coalesce(fl, i)[n] ==
      if n < i then fl[n] else if n == i then Blk(fl[i].addr, fl[i].size + fl[i + 1].size) else fl[n + 1]
  {
  }

  lemma CoalesceApart(fl: seq<Blk>, a: int, i: nat)
    requires ApartBut(fl, a, i) && a < i
    ensures ApartBut(Coalesce(fl, i), a, a)
  {
    if i + 1 < |fl| && fl[i].End() == fl[i + 1].addr {
      var r := Coalesce(fl, i);
      CoalesceAt(fl, i, 0);
      hide Coalesce;
      forall m, n | 0 <= m < n < |r|
        ensures r[m].End() <= r[n].addr && (n != m + 1 || m != a ==> r[m].End() < r[n].addr)
      {
        CoalesceAt(fl, i, m);
        CoalesceAt(fl, i, n);
      }
    }
  }

  lemma CoalesceLast(fl: seq<Blk>, i: nat)
    requires ApartBut(fl, i, i)
    ensures Apart(Coalesce(fl, i))
  {
  }

  lemma CoalesceSizes(base: int, fl: seq<Blk>, i: nat)
    requires |fl| >= 1 && fl[0] == Blk(base, 0) && (forall n :: 1 <= n < |fl| ==> fl[n].size >= 1)
    requires i == 0 && |fl| > 1 ==> base != fl[1].addr
    ensures var r := Coalesce(fl, i);
      |r| >= 1 && r[0] == Blk(base, 0) && (forall n :: 1 <= n < |r| ==> r[n].size >= 1)
      && (i != 0 && |r| > 1 && |fl| > 1 ==> r[1].addr == fl[1].addr)
  {
  }

  /** The list after the first join: in order, with at most block k touching the next one. */
  lemma InsertedForm(base: int, fl: seq<Blk>, k: nat, b: Blk)
    requires FreeList(base, fl) && Fits(fl, k, b)
    ensures var f2 := Coalesce(InsertAfter(fl, k, b), k + 1);
      && ApartBut(f2, k, k) && |f2| >= 1 && f2[0] == Blk(base, 0)
      && (forall n :: 1 <= n < |f2| ==> f2[n].size >= 1) && (|f2| > 1 ==> base < f2[1].addr)
  {
    var f1 := InsertAfter(fl, k, b);
    InsertAfterApart(fl, k, b);
    assert f1[0] == Blk(base, 0) && base < f1[1].addr;
    assert forall n :: 1 <= n < |f1| ==> f1[n].size >= 1;
    hide InsertAfter, Coalesce, ApartBut, Apart;
    CoalesceApart(f1, k, k + 1);
    CoalesceSizes(base, f1, k + 1);
  }

  /** free keeps the list in order and fully coalesced, and adds exactly the units of b. */
  lemma InsertKeeps(base: int, fl: seq<Blk>, k: nat, b: Blk)
    requires FreeList(base, fl) && Fits(fl, k, b)
    ensures FreeList(base, Insert(fl, k, b))
    ensures Units(Insert(fl, k, b)) == Units(fl) + b.size
  {
    var f1 := InsertAfter(fl, k, b);
    var f2 := Coalesce(f1, k + 1);
    InsertedForm(base, fl, k, b);
    hide InsertAfter, Coalesce, ApartBut, Apart, Units;
    InsertAfterUnits(fl, k, b);
    CoalesceUnits(f1, k + 1);
    CoalesceLast(f2, k);
    CoalesceUnits(f2, k);
    CoalesceSizes(base, f2, k);
  }

  // ---------------------------------------------------------------------------------------------
  // The list in memory
  // ---------------------------------------------------------------------------------------------

  function Succ(n: nat, i: nat): (j: nat)
    requires i < n
    ensures j < n
  {
    if i + 1 < n then i + 1 else 0
  }

  /** The headers of the free blocks form a ring in list order. */
  ghost predicate InMem(mem: map<int, Header>, fl: seq<Blk>) {
    forall i {:trigger mem[fl[i].addr]} :: 0 <= i < |fl| ==>
      fl[i].addr in mem && mem[fl[i].addr] == Header(fl[Succ(|fl|, i)].addr, fl[i].size)
  }

  function SetPtr(mem: map<int, Header>, a: int, ptr: int): (r: map<int, Header>)
    requires a in mem
  {
    mem[a := mem[a].(ptr := ptr)]
  }

  function SetSize(mem: map<int, Header>, a: int, size: nat): (r: map<int, Header>)
    requires a in mem
  {
    mem[a := mem[a].(size := size)]
  }

  /** The assignments of free once it has found p: first bp and the block after p, then p and bp. */
  function JoinRight(mem: map<int, Header>, p: int, bp: int): (r: map<int, Header>)
    requires p in mem && bp in mem && mem[p].ptr in mem
  {
    var nx := mem[p].ptr;
    if bp + mem[bp].size == nx then mem[bp := Header(mem[nx].ptr, mem[bp].size + mem[nx].size)]
    else SetPtr(mem, bp, nx)
  }

  function JoinLeft(mem: map<int, Header>, p: int, bp: int): (r: map<int, Header>)
    requires p in mem && bp in mem
  {
    if p + mem[p].size == bp then mem[p := Header(mem[bp].ptr, mem[p].size + mem[bp].size)]
    else SetPtr(mem, p, bp)
  }

  /** InMem, except that block k still points past its new successor. */
  ghost predicate InMemBut(mem: map<int, Header>, fl: seq<Blk>, k: nat) {
    && k + 1 < |fl|
    && (forall i {:trigger mem[fl[i].addr]} {:trigger fl[i].addr in mem} :: 0 <= i < |fl| ==>
          fl[i].addr in mem && mem[fl[i].addr].size == fl[i].size
          && (i != k ==> mem[fl[i].addr].ptr == fl[Succ(|fl|, i)].addr))
  }

  /** Distinct blocks of the list have distinct addresses. */
  lemma DistinctAddr(fl: seq<Blk>, i: nat, j: nat)
    requires i < |fl| && j < |fl| && i != j && forall m, n :: 0 <= m < n < |fl| ==> fl[m].End() <= fl[n].addr
    requires forall m :: 1 <= m < |fl| ==> fl[m].size >= 1
    requires |fl| > 1 ==> fl[0].addr < fl[1].addr
    ensures fl[i].addr != fl[j].addr
  {
  }

  /** A block that fits into the list has an address of its own. */
  lemma FitsElsewhere(fl: seq<Blk>, k: nat, b: Blk, n: nat)
    requires Apart(fl) && Fits(fl, k, b) && n < |fl|
    ensures fl[n].addr != b.addr
  {
  }

  /** Block i after the first join, whether or not it happened. */
  lemma Joined(fl: seq<Blk>, k: nat, b: Blk, i: nat)
    requires k < |fl| && i < |Coalesce(InsertAfter(fl, k, b), k + 1)|
    ensures var touch := k + 1 < |fl| && b.End() == fl[k + 1].addr;
      var f2 := Coalesce(InsertAfter(fl, k, b), k + 1);
      && |f2| == (if touch then |fl| else |fl| + 1)
      && f2[i] == if i <= k then fl[i]
                  else if i == k + 1 then (if touch then Blk(b.addr, b.size + fl[k + 1].size) else b)
                  else if touch then fl[i] else fl[i - 1]
  {
  }

  lemma BaseLowest(base: int, fl: seq<Blk>, k: nat)
    requires FreeList(base, fl) && k < |fl|
    ensures base <= fl[k].addr
  {
  }

  lemma MemAt(mem: map<int, Header>, fl: seq<Blk>, i: nat)
    requires InMem(mem, fl) && i < |fl|
    ensures fl[i].addr in mem && mem[fl[i].addr] == Header(fl[Succ(|fl|, i)].addr, fl[i].size)
  {
  }

  /** free has found its place: bp and its neighbours are in memory. */
  ghost predicate Found(base: int, mem: map<int, Header>, fl: seq<Blk>, k: nat, b: Blk) {
    && FreeList(base, fl) && InMem(mem, fl) && Fits(fl, k, b) && b.addr in mem && mem[b.addr].size == b.size
    && fl[k].addr in mem && mem[fl[k].addr].ptr in mem
  }

  lemma JoinRightSize(base: int, mem: map<int, Header>, fl: seq<Blk>, k: nat, b: Blk, i: nat)
    requires Found(base, mem, fl, k, b) && i < |Coalesce(InsertAfter(fl, k, b), k + 1)|
    ensures var mem1, x := JoinRight(mem, fl[k].addr, b.addr), Coalesce(InsertAfter(fl, k, b), k + 1)[i];
      x.addr in mem1 && mem1[x.addr].size == x.size
  {
    hide Coalesce, InsertAfter, Apart, InMem;
    BaseLowest(base, fl, k);
    Joined(fl, k, b, i);
    MemAt(mem, fl, k);
    MemAt(mem, fl, Succ(|fl|, k));
    var touch := k + 1 < |fl| && b.End() == fl[k + 1].addr;
    assert touch <==> b.addr + mem[b.addr].size == mem[fl[k].addr].ptr;
    if i != k + 1 {
      var src := if i <= k then i else if touch then i else i - 1;
      FitsElsewhere(fl, k, b, src);
      MemAt(mem, fl, src);
    }
  }

  lemma JoinRightPtr(base: int, mem: map<int, Header>, fl: seq<Blk>, k: nat, b: Blk, i: nat)
    requires Found(base, mem, fl, k, b) && i < |Coalesce(InsertAfter(fl, k, b), k + 1)| && i != k
    requires Coalesce(InsertAfter(fl, k, b), k + 1)[i].addr in JoinRight(mem, fl[k].addr, b.addr)
    ensures var mem1, f2 := JoinRight(mem, fl[k].addr, b.addr), Coalesce(InsertAfter(fl, k, b), k + 1);
      mem1[f2[i].addr].ptr == f2[Succ(|f2|, i)].addr
  {
    hide Coalesce, InsertAfter, Apart, InMem;
    BaseLowest(base, fl, k);
    Joined(fl, k, b, i);
    Joined(fl, k, b, Succ(|Coalesce(InsertAfter(fl, k, b), k + 1)|, i));
    MemAt(mem, fl, k);
    MemAt(mem, fl, Succ(|fl|, k));
    var touch := k + 1 < |fl| && b.End() == fl[k + 1].addr;
    assert touch <==> b.addr + mem[b.addr].size == mem[fl[k].addr].ptr;
    if i != k + 1 {
      var src := if i <= k then i else if touch then i else i - 1;
      FitsElsewhere(fl, k, b, src);
      MemAt(mem, fl, src);
    }
  }

  lemma JoinRightStores(base: int, mem: map<int, Header>, fl: seq<Blk>, k: nat, b: Blk)
    requires Found(base, mem, fl, k, b)
    ensures var f2 := Coalesce(InsertAfter(fl, k, b), k + 1);
      && InMemBut(JoinRight(mem, fl[k].addr, b.addr), f2, k)
      && f2[k] == fl[k] && f2[k + 1].addr == b.addr
  {
    var f2 := Coalesce(InsertAfter(fl, k, b), k + 1);
    var mem1 := JoinRight(mem, fl[k].addr, b.addr);
    Joined(fl, k, b, 0);
    Joined(fl, k, b, k);
    Joined(fl, k, b, k + 1);
    hide Coalesce, InsertAfter, JoinRight, Found;
    forall i | 0 <= i < |f2|
      ensures f2[i].addr in mem1 && mem1[f2[i].addr].size == f2[i].size
      ensures i != k ==> mem1[f2[i].addr].ptr == f2[Succ(|f2|, i)].addr
    {
      JoinRightSize(base, mem, fl, k, b, i);
      if i != k {
        JoinRightPtr(base, mem, fl, k, b, i);
      }
    }
  }

  /** The list after both joins is in memory. */
  lemma JoinLeftStores(mem: map<int, Header>, f2: seq<Blk>, k: nat)
    requires InMemBut(mem, f2, k)
    requires forall i, j :: 0 <= i < j < |f2| ==> f2[i].addr != f2[j].addr
    ensures InMem(JoinLeft(mem, f2[k].addr, f2[k + 1].addr), Coalesce(f2, k))
  {
  }

  /** The memory after free holds the list with b inserted. */
  lemma FreeStores(base: int, mem: map<int, Header>, fl: seq<Blk>, k: nat, b: Blk)
    requires Found(base, mem, fl, k, b)
    ensures InMem(JoinLeft(JoinRight(mem, fl[k].addr, b.addr), fl[k].addr, b.addr), Insert(fl, k, b))
  {
    var f1 := InsertAfter(fl, k, b);
    var f2 := Coalesce(f1, k + 1);
    JoinRightStores(base, mem, fl, k, b);
    InsertedForm(base, fl, k, b);
    hide InsertAfter, Coalesce, InMem, InMemBut, JoinRight, JoinLeft, Apart;
    forall i, j | 0 <= i < j < |f2| ensures f2[i].addr != f2[j].addr {
      DistinctAddr(f2, i, j);
    }
    JoinLeftStores(JoinRight(mem, fl[k].addr, b.addr), f2, k);
  }

  // ---------------------------------------------------------------------------------------------
  // Allocated blocks
  // ---------------------------------------------------------------------------------------------

  /** Live blocks lie in the heap, have kept their headers, and do not overlap. */
  ghost predicate LiveOk(base: int, brk: int, mem: map<int, Header>, live: map<int, nat>) {
    && (forall a: int :: a in live ==> a in mem && mem[a].size == live[a] && live[a] >= 1 && base < a && a + live[a] <= brk)
    && (forall a: int, b: int :: a in live && b in live && a < b ==> a + live[a] <= b)
  }

  /** b shares no unit with a live block. */
  ghost predicate ClearOf(b: Blk, live: map<int, nat>) {
    forall a: int :: a in live ==> b.End() <= a || a + live[a] <= b.addr
  }

  ghost predicate Clear(fl: seq<Blk>, live: map<int, nat>) {
    forall i :: 0 <= i < |fl| ==> ClearOf(fl[i], live)
  }

  lemma InsertClear(fl: seq<Blk>, k: nat, b: Blk, live: map<int, nat>)
    requires k < |fl| && Clear(fl, live) && ClearOf(b, live) && forall a: int :: a in live ==> live[a] >= 1
    ensures Clear(Insert(fl, k, b), live)
  {
  }

  /** No block reaches past brk. */
  ghost predicate Below(fl: seq<Blk>, brk: int) {
    forall i :: 0 <= i < |fl| ==> fl[i].End() <= brk
  }

  lemma InsertBelow(fl: seq<Blk>, k: nat, b: Blk, brk: int)
    requires k < |fl| && Below(fl, brk) && b.End() <= brk
    ensures Below(Insert(fl, k, b), brk)
  {
  }

  /** The position after which b belongs. */
  lemma {:induction false} PlaceExists(base: int, fl: seq<Blk>, live: map<int, nat>, bp: int, n: nat) returns (k: nat)
    requires FreeList(base, fl) && Clear(fl, live) && bp in live && live[bp] >= 1 && base < bp
    requires 0 < n <= |fl| && (n < |fl| ==> bp < fl[n].addr)
    ensures Fits(fl, k, Blk(bp, live[bp]))
    decreases n
  {
    assert ClearOf(fl[n - 1], live);
    if fl[n - 1].addr < bp {
      k := n - 1;
      if n < |fl| {
        assert ClearOf(fl[n], live);
      }
    } else {
      assert fl[n - 1].addr != bp by {
        if n > 1 {
          assert fl[n - 1].size >= 1;
        }
      }
      k := PlaceExists(base, fl, live, bp, n - 1);
    }
  }

  ghost predicate OnList(fl: seq<Blk>, a: int) {
    exists j :: 0 <= j < |fl| && fl[j].addr == a
  }

  class Heap {
    const base: int
    var mem: map<int, Header>
    var freep: int
    ghost var fl: seq<Blk>
    ghost var live: map<int, nat>
    /** Units listed or live, and the end of the highest of them. */
    ghost var total: nat
    ghost var brk: int
    /** Units that sbrk has added to the process for the heap, and the end of the memory that the process has. */
    ghost var got: int
    ghost var end: int

    /** The initial state of the program: freep is null, and nothing has been obtained from sbrk. */
    constructor (b: int, top: int)
      requires 0 < b < top
      ensures Valid() && Backed() && live == map[] && total == 0 && freep == 0 && fl == [Blk(b, 0)] && brk == end == top
    {
      base, mem, freep := b, map[], 0;
      fl, live, total, brk := [Blk(b, 0)], map[], 0, top;
      got, end := 0, top;
    }

    /** Every unit of the heap is memory that the process has, and was obtained for the heap. */
    ghost predicate Backed()
      reads this
    {
      brk <= end && total == got
    }

    ghost predicate Ready()
      reads this
    {
      freep != 0 && InMem(mem, fl) && OnList(fl, freep)
    }

    ghost predicate Valid()
      reads this
    {
      && 0 < base < brk && FreeList(base, fl) && Below(fl, brk)
      && LiveOk(base, brk, mem, live) && Clear(fl, live)
      && Units(fl) + Sum(live) == total
      && (if freep == 0 then fl == [Blk(base, 0)] && live == map[] else Ready())
    }

    lemma Place() returns (j: nat)
      requires Valid() && freep != 0
      ensures j < |fl| && fl[j].addr == freep
    {
      j :| 0 <= j < |fl| && fl[j].addr == freep;
    }

    lemma At(j: nat)
      requires Valid() && freep != 0 && j < |fl|
      ensures fl[j].addr in mem && mem[fl[j].addr] == Header(fl[Succ(|fl|, j)].addr, fl[j].size)
    {
    }

    /** Except at base, which is empty, the two positions of malloc's scan are neighbours in the list. */
    lemma Preceding(f: nat, t: nat)
      requires Valid() && f < |fl| && t < |fl| && fl[Around(|fl|, f, t + 1)].size >= 1
      ensures Around(|fl|, f, t + 1) >= 1 && Around(|fl|, f, t) == Around(|fl|, f, t + 1) - 1
    {
    }

    /** A scan that has come back to freep has seen every block. */
    lemma ScanOver(f: nat, t: nat, nunits: nat)
      requires Valid() && f < |fl| && t < |fl| && fl[f].addr == fl[Around(|fl|, f, t + 1)].addr
      requires forall u :: 1 <= u <= t + 1 ==> fl[Around(|fl|, f, u)].size < nunits
      ensures TooSmall(fl, nunits)
    {
      forall i | 0 <= i < |fl| ensures fl[i].size < nunits {
        assert Around(|fl|, f, if i > f then i - f else i - f + |fl|) == i;
      }
    }

    lemma Stops(t: nat, b: Blk, j: nat)
      requires Valid() && Fits(fl, t, b) && j < |fl| && base < b.addr
      ensures var p, nx := fl[j].addr, fl[Succ(|fl|, j)].addr;
        (b.addr > p && b.addr < nx) || (p >= nx && (b.addr > p || b.addr < nx)) <==> j == t
    {
    }

    lemma LiveNotNull(a: int)
      requires Valid() && a in live
      ensures a > 0
    {
    }

    /** The loop of free. */
    method Search(bp: int) returns (p: int, ghost k: nat)
      requires Valid() && freep != 0 && bp in live
      ensures k < |fl| && p == fl[k].addr && Fits(fl, k, Blk(bp, live[bp]))
    {
      ghost var b := Blk(bp, live[bp]);
      ghost var t := PlaceExists(base, fl, live, bp, |fl|);
      ghost var j := Place();
      hide Valid, Fits;
      p := freep;
      At(j);
      Stops(t, b, j);
      while !(bp > p && bp < mem[p].ptr)
        invariant 0 <= j < |fl| && fl[j].addr == p && p in mem && mem[p].ptr == fl[Succ(|fl|, j)].addr
        invariant (bp > p && bp < mem[p].ptr) || (p >= mem[p].ptr && (bp > p || bp < mem[p].ptr)) <==> j == t
        decreases if j <= t then t - j else |fl| - j + t
      {
        if p >= mem[p].ptr && (bp > p || bp < mem[p].ptr) {
          break;
        }
        p := mem[p].ptr;
        j := Succ(|fl|, j);
        At(j);
        Stops(t, b, j);
      }
      k := j;
    }

    /** The assignments of free to the headers of bp and of its predecessor p. */
    method Link(p: int, bp: int)
      requires p in mem && bp in mem && mem[p].ptr in mem && p != bp && mem[p].ptr != bp
      modifies `mem
      ensures mem == JoinLeft(JoinRight(old(mem), p, bp), p, bp)
    {
      if bp + mem[bp].size == mem[p].ptr {
        mem := mem[bp := mem[bp].(size := mem[bp].size + mem[mem[p].ptr].size)];
        mem := mem[bp := mem[bp].(ptr := mem[mem[p].ptr].ptr)];
      } else {
        mem := mem[bp := mem[bp].(ptr := mem[p].ptr)];
      }
      if p + mem[p].size == bp {
        mem := mem[p := mem[p].(size := mem[p].size + mem[bp].size)];
        mem := mem[p := mem[p].(ptr := mem[bp].ptr)];
      } else {
        mem := mem[p := mem[p].(ptr := bp)];
      }
    }

    /** free: the block goes back to the list, merged with its neighbours. */
    method Free(ap: int) returns (ghost k: nat)
      requires Valid() && freep != 0 && ap - 1 in live
      modifies this
      ensures Valid() && freep != 0 && total == old(total) && brk == old(brk) && got == old(got) && end == old(end)
      ensures live == old(live) - {ap - 1}
      ensures Inserted(old(fl), k, Blk(ap - 1, old(live[ap - 1])), fl) && freep == old(fl)[k].addr
    {
      hide FreeList, Clear, LiveOk, Below, Units, Sum, InMem, Insert, Fits, JoinLeft, JoinRight, OnList;
      var bp := ap - 1;
      ghost var b := Blk(bp, live[bp]);
      LiveNotNull(bp);
      var p;
      p, k := Search(bp);
      FreedState(base, brk, mem, fl, live, k, bp);
      SumRemove(live, bp);
      Link(p, bp);
      freep := p;
      fl := Insert(fl, k, b);
      live := live - {bp};
    }

    /** The block p, after prevp in the ring, is big enough: take all of it off the list, or its tail. */
    method Take(prevp: int, p: int, nunits: nat, ghost j: nat) returns (r: int)
      requires Valid() && freep != 0 && 1 <= j < |fl| && nunits >= 1
      requires p == fl[j].addr && prevp == fl[j - 1].addr && fl[j].size >= nunits
      modifies this
      ensures Valid() && freep != 0 && total == old(total) && brk == old(brk) && got == old(got) && end == old(end)
      ensures r - 1 !in old(live) && live == old(live)[r - 1 := nunits]
      ensures r - 1 + nunits == old(fl[j]).End()
    {
      hide FreeList, Clear, LiveOk, Below, Units, Sum, InMem;
      MemAt(mem, fl, j);
      MemAt(mem, fl, j - 1);
      BaseLowest(base, fl, j - 1);
      if mem[p].size == nunits {
        TakenWhole(base, brk, mem, fl, live, j);
        mem := mem[prevp := mem[prevp].(ptr := mem[p].ptr)];
        r := p;
        fl := fl[..j] + fl[j + 1..];
      } else {
        TakenTail(base, brk, mem, fl, live, j, nunits);
        mem := mem[p := mem[p].(size := mem[p].size - nunits)];
        r := p + mem[p].size;
        mem := mem[r := Header(if r in mem then mem[r].ptr else 0, nunits)];
        fl := fl[j := Blk(p, fl[j].size - nunits)];
      }
      live := live[r := nunits];
      freep := prevp;
      assert fl[j - 1].addr == prevp;
      r := r + 1;
    }

    /** morecore: grant is what sbrk answers, -1 or the end of the memory that the process has.  sbrk moves that end by
        its int argument.  The units asked for reach the list through free, whether or not sbrk granted them. */
    method Morecore(nu: nat, grant: int) returns (p: int, ghost w: nat)
      requires Valid() && Backed() && freep != 0 && 1 <= nu < 0x1_0000_0000 && (grant == -1 || grant >= end)
      modifies this
      ensures Valid() && freep != 0 && live == old(live)
      ensures grant == -1 ==> p == 0 && unchanged(this)
      ensures grant != -1 ==>
        && p == freep && total == old(total) + AtLeast(nu) && brk == grant + AtLeast(nu)
        && end == AfterSbrk(grant, AtLeast(nu)) && got == old(got) + end - grant
        && w < |fl| && fl[w].size >= nu
    {
      hide Valid, Inserted, AfterSbrk;
      var n := nu;
      if n < 4096 {
        n := 4096;
      }
      p, w := grant, 0;
      if p == -1 {
        return 0, 0;
      }
      Sbrk(p, n);
      Extend(p, n);
      ghost var before := fl;
      ghost var k := Free(p + 1);
      w := InsertRoom(before, k, Blk(grant, n), fl);
      p := freep;
    }

    /** sbrk succeeds at end p. */
    ghost method Sbrk(p: int, n: nat)
      requires Valid()
      modifies `got, `end
      ensures Valid() && end == AfterSbrk(p, n) && got == old(got) + end - p
    {
      hide AfterSbrk, FreeList, Clear, LiveOk, Below, Units, Sum, InMem, OnList;
      end := AfterSbrk(p, n);
      got := got + end - p;
    }

    /** The n fresh units at p become one block, not yet on the list. */
    method Extend(p: int, n: nat)
      requires Valid() && freep != 0 && n >= 1 && p >= brk
      modifies `mem, `live, `total, `brk
      ensures Valid() && total == old(total) + n && brk == p + n
      ensures p in live && live[p] == n && live - {p} == old(live)
    {
      hide FreeList, Clear, LiveOk, Below, Units, Sum, InMem, OnList;
      Granted(base, brk, mem, fl, live, p, n);
      SumInsert(live, p, n);
      mem := mem[p := Header(if p in mem then mem[p].ptr else 0, n)];
      live, total, brk := live[p := n], total + n, p + n;
    }

    /** The state in which malloc starts its scan: freep is null only before the first call. */
    method Start()
      requires Valid()
      modifies `freep, `mem
      ensures Valid() && freep != 0
    {
      if freep == 0 {
        mem := mem[base := Header(base, 0)];
        freep := base;
        assert fl[0].addr == freep;
      }
    }

    /** malloc.  grant is what sbrk would answer.  The heap stays within the memory of the process exactly if sbrk was
        not needed or the request was at most 2^31 - 32 bytes. */
    method Malloc(nbytes: nat, grant: int) returns (r: int)
      requires Valid() && Backed() && nbytes < 0x1_0000_0000 && (grant == -1 || grant >= end)
      modifies this
      ensures Valid() && freep != 0
      ensures Backed() <==> !TooSmall(old(fl), Nunits(nbytes)) || grant == -1 || nbytes <= 0x7fff_ffe0
      ensures r == 0 ==> live == old(live) && total == old(total) && brk == old(brk) && fl == old(fl)
      ensures r == 0 <==> grant == -1 && TooSmall(old(fl), Nunits(nbytes))
      ensures r != 0 ==> r - 1 !in old(live) && live == old(live)[r - 1 := Nunits(nbytes)]
      ensures !TooSmall(old(fl), Nunits(nbytes)) ==> total == old(total) && brk == old(brk) && got == old(got) && end == old(end)
      ensures r != 0 && TooSmall(old(fl), Nunits(nbytes)) ==>
        var n := AtLeast(Nunits(nbytes));
        total == old(total) + n && brk == grant + n && end == AfterSbrk(grant, n) && got == old(got) + end - grant
    {
      hide Valid, TooSmall, AtLeast, Around, AfterSbrk;
      UnitsFit(nbytes);
      Overrun(nbytes, grant);
      var nunits := (nbytes + HEADER - 1) / HEADER + 1;
      assert nunits == Nunits(nbytes);
      hide Nunits;
      Start();
      var prevp := freep;
      ghost var f := Place();
      ghost var t, grown := 0, false;
      ghost var big: nat := 0;
      At(f);
      NextAround(|fl|, f, 0);
      var p := mem[prevp].ptr;
      while true
        invariant Valid() && freep != 0
        invariant 0 <= f < |fl| && fl[f].addr == freep && 0 <= t < |fl|
        invariant prevp == fl[Around(|fl|, f, t)].addr && p == fl[Around(|fl|, f, t + 1)].addr
        invariant forall u :: 1 <= u <= t ==> fl[Around(|fl|, f, u)].size < nunits
        invariant live == old(live)
        invariant if grown then
            && TooSmall(old(fl), nunits) && grant != -1 && total == old(total) + AtLeast(nunits) && brk == grant + AtLeast(nunits)
            && end == AfterSbrk(grant, AtLeast(nunits)) && got == old(got) + end - grant && big < |fl| && fl[big].size >= nunits
          else fl == old(fl) && total == old(total) && brk == old(brk) && got == old(got) && end == old(end)
        decreases if grown then 0 else 1, |fl| - t
      {
        ghost var j := Around(|fl|, f, t + 1);
        At(j);
        OneIsBig(fl, nunits, j);
        NextAround(|fl|, f, t);
        if mem[p].size >= nunits {
          Preceding(f, t);
          r := Take(prevp, p, nunits, j);
          LiveNotNull(r - 1);
          return;
        }
        if p == freep {
          ScanOver(f, t, nunits);
          OneIsBig(fl, nunits, big);
          assert !grown;
          p, big := Morecore(nunits, grant);
          if p == 0 {
            return 0;
          }
          grown := true;
          f := Place();
          t := 0;
        } else {
          t := t + 1;
        }
        prevp := p;
        At(Around(|fl|, f, t));
        NextAround(|fl|, f, t);
        p := mem[p].ptr;
      }
    }
  }

  /** morecore asks for at least 4096 units. */
  function AtLeast(nu: nat): (n: nat) {
    if nu < 4096 then 4096 else nu
  }

  /** The units that malloc needs: the bytes rounded up, and one header. */
  function Nunits(nbytes: nat): (n: nat)
    ensures n >= 1 && nbytes <= (n - 1) * HEADER < nbytes + HEADER
  {
    (nbytes + HEADER - 1) / HEADER + 1
  }

  /** The 32-bit signed value of the argument of sbrk. */
  function ToInt(x: nat): (n: int)
    ensures -0x8000_0000 <= n < 0x8000_0000
  {
    var low := x % 0x1_0000_0000;
    if low < 0x8000_0000 then low else low - 0x1_0000_0000
  }

  /** morecore asks sbrk for as many bytes as its units take exactly when malloc was asked for at most
      2^31 - 32 bytes; from there on the argument wraps. */
  lemma SbrkArgument(nbytes: nat)
    requires nbytes < 0x1_0000_0000
    ensures ToInt(AtLeast(Nunits(nbytes)) * HEADER) == AtLeast(Nunits(nbytes)) * HEADER <==> nbytes <= 0x7fff_ffe0
  {
  }

  /** The end of the memory of a process after sbrk(n * sizeof(Header)) at end p.  growproc ignores a shrink by more
      than there is. */
  function AfterSbrk(p: int, n: nat): (e: int) {
    var d := ToInt(n * HEADER) / HEADER;
    if p + d < 0 then p else p + d
  }

  lemma UnitsFit(nbytes: nat)
    requires nbytes < 0x1_0000_0000
    ensures Nunits(nbytes) <= 0x1000_0001
  {
  }

  /** sbrk grants the units asked for exactly if its argument does not wrap. */
  lemma Overrun(nbytes: nat, p: int)
    requires nbytes < 0x1_0000_0000
    ensures p > 0 ==> AfterSbrk(p, AtLeast(Nunits(nbytes))) <= p + AtLeast(Nunits(nbytes))
    ensures p > 0 ==> (AfterSbrk(p, AtLeast(Nunits(nbytes))) == p + AtLeast(Nunits(nbytes)) <==> nbytes <= 0x7fff_ffe0)
  {
    var n := AtLeast(Nunits(nbytes));
    SbrkArgument(nbytes);
    UnitsFit(nbytes);
    SbrkUnits(n);
  }

  lemma SbrkUnits(n: nat)
    requires n <= 0x1000_0001
    ensures ToInt(n * HEADER) == (ToInt(n * HEADER) / HEADER) * HEADER && ToInt(n * HEADER) <= n * HEADER
  {
  }

  /** The largest request on a fresh heap: sbrk adds one unit, and malloc hands out 2^28 + 1 of them. */
  method LargestRequest(base: int, top: int) returns (h: Heap, r: int)
    requires 0 < base < top
    ensures fresh(h) && h.Valid() && !h.Backed() && r != 0
    ensures h.live == map[r - 1 := 0x1000_0001] && h.total == 0x1000_0001 && h.got == 1 && h.end == top + 1
  {
    h := new Heap(base, top);
    r := h.Malloc(0xffff_ffff, top);
    assert h.live.Keys == {r - 1};
  }

  /** A request of 2^31 bytes: the argument is negative, growproc ignores it, and no unit of the block is memory that the
      process has. */
  method HalfRequest(base: int, top: int) returns (h: Heap, r: int)
    requires 0 < base < top < 0x7ff_ffff
    ensures fresh(h) && h.Valid() && !h.Backed() && r != 0
    ensures h.live == map[r - 1 := 0x800_0001] && h.total == 0x800_0001 && h.got == 0 && h.end == top
  {
    h := new Heap(base, top);
    r := h.Malloc(0x8000_0000, top);
    assert h.live.Keys == {r - 1};
  }

  ghost predicate TooSmall(fl: seq<Blk>, nunits: nat) {
    forall i :: 0 <= i < |fl| ==> fl[i].size < nunits
  }

  lemma OneIsBig(fl: seq<Blk>, nunits: nat, i: nat)
    ensures TooSmall(fl, nunits) ==> !(i < |fl| && fl[i].size >= nunits)
  {
  }

  /** The block u places after block f in the ring. */
  function Around(n: nat, f: nat, u: nat): (j: nat)
    requires f < n && u <= n
    ensures j < n
  {
    if f + u < n then f + u else f + u - n
  }

  lemma NextAround(n: nat, f: nat, u: nat)
    requires f < n && u < n
    ensures Around(n, f, 0) == f && Around(n, f, u + 1) == Succ(n, Around(n, f, u))
    ensures Around(n, f, u + 1) == f <==> u + 1 == n
  {
  }

  /** Fresh units at or above brk overlap nothing. */
  lemma Granted(base: int, brk: int, mem: map<int, Header>, fl: seq<Blk>, live: map<int, nat>, p: int, n: nat)
    requires FreeList(base, fl) && Below(fl, brk) && LiveOk(base, brk, mem, live) && Clear(fl, live) && InMem(mem, fl)
    requires base < brk <= p && n >= 1
    ensures var mem' := mem[p := Header(if p in mem then mem[p].ptr else 0, n)];
      && p !in live && Below(fl, p + n) && Clear(fl, live[p := n]) && InMem(mem', fl)
      && LiveOk(base, p + n, mem', live[p := n])
  {
    var mem' := mem[p := Header(if p in mem then mem[p].ptr else 0, n)];
    assert p !in live;
    forall i | 0 <= i < |fl| ensures ClearOf(fl[i], live[p := n]) && fl[i].addr != p {
      assert ClearOf(fl[i], live);
      assert fl[i].End() <= brk;
    }
  }

  /** Some block of the list has room for the block just inserted. */
  lemma InsertRoom(fl: seq<Blk>, k: nat, b: Blk, r: seq<Blk>) returns (w: nat)
    requires Inserted(fl, k, b, r)
    ensures w < |r| && r[w].size >= b.size
  {
    var f2 := Coalesce(InsertAfter(fl, k, b), k + 1);
    Joined(fl, k, b, 0);
    Joined(fl, k, b, k);
    Joined(fl, k, b, k + 1);
    if f2[k].End() == f2[k + 1].addr {
      CoalesceAt(f2, k, k);
      w := k;
    } else {
      w := k + 1;
    }
  }

  /** A live block never starts at a free block. */
  lemma NotLive(base: int, fl: seq<Blk>, live: map<int, nat>, brk: int, mem: map<int, Header>, j: nat)
    requires FreeList(base, fl) && Clear(fl, live) && LiveOk(base, brk, mem, live) && j < |fl|
    ensures fl[j].addr !in live
  {
  }

  /** Taking block j off the list and handing it out. */
  lemma TakenWhole(base: int, brk: int, mem: map<int, Header>, fl: seq<Blk>, live: map<int, nat>, j: nat)
    requires FreeList(base, fl) && Below(fl, brk) && LiveOk(base, brk, mem, live) && Clear(fl, live) && InMem(mem, fl)
    requires 1 <= j < |fl| && fl[j].addr in mem && fl[j - 1].addr in mem
    ensures var f, p := fl[..j] + fl[j + 1..], fl[j].addr;
      var mem' := SetPtr(mem, fl[j - 1].addr, mem[p].ptr);
      && FreeList(base, f) && Below(f, brk) && Clear(f, live[p := fl[j].size]) && InMem(mem', f)
      && LiveOk(base, brk, mem', live[p := fl[j].size]) && p !in live
      && Units(f) + Sum(live[p := fl[j].size]) == Units(fl) + Sum(live)
  {
    hide Units, Sum, InMem, Clear, LiveOk, Below;
    var p := fl[j].addr;
    NotLive(base, fl, live, brk, mem, j);
    NotLive(base, fl, live, brk, mem, j - 1);
    UnitsRemove(fl, j);
    SumInsert(live, p, fl[j].size);
    TakenWholeLists(base, brk, fl, live, j);
    TakenWholeLive(base, brk, mem, fl, live, j);
    TakenWholeMem(mem, fl, j);
  }

  lemma TakenWholeLists(base: int, brk: int, fl: seq<Blk>, live: map<int, nat>, j: nat)
    requires FreeList(base, fl) && Below(fl, brk) && Clear(fl, live) && 1 <= j < |fl|
    ensures var f := fl[..j] + fl[j + 1..];
      FreeList(base, f) && Below(f, brk) && Clear(f, live[fl[j].addr := fl[j].size])
  {
  }

  lemma TakenWholeLive(base: int, brk: int, mem: map<int, Header>, fl: seq<Blk>, live: map<int, nat>, j: nat)
    requires FreeList(base, fl) && Below(fl, brk) && LiveOk(base, brk, mem, live) && Clear(fl, live) && InMem(mem, fl)
    requires 1 <= j < |fl| && fl[j].addr in mem && fl[j - 1].addr in mem
    requires fl[j].addr !in live && fl[j - 1].addr !in live
    ensures LiveOk(base, brk, SetPtr(mem, fl[j - 1].addr, mem[fl[j].addr].ptr), live[fl[j].addr := fl[j].size])
  {
  }

  lemma TakenWholeMem(mem: map<int, Header>, fl: seq<Blk>, j: nat)
    requires Apart(fl) && InMem(mem, fl) && 1 <= j < |fl| && fl[j].addr in mem && fl[j - 1].addr in mem
    ensures InMem(SetPtr(mem, fl[j - 1].addr, mem[fl[j].addr].ptr), fl[..j] + fl[j + 1..])
  {
    var f := fl[..j] + fl[j + 1..];
    var mem' := SetPtr(mem, fl[j - 1].addr, mem[fl[j].addr].ptr);
    assert forall i :: 0 <= i < |f| ==> f[i] == fl[if i < j then i else i + 1];
    MemAt(mem, fl, j);
    forall i | 0 <= i < |f| ensures f[i].addr in mem' && mem'[f[i].addr] == Header(f[Succ(|f|, i)].addr, f[i].size) {
      hide Apart, InMem;
      var src := if i < j then i else i + 1;
      MemAt(mem, fl, src);
      if src != j - 1 {
        Elsewhere(fl, src, j - 1);
      }
    }
  }

  /** Cutting the last n units off block j and handing them out. */
  lemma TakenTail(base: int, brk: int, mem: map<int, Header>, fl: seq<Blk>, live: map<int, nat>, j: nat, n: nat)
    requires FreeList(base, fl) && Below(fl, brk) && LiveOk(base, brk, mem, live) && Clear(fl, live) && InMem(mem, fl)
    requires 1 <= j < |fl| && fl[j].addr in mem && 1 <= n < fl[j].size
    ensures var p, left := fl[j].addr, fl[j].size - n;
      var f, q := fl[j := Blk(p, left)], p + left;
      var mem1 := SetSize(mem, p, left);
      var mem' := mem1[q := Header(if q in mem1 then mem1[q].ptr else 0, n)];
      && FreeList(base, f) && Below(f, brk) && Clear(f, live[q := n]) && InMem(mem', f)
      && LiveOk(base, brk, mem', live[q := n]) && q !in live
      && Units(f) + Sum(live[q := n]) == Units(fl) + Sum(live)
  {
    var p, left := fl[j].addr, fl[j].size - n;
    var f, q := fl[j := Blk(p, left)], p + left;
    hide Units, Sum, InMem;
    TakenTailLists(base, brk, fl, live, j, n);
    TakenTailLive(base, brk, mem, fl, live, j, n);
    hide Clear, LiveOk, Below, FreeList;
    assert f == fl[..j] + [Blk(p, left)] + fl[j + 1..];
    UnitsReplace(fl, j, Blk(p, left));
    SumInsert(live, q, n);
    TakenTailMem(mem, fl, j, n);
  }

  lemma TakenTailLists(base: int, brk: int, fl: seq<Blk>, live: map<int, nat>, j: nat, n: nat)
    requires FreeList(base, fl) && Below(fl, brk) && Clear(fl, live) && 1 <= j < |fl| && 1 <= n < fl[j].size
    ensures var p, left := fl[j].addr, fl[j].size - n;
      var f := fl[j := Blk(p, left)];
      FreeList(base, f) && Below(f, brk) && Clear(f, live[p + left := n])
  {
  }

  lemma TakenTailLive(base: int, brk: int, mem: map<int, Header>, fl: seq<Blk>, live: map<int, nat>, j: nat, n: nat)
    requires FreeList(base, fl) && Below(fl, brk) && LiveOk(base, brk, mem, live) && Clear(fl, live)
    requires 1 <= j < |fl| && fl[j].addr in mem && 1 <= n < fl[j].size
    ensures var p, left := fl[j].addr, fl[j].size - n;
      var mem1 := SetSize(mem, p, left);
      && p + left !in live
      && LiveOk(base, brk, mem1[p + left := Header(if p + left in mem1 then mem1[p + left].ptr else 0, n)], live[p + left := n])
  {
  }

  lemma Elsewhere(fl: seq<Blk>, i: nat, j: nat)
    requires Apart(fl) && i < |fl| && j < |fl| && i != j
    ensures fl[i].addr < fl[j].addr || fl[j].End() < fl[i].addr
  {
  }

  lemma TakenTailMem(mem: map<int, Header>, fl: seq<Blk>, j: nat, n: nat)
    requires Apart(fl) && InMem(mem, fl) && 1 <= j < |fl| && fl[j].addr in mem && 1 <= n < fl[j].size
    ensures var p, left := fl[j].addr, fl[j].size - n;
      var mem1 := SetSize(mem, p, left);
      InMem(mem1[p + left := Header(if p + left in mem1 then mem1[p + left].ptr else 0, n)], fl[j := Blk(p, left)])
  {
  }

  /** The state that free leaves is as it should be. */
  lemma FreedState(base: int, brk: int, mem: map<int, Header>, fl: seq<Blk>, live: map<int, nat>, k: nat, bp: int)
    requires FreeList(base, fl) && Below(fl, brk) && LiveOk(base, brk, mem, live) && Clear(fl, live) && InMem(mem, fl)
    requires bp in live && Fits(fl, k, Blk(bp, live[bp])) && 0 < base
    ensures var b, p := Blk(bp, live[bp]), fl[k].addr;
      && p in mem && bp in mem && mem[p].ptr in mem && p != 0 && p != bp && mem[p].ptr != bp && mem[bp].size == b.size
      && FreeList(base, Insert(fl, k, b)) && Below(Insert(fl, k, b), brk) && Units(Insert(fl, k, b)) == Units(fl) + b.size
      && Clear(Insert(fl, k, b), live - {bp})
      && InMem(JoinLeft(JoinRight(mem, p, bp), p, bp), Insert(fl, k, b))
      && LiveOk(base, brk, JoinLeft(JoinRight(mem, p, bp), p, bp), live - {bp})
      && OnList(Insert(fl, k, b), p)
  {
    var b, p := Blk(bp, live[bp]), fl[k].addr;
    MemAt(mem, fl, k);
    MemAt(mem, fl, Succ(|fl|, k));
    BaseLowest(base, fl, k);
    FitsElsewhere(fl, k, b, Succ(|fl|, k));
    FreedLists(base, brk, fl, live, k, bp);
    FreedLive(base, brk, mem, fl, live, k, bp);
    hide Insert, Clear, LiveOk, Below, InMem, Units, JoinLeft, JoinRight, Apart;
    FreeStores(base, mem, fl, k, b);
    InsertHead(fl, k, b);
  }

  lemma FreedLists(base: int, brk: int, fl: seq<Blk>, live: map<int, nat>, k: nat, bp: int)
    requires FreeList(base, fl) && Below(fl, brk) && Clear(fl, live) && bp in live
    requires bp + live[bp] <= brk && Fits(fl, k, Blk(bp, live[bp]))
    requires forall a: int, c: int :: a in live && c in live && a < c ==> a + live[a] <= c
    requires forall a: int :: a in live ==> live[a] >= 1
    ensures var r := Insert(fl, k, Blk(bp, live[bp]));
      FreeList(base, r) && Below(r, brk) && Units(r) == Units(fl) + live[bp] && Clear(r, live - {bp})
  {
    var b := Blk(bp, live[bp]);
    forall a: int | a in live - {bp} ensures b.End() <= a || a + (live - {bp})[a] <= b.addr {
      assert a in live && (live - {bp})[a] == live[a] && a != bp;
      assert bp in live;
    }
    assert Clear(fl, live - {bp}) by {
      forall i | 0 <= i < |fl| ensures ClearOf(fl[i], live - {bp}) {
        assert ClearOf(fl[i], live);
      }
    }
    hide Insert, Units, Apart;
    InsertKeeps(base, fl, k, b);
    InsertBelow(fl, k, b, brk);
    InsertClear(fl, k, b, live - {bp});
  }

  lemma FreedLive(base: int, brk: int, mem: map<int, Header>, fl: seq<Blk>, live: map<int, nat>, k: nat, bp: int)
    requires FreeList(base, fl) && LiveOk(base, brk, mem, live) && Clear(fl, live) && k < |fl| && bp in live
    requires fl[k].addr in mem && mem[fl[k].addr].ptr in mem
    ensures LiveOk(base, brk, JoinLeft(JoinRight(mem, fl[k].addr, bp), fl[k].addr, bp), live - {bp})
  {
  }

  /** The predecessor keeps its place in the list. */
  lemma InsertHead(fl: seq<Blk>, k: nat, b: Blk)
    requires k < |fl|
    ensures k < |Insert(fl, k, b)| && Insert(fl, k, b)[k].addr == fl[k].addr
  {
  }
}
