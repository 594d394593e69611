/** The page allocator of kernel/kalloc.c.  Physical memory maps page numbers to what the page holds; page
    number 0 stands for the null pointer. */
module Kalloc {

  /** A page-table entry, with PTE_V, the page it points to, and the flags R, W, X and U as one number. */
  datatype Pte = Pte(v: bool, ppn: nat, perm: nat)

  type Bytes = seq<int>

  /** A page of page-table entries, a page of bytes, or a free page that holds a link. */
  datatype Page = Table(ptes: seq<Pte>) | Data(bytes: Bytes) | Run(next: nat)

  const PGSIZE: nat := 4096

  function Junk(x: int): (b: Bytes) {
    seq(PGSIZE, _ => x)
  }

  /** The free list runs through its pages in order and ends with null. */
  ghost predicate FreeOk(mem: map<nat, Page>, head: nat, free: seq<nat>) {
    && (head == if free == [] then 0 else free[0])
    && (forall i, j :: 0 <= i < j < |free| ==> free[i] != free[j])
    && (forall i :: 0 <= i < |free| ==> Linked(mem, free, i))
  }

  ghost predicate Linked(mem: map<nat, Page>, free: seq<nat>, i: nat)
    requires i < |free|
  {
    free[i] > 0 && free[i] in mem && mem[free[i]] == Run(NextOf(free, i))
  }

  function NextOf(free: seq<nat>, i: nat): (f: nat)
    requires i < |free|
  {
    if i + 1 < |free| then free[i + 1] else 0
  }

  lemma FreeAt(mem: map<nat, Page>, head: nat, free: seq<nat>, i: nat)
    requires FreeOk(mem, head, free) && i < |free|
    ensures free[i] > 0 && free[i] in mem && mem[free[i]] == Run(NextOf(free, i))
  {
    assert Linked(mem, free, i);
  }

  lemma FreePop(mem: map<nat, Page>, head: nat, free: seq<nat>, p: Page)
    requires FreeOk(mem, head, free) && free != []
    ensures free[0] in mem && FreeOk(mem[free[0] := p], NextOf(free, 0), free[1..]) && free[0] !in free[1..]
  {
    var rest, mem' := free[1..], mem[free[0] := p];
    forall i | 0 <= i < |rest| ensures Linked(mem', rest, i) {
      FreeAt(mem, head, free, i + 1);
    }
    FreeAt(mem, head, free, 0);
  }

  lemma FreePush(mem: map<nat, Page>, head: nat, free: seq<nat>, f: nat)
    requires FreeOk(mem, head, free) && f > 0 && f !in free
    ensures FreeOk(mem[f := Run(head)], f, [f] + free)
  {
    var more, mem' := [f] + free, mem[f := Run(head)];
    forall i | 0 <= i < |more| ensures Linked(mem', more, i) {
      if i > 0 {
        FreeAt(mem, head, free, i - 1);
      }
    }
  }

  /** Writing a page that is not free. */
  lemma FreeKept(mem: map<nat, Page>, mem': map<nat, Page>, head: nat, free: seq<nat>)
    requires FreeOk(mem, head, free) && forall f :: f in free && f in mem ==> f in mem' && mem'[f] == mem[f]
    ensures FreeOk(mem', head, free)
  {
    forall i | 0 <= i < |free| ensures Linked(mem', free, i) {
      FreeAt(mem, head, free, i);
      assert free[i] in free;
    }
  }

  class Memory {
    var mem: map<nat, Page>
    var freelist: nat
    ghost var free: seq<nat>

    ghost predicate Valid()
      reads this
    {
      FreeOk(mem, freelist, free)
    }

    /** kinit: the pages from first up to stop. */
    constructor (first: nat, stop: nat)
      requires 0 < first <= stop
      ensures Valid() && (forall f :: f in free <==> first <= f < stop) && |free| == stop - first
    {
      mem, freelist, free := map[], 0, [];
      new;
      var p := first;
      while p < stop
        invariant first <= p <= stop && Valid() && |free| == p - first
        invariant forall f :: f in free <==> first <= f < p
      {
        Kfree(p);
        p := p + 1;
      }
    }

    method Kfree(f: nat)
      requires Valid() && f > 0 && f !in free
      modifies this
      ensures Valid() && free == [f] + old(free) && mem == old(mem)[f := Run(old(freelist))]
    {
      FreePush(mem, freelist, free, f);
      mem := mem[f := Run(freelist)];
      freelist := f;
      free := [f] + free;
    }

    /** kalloc: a page off the list, filled with junk, or 0. */
    method Kalloc() returns (f: nat)
      requires Valid()
      modifies this
      ensures Valid() && (f == 0 <==> old(free) == [])
      ensures f == 0 ==> unchanged(this)
      ensures f != 0 ==> f == old(free)[0] && free == old(free)[1..] && f !in free && f in old(mem) && mem == old(mem)[f := Data(Junk(5))]
    {
      if free != [] {
        FreePop(mem, freelist, free, Data(Junk(5)));
        FreeAt(mem, freelist, free, 0);
      }
      f := freelist;
      if f != 0 {
        freelist := mem[f].next;
        mem := mem[f := Data(Junk(5))];
        free := free[1..];
      }
    }

    /** count_freemmem: the bytes on the free list. */
    method CountFreeMem() returns (total: nat)
      requires Valid()
      ensures total == PGSIZE * |free|
    {
      total := 0;
      var r := freelist;
      ghost var i := 0;
      if free != [] {
        FreeAt(mem, freelist, free, 0);
      }
      while r != 0
        invariant 0 <= i <= |free| && r == (if i < |free| then free[i] else 0) && total == PGSIZE * i
        invariant i < |free| ==> r > 0
        decreases |free| - i
      {
        FreeAt(mem, freelist, free, i);
        total := total + PGSIZE;
        r := mem[r].next;
        i := i + 1;
        if i < |free| {
          FreeAt(mem, freelist, free, i);
        }
      }
    }
  }
}
