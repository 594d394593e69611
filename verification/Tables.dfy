/** How many tables a page table lacks for a range of virtual pages: what has to come off the free list before the range
    can be mapped. */
module Tables {
  import opened Sums
  import opened PageTable

  /** The middle and the lowest tables that cover the pages from lo up to hi. */
  function MidsOf(lo: nat, hi: nat): (s: set<nat>) {
    set v | lo <= v < hi :: v / 512 / 512
  }

  function LowsOf(lo: nat, hi: nat): (s: set<nat>) {
    set v | lo <= v < hi :: v / 512
  }

  /** The number of those that are not there. */
  function Need(sp: Space, lo: nat, hi: nat): (n: nat) {
    |MidsOf(lo, hi) - sp.mids.Keys| + |LowsOf(lo, hi) - sp.lows.Keys|
  }

  /** The tables for the pages from lo up to hi have been added, and no others. */
  ghost predicate Filled(sp: Space, sp': Space, lo: nat, hi: nat) {
    sp'.mids.Keys == sp.mids.Keys + MidsOf(lo, hi) && sp'.lows.Keys == sp.lows.Keys + LowsOf(lo, hi)
  }

  /** That, at the price of n pages. */
  ghost predicate Paid(sp: Space, sp': Space, lo: nat, hi: nat, n: nat) {
    Filled(sp, sp', lo, hi) && n == Need(sp, lo, hi)
  }

  /** What one page lacks from the given level of the walk on. */
  function Lack(sp: Space, v: nat, level: nat): (n: nat) {
    (if level >= 2 && v / 512 / 512 !in sp.mids then 1 else 0) + (if level >= 1 && v / 512 !in sp.lows then 1 else 0)
  }

  lemma One(v: nat)
    ensures MidsOf(v, v + 1) == {v / 512 / 512} && LowsOf(v, v + 1) == {v / 512}
  {
    assert v / 512 / 512 in MidsOf(v, v + 1);
    assert v / 512 in LowsOf(v, v + 1);
  }

  lemma LackIsNeed(sp: Space, v: nat)
    ensures Need(sp, v, v + 1) == Lack(sp, v, 2)
  {
    One(v);
    Single(v / 512 / 512, sp.mids.Keys);
    Single(v / 512, sp.lows.Keys);
  }

  lemma Single(x: nat, k: set<nat>)
    ensures |{x} - k| == if x in k then 0 else 1
  {
    assert {x} - k == if x in k then {} else {x};
  }

  lemma NothingPaid(sp: Space, v: nat)
    ensures Paid(sp, sp, v, v, 0)
  {
    assert MidsOf(v, v) == {} && LowsOf(v, v) == {};
  }

  lemma Split(lo: nat, a: nat, hi: nat)
    requires lo <= a <= hi
    ensures MidsOf(lo, hi) == MidsOf(lo, a) + MidsOf(a, hi) && LowsOf(lo, hi) == LowsOf(lo, a) + LowsOf(a, hi)
  {
    forall v | lo <= v < hi ensures v / 512 / 512 in MidsOf(lo, a) + MidsOf(a, hi) && v / 512 in LowsOf(lo, a) + LowsOf(a, hi) {
      if v < a {
        assert v / 512 / 512 in MidsOf(lo, a) && v / 512 in LowsOf(lo, a);
      } else {
        assert v / 512 / 512 in MidsOf(a, hi) && v / 512 in LowsOf(a, hi);
      }
    }
  }

  /** What a range needs is what its front needs and what its rest needs then. */
  lemma NeedJoin(sp: Space, sp': Space, lo: nat, a: nat, hi: nat)
    requires lo <= a <= hi && Filled(sp, sp', lo, a)
    ensures Need(sp, lo, hi) == Need(sp, lo, a) + Need(sp', a, hi)
  {
    Split(lo, a, hi);
    UnionLess(MidsOf(lo, a), MidsOf(a, hi), sp.mids.Keys);
    UnionLess(LowsOf(lo, a), LowsOf(a, hi), sp.lows.Keys);
  }

  lemma NeedLess(sp: Space, lo: nat, a: nat, hi: nat)
    requires lo <= a <= hi
    ensures Need(sp, lo, a) <= Need(sp, lo, hi)
  {
    Split(lo, a, hi);
    SubsetSize(MidsOf(lo, a) - sp.mids.Keys, MidsOf(lo, hi) - sp.mids.Keys);
    SubsetSize(LowsOf(lo, a) - sp.lows.Keys, LowsOf(lo, hi) - sp.lows.Keys);
  }

  lemma PaidMore(s0: Space, s1: Space, s2: Space, lo: nat, a: nat, hi: nat, n1: nat, n2: nat)
    requires lo <= a <= hi && Paid(s0, s1, lo, a, n1) && Paid(s1, s2, a, hi, n2)
    ensures Paid(s0, s2, lo, hi, n1 + n2)
  {
    hide Need, MidsOf, LowsOf;
    NeedJoin(s0, s1, lo, a, hi);
    Split(lo, a, hi);
  }

  /** What the front has cost, and what the next page would cost, the whole range costs at least. */
  lemma Unaffordable(s0: Space, s1: Space, lo: nat, a: nat, hi: nat, n: nat)
    requires lo <= a < hi && Paid(s0, s1, lo, a, n)
    ensures n + Need(s1, a, a + 1) <= Need(s0, lo, hi)
  {
    hide Need;
    NeedJoin(s0, s1, lo, a, hi);
    NeedLess(s1, a, a + 1, hi);
  }

  // ---------------------------------------------------------------------------------------------
  // A page table without user memory
  // ---------------------------------------------------------------------------------------------

  /** The only tables below the root are those that cover the last pages. */
  ghost predicate TopOnly(sp: Space) {
    sp.mids.Keys == {255} && sp.lows.Keys == {131071}
  }

  function Upto(n: nat): (s: set<nat>) {
    if n == 0 then {} else Upto(n - 1) + {n - 1}
  }

  lemma {:induction false} UptoHas(n: nat)
    ensures |Upto(n)| == n && forall i: nat :: i in Upto(n) <==> i < n
  {
    if n > 0 {
      UptoHas(n - 1);
    }
  }

  lemma LowsUpto(n: nat)
    ensures LowsOf(0, n) == Upto((n + 511) / 512)
  {
    UptoHas((n + 511) / 512);
    forall i | 0 <= i < (n + 511) / 512 ensures i in LowsOf(0, n) {
      assert 0 <= 512 * i < n && 512 * i / 512 == i;
    }
  }

  lemma MidsUpto(n: nat)
    ensures MidsOf(0, n) == Upto((n + 262143) / 262144)
  {
    UptoHas((n + 262143) / 262144);
    forall i | 0 <= i < (n + 262143) / 262144 ensures i in MidsOf(0, n) {
      assert 0 <= 262144 * i < n && 262144 * i / 512 / 512 == i;
    }
    forall v | 0 <= v < n ensures 0 <= v / 512 / 512 < (n + 262143) / 262144 {
      Quotient(v, n);
    }
  }

  lemma Quotient(v: nat, n: nat)
    requires v < n
    ensures v / 512 / 512 < (n + 262143) / 262144
  {
    assert v / 512 / 512 == v / 262144;
  }

  /** There, n pages of user memory need a table for every 512 of them and one for every 512 of those. */
  lemma NeedFromTop(sp: Space, n: nat)
    requires TopOnly(sp) && n <= 32768
    ensures Need(sp, 0, n) == (n + 511) / 512 + (n + 262143) / 262144
  {
    LowsUpto(n);
    MidsUpto(n);
    UptoHas((n + 511) / 512);
    UptoHas((n + 262143) / 262144);
    assert Upto((n + 511) / 512) - {131071} == Upto((n + 511) / 512);
    assert Upto((n + 262143) / 262144) - {255} == Upto((n + 262143) / 262144);
  }
}
