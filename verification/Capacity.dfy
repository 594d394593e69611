/** How many blocks a write needs that its file does not have yet, against the blocks that are free. */
module Capacity {
  import opened Sums
  import opened Blocks
  import opened Inodes

  function Free(used: seq<bool>): (s: set<nat>) {
    set b: nat | b < |used| && !used[b]
  }

  /** The slots of inode i that refer to a block. */
  ghost function Full(fs: Fs, i: nat): (s: set<nat>)
    requires i < |fs.inodes|
  {
    set k: nat | k <= MAXFILE && Rows(fs)[i][k] != 0
  }

  /** The slots that bmap goes through on the way to block bn of a file. */
  function Path(bn: nat): (s: set<nat>) {
    if bn < NDIRECT then {bn} else {INDIRECT, bn + 1}
  }

  /** The slots on the way to the n bytes from off on. */
  function SlotsOf(off: nat, n: nat): (s: set<nat>) {
    set p: nat, k: nat | off <= p < off + n && k in Path(BlockNo(p)) :: k
  }

  /** The blocks that those bytes need beyond what the file has: data blocks and perhaps the indirect block. */
  ghost function Lacking(fs: Fs, i: nat, off: nat, n: nat): (c: nat)
    requires i < |fs.inodes|
  {
    |SlotsOf(off, n) - Full(fs, i)|
  }

  /** The slots s of inode i have been filled, each with one block that was free, and no other slot. */
  ghost predicate Spent(fs: Fs, fs': Fs, i: nat, s: set<nat>) {
    && i < |fs.inodes| == |fs'.inodes| && Full(fs', i) == Full(fs, i) + s
    && |Free(fs.used)| == |Free(fs'.used)| + |s - Full(fs, i)|
  }

  /** There are too few free blocks to fill them. */
  ghost predicate Short(fs: Fs, i: nat, s: set<nat>) {
    i < |fs.inodes| && |Free(fs.used)| < |s - Full(fs, i)|
  }

  lemma SpentNone(fs: Fs, i: nat)
    requires i < |fs.inodes|
    ensures Spent(fs, fs, i, {})
  {
    assert {} - Full(fs, i) == {};
    hide Full;
  }

  lemma SlotFull(fs: Fs, i: nat, k: nat)
    requires i < |fs.inodes| && k <= MAXFILE
    ensures k in Full(fs, i) <==> Rows(fs)[i][k] != 0
  {
  }

  lemma SpentThere(fs: Fs, i: nat, k: nat)
    requires i < |fs.inodes| && k <= MAXFILE && Rows(fs)[i][k] != 0
    ensures Spent(fs, fs, i, {k})
  {
    SlotFull(fs, i, k);
    hide Full, Rows;
    assert {k} - Full(fs, i) == {};
  }

  lemma SetFull(fs: Fs, fs': Fs, i: nat, k: nat, b: nat)
    requires i < |fs.inodes| == |fs'.inodes| && k <= MAXFILE && b != 0 && Rows(fs') == SetRef(Rows(fs), i, k, b)
    ensures Full(fs', i) == Full(fs, i) + {k}
  {
    hide Rows, SetRef;
  }

  lemma TakeOne(used: seq<bool>, b: nat)
    requires b < |used| && !used[b]
    ensures |Free(used)| == |Free(used[b := true])| + 1
  {
    assert Free(used) == Free(used[b := true]) + {b};
  }

  lemma SpentTaken(fs: Fs, fs': Fs, i: nat, k: nat, b: nat)
    requires i < |fs.inodes| == |fs'.inodes| && k <= MAXFILE && Rows(fs)[i][k] == 0 && 0 < b < |fs.used| && !fs.used[b]
    requires fs'.used == fs.used[b := true] && Rows(fs') == SetRef(Rows(fs), i, k, b)
    ensures Spent(fs, fs', i, {k})
  {
    SlotFull(fs, i, k);
    SetFull(fs, fs', i, k, b);
    TakeOne(fs.used, b);
    hide Full, Rows, Free, SetRef;
    assert {k} - Full(fs, i) == {k};
  }

  lemma TakenSpent(sb: Super, fs: Fs, fs': Fs, i: nat, k: nat, b: nat, t: nat)
    requires Taken(sb, fs, fs', i, k, b, t)
    ensures Spent(fs, fs', i, {k})
  {
    hide Rows, Steady, SetRef, Spent;
    SpentTaken(fs, fs', i, k, b);
  }

  lemma SpentMore(fs: Fs, fs1: Fs, fs2: Fs, i: nat, s1: set<nat>, s2: set<nat>)
    requires Spent(fs, fs1, i, s1) && Spent(fs1, fs2, i, s2)
    ensures Spent(fs, fs2, i, s1 + s2)
  {
    hide Full, Free;
    UnionLess(s1, s2, Full(fs, i));
  }

  /** Rows and bitmap are all that counts. */
  lemma SpentSame(fs: Fs, fs1: Fs, fs2: Fs, i: nat, s: set<nat>)
    requires Spent(fs, fs1, i, s) && |fs2.inodes| == |fs1.inodes| && Rows(fs2) == Rows(fs1) && fs2.used == fs1.used
    ensures Spent(fs, fs2, i, s)
  {
    hide Rows, Free;
    assert Full(fs2, i) == Full(fs1, i);
  }

  lemma FullDisk(used: seq<bool>)
    requires forall c :: 0 <= c < |used| ==> used[c]
    ensures |Free(used)| == 0
  {
    assert Free(used) == {};
  }

  lemma ShortOne(fs: Fs, i: nat, k: nat, s: set<nat>)
    requires i < |fs.inodes| && k <= MAXFILE && Rows(fs)[i][k] == 0 && k in s
    requires forall c :: 0 <= c < |fs.used| ==> fs.used[c]
    ensures Short(fs, i, s)
  {
    FullDisk(fs.used);
    SlotFull(fs, i, k);
    hide Full, Rows, Free;
    assert k in s - Full(fs, i);
  }

  lemma ShortMore(fs: Fs, fs1: Fs, i: nat, s1: set<nat>, s2: set<nat>)
    requires Spent(fs, fs1, i, s1) && Short(fs1, i, s2)
    ensures Short(fs, i, s1 + s2)
  {
    hide Full, Free;
    UnionLess(s1, s2, Full(fs, i));
  }

  /** Two slots, one after the other. */
  lemma TwoSpent(fs: Fs, fs1: Fs, fs2: Fs, i: nat, k: nat, j: nat)
    requires Spent(fs, fs1, i, {k}) && Spent(fs1, fs2, i, {j})
    ensures Spent(fs, fs2, i, {k, j})
  {
    hide Spent;
    SpentMore(fs, fs1, fs2, i, {k}, {j});
    assert {k} + {j} == {k, j};
  }

  lemma TwoShort(fs: Fs, fs1: Fs, i: nat, k: nat, j: nat)
    requires Spent(fs, fs1, i, {k}) && i < |fs1.inodes| && j <= MAXFILE && Rows(fs1)[i][j] == 0
    requires forall c :: 0 <= c < |fs1.used| ==> fs1.used[c]
    ensures Short(fs, i, {k, j})
  {
    hide Spent, Short, Rows;
    ShortOne(fs1, i, j, {j});
    ShortMore(fs, fs1, i, {k}, {j});
    assert {k} + {j} == {k, j};
  }

  lemma SpentFits(fs: Fs, fs': Fs, i: nat, off: nat, n: nat)
    requires Spent(fs, fs', i, SlotsOf(off, n))
    ensures Lacking(fs, i, off, n) <= |Free(fs.used)|
  {
    hide Full, Free, SlotsOf;
  }

  /** What a range lacks is what its front lacks and what its rest lacks then. */
  lemma LackingJoin(fs: Fs, fs1: Fs, i: nat, off: nat, a: nat, b: nat)
    requires Spent(fs, fs1, i, SlotsOf(off, a))
    ensures Lacking(fs, i, off, a + b) == Lacking(fs, i, off, a) + Lacking(fs1, i, off + a, b)
    ensures |Free(fs.used)| == |Free(fs1.used)| + Lacking(fs, i, off, a)
  {
    SlotsJoin(off, a, b);
    hide Full, Free, SlotsOf;
    UnionLess(SlotsOf(off, a), SlotsOf(off + a, b), Full(fs, i));
  }

  lemma ShortLacks(fs: Fs, i: nat, off: nat, n: nat)
    requires Short(fs, i, SlotsOf(off, n))
    ensures Lacking(fs, i, off, n) > |Free(fs.used)|
  {
    hide Full, Free, SlotsOf;
  }

  lemma NoSlots(off: nat)
    ensures SlotsOf(off, 0) == {}
  {
  }

  lemma SlotsAt(off: nat, n: nat, p: nat, k: nat)
    requires off <= p < off + n && k in Path(BlockNo(p))
    ensures k in SlotsOf(off, n)
  {
  }

  /** Two ranges one after the other. */
  lemma SlotsJoin(off: nat, a: nat, b: nat)
    ensures SlotsOf(off, a + b) == SlotsOf(off, a) + SlotsOf(off + a, b)
  {
    hide Path, BlockNo;
    var whole, front, rest := SlotsOf(off, a + b), SlotsOf(off, a), SlotsOf(off + a, b);
    forall k | k in whole ensures k in front || k in rest {
      var p: nat :| off <= p < off + a + b && k in Path(BlockNo(p));
      if p < off + a {
        SlotsAt(off, a, p, k);
      } else {
        SlotsAt(off + a, b, p, k);
      }
    }
    forall k | k in front || k in rest ensures k in whole {
      var p: nat :| off <= p < off + a + b && k in Path(BlockNo(p));
      SlotsAt(off, a + b, p, k);
    }
  }

  /** Bytes within one block. */
  lemma SlotsInBlock(off: nat, n: nat)
    requires 0 < n && Within(off) + n <= BSIZE
    ensures SlotsOf(off, n) == Path(BlockNo(off))
  {
    forall p: nat | off <= p < off + n ensures BlockNo(p) == BlockNo(off) {
    }
    hide Path, BlockNo, Within;
    forall k | k in Path(BlockNo(off)) ensures k in SlotsOf(off, n) {
      SlotsAt(off, n, off, k);
    }
  }

  /** More bytes lack no fewer blocks. */
  lemma LackingMore(fs: Fs, i: nat, off: nat, a: nat, b: nat)
    requires i < |fs.inodes| && a <= b
    ensures Lacking(fs, i, off, a) <= Lacking(fs, i, off, b)
  {
    SlotsJoin(off, a, b - a);
    hide Full, SlotsOf;
    SubsetSize(SlotsOf(off, a) - Full(fs, i), SlotsOf(off, b) - Full(fs, i));
  }

  /** One more round of writei has found its blocks, */
  lemma SpentRound(fs: Fs, fs1: Fs, fs2: Fs, i: nat, off: nat, tot: nat, m: nat)
    requires Spent(fs, fs1, i, SlotsOf(off, tot)) && Spent(fs1, fs2, i, Path(BlockNo(off + tot)))
    requires 0 < m && Within(off + tot) + m <= BSIZE
    ensures Spent(fs, fs2, i, SlotsOf(off, tot + m)) && Lacking(fs, i, off, tot + m) <= |Free(fs.used)|
  {
    hide Spent, SlotsOf, Path, Lacking, Free;
    SlotsInBlock(off + tot, m);
    SlotsJoin(off, tot, m);
    SpentMore(fs, fs1, fs2, i, SlotsOf(off, tot), SlotsOf(off + tot, m));
    SpentFits(fs, fs2, i, off, tot + m);
  }

  /** or has not. */
  lemma ShortRound(fs: Fs, fs1: Fs, i: nat, off: nat, tot: nat)
    requires Spent(fs, fs1, i, SlotsOf(off, tot)) && Short(fs1, i, Path(BlockNo(off + tot)))
    ensures Short(fs, i, SlotsOf(off, tot + 1))
  {
    hide Spent, Short, SlotsOf, Path;
    SlotsInBlock(off + tot, 1);
    SlotsJoin(off, tot, 1);
    ShortMore(fs, fs1, i, SlotsOf(off, tot), SlotsOf(off + tot, 1));
  }
}
