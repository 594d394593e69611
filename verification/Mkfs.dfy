/** The image that mkfs/mkfs.c builds, as the first state of the file system: iappend takes blocks one
    after another, and the bitmap written at the end marks exactly those taken. */
module Mkfs {
  import opened Blocks
  import opened Inodes
  import opened FileSys

  /** The bitmap that mkfs writes: the first n blocks are in use. */
  function FirstUsed(size: nat, n: nat): (u: seq<bool>)
    ensures |u| == size
  {
    seq(size, b => b < n)
  }

  /** Exactly the blocks that hold a byte of the file are there. */
  ghost predicate Tight(fs: Fs, i: nat)
    requires i < |fs.inodes|
  {
    && fs.inodes[i].size <= MAXBYTES
    && forall bn :: 0 <= bn < MAXFILE ==> (Addr(fs, i, bn) != 0 <==> 1024 * bn < fs.inodes[i].size)
  }

  /** Blocks that have not been taken are still zero. */
  ghost predicate Zeroed(data: seq<Block>, n: nat) {
    forall b :: n <= b < |data| ==> data[b] == ZeroBlock()
  }

  /** Only block bn of file i has been added. */
  ghost predicate OnlyAdds(fs: Fs, fs': Fs, i: nat, bn: nat) {
    && |fs'.inodes| == |fs.inodes| && i < |fs.inodes|
    && forall c :: 0 <= c < MAXFILE && c != bn ==> Addr(fs', i, c) == Addr(fs, i, c)
  }

  class Image {
    const sb: Super
    var data: seq<Block>
    var inodes: seq<Inode>
    var freeblock: nat

    ghost function View(): (fs: Fs)
      reads this
    {
      Fs(FirstUsed(sb.size, freeblock), data, inodes)
    }

    ghost predicate Ready()
      reads this
    {
      Steady(sb, View()) && Zeroed(data, freeblock)
    }

    ghost predicate Valid()
      reads this
    {
      Ready() && forall i :: 0 <= i < |inodes| ==> Tight(View(), i)
    }

    /** An image of zeroes, before the first file. */
    constructor (s: Super, n: nat)
      requires 0 < s.nmeta <= s.size <= UINT_MAX
      ensures Valid() && sb == s && |inodes| == n && freeblock == s.nmeta
      ensures forall i :: 0 <= i < n ==> inodes[i] == NoInode()
    {
      sb, freeblock := s, s.nmeta;
      data := seq(s.size, _ => ZeroBlock());
      inodes := seq(n, _ => Inode(0, seq(NDIRECT + 1, _ => 0)));
      new;
      FreshImage(s, View());
    }

    /** A slot of the inode itself, filled with the next free block if it is empty. */
    method Slot(i: nat, k: nat) returns (x: nat)
      requires Ready() && i < |inodes| && k <= NDIRECT && (inodes[i].addrs[k] == 0 ==> freeblock < sb.size)
      modifies `inodes, `freeblock
      ensures Ready() && |inodes| == |old(inodes)| && x == inodes[i].addrs[k] && x != 0
      ensures freeblock == old(freeblock) + if old(inodes[i].addrs[k]) == 0 then 1 else 0
      ensures SameBlocks(old(View()), View()) && Extends(old(View()), View(), i)
      ensures Rows(View()) == SetRef(old(Rows(View())), i, k, x)
    {
      hide Rows, SetRef, Own, Steady, Taken, Extends, SameBlocks;
      ghost var fs := View();
      NothingMapped(fs, i, k);
      if inodes[i].addrs[k] == 0 {
        NextFree(sb, fs, freeblock);
        TakenDirect(sb, fs, i, k, freeblock);
        inodes := inodes[i := inodes[i].(addrs := inodes[i].addrs[k := freeblock])];
        freeblock := freeblock + 1;
        TakenKeeps(sb, fs, View(), i, k, freeblock - 1, 0);
      }
      x := inodes[i].addrs[k];
    }

    /** A word of the indirect block, filled with the next free block if it is zero. */
    method TableSlot(i: nat, j: nat) returns (x: nat)
      requires Ready() && i < |inodes| && j < NINDIRECT && freeblock < sb.size && inodes[i].addrs[INDIRECT] != 0
      modifies `data, `freeblock
      ensures Ready() && x == Rows(View())[i][NDIRECT + 1 + j] && x != 0
      ensures old(freeblock) <= freeblock <= old(freeblock) + 1
      ensures SameBlocks(old(View()), View()) && Extends(old(View()), View(), i)
      ensures Rows(View()) == SetRef(old(Rows(View())), i, NDIRECT + 1 + j, x)
    {
      hide Rows, SetRef, Own, Steady, Taken, Extends, SameBlocks;
      ghost var fs := View();
      NothingMapped(fs, i, INDIRECT);
      TableWord(sb, fs, i, j);
      SameSlot(Rows(fs), i, NDIRECT + 1 + j);
      var t := inodes[i].addrs[INDIRECT];
      if Word(data[t], j) == 0 {
        NextFree(sb, fs, freeblock);
        TakenTable(sb, fs, i, j, freeblock);
        TakenIsUsed(sb, fs, i, INDIRECT, freeblock);
        data := data[t := SetWord(data[t], j, freeblock)];
        freeblock := freeblock + 1;
        TakenKeeps(sb, fs, View(), i, NDIRECT + 1 + j, freeblock - 1, t);
        TakenRows(sb, fs, View(), i, NDIRECT + 1 + j, freeblock - 1, t);
        TableWord(sb, View(), i, j);
      }
      x := Word(data[t], j);
    }

    /** The sector that holds block bn of file i. */
    method Sector(i: nat, bn: nat) returns (x: nat)
      requires Ready() && i < |inodes| && bn < MAXFILE
      requires freeblock + (if inodes[i].addrs[INDIRECT] == 0 then 2 else 1) <= sb.size
      modifies `data, `inodes, `freeblock
      ensures Ready() && |inodes| == |old(inodes)| && x == Addr(View(), i, bn) != 0
      ensures freeblock <= old(freeblock) + 1 + Grown(old(inodes[i]), inodes[i])
      ensures SameBlocks(old(View()), View()) && Extends(old(View()), View(), i) && OnlyAdds(old(View()), View(), i, bn)
    {
      hide Rows, SetRef, Own, Steady, Extends, SameBlocks, OnlyAdds, Zeroed;
      ghost var fs := View();
      if bn < NDIRECT {
        x := Slot(i, bn);
        NothingMapped(View(), i, bn);
        NothingMapped(fs, i, INDIRECT);
        SlotAdds(fs, View(), i, bn, x, bn);
      } else {
        var t := Slot(i, INDIRECT);
        ghost var fs1 := View();
        SlotAdds(fs, fs1, i, INDIRECT, t, bn);
        x := TableSlot(i, bn - NDIRECT);
        SlotAdds(fs1, View(), i, bn + 1, x, bn);
        AddsTrans(fs, fs1, View(), i, bn);
        MappedTrans(fs, fs1, View(), i);
      }
    }

    /** One round of iappend: the bytes that fall in one block. */
    method AppendBlock(i: nat, off: nat, bytes: seq<Byte>)
      requires Ready() && i < |inodes| && off < MAXBYTES && Within(off) + |bytes| <= BSIZE
      requires freeblock + (if inodes[i].addrs[INDIRECT] == 0 then 2 else 1) <= sb.size
      modifies `data, `inodes, `freeblock
      ensures Ready() && |inodes| == |old(inodes)| && Addr(View(), i, BlockNo(off)) != 0
      ensures freeblock <= old(freeblock) + 1 + Grown(old(inodes[i]), inodes[i])
      ensures Extends(old(View()), View(), i) && OnlyAdds(old(View()), View(), i, BlockNo(off))
      ensures Written(old(View()), View(), i, off, bytes)
    {
      hide Rows, Own, Steady, Taken, Extends, SameBlocks, Addr, Written, Splice, OnlyAdds;
      ghost var fs := View();
      var x := Sector(i, BlockNo(off));
      ghost var fs1 := View();
      SameBlocksWritten(fs, fs1, i, off);
      BytesWritten(sb, fs1, i, off, bytes);
      DataWritten(sb, fs1, i, off, bytes);
      SectorTaken(sb, fs1, i, BlockNo(off), freeblock);
      data := data[x := Splice(data[x], Within(off), bytes)];
      ExtendsSame(fs, fs1, View(), i);
      AddsSame(fs, fs1, View(), i, BlockNo(off));
      assert [] + bytes == bytes;
      WrittenMore(fs, fs1, View(), i, off, [], bytes);
    }

    /** iappend: the bytes go to the end of the file. */
    method Iappend(i: nat, xp: seq<Byte>)
      requires Valid() && i < |inodes| && inodes[i].size + |xp| <= MAXBYTES
      requires freeblock + Touched(inodes[i].size, |xp|) + 1 <= sb.size
      modifies `data, `inodes, `freeblock
      ensures Valid() && ContentsSpliced(old(View()), View(), i, old(inodes[i].size), xp)
      ensures |inodes| == |old(inodes)| && inodes[i].size == old(inodes[i].size) + |xp|
      ensures freeblock <= old(freeblock) + Touched(old(inodes[i].size), |xp|) + 1
      ensures forall j :: 0 <= j < |inodes| && j != i ==> inodes[j] == old(inodes)[j]
    {
      hide Rows, Own, Steady, Extends, Addr, Written, Covered, Progress, Touched, Tight, Zeroed, OnlyAdds, Bounded, Good, ContentsSpliced;
      ghost var fs, fb := View(), freeblock;
      var off := inodes[i].size;
      ghost var t := 0;
      var k := 0;
      AppendStart(sb, fs, i);
      assert xp[..0] == [];
      while k < |xp|
        invariant 0 <= k <= |xp| && |inodes| == |fs.inodes| && Ready()
        invariant Progress(sb, fs, View(), i, off, xp[..k]) && Bounded(View(), i, off + k)
        invariant freeblock <= fb + t + Grown(fs.inodes[i], inodes[i])
        invariant 0 <= t <= Touched(off, |xp|) && (t == 0 ==> k == 0)
        invariant t >= 1 && k < |xp| ==> off + k == 1024 * (BlockNo(off) + t)
      {
        var room := BSIZE - Within(off + k);
        var n1 := if |xp| - k < room then |xp| - k else room;
        ghost var fs1 := View();
        TouchedMore(off, |xp|, t, k);
        AppendBlock(i, off + k, xp[k..k + n1]);
        ProgressParts(sb, fs, fs1, i, off, xp[..k]);
        IndirectStays(fs, fs1, i);
        IndirectStays(fs1, View(), i);
        ProgressMore(sb, fs, fs1, View(), i, off, xp[..k], xp[k..k + n1]);
        BoundedMore(fs1, View(), i, off + k, n1);
        assert xp[..k] + xp[k..k + n1] == xp[..k + n1];
        t, k := t + 1, k + n1;
      }
      assert xp[..k] == xp;
      AppendDone(sb, fs, View(), i, xp);
      inodes := inodes[i := inodes[i].(size := off + |xp|)];
    }

    /** The size of the root directory is rounded up at the end of mkfs. */
    method FixRoot(root: nat)
      requires Valid() && root < |inodes|
      modifies `inodes
      ensures inodes == old(inodes)[root := old(inodes[root]).(size := RoundUp(old(inodes[root].size)))]
      ensures Good(sb, View()) <==> old(inodes[root].size) % 1024 != 0
    {
      hide Good, Steady, Tight, RoundUp;
      ghost var fs := View();
      RootRounded(sb, fs, root);
      inodes := inodes[root := inodes[root].(size := RoundUp(inodes[root].size))];
      assert View() == WithSize(fs, root, RoundUp(fs.inodes[root].size));
    }

    /** balloc of mkfs: the bitmap that goes to disk.  ok is false where it stops on its assertion. */
    method Bitmap() returns (ok: bool, bits: seq<bool>)
      requires freeblock <= sb.size
      ensures (ok <==> freeblock < BPB) && (ok ==> bits == View().used)
    {
      bits := [];
      ok := freeblock < BPB;
      if !ok {
        return;
      }
      bits := seq(sb.size, _ => false);
      var b := 0;
      while b < freeblock
        invariant 0 <= b <= freeblock && |bits| == sb.size
        invariant forall c :: 0 <= c < sb.size ==> bits[c] == (c < b)
      {
        bits := bits[b := true];
        b := b + 1;
      }
    }
  }

  function RoundUp(n: nat): (r: nat) {
    (n / 1024 + 1) * 1024
  }

  /** Rounding up a size that is already a multiple of the block size leaves a hole at the end of the root
      directory; otherwise the image is a good first state. */
  lemma RootRounded(sb: Super, fs: Fs, root: nat)
    requires Steady(sb, fs) && root < |fs.inodes| && forall j :: 0 <= j < |fs.inodes| ==> Tight(fs, j)
    ensures Good(sb, WithSize(fs, root, RoundUp(fs.inodes[root].size))) <==> fs.inodes[root].size % 1024 != 0
  {
    var n := fs.inodes[root].size;
    var fs' := WithSize(fs, root, RoundUp(n));
    SizeOnly(fs, root, RoundUp(n));
    hide Rows, Own;
    assert Tight(fs, root);
    if n % 1024 != 0 {
      forall j | 0 <= j < |fs'.inodes| ensures NoHoles(fs', j) {
        assert Tight(fs, j);
        forall bn | 0 <= bn < MAXFILE && 1024 * bn < fs'.inodes[j].size ensures Addr(fs', j, bn) != 0 {
          assert Addr(fs', j, bn) == Addr(fs, j, bn);
        }
      }
    } else if n < MAXBYTES {
      assert Addr(fs', root, BlockNo(n)) == Addr(fs, root, BlockNo(n)) == 0;
      assert !NoHoles(fs', root);
    } else {
      assert !NoHoles(fs', root);
    }
  }

  /** No block at or above upto is there. */
  ghost predicate Bounded(fs: Fs, i: nat, upto: nat)
    requires i < |fs.inodes|
  {
    forall bn :: 0 <= bn < MAXFILE && Addr(fs, i, bn) != 0 ==> 1024 * bn < upto
  }

  lemma AppendStart(sb: Super, fs: Fs, i: nat)
    requires Steady(sb, fs) && i < |fs.inodes| && forall j :: 0 <= j < |fs.inodes| ==> Tight(fs, j)
    ensures Good(sb, fs) && Progress(sb, fs, fs, i, fs.inodes[i].size, []) && Bounded(fs, i, fs.inodes[i].size)
  {
    TightIsGood(sb, fs);
    WriteStart(sb, fs, i, fs.inodes[i].size);
    assert Tight(fs, i);
  }

  lemma TightIsGood(sb: Super, fs: Fs)
    requires Steady(sb, fs) && forall j :: 0 <= j < |fs.inodes| ==> Tight(fs, j)
    ensures Good(sb, fs)
  {
    forall j | 0 <= j < |fs.inodes| ensures NoHoles(fs, j) {
      assert Tight(fs, j);
    }
  }

  lemma BoundedMore(fs: Fs, fs': Fs, i: nat, end: nat, m: nat)
    requires i < |fs.inodes| && OnlyAdds(fs, fs', i, BlockNo(end)) && Bounded(fs, i, end) && m > 0
    ensures Bounded(fs', i, end + m)
  {
  }

  lemma AppendDone(sb: Super, fs: Fs, fs1: Fs, i: nat, xp: seq<Byte>)
    requires Good(sb, fs) && i < |fs.inodes| && fs.inodes[i].size + |xp| <= MAXBYTES
    requires forall j :: 0 <= j < |fs.inodes| ==> Tight(fs, j)
    requires Progress(sb, fs, fs1, i, fs.inodes[i].size, xp) && Bounded(fs1, i, fs.inodes[i].size + |xp|)
    ensures var fs2 := WithSize(fs1, i, fs.inodes[i].size + |xp|);
      && Steady(sb, fs2) && (forall j :: 0 <= j < |fs2.inodes| ==> Tight(fs2, j))
      && ContentsSpliced(fs, fs2, i, fs.inodes[i].size, xp)
      && forall j :: 0 <= j < |fs.inodes| && j != i ==> fs2.inodes[j] == fs.inodes[j]
  {
    hide OthersSame, Progress, Good, Steady, ContentsSpliced, Extends, Covered, Bounded, Tight;
    ProgressParts(sb, fs, fs1, i, fs.inodes[i].size, xp);
    var n := fs.inodes[i].size + |xp|;
    var fs2 := WithSize(fs1, i, n);
    WriteDone(sb, fs, fs1, i, fs.inodes[i].size, xp);
    OthersFree(fs, fs2, i);
    GoodSteady(sb, fs2);
    forall j | 0 <= j < |fs2.inodes| ensures Tight(fs2, j) {
      StillTight(fs, fs1, i, n, j);
    }
  }

  lemma GoodSteady(sb: Super, fs: Fs)
    requires Good(sb, fs)
    ensures Steady(sb, fs)
  {
  }

  lemma StillTight(fs: Fs, fs1: Fs, i: nat, n: nat, j: nat)
    requires Extends(fs, fs1, i) && n <= MAXBYTES && Covered(fs1, i, n) && Bounded(fs1, i, n)
    requires j < |fs.inodes| && Tight(fs, j)
    ensures Tight(WithSize(fs1, i, n), j)
  {
    var fs2 := WithSize(fs1, i, n);
    SizeOnly(fs1, i, n);
    hide Rows;
    forall bn | 0 <= bn < MAXFILE ensures Addr(fs2, j, bn) != 0 <==> 1024 * bn < fs2.inodes[j].size {
      assert Addr(fs2, j, bn) == Addr(fs1, j, bn);
      assert j != i ==> Addr(fs1, j, bn) == Addr(fs, j, bn);
    }
  }

  lemma SlotAdds(fs: Fs, fs': Fs, i: nat, k: nat, x: nat, bn: nat)
    requires i < |fs.inodes| == |fs'.inodes| && k <= MAXFILE && Rows(fs') == SetRef(Rows(fs), i, k, x)
    requires bn < MAXFILE && (k == SlotOf(bn) || k == INDIRECT)
    ensures OnlyAdds(fs, fs', i, bn) && Rows(fs')[i][k] == x
  {
  }

  lemma AddsTrans(fs: Fs, fs1: Fs, fs2: Fs, i: nat, bn: nat)
    requires OnlyAdds(fs, fs1, i, bn) && OnlyAdds(fs1, fs2, i, bn)
    ensures OnlyAdds(fs, fs2, i, bn)
  {
  }

  lemma AddsSame(fs: Fs, fs1: Fs, fs2: Fs, i: nat, bn: nat)
    requires OnlyAdds(fs, fs1, i, bn) && fs2.inodes == fs1.inodes && Rows(fs2) == Rows(fs1)
    ensures OnlyAdds(fs, fs2, i, bn)
  {
  }

  lemma SectorTaken(sb: Super, fs: Fs, i: nat, bn: nat, n: nat)
    requires Steady(sb, fs) && fs.used == FirstUsed(sb.size, n) && i < |fs.inodes| && bn < MAXFILE && Addr(fs, i, bn) != 0
    ensures Addr(fs, i, bn) < n
  {
    assert fs.used[0];
    TakenIsUsed(sb, fs, i, SlotOf(bn), n);
  }

  lemma FreshImage(sb: Super, fs: Fs)
    requires 0 < sb.nmeta <= sb.size <= UINT_MAX && fs.used == FirstUsed(sb.size, sb.nmeta)
    requires |fs.data| == sb.size && Zeroed(fs.data, 0)
    requires forall i :: 0 <= i < |fs.inodes| ==> fs.inodes[i] == Inode(0, seq(NDIRECT + 1, _ => 0))
    ensures Steady(sb, fs) && forall i :: 0 <= i < |fs.inodes| ==> Tight(fs, i)
  {
  }

  lemma NextFree(sb: Super, fs: Fs, n: nat)
    requires Steady(sb, fs) && fs.used == FirstUsed(sb.size, n) && n < sb.size && Zeroed(fs.data, n)
    ensures 0 < n < |fs.used| == |fs.data| <= UINT_MAX && !fs.used[n] && fs.data[n] == ZeroBlock()
    ensures fs.used[n := true] == FirstUsed(sb.size, n + 1) && fs.data[n := ZeroBlock()] == fs.data
    ensures Zeroed(fs.data, n + 1)
  {
    assert fs.used[0];
  }

  lemma TakenIsUsed(sb: Super, fs: Fs, i: nat, k: nat, n: nat)
    requires Steady(sb, fs) && fs.used == FirstUsed(sb.size, n) && i < |fs.inodes| && k <= MAXFILE && 0 < n
    ensures Rows(fs)[i][k] < n
  {
  }

  lemma TakenRows(sb: Super, fs: Fs, fs': Fs, i: nat, k: nat, b: nat, t: nat)
    requires Taken(sb, fs, fs', i, k, b, t)
    ensures Rows(fs') == SetRef(Rows(fs), i, k, b)
  {
  }

  lemma SameSlot(rows: seq<Row>, i: nat, k: nat)
    requires i < |rows| && k <= MAXFILE
    ensures SetRef(rows, i, k, rows[i][k]) == rows
  {
    assert rows[i][k := rows[i][k]] == rows[i];
  }
}
