/** The operations of kernel/fs.c on blocks and file contents, and filewrite of kernel/file.c. */
module FileSys {
  import opened Sums
  import opened Blocks
  import opened Inodes
  import opened Capacity

  const MAXOPBLOCKS: nat := 10

  /** The block of the free map that holds the bit of block b. */
  function BBlock(sb: Super, b: nat): (x: nat) {
    b / 8192 + sb.bmapstart
  }

  function IBlock(sb: Super, i: nat): (x: nat) {
    i / 16 + sb.inodestart
  }

  /** x is a block of the free map. */
  predicate InBitmap(sb: Super, x: nat) {
    sb.bmapstart <= x && (x - sb.bmapstart) * 8192 < sb.size
  }

  ghost predicate BitsOk(sb: Super, bms: set<nat>) {
    forall x :: x in bms ==> InBitmap(sb, x)
  }

  /** What one call of log_write after another adds up to. */
  lemma LogJoin(sb: Super, l: set<nat>, b1: set<nat>, o1: set<nat>, b2: set<nat>, o2: set<nat>)
    ensures l + b1 + o1 + b2 + o2 == l + (b1 + b2) + (o1 + o2)
    ensures |b1 + b2| <= |b1| + |b2| && |o1 + o2| <= |o1| + |o2|
    ensures BitsOk(sb, b1) && BitsOk(sb, b2) ==> BitsOk(sb, b1 + b2)
  {
  }

  class FileSystem {
    const sb: Super
    var used: seq<bool>
    var data: seq<Block>
    var inodes: seq<Inode>
    /** The types of the inodes on disk; 0 is free. */
    var typ: seq<nat>
    /** The blocks that log_write has been called on. */
    ghost var logged: set<nat>
    /** How many blocks each of the transactions of filewrite has logged. */
    ghost var ops: seq<nat>

    ghost function View(): (fs: Fs)
      reads this
    {
      Fs(used, data, inodes)
    }

    constructor (s: Super, fs: Fs, types: seq<nat>)
      requires Good(s, fs)
      ensures sb == s && View() == fs && typ == types && logged == {} && ops == []
    {
      sb, used, data, inodes, typ, logged, ops := s, fs.used, fs.data, fs.inodes, types, {}, [];
    }

    /** A free inode has no blocks. */
    ghost predicate FreeEmpty()
      reads this
    {
      |typ| == |inodes| && forall i :: 0 <= i < |typ| && typ[i] == 0 ==> inodes[i] == NoInode()
    }

    /** ialloc: the first free inode, marked with its type; 0 where the source finds none.  Clearing the inode, which has
        no blocks, changes no file. */
    method Ialloc(t: nat) returns (r: nat)
      requires FreeEmpty() && t != 0
      modifies `typ, `inodes, `logged
      ensures FreeEmpty() && View() == old(View())
      ensures r == 0 ==> typ == old(typ) && logged == old(logged) && forall i :: 1 <= i < |typ| ==> typ[i] != 0
      ensures r != 0 ==> r < |typ| && old(typ)[r] == 0 && typ == old(typ)[r := t] && forall i :: 1 <= i < r ==> typ[i] != 0
      ensures r != 0 ==> inodes[r] == NoInode() && logged == old(logged) + {IBlock(sb, r)}
    {
      r := 1;
      while r < |typ|
        invariant 1 <= r && unchanged(this) && forall i :: 1 <= i < r && i < |typ| ==> typ[i] != 0
      {
        if typ[r] == 0 {
          inodes := inodes[r := NoInode()];
          typ := typ[r := t];
          logged := logged + {IBlock(sb, r)};
          return;
        }
        r := r + 1;
      }
      r := 0;
    }

    /** The part of iput that frees an inode without links: its blocks are returned, and it is marked free. */
    method Ifree(i: nat)
      requires Good(sb, View()) && FreeEmpty() && i < |inodes|
      modifies `used, `inodes, `logged, `typ
      ensures Good(sb, View()) && FreeEmpty() && typ == old(typ)[i := 0] && inodes == old(inodes)[i := NoInode()]
      ensures OthersKept(old(View()), View(), i) && Rows(View()) == Wiped(old(Rows(View())), i, INDIRECT + 1, NINDIRECT)
    {
      hide Good, Rows, Wiped;
      ghost var was := inodes;
      ghost var bms := Itrunc(i);
      assert inodes == was[i := NoInode()];
      typ := typ[i := 0];
      Iupdate(i);
    }

    /** A file is created, written and freed again: whatever was written, and whether or not the disk ran full, every
        inode and every bit of the bitmap is afterwards what it was before, and no other file has changed. */
    method FileLife(t: nat, src: seq<Byte>) returns (i: nat)
      requires Good(sb, View()) && FreeEmpty() && t != 0
      modifies `used, `data, `inodes, `logged, `ops, `typ
      ensures Good(sb, View()) && used == old(used) && inodes == old(inodes) && typ == old(typ)
      ensures SameContents(old(View()), View())
    {
      hide Good, Rows, Wiped, OthersSame, OthersKept, ContentsSpliced, SameContents, SmallOps, Contents, Furthest, Lacking, Free;
      ghost var fs := View();
      GoodSelf(sb, fs);
      SameSelf(sb, fs);
      i := Ialloc(t);
      if i == 0 {
        return;
      }
      ghost var types := typ;
      var ret, newoff := Filewrite(i, 0, src);
      ghost var fs1 := View();
      OthersFree(fs, fs1, i);
      Ifree(i);
      LifeOver(sb, fs, fs1, View(), i);
      if newoff == 0 {
        ContentsOver(fs, fs1, View(), i);
      } else {
        SplicedOver(fs, fs1, View(), i, src[..newoff]);
      }
      NothingThere(fs, View(), i);
    }

    /** balloc: the first free block, marked in use and zeroed; 0 if there is none. */
    method Balloc() returns (r: nat)
      requires Steady(sb, View())
      modifies `used, `data, `logged
      ensures r == 0 ==> unchanged(this) && forall c :: 0 <= c < |used| ==> used[c]
      ensures r != 0 ==> r < |old(used)| && !old(used)[r] && (forall c :: 0 <= c < r ==> old(used)[c])
      ensures r != 0 ==> View() == Allocated(old(View()), r) && logged == old(logged) + {BBlock(sb, r), r}
    {
      hide Rows;
      var b := 0;
      while b < sb.size
        invariant 0 <= b && b % 8192 == 0 && unchanged(this)
        invariant forall c :: 0 <= c < b && c < sb.size ==> used[c]
      {
        var bi := 0;
        while bi < BPB && b + bi < sb.size
          invariant 0 <= bi <= BPB && unchanged(this)
          invariant forall c :: 0 <= c < b + bi && c < sb.size ==> used[c]
        {
          if !used[b + bi] {
            used := used[b + bi := true];
            logged := logged + {BBlock(sb, b)};
            Bzero(b + bi);
            assert BBlock(sb, b) == BBlock(sb, b + bi);
            return b + bi;
          }
          bi := bi + 1;
        }
        b := b + BPB;
      }
      return 0;
    }

    method Bzero(b: nat)
      requires b < |data|
      modifies `data, `logged
      ensures data == old(data)[b := ZeroBlock()] && logged == old(logged) + {b}
    {
      data := data[b := ZeroBlock()];
      logged := logged + {b};
    }

    /** bfree.  Its panic on a free block is the precondition. */
    method Bfree(b: nat)
      requires b < |used| && used[b]
      modifies `used, `logged
      ensures used == old(used)[b := false] && logged == old(logged) + {BBlock(sb, b)}
    {
      used := used[b := false];
      logged := logged + {BBlock(sb, b)};
    }

    /** What bmap may have done, whether or not it found a block. */
    ghost predicate Mapped(fs: Fs, i: nat)
      reads this
    {
      Steady(sb, View()) && SameBlocks(fs, View()) && Extends(fs, View(), i)
    }

    /** The direct case of bmap, and the loading of the indirect block: slot k of the inode, filled if
        necessary. */
    method Slot(i: nat, k: nat) returns (addr: nat, ghost bms: set<nat>, ghost own: set<nat>)
      requires Steady(sb, View()) && i < |inodes| && k <= NDIRECT
      modifies `used, `data, `inodes, `logged
      ensures Mapped(old(View()), i) && |inodes| == |old(inodes)| && addr == inodes[i].addrs[k]
      ensures addr == 0 ==> unchanged(this) && forall c :: 0 <= c < |used| ==> used[c]
      ensures old(inodes[i].addrs[k]) != 0 ==> unchanged(this)
      ensures logged == old(logged) + bms + own && BitsOk(sb, bms) && own <= {addr} - {0}
      ensures |bms| <= if old(inodes[i].addrs[k]) == 0 && addr != 0 then 1 else 0
      ensures Rows(View()) == SetRef(old(Rows(View())), i, k, addr)
      ensures addr != 0 ==> Spent(old(View()), View(), i, {k})
    {
      hide Rows, SetRef, Own, Steady, Taken, Extends, SameBlocks, Spent;
      ghost var fs := View();
      NothingMapped(fs, i, k);
      bms, own := {}, {};
      addr := inodes[i].addrs[k];
      if addr != 0 {
        SpentThere(fs, i, k);
      }
      if addr == 0 {
        addr := Balloc();
        if addr == 0 {
          return;
        }
        TakenDirect(sb, fs, i, k, addr);
        inodes := inodes[i := inodes[i].(addrs := inodes[i].addrs[k := addr])];
        TakenKeeps(sb, fs, View(), i, k, addr, 0);
        TakenSpent(sb, fs, View(), i, k, addr, 0);
        BitInMap(sb, View(), i, k);
        bms, own := {BBlock(sb, addr)}, {addr};
      }
    }

    /** The indirect case of bmap: word j of the indirect block, filled if necessary. */
    method TableSlot(i: nat, j: nat) returns (addr: nat, ghost bms: set<nat>, ghost own: set<nat>)
      requires Steady(sb, View()) && i < |inodes| && j < NINDIRECT && inodes[i].addrs[INDIRECT] != 0
      modifies `used, `data, `logged
      ensures Mapped(old(View()), i) && addr == Rows(View())[i][NDIRECT + 1 + j]
      ensures addr == 0 ==> unchanged(this) && forall c :: 0 <= c < |used| ==> used[c]
      ensures old(Rows(View())[i][NDIRECT + 1 + j]) != 0 ==> unchanged(this)
      ensures logged == old(logged) + bms + own && BitsOk(sb, bms) && own <= {addr, inodes[i].addrs[INDIRECT]} - {0}
      ensures |bms| <= if old(Rows(View())[i][NDIRECT + 1 + j]) == 0 then 1 else 0
      ensures addr != 0 ==> Spent(old(View()), View(), i, {NDIRECT + 1 + j})
    {
      hide Rows, SetRef, Own, Steady, Taken, Extends, SameBlocks, Spent;
      ghost var fs := View();
      NothingMapped(fs, i, 0);
      var t := inodes[i].addrs[INDIRECT];
      TableWord(sb, fs, i, j);
      bms, own := {}, {};
      addr := Word(data[t], j);
      if addr != 0 {
        SpentThere(fs, i, NDIRECT + 1 + j);
      }
      if addr == 0 {
        addr := Balloc();
        if addr != 0 {
          TakenTable(sb, fs, i, j, addr);
          data := data[t := SetWord(data[t], j, addr)];
          logged := logged + {t};
          TakenKeeps(sb, fs, View(), i, NDIRECT + 1 + j, addr, t);
          TakenSpent(sb, fs, View(), i, NDIRECT + 1 + j, addr, t);
          BitInMap(sb, View(), i, NDIRECT + 1 + j);
          bms, own := {BBlock(sb, addr)}, {addr, t};
        }
      }
    }

    /** bmap: the block that holds block bn of file i, allocated if it was not there; 0 if the disk is
        full.  bms and own are the bitmap blocks and the file's own blocks that have been logged. */
    method Bmap(i: nat, bn: nat) returns (addr: nat, ghost bms: set<nat>, ghost own: set<nat>)
      requires Steady(sb, View()) && i < |inodes| && bn < MAXFILE
      modifies `used, `data, `inodes, `logged
      ensures Mapped(old(View()), i) && addr == Addr(View(), i, bn) && |inodes| == |old(inodes)|
      ensures addr == 0 ==> forall c :: 0 <= c < |used| ==> used[c]
      ensures old(Addr(View(), i, bn)) != 0 ==> unchanged(this) && bms == {}
      ensures logged == old(logged) + bms + own && BitsOk(sb, bms)
      ensures |bms| <= 1 + Grown(old(inodes[i]), inodes[i])
      ensures own <= {addr, inodes[i].addrs[INDIRECT]} - {0}
      ensures if addr != 0 then Spent(old(View()), View(), i, Path(bn)) else Short(old(View()), i, Path(bn))
    {
      hide Rows, SetRef, Own, Steady, Taken, Extends, SameBlocks, Spent, Short;
      ghost var fs := View();
      if bn < NDIRECT {
        NothingMapped(fs, i, bn);
        addr, bms, own := Slot(i, bn);
        NothingMapped(View(), i, bn);
        if addr == 0 {
          ShortOne(fs, i, bn, {bn});
        }
        return;
      }
      addr, bms, own := Indirect(i, bn - NDIRECT);
    }

    /** The indirect case of bmap. */
    method Indirect(i: nat, j: nat) returns (addr: nat, ghost bms: set<nat>, ghost own: set<nat>)
      requires Steady(sb, View()) && i < |inodes| && j < NINDIRECT
      modifies `used, `data, `inodes, `logged
      ensures Mapped(old(View()), i) && |inodes| == |old(inodes)| && addr == Rows(View())[i][NDIRECT + 1 + j]
      ensures addr == 0 ==> forall c :: 0 <= c < |used| ==> used[c]
      ensures old(Rows(View()))[i][NDIRECT + 1 + j] != 0 ==> unchanged(this) && bms == {}
      ensures logged == old(logged) + bms + own && BitsOk(sb, bms)
      ensures |bms| <= 1 + Grown(old(inodes[i]), inodes[i])
      ensures own <= {addr, inodes[i].addrs[INDIRECT]} - {0}
      ensures if addr != 0 then Spent(old(View()), View(), i, {INDIRECT, NDIRECT + 1 + j})
        else Short(old(View()), i, {INDIRECT, NDIRECT + 1 + j})
    {
      hide Rows, SetRef, Own, Steady, Taken, Extends, SameBlocks, BitsOk, Spent, Short;
      ghost var fs := View();
      NothingMapped(fs, i, INDIRECT);
      NoTable(fs, i, j);
      var t;
      t, bms, own := Slot(i, INDIRECT);
      ghost var fs1, l1 := View(), logged;
      NoTable(fs1, i, j);
      if t == 0 {
        ShortOne(fs, i, INDIRECT, {INDIRECT, NDIRECT + 1 + j});
        return 0, bms, own;
      }
      SetRefAt(Rows(fs), i, INDIRECT, t, NDIRECT + 1 + j);
      ghost var b2, o2;
      addr, b2, o2 := TableSlot(i, j);
      MappedTrans(fs, fs1, View(), i);
      if addr == 0 {
        TwoShort(fs, fs1, i, INDIRECT, NDIRECT + 1 + j);
      } else {
        TwoSpent(fs, fs1, View(), i, INDIRECT, NDIRECT + 1 + j);
      }
      LogJoin(sb, old(logged), bms, own, b2, o2);
      bms, own := bms + b2, own + o2;
    }

    /** One round of the loop of writei: the bytes that fall in one block. */
    method WriteBlock(i: nat, off: nat, bytes: seq<Byte>) returns (addr: nat, ghost bms: set<nat>, ghost own: set<nat>)
      requires Steady(sb, View()) && i < |inodes| && off < MAXBYTES && Within(off) + |bytes| <= BSIZE
      modifies `used, `data, `inodes, `logged
      ensures Steady(sb, View()) && Extends(old(View()), View(), i) && |inodes| == |old(inodes)|
      ensures Written(old(View()), View(), i, off, if addr == 0 then [] else bytes) && addr == Addr(View(), i, BlockNo(off))
      ensures addr == 0 ==> forall c :: 0 <= c < |used| ==> used[c]
      ensures logged == old(logged) + bms + own && BitsOk(sb, bms) && own <= {addr, inodes[i].addrs[INDIRECT]} - {0}
      ensures |bms| <= if old(Addr(View(), i, BlockNo(off))) != 0 then 0 else 1 + Grown(old(inodes[i]), inodes[i])
      ensures if addr != 0 then Spent(old(View()), View(), i, Path(BlockNo(off))) else Short(old(View()), i, Path(BlockNo(off)))
    {
      hide Rows, Own, Steady, Taken, Extends, SameBlocks, Addr, Written, BitsOk, Splice, Spent, Short, Path;
      ghost var fs := View();
      addr, bms, own := Bmap(i, BlockNo(off));
      ghost var fs1 := View();
      SameBlocksWritten(fs, fs1, i, off);
      if addr != 0 {
        BytesWritten(sb, fs1, i, off, bytes);
        DataWritten(sb, fs1, i, off, bytes);
        data := data[addr := Splice(data[addr], Within(off), bytes)];
        ExtendsSame(fs, fs1, View(), i);
        SpentSame(fs, fs1, View(), i, Path(BlockNo(off)));
        assert [] + bytes == bytes;
        WrittenMore(fs, fs1, View(), i, off, [], bytes);
        LogJoin(sb, old(logged), bms, own, {}, {addr});
        logged := logged + {addr};
        own := own + {addr};
      }
    }

    /** The loop of writei. */
    method WriteLoop(i: nat, off: nat, src: seq<Byte>) returns (tot: nat, ghost bms: set<nat>, ghost own: set<nat>)
      requires Good(sb, View()) && i < |inodes| && off <= inodes[i].size && off + |src| <= MAXBYTES
      modifies `used, `data, `inodes, `logged
      ensures tot <= |src| && Progress(sb, old(View()), View(), i, off, src[..tot]) && |inodes| == |old(inodes)|
      ensures tot < |src| ==> forall c :: 0 <= c < |used| ==> used[c]
      ensures logged == old(logged) + bms + own && BitsOk(sb, bms)
      ensures |own| <= Touched(off, |src|) + 1 && |bms| <= Fresh(off, |src|) + 1
      ensures Lacking(old(View()), i, off, tot) <= |Free(old(used))|
      ensures if tot == |src| then Spent(old(View()), View(), i, SlotsOf(off, tot)) else Short(old(View()), i, SlotsOf(off, tot + 1))
    {
      hide Rows, Own, Steady, Extends, Addr, Written, BitsOk, Covered, Good, Progress, Tallied, Touched, Grown, Fresh;
      hide Spent, Short, SlotsOf, Lacking, Free, Path;
      ghost var fs := View();
      ghost var tally := Tally({}, {}, {}, 0, 0);
      tot := 0;
      WriteStart(sb, fs, i, off);
      assert src[..0] == [];
      TallyStart(sb, fs.inodes[i], off, |src|, logged);
      NoSlots(off);
      SpentNone(fs, i);
      SpentFits(fs, fs, i, off, 0);
      while tot < |src|
        invariant 0 <= tot <= |src| && |inodes| == |fs.inodes|
        invariant Progress(sb, fs, View(), i, off, src[..tot])
        invariant Tallied(sb, fs.inodes[i], inodes[i], off, |src|, tot, old(logged), logged, tally)
        invariant Spent(fs, View(), i, SlotsOf(off, tot)) && Lacking(fs, i, off, tot) <= |Free(fs.used)|
      {
        var room := BSIZE - Within(off + tot);
        var m := if |src| - tot < room then |src| - tot else room;
        ghost var fs1, l1 := View(), logged;
        var bytes := src[tot..tot + m];
        ProgressParts(sb, fs, fs1, i, off, src[..tot]);
        var addr;
        ghost var b2, o2;
        addr, b2, o2 := WriteBlock(i, off + tot, bytes);
        TallyRound(sb, fs, fs1, View(), i, off, src, tot, m, old(logged), l1, tally, b2, o2, addr);
        tally := tally.Add(b2, o2, addr, Addr(fs1, i, BlockNo(off + tot)) == 0);
        ProgressMore(sb, fs, fs1, View(), i, off, src[..tot], if addr == 0 then [] else bytes);
        if addr == 0 {
          assert src[..tot] + [] == src[..tot];
          ShortRound(fs, fs1, i, off, tot);
          break;
        }
        assert src[..tot] + bytes == src[..tot + m];
        SpentRound(fs, fs1, View(), i, off, tot, m);
        tot := tot + m;
      }
      bms, own := tally.bms, tally.own;
      TallyTotal(sb, fs.inodes[i], inodes[i], off, |src|, |src|, old(logged), logged, tally);
    }

    /** writei, for copies that succeed. */
    method Writei(i: nat, off: nat, src: seq<Byte>) returns (r: int, ghost bms: set<nat>, ghost own: set<nat>)
      requires Good(sb, View()) && i < |inodes| && off <= UINT_MAX && |src| <= UINT_MAX
      modifies `used, `data, `inodes, `logged
      ensures Good(sb, View()) && |inodes| == |old(inodes)|
      ensures r == -1 <==> off > old(inodes[i].size) || off + |src| > MAXBYTES
      ensures r == -1 ==> unchanged(this)
      ensures r != -1 ==> 0 <= r <= |src| && ContentsSpliced(old(View()), View(), i, off, src[..r])
      ensures 0 <= r < |src| ==> forall c :: 0 <= c < |used| ==> used[c]
      ensures BitsOk(sb, bms) && (r != -1 ==> logged == old(logged) + bms + own + {IBlock(sb, i)})
      ensures |own| <= Touched(off, |src|) + 1 && |bms| <= Fresh(off, |src|) + 1
      ensures OthersSame(old(View()), View(), i)
      ensures r >= 0 ==> Lacking(old(View()), i, off, r) <= |Free(old(used))|
      ensures 0 <= r < |src| ==> Lacking(old(View()), i, off, r + 1) > |Free(old(used))|
      ensures r == |src| ==> Spent(old(View()), View(), i, SlotsOf(off, r))
    {
      hide BitsOk, Good, Progress, Touched, Fresh, ContentsSpliced, OthersSame, Spent, Short, SlotsOf, Lacking, Free;
      bms, own := {}, {};
      NoBits(sb);
      OthersSelf(View(), i);
      var n := |src|;
      GoodSizes(sb, View(), i);
      if off > inodes[i].size || (off + n) % 0x1_0000_0000 < off {
        return -1, bms, own;
      }
      if (off + n) % 0x1_0000_0000 > MAXBYTES {
        return -1, bms, own;
      }
      ghost var fs := View();
      var tot;
      tot, bms, own := WriteLoop(i, off, src);
      WriteDone(sb, fs, View(), i, off, src[..tot]);
      if tot < n {
        ShortLacks(fs, i, off, tot + 1);
      } else {
        SizeOnly(View(), i, off + tot);
        SpentSame(fs, View(), WithSize(View(), i, off + tot), i, SlotsOf(off, tot));
      }
      if off + tot > inodes[i].size {
        inodes := inodes[i := inodes[i].(size := off + tot)];
      }
      Iupdate(i);
      return tot, bms, own;
    }

    /** iupdate: the model keeps one copy of an inode, so only the logging is left. */
    method Iupdate(i: nat)
      modifies `logged
      ensures logged == old(logged) + {IBlock(sb, i)}
    {
      logged := logged + {IBlock(sb, i)};
    }

    /** One round of the loop of readi: m bytes from position p, all in one block. */
    method ReadBlock(i: nat, p: nat, m: nat) returns (out: seq<Byte>)
      requires Good(sb, View()) && i < |inodes| && m > 0 && p + m <= inodes[i].size <= MAXBYTES && Within(p) + m <= BSIZE
      modifies `used, `data, `inodes, `logged
      ensures unchanged(this) && out == Contents(View(), i)[p..p + m]
    {
      hide Good, Contents, Steady, FileBlock, BitsOk, Addr, Mapped;
      ReadableAt(sb, View(), i, p);
      BlockOfContents(View(), i, p, m);
      var addr;
      ghost var bms, own;
      addr, bms, own := Bmap(i, BlockNo(p));
      out := data[addr][Within(p)..Within(p) + m];
    }

    /** readi, for copies that succeed: the part of the range that lies in the file, and no block allocated. */
    method Readi(i: nat, off: nat, n: nat) returns (out: seq<Byte>)
      requires Good(sb, View()) && i < |inodes| && off <= UINT_MAX && n <= UINT_MAX
      modifies `used, `data, `inodes, `logged
      ensures unchanged(this) && inodes[i].size <= MAXBYTES
      ensures out == if off > inodes[i].size || off + n > UINT_MAX then [] else Clip(Contents(View(), i), off, n)
    {
      hide Good, Contents, Clip;
      out := [];
      GoodSizes(sb, View(), i);
      var size := inodes[i].size;
      if off > size || (off + n) % 0x1_0000_0000 < off {
        return;
      }
      var k := if off + n > size then size - off else n;
      ghost var c := Contents(View(), i);
      var tot := 0;
      while tot < k
        invariant 0 <= tot <= k && unchanged(this) && out == c[off..off + tot]
      {
        var room := BSIZE - Within(off + tot);
        var m := if k - tot < room then k - tot else room;
        var bytes := ReadBlock(i, off + tot, m);
        SliceJoin(c, off, off + tot, off + tot + m);
        out := out + bytes;
        tot := tot + m;
      }
      Clipped(c, off, n, k);
    }

    /** itrunc: the file is empty, and exactly its blocks are free again. */
    method Itrunc(i: nat) returns (ghost bms: set<nat>)
      requires Good(sb, View()) && i < |inodes|
      modifies `used, `inodes, `logged
      ensures Good(sb, View()) && |inodes| == |old(inodes)| && inodes[i].size == 0
      ensures Rows(View()) == Wiped(old(Rows(View())), i, INDIRECT + 1, NINDIRECT)
      ensures OthersKept(old(View()), View(), i) && inodes == old(inodes)[i := NoInode()]
      ensures logged == old(logged) + bms + {IBlock(sb, i)} && BitsOk(sb, bms)
    {
      hide Rows, Own, Good, Wiped, NoAddrs, BitsOk, OthersKept;
      NoneLeft(inodes[i].addrs);
      ghost var fs := View();
      TableOk(sb, fs, i);
      NoAddrsAt(fs.inodes[i].addrs, INDIRECT);
      bms := TruncDirect(i);
      ghost var b2 := TruncIndirect(i, Rows(fs));
      TruncDone(sb, fs, used, i);
      LogJoin(sb, old(logged), bms, {}, b2, {});
      bms := bms + b2;
      inodes := inodes[i := inodes[i].(size := 0)];
      assert inodes == Emptied(fs, used, i).inodes;
      Iupdate(i);
    }

    /** The rest of itrunc: the blocks listed in the indirect block, and then that block. */
    method TruncIndirect(i: nat, ghost rows: seq<Row>) returns (ghost bms: set<nat>)
      requires Shape(sb, View()) && i < |inodes| == |rows| && TableIs(data, inodes[i].addrs[INDIRECT], rows[i])
      requires Own(sb.nmeta, used, Wiped(rows, i, INDIRECT, 0))
      modifies `used, `inodes, `logged
      ensures Shape(sb, View()) && Own(sb.nmeta, used, Wiped(rows, i, INDIRECT + 1, NINDIRECT))
      ensures inodes == old(inodes)[i := old(inodes[i]).(addrs := old(inodes[i]).addrs[INDIRECT := 0])]
      ensures logged == old(logged) + bms && BitsOk(sb, bms)
    {
      bms := {};
      assert BitsOk(sb, bms);
      hide Own, Wiped, BitsOk, NoAddrs, TableIs;
      var t := inodes[i].addrs[INDIRECT];
      NoTableWiped(data, t, rows, i);
      if t == 0 {
        assert inodes[i].addrs[INDIRECT := 0] == inodes[i].addrs;
        return;
      }
      var j := 0;
      while j < NINDIRECT
        invariant 0 <= j <= NINDIRECT && Shape(sb, View()) && data == old(data) && inodes == old(inodes)
        invariant Own(sb.nmeta, used, Wiped(rows, i, INDIRECT, j))
        invariant logged == old(logged) + bms && BitsOk(sb, bms)
      {
        TableAt(data, t, rows[i], j);
        DropSlot(sb, rows, i, INDIRECT, j, INDIRECT + 1 + j, INDIRECT, j + 1, used);
        var b := Word(data[t], j);
        if b != 0 {
          Bfree(b);
          BitsMore(sb, bms, b);
          bms := bms + {BBlock(sb, b)};
        }
        j := j + 1;
      }
      DropSlot(sb, rows, i, INDIRECT, NINDIRECT, INDIRECT, INDIRECT + 1, NINDIRECT, used);
      TableAt(data, t, rows[i], 0);
      Bfree(t);
      BitsMore(sb, bms, t);
      bms := bms + {BBlock(sb, t)};
      inodes := inodes[i := inodes[i].(addrs := inodes[i].addrs[INDIRECT := 0])];
    }

    /** The first loop of itrunc. */
    method TruncDirect(i: nat) returns (ghost bms: set<nat>)
      requires Good(sb, View()) && i < |inodes|
      modifies `used, `inodes, `logged
      ensures Shape(sb, View()) && Own(sb.nmeta, used, Wiped(old(Rows(View())), i, INDIRECT, 0))
      ensures inodes == old(inodes)[i := old(inodes[i]).(addrs := NoAddrs(old(inodes[i].addrs), INDIRECT))]
      ensures logged == old(logged) + bms && BitsOk(sb, bms)
    {
      hide Rows, Own, RowOf, Wiped, BitsOk, NoAddrs, Good;
      ghost var rows := Rows(View());
      ghost var ino := inodes[i];
      bms := {};
      TruncStart(sb, View(), i);
      var k := 0;
      while k < NDIRECT
        invariant 0 <= k <= NDIRECT && Shape(sb, View()) && data == old(data)
        invariant inodes == old(inodes)[i := ino.(addrs := NoAddrs(ino.addrs, k))]
        invariant Own(sb.nmeta, used, Wiped(rows, i, k, 0))
        invariant logged == old(logged) + bms && BitsOk(sb, bms)
      {
        NoAddrsAt(ino.addrs, k);
        DropSlot(sb, rows, i, k, 0, k, k + 1, 0, used);
        NothingMapped(old(View()), i, k);
        var b := inodes[i].addrs[k];
        if b != 0 {
          Bfree(b);
          BitsMore(sb, bms, b);
          bms := bms + {BBlock(sb, b)};
          inodes := inodes[i := inodes[i].(addrs := inodes[i].addrs[k := 0])];
        }
        k := k + 1;
      }
    }

    /** filewrite on an inode: chunks of at most three blocks' worth of bytes, one transaction each. */
    method Filewrite(i: nat, off: nat, src: seq<Byte>) returns (ret: int, newoff: nat)
      requires Good(sb, View()) && i < |inodes| && off <= UINT_MAX
      modifies `used, `data, `inodes, `logged, `ops
      ensures Good(sb, View()) && off <= newoff <= off + |src|
      ensures newoff > off ==> ContentsSpliced(old(View()), View(), i, off, src[..newoff - off])
      ensures newoff == off ==> SameContents(old(View()), View())
      ensures ret == (if newoff == off + |src| then |src| else -1)
      ensures |ops| == |old(ops)| + Transactions(|src|, newoff - off)
      ensures ops[..|old(ops)|] == old(ops) && SmallOps(sb, ops[|old(ops)|..])
      ensures OthersSame(old(View()), View(), i)
      ensures Furthest(old(View()), i, off, |src|, newoff - off)
      ensures ret == |src| <==>
        |src| == 0 || (off <= old(inodes[i].size) && off + |src| <= MAXBYTES && Lacking(old(View()), i, off, |src|) <= |Free(old(used))|)
    {
      hide Good, ContentsSpliced, SameContents, BitsOk, Touched, Fresh, SmallOps, OthersSame, Spent, Short, SlotsOf, Lacking, Free;
      hide Furthest, Transactions, Begun;
      ghost var fs := View();
      SameSelf(sb, fs);
      OthersSelf(fs, i);
      NoOps(sb, ops, |ops|);
      var max := (MAXOPBLOCKS - 1 - 1 - 2) / 2 * BSIZE;
      GoodSizes(sb, fs, i);
      var k := 0;
      newoff := off;
      NoSlots(off);
      SpentNone(fs, i);
      SpentFits(fs, fs, i, off, 0);
      AllChunks(fs, i, off, 0);
      NoneBegun();
      while k < |src|
        invariant 0 <= k <= |src| && newoff == off + k && |inodes| == |fs.inodes| && Good(sb, View())
        invariant k > 0 ==> newoff <= MAXBYTES && ContentsSpliced(fs, View(), i, off, src[..k])
        invariant k == 0 ==> SameContents(fs, View())
        invariant OthersSame(fs, View(), i)
        invariant Spent(fs, View(), i, SlotsOf(off, k)) && Lacking(fs, i, off, k) <= |Free(fs.used)|
        invariant k > 0 ==> off <= fs.inodes[i].size
        invariant k % CHUNK == 0 || k == |src|
        invariant k == |src| ==> Furthest(fs, i, off, |src|, k)
        invariant |ops| == |old(ops)| + Begun(k) && ops[..|old(ops)|] == old(ops) && SmallOps(sb, ops[|old(ops)|..])
      {
        var n1 := if |src| - k > max then max else |src| - k;
        OneBegun(|src|, k, n1);
        ghost var fs1 := View();
        logged := {};
        var r;
        ghost var bms, own;
        r, bms, own := Writei(i, newoff, src[k..k + n1]);
        OthersTwice(fs, fs1, View(), i);
        ChunkBound(sb, newoff, n1, bms, own, IBlock(sb, i));
        assert {} + bms + own + {IBlock(sb, i)} == bms + own + {IBlock(sb, i)};
        SmallMore(sb, ops, |old(ops)|, |logged|);
        ops := ops + [|logged|];
        SizeAfter(fs, fs1, i, off, src[..k]);
        if r >= 0 {
          Chunk(src, k, n1, r);
          SplicedMore(fs, fs1, View(), i, off, src[..k], src[k..k + n1][..r]);
        }
        if r > 0 {
          newoff := newoff + r;
        }
        if r != n1 {
          LastBegun(|src|, k, n1, if r > 0 then r else 0);
          if r >= 0 {
            ShortChunk(fs, fs1, i, off, |src|, k, n1, r);
          } else {
            NoChunk(fs, i, off, |src|, k, n1);
          }
          break;
        }
        SlotsJoin(off, k, n1);
        SpentMore(fs, fs1, View(), i, SlotsOf(off, k), SlotsOf(off + k, n1));
        SpentFits(fs, View(), i, off, k + n1);
        k := k + r;
        if k == |src| {
          AllChunks(fs, i, off, |src|);
        }
      }
      if k == |src| {
        AllBegun(|src|);
      }
      Exactly(fs, i, off, |src|, newoff - off);
      return if k == |src| then |src| else -1, newoff;
    }
  }

  /** The bytes that filewrite writes at a time. */
  const CHUNK: nat := 3072

  /** The chunks that hold the first k bytes. */
  function Begun(k: nat): (t: nat) {
    (k + CHUNK - 1) / CHUNK
  }

  /** The transactions of a write of n bytes that gets k bytes far: one for every chunk begun. */
  function Transactions(n: nat, k: int): (t: int) {
    if k == n then (n + CHUNK - 1) / CHUNK else k / CHUNK + 1
  }

  lemma NoneBegun()
    ensures Begun(0) == 0
  {
  }

  lemma OneBegun(n: nat, k: nat, n1: nat)
    requires k % CHUNK == 0 && 0 < n1 <= CHUNK
    ensures Begun(k + n1) == Begun(k) + 1
  {
  }

  lemma AllBegun(n: nat)
    ensures Begun(n) == Transactions(n, n)
  {
  }

  lemma LastBegun(n: nat, k: nat, n1: nat, r: nat)
    requires k % CHUNK == 0 && k < n && n1 == (if n - k > CHUNK then CHUNK else n - k) && r < n1
    ensures Begun(k) + 1 == Transactions(n, k + r)
  {
  }

  /** How far a write of n bytes at off can get in a file of the given size on an empty disk: all the way, or up to the
      first chunk that would end beyond the largest file. */
  function Reach(size: nat, off: nat, n: nat): (k: nat) {
    if off > size || off > MAXBYTES then 0 else if off + n <= MAXBYTES then n else (MAXBYTES - off) / CHUNK * CHUNK
  }

  /** k bytes is as far as it gets on this disk: there are blocks for k, but not for one more. */
  ghost predicate Furthest(fs: Fs, i: nat, off: nat, n: nat, k: nat) {
    && i < |fs.inodes| && k <= Reach(fs.inodes[i].size, off, n) && Lacking(fs, i, off, k) <= |Free(fs.used)|
    && (k < Reach(fs.inodes[i].size, off, n) ==> Lacking(fs, i, off, k + 1) > |Free(fs.used)|)
  }

  /** What has been written is below the end of the file. */
  lemma SizeAfter(fs: Fs, fs1: Fs, i: nat, off: nat, bytes: seq<Byte>)
    requires if bytes == [] then SameContents(fs, fs1) && i < |fs.inodes| else ContentsSpliced(fs, fs1, i, off, bytes)
    ensures i < |fs1.inodes| && (bytes != [] ==> off + |bytes| <= fs1.inodes[i].size)
    ensures bytes == [] ==> fs1.inodes[i].size == fs.inodes[i].size
  {
    assert i < |fs1.inodes| && fs1.inodes[i].size <= MAXBYTES && |Contents(fs1, i)| == fs1.inodes[i].size;
    if bytes == [] {
      assert |Contents(fs, i)| == fs.inodes[i].size;
    }
    hide Contents;
  }

  /** The disk ran full in the middle of a chunk. */
  lemma ShortChunk(fs: Fs, fs1: Fs, i: nat, off: nat, n: nat, k: nat, n1: nat, r: nat)
    requires i < |fs.inodes| == |fs1.inodes| && Spent(fs, fs1, i, SlotsOf(off, k)) && k % CHUNK == 0 && k < n
    requires n1 == (if n - k > CHUNK then CHUNK else n - k) && r < n1
    requires Lacking(fs1, i, off + k, r) <= |Free(fs1.used)| < Lacking(fs1, i, off + k, r + 1)
    requires off <= fs.inodes[i].size && off + k + n1 <= MAXBYTES
    ensures Furthest(fs, i, off, n, k + r)
  {
    hide Lacking, Free, SlotsOf, Spent, Reach;
    LackingJoin(fs, fs1, i, off, k, r);
    LackingJoin(fs, fs1, i, off, k, r + 1);
    assert k + (r + 1) == k + r + 1;
    ReachChunk(fs.inodes[i].size, off, n, k, n1);
  }

  lemma ReachChunk(size: nat, off: nat, n: nat, k: nat, n1: nat)
    requires k % CHUNK == 0 && k < n && n1 == (if n - k > CHUNK then CHUNK else n - k) && off <= size
    ensures off + k + n1 <= MAXBYTES ==> k + n1 <= Reach(size, off, n)
    ensures off + k <= MAXBYTES < off + k + n1 ==> k == Reach(size, off, n)
  {
    if off <= MAXBYTES {
      Quotient(MAXBYTES - off, k);
    }
  }

  lemma Quotient(a: nat, k: nat)
    requires k % CHUNK == 0
    ensures k <= a < k + CHUNK ==> a / CHUNK * CHUNK == k
    ensures k <= a ==> k <= a / CHUNK * CHUNK <= a
    ensures k + CHUNK <= a ==> k + CHUNK <= a / CHUNK * CHUNK
  {
  }

  /** The chunk would end beyond the largest file, or the write started beyond the end of the file. */
  lemma NoChunk(fs: Fs, i: nat, off: nat, n: nat, k: nat, n1: nat)
    requires i < |fs.inodes| && fs.inodes[i].size <= MAXBYTES && k % CHUNK == 0 && k < n && n1 == (if n - k > CHUNK then CHUNK else n - k)
    requires Lacking(fs, i, off, k) <= |Free(fs.used)|
    requires if k == 0 && off > fs.inodes[i].size then true else off <= fs.inodes[i].size && off + k <= MAXBYTES < off + k + n1
    ensures Furthest(fs, i, off, n, k)
  {
    hide Lacking, Free;
    if off <= fs.inodes[i].size {
      ReachChunk(fs.inodes[i].size, off, n, k, n1);
    }
  }

  lemma AllChunks(fs: Fs, i: nat, off: nat, n: nat)
    requires i < |fs.inodes| && Lacking(fs, i, off, n) <= |Free(fs.used)|
    requires n == 0 || (off <= fs.inodes[i].size && off + n <= MAXBYTES)
    ensures Furthest(fs, i, off, n, n)
  {
    hide Lacking, Free;
    if n == 0 && off <= MAXBYTES {
      assert Reach(fs.inodes[i].size, off, 0) == 0;
    }
  }

  /** When all is written. */
  lemma Exactly(fs: Fs, i: nat, off: nat, n: nat, k: nat)
    requires Furthest(fs, i, off, n, k) && k <= n && fs.inodes[i].size <= MAXBYTES
    ensures k == n <==>
      n == 0 || (off <= fs.inodes[i].size && off + n <= MAXBYTES && Lacking(fs, i, off, n) <= |Free(fs.used)|)
  {
    hide Lacking, Free, Reach;
    if k < n {
      LackingMore(fs, i, off, k + 1, n);
    }
    ReachAll(fs.inodes[i].size, off, n);
  }

  lemma ReachAll(size: nat, off: nat, n: nat)
    requires size <= MAXBYTES
    ensures Reach(size, off, n) >= n <==> n == 0 || (off <= size && off + n <= MAXBYTES)
    ensures off <= size && off + n <= MAXBYTES ==> Reach(size, off, n) == n
  {
    if off <= MAXBYTES {
      assert (MAXBYTES - off) / CHUNK * CHUNK <= MAXBYTES - off;
    }
  }

  /** The first k slots cleared. */
  function NoAddrs(addrs: Addrs, k: nat): (r: Addrs) {
    seq(NDIRECT + 1, j requires 0 <= j < |addrs| => if j < k then 0 else addrs[j])
  }

  lemma NoAddrsAt(addrs: Addrs, k: nat)
    requires k <= NDIRECT
    ensures NoAddrs(addrs, k)[k] == addrs[k] && NoAddrs(addrs, k)[k := 0] == NoAddrs(addrs, k + 1)
    ensures addrs[k] == 0 ==> NoAddrs(addrs, k + 1) == NoAddrs(addrs, k)
  {
  }

  /** What inode i still refers to when its slots below k and its first j table words have been freed. */
  ghost function Wipe(row: Row, k: nat, j: nat): (r: Row) {
    seq(MAXFILE + 1, c requires 0 <= c < |row| => if c < k || INDIRECT < c <= INDIRECT + j then 0 else row[c])
  }

  ghost function Wiped(rows: seq<Row>, i: nat, k: nat, j: nat): (r: seq<Row>)
    requires i < |rows|
  {
    rows[i := Wipe(rows[i], k, j)]
  }

  lemma TruncStart(sb: Super, fs: Fs, i: nat)
    requires Good(sb, fs) && i < |fs.inodes|
    ensures Shape(sb, fs) && Own(sb.nmeta, fs.used, Wiped(Rows(fs), i, 0, 0))
    ensures BitsOk(sb, {}) && NoAddrs(fs.inodes[i].addrs, 0) == fs.inodes[i].addrs
  {
    assert Wipe(Rows(fs)[i], 0, 0) == Rows(fs)[i];
    assert Wiped(Rows(fs), i, 0, 0) == Rows(fs);
  }

  /** Freeing the block in slot c, the next in the order of itrunc. */
  lemma DropSlot(sb: Super, rows: seq<Row>, i: nat, k: nat, j: nat, c: nat, k': nat, j': nat, used: seq<bool>)
    requires i < |rows| && c <= MAXFILE && Own(sb.nmeta, used, Wiped(rows, i, k, j)) && |used| == sb.size
    requires (c == k < INDIRECT && k' == k + 1 && j' == j == 0)
      || (k == INDIRECT == k' && c == INDIRECT + 1 + j && j' == j + 1)
      || (k == c == INDIRECT && k' == k + 1 && j == j')
    ensures rows[i][c] == 0 ==> Own(sb.nmeta, used, Wiped(rows, i, k', j'))
    ensures rows[i][c] != 0 ==> rows[i][c] < |used| && used[rows[i][c]] && InBitmap(sb, BBlock(sb, rows[i][c]))
    ensures rows[i][c] != 0 ==> Own(sb.nmeta, used[rows[i][c] := false], Wiped(rows, i, k', j'))
  {
    var w, w' := Wiped(rows, i, k, j), Wiped(rows, i, k', j');
    assert w[i][c] == rows[i][c];
    assert w'[i] == w[i][c := 0];
    assert w' == SetRef(w, i, c, 0);
    if rows[i][c] == 0 {
      assert w[i][c := 0] == w[i];
      assert w' == w;
    } else {
      hide Wiped, Wipe, SetRef;
      OwnDrop(sb.nmeta, used, w, i, c);
    }
  }

  /** t is the indirect block of row, and its words are the rest of the row. */
  ghost predicate TableIs(data: seq<Block>, t: nat, row: Row) {
    && row[INDIRECT] == t && t < |data|
    && forall c :: INDIRECT < c <= MAXFILE ==> row[c] == if t == 0 then 0 else Word(data[t], c - INDIRECT - 1)
  }

  lemma TableAt(data: seq<Block>, t: nat, row: Row, j: nat)
    requires TableIs(data, t, row) && j < NINDIRECT
    ensures row[INDIRECT] == t < |data| && (t != 0 ==> row[INDIRECT + 1 + j] == Word(data[t], j))
  {
  }

  lemma NoTableWiped(data: seq<Block>, t: nat, rows: seq<Row>, i: nat)
    requires i < |rows| && TableIs(data, t, rows[i])
    ensures t == 0 ==> Wiped(rows, i, INDIRECT + 1, NINDIRECT) == Wiped(rows, i, INDIRECT, 0)
  {
    if t == 0 {
      var w, w' := Wipe(rows[i], INDIRECT, 0), Wipe(rows[i], INDIRECT + 1, NINDIRECT);
      forall c | 0 <= c <= MAXFILE ensures w[c] == w'[c] {
        assert c > INDIRECT ==> rows[i][c] == 0;
      }
      assert w == w';
    }
  }

  lemma TableOk(sb: Super, fs: Fs, i: nat)
    requires Good(sb, fs) && i < |fs.inodes|
    ensures Shape(sb, fs) && TableIs(fs.data, fs.inodes[i].addrs[INDIRECT], Rows(fs)[i])
  {
  }

  /** Nothing but file i has changed. */
  ghost predicate OthersKept(fs: Fs, fs': Fs, i: nat) {
    && |fs'.inodes| == |fs.inodes|
    && forall j :: 0 <= j < |fs.inodes| && j != i ==>
      fs'.inodes[j] == fs.inodes[j] && fs.inodes[j].size <= MAXBYTES && Contents(fs', j) == Contents(fs, j)
  }

  /** An inode without blocks. */
  function NoInode(): (x: Inode) {
    Inode(0, seq(NDIRECT + 1, _ => 0))
  }

  lemma NoneLeft(addrs: Addrs)
    ensures NoAddrs(addrs, INDIRECT + 1) == NoInode().addrs
  {
  }

  /** Only inode i has changed, and only what it refers to. */
  ghost predicate OthersSame(fs: Fs, fs': Fs, i: nat) {
    && |fs'.inodes| == |fs.inodes|
    && forall j :: 0 <= j < |fs.inodes| && j != i ==> fs'.inodes[j] == fs.inodes[j] && Rows(fs')[j] == Rows(fs)[j]
  }

  lemma OthersSelf(fs: Fs, i: nat)
    ensures OthersSame(fs, fs, i)
  {
  }

  lemma OthersTwice(fs: Fs, fs1: Fs, fs2: Fs, i: nat)
    requires OthersSame(fs, fs1, i) && OthersSame(fs1, fs2, i)
    ensures OthersSame(fs, fs2, i)
  {
    hide Rows;
  }

  lemma OthersFree(fs: Fs, fs': Fs, i: nat)
    requires OthersSame(fs, fs', i)
    ensures |fs'.inodes| == |fs.inodes| && forall j :: 0 <= j < |fs.inodes| && j != i ==> fs'.inodes[j] == fs.inodes[j]
  {
    hide Rows;
  }

  /** Ownership is exact, so what is referred to determines the bitmap. */
  lemma OwnDetermines(nmeta: nat, u: seq<bool>, u': seq<bool>, rows: seq<Row>)
    requires Own(nmeta, u, rows) && Own(nmeta, u', rows) && |u| == |u'|
    ensures u == u'
  {
    forall b | 0 <= b < |u| ensures u[b] == u'[b] {
      if b >= nmeta && (u[b] || u'[b]) {
        assert Owned(rows, b);
      }
    }
  }

  /** The rows of an inode without blocks. */
  lemma NoRow(fs: Fs, i: nat)
    requires i < |fs.inodes| && fs.inodes[i] == NoInode()
    ensures Rows(fs)[i] == seq(MAXFILE + 1, _ => 0)
  {
  }

  lemma WipedRow(rows: seq<Row>, i: nat)
    requires i < |rows|
    ensures Wiped(rows, i, INDIRECT + 1, NINDIRECT) == rows[i := seq(MAXFILE + 1, _ => 0)]
  {
    var zeroes: Row := seq(MAXFILE + 1, _ => 0);
    assert Wipe(rows[i], INDIRECT + 1, NINDIRECT) == zeroes;
  }

  lemma LifeOver(sb: Super, fs: Fs, fs1: Fs, fs2: Fs, i: nat)
    requires Good(sb, fs) && Good(sb, fs2) && OthersSame(fs, fs1, i) && i < |fs.inodes| && fs.inodes[i] == NoInode()
    requires fs2.inodes == fs1.inodes[i := NoInode()] && Rows(fs2) == Wiped(Rows(fs1), i, INDIRECT + 1, NINDIRECT)
    ensures fs2.used == fs.used && fs2.inodes == fs.inodes
  {
    hide Own, Wiped;
    NoRow(fs, i);
    WipedRow(Rows(fs1), i);
    hide Rows;
    assert Rows(fs2) == Rows(fs);
    OwnDetermines(sb.nmeta, fs.used, fs2.used, Rows(fs));
  }

  lemma GoodSelf(sb: Super, fs: Fs)
    requires Good(sb, fs)
    ensures forall j :: 0 <= j < |fs.inodes| ==> fs.inodes[j].size <= MAXBYTES
  {
    hide Rows, Own;
    forall j | 0 <= j < |fs.inodes| ensures fs.inodes[j].size <= MAXBYTES {
      assert NoHoles(fs, j);
    }
  }

  /** Files without bytes are the same. */
  lemma NothingThere(fs: Fs, fs': Fs, i: nat)
    requires i < |fs.inodes| == |fs'.inodes| && fs.inodes[i] == NoInode() == fs'.inodes[i]
    requires forall j :: 0 <= j < |fs.inodes| && j != i ==>
      fs.inodes[j].size <= MAXBYTES && fs'.inodes[j].size <= MAXBYTES && Contents(fs', j) == Contents(fs, j)
    ensures SameContents(fs, fs')
  {
    hide Contents;
    assert |Contents(fs, i)| == 0 == |Contents(fs', i)|;
  }

  lemma ContentsOver(fs: Fs, fs1: Fs, fs2: Fs, i: nat)
    requires SameContents(fs, fs1) && OthersKept(fs1, fs2, i)
    ensures forall j :: 0 <= j < |fs.inodes| && j != i ==>
      fs.inodes[j].size <= MAXBYTES && fs2.inodes[j].size <= MAXBYTES && Contents(fs2, j) == Contents(fs, j)
  {
    hide Contents;
  }

  lemma SplicedOver(fs: Fs, fs1: Fs, fs2: Fs, i: nat, bytes: seq<Byte>)
    requires ContentsSpliced(fs, fs1, i, 0, bytes) && OthersKept(fs1, fs2, i)
    ensures forall j :: 0 <= j < |fs.inodes| && j != i ==>
      fs.inodes[j].size <= MAXBYTES && fs2.inodes[j].size <= MAXBYTES && Contents(fs2, j) == Contents(fs, j)
  {
    hide Contents, Splice;
  }

  function Emptied(fs: Fs, used: seq<bool>, i: nat): (r: Fs)
    requires i < |fs.inodes|
  {
    Fs(used, fs.data, fs.inodes[i := Inode(0, NoAddrs(fs.inodes[i].addrs, INDIRECT + 1))])
  }

  lemma TruncDone(sb: Super, fs: Fs, used: seq<bool>, i: nat)
    requires Good(sb, fs) && i < |fs.inodes| && |used| == |fs.used|
    requires Own(sb.nmeta, used, Wiped(Rows(fs), i, INDIRECT + 1, NINDIRECT))
    ensures var fs' := Emptied(fs, used, i);
      && Good(sb, fs') && Rows(fs') == Wiped(Rows(fs), i, INDIRECT + 1, NINDIRECT) && OthersKept(fs, fs', i)
  {
    var fs' := Emptied(fs, used, i);
    EmptiedRows(fs, used, i);
    hide Rows, Wipe, Own, NoAddrs;
    forall j | 0 <= j < |fs'.inodes| ensures NoHoles(fs', j) {
      assert NoHoles(fs, j);
      forall bn | 0 <= bn < MAXFILE && 1024 * bn < fs'.inodes[j].size ensures Addr(fs', j, bn) != 0 {
        assert Addr(fs', j, bn) == Addr(fs, j, bn);
      }
    }
    forall j | 0 <= j < |fs.inodes| && j != i ensures fs.inodes[j].size <= MAXBYTES && Contents(fs', j) == Contents(fs, j) {
      assert NoHoles(fs, j);
      var c, c' := Contents(fs, j), Contents(fs', j);
      forall p: nat | p < |c| ensures c'[p] == c[p] {
        assert FileBlock(fs', j, BlockNo(p)) == FileBlock(fs, j, BlockNo(p));
      }
    }
  }

  lemma EmptiedRows(fs: Fs, used: seq<bool>, i: nat)
    requires i < |fs.inodes|
    ensures Rows(Emptied(fs, used, i)) == Wiped(Rows(fs), i, INDIRECT + 1, NINDIRECT)
  {
    var r, r' := Wiped(Rows(fs), i, INDIRECT + 1, NINDIRECT), Rows(Emptied(fs, used, i));
    assert r'[i] == r[i];
    assert forall j :: 0 <= j < |r| && j != i ==> r'[j] == r[j];
  }

  lemma NoBits(sb: Super)
    ensures BitsOk(sb, {})
  {
  }

  lemma BitsMore(sb: Super, bms: set<nat>, b: nat)
    requires BitsOk(sb, bms) && InBitmap(sb, BBlock(sb, b))
    ensures BitsOk(sb, bms + {BBlock(sb, b)})
  {
  }

  /** Transactions that fit: at most MAXOPBLOCKS blocks, and 7 when one block holds the whole free map. */
  ghost predicate SmallOps(sb: Super, ops: seq<nat>) {
    forall k :: 0 <= k < |ops| ==> ops[k] <= MAXOPBLOCKS && (sb.size <= BPB ==> ops[k] <= 7)
  }

  /** A chunk of filewrite logs few enough blocks, wherever it starts. */
  lemma ChunkBound(sb: Super, off: nat, n: nat, bms: set<nat>, own: set<nat>, x: nat)
    requires n <= 3 * 1024 && BitsOk(sb, bms)
    requires |own| <= Touched(off, n) + 1 && |bms| <= Fresh(off, n) + 1
    ensures |bms + own + {x}| <= MAXOPBLOCKS && (sb.size <= BPB ==> |bms + own + {x}| <= 7)
  {
    LogJoin(sb, {}, {}, bms, {}, own);
    LogJoin(sb, {}, {}, bms + own, {}, {x});
    if sb.size <= BPB {
      SubsetSize(bms, {sb.bmapstart});
    }
  }

  ghost predicate SameContents(fs: Fs, fs': Fs) {
    && |fs'.inodes| == |fs.inodes|
    && forall j :: 0 <= j < |fs.inodes| ==>
      fs.inodes[j].size <= MAXBYTES && fs'.inodes[j].size <= MAXBYTES && Contents(fs', j) == Contents(fs, j)
  }

  lemma SameSelf(sb: Super, fs: Fs)
    requires Good(sb, fs)
    ensures SameContents(fs, fs)
  {
    forall j | 0 <= j < |fs.inodes| ensures fs.inodes[j].size <= MAXBYTES {
      assert NoHoles(fs, j);
    }
  }

  lemma NoOps(sb: Super, ops: seq<nat>, n: nat)
    requires n == |ops|
    ensures ops[..n] == ops && SmallOps(sb, ops[n..])
  {
  }

  lemma SmallMore(sb: Super, ops: seq<nat>, n: nat, x: nat)
    requires n <= |ops| && SmallOps(sb, ops[n..]) && x <= MAXOPBLOCKS && (sb.size <= BPB ==> x <= 7)
    ensures SmallOps(sb, (ops + [x])[n..]) && (ops + [x])[..n] == ops[..n]
  {
  }

  lemma Chunk<T>(s: seq<T>, k: nat, n: nat, r: nat)
    requires k + n <= |s| && r <= n
    ensures s[..k] + s[k..k + n][..r] == s[..k + r]
  {
  }

  lemma SpliceTwice<T>(s: seq<T>, o: nat, a: seq<T>, b: seq<T>)
    requires o <= |s|
    ensures Splice(Splice(s, o, a), o + |a|, b) == Splice(s, o, a + b)
  {
  }

  /** A second write that starts where the first one ended. */
  lemma SplicedMore(fs: Fs, fs1: Fs, fs2: Fs, i: nat, off: nat, a: seq<Byte>, b: seq<Byte>)
    requires ContentsSpliced(fs1, fs2, i, off + |a|, b)
    requires if a == [] then SameContents(fs, fs1) else ContentsSpliced(fs, fs1, i, off, a)
    ensures ContentsSpliced(fs, fs2, i, off, a + b)
    ensures a == [] && b == [] ==> SameContents(fs, fs2)
  {
    hide Contents;
    assert b == [] ==> Splice(Contents(fs1, i), off + |a|, b) == Contents(fs1, i);
    hide Splice;
    if a == [] {
      assert a + b == b;
    } else {
      SpliceTwice(Contents(fs, i), off, a, b);
    }
  }

  lemma SliceJoin<T>(s: seq<T>, a: nat, b: nat, c: nat)
    requires a <= b <= c <= |s|
    ensures s[a..b] + s[b..c] == s[a..c]
  {
  }

  /** The bytes of s from position o on, at most n of them. */
  function Clip<T>(s: seq<T>, o: nat, n: nat): (r: seq<T>)
    requires o <= |s|
  {
    if o + n > |s| then s[o..] else s[o..o + n]
  }

  lemma Clipped<T>(s: seq<T>, o: nat, n: nat, k: nat)
    requires o <= |s| && k == if o + n > |s| then |s| - o else n
    ensures Clip(s, o, n) == s[o..o + k]
  {
  }

  /** Only file i has changed, by the bytes at off. */
  ghost predicate ContentsSpliced(fs: Fs, fs': Fs, i: nat, off: nat, bytes: seq<Byte>) {
    && |fs'.inodes| == |fs.inodes| && i < |fs.inodes| && off <= fs.inodes[i].size
    && (forall j :: 0 <= j < |fs.inodes| ==> fs.inodes[j].size <= MAXBYTES && fs'.inodes[j].size <= MAXBYTES)
    && Contents(fs', i) == Splice(Contents(fs, i), off, bytes)
    && forall j :: 0 <= j < |fs.inodes| && j != i ==> Contents(fs', j) == Contents(fs, j)
  }

  lemma WriteDone(sb: Super, fs: Fs, fs1: Fs, i: nat, off: nat, bytes: seq<Byte>)
    requires Good(sb, fs) && Progress(sb, fs, fs1, i, off, bytes) && off <= fs.inodes[i].size && off + |bytes| <= MAXBYTES
    ensures fs1.inodes[i].size == fs.inodes[i].size
    ensures var n := if off + |bytes| > fs.inodes[i].size then off + |bytes| else fs.inodes[i].size;
      var fs2 := WithSize(fs1, i, n);
      Good(sb, fs2) && ContentsSpliced(fs, fs2, i, off, bytes) && (n == fs.inodes[i].size ==> fs2 == fs1) && OthersSame(fs, fs2, i)
  {
    var n := if off + |bytes| > fs.inodes[i].size then off + |bytes| else fs.inodes[i].size;
    var fs2 := WithSize(fs1, i, n);
    SizeOnly(fs1, i, n);
    WrittenSize(fs, fs1, i, off, bytes, n);
    forall j | 0 <= j < |fs2.inodes| ensures NoHoles(fs2, j) && fs2.inodes[j].size == (if j == i then n else fs.inodes[j].size) {
      assert NoHoles(fs, j);
      StillCovered(fs, fs1, i, n, j);
    }
    hide Rows, Written, Contents;
    WrittenContents(fs, fs2, i, off, bytes);
  }

  lemma StillCovered(fs: Fs, fs1: Fs, i: nat, n: nat, j: nat)
    requires Extends(fs, fs1, i) && j < |fs.inodes| && NoHoles(fs, j)
    requires j == i ==> n <= MAXBYTES && Covered(fs1, i, n)
    ensures NoHoles(WithSize(fs1, i, n), j)
  {
    var fs2 := WithSize(fs1, i, n);
    SizeOnly(fs1, i, n);
    hide Rows;
    forall bn | 0 <= bn < MAXFILE && 1024 * bn < fs2.inodes[j].size ensures Addr(fs2, j, bn) != 0 {
      assert Addr(fs2, j, bn) == Addr(fs1, j, bn);
      assert j != i ==> Addr(fs1, j, bn) == Addr(fs, j, bn);
    }
  }

  /** The size of an inode has no part in what it refers to. */
  lemma SizeOnly(fs: Fs, i: nat, n: nat)
    requires i < |fs.inodes|
    ensures Rows(WithSize(fs, i, n)) == Rows(fs)
  {
  }

  lemma WrittenSize(fs: Fs, fs1: Fs, i: nat, off: nat, bytes: seq<Byte>, n: nat)
    requires Written(fs, fs1, i, off, bytes)
    ensures Written(fs, WithSize(fs1, i, n), i, off, bytes)
  {
    var fs2 := WithSize(fs1, i, n);
    SizeOnly(fs1, i, n);
    hide Rows;
    forall j, c | 0 <= j < |fs1.inodes| && 0 <= c < MAXFILE ensures FileBlock(fs2, j, c) == FileBlock(fs1, j, c) {
    }
    hide FileBlock;
    forall p: nat | p < MAXBYTES ensures ByteAt(fs2, i, p) == ByteAt(fs1, i, p) {
    }
  }

  /** A byte below the size of the file is in a block that is there. */
  lemma ReadableAt(sb: Super, fs: Fs, i: nat, p: nat)
    requires Good(sb, fs) && i < |fs.inodes| && p < fs.inodes[i].size
    ensures Steady(sb, fs) && p < MAXBYTES && 0 < Addr(fs, i, BlockNo(p)) < |fs.data|
    ensures FileBlock(fs, i, BlockNo(p)) == fs.data[Addr(fs, i, BlockNo(p))]
  {
    assert NoHoles(fs, i);
    RefInRange(sb, fs, i, SlotOf(BlockNo(p)));
  }

  /** A range of bytes within one block. */
  lemma BlockOfContents(fs: Fs, i: nat, p: nat, m: nat)
    requires i < |fs.inodes| && p + m <= fs.inodes[i].size <= MAXBYTES && Within(p) + m <= BSIZE && m > 0
    ensures FileBlock(fs, i, BlockNo(p))[Within(p)..Within(p) + m] == Contents(fs, i)[p..p + m]
  {
    hide FileBlock;
    var have, want := FileBlock(fs, i, BlockNo(p))[Within(p)..Within(p) + m], Contents(fs, i)[p..p + m];
    forall x | 0 <= x < m ensures have[x] == want[x] {
      SameBlock(p, p + x, m);
    }
  }

  /** What writei has logged: bitmap blocks and blocks of the file; its data blocks, the rounds of the loop,
      and those rounds that found no block. */
  datatype Tally = Tally(bms: set<nat>, own: set<nat>, dat: set<nat>, t: nat, newb: nat) {
    function Add(b: set<nat>, o: set<nat>, addr: nat, miss: bool): (r: Tally) {
      Tally(bms + b, own + o, dat + {addr}, t + 1, if miss then newb + 1 else newb)
    }
  }

  ghost predicate Tallied(sb: Super, before: Inode, now: Inode, off: nat, n: nat, tot: nat, l0: set<nat>, l: set<nat>, y: Tally) {
    && l == l0 + y.bms + y.own && BitsOk(sb, y.bms) && Account(before, now, y.bms, y.own, y.dat, y.t, y.newb)
    && (Within(off) != 0 && y.t >= 1 ==> y.newb <= y.t - 1)
    && (y.t == 0 ==> tot == 0) && (y.t >= 1 && tot < n ==> off + tot == 1024 * (BlockNo(off) + y.t))
    && y.t <= Touched(off, n)
  }

  lemma TallyStart(sb: Super, ino: Inode, off: nat, n: nat, l: set<nat>)
    ensures Tallied(sb, ino, ino, off, n, 0, l, l, Tally({}, {}, {}, 0, 0))
  {
  }

  lemma TallyTotal(sb: Super, before: Inode, now: Inode, off: nat, n: nat, tot: nat, l0: set<nat>, l: set<nat>, y: Tally)
    requires Tallied(sb, before, now, off, n, tot, l0, l, y)
    ensures l == l0 + y.bms + y.own && BitsOk(sb, y.bms)
    ensures |y.own| <= Touched(off, n) + 1 && |y.bms| <= Fresh(off, n) + 1
  {
    AccountTotal(before, now, y.bms, y.own, y.dat, y.t, y.newb);
  }

  /** One more round; tot is of no account once the loop is about to end. */
  lemma TallyRound(sb: Super, fs: Fs, fs1: Fs, fs2: Fs, i: nat, off: nat, src: seq<Byte>, tot: nat, m: nat,
                   l0: set<nat>, l1: set<nat>, y: Tally, b2: set<nat>, o2: set<nat>, addr: nat)
    requires tot < |src| && off + |src| <= MAXBYTES && Progress(sb, fs, fs1, i, off, src[..tot]) && Extends(fs1, fs2, i)
    requires off <= fs.inodes[i].size && m == if |src| - tot < BSIZE - Within(off + tot) then |src| - tot else BSIZE - Within(off + tot)
    requires Tallied(sb, fs.inodes[i], fs1.inodes[i], off, |src|, tot, l0, l1, y)
    requires BitsOk(sb, b2) && o2 <= {addr, fs2.inodes[i].addrs[INDIRECT]} - {0}
    requires |b2| <= if Addr(fs1, i, BlockNo(off + tot)) != 0 then 0 else 1 + Grown(fs1.inodes[i], fs2.inodes[i])
    ensures Tallied(sb, fs.inodes[i], fs2.inodes[i], off, |src|, tot + m, l0, l1 + b2 + o2,
              y.Add(b2, o2, addr, Addr(fs1, i, BlockNo(off + tot)) == 0))
    ensures Tallied(sb, fs.inodes[i], fs2.inodes[i], off, |src|, |src|, l0, l1 + b2 + o2,
              y.Add(b2, o2, addr, Addr(fs1, i, BlockNo(off + tot)) == 0))
  {
    hide Progress, Addr, BitsOk, Touched, Account, Grown, Extends;
    TouchedMore(off, |src|, y.t, tot);
    if Within(off) != 0 {
      FirstIsThere(sb, fs, fs1, i, off, src[..tot]);
    }
    LogJoin(sb, l0, y.bms, y.own, b2, o2);
    ProgressParts(sb, fs, fs1, i, off, src[..tot]);
    AccountBound(fs.inodes[i], fs1.inodes[i], y.bms, y.own, y.dat, y.t, y.newb);
    AccountMore(sb, fs, fs1, fs2, i, off, tot, y.bms, y.own, y.dat, y.t, y.newb, b2, o2, addr);
  }

  /** The loop of writei has put bytes at off; every block below the file's size or the end of the bytes is
      there. */
  ghost predicate Progress(sb: Super, fs: Fs, fs': Fs, i: nat, off: nat, bytes: seq<Byte>) {
    && Steady(sb, fs') && Extends(fs, fs', i) && Written(fs, fs', i, off, bytes)
    && Covered(fs', i, fs.inodes[i].size) && Covered(fs', i, off + |bytes|)
  }

  lemma ProgressParts(sb: Super, fs: Fs, fs': Fs, i: nat, off: nat, bytes: seq<Byte>)
    requires Progress(sb, fs, fs', i, off, bytes)
    ensures Steady(sb, fs') && i < |fs'.inodes| == |fs.inodes| && Extends(fs, fs', i)
    ensures Covered(fs', i, off + |bytes|)
  {
  }

  /** A write that starts inside a block starts in a block that is there. */
  lemma FirstIsThere(sb: Super, fs: Fs, fs': Fs, i: nat, off: nat, bytes: seq<Byte>)
    requires Progress(sb, fs, fs', i, off, bytes) && off <= fs.inodes[i].size && off < MAXBYTES && Within(off) != 0
    ensures Addr(fs', i, BlockNo(off)) != 0
  {
  }

  lemma ProgressMore(sb: Super, fs: Fs, fs1: Fs, fs2: Fs, i: nat, off: nat, bytes: seq<Byte>, more: seq<Byte>)
    requires Progress(sb, fs, fs1, i, off, bytes) && Steady(sb, fs2) && Extends(fs1, fs2, i)
    requires Written(fs1, fs2, i, off + |bytes|, more) && off + |bytes| < MAXBYTES
    requires more != [] ==> Addr(fs2, i, BlockNo(off + |bytes|)) != 0 && Within(off + |bytes|) + |more| <= BSIZE
    ensures Progress(sb, fs, fs2, i, off, bytes + more)
  {
    ExtendsTrans(fs, fs1, fs2, i);
    WrittenMore(fs, fs1, fs2, i, off, bytes, more);
    hide Steady, Written, Rows;
    var end := off + |bytes|;
    forall bn | 0 <= bn < MAXFILE && (1024 * bn < fs.inodes[i].size || 1024 * bn < end + |more|)
      ensures Addr(fs2, i, bn) != 0
    {
      assert 1024 * bn < fs.inodes[i].size || 1024 * bn < end ==> Addr(fs1, i, bn) != 0;
      assert end <= 1024 * bn < end + |more| ==> bn == BlockNo(end);
    }
  }

  lemma ExtendsTrans(fs: Fs, fs1: Fs, fs2: Fs, i: nat)
    requires Extends(fs, fs1, i) && Extends(fs1, fs2, i)
    ensures Extends(fs, fs2, i)
  {
  }

  /** t rounds of the loop have logged the data blocks dat, the indirect block, and the bits of newb blocks
      and of the indirect block. */
  ghost predicate Account(before: Inode, now: Inode, bms: set<nat>, own: set<nat>, dat: set<nat>, t: int, newb: int) {
    && own <= dat + {now.addrs[INDIRECT]} && 0 !in own && |dat| <= t
    && |bms| <= newb + Grown(before, now) && 0 <= newb <= t
  }

  lemma AccountTotal(before: Inode, now: Inode, bms: set<nat>, own: set<nat>, dat: set<nat>, t: int, newb: int)
    requires Account(before, now, bms, own, dat, t, newb)
    ensures |own| <= t + 1 && |bms| <= newb + 1
  {
    LogJoin(Super(0, 0, 0, 0), {}, {}, dat, {}, {now.addrs[INDIRECT]});
    SubsetSize(own, dat + {now.addrs[INDIRECT]});
  }

  /** The blocks of a file that a write of n bytes at off touches. */
  function Touched(off: nat, n: nat): (t: nat) {
    (Within(off) + n + 1023) / 1024
  }

  /** Those of them that may have to be allocated: a first block that the file has reached into is there. */
  function Fresh(off: nat, n: nat): (t: nat) {
    var k := Touched(off, n);
    if Within(off) != 0 && k >= 1 then k - 1 else k
  }

  /** Every block below upto is there. */
  ghost predicate Covered(fs: Fs, i: nat, upto: nat)
    requires i < |fs.inodes|
  {
    forall bn :: 0 <= bn < MAXFILE && 1024 * bn < upto ==> Addr(fs, i, bn) != 0
  }

  function WithSize(fs: Fs, i: nat, n: nat): (r: Fs)
    requires i < |fs.inodes|
  {
    fs.(inodes := fs.inodes[i := fs.inodes[i].(size := n)])
  }

  lemma GoodSizes(sb: Super, fs: Fs, i: nat)
    requires Good(sb, fs) && i < |fs.inodes|
    ensures fs.inodes[i].size <= MAXBYTES
  {
    assert NoHoles(fs, i);
  }

  lemma WriteStart(sb: Super, fs: Fs, i: nat, off: nat)
    requires Good(sb, fs) && i < |fs.inodes| && off <= fs.inodes[i].size
    ensures Progress(sb, fs, fs, i, off, [])
  {
    assert NoHoles(fs, i);
    SameBlocksWritten(fs, fs, i, off);
  }

  lemma DataWritten(sb: Super, fs: Fs, i: nat, off: nat, bytes: seq<Byte>)
    requires Steady(sb, fs) && i < |fs.inodes| && off < MAXBYTES && Within(off) + |bytes| <= BSIZE
    requires Addr(fs, i, BlockNo(off)) != 0
    ensures Addr(fs, i, BlockNo(off)) < |fs.data|
    ensures var a := Addr(fs, i, BlockNo(off));
      var fs' := WithBlock(fs, a, Splice(fs.data[a], Within(off), bytes));
      Steady(sb, fs') && Rows(fs') == Rows(fs) && Addr(fs', i, BlockNo(off)) == a
  {
    var a := Addr(fs, i, BlockNo(off));
    DataWriteRows(sb, fs, i, BlockNo(off), ZeroBlock());
    BlockWritten(sb, fs, i, BlockNo(off), Splice(fs.data[a], Within(off), bytes));
  }

  lemma ExtendsSame(fs: Fs, fs1: Fs, fs2: Fs, i: nat)
    requires Extends(fs, fs1, i) && fs2.inodes == fs1.inodes && Rows(fs2) == Rows(fs1)
    ensures Extends(fs, fs2, i)
  {
  }

  /** A round of the loop starts inside the range. */
  lemma TouchedMore(off: nat, n: nat, t: int, tot: nat)
    requires tot < n && t >= 0 && (t == 0 ==> tot == 0) && (t >= 1 ==> off + tot == 1024 * (BlockNo(off) + t))
    ensures t + 1 <= Touched(off, n) && (t >= 1 ==> BlockNo(off + tot) == BlockNo(off) + t && Within(off + tot) == 0)
  {
  }

  lemma AccountMore(sb: Super, fs: Fs, fs1: Fs, fs2: Fs, i: nat, off: nat, tot: nat, bms: set<nat>, own: set<nat>,
                    dat: set<nat>, t: int, newb: int, b2: set<nat>, o2: set<nat>, addr: nat)
    requires Extends(fs, fs1, i) && Extends(fs1, fs2, i) && off + tot < MAXBYTES
    requires Account(fs.inodes[i], fs1.inodes[i], bms, own, dat, t, newb)
    requires o2 <= {addr, fs2.inodes[i].addrs[INDIRECT]} - {0}
    requires |b2| <= if Addr(fs1, i, BlockNo(off + tot)) != 0 then 0 else 1 + Grown(fs1.inodes[i], fs2.inodes[i])
    ensures Account(fs.inodes[i], fs2.inodes[i], bms + b2, own + o2, dat + {addr}, t + 1,
              if Addr(fs1, i, BlockNo(off + tot)) == 0 then newb + 1 else newb)
  {
    assert i < |fs.inodes| == |fs1.inodes| == |fs2.inodes|;
    hide Extends, Addr, Account, Grown;
    IndirectStays(fs, fs1, i);
    IndirectStays(fs1, fs2, i);
    AccountAdd(fs.inodes[i], fs1.inodes[i], fs2.inodes[i], bms, own, dat, t, newb, b2, o2, addr, Addr(fs1, i, BlockNo(off + tot)) == 0);
  }

  lemma AccountAdd(a: Inode, b: Inode, c: Inode, bms: set<nat>, own: set<nat>, dat: set<nat>, t: int, newb: int, b2: set<nat>, o2: set<nat>,
                   addr: nat, miss: bool)
    requires Account(a, b, bms, own, dat, t, newb) && o2 <= {addr, c.addrs[INDIRECT]} - {0} && |b2| <= if miss then 1 + Grown(b, c) else 0
    requires a.addrs[INDIRECT] != 0 ==> b.addrs[INDIRECT] != 0
    requires b.addrs[INDIRECT] != 0 ==> c.addrs[INDIRECT] == b.addrs[INDIRECT]
    ensures Account(a, c, bms + b2, own + o2, dat + {addr}, t + 1, if miss then newb + 1 else newb)
  {
    GrownAdds(a, b, c);
    hide Grown;
    UnionSize(bms, b2);
    UnionSize(dat, {addr});
  }

  lemma UnionSize(a: set<nat>, b: set<nat>)
    ensures |a + b| <= |a| + |b|
  {
  }

  lemma GrownAdds(a: Inode, b: Inode, c: Inode)
    requires a.addrs[INDIRECT] != 0 ==> b.addrs[INDIRECT] != 0
    requires b.addrs[INDIRECT] != 0 ==> c.addrs[INDIRECT] != 0
    ensures Grown(a, b) + Grown(b, c) == Grown(a, c)
  {
  }

  lemma AccountBound(before: Inode, now: Inode, bms: set<nat>, own: set<nat>, dat: set<nat>, t: int, newb: int)
    requires Account(before, now, bms, own, dat, t, newb)
    ensures 0 <= newb <= t
  {
  }

  lemma IndirectStays(fs: Fs, fs': Fs, i: nat)
    requires Extends(fs, fs', i)
    ensures fs.inodes[i].addrs[INDIRECT] != 0 ==> fs'.inodes[i].addrs[INDIRECT] == fs.inodes[i].addrs[INDIRECT]
  {
    NothingMapped(fs, i, INDIRECT);
    NothingMapped(fs', i, INDIRECT);
  }

  /** One if an indirect block has been added. */
  function Grown(before: Inode, now: Inode): (n: nat) {
    if before.addrs[INDIRECT] == 0 && now.addrs[INDIRECT] != 0 then 1 else 0
  }

  lemma SetRefAt(rows: seq<Row>, i: nat, k: nat, b: nat, k': nat)
    requires i < |rows| && k <= MAXFILE && k' <= MAXFILE && k' != k
    ensures SetRef(rows, i, k, b)[i][k'] == rows[i][k']
  {
  }

  lemma NoTable(fs: Fs, i: nat, j: nat)
    requires i < |fs.inodes| && j < NINDIRECT
    ensures fs.inodes[i].addrs[INDIRECT] == 0 ==> Rows(fs)[i][NDIRECT + 1 + j] == 0
  {
  }

  lemma BitInMap(sb: Super, fs: Fs, i: nat, k: nat)
    requires Steady(sb, fs) && i < |fs.inodes| && k <= MAXFILE && Rows(fs)[i][k] != 0
    ensures InBitmap(sb, BBlock(sb, Rows(fs)[i][k]))
  {
    RefInRange(sb, fs, i, k);
  }

  lemma MappedTrans(fs: Fs, fs1: Fs, fs2: Fs, i: nat)
    requires SameBlocks(fs, fs1) && SameBlocks(fs1, fs2) && Extends(fs, fs1, i) && Extends(fs1, fs2, i)
    ensures SameBlocks(fs, fs2) && Extends(fs, fs2, i)
  {
  }

  lemma NothingMapped(fs: Fs, i: nat, k: nat)
    requires i < |fs.inodes| && k <= NDIRECT
    ensures SameBlocks(fs, fs) && Extends(fs, fs, i)
    ensures Rows(fs)[i][k] == fs.inodes[i].addrs[k] && SetRef(Rows(fs), i, k, fs.inodes[i].addrs[k]) == Rows(fs)
  {
    var r := Rows(fs);
    assert r[i][k] == fs.inodes[i].addrs[k] && r[i][k := r[i][k]] == r[i];
  }

  lemma TableWord(sb: Super, fs: Fs, i: nat, j: nat)
    requires Steady(sb, fs) && i < |fs.inodes| && j < NINDIRECT && fs.inodes[i].addrs[INDIRECT] != 0
    ensures fs.inodes[i].addrs[INDIRECT] < |fs.data| == |fs.used| <= UINT_MAX
    ensures Rows(fs)[i][NDIRECT + 1 + j] == Word(fs.data[fs.inodes[i].addrs[INDIRECT]], j)
  {
    RefInRange(sb, fs, i, INDIRECT);
  }
}
