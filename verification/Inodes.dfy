/** File contents over the block map of kernel/fs.c.  The disk here is the plain map from blocks to
    bytes that the log and the cache implement (LogRuns); bitmap and inode blocks are kept decoded. */
module Inodes {
  import opened Blocks

  const BPB: nat := 8192
  const IPB: nat := 16

  type Addrs = a: seq<nat> | |a| == NDIRECT + 1 witness seq(NDIRECT + 1, _ => 0)

  datatype Inode = Inode(size: nat, addrs: Addrs)

  /** Where the metadata lies: sb.size, sb.inodestart, sb.bmapstart and the first data block. */
  datatype Super = Super(size: nat, inodestart: nat, bmapstart: nat, nmeta: nat)

  /** The block bitmap, the blocks, and the inodes. */
  datatype Fs = Fs(used: seq<bool>, data: seq<Block>, inodes: seq<Inode>)

  // ---------------------------------------------------------------------------------------------
  // What an inode refers to
  // ---------------------------------------------------------------------------------------------

  function Words(b: Block): (w: seq<nat>)
    ensures |w| == NINDIRECT
  {
    seq(NINDIRECT, k requires 0 <= k < NINDIRECT => Word(b, k))
  }

  function RowOf(data: seq<Block>, addrs: Addrs): (r: Row)
  {
    var t := addrs[INDIRECT];
    addrs + if 0 < t < |data| then Words(data[t]) else seq(NINDIRECT, _ => 0)
  }

  ghost function Rows(fs: Fs): (r: seq<Row>)
    ensures |r| == |fs.inodes|
  {
    seq(|fs.inodes|, i requires 0 <= i < |fs.inodes| => RowOf(fs.data, fs.inodes[i].addrs))
  }

  /** The slot of block bn of a file. */
  function SlotOf(bn: nat): (k: nat)
    ensures bn < MAXFILE ==> k <= MAXFILE && k != INDIRECT
  {
    if bn < NDIRECT then bn else bn + 1
  }

  ghost function Addr(fs: Fs, i: nat, bn: nat): (b: nat)
    requires i < |fs.inodes| && bn < MAXFILE
  {
    Rows(fs)[i][SlotOf(bn)]
  }

  /** Block bn of file i; a block that is not there reads as zeroes. */
  ghost function FileBlock(fs: Fs, i: nat, bn: nat): (b: Block)
    requires i < |fs.inodes| && bn < MAXFILE
  {
    var a := Addr(fs, i, bn);
    if 0 < a < |fs.data| then fs.data[a] else ZeroBlock()
  }

  /** The bytes of file i. */
  ghost function Contents(fs: Fs, i: nat): (s: seq<Byte>)
    requires i < |fs.inodes| && fs.inodes[i].size <= MAXBYTES
    ensures |s| == fs.inodes[i].size
  {
    seq(fs.inodes[i].size, p requires 0 <= p < fs.inodes[i].size => FileBlock(fs, i, BlockNo(p))[Within(p)])
  }

  /** Every block that holds a byte of the file is there. */
  ghost predicate NoHoles(fs: Fs, i: nat)
    requires i < |fs.inodes|
  {
    && fs.inodes[i].size <= MAXBYTES
    && forall bn :: 0 <= bn < MAXFILE && 1024 * bn < fs.inodes[i].size ==> Addr(fs, i, bn) != 0
  }

  ghost predicate Shape(sb: Super, fs: Fs) {
    |fs.used| == sb.size == |fs.data| && sb.size <= UINT_MAX
  }

  /** What holds between operations. */
  ghost predicate Good(sb: Super, fs: Fs) {
    && Shape(sb, fs) && Own(sb.nmeta, fs.used, Rows(fs))
    && forall i :: 0 <= i < |fs.inodes| ==> NoHoles(fs, i)
  }

  /** Two file systems whose files have the same blocks. */
  ghost predicate SameBlocks(fs: Fs, fs': Fs) {
    && |fs'.inodes| == |fs.inodes|
    && forall i, bn {:trigger FileBlock(fs', i, bn)} :: 0 <= i < |fs.inodes| && 0 <= bn < MAXFILE ==>
      FileBlock(fs', i, bn) == FileBlock(fs, i, bn)
  }

  // ---------------------------------------------------------------------------------------------
  // How the rows change
  // ---------------------------------------------------------------------------------------------

  /** A block that is no inode's indirect block can be overwritten without changing a reference. */
  lemma RowsDataWrite(fs: Fs, x: nat, v: Block)
    requires x < |fs.data|
    requires forall i :: 0 <= i < |fs.inodes| ==> fs.inodes[i].addrs[INDIRECT] != x || x == 0
    ensures Rows(fs.(data := fs.data[x := v])) == Rows(fs)
  {
  }

  /** Filling a direct slot. */
  lemma RowsDirect(fs: Fs, i: nat, k: nat, b: nat)
    requires i < |fs.inodes| && k < NDIRECT
    ensures Rows(WithAddr(fs, i, k, b)) == SetRef(Rows(fs), i, k, b)
  {
    var r, r' := SetRef(Rows(fs), i, k, b), Rows(WithAddr(fs, i, k, b));
    forall c | 0 <= c <= MAXFILE ensures r'[i][c] == r[i][c] {
    }
    assert r'[i] == r[i];
    assert forall j :: 0 <= j < |r| && j != i ==> r'[j] == r[j];
  }

  function WithAddr(fs: Fs, i: nat, k: nat, b: nat): (r: Fs)
    requires i < |fs.inodes| && k <= NDIRECT
  {
    var ino := fs.inodes[i];
    fs.(inodes := fs.inodes[i := ino.(addrs := ino.addrs[k := b])])
  }

  /** Installing a zeroed indirect block, or dropping one all of whose words are dead. */
  lemma RowsIndirect(fs: Fs, i: nat, b: nat)
    requires i < |fs.inodes| && fs.inodes[i].addrs[INDIRECT] == 0 && 0 < b < |fs.data| && fs.data[b] == ZeroBlock()
    ensures Rows(WithAddr(fs, i, INDIRECT, b)) == SetRef(Rows(fs), i, INDIRECT, b)
  {
    var r, r' := SetRef(Rows(fs), i, INDIRECT, b), Rows(WithAddr(fs, i, INDIRECT, b));
    forall k | 0 <= k <= MAXFILE ensures r'[i][k] == r[i][k] {
      if k > NDIRECT {
        WordZero(k - NDIRECT - 1);
        assert Word(fs.data[b], k - NDIRECT - 1) == 0;
      }
    }
    assert r'[i] == r[i];
    assert forall j :: 0 <= j < |r| && j != i ==> r'[j] == r[j];
  }

  /** Filling a slot of the indirect block. */
  lemma RowsTable(fs: Fs, i: nat, j: nat, b: nat)
    requires i < |fs.inodes| && j < NINDIRECT && b <= UINT_MAX
    requires var t := fs.inodes[i].addrs[INDIRECT];
      0 < t < |fs.data| && forall i' :: 0 <= i' < |fs.inodes| && i' != i ==> fs.inodes[i'].addrs[INDIRECT] != t
    ensures var t := fs.inodes[i].addrs[INDIRECT];
      Rows(fs.(data := fs.data[t := SetWord(fs.data[t], j, b)])) == SetRef(Rows(fs), i, NDIRECT + 1 + j, b)
  {
    var t := fs.inodes[i].addrs[INDIRECT];
    var fs' := fs.(data := fs.data[t := SetWord(fs.data[t], j, b)]);
    var r, r' := SetRef(Rows(fs), i, NDIRECT + 1 + j, b), Rows(fs');
    hide Word, SetWord;
    forall k | 0 <= k <= MAXFILE ensures r'[i][k] == r[i][k] {
      if k > NDIRECT {
        WordSet(fs.data[t], j, b, k - NDIRECT - 1);
        assert Word(fs'.data[t], k - NDIRECT - 1) == r'[i][k];
        assert Word(fs.data[t], k - NDIRECT - 1) == Rows(fs)[i][k];
      }
    }
    assert r'[i] == r[i];
    forall i' | 0 <= i' < |r| && i' != i ensures r'[i'] == r[i'] {
      assert fs.inodes[i'].addrs[INDIRECT] != t;
    }
  }

  // ---------------------------------------------------------------------------------------------
  // Allocating a block for a file
  // ---------------------------------------------------------------------------------------------

  /** The disk and the ownership of its blocks are in order. */
  ghost predicate Steady(sb: Super, fs: Fs) {
    Shape(sb, fs) && Own(sb.nmeta, fs.used, Rows(fs))
  }

  /** From fs to fs' only inode i has gained blocks; sizes and earlier blocks are as before. */
  ghost predicate Extends(fs: Fs, fs': Fs, i: nat) {
    && |fs'.inodes| == |fs.inodes| && i < |fs.inodes| && fs'.inodes[i].size == fs.inodes[i].size
    && (forall j :: 0 <= j < |fs.inodes| && j != i ==> fs'.inodes[j] == fs.inodes[j] && Rows(fs')[j] == Rows(fs)[j])
    && (forall k :: 0 <= k <= MAXFILE && Rows(fs)[i][k] != 0 ==> Rows(fs')[i][k] == Rows(fs)[i][k])
  }

  function Allocated(fs: Fs, b: nat): (r: Fs)
    requires b < |fs.used| && b < |fs.data|
  {
    fs.(used := fs.used[b := true], data := fs.data[b := ZeroBlock()])
  }

  /** A freshly allocated block changes no reference. */
  lemma AllocatedRows(sb: Super, fs: Fs, b: nat)
    requires Steady(sb, fs) && b < |fs.used| && !fs.used[b]
    ensures Rows(Allocated(fs, b)) == Rows(fs)
  {
    FreeIsUnowned(sb.nmeta, fs.used, Rows(fs), b);
    forall i | 0 <= i < |fs.inodes| ensures fs.inodes[i].addrs[INDIRECT] != b || b == 0 {
      assert Rows(fs)[i][INDIRECT] == fs.inodes[i].addrs[INDIRECT];
    }
    RowsDataWrite(fs, b, ZeroBlock());
    assert Rows(Allocated(fs, b)) == Rows(fs.(data := fs.data[b := ZeroBlock()]));
  }

  /** The free block b has gone to the empty slot k of inode i, and at most an indirect block t has changed
      besides. */
  ghost predicate Taken(sb: Super, fs: Fs, fs': Fs, i: nat, k: nat, b: nat, t: nat) {
    && Steady(sb, fs) && i < |fs.inodes| && k <= MAXFILE && Rows(fs)[i][k] == 0
    && 0 < b < |fs.used| && !fs.used[b] && fs'.used == fs.used[b := true]
    && |fs'.data| == |fs.data| && fs'.data[b] == ZeroBlock()
    && (forall a :: 0 <= a < |fs.data| && a != b && a != t ==> fs'.data[a] == fs.data[a])
    && |fs'.inodes| == |fs.inodes| && fs'.inodes[i].size == fs.inodes[i].size
    && (forall j :: 0 <= j < |fs.inodes| && j != i ==> fs'.inodes[j] == fs.inodes[j])
    && Rows(fs') == SetRef(Rows(fs), i, k, b)
    && (t == 0 || t == Rows(fs)[i][INDIRECT])
  }

  /** Since the new block is zeroed, every file reads as before. */
  lemma TakenKeeps(sb: Super, fs: Fs, fs': Fs, i: nat, k: nat, b: nat, t: nat)
    requires Taken(sb, fs, fs', i, k, b, t)
    ensures Steady(sb, fs') && SameBlocks(fs, fs') && Extends(fs, fs', i) && Rows(fs')[i][k] == b
  {
    OwnTake(sb.nmeta, fs.used, Rows(fs), i, k, b);
    hide Rows, SetRef, Own;
    var r, r' := Rows(fs), Rows(fs');
    assert forall j :: 0 <= j < |r| && j != i ==> r'[j] == r[j];
    hide Steady, FileBlock;
    forall j, bn | 0 <= j < |fs.inodes| && 0 <= bn < MAXFILE ensures FileBlock(fs', j, bn) == FileBlock(fs, j, bn) {
      TakenBlock(sb, fs, fs', i, k, b, t, j, bn);
    }
  }

  lemma TakenBlock(sb: Super, fs: Fs, fs': Fs, i: nat, k: nat, b: nat, t: nat, j: nat, bn: nat)
    requires Taken(sb, fs, fs', i, k, b, t) && j < |fs.inodes| && bn < MAXFILE
    ensures FileBlock(fs', j, bn) == FileBlock(fs, j, bn)
  {
    hide Rows, SetRef, Own;
    var r, r' := Rows(fs), Rows(fs');
    DataNotIndirect(sb, fs, i, j, SlotOf(bn));
    FreeBlock(sb, fs, b, j, SlotOf(bn));
    assert r'[j][SlotOf(bn)] == if j == i && SlotOf(bn) == k then b else r[j][SlotOf(bn)];
  }

  /** A data block of a file is not an indirect block, and not free. */
  lemma DataNotIndirect(sb: Super, fs: Fs, i: nat, j: nat, k: nat)
    requires Steady(sb, fs) && i < |fs.inodes| && j < |fs.inodes| && k <= MAXFILE && k != INDIRECT
    ensures Rows(fs)[j][k] != 0 ==> Rows(fs)[j][k] != Rows(fs)[i][INDIRECT]
  {
  }

  lemma FreeBlock(sb: Super, fs: Fs, b: nat, j: nat, k: nat)
    requires Steady(sb, fs) && j < |fs.inodes| && k <= MAXFILE && b < |fs.used| && !fs.used[b]
    ensures Rows(fs)[j][k] != b
    ensures Rows(fs)[j][k] < |fs.used|
  {
  }

  lemma TakenDirect(sb: Super, fs: Fs, i: nat, k: nat, b: nat)
    requires Steady(sb, fs) && i < |fs.inodes| && k <= NDIRECT && fs.inodes[i].addrs[k] == 0
    requires 0 < b < |fs.used| && !fs.used[b]
    ensures Taken(sb, fs, WithAddr(Allocated(fs, b), i, k, b), i, k, b, 0)
  {
    var fs1 := Allocated(fs, b);
    AllocatedRows(sb, fs, b);
    if k < NDIRECT {
      RowsDirect(fs1, i, k, b);
    } else {
      RowsIndirect(fs1, i, b);
    }
  }

  function WithWord(fs: Fs, t: nat, j: nat, b: nat): (r: Fs)
    requires t < |fs.data| && j < NINDIRECT && b <= UINT_MAX
  {
    fs.(data := fs.data[t := SetWord(fs.data[t], j, b)])
  }

  lemma TakenTable(sb: Super, fs: Fs, i: nat, j: nat, b: nat)
    requires Steady(sb, fs) && i < |fs.inodes| && j < NINDIRECT && fs.inodes[i].addrs[INDIRECT] != 0
    requires Rows(fs)[i][NDIRECT + 1 + j] == 0 && 0 < b < |fs.used| && !fs.used[b]
    ensures 0 < fs.inodes[i].addrs[INDIRECT] < |fs.data|
    ensures var t := fs.inodes[i].addrs[INDIRECT];
      Taken(sb, fs, WithWord(Allocated(fs, b), t, j, b), i, NDIRECT + 1 + j, b, t)
  {
    var fs1, t := Allocated(fs, b), fs.inodes[i].addrs[INDIRECT];
    var r := Rows(fs);
    hide Own, SetWord, SetRef;
    assert r[i][INDIRECT] == t;
    FreeBlock(sb, fs, b, i, INDIRECT);
    AllocatedRows(sb, fs, b);
    forall i' | 0 <= i' < |fs.inodes| && i' != i ensures fs1.inodes[i'].addrs[INDIRECT] != t {
      assert r[i'][INDIRECT] == fs.inodes[i'].addrs[INDIRECT];
      OneSlot(sb, fs, i, INDIRECT, i', INDIRECT);
    }
    RowsTable(fs1, i, j, b);
  }

  // ---------------------------------------------------------------------------------------------
  // Writing bytes
  // ---------------------------------------------------------------------------------------------

  /** The byte at position p of file i, wherever its size. */
  ghost function ByteAt(fs: Fs, i: nat, p: nat): (x: Byte)
    requires i < |fs.inodes| && p < MAXBYTES
  {
    FileBlock(fs, i, BlockNo(p))[Within(p)]
  }

  /** bytes replace what s holds from position o on; s grows if they reach past its end. */
  function Splice<T>(s: seq<T>, o: nat, bytes: seq<T>): (r: seq<T>)
    requires o <= |s|
    ensures |r| == if o + |bytes| > |s| then o + |bytes| else |s|
  {
    s[..o] + bytes + if o + |bytes| < |s| then s[o + |bytes|..] else []
  }

  function WithBlock(fs: Fs, a: nat, v: Block): (r: Fs)
    requires a < |fs.data|
  {
    fs.(data := fs.data[a := v])
  }

  /** Overwriting a data block changes that block of that file and nothing else. */
  lemma BlockWritten(sb: Super, fs: Fs, i: nat, bn: nat, v: Block)
    requires Steady(sb, fs) && i < |fs.inodes| && bn < MAXFILE && Addr(fs, i, bn) != 0
    ensures Addr(fs, i, bn) < |fs.data| && FileBlock(fs, i, bn) == fs.data[Addr(fs, i, bn)]
    ensures var fs' := WithBlock(fs, Addr(fs, i, bn), v);
      && Steady(sb, fs') && Rows(fs') == Rows(fs)
      && forall j, c {:trigger FileBlock(fs', j, c)} :: 0 <= j < |fs.inodes| && 0 <= c < MAXFILE ==>
        FileBlock(fs', j, c) == if j == i && c == bn then v else FileBlock(fs, j, c)
  {
    DataWriteRows(sb, fs, i, bn, v);
    hide Own, Rows;
    var a := Addr(fs, i, bn);
    var fs' := WithBlock(fs, a, v);
    forall j, c | 0 <= j < |fs.inodes| && 0 <= c < MAXFILE
      ensures FileBlock(fs', j, c) == if j == i && c == bn then v else FileBlock(fs, j, c)
    {
      OneSlot(sb, fs, i, SlotOf(bn), j, SlotOf(c));
    }
  }

  lemma DataWriteRows(sb: Super, fs: Fs, i: nat, bn: nat, v: Block)
    requires Steady(sb, fs) && i < |fs.inodes| && bn < MAXFILE && Addr(fs, i, bn) != 0
    ensures Addr(fs, i, bn) < |fs.data|
    ensures Rows(WithBlock(fs, Addr(fs, i, bn), v)) == Rows(fs)
  {
    var a, r := Addr(fs, i, bn), Rows(fs);
    hide Own;
    RefInRange(sb, fs, i, SlotOf(bn));
    forall i' | 0 <= i' < |fs.inodes| ensures fs.inodes[i'].addrs[INDIRECT] != a || a == 0 {
      DataNotIndirect(sb, fs, i', i, SlotOf(bn));
      assert r[i'][INDIRECT] == fs.inodes[i'].addrs[INDIRECT];
    }
    RowsDataWrite(fs, a, v);
  }

  lemma RefInRange(sb: Super, fs: Fs, i: nat, k: nat)
    requires Steady(sb, fs) && i < |fs.inodes| && k <= MAXFILE
    ensures Rows(fs)[i][k] < |fs.data|
  {
  }

  lemma OneSlot(sb: Super, fs: Fs, i: nat, k: nat, j: nat, c: nat)
    requires Steady(sb, fs) && i < |fs.inodes| && k <= MAXFILE && j < |fs.inodes| && c <= MAXFILE
    ensures Rows(fs)[i][k] != 0 && Rows(fs)[j][c] == Rows(fs)[i][k] ==> i == j && k == c
  {
  }

  /** The bytes of file i between lo and hi are those of src from position 0 on; all others are as in fs. */
  ghost predicate Written(fs: Fs, fs': Fs, i: nat, lo: nat, src: seq<Byte>) {
    && |fs'.inodes| == |fs.inodes| && i < |fs.inodes| && lo + |src| <= MAXBYTES
    && (forall p {:trigger ByteAt(fs', i, p)} :: 0 <= p < MAXBYTES ==>
      ByteAt(fs', i, p) == if lo <= p < lo + |src| then src[p - lo] else ByteAt(fs, i, p))
    && (forall j, c {:trigger FileBlock(fs', j, c)} :: 0 <= j < |fs.inodes| && 0 <= c < MAXFILE && j != i ==>
      FileBlock(fs', j, c) == FileBlock(fs, j, c))
  }

  /** One block's worth of bytes has been put in place. */
  lemma BytesWritten(sb: Super, fs: Fs, i: nat, off: nat, src: seq<Byte>)
    requires Steady(sb, fs) && i < |fs.inodes| && off < MAXBYTES && Within(off) + |src| <= BSIZE
    requires Addr(fs, i, BlockNo(off)) != 0
    ensures Addr(fs, i, BlockNo(off)) < |fs.data|
    ensures var a := Addr(fs, i, BlockNo(off));
      Written(fs, WithBlock(fs, a, Splice(fs.data[a], Within(off), src)), i, off, src)
  {
    var a, bn, o := Addr(fs, i, BlockNo(off)), BlockNo(off), Within(off);
    BlockWritten(sb, fs, i, bn, ZeroBlock());
    var v: Block := Splice(fs.data[a], o, src);
    var fs' := WithBlock(fs, a, v);
    BlockWritten(sb, fs, i, bn, v);
    hide Rows, Own, FileBlock, Addr, Splice, Steady, ByteAt, WithBlock;
    forall p: nat | p < MAXBYTES
      ensures ByteAt(fs', i, p) == if off <= p < off + |src| then src[p - off] else ByteAt(fs, i, p)
    {
      assert FileBlock(fs', i, BlockNo(p)) == if BlockNo(p) == bn then v else FileBlock(fs, i, BlockNo(p));
      ByteWritten(fs, fs', i, off, src, p);
    }
  }

  lemma ByteWritten(fs: Fs, fs': Fs, i: nat, off: nat, src: seq<Byte>, p: nat)
    requires i < |fs.inodes| == |fs'.inodes| && off < MAXBYTES && Within(off) + |src| <= BSIZE && p < MAXBYTES
    requires FileBlock(fs', i, BlockNo(p)) == if BlockNo(p) == BlockNo(off)
      then Splice(FileBlock(fs, i, BlockNo(off)), Within(off), src) else FileBlock(fs, i, BlockNo(p))
    ensures ByteAt(fs', i, p) == if off <= p < off + |src| then src[p - off] else ByteAt(fs, i, p)
  {
    hide FileBlock, Splice;
    SplicedAt(FileBlock(fs, i, BlockNo(off)), Within(off), src, Within(p));
    SameBlock(off, p, |src|);
  }

  lemma SplicedAt<T>(s: seq<T>, o: nat, bytes: seq<T>, q: nat)
    requires o + |bytes| <= |s| && q < |s|
    ensures Splice(s, o, bytes)[q] == if o <= q < o + |bytes| then bytes[q - o] else s[q]
  {
  }

  /** A position is in a range that lies within one block exactly when it is in the block and its remainder
      is in the range. */
  lemma SameBlock(off: nat, p: nat, n: nat)
    requires Within(off) + n <= BSIZE
    ensures off <= p < off + n <==> BlockNo(p) == BlockNo(off) && Within(off) <= Within(p) < Within(off) + n
    ensures BlockNo(p) == BlockNo(off) ==> p - off == Within(p) - Within(off)
  {
  }

  lemma WrittenMore(fs: Fs, fs1: Fs, fs2: Fs, i: nat, lo: nat, src: seq<Byte>, more: seq<Byte>)
    requires Written(fs, fs1, i, lo, src) && Written(fs1, fs2, i, lo + |src|, more)
    ensures Written(fs, fs2, i, lo, src + more)
  {
  }

  lemma SameBlocksWritten(fs: Fs, fs': Fs, i: nat, lo: nat)
    requires SameBlocks(fs, fs') && i < |fs.inodes| && lo <= MAXBYTES
    ensures Written(fs, fs', i, lo, [])
  {
  }

  /** What the bytes written make of the contents, once the size is brought up to date. */
  lemma WrittenContents(fs: Fs, fs': Fs, i: nat, off: nat, src: seq<Byte>)
    requires Written(fs, fs', i, off, src)
    requires fs.inodes[i].size <= MAXBYTES && off <= fs.inodes[i].size
    requires fs'.inodes[i].size == if off + |src| > fs.inodes[i].size then off + |src| else fs.inodes[i].size
    requires forall j :: 0 <= j < |fs.inodes| && j != i ==> fs'.inodes[j].size == fs.inodes[j].size <= MAXBYTES
    ensures Contents(fs', i) == Splice(Contents(fs, i), off, src)
    ensures forall j :: 0 <= j < |fs.inodes| && j != i ==> Contents(fs', j) == Contents(fs, j)
  {
    hide FileBlock;
    var c, c' := Contents(fs, i), Contents(fs', i);
    var want := Splice(c, off, src);
    forall p: nat | p < |c'| ensures c'[p] == want[p] {
      assert c'[p] == ByteAt(fs', i, p);
      assert p < |c| ==> c[p] == ByteAt(fs, i, p);
    }
    forall j | 0 <= j < |fs.inodes| && j != i ensures Contents(fs', j) == Contents(fs, j) {
      var d, d' := Contents(fs, j), Contents(fs', j);
      forall p: nat | p < |d'| ensures d'[p] == d[p] {
        assert FileBlock(fs', j, BlockNo(p)) == FileBlock(fs, j, BlockNo(p));
      }
    }
  }
}
