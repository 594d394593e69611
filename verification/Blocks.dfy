/** Blocks of bytes, the words kept in an indirect block, and who owns which block of the disk.
    The formats are those of kernel/fs.h. */
module Blocks {

  const BSIZE: nat := 1024
  const NDIRECT: nat := 12
  const NINDIRECT: nat := 256
  const MAXFILE: nat := 268
  const MAXBYTES: nat := 274432
  const UINT_MAX: nat := 0xffff_ffff

  type Byte = x: int | 0 <= x < 256

  type Block = b: seq<Byte> | |b| == BSIZE witness seq(BSIZE, _ => 0)

  function ZeroBlock(): (b: Block) {
    seq(BSIZE, _ => 0)
  }

  /** The block of a file that holds byte p, and the position of the byte in it. */
  function BlockNo(p: nat): (n: nat)
    ensures p < MAXBYTES ==> n < MAXFILE
  {
    p / 1024
  }

  function Within(p: nat): (q: nat)
    ensures q < BSIZE && p == 1024 * BlockNo(p) + q
  {
    p % 1024
  }

  // ---------------------------------------------------------------------------------------------
  // Words
  // ---------------------------------------------------------------------------------------------

  /** Word k of a block, in little-endian order. */
  function Word(b: Block, k: nat): (v: nat)
    requires k < NINDIRECT
    ensures v <= UINT_MAX
  {
    var b0: int, b1: int, b2: int, b3: int := b[4 * k], b[4 * k + 1], b[4 * k + 2], b[4 * k + 3];
    b0 + 0x100 * b1 + 0x1_0000 * b2 + 0x100_0000 * b3
  }

  function SetWord(b: Block, k: nat, v: nat): (r: Block)
    requires k < NINDIRECT && v <= UINT_MAX
  {
    b[4 * k := v % 0x100][4 * k + 1 := v / 0x100 % 0x100][4 * k + 2 := v / 0x1_0000 % 0x100][4 * k + 3 := v / 0x100_0000]
  }

  lemma Digits(v: nat)
    requires v <= UINT_MAX
    ensures v == v % 0x100 + 0x100 * (v / 0x100 % 0x100) + 0x1_0000 * (v / 0x1_0000 % 0x100) + 0x100_0000 * (v / 0x100_0000)
  {
  }

  /** Writing word k and reading word j back. */
  lemma WordSet(b: Block, k: nat, v: nat, j: nat)
    requires k < NINDIRECT && v <= UINT_MAX && j < NINDIRECT
    ensures Word(SetWord(b, k, v), j) == if j == k then v else Word(b, j)
  {
    Digits(v);
  }

  lemma WordZero(j: nat)
    requires j < NINDIRECT
    ensures Word(ZeroBlock(), j) == 0
  {
  }

  // ---------------------------------------------------------------------------------------------
  // Ownership
  // ---------------------------------------------------------------------------------------------

  /** The block numbers that an inode refers to: 12 direct ones, the indirect block, and its 256 words. */
  type Row = r: seq<nat> | |r| == MAXFILE + 1 witness seq(MAXFILE + 1, _ => 0)

  const INDIRECT: nat := NDIRECT

  ghost predicate Owned(rows: seq<Row>, b: nat) {
    exists i, k {:trigger rows[i][k]} :: 0 <= i < |rows| && 0 <= k <= MAXFILE && rows[i][k] == b
  }

  /** A non-zero reference is to an allocated data block. */
  ghost predicate RefsOk(nmeta: nat, used: seq<bool>, rows: seq<Row>) {
    forall i, k {:trigger rows[i][k]} :: 0 <= i < |rows| && 0 <= k <= MAXFILE && rows[i][k] != 0 ==>
      nmeta <= rows[i][k] < |used| && used[rows[i][k]]
  }

  /** No block is referred to twice. */
  ghost predicate RefsDistinct(rows: seq<Row>) {
    forall i, k, i', k' {:trigger rows[i][k], rows[i'][k']} ::
      (0 <= i < |rows| && 0 <= k <= MAXFILE && 0 <= i' < |rows| && 0 <= k' <= MAXFILE
      && rows[i][k] != 0 && rows[i][k] == rows[i'][k']) ==> i == i' && k == k'
  }

  /** The bit of a block is set exactly when the block is metadata or is referred to, and then exactly once. */
  ghost predicate Own(nmeta: nat, used: seq<bool>, rows: seq<Row>) {
    && 0 < nmeta <= |used| && RefsOk(nmeta, used, rows) && RefsDistinct(rows)
    && (forall b :: 0 <= b < nmeta ==> used[b])
    && (forall b :: nmeta <= b < |used| && used[b] ==> Owned(rows, b))
  }

  function SetRef(rows: seq<Row>, i: nat, k: nat, b: nat): (r: seq<Row>)
    requires i < |rows| && k <= MAXFILE
    ensures |r| == |rows|
    ensures forall i', k' {:trigger r[i'][k']} :: 0 <= i' < |r| && 0 <= k' <= MAXFILE ==>
      r[i'][k'] == if i' == i && k' == k then b else rows[i'][k']
  {
    rows[i := rows[i][k := b]]
  }

  /** Allocating a free block and putting it in an empty slot keeps ownership exact. */
  lemma OwnTake(nmeta: nat, used: seq<bool>, rows: seq<Row>, i: nat, k: nat, b: nat)
    requires Own(nmeta, used, rows) && i < |rows| && k <= MAXFILE && rows[i][k] == 0
    requires b < |used| && !used[b]
    ensures Own(nmeta, used[b := true], SetRef(rows, i, k, b))
  {
    var used', r := used[b := true], SetRef(rows, i, k, b);
    hide SetRef;
    assert r[i][k] == b;
    forall c | nmeta <= c < |used'| && used'[c] ensures Owned(r, c) {
      if c != b {
        var i', k' :| 0 <= i' < |rows| && 0 <= k' <= MAXFILE && rows[i'][k'] == c;
        assert r[i'][k'] == c;
      }
    }
  }

  /** Freeing a referenced block and dropping the reference keeps ownership exact. */
  lemma OwnDrop(nmeta: nat, used: seq<bool>, rows: seq<Row>, i: nat, k: nat)
    requires Own(nmeta, used, rows) && i < |rows| && k <= MAXFILE && rows[i][k] != 0
    ensures rows[i][k] < |used| && used[rows[i][k]]
    ensures Own(nmeta, used[rows[i][k] := false], SetRef(rows, i, k, 0))
  {
    var b := rows[i][k];
    var used', r := used[b := false], SetRef(rows, i, k, 0);
    hide SetRef;
    forall c | nmeta <= c < |used'| && used'[c] ensures Owned(r, c) {
      var i', k' :| 0 <= i' < |rows| && 0 <= k' <= MAXFILE && rows[i'][k'] == c;
      assert r[i'][k'] == c;
    }
    assert RefsOk(nmeta, used', r) by {
      forall i', k' | 0 <= i' < |r| && 0 <= k' <= MAXFILE && r[i'][k'] != 0
        ensures nmeta <= r[i'][k'] < |used'| && used'[r[i'][k']]
      {
        assert rows[i'][k'] == r[i'][k'] && (i' != i || k' != k);
      }
    }
    assert RefsDistinct(r);
  }

  /** A free block is not referred to by any inode. */
  lemma FreeIsUnowned(nmeta: nat, used: seq<bool>, rows: seq<Row>, b: nat)
    requires Own(nmeta, used, rows) && b < |used| && !used[b]
    ensures b >= nmeta && !Owned(rows, b)
  {
  }
}
