/** The on-disk redo log of kernel/log.c: a header block that names home blocks, followed by one
    log block per name.  A block is a sequence of 32-bit words, because the header is read and
    written as `struct logheader { int n; int block[LOGSIZE]; }`. */
module DiskLog {

  const MAXOPBLOCKS: nat := 10
  const LOGSIZE: nat := 3 * MAXOPBLOCKS
  const NBUF: nat := 3 * MAXOPBLOCKS
  const BSIZE: nat := 1024
  const WORDS: nat := BSIZE / 4

  type Block = b: seq<int> | |b| == WORDS witness seq(WORDS, _ => 0)
  type Disk = seq<Block>

  /** `log.start` and `log.size` as read from the superblock, and the size of the device. */
  datatype Layout = Layout(start: nat, size: nat, nblocks: nat) {
    ghost predicate Valid() {
      1 <= size && start + size <= nblocks
    }

    predicate Home(b: int) {
      0 <= b < nblocks && !(start <= b < start + size)
    }

    predicate InLog(b: int) {
      start <= b < start + size
    }

    /** The largest header count that `log_write` lets through. */
    function Capacity(): (c: int)
      ensures c <= LOGSIZE && c <= size - 1
    {
      if size - 1 < LOGSIZE then size - 1 else LOGSIZE
    }
  }

  ghost predicate Distinct(bs: seq<int>) {
    forall i, j :: 0 <= i < j < |bs| ==> bs[i] != bs[j]
  }

  /** A list of block numbers that may stand in a header. */
  ghost predicate GoodList(lay: Layout, bs: seq<int>) {
    && |bs| <= lay.Capacity()
    && Distinct(bs)
    && (forall i :: 0 <= i < |bs| ==> lay.Home(bs[i]))
  }

  predicate HeadInRange(b: Block) {
    0 <= b[0] <= LOGSIZE
  }

  function HeadBlocks(b: Block): (bs: seq<int>)
    requires HeadInRange(b)
  {
    b[1..1 + b[0]]
  }

  /** What `write_head` leaves in the header buffer: only the first n + 1 words are overwritten. */
  function EncodeHead(was: Block, bs: seq<int>): (b: Block)
    requires |bs| <= LOGSIZE
    ensures HeadInRange(b) && HeadBlocks(b) == bs
  {
    var b := [|bs|] + bs + was[1 + |bs|..];
    assert b[1..1 + |bs|] == bs;
    b
  }

  ghost predicate GoodHead(lay: Layout, b: Block) {
    HeadInRange(b) && GoodList(lay, HeadBlocks(b))
  }

  ghost predicate GoodDisk(lay: Layout, d: Disk) {
    lay.Valid() && |d| == lay.nblocks && GoodHead(lay, d[lay.start])
  }

  ghost function SlotOf(bs: seq<int>, b: int): (i: int)
    requires b in bs
    ensures 0 <= i < |bs| && bs[i] == b
  {
    var i :| 0 <= i < |bs| && bs[i] == b;
    i
  }

  /** The list of blocks named by the header on disk. */
  ghost function OnDisk(lay: Layout, d: Disk): (bs: seq<int>)
    requires GoodDisk(lay, d)
    ensures GoodList(lay, bs)
  {
    HeadBlocks(d[lay.start])
  }

  /** The contents that home block `b` has once recovery has run from disk `d`: the logged copy
      if the header names `b`, otherwise what the home location holds.  This is the meaning of a
      disk image; it does not mention the order in which recovery copies blocks. */
  ghost function Durable(lay: Layout, d: Disk, b: int): (r: Block)
    requires GoodDisk(lay, d) && lay.Home(b)
  {
    var bs := OnDisk(lay, d);
    if b in bs then d[lay.start + 1 + SlotOf(bs, b)] else d[b]
  }

  /** Two images that recovery cannot tell apart. */
  ghost predicate SameDurable(lay: Layout, d: Disk, d': Disk)
    requires GoodDisk(lay, d) && GoodDisk(lay, d')
  {
    forall b :: lay.Home(b) ==> Durable(lay, d', b) == Durable(lay, d, b)
  }

  /** Filling a log slot while the on-disk header is empty changes nothing that survives. */
  lemma LogSlotWriteInvisible(lay: Layout, d: Disk, slot: nat, w: Block)
    requires GoodDisk(lay, d) && OnDisk(lay, d) == []
    requires slot < lay.size - 1
    ensures GoodDisk(lay, d[lay.start + 1 + slot := w])
    ensures SameDurable(lay, d, d[lay.start + 1 + slot := w])
  {
  }

  /** The commit point: one write of the header block switches every named block at once. */
  lemma HeaderWriteCommits(lay: Layout, d: Disk, h: Block)
    requires GoodDisk(lay, d) && GoodHead(lay, h)
    ensures GoodDisk(lay, d[lay.start := h]) && OnDisk(lay, d[lay.start := h]) == HeadBlocks(h)
    ensures forall i :: 0 <= i < |HeadBlocks(h)| ==>
      Durable(lay, d[lay.start := h], HeadBlocks(h)[i]) == d[lay.start + 1 + i]
    ensures forall b :: lay.Home(b) && b !in HeadBlocks(h) ==> Durable(lay, d[lay.start := h], b) == d[b]
  {
  }

  /** Copying a logged block to its home location is invisible: recovery would do the same. */
  lemma InstallInvisible(lay: Layout, d: Disk, i: nat)
    requires GoodDisk(lay, d) && i < |OnDisk(lay, d)|
    ensures GoodDisk(lay, d[OnDisk(lay, d)[i] := d[lay.start + 1 + i]])
    ensures SameDurable(lay, d, d[OnDisk(lay, d)[i] := d[lay.start + 1 + i]])
  {
  }

  /** Installing entry i keeps the header and the log blocks, and extends the installed prefix. */
  lemma InstallNext(lay: Layout, d: Disk, bs: seq<int>, i: nat)
    requires GoodDisk(lay, d) && bs == OnDisk(lay, d) && i < |bs|
    requires forall j :: 0 <= j < i ==> d[bs[j]] == d[lay.start + 1 + j]
    ensures GoodDisk(lay, d[bs[i] := d[lay.start + 1 + i]])
    ensures OnDisk(lay, d[bs[i] := d[lay.start + 1 + i]]) == bs
    ensures var d' := d[bs[i] := d[lay.start + 1 + i]];
      && (forall j :: 0 <= j <= i ==> d'[bs[j]] == d'[lay.start + 1 + j])
      && (forall b :: lay.InLog(b) ==> d'[b] == d[b])
  {
  }

  /** Every logged block has reached its home location. */
  ghost predicate Installed(lay: Layout, d: Disk)
    requires GoodDisk(lay, d)
  {
    forall i :: 0 <= i < |OnDisk(lay, d)| ==> d[OnDisk(lay, d)[i]] == d[lay.start + 1 + i]
  }

  /** Erasing the header is invisible once everything is installed. */
  lemma EraseInvisible(lay: Layout, d: Disk, h: Block)
    requires GoodDisk(lay, d) && Installed(lay, d)
    requires GoodHead(lay, h) && HeadBlocks(h) == []
    ensures GoodDisk(lay, d[lay.start := h]) && SameDurable(lay, d, d[lay.start := h])
  {
  }
}
