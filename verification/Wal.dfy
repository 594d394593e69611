/** kernel/log.c as code: commit and recovery move blocks through the buffer cache, and every image
    the disk goes through on the way is a place where the machine may stop. */
module Wal {
  import opened DiskLog
  import opened Bio

  // ---------------------------------------------------------------------------------------------
  // The cache between two steps of commit or recovery
  // ---------------------------------------------------------------------------------------------

  /** No buffer is locked; the pinned blocks are cached with one reference each and are the only ones
      whose buffer may differ from the disk; no other buffer is referenced. */
  ghost predicate Resting(bs: seq<Buf>, dirty: set<nat>, pins: seq<int>)
    requires |bs| == NBUF + 1
  {
    && (forall i :: 0 <= i < NBUF ==> !bs[i].locked)
    && (forall i :: 0 <= i < NBUF ==>
          bs[i].refcnt == if bs[i].valid && bs[i].dev == ROOTDEV && bs[i].blockno in pins then 1 else 0)
    && (forall x :: x in pins ==> exists i: nat :: InUse(bs, i, x))
    && (forall i :: i in dirty ==> i < NBUF && bs[i].blockno in pins)
  }

  /** What is not pinned reads as on disk. */
  lemma UnpinnedIsClean(bs: seq<Buf>, d: Disk, dirty: set<nat>, pins: seq<int>, x: int)
    requires |bs| == NBUF + 1 && Consistent(bs, d, dirty) && Resting(bs, dirty, pins)
    requires 0 <= x < |d| && x !in pins
    ensures Content(bs, d, x) == d[x]
  {
  }

  /** Fewer pins than buffers leave a free buffer. */
  lemma FreeBuffer(bs: seq<Buf>, dirty: set<nat>, pins: seq<int>)
    requires |bs| == NBUF + 1 && Unique(bs) && Resting(bs, dirty, pins) && |pins| < NBUF
    ensures exists i :: 0 <= i < NBUF && bs[i].refcnt == 0
  {
    if forall i :: 0 <= i < NBUF ==> bs[i].refcnt != 0 {
      var names := seq(NBUF, i requires 0 <= i < NBUF => bs[i].blockno);
      forall i, j | 0 <= i < j < |names| ensures names[i] != names[j] {
        assert !Holds(bs[j], bs[i].dev, bs[i].blockno);
      }
      forall i | 0 <= i < |names| ensures names[i] in pins {
        assert bs[i].refcnt != 0;
      }
      PigeonHole(names, pins);
    }
  }

  lemma {:induction false} PigeonHole(names: seq<int>, pins: seq<int>)
    requires Distinct(names) && forall i :: 0 <= i < |names| ==> names[i] in pins
    ensures |names| <= |pins|
  {
    if names != [] {
      var x := names[0];
      var k :| 0 <= k < |pins| && pins[k] == x;
      var rest := pins[..k] + pins[k + 1..];
      forall i | 0 <= i < |names[1..]| ensures names[1..][i] in rest {
        var y := names[i + 1];
        assert y in pins && y != x;
        var m :| 0 <= m < |pins| && pins[m] == y;
        assert m < k ==> rest[m] == y;
        assert m > k ==> rest[m - 1] == y;
      }
      PigeonHole(names[1..], rest);
    }
  }

  /** One buffer was taken for block x and given back clean; nothing else changed but links. */
  ghost predicate Borrowed(bs: seq<Buf>, bs': seq<Buf>, t: nat, x: int, w: Block)
    requires |bs| == |bs'| == NBUF + 1
  {
    && t < NBUF && (bs[t].refcnt == 0 || Holds(bs[t], ROOTDEV, x))
    && (forall i :: 0 <= i < NBUF && i != t ==> SameCore(bs'[i], bs[i]))
    && bs'[t].valid && Holds(bs'[t], ROOTDEV, x) && bs'[t].data == w
    && !bs'[t].locked && bs'[t].refcnt == 0
  }

  lemma BorrowedRests(bs: seq<Buf>, bs': seq<Buf>, dirty: set<nat>, pins: seq<int>, t: nat, x: int, w: Block)
    requires |bs| == |bs'| == NBUF + 1 && Unique(bs') && Resting(bs, dirty, pins) && x !in pins
    requires Borrowed(bs, bs', t, x, w) && forall i :: i in dirty ==> i < NBUF && bs[i].refcnt > 0
    ensures Resting(bs', dirty, pins)
  {
    forall y | y in pins ensures exists i: nat :: InUse(bs', i, y) {
      var i: nat :| InUse(bs, i, y);
      assert i != t;
      assert SameCore(bs'[i], bs[i]);
      assert InUse(bs', i, y);
    }
    assert forall i :: 0 <= i < NBUF && i != t ==> SameCore(bs'[i], bs[i]);
    assert t !in dirty;
  }

  /** The pinned blocks keep their contents. */
  lemma BorrowedContent(bs: seq<Buf>, bs': seq<Buf>, d: Disk, d': Disk, dirty: set<nat>, pins: seq<int>,
                        t: nat, x: int, w: Block, y: int)
    requires |bs| == |bs'| == NBUF + 1 && Unique(bs) && Unique(bs') && Resting(bs, dirty, pins) && x !in pins
    requires Borrowed(bs, bs', t, x, w) && y in pins && 0 <= y < |d| == |d'|
    ensures Content(bs', d', y) == Content(bs, d, y)
  {
    var i: nat :| InUse(bs, i, y);
    assert SameCore(bs'[i], bs[i]);
    ContentIs(bs, d, i);
    ContentIs(bs', d', i);
  }

  /** Two buffers were taken, for a log block and for its home block, and both are now clean. */
  ghost predicate Installed2(bs: seq<Buf>, bs': seq<Buf>, t: nat, x: int, f: nat, y: int)
    requires |bs| == |bs'| == NBUF + 1
  {
    && t < NBUF && f < NBUF && t != f
    && (bs[t].refcnt == 0 || Holds(bs[t], ROOTDEV, x))
    && (bs[f].refcnt == 0 || Holds(bs[f], ROOTDEV, y))
    && (forall i :: 0 <= i < NBUF && i != t && i != f ==> SameCore(bs'[i], bs[i]))
    && Holds(bs'[t], ROOTDEV, x) && !bs'[t].locked && bs'[t].refcnt == 0
    && Holds(bs'[f], ROOTDEV, y) && !bs'[f].locked && bs'[f].refcnt == 0
  }

  lemma InstalledRests(bs: seq<Buf>, bs': seq<Buf>, dirty: set<nat>, pins: seq<int>, rest: seq<int>,
                       t: nat, x: int, f: nat, y: int)
    requires |bs| == |bs'| == NBUF + 1 && Unique(bs') && Resting(bs, dirty, pins)
    requires Installed2(bs, bs', t, x, f, y) && forall i :: i in dirty ==> i < NBUF && bs[i].refcnt > 0
    requires (pins == [y] + rest || pins == rest) && y !in rest && x !in pins && x != y
    ensures Resting(bs', dirty - {f}, rest)
  {
    assert forall z :: z in rest ==> z in pins;
    assert forall z :: z in pins && z != y ==> z in rest;
    forall z | z in rest ensures exists i: nat :: InUse(bs', i, z) {
      var i: nat :| InUse(bs, i, z);
      assert i != t && i != f;
      assert SameCore(bs'[i], bs[i]);
      assert InUse(bs', i, z);
    }
    assert t !in dirty;
    forall i | 0 <= i < NBUF && i != t && i != f
      ensures bs'[i].refcnt == if bs'[i].valid && bs'[i].dev == ROOTDEV && bs'[i].blockno in rest then 1 else 0
    {
      assert SameCore(bs'[i], bs[i]);
      assert !Holds(bs'[f], bs'[i].dev, bs'[i].blockno) || bs'[i].dev == 0;
    }
    forall i | i in dirty - {f} ensures i < NBUF && bs'[i].blockno in rest {
      assert SameCore(bs'[i], bs[i]);
      assert bs[i].refcnt > 0;
    }
  }

  class Log {
    const cache: BCache
    const lay: Layout
    var n: nat
    const block: array<int>

    /** initlog, up to the call of recover_from_log. */
    constructor (c: BCache, l: Layout)
      ensures cache == c && lay == l && n == 0 && block.Length == LOGSIZE && fresh(block)
    {
      cache, lay, n := c, l, 0;
      block := new int[LOGSIZE](_ => 0);
    }

    ghost predicate Shape()
      reads this, block, cache, cache.bufs
    {
      && block.Length == LOGSIZE && n <= LOGSIZE
      && cache.Valid() && GoodDisk(lay, cache.disk)
    }

    /** The in-memory header. */
    ghost function Lh(): (bs: seq<int>)
      requires n <= block.Length
      reads this, block
    {
      block[..n]
    }

    ghost predicate Rests(pins: seq<int>)
      requires Shape()
      reads this, block, cache, cache.bufs
    {
      Resting(cache.bufs[..], cache.dirty, pins) && |pins| < NBUF && GoodList(lay, pins)
    }

    /** bread(log block) followed by bread(home block).  The home block is pinned during a commit;
        during recovery nothing is. */
    method ReadPair(slot: int, home: int, ghost pins: seq<int>) returns (to: nat, from: nat)
      requires cache.Valid() && Resting(cache.bufs[..], cache.dirty, pins) && |pins| < NBUF
      requires 0 <= slot < |cache.disk| && 0 <= home < |cache.disk| && slot !in pins && slot != home
      requires home in pins || pins == []
      modifies cache.bufs
      ensures cache.Valid() && to < NBUF && from < NBUF && to != from
      ensures forall i :: 0 <= i < NBUF && i != to && i != from ==> cache.bufs[i] == old(cache.bufs[i])
      ensures home in pins ==>
        && cache.bufs[from] == old(cache.bufs[from]).(refcnt := 2, locked := true)
        && old(cache.bufs[from].refcnt) == 1 && old(!cache.bufs[from].locked)
      ensures cache.bufs[from].valid && cache.bufs[from].locked && Holds(cache.bufs[from], ROOTDEV, home)
      ensures cache.bufs[from].data == old(Content(cache.bufs[..], cache.disk, home))
      ensures cache.bufs[from].refcnt == if home in pins then 2 else 1
      ensures old(cache.bufs[from].refcnt) == 0 || old(Holds(cache.bufs[from], ROOTDEV, home))
      ensures cache.bufs[to].valid && cache.bufs[to].locked && cache.bufs[to].refcnt == 1
      ensures Holds(cache.bufs[to], ROOTDEV, slot) && to !in cache.dirty
      ensures cache.bufs[to].data == old(Content(cache.bufs[..], cache.disk, slot))
      ensures old(cache.bufs[to].refcnt) == 0 || old(Holds(cache.bufs[to], ROOTDEV, slot))
    {
      ghost var bs := cache.bufs[..];
      FreeBuffer(bs, cache.dirty, pins);
      hide Linked;
      var t := cache.Bread(ROOTDEV, slot);
      assert t !in cache.dirty;
      if home in pins {
        ghost var h: nat :| InUse(bs, h, home);
        assert h != t && InUse(cache.bufs[..], h, home);
      } else {
        ghost var j := if t == 0 then 1 else 0;
        assert cache.bufs[j].refcnt == 0;
      }
      hide Content, Consistent;
      var f := cache.Bread(ROOTDEV, home);
      to, from := t, f;
    }

    /** memmove, bwrite of the log block, brelse of both. */
    method CopyOut(to: nat, from: nat)
      requires cache.Valid() && to < NBUF && from < NBUF && to != from && to !in cache.dirty
      requires cache.bufs[to].locked && cache.bufs[to].valid && cache.bufs[to].refcnt == 1
      requires cache.bufs[from].locked && cache.bufs[from].valid && cache.bufs[from].refcnt == 2
      modifies cache, cache.bufs
      ensures cache.Valid() && cache.dirty == old(cache.dirty)
      ensures forall i :: 0 <= i < NBUF && i != to && i != from ==> SameCore(cache.bufs[i], old(cache.bufs[i]))
      ensures SameCore(cache.bufs[from], old(cache.bufs[from]).(refcnt := 1, locked := false))
      ensures SameCore(cache.bufs[to], old(cache.bufs[to]).(refcnt := 0, locked := false, data := old(cache.bufs[from].data)))
      ensures cache.disk == old(cache.disk)[old(cache.bufs[to].blockno) := old(cache.bufs[from].data)]
      ensures cache.images == old(cache.images) + [cache.disk]
    {
      hide Linked, Consistent, Unique;
      cache.Store(to, cache.bufs[from].data);
      cache.Bwrite(to);
      cache.Brelse(from);
      cache.Brelse(to);
    }

    /** One round of write_log: read the log block, read the pinned home block, copy, bwrite. */
    method WriteLogBlock(slot: int, home: int, ghost pins: seq<int>)
      requires cache.Valid() && Resting(cache.bufs[..], cache.dirty, pins) && |pins| < NBUF
      requires 0 <= slot < |cache.disk| && 0 <= home < |cache.disk| && slot !in pins && home in pins
      modifies cache, cache.bufs
      ensures cache.Valid() && Resting(cache.bufs[..], cache.dirty, pins)
      ensures forall y :: y in pins && 0 <= y < |cache.disk| ==>
        Content(cache.bufs[..], cache.disk, y) == old(Content(cache.bufs[..], cache.disk, y))
      ensures cache.disk == old(cache.disk)[slot := old(Content(cache.bufs[..], cache.disk, home))]
      ensures cache.images == old(cache.images) + [cache.disk]
    {
      ghost var bs := cache.bufs[..];
      assert forall i :: i in cache.dirty ==> i < NBUF && bs[i].refcnt > 0;
      hide Linked, Content, Consistent;
      var to, from := ReadPair(slot, home, pins);
      CopyOut(to, from);
      assert Borrowed(bs, cache.bufs[..], to, slot, cache.bufs[to].data);
      BorrowedRests(bs, cache.bufs[..], cache.dirty, pins, to, slot, cache.bufs[to].data);
      forall y | y in pins && 0 <= y < |cache.disk|
        ensures Content(cache.bufs[..], cache.disk, y) == old(Content(cache.bufs[..], cache.disk, y))
      {
        BorrowedContent(bs, cache.bufs[..], old(cache.disk), cache.disk, cache.dirty, pins, to, slot, cache.bufs[to].data, y);
      }
    }

    /** memmove, bwrite of the home block, bunpin unless recovering, brelse of both. */
    method CopyHome(lbuf: nat, dbuf: nat, recovering: bool)
      requires cache.Valid() && lbuf < NBUF && dbuf < NBUF && lbuf != dbuf && lbuf !in cache.dirty
      requires cache.bufs[lbuf].locked && cache.bufs[lbuf].valid && cache.bufs[lbuf].refcnt == 1
      requires cache.bufs[dbuf].locked && cache.bufs[dbuf].valid
      requires cache.bufs[dbuf].refcnt == if recovering then 1 else 2
      modifies cache, cache.bufs
      ensures cache.Valid() && cache.dirty == old(cache.dirty) - {dbuf}
      ensures forall i :: 0 <= i < NBUF && i != lbuf && i != dbuf ==> SameCore(cache.bufs[i], old(cache.bufs[i]))
      ensures SameCore(cache.bufs[lbuf], old(cache.bufs[lbuf]).(refcnt := 0, locked := false))
      ensures SameCore(cache.bufs[dbuf], old(cache.bufs[dbuf]).(refcnt := 0, locked := false, data := old(cache.bufs[lbuf].data)))
      ensures cache.disk == old(cache.disk)[old(cache.bufs[dbuf].blockno) := old(cache.bufs[lbuf].data)]
      ensures cache.images == old(cache.images) + [cache.disk]
    {
      hide Linked, Consistent, Unique;
      cache.Store(dbuf, cache.bufs[lbuf].data);
      cache.Bwrite(dbuf);
      if !recovering {
        cache.Bunpin(dbuf);
      }
      cache.Brelse(lbuf);
      cache.Brelse(dbuf);
    }

    /** One round of install_trans: the home block named by the header receives its log block. */
    method InstallBlock(slot: int, home: int, recovering: bool, ghost pins: seq<int>, ghost rest: seq<int>)
      requires cache.Valid() && Resting(cache.bufs[..], cache.dirty, pins) && |pins| < NBUF
      requires 0 <= slot < |cache.disk| && 0 <= home < |cache.disk| && slot !in pins && slot != home
      requires if recovering then pins == rest == [] else pins == [home] + rest && home !in rest
      modifies cache, cache.bufs
      ensures cache.Valid() && Resting(cache.bufs[..], cache.dirty, rest)
      ensures cache.disk == old(cache.disk)[home := old(cache.disk)[slot]]
      ensures cache.images == old(cache.images) + [cache.disk]
    {
      ghost var bs := cache.bufs[..];
      ghost var dirty := cache.dirty;
      assert forall i :: i in cache.dirty ==> i < NBUF && bs[i].refcnt > 0;
      UnpinnedIsClean(bs, cache.disk, cache.dirty, pins, slot);
      hide Linked, Content, Consistent;
      var lbuf, dbuf := ReadPair(slot, home, pins);
      CopyHome(lbuf, dbuf, recovering);
      assert Installed2(bs, cache.bufs[..], lbuf, slot, dbuf, home);
      InstalledRests(bs, cache.bufs[..], dirty, pins, rest, lbuf, slot, dbuf, home);
    }

    /** write_head: only the first n + 1 words of the header block are overwritten. */
    method WriteHead(ghost pins: seq<int>)
      requires Shape() && Rests(pins)
      modifies cache, cache.bufs
      ensures cache.Valid() && Resting(cache.bufs[..], cache.dirty, pins)
      ensures cache.disk == old(cache.disk)[lay.start := EncodeHead(old(cache.disk)[lay.start], Lh())]
      ensures cache.images == old(cache.images) + [cache.disk]
    {
      hide Linked, Content;
      ghost var bs := cache.bufs[..];
      assert forall i :: i in cache.dirty ==> i < NBUF && bs[i].refcnt > 0;
      FreeBuffer(bs, cache.dirty, pins);
      UnpinnedIsClean(bs, cache.disk, cache.dirty, pins, lay.start);
      var b := cache.Bread(ROOTDEV, lay.start);
      assert b !in cache.dirty && bs[b].refcnt == 0;
      var data := HeadImage(cache.bufs[b].data);
      hide Consistent, Resting;
      Flush(b, data);
      assert Borrowed(bs, cache.bufs[..], b, lay.start, data);
      BorrowedRests(bs, cache.bufs[..], cache.dirty, pins, b, lay.start, data);
    }

    /** Change a locked buffer, bwrite it, brelse it. */
    method Flush(b: nat, w: Block)
      requires cache.Valid() && b < NBUF && b !in cache.dirty
      requires cache.bufs[b].locked && cache.bufs[b].valid && cache.bufs[b].refcnt == 1
      modifies cache, cache.bufs
      ensures cache.Valid() && cache.dirty == old(cache.dirty)
      ensures forall i :: 0 <= i < NBUF && i != b ==> SameCore(cache.bufs[i], old(cache.bufs[i]))
      ensures SameCore(cache.bufs[b], old(cache.bufs[b]).(refcnt := 0, locked := false, data := w))
      ensures cache.disk == old(cache.disk)[old(cache.bufs[b].blockno) := w]
      ensures cache.images == old(cache.images) + [cache.disk]
    {
      hide Linked, Consistent, Unique;
      cache.Store(b, w);
      cache.Bwrite(b);
      cache.Brelse(b);
    }

    /** The loop that fills in the header. */
    method HeadImage(was: Block) returns (data: Block)
      requires n <= LOGSIZE == block.Length
      ensures data == EncodeHead(was, Lh())
    {
      data := was[0 := n];
      var i := 0;
      while i < n
        invariant 0 <= i <= n && |data| == WORDS
        invariant data[0] == n
        invariant forall j :: 0 <= j < i ==> data[1 + j] == block[j]
        invariant forall j :: i < j < WORDS ==> data[j] == was[j]
      {
        data := data[1 + i := block[i]];
        i := i + 1;
      }
      assert data == [n] + block[..n] + was[1 + n..];
    }

    /** read_head. */
    method ReadHead()
      requires Shape() && Rests([])
      modifies this, block, cache, cache.bufs
      ensures cache.Valid() && Resting(cache.bufs[..], cache.dirty, [])
      ensures cache.disk == old(cache.disk) && cache.images == old(cache.images)
      ensures n <= LOGSIZE && Lh() == OnDisk(lay, cache.disk)
    {
      ghost var bs := cache.bufs[..];
      ghost var d := cache.disk;
      UnpinnedIsClean(bs, d, cache.dirty, [], lay.start);
      assert bs[0].refcnt == 0;
      hide Linked, Content;
      var b := cache.Bread(ROOTDEV, lay.start);
      assert b !in cache.dirty && bs[b].refcnt == 0;
      assert cache.bufs[b].data == d[lay.start];
      LoadHead(cache.bufs[b].data);
      hide Consistent;
      cache.Brelse(b);
      BorrowedRests(bs, cache.bufs[..], cache.dirty, [], b, lay.start, cache.bufs[b].data);
    }

    /** The loop of read_head. */
    method LoadHead(data: Block)
      requires HeadInRange(data) && block.Length == LOGSIZE
      modifies `n, block
      ensures n <= LOGSIZE && Lh() == HeadBlocks(data)
    {
      n := data[0];
      var i := 0;
      while i < n
        invariant 0 <= i <= n == data[0]
        invariant forall j :: 0 <= j < i ==> block[j] == data[1 + j]
      {
        block[i] := data[1 + i];
        i := i + 1;
      }
    }

    /** write_log: the log blocks receive the pinned contents; nothing durable changes. */
    method WriteLog()
      requires Shape() && OnDisk(lay, cache.disk) == [] && Rests(Lh())
      modifies cache, cache.bufs
      ensures cache.Valid() && Resting(cache.bufs[..], cache.dirty, Lh())
      ensures |cache.images| == |old(cache.images)| + n && old(cache.images) <= cache.images
      ensures Invisible(lay, old(cache.disk), cache.images, |old(cache.images)|)
      ensures LogFilled(lay, old(cache.disk), cache.disk, Wanted(old(cache.bufs[..]), old(cache.disk), Lh()), n)
    {
      hide Linked, Unique, Consistent, Resting, Filling, Distinct;
      ghost var d0, im, lh := cache.disk, cache.images, Lh();
      ghost var want := Wanted(cache.bufs[..], cache.disk, lh);
      ListInRange(lay, lh);
      assert |cache.disk| == lay.nblocks && cache.bufs.Length == NBUF + 1;
      FillingStart(lay, d0, im, want);
      hide Content, Resting, GoodDisk, GoodList, Filling, BCache.Valid;
      var tail := 0;
      while tail < n
        invariant 0 <= tail <= n && Lh() == lh && cache.Valid()
        invariant Resting(cache.bufs[..], cache.dirty, lh)
        invariant Filling(lay, d0, im, cache.images, cache.disk, want, tail)
        invariant |cache.disk| == lay.nblocks && Wanted(cache.bufs[..], cache.disk, lh) == want
      {
        assert lh[tail] == block[tail] && lay.InLog(lay.start + 1 + tail);
        assert want[tail] == Content(cache.bufs[..], cache.disk, lh[tail]);
        FillingStep(lay, d0, im, cache.images, cache.disk, want, tail);
        ghost var bs, d := cache.bufs[..], cache.disk;
        WriteLogBlock(lay.start + 1 + tail, block[tail], lh);
        SameWanted(bs, cache.bufs[..], d, cache.disk, lh);
        tail := tail + 1;
      }
      FillingEnd(lay, d0, im, cache.images, cache.disk, want, n);
    }

    /** install_trans: each logged block reaches its home location; nothing durable changes. */
    method InstallTrans(recovering: bool)
      requires Shape() && OnDisk(lay, cache.disk) == Lh() && Rests(PinsFrom(recovering, Lh(), 0))
      modifies cache, cache.bufs
      ensures cache.Valid() && Resting(cache.bufs[..], cache.dirty, [])
      ensures |cache.images| == |old(cache.images)| + n && old(cache.images) <= cache.images
      ensures Invisible(lay, old(cache.disk), cache.images, |old(cache.images)|)
      ensures InstalledTo(lay, old(cache.disk), cache.disk, n)
    {
      hide Linked, Unique, Consistent, Resting, Installing, Distinct;
      ghost var d0, im, lh := cache.disk, cache.images, Lh();
      ListInRange(lay, lh);
      assert |cache.disk| == lay.nblocks && cache.bufs.Length == NBUF + 1 && (recovering || |lh| < NBUF);
      InstallingStart(lay, d0, im);
      hide Content, Distinct, PinsFrom, Resting, GoodDisk, GoodList, OnDisk, Installing, BCache.Valid;
      var tail := 0;
      while tail < n
        invariant 0 <= tail <= n && Lh() == lh && cache.Valid()
        invariant Resting(cache.bufs[..], cache.dirty, PinsFrom(recovering, lh, tail))
        invariant Installing(lay, d0, im, cache.images, cache.disk, tail)
      {
        assert lh[tail] == block[tail];
        NextPin(lay, recovering, lh, tail);
        InstallingStep(lay, d0, im, cache.images, cache.disk, lh, tail);
        InstallBlock(lay.start + 1 + tail, block[tail], recovering,
                     PinsFrom(recovering, lh, tail), PinsFrom(recovering, lh, tail + 1));
        tail := tail + 1;
      }
      assert PinsFrom(recovering, lh, n) == [] by { NoPin(recovering, lh); }
      InstallingEnd(lay, d0, im, cache.images, cache.disk, n);
    }

    /** commit.  The images before the header write have the old durable contents; from the header
        write on they have exactly what readers saw when commit began. */
    method Commit()
      requires Shape() && OnDisk(lay, cache.disk) == [] && Rests(Lh())
      modifies this, cache, cache.bufs
      ensures Shape() && n == 0 && OnDisk(lay, cache.disk) == [] && Resting(cache.bufs[..], cache.dirty, [])
      ensures old(cache.images) <= cache.images
      ensures |cache.images| == |old(cache.images)| + if old(n) == 0 then 0 else 2 * old(n) + 2
      ensures Invisible(lay, old(cache.disk), cache.images[..|old(cache.images)| + old(n)], |old(cache.images)|)
      ensures forall k :: |old(cache.images)| + old(n) <= k < |cache.images| ==>
        && GoodDisk(lay, cache.images[k])
        && DurableIs(lay, cache.images[k], old(cache.bufs[..]), old(cache.disk))
      ensures forall x :: lay.Home(x) ==> cache.disk[x] == old(Content(cache.bufs[..], cache.disk, x))
    {
      hide Linked, Unique, Consistent, Resting, EncodeHead, Content, SameDurable;
      ghost var bs, d0, dirty, lh := cache.bufs[..], cache.disk, cache.dirty, Lh();
      if n > 0 {
        WriteLog();
        ghost var d1, im1 := cache.disk, cache.images;
        assert Rests(lh) && Shape();
        WriteHead(lh);
        ghost var d2, im2 := cache.disk, cache.images;
        HeaderCommits(lay, bs, d0, d1, dirty, lh);
        assert Shape() && Rests(PinsFrom(false, lh, 0));
        InstallTrans(false);
        ghost var d3, im3 := cache.disk, cache.images;
        n := 0;
        assert Shape() && Rests([]);
        WriteHead([]);
        ClearsHeader(lay, d2, d3);
        CommitImages(lay, bs, d0, d2, im1, im2, im3, cache.images);
        assert cache.images[..|im1|] == im1;
      } else {
        assert lh == [];
        forall x | lay.Home(x) ensures d0[x] == Content(bs, d0, x) {
          UnpinnedIsClean(bs, d0, dirty, lh, x);
        }
      }
    }

    /** recover_from_log: wherever it is cut short, the durable contents stay what they were; when it
        is done, they are in the home blocks and the header is empty. */
    method RecoverFromLog()
      requires Shape() && Rests([])
      modifies this, block, cache, cache.bufs
      ensures Shape() && n == 0 && OnDisk(lay, cache.disk) == [] && Resting(cache.bufs[..], cache.dirty, [])
      ensures old(cache.images) <= cache.images
      ensures Invisible(lay, old(cache.disk), cache.images, |old(cache.images)|)
      ensures forall x :: lay.Home(x) ==> cache.disk[x] == Durable(lay, old(cache.disk), x)
    {
      ghost var d0, im := cache.disk, cache.images;
      ReadHead();
      assert Shape() && Rests(PinsFrom(true, Lh(), 0));
      InstallTrans(true);
      ghost var d1 := cache.disk;
      n := 0;
      assert Shape() && Rests([]);
      WriteHead([]);
      ClearsHeader(lay, d0, d1);
    }

    /** log_write: absorb the block or append and pin it.  `ok` is false where the source panics, on a full log, which it
        tests before it searches for the block, or outside an operation. */
    method LogWrite(b: nat, outstanding: nat) returns (ok: bool)
      requires Shape() && GoodList(lay, Lh()) && b < NBUF
      requires cache.bufs[b].locked && cache.bufs[b].valid && lay.Home(cache.bufs[b].blockno)
      modifies this, block, cache.bufs
      ensures block.Length == LOGSIZE && n <= LOGSIZE && cache.Valid()
      ensures ok <==> old(n) < LOGSIZE && old(n) < lay.size - 1 && outstanding >= 1
      ensures !ok ==> Lh() == old(Lh()) && cache.bufs[..] == old(cache.bufs[..])
      ensures ok ==> GoodList(lay, Lh())
      ensures ok && old(cache.bufs[b].blockno in Lh()) ==>
        Lh() == old(Lh()) && cache.bufs[..] == old(cache.bufs[..])
      ensures ok && old(cache.bufs[b].blockno !in Lh()) ==>
        && Lh() == old(Lh()) + [old(cache.bufs[b].blockno)]
        && cache.bufs[b] == old(cache.bufs[b]).(refcnt := old(cache.bufs[b].refcnt) + 1)
        && forall i :: 0 <= i <= NBUF && i != b ==> cache.bufs[i] == old(cache.bufs[i])
    {
      if n >= LOGSIZE || n >= lay.size - 1 {
        return false;
      }
      if outstanding < 1 {
        return false;
      }
      ok := true;
      ghost var lh := Lh();
      var blockno := cache.bufs[b].blockno;
      var i := 0;
      while i < n && block[i] != blockno
        invariant 0 <= i <= n
        invariant blockno !in block[..i]
      {
        i := i + 1;
      }
      block[i] := blockno;
      if i == n {
        cache.Bpin(b);
        n := n + 1;
        assert Lh() == lh + [blockno];
      } else {
        assert Lh() == lh && blockno in lh;
      }
    }
  }

  /** Recovery from d would produce what a reader sees through the cache bs over d0. */
  ghost predicate DurableIs(lay: Layout, d: Disk, bs: seq<Buf>, d0: Disk)
    requires GoodDisk(lay, d) && |bs| == NBUF + 1 && |d0| == lay.nblocks
  {
    forall x :: lay.Home(x) ==> Durable(lay, d, x) == Content(bs, d0, x)
  }

  /** Writing the header over a filled log makes the readers' view durable. */
  lemma HeaderCommits(lay: Layout, bs: seq<Buf>, d0: Disk, d1: Disk, dirty: set<nat>, lh: seq<int>)
    requires GoodDisk(lay, d0) && |bs| == NBUF + 1 && Consistent(bs, d0, dirty) && Resting(bs, dirty, lh)
    requires GoodList(lay, lh) && LogFilled(lay, d0, d1, Wanted(bs, d0, lh), |lh|)
    ensures var d2 := d1[lay.start := EncodeHead(d1[lay.start], lh)];
      GoodDisk(lay, d2) && OnDisk(lay, d2) == lh && DurableIs(lay, d2, bs, d0)
  {
    hide Durable, Content, Resting, Consistent, SameDurable;
    var h := EncodeHead(d1[lay.start], lh);
    HeaderWriteCommits(lay, d1, h);
    hide GoodDisk, EncodeHead;
    forall x | lay.Home(x) ensures Durable(lay, d1[lay.start := h], x) == Content(bs, d0, x) {
      if x in lh {
        var j := SlotOf(lh, x);
        assert d1[lay.start + 1 + j] == Wanted(bs, d0, lh)[j];
      } else {
        UnpinnedIsClean(bs, d0, dirty, lh, x);
      }
    }
  }

  lemma ClearsHeader(lay: Layout, d2: Disk, d3: Disk)
    requires GoodDisk(lay, d2) && InstalledTo(lay, d2, d3, |OnDisk(lay, d2)|)
    ensures var d4 := d3[lay.start := EncodeHead(d3[lay.start], [])];
      && GoodDisk(lay, d4) && OnDisk(lay, d4) == [] && SameDurable(lay, d2, d4)
      && forall x :: lay.Home(x) ==> d4[x] == Durable(lay, d2, x)
  {
  }

  lemma CommitImages(lay: Layout, bs: seq<Buf>, d0: Disk, d2: Disk,
                     im1: seq<Disk>, im2: seq<Disk>, im3: seq<Disk>, im4: seq<Disk>)
    requires GoodDisk(lay, d2) && |bs| == NBUF + 1 && |d0| == lay.nblocks && DurableIs(lay, d2, bs, d0)
    requires im2 == im1 + [d2] && im2 <= im3 && Invisible(lay, d2, im3, |im2|) && |im4| == |im3| + 1 && im3 <= im4
    requires GoodDisk(lay, im4[|im3|]) && SameDurable(lay, d2, im4[|im3|])
    ensures forall k :: |im1| <= k < |im4| ==> GoodDisk(lay, im4[k]) && DurableIs(lay, im4[k], bs, d0)
  {
  }

  /** The blocks still pinned when k have been installed: none during recovery. */
  ghost function PinsFrom(recovering: bool, lh: seq<int>, k: nat): (pins: seq<int>)
    requires k <= |lh|
  {
    if recovering then [] else lh[k..]
  }

  lemma NextPin(lay: Layout, recovering: bool, lh: seq<int>, k: nat)
    requires lay.Valid() && GoodList(lay, lh) && k < |lh| && (recovering || |lh| < NBUF)
    ensures 0 <= lh[k] < lay.nblocks && lay.start + 1 + k < lay.nblocks && lay.start + 1 + k != lh[k]
    ensures lay.start + 1 + k !in PinsFrom(recovering, lh, k) && |PinsFrom(recovering, lh, k)| < NBUF
    ensures if recovering then PinsFrom(recovering, lh, k) == PinsFrom(recovering, lh, k + 1) == []
      else PinsFrom(recovering, lh, k) == [lh[k]] + PinsFrom(recovering, lh, k + 1) && lh[k] !in PinsFrom(recovering, lh, k + 1)
  {
  }

  lemma NoPin(recovering: bool, lh: seq<int>)
    ensures PinsFrom(recovering, lh, |lh|) == []
  {
  }

  /** From image d0, the first k logged blocks have reached home; header and log are as they were. */
  ghost predicate InstalledTo(lay: Layout, d0: Disk, d: Disk, k: nat)
    requires GoodDisk(lay, d0)
  {
    && k <= |OnDisk(lay, d0)|
    && GoodDisk(lay, d) && OnDisk(lay, d) == OnDisk(lay, d0) && SameDurable(lay, d0, d)
    && (forall j :: 0 <= j < k ==> d[OnDisk(lay, d0)[j]] == d[lay.start + 1 + j])
  }

  /** install_trans after k rounds: the images so far, and the disk. */
  ghost predicate Installing(lay: Layout, d0: Disk, im: seq<Disk>, images: seq<Disk>, d: Disk, k: nat)
    requires GoodDisk(lay, d0)
  {
    && |images| == |im| + k && im <= images
    && Invisible(lay, d0, images, |im|) && InstalledTo(lay, d0, d, k)
  }

  lemma InstallingStart(lay: Layout, d0: Disk, im: seq<Disk>)
    requires GoodDisk(lay, d0)
    ensures Installing(lay, d0, im, im, d0, 0)
  {
  }

  lemma InstallingStep(lay: Layout, d0: Disk, im: seq<Disk>, images: seq<Disk>, d: Disk, lh: seq<int>, k: nat)
    requires GoodDisk(lay, d0) && Installing(lay, d0, im, images, d, k) && lh == OnDisk(lay, d0) && k < |lh|
    ensures |d| == lay.nblocks && 0 <= lh[k] < |d| && lay.start + 1 + k < |d|
    ensures var d' := d[lh[k] := d[lay.start + 1 + k]];
      Installing(lay, d0, im, images + [d'], d', k + 1)
  {
    InstalledToStep(lay, d0, d, k);
  }

  lemma InstallingEnd(lay: Layout, d0: Disk, im: seq<Disk>, images: seq<Disk>, d: Disk, k: nat)
    requires GoodDisk(lay, d0) && Installing(lay, d0, im, images, d, k)
    ensures |images| == |im| + k && im <= images && Invisible(lay, d0, images, |im|) && InstalledTo(lay, d0, d, k)
  {
  }

  lemma InstalledToStep(lay: Layout, d0: Disk, d: Disk, k: nat)
    requires GoodDisk(lay, d0) && InstalledTo(lay, d0, d, k) && k < |OnDisk(lay, d0)|
    ensures lay.start + 1 + k < |d| == lay.nblocks && 0 <= OnDisk(lay, d0)[k] < |d|
    ensures InstalledTo(lay, d0, d[OnDisk(lay, d0)[k] := d[lay.start + 1 + k]], k + 1)
    ensures GoodDisk(lay, d[OnDisk(lay, d0)[k] := d[lay.start + 1 + k]])
    ensures SameDurable(lay, d0, d[OnDisk(lay, d0)[k] := d[lay.start + 1 + k]])
  {
    var bs := OnDisk(lay, d0);
    InstallNext(lay, d, bs, k);
    InstallInvisible(lay, d, k);
    SameDurableTransitive(lay, d0, d, d[bs[k] := d[lay.start + 1 + k]]);
  }

  /** Every image since number k has the durable contents of d. */
  ghost predicate Invisible(lay: Layout, d: Disk, images: seq<Disk>, k: nat)
    requires GoodDisk(lay, d)
  {
    forall i :: k <= i < |images| ==> GoodDisk(lay, images[i]) && SameDurable(lay, d, images[i])
  }

  /** Block numbers of a header are within the disk and outside the log. */
  lemma ListInRange(lay: Layout, lh: seq<int>)
    requires lay.Valid() && GoodList(lay, lh)
    ensures forall j :: 0 <= j < |lh| ==> 0 <= lh[j] < lay.nblocks
    ensures forall b :: lay.InLog(b) ==> b !in lh && 0 <= b < lay.nblocks
    ensures |lh| <= lay.size - 1
  {
  }

  /** From image d0, the first k log blocks have been filled and nothing else has changed. */
  ghost predicate LogFilled(lay: Layout, d0: Disk, d: Disk, want: seq<Block>, k: nat)
    requires GoodDisk(lay, d0)
  {
    && k <= |want| <= lay.size - 1
    && GoodDisk(lay, d) && OnDisk(lay, d) == [] && SameDurable(lay, d0, d)
    && (forall j :: 0 <= j < k ==> d[lay.start + 1 + j] == want[j])
    && (forall x :: lay.Home(x) ==> d[x] == d0[x])
  }

  /** write_log after k rounds: the images so far, and the disk. */
  ghost predicate Filling(lay: Layout, d0: Disk, im: seq<Disk>, images: seq<Disk>, d: Disk, want: seq<Block>, k: nat)
    requires GoodDisk(lay, d0)
  {
    && |images| == |im| + k && im <= images
    && Invisible(lay, d0, images, |im|) && LogFilled(lay, d0, d, want, k)
  }

  lemma FillingStart(lay: Layout, d0: Disk, im: seq<Disk>, want: seq<Block>)
    requires GoodDisk(lay, d0) && OnDisk(lay, d0) == [] && |want| <= lay.size - 1
    ensures Filling(lay, d0, im, im, d0, want, 0)
  {
  }

  lemma FillingStep(lay: Layout, d0: Disk, im: seq<Disk>, images: seq<Disk>, d: Disk, want: seq<Block>, k: nat)
    requires GoodDisk(lay, d0) && Filling(lay, d0, im, images, d, want, k) && k < |want|
    ensures |d| == lay.nblocks && lay.start + 1 + k < |d|
    ensures var d' := d[lay.start + 1 + k := want[k]];
      Filling(lay, d0, im, images + [d'], d', want, k + 1)
  {
  }

  lemma FillingEnd(lay: Layout, d0: Disk, im: seq<Disk>, images: seq<Disk>, d: Disk, want: seq<Block>, k: nat)
    requires GoodDisk(lay, d0) && Filling(lay, d0, im, images, d, want, k)
    ensures |images| == |im| + k && im <= images && Invisible(lay, d0, images, |im|) && LogFilled(lay, d0, d, want, k)
  {
  }

  /** The contents to be logged. */
  ghost function Wanted(bs: seq<Buf>, d: Disk, lh: seq<int>): (ws: seq<Block>)
    requires |bs| == NBUF + 1 && forall j :: 0 <= j < |lh| ==> 0 <= lh[j] < |d|
  {
    seq(|lh|, j requires 0 <= j < |lh| => Content(bs, d, lh[j]))
  }

  lemma SameWanted(bs: seq<Buf>, bs': seq<Buf>, d: Disk, d': Disk, lh: seq<int>)
    requires |bs| == |bs'| == NBUF + 1 && |d| == |d'| && forall j :: 0 <= j < |lh| ==> 0 <= lh[j] < |d|
    requires forall y :: y in lh && 0 <= y < |d| ==> Content(bs', d', y) == Content(bs, d, y)
    ensures Wanted(bs', d', lh) == Wanted(bs, d, lh)
  {
  }

  lemma SameDurableTransitive(lay: Layout, d0: Disk, d1: Disk, d2: Disk)
    requires GoodDisk(lay, d0) && GoodDisk(lay, d1) && GoodDisk(lay, d2)
    requires SameDurable(lay, d0, d1) && SameDurable(lay, d1, d2)
    ensures SameDurable(lay, d0, d2)
  {
  }
}
