/** The buffer cache of kernel/bio.c: a fixed array of buffers threaded on a doubly linked list in
    order of recent use.  Pointers are indices into the array; index HEAD is `bcache.head`. */
module Bio {
  import opened DiskLog

  const HEAD: nat := NBUF
  const ROOTDEV: nat := 1

  datatype Buf = Buf(valid: bool, dev: nat, blockno: int, refcnt: nat, prev: nat, next: nat,
                     data: Block, locked: bool)

  // ---------------------------------------------------------------------------------------------
  // The list
  // ---------------------------------------------------------------------------------------------

  /** The k-th buffer of the list, with the head at both ends. */
  function At(order: seq<nat>, k: int): (b: nat) {
    if 0 <= k < |order| then order[k] else HEAD
  }

  ghost predicate Buffers(order: seq<nat>) {
    && (forall i :: 0 <= i < |order| ==> order[i] < NBUF)
    && (forall i, j :: 0 <= i < j < |order| ==> order[i] != order[j])
  }

  /** A walk over all buffers sees every one. */
  lemma NoneHolds(bs: seq<Buf>, order: seq<nat>, dev: nat, blockno: int)
    requires |bs| >= NBUF && Buffers(order) && forall b :: 0 <= b < NBUF ==> b in order
    requires forall j :: 0 <= j < |order| ==> !Holds(bs[order[j]], dev, blockno)
    ensures forall i :: 0 <= i < NBUF ==> !Holds(bs[i], dev, blockno)
  {
    forall i | 0 <= i < NBUF ensures !Holds(bs[i], dev, blockno) {
      assert i in order;
    }
  }

  /** `next` walks `order` forwards from the head and `prev` walks it backwards. */
  ghost predicate Linked(bs: seq<Buf>, order: seq<nat>) {
    && |bs| == NBUF + 1 && Buffers(order)
    && bs[HEAD].next == At(order, 0)
    && bs[HEAD].prev == At(order, |order| - 1)
    && (forall k {:trigger bs[order[k]]} :: 0 <= k < |order| ==>
          bs[order[k]].next == At(order, k + 1) && bs[order[k]].prev == At(order, k - 1))
  }

  lemma Ends(bs: seq<Buf>, order: seq<nat>)
    requires Linked(bs, order)
    ensures |bs| == NBUF + 1 && Buffers(order) && bs[HEAD].next == At(order, 0) && bs[HEAD].prev == At(order, |order| - 1)
  {
  }

  lemma Neighbours(bs: seq<Buf>, order: seq<nat>, k: nat)
    requires Linked(bs, order) && k < |order|
    ensures |bs| == NBUF + 1 && order[k] < NBUF
    ensures bs[order[k]].next == At(order, k + 1) && bs[order[k]].prev == At(order, k - 1)
  {
  }

  /** The assignments with which brelse takes b out of the list. */
  function Unlink(bs: seq<Buf>, b: nat): (r: seq<Buf>)
    requires b < |bs| && bs[b].next < |bs| && bs[b].prev < |bs|
  {
    var s1 := bs[bs[b].next := bs[bs[b].next].(prev := bs[b].prev)];
    s1[s1[b].prev := s1[s1[b].prev].(next := s1[b].next)]
  }

  /** The assignments with which binit and brelse put b at the front. */
  function PushFront(bs: seq<Buf>, b: nat): (r: seq<Buf>)
    requires |bs| == NBUF + 1 && b < NBUF && bs[HEAD].next < |bs|
  {
    var s1 := bs[b := bs[b].(next := bs[HEAD].next, prev := HEAD)];
    var s2 := s1[s1[HEAD].next := s1[s1[HEAD].next].(prev := b)];
    s2[HEAD := s2[HEAD].(next := b)]
  }

  /** Equal in everything but the links. */
  predicate SameCore(x: Buf, y: Buf) {
    x == y.(prev := x.prev, next := x.next)
  }

  ghost predicate SameCores(bs: seq<Buf>, bs': seq<Buf>) {
    |bs| == |bs'| && forall i :: 0 <= i < |bs| ==> SameCore(bs[i], bs'[i])
  }

  lemma UnlinkAt(bs: seq<Buf>, b: nat)
    requires |bs| == NBUF + 1 && b < NBUF && bs[b].next <= HEAD && bs[b].prev <= HEAD
    requires bs[b].next != b && bs[b].prev != b
    ensures SameCores(bs, Unlink(bs, b))
    ensures forall x :: 0 <= x <= HEAD ==>
      && Unlink(bs, b)[x].next == (if x == bs[b].prev then bs[b].next else bs[x].next)
      && Unlink(bs, b)[x].prev == (if x == bs[b].next then bs[b].prev else bs[x].prev)
  {
  }

  lemma RemoveBuffers(order: seq<nat>, i: nat)
    requires Buffers(order) && i < |order|
    ensures Buffers(order[..i] + order[i + 1..]) && order[i] !in order[..i] + order[i + 1..]
  {
  }

  lemma UnlinkLinks(bs: seq<Buf>, order: seq<nat>, i: nat)
    requires Linked(bs, order) && i < |order|
    ensures bs[order[i]].next <= HEAD && bs[order[i]].prev <= HEAD
    ensures Linked(Unlink(bs, order[i]), order[..i] + order[i + 1..])
    ensures SameCores(bs, Unlink(bs, order[i]))
  {
    var b := order[i];
    UnlinkAt(bs, b);
    RemoveBuffers(order, i);
    var r := Unlink(bs, b);
    var o := order[..i] + order[i + 1..];
    assert |o| == |order| - 1;
    assert r[HEAD].next == At(o, 0);
    assert r[HEAD].prev == At(o, |o| - 1);
    hide Unlink, Buffers, At;
    forall k | 0 <= k < |o|
      ensures r[o[k]].next == At(o, k + 1) && r[o[k]].prev == At(o, k - 1)
    {
      UnlinkStep(bs, order, i, r, o, k);
    }
  }

  lemma UnlinkStep(bs: seq<Buf>, order: seq<nat>, i: nat, r: seq<Buf>, o: seq<nat>, k: int)
    requires Linked(bs, order) && i < |order| && |r| == |bs| && 0 <= k < |o|
    requires Buffers(o) && o == order[..i] + order[i + 1..]
    requires forall x :: 0 <= x <= HEAD ==>
      && r[x].next == (if x == bs[order[i]].prev then bs[order[i]].next else bs[x].next)
      && r[x].prev == (if x == bs[order[i]].next then bs[order[i]].prev else bs[x].prev)
    ensures r[o[k]].next == At(o, k + 1) && r[o[k]].prev == At(o, k - 1)
  {
  }

  lemma PushAt(bs: seq<Buf>, b: nat)
    requires |bs| == NBUF + 1 && b < NBUF && bs[HEAD].next <= HEAD && bs[HEAD].next != b
    ensures SameCores(bs, PushFront(bs, b))
    ensures PushFront(bs, b)[b].next == bs[HEAD].next && PushFront(bs, b)[b].prev == HEAD
    ensures forall x :: 0 <= x <= HEAD && x != b ==>
      && PushFront(bs, b)[x].next == (if x == HEAD then b else bs[x].next)
      && PushFront(bs, b)[x].prev == (if x == bs[HEAD].next then b else bs[x].prev)
  {
  }

  lemma PushLinks(bs: seq<Buf>, order: seq<nat>, b: nat)
    requires Linked(bs, order) && b < NBUF && b !in order
    ensures bs[HEAD].next <= HEAD
    ensures Linked(PushFront(bs, b), [b] + order)
    ensures SameCores(bs, PushFront(bs, b))
  {
    PushAt(bs, b);
    var r := PushFront(bs, b);
    var o := [b] + order;
    PushBuffers(order, b);
    assert r[HEAD].next == At(o, 0);
    assert r[HEAD].prev == At(o, |o| - 1);
    hide PushFront, Buffers, At;
    forall k | 0 <= k < |o|
      ensures r[o[k]].next == At(o, k + 1) && r[o[k]].prev == At(o, k - 1)
    {
      PushStep(bs, order, b, r, o, k);
    }
  }

  lemma PushBuffers(order: seq<nat>, b: nat)
    requires Buffers(order) && b < NBUF && b !in order
    ensures Buffers([b] + order)
  {
  }

  lemma PushStep(bs: seq<Buf>, order: seq<nat>, b: nat, r: seq<Buf>, o: seq<nat>, k: int)
    requires Linked(bs, order) && b < NBUF && b !in order && |r| == |bs| && 0 <= k < |o|
    requires Buffers(o) && o == [b] + order
    requires r[b].next == bs[HEAD].next && r[b].prev == HEAD
    requires forall x :: 0 <= x <= HEAD && x != b ==>
      && r[x].next == (if x == HEAD then b else bs[x].next)
      && r[x].prev == (if x == bs[HEAD].next then b else bs[x].prev)
    ensures r[o[k]].next == At(o, k + 1) && r[o[k]].prev == At(o, k - 1)
  {
  }

  /** The order of use after b has been released. */
  function MoveToFront(order: seq<nat>, i: nat): (r: seq<nat>)
    requires i < |order|
  {
    [order[i]] + (order[..i] + order[i + 1..])
  }

  lemma MoveToFrontPermutes(order: seq<nat>, i: nat)
    requires i < |order|
    ensures multiset(MoveToFront(order, i)) == multiset(order)
  {
    assert order == order[..i] + [order[i]] + order[i + 1..];
  }

  // ---------------------------------------------------------------------------------------------
  // The cache
  // ---------------------------------------------------------------------------------------------

  ghost predicate Holds(b: Buf, dev: nat, blockno: int) {
    b.dev == dev && b.blockno == blockno
  }

  /** At most one buffer per block.  The zeroed buffers all carry device 0, so that device is out. */
  ghost predicate Unique(bs: seq<Buf>)
    requires |bs| == NBUF + 1
  {
    forall i, j :: 0 <= i < NBUF && 0 <= j < NBUF && i != j && bs[i].dev != 0 ==>
      !Holds(bs[j], bs[i].dev, bs[i].blockno)
  }

  ghost predicate InUse(bs: seq<Buf>, i: nat, blockno: int)
    requires |bs| == NBUF + 1
  {
    i < NBUF && bs[i].valid && Holds(bs[i], ROOTDEV, blockno)
  }

  /** The contents of a block as a reader sees them: the buffer if there is one, else the disk. */
  ghost function Content(bs: seq<Buf>, d: Disk, x: int): (w: Block)
    requires |bs| == NBUF + 1 && 0 <= x < |d|
  {
    if i: nat :| InUse(bs, i, x) then bs[i].data else d[x]
  }

  lemma ContentIs(bs: seq<Buf>, d: Disk, i: nat)
    requires |bs| == NBUF + 1 && Unique(bs) && i < NBUF && bs[i].valid && bs[i].dev == ROOTDEV
    requires 0 <= bs[i].blockno < |d|
    ensures Content(bs, d, bs[i].blockno) == bs[i].data
  {
    assert InUse(bs, i, bs[i].blockno);
  }

  /** Buffers that are locked or changed are referenced; all others are true copies of the disk. */
  ghost predicate Consistent(bs: seq<Buf>, d: Disk, dirty: set<nat>)
    requires |bs| == NBUF + 1
  {
    && (forall i :: 0 <= i < NBUF && bs[i].locked ==> bs[i].refcnt > 0)
    && (forall i :: i in dirty ==> i < NBUF && bs[i].valid && bs[i].refcnt > 0)
    && (forall i :: 0 <= i < NBUF && bs[i].valid ==>
          && bs[i].dev == ROOTDEV && 0 <= bs[i].blockno < |d|
          && (i !in dirty ==> bs[i].data == d[bs[i].blockno]))
  }

  lemma CoresKeep(bs: seq<Buf>, bs': seq<Buf>, d: Disk, dirty: set<nat>)
    requires SameCores(bs, bs') && |bs| == NBUF + 1 && Consistent(bs, d, dirty) && Unique(bs)
    ensures Consistent(bs', d, dirty) && Unique(bs')
  {
  }

  class BCache {
    const bufs: array<Buf>
    var disk: Disk
    ghost var order: seq<nat>
    ghost var dirty: set<nat>
    ghost var images: seq<Disk>

    ghost predicate Listed()
      reads this, bufs
    {
      bufs.Length == NBUF + 1 && Linked(bufs[..], order) && forall b :: 0 <= b < NBUF ==> b in order
    }

    ghost predicate Valid()
      reads this, bufs
    {
      && Listed() && Unique(bufs[..])
      && Consistent(bufs[..], disk, dirty)
      && images != [] && images[|images| - 1] == disk
    }

    /** binit: every buffer is put at the front in turn. */
    constructor (d: Disk)
      ensures Valid() && fresh(bufs)
      ensures disk == d && images == [d] && dirty == {}
      ensures forall i :: 0 <= i < NBUF ==> bufs[i].refcnt == 0 && bufs[i].dev == 0 && !bufs[i].valid
    {
      var zero: Block := seq(WORDS, _ => 0);
      disk := d;
      bufs := new Buf[NBUF + 1](_ => Buf(false, 0, 0, 0, HEAD, HEAD, zero, false));
      order := [];
      dirty := {};
      images := [d];
      new;
      var b := 0;
      hide At;
      while b < NBUF
        invariant 0 <= b <= NBUF && |order| == b
        invariant Linked(bufs[..], order)
        invariant forall i :: 0 <= i < b ==> i in order
        invariant forall i :: 0 <= i < |order| ==> order[i] < b
        invariant forall i :: 0 <= i < NBUF ==>
          bufs[i].refcnt == 0 && bufs[i].dev == 0 && !bufs[i].valid && !bufs[i].locked
        invariant disk == d && images == [d] && dirty == {} && fresh(bufs)
      {
        ghost var was := bufs[..];
        PushLinks(was, order, b);
        Attach(b);
        assert forall i :: 0 <= i < NBUF ==> SameCore(was[i], bufs[..][i]);
        order := [b] + order;
        b := b + 1;
      }
    }

    method Attach(b: nat)
      requires bufs.Length == NBUF + 1 && b < NBUF && bufs[HEAD].next <= HEAD
      modifies bufs
      ensures bufs[..] == PushFront(old(bufs[..]), b)
    {
      bufs[b] := bufs[b].(next := bufs[HEAD].next);
      bufs[b] := bufs[b].(prev := HEAD);
      bufs[bufs[HEAD].next] := bufs[bufs[HEAD].next].(prev := b);
      bufs[HEAD] := bufs[HEAD].(next := b);
    }

    method Detach(b: nat)
      requires bufs.Length == NBUF + 1 && b < NBUF && bufs[b].next <= HEAD && bufs[b].prev <= HEAD
      requires bufs[b].next != b
      modifies bufs
      ensures bufs[..] == Unlink(old(bufs[..]), b)
    {
      bufs[bufs[b].next] := bufs[bufs[b].next].(prev := bufs[b].prev);
      bufs[bufs[b].prev] := bufs[bufs[b].prev].(next := bufs[b].next);
    }

    /** brelse's list surgery. */
    method ToFront(b: nat, ghost k: nat)
      requires Listed() && k < |order| && order[k] == b
      modifies bufs, `order
      ensures Listed() && SameCores(old(bufs[..]), bufs[..])
      ensures order == MoveToFront(old(order), k) && multiset(order) == multiset(old(order))
    {
      ghost var was := bufs[..];
      ghost var rest := order[..k] + order[k + 1..];
      UnlinkLinks(was, order, k);
      RemoveBuffers(order, k);
      MoveToFrontPermutes(order, k);
      MoveToFrontMembers(order, k);
      hide Buffers;
      Detach(b);
      ghost var out := bufs[..];
      PushLinks(out, rest, b);
      Attach(b);
      order := MoveToFront(order, k);
      CoresTransitive(was, out, bufs[..]);
    }

    /** The first loop of bget: the first buffer in list order that holds the block, or HEAD. */
    method FindCached(dev: nat, blockno: int) returns (b: nat)
      requires Listed()
      ensures b <= HEAD
      ensures b < HEAD ==> Holds(bufs[b], dev, blockno)
      ensures b == HEAD ==> forall i :: 0 <= i < NBUF ==> !Holds(bufs[i], dev, blockno)
    {
      hide Linked;
      ghost var k := 0;
      Ends(bufs[..], order);
      b := bufs[HEAD].next;
      while b != HEAD
        invariant 0 <= k <= |order| && b == At(order, k)
        invariant forall j :: 0 <= j < k ==> !Holds(bufs[order[j]], dev, blockno)
        decreases |order| - k
      {
        Neighbours(bufs[..], order, k);
        if bufs[b].dev == dev && bufs[b].blockno == blockno {
          return;
        }
        b := bufs[b].next;
        k := k + 1;
      }
      NoneHolds(bufs[..], order, dev, blockno);
    }

    /** The second loop of bget: the free buffer that was released longest ago, or HEAD. */
    method FindFree() returns (b: nat)
      requires Listed()
      ensures b <= HEAD
      ensures b < HEAD ==> bufs[b].refcnt == 0 && exists k :: LeastRecent(k, b)
      ensures b == HEAD ==> forall i :: 0 <= i < NBUF ==> bufs[i].refcnt > 0
    {
      hide Linked;
      ghost var k := |order| - 1;
      Ends(bufs[..], order);
      b := bufs[HEAD].prev;
      while b != HEAD
        invariant -1 <= k < |order| && b == At(order, k)
        invariant BusyAfter(k)
        decreases k + 1
      {
        Neighbours(bufs[..], order, k);
        if bufs[b].refcnt == 0 {
          assert LeastRecent(k, b);
          return;
        }
        b := bufs[b].prev;
        k := k - 1;
      }
      forall i | 0 <= i < NBUF ensures bufs[i].refcnt > 0 {
        assert i in order;
      }
    }

    /** b is at position k of the list and every buffer behind it is in use. */
    ghost predicate LeastRecent(k: int, b: nat)
      requires Listed()
      reads this, bufs
    {
      0 <= k < |order| && order[k] == b && BusyAfter(k)
    }

    ghost predicate BusyAfter(k: int)
      requires Listed()
      reads this, bufs
    {
      forall j {:trigger bufs[order[j]]} :: 0 <= j < |order| && k < j ==> bufs[order[j]].refcnt > 0
    }

    /** bget: a buffer that holds the block, else the least recently used free buffer re-labelled;
        -1 stands for the panic "bget: no buffers". */
    method Bget(dev: nat, blockno: int) returns (b: int)
      requires Valid()
      requires forall i :: 0 <= i < NBUF && Holds(bufs[i], dev, blockno) ==> !bufs[i].locked
      modifies bufs
      ensures -1 <= b < NBUF && Listed() && Unique(bufs[..])
      ensures forall i :: 0 <= i <= NBUF && i != b ==> bufs[i] == old(bufs[i])
      ensures b == -1 <==>
        forall i :: 0 <= i < NBUF ==> old(!Holds(bufs[i], dev, blockno) && bufs[i].refcnt > 0)
      ensures b >= 0 && old(Holds(bufs[b], dev, blockno)) ==>
        bufs[b] == old(bufs[b]).(refcnt := old(bufs[b].refcnt) + 1, locked := true)
      ensures b >= 0 && old(!Holds(bufs[b], dev, blockno)) ==>
        && (forall i :: 0 <= i < NBUF ==> old(!Holds(bufs[i], dev, blockno)))
        && old(bufs[b].refcnt) == 0 && old(exists k :: LeastRecent(k, b))
        && bufs[b] == old(bufs[b]).(dev := dev, blockno := blockno, valid := false, refcnt := 1, locked := true)
    {
      hide Linked;
      ghost var was := bufs[..];
      b := FindCached(dev, blockno);
      if b != HEAD {
        bufs[b] := bufs[b].(refcnt := bufs[b].refcnt + 1);
        bufs[b] := bufs[b].(locked := true);
        SameLinks(was, bufs[..], order);
        return;
      }
      b := FindFree();
      if b != HEAD {
        bufs[b] := bufs[b].(dev := dev);
        bufs[b] := bufs[b].(blockno := blockno);
        bufs[b] := bufs[b].(valid := false);
        bufs[b] := bufs[b].(refcnt := 1);
        bufs[b] := bufs[b].(locked := true);
        SameLinks(was, bufs[..], order);
        return;
      }
      b := -1;
    }

    /** bread: a locked buffer with the block's contents.  Only the one disk is ever passed. */
    method Bread(dev: nat, blockno: int) returns (b: int)
      requires Valid() && dev == ROOTDEV && 0 <= blockno < |disk|
      requires forall i :: 0 <= i < NBUF && Holds(bufs[i], dev, blockno) ==> !bufs[i].locked
      modifies bufs
      ensures Valid() && -1 <= b < NBUF
      ensures forall i :: 0 <= i <= NBUF && i != b ==> bufs[i] == old(bufs[i])
      ensures b == -1 <==>
        forall i :: 0 <= i < NBUF ==> old(!Holds(bufs[i], dev, blockno) && bufs[i].refcnt > 0)
      ensures b >= 0 ==>
        && bufs[b].valid && bufs[b].locked && Holds(bufs[b], dev, blockno)
        && bufs[b].data == old(Content(bufs[..], disk, blockno))
        && bufs[b].refcnt == (if old(Holds(bufs[b], dev, blockno)) then old(bufs[b].refcnt) + 1 else 1)
        && (old(Holds(bufs[b], dev, blockno)) || old(bufs[b].refcnt) == 0)
      ensures b >= 0 && old(Holds(bufs[b], dev, blockno) && bufs[b].valid) ==>
        bufs[b] == old(bufs[b]).(refcnt := old(bufs[b].refcnt) + 1, locked := true)
      ensures forall x :: 0 <= x < |disk| ==> Content(bufs[..], disk, x) == old(Content(bufs[..], disk, x))
    {
      hide Linked;
      ghost var was := bufs[..];
      b := Bget(dev, blockno);
      if b >= 0 {
        ghost var got := bufs[..];
        if !bufs[b].valid {
          bufs[b] := bufs[b].(data := disk[blockno]);
          bufs[b] := bufs[b].(valid := true);
        }
        SameLinks(got, bufs[..], order);
        SameUnique(got, bufs[..]);
        assert Valid();
        ContentAfterRead(was, bufs[..], disk, b, blockno);
      } else {
        assert bufs[..] == was;
      }
    }

    /** bwrite: the buffer reaches the disk in one piece. */
    method Bwrite(b: nat)
      requires Valid() && b < NBUF && bufs[b].locked && bufs[b].valid
      modifies `disk, `dirty, `images
      ensures Valid()
      ensures disk == old(disk)[bufs[b].blockno := bufs[b].data]
      ensures dirty == old(dirty) - {b} && images == old(images) + [disk]
    {
      disk := disk[bufs[b].blockno := bufs[b].data];
      dirty := dirty - {b};
      images := images + [disk];
    }

    /** A client stores into a locked buffer. */
    method Store(b: nat, w: Block)
      requires Valid() && b < NBUF && bufs[b].locked && bufs[b].valid
      modifies bufs, `dirty
      ensures Valid()
      ensures bufs[b] == old(bufs[b]).(data := w) && dirty == old(dirty) + {b}
      ensures forall i :: 0 <= i <= NBUF && i != b ==> bufs[i] == old(bufs[i])
    {
      hide Linked;
      ghost var was := bufs[..];
      bufs[b] := bufs[b].(data := w);
      dirty := dirty + {b};
      SameLinks(was, bufs[..], order);
      SameUnique(was, bufs[..]);
    }

    method Bpin(b: nat)
      requires Valid() && b < NBUF && bufs[b].locked
      modifies bufs
      ensures Valid()
      ensures bufs[b] == old(bufs[b]).(refcnt := old(bufs[b].refcnt) + 1)
      ensures forall i :: 0 <= i <= NBUF && i != b ==> bufs[i] == old(bufs[i])
    {
      hide Linked;
      ghost var was := bufs[..];
      bufs[b] := bufs[b].(refcnt := bufs[b].refcnt + 1);
      SameLinks(was, bufs[..], order);
      SameUnique(was, bufs[..]);
    }

    method Bunpin(b: nat)
      requires Valid() && b < NBUF && bufs[b].refcnt > 0 && (bufs[b].refcnt == 1 ==> !bufs[b].locked && b !in dirty)
      modifies bufs
      ensures Valid()
      ensures bufs[b] == old(bufs[b]).(refcnt := old(bufs[b].refcnt) - 1)
      ensures forall i :: 0 <= i <= NBUF && i != b ==> bufs[i] == old(bufs[i])
    {
      hide Linked;
      ghost var was := bufs[..];
      bufs[b] := bufs[b].(refcnt := bufs[b].refcnt - 1);
      SameLinks(was, bufs[..], order);
      SameUnique(was, bufs[..]);
    }

    /** brelse: unlock and drop the reference; a buffer nobody uses any more moves to the front of
        the list.  A changed buffer may not lose its last reference. */
    method Brelse(b: nat)
      requires Valid() && b < NBUF && bufs[b].locked && (b in dirty ==> bufs[b].refcnt > 1)
      modifies bufs, `order
      ensures Valid()
      ensures forall i :: 0 <= i < NBUF && i != b ==> SameCore(bufs[i], old(bufs[i]))
      ensures SameCore(bufs[b], old(bufs[b]).(refcnt := old(bufs[b].refcnt) - 1, locked := false))
      ensures if bufs[b].refcnt > 0 then order == old(order)
        else exists k :: 0 <= k < |old(order)| && old(order)[k] == b && order == MoveToFront(old(order), k)
      ensures multiset(order) == multiset(old(order))
      ensures forall x :: 0 <= x < |disk| ==> Content(bufs[..], disk, x) == old(Content(bufs[..], disk, x))
    {
      hide Linked, Content, Unique, Consistent;
      ghost var was, order0 := bufs[..], order;
      Drop(b);
      ghost var mid := bufs[..];
      if bufs[b].refcnt == 0 {
        assert b in order;
        ghost var k :| 0 <= k < |order| && order[k] == b;
        ToFront(b, k);
        CoresKeep(mid, bufs[..], disk, dirty);
      }
      assert forall i :: 0 <= i < NBUF ==> SameCore(mid[i], bufs[..][i]);
      ContentsSame(was, bufs[..], disk);
    }

    /** The lock and the reference. */
    method Drop(b: nat)
      requires Valid() && b < NBUF && bufs[b].locked && (b in dirty ==> bufs[b].refcnt > 1)
      modifies bufs
      ensures Valid()
      ensures bufs[..] == old(bufs[..])[b := old(bufs[b]).(refcnt := old(bufs[b].refcnt) - 1, locked := false)]
    {
      hide Linked;
      ghost var was := bufs[..];
      bufs[b] := bufs[b].(locked := false);
      bufs[b] := bufs[b].(refcnt := bufs[b].refcnt - 1);
      SameLinks(was, bufs[..], order);
      SameUnique(was, bufs[..]);
    }
  }

  lemma ContentsSame(bs: seq<Buf>, bs': seq<Buf>, d: Disk)
    requires |bs| == |bs'| == NBUF + 1 && Unique(bs) && Unique(bs')
    requires forall i :: 0 <= i < NBUF ==>
      bs'[i].dev == bs[i].dev && bs'[i].blockno == bs[i].blockno && bs'[i].valid == bs[i].valid && bs'[i].data == bs[i].data
    ensures forall x :: 0 <= x < |d| ==> Content(bs', d, x) == Content(bs, d, x)
  {
    hide Content, Unique;
    forall x | 0 <= x < |d| ensures Content(bs', d, x) == Content(bs, d, x) {
      SameLabels(bs, bs', d, x);
    }
  }

  /** What a reader sees depends on labels, valid bits and data only. */
  lemma SameLabels(bs: seq<Buf>, bs': seq<Buf>, d: Disk, x: int)
    requires |bs| == |bs'| == NBUF + 1 && 0 <= x < |d| && Unique(bs) && Unique(bs')
    requires forall i :: 0 <= i < NBUF ==>
      bs'[i].dev == bs[i].dev && bs'[i].blockno == bs[i].blockno && bs'[i].valid == bs[i].valid && bs'[i].data == bs[i].data
    ensures Content(bs', d, x) == Content(bs, d, x)
  {
    if i: nat :| InUse(bs, i, x) {
      assert InUse(bs', i, x);
      ContentIs(bs, d, i);
      ContentIs(bs', d, i);
    } else {
      forall i: nat ensures !InUse(bs', i, x) {
        assert !InUse(bs, i, x);
      }
    }
  }

  lemma MoveToFrontMembers(order: seq<nat>, i: nat)
    requires i < |order|
    ensures forall b :: b in MoveToFront(order, i) <==> b in order
  {
  }

  lemma CoresTransitive(x: seq<Buf>, y: seq<Buf>, z: seq<Buf>)
    requires SameCores(x, y) && SameCores(y, z)
    ensures SameCores(x, z)
  {
  }

  /** Uniqueness depends on the labels only. */
  lemma SameUnique(bs: seq<Buf>, bs': seq<Buf>)
    requires |bs| == |bs'| == NBUF + 1 && Unique(bs)
    requires forall i :: 0 <= i < NBUF ==> bs'[i].dev == bs[i].dev && bs'[i].blockno == bs[i].blockno
    ensures Unique(bs')
  {
  }

  /** Filling a buffer, or taking over one that holds nothing new, shows in no block's contents. */
  lemma ContentAfterRead(bs: seq<Buf>, bs': seq<Buf>, d: Disk, b: nat, x: int)
    requires |bs| == |bs'| == NBUF + 1 && b < NBUF && Unique(bs) && Unique(bs') && 0 <= x < |d|
    requires forall i :: 0 <= i < NBUF && i != b ==> bs'[i] == bs[i]
    requires forall i :: 0 <= i < NBUF && bs[i].valid ==> bs[i].dev == ROOTDEV && 0 <= bs[i].blockno < |d|
    requires bs'[b].valid && Holds(bs'[b], ROOTDEV, x)
    requires if Holds(bs[b], ROOTDEV, x) && bs[b].valid then bs'[b].data == bs[b].data else bs'[b].data == d[x]
    requires !Holds(bs[b], ROOTDEV, x) && bs[b].valid ==> bs[b].data == d[bs[b].blockno]
    ensures forall y :: 0 <= y < |d| ==> Content(bs', d, y) == Content(bs, d, y)
    ensures bs'[b].data == Content(bs, d, x)
  {
    forall y | 0 <= y < |d| ensures Content(bs', d, y) == Content(bs, d, y) {
      if y == x {
        ContentIs(bs', d, b);
        if i: nat :| InUse(bs, i, x) {
          assert i == b;
          ContentIs(bs, d, b);
        } else {
          assert !InUse(bs, b, x);
        }
      } else if i: nat :| InUse(bs', i, y) {
        ContentIs(bs', d, i);
        assert InUse(bs, i, y);
        ContentIs(bs, d, i);
      } else if i: nat :| InUse(bs, i, y) {
        assert i == b by {
          if i != b {
            assert InUse(bs', i, y);
          }
        }
        ContentIs(bs, d, b);
      }
    }
    ContentIs(bs', d, b);
  }

  /** Changing anything but links keeps the list. */
  lemma SameLinks(bs: seq<Buf>, bs': seq<Buf>, order: seq<nat>)
    requires Linked(bs, order) && |bs'| == |bs|
    requires forall i :: 0 <= i < |bs| ==> bs'[i].next == bs[i].next && bs'[i].prev == bs[i].prev
    ensures Linked(bs', order)
  {
  }
}
