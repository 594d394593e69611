/** The disk driver of kernel/virtio_disk.c and the device it talks to.  The driver's methods run under
    vdisk_lock, so each is one step; the device fetches and completes requests between them, in any
    order.  Rings and descriptors follow sections 2.6 and 5.2 of VIRTIO 1.1. */
module Virtio {

  import opened Sums

  const NUM: nat := 8
  const WRAP: nat := 65536

  /** The place of entry i in a ring. */
  function Slot(i: nat): (s: nat)
    ensures s < NUM
  {
    i % 8
  }

  /** The next value of a 16-bit index. */
  function Inc(i: nat): (n: nat)
    ensures n < WRAP
  {
    (i + 1) % 65536
  }

  /** What a descriptor points to: a command header, the data of a buffer, or a status byte. */
  datatype Ptr = Null | Header(i: nat) | Data(b: nat) | Status(i: nat)

  /** flags is split into its two bits: next follows, and the device writes. */
  datatype Desc = Desc(addr: Ptr, len: nat, more: bool, devWrites: bool, next: nat)

  datatype Op = Op(write: bool, sector: nat)

  /** info[i]; buf is 0 when there is none. */
  datatype Info = Info(buf: nat, status: nat)

  datatype Stage = Queued | Taken | Posted | Acked

  /** A request in flight, named by its first descriptor; d1 and d2 are the others. */
  datatype Req = Req(d1: nat, d2: nat, buf: nat, op: Op, stage: Stage)

  // ---------------------------------------------------------------------------------------------
  // What holds between steps
  // ---------------------------------------------------------------------------------------------

  /** Three distinct descriptors belong to request h, and no others. */
  ghost predicate OwnsThree(own: map<nat, nat>, h: nat, r: Req) {
    && h != r.d1 && h != r.d2 && r.d1 != r.d2
    && h in own && own[h] == h && r.d1 in own && own[r.d1] == h && r.d2 in own && own[r.d2] == h
  }

  /** own sends every descriptor in use to the one request that uses it. */
  ghost predicate OwnOk(free: seq<bool>, own: map<nat, nat>, flight: map<nat, Req>) {
    && |free| == NUM && |own| == 3 * |flight| && OwnersOk(own, flight)
    && (forall d: nat :: d < NUM ==> (free[d] <==> d !in own))
  }

  ghost predicate OwnersOk(own: map<nat, nat>, flight: map<nat, Req>) {
    && (forall d: nat :: d in own ==> d < NUM && own[d] in flight)
    && (forall d: nat :: d in own ==> d == own[d] || d == flight[own[d]].d1 || d == flight[own[d]].d2)
    && (forall h: nat :: h in flight ==> OwnsThree(own, h, flight[h]))
  }

  /** The chain of request h as the device reads it. */
  ghost predicate Formatted(desc: seq<Desc>, ops: seq<Op>, info: seq<Info>, h: nat, r: Req) {
    && h < |desc| && r.d1 < |desc| && r.d2 < |desc| && h < |ops| && h < |info|
    && desc[h] == Desc(Header(h), 16, true, false, r.d1)
    && desc[r.d1] == Desc(Data(r.buf), 1024, true, !r.op.write, r.d2)
    && desc[r.d2] == Desc(Status(h), 1, false, true, 0)
    && ops[h] == r.op && info[h].buf == r.buf && r.buf != 0
    && (r.stage == Posted ==> info[h].status == 0)
  }

  ghost predicate AllFormatted(desc: seq<Desc>, ops: seq<Op>, info: seq<Info>, flight: map<nat, Req>) {
    && |desc| == NUM == |ops| == |info|
    && forall h: nat :: h in flight ==> Formatted(desc, ops, info, h, flight[h])
  }

  /** b->disk is set exactly for the buffers of requests not yet acknowledged; no buffer is in two requests. */
  ghost predicate BusyOk(busy: set<nat>, flight: map<nat, Req>) {
    && (forall h: nat :: h in flight ==> (flight[h].buf in busy <==> flight[h].stage != Acked))
    && (forall h: nat, g: nat :: h in flight && g in flight && flight[h].buf == flight[g].buf ==> h == g)
    && (forall b: nat :: b in busy ==> InFlight(flight, b))
  }

  ghost predicate InFlight(flight: map<nat, Req>, b: nat) {
    exists h: nat :: h in flight && flight[h].buf == b
  }

  /** The entries of a ring from `from` up to `to`, which count modulo 2^16, are those of q, in order; they are the
      requests of one stage. */
  ghost predicate RingHolds(ring: seq<nat>, from: nat, to: nat, q: seq<nat>, flight: map<nat, Req>, stage: Stage) {
    && |ring| == NUM && from < WRAP && to == (from + |q|) % 65536
    && (forall k :: 0 <= k < |q| ==> q[k] in flight && flight[q[k]].stage == stage)
    && (forall k, l :: 0 <= k < l < |q| ==> q[k] != q[l])
    && (forall h: nat :: h in flight && flight[h].stage == stage ==> h in q)
    && (forall k {:trigger q[k]} :: 0 <= k < |q| && k < NUM ==> ring[Slot(from + k)] == q[k])
  }

  /** Distinct requests are no more than there are in flight. */
  lemma {:induction false} QueueBound(q: seq<nat>, s: set<nat>)
    requires (forall k :: 0 <= k < |q| ==> q[k] in s) && forall k, l :: 0 <= k < l < |q| ==> q[k] != q[l]
    ensures |q| <= |s|
  {
    if q != [] {
      var n := |q| - 1;
      QueueBound(q[..n], s - {q[n]});
    }
  }

  /** The first n numbers. */
  function Upto(n: nat): (s: set<nat>) {
    if n == 0 then {} else Upto(n - 1) + {n - 1}
  }

  lemma {:induction false} UptoSize(n: nat)
    ensures |Upto(n)| == n && forall x: nat :: x in Upto(n) <==> x < n
  {
    if n > 0 {
      UptoSize(n - 1);
    }
  }

  /** At most NUM / 3 requests are in flight. */
  lemma AtMostTwo(free: seq<bool>, own: map<nat, nat>, flight: map<nat, Req>)
    requires OwnOk(free, own, flight)
    ensures 3 * |flight| <= NUM && |flight| <= 2
  {
    UptoSize(NUM);
    SubsetSize(own.Keys, Upto(NUM));
    assert |own| == |own.Keys|;
  }

  /** With fewer than two requests in flight there are three free descriptors. */
  lemma RoomForThree(free: seq<bool>, own: map<nat, nat>, flight: map<nat, Req>)
    requires OwnOk(free, own, flight) && FewFree(free)
    ensures |flight| == 2
  {
    var extra: set<nat> :| AreFew(free, extra);
    AtMostTwo(free, own, flight);
    UptoSize(NUM);
    hide OwnersOk, Upto;
    var keys := own.Keys;
    assert |own| == |keys|;
    assert Upto(NUM) <= keys + extra;
    SubsetSize(Upto(NUM), keys + extra);
    UnionSize(keys, extra);
  }

  lemma UnionSize(a: set<nat>, b: set<nat>)
    ensures |a + b| <= |a| + |b|
  {
  }

  class Disk {
    var free: seq<bool>
    var desc: seq<Desc>
    var info: seq<Info>
    var ops: seq<Op>
    /** The avail ring: the driver's index, and how far the device has read. */
    var avail: seq<nat>
    var availIdx: nat
    var devSeen: nat
    /** The used ring: the device's index, and how far the driver has read. */
    var used: seq<nat>
    var usedIdx: nat
    var seen: nat
    /** The buffers whose disk field is 1, what buffers hold, and what the sectors of the disk hold. */
    var busy: set<nat>
    var data: map<nat, int>
    var media: map<nat, int>

    ghost var own: map<nat, nat>
    ghost var flight: map<nat, Req>
    ghost var queue: seq<nat>
    ghost var posted: seq<nat>
    /** What the device moved when it completed a request. */
    ghost var moved: map<nat, int>

    ghost predicate Valid()
      reads this
    {
      && OwnOk(free, own, flight) && AllFormatted(desc, ops, info, flight) && BusyOk(busy, flight)
      && RingHolds(avail, devSeen, availIdx, queue, flight, Queued)
      && RingHolds(used, seen, usedIdx, posted, flight, Posted) && MovedOk(data, flight, moved)
    }

    constructor (contents: map<nat, int>)
      ensures Valid() && flight == map[] && media == contents
    {
      free := seq(NUM, _ => true);
      desc := seq(NUM, _ => Desc(Null, 0, false, false, 0));
      info, ops := seq(NUM, _ => Info(0, 0)), seq(NUM, _ => Op(false, 0));
      avail, availIdx, devSeen := seq(NUM, _ => 0), 0, 0;
      used, usedIdx, seen := seq(NUM, _ => 0), 0, 0;
      busy, data, media := {}, map[], contents;
      own, flight, queue, posted, moved := map[], map[], [], [], map[];
    }

    /** alloc_desc. */
    method AllocDesc() returns (i: int)
      modifies `free
      ensures i == -1 ==> free == old(free) && forall d :: 0 <= d < |free| ==> !free[d]
      ensures i != -1 ==> 0 <= i < |old(free)| && old(free)[i] && free == old(free)[i := false]
    {
      i := 0;
      while i < |free|
        invariant 0 <= i <= |free| && free == old(free) && forall d :: 0 <= d < i ==> !free[d]
      {
        if free[i] {
          free := free[i := false];
          return;
        }
        i := i + 1;
      }
      return -1;
    }

    /** free_desc.  Its two panics are the precondition. */
    method FreeDesc(i: nat)
      requires i < |free| == |desc| && !free[i]
      modifies `free, `desc
      ensures free == old(free)[i := true] && desc == old(desc)[i := Desc(Null, 0, false, false, 0)]
    {
      desc := desc[i := Desc(Null, 0, false, false, 0)];
      free := free[i := true];
    }

    /** alloc3_desc: three descriptors or, with fewer than three free, none. */
    method Alloc3() returns (idx: seq<nat>)
      requires |free| == |desc|
      modifies `free, `desc
      ensures |free| == |old(free)| && |desc| == |old(desc)|
      ensures idx == [] || (|idx| == 3 && idx[0] != idx[1] && idx[0] != idx[2] && idx[1] != idx[2])
      ensures forall x :: x in idx ==> x < |free| && old(free)[x]
      ensures forall d: nat :: d < |free| ==> (free[d] <==> old(free)[d] && d !in idx)
      ensures forall d: nat :: d < |desc| && !old(free)[d] ==> desc[d] == old(desc)[d]
      ensures if idx == [] then FewFree(free) else desc == old(desc)
    {
      idx := [];
      while |idx| < 3
        invariant |idx| <= 3 && |free| == |old(free)| && desc == old(desc)
        invariant forall k, l :: 0 <= k < l < |idx| ==> idx[k] != idx[l]
        invariant forall x :: x in idx ==> x < |free| && old(free)[x]
        invariant forall d: nat :: d < |free| ==> (free[d] <==> old(free)[d] && d !in idx)
      {
        var i := AllocDesc();
        if i == -1 {
          var j := 0;
          while j < |idx|
            invariant 0 <= j <= |idx| && |free| == |old(free)| && |desc| == |old(desc)|
            invariant forall d: nat :: d < |free| ==> (free[d] <==> old(free)[d] && d !in idx[j..])
            invariant forall d: nat :: d < |desc| && !old(free)[d] ==> desc[d] == old(desc)[d]
          {
            assert idx[j] in idx[j..] && idx[j] in idx;
            FreeDesc(idx[j]);
            assert idx[j..] == [idx[j]] + idx[j + 1..];
            j := j + 1;
          }
          Few(free, idx);
          return [];
        }
        idx := idx + [i];
      }
    }

    /** virtio_disk_rw up to its wait: false if it has to sleep for descriptors. */
    method Start(b: nat, write: bool, sector: nat) returns (ok: bool, h: nat)
      requires Valid() && b != 0 && !InFlight(flight, b)
      modifies `free, `desc, `info, `ops, `avail, `availIdx, `busy, `own, `flight, `queue
      ensures Valid() && (ok <==> |old(flight)| < 2)
      ensures !ok ==> flight == old(flight) && busy == old(busy)
      ensures ok ==> h !in old(flight) && h in flight && flight == old(flight)[h := flight[h]] && busy == old(busy) + {b}
      ensures ok ==> flight[h].buf == b && flight[h].op == Op(write, sector) && flight[h].stage == Queued
    {
      hide OwnOk, AllFormatted, BusyOk, RingHolds, FewFree, InFlight, MovedOk;
      ghost var free0, desc0 := free, desc;
      Sizes(free, own, flight, desc, ops, info);
      var idx := Alloc3();
      if idx == [] {
        NoneTaken(free0, free, own, flight, desc0, desc, ops, info);
        RoomForThree(free, own, flight);
        return false, 0;
      }
      assert idx[0] in idx && idx[1] in idx && idx[2] in idx;
      ghost var r := Req(idx[1], idx[2], b, Op(write, sector), Queued);
      StartOwn(free0, free, own, flight, idx[0], r);
      StartFormatted(free0, own, desc, ops, info, flight, idx[0], r);
      QueueFits(free0, own, flight, avail, devSeen, availIdx, queue, Queued);
      own := own[idx[0] := idx[0]][r.d1 := idx[0]][r.d2 := idx[0]];
      AtMostTwo(free, own, flight[idx[0] := r]);
      Submit(idx[0], idx[1], idx[2], b, Op(write, sector));
      return true, idx[0];
    }

    /** The formatting of the three descriptors and the entry in the avail ring. */
    method Submit(h: nat, d1: nat, d2: nat, b: nat, op: Op)
      requires h !in flight && !InFlight(flight, b) && |queue| <= 2 && |avail| == NUM
      requires h < |desc| && d1 < |desc| && d2 < |desc| && h < |info| == |ops|
      requires var r := Req(d1, d2, b, op, Queued);
        OwnOk(free, own, flight[h := r]) && AllFormatted(Chain(desc, h, r), ops[h := op], info[h := Info(b, 0xff)], flight[h := r])
      requires RingHolds(avail, devSeen, availIdx, queue, flight, Queued) && RingHolds(used, seen, usedIdx, posted, flight, Posted)
      requires BusyOk(busy, flight) && MovedOk(data, flight, moved)
      modifies `desc, `info, `ops, `avail, `availIdx, `busy, `flight, `queue
      ensures Valid() && flight == old(flight)[h := Req(d1, d2, b, op, Queued)] && busy == old(busy) + {b}
    {
      hide OwnOk, AllFormatted, BusyOk, InFlight, RingHolds, Slot, Inc, Chain, MovedOk;
      ghost var r := Req(d1, d2, b, op, Queued);
      StartBusy(busy, flight, h, r);
      MovedEarly(data, flight, moved, h, r);
      RingPush(avail, devSeen, availIdx, queue, flight, h, r);
      RingOther(used, seen, usedIdx, posted, flight, Posted, h, r);
      Format(h, d1, d2, b, op);
      Queue(h, r);
    }

    /** The head of the chain goes into the avail ring. */
    method Queue(h: nat, ghost r: Req)
      requires |avail| == NUM
      modifies `avail, `availIdx, `flight, `queue
      ensures avail == old(avail)[Slot(old(availIdx)) := h] && availIdx == Inc(old(availIdx))
      ensures flight == old(flight)[h := r] && queue == old(queue) + [h]
    {
      avail := avail[Slot(availIdx) := h];
      availIdx := Inc(availIdx);
      flight, queue := flight[h := r], queue + [h];
    }

    method Format(h: nat, d1: nat, d2: nat, b: nat, op: Op)
      requires h < |desc| && d1 < |desc| && d2 < |desc| && h < |info| == |ops|
      modifies `desc, `info, `ops, `busy
      ensures desc == Chain(old(desc), h, Req(d1, d2, b, op, Queued))
      ensures ops == old(ops)[h := op] && info == old(info)[h := Info(b, 0xff)] && busy == old(busy) + {b}
    {
      ops := ops[h := op];
      desc := desc[h := Desc(Header(h), 16, true, false, d1)];
      desc := desc[d1 := Desc(Data(b), 1024, true, !op.write, d2)];
      desc := desc[d2 := Desc(Status(h), 1, false, true, 0)];
      info := info[h := Info(b, 0xff)];
      busy := busy + {b};
    }

    /** The device reads the next entry of the avail ring. */
    method Fetch() returns (h: nat)
      requires Valid() && devSeen != availIdx
      modifies `devSeen, `flight, `queue
      ensures Valid() && old(queue) != [] && h == old(queue[0]) && queue == old(queue[1..])
      ensures h in old(flight) && flight == At(old(flight), h, Taken)
    {
      hide OwnOk, AllFormatted, BusyOk, RingHolds, Slot, Inc, MovedOk;
      QueueFits(free, own, flight, avail, devSeen, availIdx, queue, Queued);
      RingPop(avail, devSeen, availIdx, queue, flight, Queued, Taken);
      h := avail[Slot(devSeen)];
      StageKeeps(free, own, desc, ops, info, busy, flight, h, Taken);
      RingOther(used, seen, usedIdx, posted, flight, Posted, h, flight[h].(stage := Taken));
      MovedEarly(data, flight, moved, h, flight[h].(stage := Taken));
      devSeen := Inc(devSeen);
      flight, queue := At(flight, h, Taken), queue[1..];
    }

    /** The device follows the chain from h, moves the data, and writes the status byte. */
    method Transfer(h: nat)
      requires AllFormatted(desc, ops, info, flight) && h in flight
      modifies `data, `media, `info
      ensures Transferred(flight[h], old(data), old(media), data, media)
      ensures info == old(info)[h := old(info)[h].(status := 0)]
    {
      FormattedAt(desc, ops, info, flight, h);
      hide AllFormatted;
      var d1 := desc[h].next;
      var op, b, d2 := ops[desc[h].addr.i], desc[d1].addr.b, desc[d1].next;
      var st := desc[d2].addr.i;
      if op.write {
        media := media[op.sector := Held(data, b)];
      } else {
        data := data[b := Held(media, op.sector)];
      }
      info := info[st := info[st].(status := 0)];
    }

    /** The device completes a request that it has taken, whichever it likes, and posts it in the used ring. */
    method Complete(h: nat)
      requires Valid() && h in flight && flight[h].stage == Taken
      modifies `data, `media, `info, `used, `usedIdx, `flight, `posted, `moved
      ensures Valid() && flight == At(old(flight), h, Posted) && posted == old(posted) + [h]
      ensures var r := old(flight)[h];
        moved == old(moved)[h := if r.op.write then Held(old(data), r.buf) else Held(old(media), r.op.sector)]
      ensures Transferred(old(flight)[h], old(data), old(media), data, media)
    {
      hide OwnOk, BusyOk, RingHolds, InFlight, AllFormatted, Slot, Inc, Transferred, MovedOk, At, Held;
      ghost var data0, media0 := data, media;
      ghost var r := flight[h];
      PostedKeeps(free, own, desc, ops, info, busy, flight, h);
      QueueFits(free, own, flight, used, seen, usedIdx, posted, Posted);
      PostedRings(avail, devSeen, availIdx, queue, used, seen, usedIdx, posted, flight, h);
      Transfer(h);
      MovedNow(busy, flight, moved, h, data0, media0, data, media);
      Post(h, if r.op.write then Held(data0, r.buf) else Held(media0, r.op.sector));
    }

    /** The entry in the used ring, for a request whose data have been moved. */
    method Post(h: nat, ghost v: int)
      requires h in flight && |used| == NUM && OwnOk(free, own, At(flight, h, Posted)) && BusyOk(busy, At(flight, h, Posted))
      requires AllFormatted(desc, ops, info, At(flight, h, Posted)) && MovedOk(data, At(flight, h, Posted), moved[h := v])
      requires RingHolds(avail, devSeen, availIdx, queue, At(flight, h, Posted), Queued)
      requires RingHolds(used[Slot(usedIdx) := h], seen, Inc(usedIdx), posted + [h], At(flight, h, Posted), Posted)
      modifies `used, `usedIdx, `flight, `posted, `moved
      ensures Valid() && flight == At(old(flight), h, Posted) && posted == old(posted) + [h] && moved == old(moved)[h := v]
    {
      hide OwnOk, BusyOk, RingHolds, AllFormatted, Slot, Inc, MovedOk, At;
      used := used[Slot(usedIdx) := h];
      usedIdx := Inc(usedIdx);
      flight, posted, moved := At(flight, h, Posted), posted + [h], moved[h := v];
    }

    /** One round of the loop of virtio_disk_intr.  The status that it checks is always 0. */
    method Acknowledge() returns (id: nat, status: nat)
      requires Valid() && seen != usedIdx
      modifies `busy, `seen, `flight, `posted
      ensures Valid() && status == 0 && old(posted) != [] && id == old(posted[0]) && posted == old(posted[1..])
      ensures id in old(flight) && flight == At(old(flight), id, Acked) && busy == old(busy) - {old(flight)[id].buf}
    {
      hide OwnOk, BusyOk, RingHolds, InFlight, AllFormatted, Slot, Inc, MovedOk;
      QueueFits(free, own, flight, used, seen, usedIdx, posted, Posted);
      RingPop(used, seen, usedIdx, posted, flight, Posted, Acked);
      id := used[Slot(seen)];
      FormattedAt(desc, ops, info, flight, id);
      status := info[id].status;
      AckKeeps(free, own, desc, ops, info, busy, flight, id);
      RingOther(avail, devSeen, availIdx, queue, flight, Queued, id, flight[id].(stage := Acked));
      MovedAcked(data, flight, moved, id);
      busy := busy - {info[id].buf};
      seen := Inc(seen);
      flight, posted := At(flight, id, Acked), posted[1..];
    }

    /** virtio_disk_intr, when the device posts nothing meanwhile. */
    method Intr()
      requires Valid()
      modifies `busy, `seen, `flight, `posted
      ensures Valid() && posted == [] && seen == usedIdx && flight.Keys == old(flight.Keys)
    {
      hide OwnOk, AllFormatted, BusyOk, RingHolds, InFlight, MovedOk;
      while seen != usedIdx
        invariant Valid() && flight.Keys == old(flight.Keys)
        decreases |posted|
      {
        var id, status := Acknowledge();
      }
      NothingPosted(used, seen, usedIdx, posted, flight, free, own);
    }

    /** free_chain: exactly the three descriptors of the chain. */
    method FreeChain(h: nat, ghost r: Req)
      requires |free| == |desc| && ChainFrom(desc, h, r) && !free[h] && !free[r.d1] && !free[r.d2]
      modifies `free, `desc
      ensures |free| == |old(free)| && |desc| == |old(desc)|
      ensures forall d: nat :: d < |free| ==> (free[d] <==> old(free)[d] || d == h || d == r.d1 || d == r.d2)
      ensures forall d: nat :: d < |desc| && d != h && d != r.d1 && d != r.d2 ==> desc[d] == old(desc)[d]
    {
      var i := h;
      ghost var step := 0;
      while true
        invariant 0 <= step <= 2 && i == (if step == 0 then h else if step == 1 then r.d1 else r.d2)
        invariant |free| == |desc| == |old(desc)|
        invariant forall d: nat :: d < |free| ==> (free[d] <==> old(free)[d] || (step >= 1 && d == h) || (step >= 2 && d == r.d1))
        invariant forall d: nat :: d < |desc| && !(step >= 1 && d == h) && !(step >= 2 && d == r.d1) ==> desc[d] == old(desc)[d]
        decreases 2 - step
      {
        var more, nxt := desc[i].more, desc[i].next;
        FreeDesc(i);
        if !more {
          break;
        }
        i := nxt;
        step := step + 1;
      }
    }

    /** The end of virtio_disk_rw: its buffer is no longer busy, so its three descriptors are returned.  After a read the
        buffer holds what the sector held when the device completed the request. */
    method Finish(h: nat)
      requires Valid() && h in flight && flight[h].buf !in busy
      modifies `free, `desc, `info, `own, `flight
      ensures Valid() && old(flight)[h].stage == Acked && flight == old(flight) - {h}
      ensures var r := old(flight)[h]; !r.op.write ==> h in moved && r.buf in data && data[r.buf] == moved[h]
    {
      hide OwnOk, BusyOk, RingHolds, InFlight, AllFormatted, Slot, Inc, MovedOk;
      ghost var r := flight[h];
      ghost var free0, desc0, info0 := free, desc, info;
      ChainOwned(free, own, desc, ops, info, flight, busy, h);
      info := info[h := info[h].(buf := 0)];
      FreeChain(h, r);
      FinishOwn(free0, free, own, flight, h);
      FinishFormatted(free0, own, desc0, desc, ops, info0, info, flight, h);
      FinishBusy(busy, flight, h);
      MovedDone(data, flight, moved, h);
      RingDrop(avail, devSeen, availIdx, queue, flight, Queued, h);
      RingDrop(used, seen, usedIdx, posted, flight, Posted, h);
      own, flight := own - {h, r.d1, r.d2}, flight - {h};
    }
  }

  /** The descriptors that free_chain meets, from h on. */
  ghost predicate ChainFrom(desc: seq<Desc>, h: nat, r: Req) {
    && h < |desc| && r.d1 < |desc| && r.d2 < |desc| && h != r.d1 && h != r.d2 && r.d1 != r.d2
    && desc[h].more && desc[h].next == r.d1 && desc[r.d1].more && desc[r.d1].next == r.d2 && !desc[r.d2].more
  }

  lemma ChainOwned(free: seq<bool>, own: map<nat, nat>, desc: seq<Desc>, ops: seq<Op>, info: seq<Info>, flight: map<nat, Req>,
                   busy: set<nat>, h: nat)
    requires OwnOk(free, own, flight) && AllFormatted(desc, ops, info, flight) && BusyOk(busy, flight)
    requires h in flight && flight[h].buf !in busy
    ensures |free| == |desc| && ChainFrom(desc, h, flight[h]) && h < |info| && flight[h].stage == Acked
    ensures !free[h] && !free[flight[h].d1] && !free[flight[h].d2]
  {
    assert OwnsThree(own, h, flight[h]) && Formatted(desc, ops, info, h, flight[h]);
  }

  lemma FinishOwn(free0: seq<bool>, free: seq<bool>, own: map<nat, nat>, flight: map<nat, Req>, h: nat)
    requires OwnOk(free0, own, flight) && |free| == |free0| && h in flight
    requires forall d: nat :: d < |free| ==> (free[d] <==> free0[d] || d == h || d == flight[h].d1 || d == flight[h].d2)
    ensures OwnOk(free, own - {h, flight[h].d1, flight[h].d2}, flight - {h})
  {
    hide OwnersOk, OwnsThree;
    var r := flight[h];
    OwnersAt(own, flight, h);
    FinishOwners(own, flight, h);
    FinishCount(own, flight, h);
    FreeAgain(free0, free, own, h, r.d1, r.d2);
  }

  lemma OwnersAt(own: map<nat, nat>, flight: map<nat, Req>, h: nat)
    requires OwnersOk(own, flight) && h in flight
    ensures OwnsThree(own, h, flight[h])
  {
  }

  lemma FreeAgain(free0: seq<bool>, free: seq<bool>, own: map<nat, nat>, h: nat, d1: nat, d2: nat)
    requires |free| == |free0| == NUM && forall d: nat :: d < NUM ==> (free0[d] <==> d !in own)
    requires forall d: nat :: d < |free| ==> (free[d] <==> free0[d] || d == h || d == d1 || d == d2)
    ensures forall d: nat :: d < NUM ==> (free[d] <==> d !in own - {h, d1, d2})
  {
  }

  lemma FinishOwners(own: map<nat, nat>, flight: map<nat, Req>, h: nat)
    requires OwnersOk(own, flight) && h in flight
    ensures OwnersOk(own - {h, flight[h].d1, flight[h].d2}, flight - {h})
  {
  }

  lemma FinishCount(own: map<nat, nat>, flight: map<nat, Req>, h: nat)
    requires h in flight && OwnsThree(own, h, flight[h])
    ensures |own - {h, flight[h].d1, flight[h].d2}| == |own| - 3 && |flight - {h}| == |flight| - 1
  {
  }

  lemma FinishFormatted(free: seq<bool>, own: map<nat, nat>, desc0: seq<Desc>, desc: seq<Desc>, ops: seq<Op>, info0: seq<Info>,
                        info: seq<Info>,
                        flight: map<nat, Req>, h: nat)
    requires OwnOk(free, own, flight) && AllFormatted(desc0, ops, info0, flight) && h in flight && h < |info0|
    requires |desc| == |desc0| && info == info0[h := info0[h].(buf := 0)]
    requires forall d: nat :: d < |desc| && d != h && d != flight[h].d1 && d != flight[h].d2 ==> desc[d] == desc0[d]
    ensures AllFormatted(desc, ops, info, flight - {h})
  {
    var flight' := flight - {h};
    assert OwnsThree(own, h, flight[h]);
    forall g: nat | g in flight' ensures Formatted(desc, ops, info, g, flight'[g]) {
      assert OwnsThree(own, g, flight[g]) && Formatted(desc0, ops, info0, g, flight[g]);
    }
  }

  lemma FinishBusy(busy: set<nat>, flight: map<nat, Req>, h: nat)
    requires BusyOk(busy, flight) && h in flight && flight[h].buf !in busy
    ensures BusyOk(busy, flight - {h})
  {
    var flight' := flight - {h};
    forall b: nat | b in busy ensures InFlight(flight', b) {
      var g: nat :| g in flight && flight[g].buf == b;
      assert g in flight' && flight'[g].buf == b;
    }
  }

  lemma RingDrop(ring: seq<nat>, from: nat, to: nat, q: seq<nat>, flight: map<nat, Req>, stage: Stage, h: nat)
    requires RingHolds(ring, from, to, q, flight, stage) && h in flight && flight[h].stage != stage
    ensures RingHolds(ring, from, to, q, flight - {h}, stage)
  {
  }

  /** What completing a request does: the right sector and the right buffer, in the right direction. */
  ghost predicate Transferred(r: Req, data: map<nat, int>, media: map<nat, int>, data': map<nat, int>, media': map<nat, int>) {
    if r.op.write then data' == data && media' == media[r.op.sector := Held(data, r.buf)]
    else media' == media && data' == data[r.buf := Held(media, r.op.sector)]
  }

  /** A buffer that has been read holds what the device moved. */
  ghost predicate MovedOk(data: map<nat, int>, flight: map<nat, Req>, moved: map<nat, int>) {
    forall h: nat :: h in flight && (flight[h].stage == Posted || flight[h].stage == Acked) && !flight[h].op.write ==>
      h in moved && flight[h].buf in data && data[flight[h].buf] == moved[h]
  }

  lemma MovedEarly(data: map<nat, int>, flight: map<nat, Req>, moved: map<nat, int>, h: nat, r: Req)
    requires MovedOk(data, flight, moved) && (r.stage == Queued || r.stage == Taken)
    ensures MovedOk(data, flight[h := r], moved)
  {
  }

  lemma MovedNow(busy: set<nat>, flight: map<nat, Req>, moved: map<nat, int>, h: nat, data: map<nat, int>, media: map<nat, int>,
                 data': map<nat, int>,
                 media': map<nat, int>)
    requires MovedOk(data, flight, moved) && h in flight && BusyOk(busy, flight) && Transferred(flight[h], data, media, data', media')
    ensures var r := flight[h];
      MovedOk(data', At(flight, h, Posted), moved[h := if r.op.write then Held(data, r.buf) else Held(media, r.op.sector)])
  {
    hide InFlight;
  }

  lemma MovedAcked(data: map<nat, int>, flight: map<nat, Req>, moved: map<nat, int>, h: nat)
    requires MovedOk(data, flight, moved) && h in flight && flight[h].stage == Posted
    ensures MovedOk(data, At(flight, h, Acked), moved)
  {
  }

  lemma MovedDone(data: map<nat, int>, flight: map<nat, Req>, moved: map<nat, int>, h: nat)
    requires MovedOk(data, flight, moved) && h in flight && flight[h].stage == Acked
    ensures MovedOk(data, flight - {h}, moved)
    ensures !flight[h].op.write ==> h in moved && flight[h].buf in data && data[flight[h].buf] == moved[h]
  {
  }

  function Held(m: map<nat, int>, k: nat): (v: int) {
    if k in m then m[k] else 0
  }

  /** Request h in another stage. */
  ghost function At(flight: map<nat, Req>, h: nat, stage: Stage): (f: map<nat, Req>)
    requires h in flight
  {
    flight[h := flight[h].(stage := stage)]
  }

  // ---------------------------------------------------------------------------------------------
  // Moving a request on
  // ---------------------------------------------------------------------------------------------

  lemma FormattedAt(desc: seq<Desc>, ops: seq<Op>, info: seq<Info>, flight: map<nat, Req>, h: nat)
    requires AllFormatted(desc, ops, info, flight) && h in flight
    ensures Formatted(desc, ops, info, h, flight[h])
  {
  }

  lemma AtOwn(free: seq<bool>, own: map<nat, nat>, flight: map<nat, Req>, h: nat, stage: Stage)
    requires OwnOk(free, own, flight) && h in flight
    ensures OwnOk(free, own, At(flight, h, stage))
  {
    var flight' := At(flight, h, stage);
    assert flight'.Keys == flight.Keys;
    assert |flight'| == |flight'.Keys| && |flight| == |flight.Keys|;
    forall g: nat | g in flight' ensures OwnsThree(own, g, flight'[g]) {
      assert OwnsThree(own, g, flight[g]);
    }
  }

  lemma AtFormatted(desc: seq<Desc>, ops: seq<Op>, info: seq<Info>, flight: map<nat, Req>, h: nat, stage: Stage)
    requires AllFormatted(desc, ops, info, flight) && h in flight
    ensures stage != Posted ==> AllFormatted(desc, ops, info, At(flight, h, stage))
    ensures stage == Posted ==> AllFormatted(desc, ops, info[h := info[h].(status := 0)], At(flight, h, stage))
  {
  }

  lemma AtBusy(busy: set<nat>, flight: map<nat, Req>, h: nat, stage: Stage)
    requires BusyOk(busy, flight) && h in flight && flight[h].stage != Acked
    ensures BusyOk(if stage == Acked then busy - {flight[h].buf} else busy, At(flight, h, stage))
  {
    var flight' := At(flight, h, stage);
    forall b: nat | b in busy ensures InFlight(flight', b) {
      var g: nat :| g in flight && flight[g].buf == b;
      assert flight'[g].buf == b;
    }
  }

  lemma StageKeeps(free: seq<bool>, own: map<nat, nat>, desc: seq<Desc>, ops: seq<Op>, info: seq<Info>, busy: set<nat>,
                   flight: map<nat, Req>, h: nat, stage: Stage)
    requires OwnOk(free, own, flight) && AllFormatted(desc, ops, info, flight) && BusyOk(busy, flight)
    requires h in flight && flight[h].stage != Acked && stage == Taken
    ensures OwnOk(free, own, At(flight, h, stage)) && AllFormatted(desc, ops, info, At(flight, h, stage))
    ensures BusyOk(busy, At(flight, h, stage))
  {
    AtOwn(free, own, flight, h, stage);
    AtFormatted(desc, ops, info, flight, h, stage);
    AtBusy(busy, flight, h, stage);
  }

  lemma PostedKeeps(free: seq<bool>, own: map<nat, nat>, desc: seq<Desc>, ops: seq<Op>, info: seq<Info>, busy: set<nat>,
                    flight: map<nat, Req>, h: nat)
    requires OwnOk(free, own, flight) && AllFormatted(desc, ops, info, flight) && BusyOk(busy, flight)
    requires h in flight && flight[h].stage == Taken
    ensures OwnOk(free, own, At(flight, h, Posted)) && BusyOk(busy, At(flight, h, Posted))
    ensures h < |info| && AllFormatted(desc, ops, info[h := info[h].(status := 0)], At(flight, h, Posted))
  {
    AtOwn(free, own, flight, h, Posted);
    AtFormatted(desc, ops, info, flight, h, Posted);
    AtBusy(busy, flight, h, Posted);
  }

  lemma AckKeeps(free: seq<bool>, own: map<nat, nat>, desc: seq<Desc>, ops: seq<Op>, info: seq<Info>, busy: set<nat>,
                 flight: map<nat, Req>, h: nat)
    requires OwnOk(free, own, flight) && AllFormatted(desc, ops, info, flight) && BusyOk(busy, flight)
    requires h in flight && flight[h].stage == Posted
    ensures OwnOk(free, own, At(flight, h, Acked)) && AllFormatted(desc, ops, info, At(flight, h, Acked))
    ensures BusyOk(busy - {flight[h].buf}, At(flight, h, Acked))
  {
    AtOwn(free, own, flight, h, Acked);
    AtFormatted(desc, ops, info, flight, h, Acked);
    AtBusy(busy, flight, h, Acked);
  }

  /** The size of the rings divides 2^16, so positions carry over when an index wraps. */
  lemma Shifted(from: nat, k: nat)
    ensures Slot(Inc(from) + k) == Slot(from + (k + 1))
  {
    var n := (from + 1) / 65536;
    assert from + 1 == 65536 * n + Inc(from);
    assert from + (k + 1) == 8 * (8192 * n) + (Inc(from) + k);
    Multiple(8192 * n, Inc(from) + k);
  }

  lemma Multiple(m: nat, x: nat)
    ensures (8 * m + x) % 8 == x % 8
  {
  }

  /** The oldest entry leaves the ring. */
  lemma RingPop(ring: seq<nat>, from: nat, to: nat, q: seq<nat>, flight: map<nat, Req>, stage: Stage, next: Stage)
    requires RingHolds(ring, from, to, q, flight, stage) && from != to && |q| <= 2 && next != stage
    ensures q != [] && ring[Slot(from)] == q[0] && q[0] in flight && flight[q[0]].stage == stage
    ensures RingHolds(ring, Inc(from), to, q[1..], At(flight, q[0], next), stage)
  {
    var q', from' := q[1..], Inc(from);
    assert ring[Slot(from + 0)] == q[0];
    assert to == (from' + |q'|) % 65536;
    hide Slot, Inc;
    var flight' := At(flight, q[0], next);
    forall k | 0 <= k < |q'| ensures ring[Slot(from' + k)] == q'[k] && q'[k] in flight' && flight'[q'[k]].stage == stage {
      assert ring[Slot(from + (k + 1))] == q[k + 1];
      Shifted(from, k);
    }
    forall g: nat | g in flight' && flight'[g].stage == stage ensures g in q' {
      assert g in q && g != q[0];
    }
  }

  lemma NothingPosted(ring: seq<nat>, from: nat, to: nat, q: seq<nat>, flight: map<nat, Req>, free: seq<bool>, own: map<nat, nat>)
    requires RingHolds(ring, from, to, q, flight, Posted) && OwnOk(free, own, flight) && from == to
    ensures q == []
  {
    QueueFits(free, own, flight, ring, from, to, q, Posted);
  }

  /** The three descriptors of request h. */
  function Chain(desc: seq<Desc>, h: nat, r: Req): (s: seq<Desc>)
    requires h < |desc| && r.d1 < |desc| && r.d2 < |desc|
  {
    desc[h := Desc(Header(h), 16, true, false, r.d1)][r.d1 := Desc(Data(r.buf), 1024, true, !r.op.write, r.d2)]
      [r.d2 := Desc(Status(h), 1, false, true, 0)]
  }

  // ---------------------------------------------------------------------------------------------
  // Starting a request
  // ---------------------------------------------------------------------------------------------

  lemma Sizes(free: seq<bool>, own: map<nat, nat>, flight: map<nat, Req>, desc: seq<Desc>, ops: seq<Op>, info: seq<Info>)
    requires OwnOk(free, own, flight) && AllFormatted(desc, ops, info, flight)
    ensures |free| == |desc| == |ops| == |info| == NUM && |flight| <= 2
  {
    AtMostTwo(free, own, flight);
  }

  lemma NoneTaken(free0: seq<bool>, free: seq<bool>, own: map<nat, nat>, flight: map<nat, Req>, desc0: seq<Desc>, desc: seq<Desc>,
                  ops: seq<Op>, info: seq<Info>)
    requires OwnOk(free0, own, flight) && AllFormatted(desc0, ops, info, flight)
    requires |free| == |free0| && |desc| == |desc0| == |free0|
    requires forall d: nat :: d < |free| ==> (free[d] <==> free0[d])
    requires forall d: nat :: d < |desc| && !free0[d] ==> desc[d] == desc0[d]
    ensures OwnOk(free, own, flight) && AllFormatted(desc, ops, info, flight)
  {
    assert free == free0;
    forall h: nat | h in flight ensures Formatted(desc, ops, info, h, flight[h]) {
      assert OwnsThree(own, h, flight[h]) && Formatted(desc0, ops, info, h, flight[h]);
    }
  }

  /** The descriptors h, r.d1 and r.d2 were free and now belong to h. */
  lemma StartOwn(free0: seq<bool>, free: seq<bool>, own: map<nat, nat>, flight: map<nat, Req>, h: nat, r: Req)
    requires OwnOk(free0, own, flight) && |free| == |free0|
    requires h != r.d1 && h != r.d2 && r.d1 != r.d2 && h < NUM && r.d1 < NUM && r.d2 < NUM
    requires free0[h] && free0[r.d1] && free0[r.d2]
    requires forall d: nat :: d < |free| ==> (free[d] <==> free0[d] && d != h && d != r.d1 && d != r.d2)
    ensures h !in flight && OwnOk(free, own[h := h][r.d1 := h][r.d2 := h], flight[h := r])
  {
    assert h !in flight by {
      assert h in flight ==> OwnsThree(own, h, flight[h]);
    }
    StartOwners(own, flight, h, r);
    hide OwnersOk;
    assert |own[h := h][r.d1 := h][r.d2 := h]| == |own| + 3;
  }

  lemma StartOwners(own: map<nat, nat>, flight: map<nat, Req>, h: nat, r: Req)
    requires OwnersOk(own, flight) && h !in flight && h !in own && r.d1 !in own && r.d2 !in own
    requires h != r.d1 && h != r.d2 && r.d1 != r.d2 && h < NUM && r.d1 < NUM && r.d2 < NUM
    ensures OwnersOk(own[h := h][r.d1 := h][r.d2 := h], flight[h := r])
  {
  }

  /** Formatting the new chain leaves the chains of other requests alone. */
  lemma StartFormatted(free: seq<bool>, own: map<nat, nat>, desc: seq<Desc>, ops: seq<Op>, info: seq<Info>, flight: map<nat, Req>,
                       h: nat, r: Req)
    requires OwnOk(free, own, flight) && AllFormatted(desc, ops, info, flight)
    requires h != r.d1 && h != r.d2 && r.d1 != r.d2 && h < NUM && r.d1 < NUM && r.d2 < NUM
    requires free[h] && free[r.d1] && free[r.d2] && r.buf != 0 && r.stage == Queued
    ensures AllFormatted(Chain(desc, h, r), ops[h := r.op], info[h := Info(r.buf, 0xff)], flight[h := r])
  {
    var desc' := Chain(desc, h, r);
    var flight' := flight[h := r];
    forall g: nat | g in flight' ensures Formatted(desc', ops[h := r.op], info[h := Info(r.buf, 0xff)], g, flight'[g]) {
      if g != h {
        assert OwnsThree(own, g, flight[g]) && Formatted(desc, ops, info, g, flight[g]);
      }
    }
  }

  lemma StartBusy(busy: set<nat>, flight: map<nat, Req>, h: nat, r: Req)
    requires BusyOk(busy, flight) && h !in flight && !InFlight(flight, r.buf) && r.stage != Acked
    ensures BusyOk(busy + {r.buf}, flight[h := r])
  {
    var flight' := flight[h := r];
    forall b: nat | b in busy + {r.buf} ensures InFlight(flight', b) {
      if b == r.buf {
        assert flight'[h].buf == b;
      } else {
        var g: nat :| g in flight && flight[g].buf == b;
        assert flight'[g].buf == b;
      }
    }
  }

  lemma QueueFits(free: seq<bool>, own: map<nat, nat>, flight: map<nat, Req>, ring: seq<nat>, from: nat, to: nat, q: seq<nat>, stage: Stage)
    requires OwnOk(free, own, flight) && RingHolds(ring, from, to, q, flight, stage)
    ensures |q| <= |flight| <= 2 && |ring| == NUM && from < WRAP && to < WRAP
  {
    AtMostTwo(free, own, flight);
    QueueBound(q, flight.Keys);
    assert |flight| == |flight.Keys|;
  }

  /** A new entry goes to a slot of the ring that has been read. */
  lemma RingPush(ring: seq<nat>, from: nat, to: nat, q: seq<nat>, flight: map<nat, Req>, h: nat, r: Req)
    requires RingHolds(ring, from, to, q, flight, r.stage) && |q| <= 2
    requires h in flight ==> flight[h].stage != r.stage
    ensures RingHolds(ring[Slot(to) := h], from, Inc(to), q + [h], flight[h := r], r.stage)
  {
    var q', ring' := q + [h], ring[Slot(to) := h];
    assert h !in q;
    forall k | 0 <= k < |q'| ensures ring'[Slot(from + k)] == q'[k] {
      assert k < |q| ==> ring[Slot(from + k)] == q[k];
      assert Slot(to) == Slot(from + |q|);
    }
  }

  /** A request that the device has taken is posted. */
  lemma PostedRings(avail: seq<nat>, devSeen: nat, availIdx: nat, queue: seq<nat>, used: seq<nat>, seen: nat, usedIdx: nat,
                    posted: seq<nat>,
                    flight: map<nat, Req>, h: nat)
    requires RingHolds(avail, devSeen, availIdx, queue, flight, Queued) && RingHolds(used, seen, usedIdx, posted, flight, Posted)
    requires h in flight && flight[h].stage == Taken && |posted| <= 2
    ensures RingHolds(avail, devSeen, availIdx, queue, At(flight, h, Posted), Queued) && |used| == NUM
    ensures RingHolds(used[Slot(usedIdx) := h], seen, Inc(usedIdx), posted + [h], At(flight, h, Posted), Posted)
  {
    assert |used| == NUM;
    hide RingHolds, Slot, Inc;
    RingPush(used, seen, usedIdx, posted, flight, h, flight[h].(stage := Posted));
    RingOther(avail, devSeen, availIdx, queue, flight, Queued, h, flight[h].(stage := Posted));
  }

  /** A request that neither was nor is of the stage that the ring holds. */
  lemma RingOther(ring: seq<nat>, from: nat, to: nat, q: seq<nat>, flight: map<nat, Req>, stage: Stage, h: nat, r: Req)
    requires RingHolds(ring, from, to, q, flight, stage) && r.stage != stage
    requires h in flight ==> flight[h].stage != stage
    ensures RingHolds(ring, from, to, q, flight[h := r], stage)
  {
    var flight' := flight[h := r];
    assert h !in q;
    forall k | 0 <= k < |q| ensures q[k] in flight' && flight'[q[k]].stage == stage {
      assert q[k] in q;
    }
  }

  lemma Few(free: seq<bool>, idx: seq<nat>)
    requires |idx| <= 2 && forall d: nat :: d < |free| ==> !free[d] || d in idx
    ensures FewFree(free)
  {
    var extra := set x | x in idx;
    if |idx| == 0 {
      assert extra == {};
    } else if |idx| == 1 {
      assert extra == {idx[0]};
    } else {
      assert extra == {idx[0], idx[1]};
    }
    assert AreFew(free, extra);
  }

  /** At most two descriptors are free. */
  ghost predicate FewFree(free: seq<bool>) {
    exists extra: set<nat> :: AreFew(free, extra)
  }

  ghost predicate AreFew(free: seq<bool>, extra: set<nat>) {
    |extra| <= 2 && forall d: nat :: d < |free| ==> !free[d] || d in extra
  }
}
