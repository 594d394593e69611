/** kernel/pipe.c: a ring buffer with 32-bit counters that wrap, as code, and the pipe's users as a
    protocol.  The lock is given up only to sleep or to return, so one critical section is one step. */
module Pipe {

  const PIPESIZE: nat := 512
  const WRAP: nat := 0x1_0000_0000

  /** How a critical section of pipewrite ends: -1, asleep on a full pipe, or a count. */
  datatype WriteEnd = Aborted | Full | Wrote

  /** How a critical section of piperead ends: -1, asleep on an empty pipe, or a count. */
  datatype ReadEnd = Killed | Empty | Read

  /** What the users see: the bytes in the pipe, and which ends are open. */
  datatype View = View(buf: seq<int>, readopen: bool, writeopen: bool)

  /** The loop of pipewrite does not get past byte j: the source ends there, the read end is closed, killed(pr) answers
      true from byte killAt on, the pipe is full, or copyin cannot read the byte. */
  predicate Stuck(v: View, src: seq<int>, start: nat, killAt: int, badAt: int, j: nat) {
    j >= |src| || !v.readopen || killAt <= j || |v.buf| + j >= PIPESIZE + start || j == badAt
  }

  /** How it ends there. */
  function Outcome(v: View, src: seq<int>, start: nat, killAt: int, i: nat): (end: WriteEnd) {
    if i >= |src| then Wrote
    else if !v.readopen || killAt <= i then Aborted
    else if |v.buf| + i >= PIPESIZE + start then Full
    else Wrote
  }

  /** A section of pipewrite puts in bytes start to i - 1 of src, where i is the first byte that it does not get past. */
  ghost predicate WriteSection(v: View, src: seq<int>, start: nat, killAt: int, badAt: int, i: nat, end: WriteEnd, v': View) {
    && start <= i <= |src| && v' == v.(buf := v.buf + src[start..i])
    && Stuck(v, src, start, killAt, badAt, i) && (forall j :: start <= j < i ==> !Stuck(v, src, start, killAt, badAt, j))
    && end == Outcome(v, src, start, killAt, i)
  }

  /** What follows for the user of a pipe: it gives up only on a closed read end or a kill, sleeps only on a full pipe
      that can be read, and returns a count only with everything written or at a byte that cannot be copied. */
  lemma SectionMeans(v: View, src: seq<int>, start: nat, killAt: int, badAt: int, i: nat, end: WriteEnd, v': View)
    requires WriteSection(v, src, start, killAt, badAt, i, end, v') && |v.buf| <= PIPESIZE
    ensures |v'.buf| <= PIPESIZE && (i > start ==> v.readopen)
    ensures end.Aborted? ==> i < |src| && (!v.readopen || killAt <= i)
    ensures end.Full? ==> i < |src| && |v'.buf| == PIPESIZE && v.readopen
    ensures end.Wrote? ==> i == |src| || i == badAt
  {
    if i > start {
      assert !Stuck(v, src, start, killAt, badAt, i - 1);
    }
  }

  /** Where there is room for all, nobody closes or kills, and all bytes can be copied, all are written. */
  lemma WritesAll(v: View, src: seq<int>, start: nat, killAt: int, badAt: int, i: nat, end: WriteEnd, v': View)
    requires WriteSection(v, src, start, killAt, badAt, i, end, v')
    requires v.readopen && killAt >= |src| && |v.buf| + |src| <= PIPESIZE + start && !(start <= badAt < |src|)
    ensures i == |src| && end == Wrote && v'.buf == v.buf + src[start..]
  {
  }

  /** pipewrite is killed after it has put in some bytes and before anything else stops it. */
  predicate KilledMidway(v: View, src: seq<int>, start: nat, killAt: int, badAt: int) {
    v.readopen && start < killAt < |src| && |v.buf| + (killAt - start) <= PIPESIZE && !(start <= badAt < killAt)
  }

  /** Exactly then it returns -1 with bytes written. */
  lemma AbortsExactly(v: View, src: seq<int>, start: nat, killAt: int, badAt: int, i: nat, end: WriteEnd, v': View)
    requires WriteSection(v, src, start, killAt, badAt, i, end, v') && |v.buf| <= PIPESIZE
    ensures end.Aborted? && start < i <==> KilledMidway(v, src, start, killAt, badAt)
  {
    if i > start {
      assert !Stuck(v, src, start, killAt, badAt, i - 1);
    }
    assert start <= badAt < i ==> Stuck(v, src, start, killAt, badAt, badAt);
    if KilledMidway(v, src, start, killAt, badAt) {
      assert Stuck(v, src, start, killAt, badAt, killAt);
      assert forall j :: start <= j < killAt ==> !Stuck(v, src, start, killAt, badAt, j);
    }
  }

  /** A section of piperead on an empty pipe that can still be written gives up if the process was killed, and sleeps if
      not; otherwise it takes as many bytes as it was asked for and there are, up to the first, badAt, that copyout cannot
      store, which is lost. */
  ghost predicate ReadSection(v: View, n: int, killed: bool, badAt: int, removed: seq<int>, i: nat, end: ReadEnd, v': View) {
    && v.buf == removed + v'.buf && v'.readopen == v.readopen && v'.writeopen == v.writeopen
    && if v.buf == [] && v.writeopen then removed == [] && i == 0 && end == (if killed then Killed else Empty)
       else
         var m := if n < 0 then 0 else if n < |v.buf| then n else |v.buf|;
         end == Read && if 0 <= badAt < m then i == badAt && |removed| == badAt + 1 else i == m == |removed|
  }

  // ---------------------------------------------------------------------------------------------
  // Wrapping counters
  // ---------------------------------------------------------------------------------------------

  /** Unsigned subtraction. */
  function Minus(a: nat, b: nat): (r: nat)
    requires a < WRAP && b < WRAP
    ensures r < WRAP && (b + r) % WRAP == a
  {
    (a - b) % WRAP
  }

  /** The slot of the k-th byte counted from counter value c. */
  function SlotAt(c: nat, k: nat): (i: nat)
    ensures i < PIPESIZE
  {
    (c + k) % PIPESIZE
  }

  /** Wrapping does not disturb the slot, because PIPESIZE divides 2 to the 32. */
  lemma SlotAfterWrap(c: nat, k: nat)
    requires c < WRAP && k < WRAP
    ensures ((c + k) % WRAP) % PIPESIZE == SlotAt(c, k)
  {
  }

  lemma MinusNext(a: nat, b: nat)
    requires a < WRAP && b < WRAP && Minus(a, b) < WRAP - 1
    ensures Minus((a + 1) % WRAP, b) == Minus(a, b) + 1
  {
  }

  lemma MinusPrevious(a: nat, b: nat)
    requires a < WRAP && b < WRAP && a != b
    ensures Minus(a, (b + 1) % WRAP) == Minus(a, b) - 1
  {
  }

  lemma SlotShift(c: nat, k: nat)
    requires c < WRAP
    ensures SlotAt((c + 1) % WRAP, k) == SlotAt(c, k + 1)
  {
  }

  /** Bytes less than PIPESIZE apart have different slots. */
  lemma SlotsDiffer(c: nat, j: nat, k: nat)
    requires j < k < j + PIPESIZE
    ensures SlotAt(c, j) != SlotAt(c, k)
  {
  }

  class RingBuffer {
    const data: array<int>
    var nread: nat
    var nwrite: nat
    var readopen: bool
    var writeopen: bool

    ghost predicate Valid()
      reads this
    {
      data.Length == PIPESIZE && nread < WRAP && nwrite < WRAP && Minus(nwrite, nread) <= PIPESIZE
    }

    /** The unread bytes, oldest first. */
    ghost function Bytes(): (s: seq<int>)
      requires Valid()
      reads this, data
      ensures |s| == Minus(nwrite, nread)
    {
      seq(Minus(nwrite, nread), k requires 0 <= k reads this, data => data[SlotAt(nread, k)])
    }

    ghost function Seen(): (v: View)
      requires Valid()
      reads this, data
    {
      View(Bytes(), readopen, writeopen)
    }

    /** pipealloc. */
    constructor ()
      ensures Valid() && fresh(data) && Seen() == View([], true, true)
    {
      data := new int[PIPESIZE];
      readopen, writeopen, nwrite, nread := true, true, 0, 0;
    }

    method Put(ch: int)
      requires Valid() && Minus(nwrite, nread) < PIPESIZE
      modifies `nwrite, data
      ensures Valid() && Seen() == old(Seen()).(buf := old(Bytes()) + [ch])
    {
      ghost var n := Minus(nwrite, nread);
      SlotAfterWrap(nread, n);
      MinusNext(nwrite, nread);
      assert nwrite % PIPESIZE == SlotAt(nread, n);
      hide Minus, SlotAt;
      data[nwrite % PIPESIZE] := ch;
      nwrite := (nwrite + 1) % WRAP;
      forall k | 0 <= k < n ensures SlotAt(nread, k) != SlotAt(nread, n) {
        SlotsDiffer(nread, k, n);
      }
      assert Bytes() == old(Bytes()) + [ch];
    }

    method Get() returns (ch: int)
      requires Valid() && nread != nwrite
      modifies `nread
      ensures Valid() && old(Bytes()) == [ch] + Bytes()
    {
      ghost var n, c := Minus(nwrite, nread), nread;
      MinusPrevious(nwrite, nread);
      ch := data[nread % PIPESIZE];
      nread := (nread + 1) % WRAP;
      assert ch == data[SlotAt(c, 0)];
      hide Minus, SlotAt;
      forall k | 0 <= k < n - 1 ensures SlotAt(nread, k) == SlotAt(c, k + 1) {
        SlotShift(c, k);
      }
      assert old(Bytes()) == [ch] + Bytes();
    }

    /** The test for a full pipe. */
    lemma FullTest()
      requires Valid()
      ensures nwrite == (nread + PIPESIZE) % WRAP <==> |Bytes()| == PIPESIZE
    {
    }

    /** One critical section of pipewrite, from byte start on.  killed(pr) first answers true at byte
        killAt, and byte badAt is the first that copyin cannot read. */
    method PipeWrite(src: seq<int>, start: nat, killAt: int, badAt: int) returns (i: nat, end: WriteEnd)
      requires Valid() && start <= |src|
      modifies `nwrite, data
      ensures Valid() && WriteSection(old(Seen()), src, start, killAt, badAt, i, end, Seen())
      ensures end.Aborted? && start < i <==> KilledMidway(old(Seen()), src, start, killAt, badAt)
    {
      hide KilledMidway, Minus, SlotAt;
      i := start;
      ghost var v := Seen();
      assert src[start..start] == [];
      while i < |src|
        invariant start <= i <= |src| && Valid()
        invariant Seen() == v.(buf := v.buf + src[start..i])
        invariant forall j :: start <= j < i ==> !Stuck(v, src, start, killAt, badAt, j)
      {
        FullTest();
        if !readopen || killAt <= i {
          AbortsExactly(v, src, start, killAt, badAt, i, Aborted, Seen());
          return i, Aborted;
        }
        if nwrite == (nread + PIPESIZE) % WRAP {
          AbortsExactly(v, src, start, killAt, badAt, i, Full, Seen());
          return i, Full;
        }
        if i == badAt {
          AbortsExactly(v, src, start, killAt, badAt, i, Wrote, Seen());
          return i, Wrote;
        }
        Put(src[i]);
        assert src[start..i + 1] == src[start..i] + [src[i]];
        i := i + 1;
      }
      end := Wrote;
      AbortsExactly(v, src, start, killAt, badAt, i, end, Seen());
    }

    /** One critical section of piperead.  The loop that waits for data gives up or sleeps at most once
        in it. */
    method PipeRead(n: int, killed: bool, badAt: int) returns (ghost removed: seq<int>, i: nat, end: ReadEnd)
      requires Valid()
      modifies `nread
      ensures Valid() && ReadSection(old(Seen()), n, killed, badAt, removed, i, end, Seen())
    {
      removed, i := [], 0;
      EmptyTest();
      if nread == nwrite && writeopen {
        end := if killed then Killed else Empty;
        return;
      }
      end := Read;
      ghost var v := Seen();
      while i < n
        invariant 0 <= i && (i == 0 || i <= n) && Valid() && writeopen == v.writeopen && readopen == v.readopen
        invariant v.buf == removed + Bytes() && |removed| == i && !(0 <= badAt < i)
      {
        EmptyTest();
        if nread == nwrite {
          return;
        }
        var ch := Get();
        ghost var rest := Bytes();
        assert removed + ([ch] + rest) == (removed + [ch]) + rest;
        removed := removed + [ch];
        if i == badAt {
          return;
        }
        i := i + 1;
      }
    }

    /** The test for an empty pipe. */
    lemma EmptyTest()
      requires Valid()
      ensures nread == nwrite <==> Bytes() == []
    {
    }

    /** pipeclose; free says whether it gives the page back. */
    method Close(writable: bool) returns (free: bool)
      requires Valid()
      modifies `readopen, `writeopen
      ensures Valid() && (free <==> !readopen && !writeopen)
      ensures Seen() == if writable then old(Seen()).(writeopen := false) else old(Seen()).(readopen := false)
    {
      if writable {
        writeopen := false;
      } else {
        readopen := false;
      }
      free := !readopen && !writeopen;
    }
  }

  // ---------------------------------------------------------------------------------------------
  // The users of a pipe
  // ---------------------------------------------------------------------------------------------

  type Pid = nat

  /** A call of pipewrite that has put in its first i bytes and slept. */
  datatype Call = Call(src: seq<int>, i: nat)

  /** `written` and `removed` are all bytes that have gone in and come out; `writers` sleep on nwrite,
      `readers` on nread.  `calls` are the calls of pipewrite that have begun and not returned, and `put` is what
      each of them has put in.  Between two critical sections the lock is free. */
  datatype State = State(v: View, written: seq<int>, removed: seq<int>, writers: set<Pid>, readers: set<Pid>,
                         calls: map<Pid, Call>, put: map<Pid, seq<int>>)

  datatype Event =
    | WriteStep(p: Pid, src: seq<int>, killAt: int, badAt: int, i: nat, end: WriteEnd)
    | ReadStep(p: Pid, n: int, killed: bool, badAt: int, got: seq<int>, i: nat, rend: ReadEnd)
    | CloseStep(writable: bool)
    | KillStep(p: Pid)

  /** Where the call of p goes on: after its sleep, or at its first byte. */
  function StartOf(s: State, p: Pid): (k: nat) {
    if p in s.calls then s.calls[p].i else 0
  }

  function PutBy(s: State, p: Pid): (b: seq<int>) {
    if p in s.put then s.put[p] else []
  }

  /** One critical section, with the wakeups that the source performs in it: pipewrite wakes the
      readers before it sleeps and before it returns a count, but not when it returns -1. */
  ghost predicate Next(s: State, e: Event, s': State) {
    match e
    case WriteStep(p, src, killAt, badAt, i, end) =>
      && p !in s.writers && p !in s.readers && (p in s.calls ==> src == s.calls[p].src)
      && WriteSection(s.v, src, StartOf(s, p), killAt, badAt, i, end, s'.v)
      && s'.written == s.written + src[StartOf(s, p)..i] && s'.removed == s.removed
      && s'.writers == (if end.Full? then s.writers + {p} else s.writers)
      && s'.readers == (if end.Aborted? then s.readers else {})
      && s'.calls == (if end.Full? then s.calls[p := Call(src, i)] else s.calls - {p})
      && s'.put == (if end.Full? then s.put[p := PutBy(s, p) + src[StartOf(s, p)..i]] else s.put - {p})
    case ReadStep(p, n, killed, badAt, got, i, end) =>
      && p !in s.writers && p !in s.readers && p !in s.calls
      && ReadSection(s.v, n, killed, badAt, got, i, end, s'.v)
      && s'.written == s.written && s'.removed == s.removed + got
      && s'.writers == (if end.Read? then {} else s.writers)
      && s'.readers == (if end.Empty? then s.readers + {p} else s.readers)
      && s'.calls == s.calls && s'.put == s.put
    case CloseStep(writable) =>
      if writable then s' == s.(v := s.v.(writeopen := false), readers := {})
      else s' == s.(v := s.v.(readopen := false), writers := {})
    case KillStep(p) => s' == s.(writers := s.writers - {p}, readers := s.readers - {p})
  }

  ghost predicate IsRun(ss: seq<State>, es: seq<Event>) {
    && |ss| == |es| + 1 && ss[0] == State(View([], true, true), [], [], {}, {}, map[], map[])
    && (forall i :: 0 <= i < |es| ==> Next(ss[i], es[i], ss[i + 1]))
  }

  ghost predicate Inv(s: State) {
    && |s.v.buf| <= PIPESIZE
    && s.written == s.removed + s.v.buf
    && (s.writers != {} ==> |s.v.buf| == PIPESIZE && s.v.readopen)
    && CallsOk(s)
  }

  /** The calls of pipewrite that are under way have put in the first bytes of their sources. */
  ghost predicate CallsOk(s: State) {
    && s.put.Keys == s.calls.Keys && s.writers <= s.calls.Keys
    && forall p :: p in s.calls ==> p in s.put && s.calls[p].i <= |s.calls[p].src| && s.put[p] == s.calls[p].src[..s.calls[p].i]
  }

  lemma CallsStep(s: State, e: Event, s': State)
    requires CallsOk(s) && Next(s, e, s')
    ensures CallsOk(s')
  {
    hide Stuck, Outcome;
    if e.WriteStep? {
      assert e.src[..StartOf(s, e.p)] + e.src[StartOf(s, e.p)..e.i] == e.src[..e.i];
    }
  }

  lemma StepKeepsInv(s: State, e: Event, s': State)
    requires Inv(s) && Next(s, e, s')
    ensures Inv(s')
  {
    CallsStep(s, e, s');
    hide CallsOk, Stuck, Outcome;
    if e.WriteStep? {
      SectionMeans(s.v, e.src, StartOf(s, e.p), e.killAt, e.badAt, e.i, e.end, s'.v);
    }
  }

  lemma {:induction false} RunInv(ss: seq<State>, es: seq<Event>, i: nat)
    requires IsRun(ss, es) && i < |ss|
    ensures Inv(ss[i])
  {
    if i > 0 {
      RunInv(ss, es, i - 1);
      StepKeepsInv(ss[i - 1], es[i - 1], ss[i]);
    }
  }

  /** FIFO: under any interleaving of readers and writers the bytes that came out are the first of the
      bytes that went in, in order, and the rest are in the pipe. */
  lemma FirstInFirstOut(ss: seq<State>, es: seq<Event>, i: nat)
    requires IsRun(ss, es) && i < |ss|
    ensures ss[i].removed <= ss[i].written
    ensures ss[i].v.buf == ss[i].written[|ss[i].removed|..] && |ss[i].v.buf| <= PIPESIZE
  {
    RunInv(ss, es, i);
  }

  /** However often it slept, a call of pipewrite has put in the first bytes of its source, in order, each once; and when
      it returns a count, that is their number, and either all are in or the next cannot be copied. */
  lemma CallWritesPrefix(ss: seq<State>, es: seq<Event>, i: nat)
    requires IsRun(ss, es) && i < |es| && es[i].WriteStep?
    ensures var e, s := es[i], ss[i];
      && StartOf(s, e.p) <= e.i <= |e.src| && PutBy(s, e.p) + e.src[StartOf(s, e.p)..e.i] == e.src[..e.i]
      && (e.end.Wrote? ==> e.i == |e.src| || e.i == e.badAt)
  {
    RunInv(ss, es, i);
    var s, e := ss[i], es[i];
    assert Next(s, e, ss[i + 1]);
    SectionMeans(s.v, e.src, StartOf(s, e.p), e.killAt, e.badAt, e.i, e.end, ss[i + 1].v);
    assert e.src[..StartOf(s, e.p)] + e.src[StartOf(s, e.p)..e.i] == e.src[..e.i];
  }

  /** A sleeping writer faces a full pipe whose read end is open. */
  lemma SleepingWriterIsBlocked(ss: seq<State>, es: seq<Event>, i: nat, p: Pid)
    requires IsRun(ss, es) && i < |ss| && p in ss[i].writers
    ensures |ss[i].v.buf| == PIPESIZE && ss[i].v.readopen
  {
    RunInv(ss, es, i);
  }

  /** A sleeping reader faces an empty pipe whose write end is open. */
  ghost predicate ReadersBlocked(s: State) {
    s.readers != {} ==> s.v.buf == [] && s.v.writeopen
  }

  /** A writer that is killed midway while readers sleep. */
  predicate Strands(s: State, e: Event) {
    e.WriteStep? && s.readers != {} && KilledMidway(s.v, e.src, StartOf(s, e.p), e.killAt, e.badAt)
  }

  /** The one step that breaks this is pipewrite returning -1 after it has written something: it wakes nobody. */
  lemma ReadersBlockedExactly(s: State, e: Event, s': State)
    requires Inv(s) && ReadersBlocked(s) && Next(s, e, s')
    ensures ReadersBlocked(s') <==> !Strands(s, e)
  {
    if e.WriteStep? {
      AbortsExactly(s.v, e.src, StartOf(s, e.p), e.killAt, e.badAt, e.i, e.end, s'.v);
      hide Stuck, KilledMidway;
    }
  }

  /** Along a run, sleeping readers are blocked throughout exactly if no step is such a step. */
  lemma {:induction false} RunExact(ss: seq<State>, es: seq<Event>, k: nat)
    requires IsRun(ss, es) && k <= |es|
    ensures (forall i :: 0 <= i <= k ==> ReadersBlocked(ss[i])) <==> (forall i :: 0 <= i < k ==> !Strands(ss[i], es[i]))
  {
    hide ReadersBlocked, Next, Strands, Inv;
    if k == 0 {
      NoReaders(ss[0]);
    } else {
      RunExact(ss, es, k - 1);
      RunInv(ss, es, k - 1);
      if ReadersBlocked(ss[k - 1]) {
        ReadersBlockedExactly(ss[k - 1], es[k - 1], ss[k]);
      }
    }
  }

  lemma NoReaders(s: State)
    requires s.readers == {}
    ensures ReadersBlocked(s)
  {
  }

  /** A reader sleeps on the empty pipe; a writer puts in one byte, is killed, and returns -1; the reader
      sleeps on although there is a byte to read. */
  lemma KilledWriterStrandsReader() returns (ss: seq<State>, es: seq<Event>)
    ensures IsRun(ss, es) && !ReadersBlocked(ss[|es|])
  {
    var s0 := State(View([], true, true), [], [], {}, {}, map[], map[]);
    var s1 := s0.(readers := {1});
    var s2 := s1.(v := View([7], true, true), written := [7]);
    es := [ReadStep(1, 1, false, -1, [], 0, Empty), WriteStep(2, [7, 8], 1, -1, 1, Aborted)];
    ss := [s0, s1, s2];
    assert [7, 8][0..1] == [7];
    assert s1.v.buf + [7] == [7];
    assert Next(s0, es[0], s1);
    assert Next(s1, es[1], s2);
  }
}
