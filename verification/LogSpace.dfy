/** Space in the log and in the cache: the reservation made by begin_op, when log_write's "too big
    a transaction" panic can be reached, and why a commit always finds a buffer. */
module LogSpace {
  import opened DiskLog
  import opened LogProtocol
  import opened LogRuns
  import opened Sums

  /** Header entries in use or still allowed to the operations in progress. */
  ghost function Claimed(n: nat, used: map<Pid, nat>, budget: nat): (r: int) {
    n + |used| * budget - Sum(used)
  }

  lemma CardRemove(used: map<Pid, nat>, p: Pid)
    requires p in used
    ensures |used| == |used - {p}| + 1
  {
  }

  lemma OneMore(k: nat, budget: nat)
    ensures (k + 1) * budget == k * budget + budget
  {
  }

  lemma ClaimedRemove(n: nat, used: map<Pid, nat>, p: Pid, budget: nat)
    requires p in used
    ensures Claimed(n, used, budget) == Claimed(n, used - {p}, budget) + budget - used[p]
  {
    hide Sum;
    SumRemove(used, p);
    CardRemove(used, p);
    OneMore(|used - {p}|, budget);
  }

  lemma ClaimedLog(n: nat, used: map<Pid, nat>, p: Pid, budget: nat)
    requires p in used
    ensures Claimed(n + 1, used[p := used[p] + 1], budget) == Claimed(n, used, budget)
  {
    var used' := used[p := used[p] + 1];
    ClaimedRemove(n, used, p, budget);
    ClaimedRemove(n + 1, used', p, budget);
    assert used' - {p} == used - {p};
  }

  lemma {:induction false} TotalWithin(used: map<Pid, nat>, budget: nat)
    requires forall p :: p in used ==> used[p] <= budget
    ensures Claimed(0, used, budget) >= 0
    decreases |used|
  {
    if used != map[] {
      var p :| p in used;
      ClaimedRemove(0, used, p, budget);
      assert used == (used - {p})[p := used[p]];
      TotalWithin(used - {p}, budget);
    }
  }

  /** No operation exceeds its budget, and the log has room for what the active ones may add. */
  ghost predicate Reserved(c: Config, s: State) {
    && (forall p :: p in s.used ==> s.used[p] <= c.budget)
    && (!s.mode.Recovering? ==>
          Claimed(|s.lh|, s.used, c.budget) <= LOGSIZE - 2 * (MAXOPBLOCKS - c.budget))
  }

  lemma BeginReserves(n: nat, used: map<Pid, nat>, p: Pid, budget: nat)
    requires budget <= MAXOPBLOCKS && p !in used && (used == map[] ==> n == 0)
    requires n + (|used| + 1) * MAXOPBLOCKS <= LOGSIZE
    ensures Claimed(n, used[p := 0], budget) <= LOGSIZE - 2 * (MAXOPBLOCKS - budget)
  {
  }

  predicate TouchesLog(e: Event) {
    e.BeginOp? || e.EndOp? || e.LogWrite? || e.Work? || e.Crash?
  }

  lemma ReservedFrame(c: Config, s: State, e: Event)
    requires Enabled(c, s, e) && !TouchesLog(e)
    ensures Apply(c, s, e).used == s.used && Apply(c, s, e).lh == s.lh && Apply(c, s, e).mode == s.mode
  {
  }

  lemma ReservedOp(c: Config, s: State, e: Event)
    requires Reserved(c, s) && Enabled(c, s, e) && c.budget <= MAXOPBLOCKS
    requires s.mode.Normal? && s.used == map[] ==> s.lh == []
    requires e.BeginOp? || e.EndOp? || e.LogWrite?
    ensures Reserved(c, Apply(c, s, e))
  {
    hide Claimed;
    match e
    case BeginOp(p) => BeginReserves(|s.lh|, s.used, p, c.budget);
    case EndOp(p) => ClaimedRemove(|s.lh|, s.used, p, c.budget);
    case LogWrite(p, b) =>
      if b !in s.lh {
        ClaimedLog(|s.lh|, s.used, p, c.budget);
      }
  }

  lemma ReservedStep(c: Config, s: State, e: Event)
    requires Inv(c, s) && Reserved(c, s) && Enabled(c, s, e) && c.budget <= MAXOPBLOCKS
    ensures Reserved(c, Apply(c, s, e))
  {
    if e.Work? {
      ReservedWork(c, s);
    } else if e.Crash? {
    } else if TouchesLog(e) {
      assert s.mode.Normal? && s.used == map[] ==> s.lh == [];
      hide Inv, Enabled, Apply, Claimed;
      ReservedOp(c, s, e);
    } else {
      hide Inv, Enabled, Apply, Claimed;
      ReservedFrame(c, s, e);
    }
  }

  lemma ReservedWork(c: Config, s: State)
    requires AtWork(c, s) && Reserved(c, s) && c.budget <= MAXOPBLOCKS
    ensures Reserved(c, DoWork(c, s))
  {
    var s' := DoWork(c, s);
    assert s'.used == map[] && (s'.lh == s.lh || s'.lh == [] || s'.mode.Recovering?);
    assert s.mode.Recovering? && !s'.mode.Recovering? ==> s'.lh == [];
  }

  lemma {:induction false} RunReserved(c: Config, ss: seq<State>, es: seq<Event>, i: nat)
    requires IsRun(c, ss, es) && i < |ss| && c.budget <= MAXOPBLOCKS
    ensures Reserved(c, ss[i])
  {
    if i == 0 {
      var p: Pid :| ss[0] == Boot(ss[0].disk, p);
    } else {
      RunReserved(c, ss, es, i - 1);
      RunInv(c, ss, es, i - 1);
      assert Enabled(c, ss[i - 1], es[i - 1]);
      ReservedStep(c, ss[i - 1], es[i - 1]);
    }
  }

  /** The reservation of begin_op: the header count plus everything the active operations may still
      add fits in the log. */
  lemma ReservationHolds(c: Config, ss: seq<State>, es: seq<Event>, i: nat)
    requires IsRun(c, ss, es) && i < |ss| && c.budget <= MAXOPBLOCKS && !ss[i].mode.Recovering?
    ensures |ss[i].lh| + (|ss[i].used| * c.budget - Sum(ss[i].used)) <= LOGSIZE
    ensures Sum(ss[i].used) <= |ss[i].used| * c.budget
  {
    RunReserved(c, ss, es, i);
    TotalWithin(ss[i].used, c.budget);
  }

  /** With the log that mkfs makes, operations that add fewer than MAXOPBLOCKS blocks never reach
      the "too big a transaction" panic, even though the test precedes absorption. */
  lemma NeverTooBig(c: Config, ss: seq<State>, es: seq<Event>, i: nat)
    requires IsRun(c, ss, es) && i < |ss| && c.budget < MAXOPBLOCKS && LOGSIZE <= c.lay.size
    requires !ss[i].mode.Recovering?
    ensures !TooBig(c, ss[i])
  {
    RunReserved(c, ss, es, i);
    TotalWithin(ss[i].used, c.budget);
  }

  /** end_op never finds `log.committing` set, and log_write never runs outside an operation's
      bracket. */
  lemma NoCommitDuringOp(c: Config, ss: seq<State>, es: seq<Event>, i: nat, p: Pid)
    requires IsRun(c, ss, es) && i < |ss| && p in ss[i].used
    ensures ss[i].mode.Normal?
  {
    RunInv(c, ss, es, i);
  }

  /** Nobody sleeps in begin_op who could go on. */
  lemma NoLostBeginOp(c: Config, ss: seq<State>, es: seq<Event>, i: nat, p: Pid)
    requires IsRun(c, ss, es) && i < |ss| && p in ss[i].asleep
    ensures ss[i].mode.Committing? || |ss[i].lh| + (|ss[i].used| + 1) * MAXOPBLOCKS > LOGSIZE
  {
    RunInv(c, ss, es, i);
  }

  lemma {:induction false} SetOfSeq(bs: seq<int>)
    ensures |set b | b in bs| <= |bs|
  {
    if bs == [] {
      assert (set b | b in bs) == {};
    } else {
      SetOfSeq(bs[1..]);
      assert (set b | b in bs) == {bs[0]} + set b | b in bs[1..];
    }
  }

  /** With the log that mkfs makes, a committing process that meets no buffer in use other than
      logged ones always finds one to recycle, so commit never panics in bget. */
  lemma CommitFindsBuffer(c: Config, ss: seq<State>, es: seq<Event>, i: nat)
    requires IsRun(c, ss, es) && i < |ss| && c.lay.size <= LOGSIZE
    requires forall b :: b in ss[i].cache && ss[i].cache[b].refs != {} ==> b in ss[i].lh
    ensures |ss[i].cache| < NBUF || exists b :: Enabled(c, ss[i], Evict(b))
  {
    var s := ss[i];
    RunInv(c, ss, es, i);
    if forall b :: !Enabled(c, s, Evict(b)) {
      forall b | b in s.cache ensures b in s.lh {
        assert !Enabled(c, s, Evict(b));
      }
      assert s.cache.Keys <= set b | b in s.lh;
      SetOfSeq(s.lh);
      SubsetSize(s.cache.Keys, set b | b in s.lh);
      assert |s.cache| == |s.cache.Keys|;
    }
  }

  /** The home block that a commit reads next, while it holds the log block, is pinned in the cache, so this second bread
      needs no buffer. */
  lemma SecondReadIsCached(c: Config, ss: seq<State>, es: seq<Event>, i: nat, w: Block)
    requires IsRun(c, ss, es) && i < |ss| && ss[i].mode.Committing? && (ss[i].mode.pc.CopyLog? || ss[i].mode.pc.CopyHome?)
    requires ss[i].mode.pc.i < |ss[i].lh|
    ensures var b := ss[i].lh[ss[i].mode.pc.i];
      && b in ss[i].cache && ss[i].cache[b].pinned && ss[i].cache[b].valid
      && Enabled(c, ss[i], Bget(ss[i].mode.pid, b, w))
  {
    var s := ss[i];
    RunInv(c, ss, es, i);
    assert Pending(s, s.lh[s.mode.pc.i]);
  }

  // ---------------------------------------------------------------------------------------------
  // The bound is sharp: a budget of MAXOPBLOCKS is too much for the log that mkfs makes
  // ---------------------------------------------------------------------------------------------

  /** The layout computed by mkfs: log at block 2, LOGSIZE blocks of it, 2000 blocks in all. */
  const Mkfs: Config := Config(Layout(2, LOGSIZE, 2000), MAXOPBLOCKS)

  /** A run with its last state. */
  datatype Trace = Trace(ss: seq<State>, es: seq<Event>) {
    ghost predicate Valid() {
      |ss| > 0 && IsRun(Mkfs, ss, es)
    }

    function Last(): (s: State)
      requires |ss| > 0
    {
      ss[|ss| - 1]
    }
  }

  lemma Extend(t: Trace, e: Event) returns (t': Trace)
    requires t.Valid() && Enabled(Mkfs, t.Last(), e)
    ensures t'.Valid() && t'.Last() == Apply(Mkfs, t.Last(), e)
  {
    hide Enabled, Apply, GoodDisk;
    t' := Trace(t.ss + [Apply(Mkfs, t.Last(), e)], t.es + [e]);
  }

  /** No buffer is in use, n blocks are logged, and all of them lie between 32 and hi. */
  ghost predicate Quiet(s: State, n: nat, hi: nat) {
    && s.mode.Normal? && s.dirty == {} && |s.disk| == 2000
    && |s.lh| == n && |s.cache| == n
    && (forall b :: b in s.cache ==> b < hi)
    && (forall b :: b in s.lh ==> b < hi)
  }

  /** bread, log_write, brelse of block hi by p. */
  lemma LogFresh(t: Trace, p: Pid, n: nat, hi: nat) returns (t': Trace)
    requires t.Valid() && Quiet(t.Last(), n, hi) && p in t.Last().used && t.Last().used[p] < MAXOPBLOCKS
    requires n < LOGSIZE - 1 && 32 <= hi < 2000
    ensures t'.Valid() && Quiet(t'.Last(), n + 1, hi + 1)
    ensures t'.Last().used == t.Last().used[p := t.Last().used[p] + 1]
  {
    hide IsRun;
    t' := Acquire(t, p, n, hi);
    var s := t'.Last();
    assert |s.cache| == n + 1;
    t' := Extend(t', LogWrite(p, hi));
    t' := Extend(t', Release(p, hi));
    t' := Extend(t', Unref(p, hi));
    assert t'.Last().cache.Keys == s.cache.Keys;
    assert |t'.Last().cache.Keys| == |s.cache.Keys|;
  }

  /** bread of block hi by p. */
  lemma Acquire(t: Trace, p: Pid, n: nat, hi: nat) returns (t': Trace)
    requires t.Valid() && Quiet(t.Last(), n, hi) && n < NBUF && hi < 2000
    ensures t'.Valid()
    ensures t'.Last() == t.Last().(cache := t.Last().cache[hi := Buf(true, t.Last().disk[hi], {p}, Some(p), false)])
    ensures |t'.Last().cache| == n + 1
  {
    hide IsRun;
    var s := t.Last();
    t' := Extend(t, Bget(p, hi, s.disk[hi]));
    t' := Extend(t', Lock(p, hi));
    t' := Extend(t', Fill(p, hi));
    assert hi !in s.cache;
    assert t'.Last().cache == s.cache[hi := Buf(true, s.disk[hi], {p}, Some(p), false)];
  }

  lemma {:induction false} LogMany(t: Trace, p: Pid, n: nat, hi: nat, k: nat) returns (t': Trace)
    requires t.Valid() && Quiet(t.Last(), n, hi) && p in t.Last().used && t.Last().used[p] + k <= MAXOPBLOCKS
    requires n + k < LOGSIZE && 32 <= hi && hi + k <= 2000
    ensures t'.Valid() && Quiet(t'.Last(), n + k, hi + k)
    ensures t'.Last().used == t.Last().used[p := t.Last().used[p] + k]
    decreases k
  {
    if k == 0 {
      t' := t;
      assert t.Last().used == t.Last().used[p := t.Last().used[p]];
    } else {
      t' := LogFresh(t, p, n, hi);
      t' := LogMany(t', p, n + 1, hi + 1, k - 1);
    }
  }

  /** Boot and lock the header block. */
  lemma BootLocked(d: Disk) returns (t: Trace)
    requires |d| == 2000 && HeadInRange(d[2]) && HeadBlocks(d[2]) == []
    ensures t.Valid()
    ensures t.Last() == Boot(d, 0).(cache := map[2 := Buf(true, d[2], {0}, Some(0), false)])
  {
    t := Trace([Boot(d, 0)], []);
    assert t.Valid();
    hide IsRun, GoodDisk;
    t := Extend(t, Bget(0, 2, d[2]));
    t := Extend(t, Lock(0, 2));
    t := Extend(t, Fill(0, 2));
  }

  /** Recovery with an empty header rewrites the header and is done. */
  lemma BootRecovered(d: Disk) returns (t: Trace)
    requires |d| == 2000 && HeadInRange(d[2]) && HeadBlocks(d[2]) == []
    ensures t.Valid() && t.Last().mode.Normal? && t.Last().dirty == {} && |t.Last().disk| == 2000
    ensures t.Last().lh == [] && t.Last().used == map[]
    ensures exists w :: t.Last().cache == map[2 := Buf(true, w, {0}, Some(0), false)]
  {
    hide IsRun, GoodDisk;
    t := BootLocked(d);
    t := Extend(t, Work);
    assert t.Last().mode == Recovering(0, FormClear);
    t := Extend(t, Work);
    var w := EncodeHead(d[2], []);
    assert t.Last().cache == map[2 := Buf(true, w, {0}, Some(0), false)];
    assert t.Last().mode == Recovering(0, WriteClear);
    t := Extend(t, Work);
    assert t.Last().mode == Recovering(0, Finish);
    t := Extend(t, Work);
  }

  /** Boot from an empty disk and let recovery finish. */
  lemma Booted() returns (t: Trace)
    ensures t.Valid() && Quiet(t.Last(), 0, 32) && t.Last().used == map[]
  {
    hide IsRun, GoodDisk;
    var zero: Block := seq(WORDS, _ => 0);
    t := BootRecovered(seq(2000, _ => zero));
    t := Extend(t, Release(0, 2));
    t := Extend(t, Unref(0, 2));
    t := Extend(t, Evict(2));
    assert t.Last().cache == map[];
  }

  /** Three operations that log ten, ten and nine blocks, the third starting when the first has
      ended, lead to a state in which the third may still log one block by its budget but log_write
      panics. */
  lemma TenBlocksCanPanic() returns (t: Trace, p: Pid, b: int)
    ensures t.Valid()
    ensures t.Last().mode.Normal? && p in t.Last().used && t.Last().used[p] < Mkfs.budget
    ensures Mkfs.lay.Home(b) && HoldsValid(t.Last(), p, b) && b !in t.Last().lh
    ensures TooBig(Mkfs, t.Last())
  {
    t := Booted();
    hide IsRun;
    t := Extend(t, BeginOp(1));
    t := Extend(t, BeginOp(2));
    assert t.Last().used == map[1 := 0, 2 := 0];
    t := LogMany(t, 1, 0, 32, 10);
    assert t.Last().used == map[1 := 10, 2 := 0];
    t := Extend(t, EndOp(1));
    assert t.Last().used == map[2 := 0];
    t := Extend(t, BeginOp(3));
    assert t.Last().used == map[2 := 0, 3 := 0];
    t := LogMany(t, 2, 10, 42, 10);
    assert t.Last().used == map[2 := 10, 3 := 0];
    t := LogMany(t, 3, 20, 52, 9);
    p, b := 3, 61;
    t := Acquire(t, p, 29, 61);
  }
}
