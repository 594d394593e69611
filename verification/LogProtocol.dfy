/** The write-ahead log and the buffer cache as a concurrent protocol (kernel/log.c, kernel/bio.c).

    A state holds the disk, the cache, the in-memory log header and the position of the process
    that is committing or recovering.  Any number of processes interleave; each event below is one
    critical section or one disk transfer of the source, and a crash may happen between any two. */
module LogProtocol {
  import opened DiskLog

  type Pid = nat

  datatype Option<+T> = None | Some(value: T)

  /** A cached block: `refs` are the processes between `bget` and the end of `brelse`, `holder` is
      the owner of the sleep-lock; together with the pin they make up the source's `refcnt`. */
  datatype Buf = Buf(valid: bool, data: Block, refs: set<Pid>, holder: Option<Pid>, pinned: bool)

  /** Where `commit` or `recover_from_log` stands.  Copy steps change the buffer (memmove), Write
      steps are the `bwrite` that follows. */
  datatype Pc =
    | ReadHead
    | CopyLog(i: nat)
    | WriteLog(i: nat)
    | FormHead
    | WriteHead
    | CopyHome(i: nat)
    | WriteHome(i: nat)
    | Unpin(i: nat)
    | FormClear
    | WriteClear
    | Finish

  datatype Mode = Normal | Committing(pid: Pid, pc: Pc) | Recovering(pid: Pid, pc: Pc)

  /** `used` maps each process inside begin_op/end_op to the number of blocks it has added to the
      log, so `log.outstanding` is its size.  `dirty` are the blocks whose buffer was changed by its
      holder and neither logged nor written yet; `asleep` are the processes waiting in `begin_op`. */
  datatype State = State(disk: Disk, cache: map<int, Buf>, lh: seq<int>, used: map<Pid, nat>,
                         mode: Mode, dirty: set<int>, asleep: set<Pid>)

  /** The log layout, and the number of new blocks an operation may log. */
  datatype Config = Config(lay: Layout, budget: nat)

  datatype Event =
    | Bget(p: Pid, b: int, junk: Block)
    | Evict(b: int)
    | Lock(p: Pid, b: int)
    | Fill(p: Pid, b: int)
    | Modify(p: Pid, b: int, w: Block)
    | LogWrite(p: Pid, b: int)
    | Release(p: Pid, b: int)
    | Unref(p: Pid, b: int)
    | BeginOp(p: Pid)
    | BeginSleep(p: Pid)
    | EndOp(p: Pid)
    | Work
    | Crash(p: Pid)

  // ---------------------------------------------------------------------------------------------
  // Steps
  // ---------------------------------------------------------------------------------------------

  predicate Holds(s: State, p: Pid, b: int) {
    b in s.cache && s.cache[b].holder == Some(p)
  }

  predicate HoldsValid(s: State, p: Pid, b: int) {
    Holds(s, p, b) && s.cache[b].valid
  }

  /** The test in `begin_op`. */
  predicate MayBegin(s: State) {
    s.mode.Normal? && |s.lh| + (|s.used| + 1) * MAXOPBLOCKS <= LOGSIZE
  }

  function Slot(c: Config, i: nat): (b: int) {
    c.lay.start + 1 + i
  }

  predicate InRange(s: State, b: int) {
    0 <= b < |s.disk|
  }

  /** The condition under which `log_write` panics with "too big a transaction". */
  predicate TooBig(c: Config, s: State) {
    |s.lh| >= LOGSIZE || |s.lh| >= c.lay.size - 1
  }

  /** The worker's buffers are locked and filled, so that its next step can be taken. */
  predicate WorkReady(c: Config, s: State, p: Pid, pc: Pc) {
    match pc
    case ReadHead => HoldsValid(s, p, c.lay.start) && HeadInRange(s.cache[c.lay.start].data)
    case CopyLog(i) => i < |s.lh| && HoldsValid(s, p, Slot(c, i)) && HoldsValid(s, p, s.lh[i])
    case WriteLog(i) => i < |s.lh| && Holds(s, p, Slot(c, i)) && InRange(s, Slot(c, i))
    case FormHead => HoldsValid(s, p, c.lay.start) && |s.lh| <= LOGSIZE
    case WriteHead => Holds(s, p, c.lay.start) && InRange(s, c.lay.start)
    case CopyHome(i) => i < |s.lh| && HoldsValid(s, p, Slot(c, i)) && HoldsValid(s, p, s.lh[i])
    case WriteHome(i) => i < |s.lh| && Holds(s, p, s.lh[i]) && InRange(s, s.lh[i])
    case Unpin(i) => i < |s.lh| && s.lh[i] in s.cache
    case FormClear => HoldsValid(s, p, c.lay.start)
    case WriteClear => Holds(s, p, c.lay.start) && InRange(s, c.lay.start)
    case Finish => true
  }

  predicate Enabled(c: Config, s: State, e: Event) {
    match e
    case Bget(p, b, _) => InRange(s, b) && (b in s.cache || |s.cache| < NBUF)
    case Evict(b) => b in s.cache && s.cache[b].refs == {} && !s.cache[b].pinned
    case Lock(p, b) => b in s.cache && p in s.cache[b].refs && s.cache[b].holder.None?
    case Fill(p, b) => Holds(s, p, b) && !s.cache[b].valid && InRange(s, b)
    case Modify(p, b, _) => s.mode.Normal? && p in s.used && c.lay.Home(b) && HoldsValid(s, p, b)
    case LogWrite(p, b) =>
      && s.mode.Normal? && p in s.used && c.lay.Home(b) && HoldsValid(s, p, b)
      && !TooBig(c, s) && (b in s.lh || s.used[p] < c.budget)
    case Release(p, b) => Holds(s, p, b) && b !in s.dirty
    case Unref(p, b) => b in s.cache && p in s.cache[b].refs && s.cache[b].holder != Some(p)
    case BeginOp(p) => p !in s.used && MayBegin(s)
    case BeginSleep(p) => p !in s.used && !s.mode.Recovering? && !MayBegin(s)
    case EndOp(p) => p in s.used && s.mode.Normal? && (forall b :: b in s.dirty ==> !Holds(s, p, b))
    case Work =>
      (s.mode.Committing? || s.mode.Recovering?) && WorkReady(c, s, s.mode.pid, s.mode.pc)
    case Crash(_) => true
  }

  function WithData(s: State, b: int, w: Block): (s': State)
    requires b in s.cache
  {
    s.(cache := s.cache[b := s.cache[b].(data := w)], dirty := s.dirty + {b})
  }

  /** `bwrite`: one atomic transfer of the buffer to the disk. */
  function Written(s: State, b: int): (s': State)
    requires b in s.cache && InRange(s, b)
  {
    s.(disk := s.disk[b := s.cache[b].data], dirty := s.dirty - {b})
  }

  function AtPc(s: State, pc: Pc): (s': State)
    requires !s.mode.Normal?
  {
    s.(mode := s.mode.(pc := pc))
  }

  function AfterInstall(s: State, i: nat): (pc: Pc) {
    if i + 1 < |s.lh| then CopyHome(i + 1) else FormClear
  }

  function DoWork(c: Config, s: State): (s': State)
    requires Enabled(c, s, Work)
  {
    var start := c.lay.start;
    match s.mode.pc
    case ReadHead =>
      var lh := HeadBlocks(s.cache[start].data);
      AtPc(s.(lh := lh), if lh == [] then FormClear else CopyHome(0))
    case CopyLog(i) => AtPc(WithData(s, Slot(c, i), s.cache[s.lh[i]].data), WriteLog(i))
    case WriteLog(i) => AtPc(Written(s, Slot(c, i)), if i + 1 < |s.lh| then CopyLog(i + 1) else FormHead)
    case FormHead => AtPc(WithData(s, start, EncodeHead(s.cache[start].data, s.lh)), WriteHead)
    case WriteHead => AtPc(Written(s, start), CopyHome(0))
    case CopyHome(i) => AtPc(WithData(s, s.lh[i], s.cache[Slot(c, i)].data), WriteHome(i))
    case WriteHome(i) =>
      AtPc(Written(s, s.lh[i]), if s.mode.Recovering? then AfterInstall(s, i) else Unpin(i))
    case Unpin(i) =>
      var b := s.lh[i];
      AtPc(s.(cache := s.cache[b := s.cache[b].(pinned := false)]), AfterInstall(s, i))
    case FormClear =>
      AtPc(WithData(s, start, EncodeHead(s.cache[start].data, [])).(lh := []), WriteClear)
    case WriteClear => AtPc(Written(s, start), Finish)
    case Finish => s.(mode := Normal, asleep := {})
  }

  function Apply(c: Config, s: State, e: Event): (s': State)
    requires Enabled(c, s, e)
  {
    match e
    case Bget(p, b, junk) =>
      if b in s.cache then
        s.(cache := s.cache[b := s.cache[b].(refs := s.cache[b].refs + {p})])
      else
        s.(cache := s.cache[b := Buf(false, junk, {p}, None, false)])
    case Evict(b) => s.(cache := s.cache - {b})
    case Lock(p, b) => s.(cache := s.cache[b := s.cache[b].(holder := Some(p))])
    case Fill(p, b) => s.(cache := s.cache[b := s.cache[b].(valid := true, data := s.disk[b])])
    case Modify(p, b, w) => WithData(s, b, w)
    case LogWrite(p, b) =>
      if b in s.lh then
        s.(dirty := s.dirty - {b})
      else
        s.(dirty := s.dirty - {b}, lh := s.lh + [b], used := s.used[p := s.used[p] + 1],
           cache := s.cache[b := s.cache[b].(pinned := true)])
    case Release(p, b) => s.(cache := s.cache[b := s.cache[b].(holder := None)])
    case Unref(p, b) => s.(cache := s.cache[b := s.cache[b].(refs := s.cache[b].refs - {p})])
    case BeginOp(p) => s.(used := s.used[p := 0], asleep := s.asleep - {p})
    case BeginSleep(p) => s.(asleep := s.asleep + {p})
    case EndOp(p) =>
      var used := s.used - {p};
      if used == map[] then
        s.(used := used, mode := Committing(p, if s.lh == [] then Finish else CopyLog(0)))
      else
        s.(used := used, asleep := {})
    case Work => DoWork(c, s)
    case Crash(p) => Boot(s.disk, p)
  }

  /** What a (re)boot starts from: nothing but the disk, and recovery about to run. */
  function Boot(d: Disk, p: Pid): (s: State) {
    State(d, map[], [], map[], Recovering(p, ReadHead), {}, {})
  }

  /** The header write that commits a transaction. */
  predicate CommitPoint(s: State, e: Event) {
    e.Work? && s.mode.Committing? && s.mode.pc.WriteHead?
  }

  // ---------------------------------------------------------------------------------------------
  // Invariant
  // ---------------------------------------------------------------------------------------------

  /** The contents of block `b` as every reader sees them. */
  function View(s: State, b: int): (w: Block)
    requires InRange(s, b)
  {
    if b in s.cache && s.cache[b].valid then s.cache[b].data else s.disk[b]
  }

  /** How many entries of `lh` have been installed. */
  function Done(s: State): (k: nat) {
    if s.mode.Normal? then 0
    else match s.mode.pc
      case CopyHome(i) => i
      case WriteHome(i) => i
      case Unpin(i) => i + 1
      case FormClear => |s.lh|
      case _ => 0
  }

  /** The logged blocks whose newest contents are only in the cache and in the log. */
  ghost predicate Pending(s: State, b: int) {
    !s.mode.Recovering? && exists j :: Done(s) <= j < |s.lh| && s.lh[j] == b
  }

  ghost predicate CacheOk(c: Config, s: State) {
    && (forall b :: b in s.cache ==> InRange(s, b))
    && (forall b :: b in s.cache && s.cache[b].holder.Some? ==> s.cache[b].holder.value in s.cache[b].refs)
    && (forall b :: b in s.dirty ==> b in s.cache && s.cache[b].valid && s.cache[b].holder.Some?)
    && (forall b :: Pending(s, b) ==> b in s.cache && s.cache[b].valid && s.cache[b].pinned)
    && (forall b :: b in s.cache && s.cache[b].pinned ==>
          !s.mode.Recovering? && b in s.lh && s.cache[b].valid &&
          (Pending(s, b) || (s.mode.Committing? && s.mode.pc.Unpin? && s.mode.pc.i < |s.lh| && b == s.lh[s.mode.pc.i])))
    && (forall b :: b in s.cache && s.cache[b].valid && b !in s.dirty && !Pending(s, b) ==>
          s.cache[b].data == s.disk[b])
  }

  /** Which blocks may be dirty: those an operation is changing, or the worker's own target. */
  ghost predicate DirtyOk(c: Config, s: State) {
    match s.mode
    case Normal =>
      forall b :: b in s.dirty ==> c.lay.Home(b) && b in s.cache && s.cache[b].holder.Some? && s.cache[b].holder.value in s.used
    case _ =>
      && (forall b :: b in s.dirty ==> Holds(s, s.mode.pid, b))
      && match s.mode.pc
         case WriteLog(i) => s.dirty == {Slot(c, i)}
         case WriteHead => s.dirty == {c.lay.start}
         case WriteClear => s.dirty == {c.lay.start}
         case WriteHome(i) => i < |s.lh| && s.dirty == {s.lh[i]}
         case _ => s.dirty == {}
  }

  ghost predicate BeforeCommit(c: Config, s: State, i: nat)
    requires GoodDisk(c.lay, s.disk) && GoodList(c.lay, s.lh)
  {
    && OnDisk(c.lay, s.disk) == []
    && i <= |s.lh|
    && s.mode.Committing?
    && (forall j :: 0 <= j < i ==> s.lh[j] in s.cache && s.disk[Slot(c, j)] == s.cache[s.lh[j]].data)
  }

  ghost predicate WhileInstalling(c: Config, s: State, k: nat)
    requires GoodDisk(c.lay, s.disk) && GoodList(c.lay, s.lh)
  {
    && OnDisk(c.lay, s.disk) == s.lh
    && k <= |s.lh|
    && (forall j :: 0 <= j < k ==> s.disk[s.lh[j]] == s.disk[Slot(c, j)])
    && (s.mode.Committing? ==>
          forall j :: k <= j < |s.lh| ==> s.lh[j] in s.cache && s.disk[Slot(c, j)] == s.cache[s.lh[j]].data)
  }

  ghost predicate DiskOk(c: Config, s: State)
    requires GoodDisk(c.lay, s.disk) && GoodList(c.lay, s.lh)
  {
    var start := c.lay.start;
    if s.mode.Normal? then OnDisk(c.lay, s.disk) == []
    else match s.mode.pc
      case ReadHead => s.mode.Recovering? && s.lh == []
      case CopyLog(i) => i < |s.lh| && BeforeCommit(c, s, i)
      case WriteLog(i) =>
        && i < |s.lh| && BeforeCommit(c, s, i)
        && Slot(c, i) in s.cache && s.lh[i] in s.cache && s.cache[Slot(c, i)].data == s.cache[s.lh[i]].data
      case FormHead => s.lh != [] && BeforeCommit(c, s, |s.lh|)
      case WriteHead =>
        && s.lh != [] && BeforeCommit(c, s, |s.lh|) && start in s.cache
        && HeadInRange(s.cache[start].data) && HeadBlocks(s.cache[start].data) == s.lh
      case CopyHome(i) => i < |s.lh| && WhileInstalling(c, s, i)
      case WriteHome(i) =>
        && i < |s.lh| && WhileInstalling(c, s, i)
        && s.lh[i] in s.cache && s.cache[s.lh[i]].data == s.disk[Slot(c, i)]
      case Unpin(i) => i < |s.lh| && s.mode.Committing? && WhileInstalling(c, s, i + 1)
      case FormClear => WhileInstalling(c, s, |s.lh|)
      case WriteClear =>
        && s.lh == [] && Installed(c.lay, s.disk) && start in s.cache
        && HeadInRange(s.cache[start].data) && HeadBlocks(s.cache[start].data) == []
      case Finish => s.lh == [] && OnDisk(c.lay, s.disk) == []
  }

  /** A process asleep in `begin_op` could not proceed if it ran. */
  ghost predicate NoLostBegin(s: State) {
    && (s.asleep != {} ==> !s.mode.Recovering? && !MayBegin(s))
    && (forall p :: p in s.asleep ==> p !in s.used)
  }

  ghost predicate Inv(c: Config, s: State) {
    && GoodDisk(c.lay, s.disk)
    && GoodList(c.lay, s.lh)
    && CacheOk(c, s)
    && DirtyOk(c, s)
    && DiskOk(c, s)
    && (!s.mode.Normal? ==> s.used == map[])
    && (s.mode.Normal? && s.used == map[] ==> s.lh == [])
    && NoLostBegin(s)
  }

  // ---------------------------------------------------------------------------------------------
  // Every step keeps the invariant
  // ---------------------------------------------------------------------------------------------

  /** The durable image changes at the commit point only, and then to exactly what readers see. */
  ghost predicate DurableStep(c: Config, s: State, e: Event, s': State)
    requires Inv(c, s) && Inv(c, s')
  {
    if CommitPoint(s, e) then
      forall b :: c.lay.Home(b) ==> Durable(c.lay, s'.disk, b) == View(s, b)
    else
      SameDurable(c.lay, s.disk, s'.disk)
  }

  /** Readers see a plain map from blocks to contents that only `Modify` changes. */
  ghost predicate ViewStep(c: Config, s: State, e: Event, s': State)
    requires Inv(c, s) && Inv(c, s')
  {
    && (!e.Crash? && !s.mode.Recovering? ==>
          forall b :: c.lay.Home(b) ==>
            View(s', b) == if e.Modify? && e.b == b then e.w else View(s, b))
    && (s.mode.Recovering? && !s'.mode.Recovering? ==>
          forall b :: c.lay.Home(b) ==> View(s', b) == Durable(c.lay, s'.disk, b))
  }

  ghost predicate Good(c: Config, s: State, e: Event, s': State)
    requires Inv(c, s)
  {
    Inv(c, s') && DurableStep(c, s, e, s') && ViewStep(c, s, e, s')
  }

  lemma SamePending(s: State, s': State)
    requires s.lh == s'.lh && s.mode.Recovering? == s'.mode.Recovering? && Done(s) == Done(s')
    ensures forall b :: Pending(s', b) <==> Pending(s, b)
  {
  }

  /** The disk phase depends on the cache only through blocks that are pending or dirty. */
  lemma DiskOkFrame(c: Config, s: State, s': State)
    requires Inv(c, s)
    requires s'.disk == s.disk && s'.lh == s.lh && s'.mode == s.mode
    requires forall b :: Pending(s, b) || b in s.dirty ==> b in s'.cache && s'.cache[b].data == s.cache[b].data
    ensures DiskOk(c, s')
  {
    forall j | Done(s) <= j < |s.lh| && !s.mode.Recovering?
      ensures s.lh[j] in s'.cache && s'.cache[s.lh[j]].data == s.cache[s.lh[j]].data
    {
      assert Pending(s, s.lh[j]);
    }
  }

  /** `s'` differs from `s` in cache entry `b` only. */
  ghost predicate OnlyEntry(s: State, s': State, b: int) {
    && s' == s.(cache := s'.cache)
    && (forall x :: x in s.cache && x != b ==> x in s'.cache && s'.cache[x] == s.cache[x])
    && (forall x :: x in s'.cache && x != b ==> x in s.cache)
  }

  /** The entry may change freely unless it is pinned or dirty. */
  ghost predicate EntryOk(s: State, s': State, b: int)
    requires |s'.disk| == |s.disk|
  {
    && (b in s.dirty || (b in s.cache && s.cache[b].pinned) ==>
          && b in s.cache && b in s'.cache && s'.cache[b].valid == s.cache[b].valid
          && s'.cache[b].data == s.cache[b].data && s'.cache[b].pinned == s.cache[b].pinned)
    && (b in s.dirty ==> s'.cache[b].holder == s.cache[b].holder)
    && (b in s'.cache && s'.cache[b].pinned ==> b in s.cache && s.cache[b].pinned)
    && (b in s'.cache && s'.cache[b].holder.Some? ==> s'.cache[b].holder.value in s'.cache[b].refs)
    && InRange(s, b) && View(s', b) == View(s, b)
  }

  lemma CacheOkFrame(c: Config, s: State, s': State, b: int)
    requires CacheOk(c, s) && OnlyEntry(s, s', b) && |s'.disk| == |s.disk| && EntryOk(s, s', b)
    ensures CacheOk(c, s')
    ensures forall x :: Pending(s, x) || x in s.dirty ==>
      x in s.cache && x in s'.cache && s'.cache[x].data == s.cache[x].data
  {
    SamePending(s, s');
  }

  lemma DirtyOkFrame(c: Config, s: State, s': State, b: int)
    requires DirtyOk(c, s) && OnlyEntry(s, s', b) && |s'.disk| == |s.disk| && EntryOk(s, s', b)
    ensures DirtyOk(c, s')
  {
  }

  lemma ViewFrame(s: State, s': State, b: int)
    requires OnlyEntry(s, s', b) && |s'.disk| == |s.disk| && EntryOk(s, s', b)
    ensures forall x :: InRange(s, x) ==> View(s', x) == View(s, x)
  {
  }

  /** An event that only touches cache entry `b` and leaves its visible contents alone. */
  lemma CacheFrame(c: Config, s: State, e: Event, s': State, b: int)
    requires Inv(c, s) && !e.Modify? && !e.Work? && !e.Crash?
    requires OnlyEntry(s, s', b) && |s'.disk| == |s.disk| && EntryOk(s, s', b)
    ensures Good(c, s, e, s')
  {
    assert |s.disk| == c.lay.nblocks;
    hide CacheOk, DiskOk, DirtyOk, GoodDisk, GoodList, EntryOk, Durable;
    CacheOkFrame(c, s, s', b);
    DirtyOkFrame(c, s, s', b);
    DiskOkFrame(c, s, s');
    ViewFrame(s, s', b);
  }

  lemma CacheEvent(c: Config, s: State, e: Event)
    requires Inv(c, s) && Enabled(c, s, e)
    requires e.Bget? || e.Evict? || e.Lock? || e.Fill? || e.Release? || e.Unref?
    ensures Good(c, s, e, Apply(c, s, e))
  {
    var s' := Apply(c, s, e);
    assert EntryOk(s, s', e.b) by {
      assert CacheOk(c, s);
    }
    CacheFrame(c, s, e, s', e.b);
  }

  lemma ModifyEvent(c: Config, s: State, e: Event)
    requires Inv(c, s) && Enabled(c, s, e) && e.Modify?
    ensures Good(c, s, e, Apply(c, s, e))
  {
    var s' := Apply(c, s, e);
    SamePending(s, s');
    assert CacheOk(c, s');
  }

  lemma LogWritePending(c: Config, s: State, e: Event)
    requires GoodList(c.lay, s.lh) && Enabled(c, s, e) && e.LogWrite?
    ensures forall b :: Pending(Apply(c, s, e), b) <==> Pending(s, b) || b == e.b
    ensures GoodList(c.lay, Apply(c, s, e).lh)
  {
    var s' := Apply(c, s, e);
    if e.b in s.lh {
      SamePending(s, s');
      var j := SlotOf(s.lh, e.b);
    } else {
      assert s'.lh[|s.lh|] == e.b;
      forall b | Pending(s, b) ensures Pending(s', b) {
        var j :| Done(s) <= j < |s.lh| && s.lh[j] == b;
        assert s'.lh[j] == b;
      }
    }
  }

  lemma LogWriteCache(c: Config, s: State, e: Event)
    requires GoodList(c.lay, s.lh) && CacheOk(c, s) && Enabled(c, s, e) && e.LogWrite?
    ensures CacheOk(c, Apply(c, s, e))
  {
    LogWritePending(c, s, e);
    var s' := Apply(c, s, e);
    if e.b in s.lh {
      var j := SlotOf(s.lh, e.b);
      assert Pending(s, e.b);
    }
  }

  lemma LogWriteEvent(c: Config, s: State, e: Event)
    requires Inv(c, s) && Enabled(c, s, e) && e.LogWrite?
    ensures Good(c, s, e, Apply(c, s, e))
  {
    LogWritePending(c, s, e);
    LogWriteCache(c, s, e);
    var s' := Apply(c, s, e);
    assert e.p in s'.used;
    assert |s'.used| == |s.used| by {
      assert s'.used.Keys == s.used.Keys;
      assert |s'.used.Keys| == |s.used.Keys|;
    }
    assert DirtyOk(c, s') && DiskOk(c, s');
    hide CacheOk, DiskOk, DirtyOk, GoodDisk, GoodList, SameDurable, Durable;
    assert NoLostBegin(s');
  }

  lemma CacheOkSame(c: Config, s: State, s': State)
    requires CacheOk(c, s)
    requires s'.disk == s.disk && s'.cache == s.cache && s'.lh == s.lh && s'.dirty == s.dirty
    requires Done(s') == Done(s) && s'.mode.Recovering? == s.mode.Recovering?
    requires s'.mode == s.mode || !(s.mode.Committing? && s.mode.pc.Unpin?)
    ensures CacheOk(c, s')
  {
    SamePending(s, s');
  }

  lemma DiskOkSame(c: Config, s: State, s': State)
    requires GoodDisk(c.lay, s.disk) && GoodList(c.lay, s.lh) && DiskOk(c, s)
    requires s'.disk == s.disk && s'.cache == s.cache && s'.lh == s.lh && s'.mode == s.mode
    ensures DiskOk(c, s')
  {
  }

  lemma BeginOpEvent(c: Config, s: State, e: Event)
    requires Inv(c, s) && Enabled(c, s, e) && e.BeginOp?
    ensures Good(c, s, e, Apply(c, s, e))
  {
    hide CacheOk, DiskOk, GoodDisk, GoodList, Durable;
    var s' := Apply(c, s, e);
    CacheOkSame(c, s, s');
    DiskOkSame(c, s, s');
    assert |s'.used| == |s.used| + 1;
  }

  lemma BeginSleepEvent(c: Config, s: State, e: Event)
    requires Inv(c, s) && Enabled(c, s, e) && e.BeginSleep?
    ensures Good(c, s, e, Apply(c, s, e))
  {
    hide CacheOk, DiskOk, GoodDisk, GoodList, Durable;
    var s' := Apply(c, s, e);
    CacheOkSame(c, s, s');
    DiskOkSame(c, s, s');
    assert DirtyOk(c, s');
  }

  lemma EndEvent(c: Config, s: State, e: Event)
    requires Inv(c, s) && Enabled(c, s, e) && e.EndOp?
    ensures Good(c, s, e, Apply(c, s, e))
  {
    var s' := Apply(c, s, e);
    CacheOkSame(c, s, s');
    forall b | b in s.dirty ensures s.cache[b].holder.value in s'.used {
      assert !Holds(s, e.p, b);
    }
    assert DirtyOk(c, s');
  }

  lemma CrashEvent(c: Config, s: State, e: Event)
    requires Inv(c, s) && e.Crash?
    ensures Good(c, s, e, Apply(c, s, e))
  {
  }

  // The steps of commit and recovery.

  ghost predicate AtWork(c: Config, s: State) {
    Inv(c, s) && Enabled(c, s, Work)
  }

  /** The disk side of the invariant. */
  ghost predicate DiskSide(c: Config, s: State) {
    GoodDisk(c.lay, s.disk) && GoodList(c.lay, s.lh) && DiskOk(c, s)
  }

  ghost predicate SameView(c: Config, s: State, s': State) {
    |s.disk| == |s'.disk| == c.lay.nblocks && forall b :: c.lay.Home(b) ==> View(s', b) == View(s, b)
  }

  /** Puts together the parts proved separately for a step of commit or recovery. */
  lemma Assemble(c: Config, s: State)
    requires AtWork(c, s) && !s.mode.pc.Finish?
    requires CacheOk(c, DoWork(c, s)) && DiskSide(c, DoWork(c, s))
    requires if CommitPoint(s, Work) then
        forall b :: c.lay.Home(b) ==> Durable(c.lay, DoWork(c, s).disk, b) == View(s, b)
      else
        SameDurable(c.lay, s.disk, DoWork(c, s).disk)
    requires s.mode.Committing? ==> SameView(c, s, DoWork(c, s))
    ensures Good(c, s, Work, DoWork(c, s))
  {
    WorkDirty(c, s);
    WorkFrame(c, s);
    hide CacheOk, DiskOk, DirtyOk, GoodDisk, GoodList, SameDurable, View, Durable, DoWork, Enabled;
  }

  lemma WorkFrame(c: Config, s: State)
    requires Enabled(c, s, Work) && !s.mode.pc.Finish?
    ensures DoWork(c, s).used == s.used && DoWork(c, s).asleep == s.asleep
    ensures !DoWork(c, s).mode.Normal? && DoWork(c, s).mode.Recovering? == s.mode.Recovering?
  {
  }

  /** Only the worker's target is dirty. */
  lemma WorkDirty(c: Config, s: State)
    requires Enabled(c, s, Work) && DirtyOk(c, s) && !s.mode.pc.Finish?
    ensures DirtyOk(c, DoWork(c, s))
  {
  }

  /** memmove into a held buffer keeps the cache in order. */
  lemma CopyKeepsCache(c: Config, s: State, s': State, b: int)
    requires CacheOk(c, s) && !s.mode.Normal? && !s'.mode.Normal? && s.mode.Recovering? == s'.mode.Recovering?
    requires HoldsValid(s, s.mode.pid, b) && b in s'.cache
    requires s'.cache == s.cache[b := s.cache[b].(data := s'.cache[b].data)] && s'.dirty == s.dirty + {b}
    requires s'.disk == s.disk && s'.lh == s.lh && Done(s') == Done(s)
    requires !s.mode.pc.Unpin? && !s'.mode.pc.Unpin?
    ensures CacheOk(c, s')
  {
    SamePending(s, s');
  }

  /** `bwrite` of a held buffer keeps the cache in order; at most `b` stops being pending. */
  lemma WriteKeepsCache(c: Config, s: State, s': State, b: int)
    requires CacheOk(c, s) && !s.mode.Normal? && !s'.mode.Normal? && s.mode.Recovering? == s'.mode.Recovering?
    requires b in s.dirty && b in s.cache && InRange(s, b)
    requires s'.cache == s.cache && s'.dirty == s.dirty - {b} && s'.disk == s.disk[b := s.cache[b].data]
    requires s'.lh == s.lh && !s.mode.pc.Unpin?
    requires forall x :: Pending(s', x) ==> Pending(s, x)
    requires forall x :: Pending(s, x) ==> Pending(s', x) || x == b
    requires Pending(s, b) && !Pending(s', b) ==> s'.mode.pc.Unpin? && s'.mode.pc.i < |s.lh| && b == s.lh[s'.mode.pc.i]
    ensures CacheOk(c, s')
  {
  }

  /** A write of a valid buffer is invisible to readers. */
  lemma WriteKeepsView(c: Config, s: State, s': State, b: int)
    requires b in s.cache && s.cache[b].valid && InRange(s, b) && |s.disk| == c.lay.nblocks
    requires s'.cache == s.cache && s'.disk == s.disk[b := s.cache[b].data]
    ensures SameView(c, s, s')
  {
  }

  lemma ReadHeadStep(c: Config, s: State)
    requires AtWork(c, s) && s.mode.pc.ReadHead?
    ensures Good(c, s, Work, DoWork(c, s))
  {
    assert s.cache[c.lay.start].data == s.disk[c.lay.start];
    assert CacheOk(c, DoWork(c, s));
    Assemble(c, s);
  }

  lemma CopyLogDisk(c: Config, s: State)
    requires DiskSide(c, s) && Enabled(c, s, Work) && s.mode.Committing? && s.mode.pc.CopyLog?
    ensures DiskSide(c, DoWork(c, s)) && SameView(c, s, DoWork(c, s))
    ensures SameDurable(c.lay, s.disk, DoWork(c, s).disk)
  {
  }

  lemma CopyLogStep(c: Config, s: State)
    requires AtWork(c, s) && s.mode.pc.CopyLog?
    ensures Good(c, s, Work, DoWork(c, s))
  {
    hide CacheOk, DiskOk, DirtyOk, GoodDisk, GoodList, SameDurable, SameView;
    assert s.mode.Committing? by { OnlyCommitters(c, s); }
    CopyKeepsCache(c, s, DoWork(c, s), Slot(c, s.mode.pc.i));
    CopyLogDisk(c, s);
    Assemble(c, s);
  }

  /** Recovery never writes log blocks and never pins. */
  lemma OnlyCommitters(c: Config, s: State)
    requires DiskSide(c, s) && !s.mode.Normal?
    ensures s.mode.pc.CopyLog? || s.mode.pc.WriteLog? || s.mode.pc.FormHead? || s.mode.pc.WriteHead? || s.mode.pc.Unpin?
            ==> s.mode.Committing?
    ensures s.mode.pc.ReadHead? ==> s.mode.Recovering?
  {
  }

  lemma WriteLogDisk(c: Config, s: State)
    requires DiskSide(c, s) && Enabled(c, s, Work) && s.mode.Committing? && s.mode.pc.WriteLog?
    ensures DiskSide(c, DoWork(c, s)) && SameDurable(c.lay, s.disk, DoWork(c, s).disk)
  {
    var i := s.mode.pc.i;
    LogSlotWriteInvisible(c.lay, s.disk, i, s.cache[Slot(c, i)].data);
    assert BeforeCommit(c, DoWork(c, s), i + 1);
  }

  lemma WriteLogStep(c: Config, s: State)
    requires AtWork(c, s) && s.mode.pc.WriteLog?
    ensures Good(c, s, Work, DoWork(c, s))
  {
    var s' := DoWork(c, s);
    var b := Slot(c, s.mode.pc.i);
    assert b in s.dirty && s.cache[b].valid && |s.disk| == c.lay.nblocks;
    hide CacheOk, DiskOk, DirtyOk, GoodDisk, GoodList, SameDurable, SameView;
    assert s.mode.Committing? by { OnlyCommitters(c, s); }
    SamePending(s, s');
    WriteLogDisk(c, s);
    WriteKeepsCache(c, s, s', b);
    WriteKeepsView(c, s, s', b);
    Assemble(c, s);
  }

  lemma FormHeadDisk(c: Config, s: State)
    requires DiskSide(c, s) && Enabled(c, s, Work) && s.mode.Committing? && s.mode.pc.FormHead?
    ensures DiskSide(c, DoWork(c, s)) && SameView(c, s, DoWork(c, s))
    ensures SameDurable(c.lay, s.disk, DoWork(c, s).disk)
  {
  }

  lemma FormHeadStep(c: Config, s: State)
    requires AtWork(c, s) && s.mode.pc.FormHead?
    ensures Good(c, s, Work, DoWork(c, s))
  {
    hide CacheOk, DiskOk, DirtyOk, GoodDisk, GoodList, SameDurable, SameView;
    assert s.mode.Committing? by { OnlyCommitters(c, s); }
    CopyKeepsCache(c, s, DoWork(c, s), c.lay.start);
    FormHeadDisk(c, s);
    Assemble(c, s);
  }

  lemma WriteHeadDisk(c: Config, s: State)
    requires DiskSide(c, s) && Enabled(c, s, Work) && s.mode.Committing? && s.mode.pc.WriteHead?
    ensures DiskSide(c, DoWork(c, s))
    ensures forall i :: 0 <= i < |s.lh| ==> Durable(c.lay, DoWork(c, s).disk, s.lh[i]) == s.cache[s.lh[i]].data
    ensures forall b :: c.lay.Home(b) && b !in s.lh ==> Durable(c.lay, DoWork(c, s).disk, b) == s.disk[b]
  {
    hide Durable, Distinct, SlotOf;
    HeaderWriteCommits(c.lay, s.disk, s.cache[c.lay.start].data);
  }

  /** What the header write makes durable is what readers see. */
  lemma WriteHeadCommits(c: Config, s: State)
    requires AtWork(c, s) && s.mode.Committing? && s.mode.pc.WriteHead? && DiskSide(c, DoWork(c, s))
    ensures forall b :: c.lay.Home(b) ==> Durable(c.lay, DoWork(c, s).disk, b) == View(s, b)
  {
    WriteHeadDisk(c, s);
    forall b | c.lay.Home(b) ensures Durable(c.lay, DoWork(c, s).disk, b) == View(s, b) {
      if b in s.lh {
        var j := SlotOf(s.lh, b);
        assert Pending(s, b);
      } else {
        assert !Pending(s, b) && b !in s.dirty;
      }
    }
  }

  lemma WriteHeadStep(c: Config, s: State)
    requires AtWork(c, s) && s.mode.pc.WriteHead?
    ensures Good(c, s, Work, DoWork(c, s))
  {
    var s' := DoWork(c, s);
    var b := c.lay.start;
    assert b in s.dirty && s.cache[b].valid && |s.disk| == c.lay.nblocks;
    hide CacheOk, DiskOk, DirtyOk, GoodDisk, GoodList, SameDurable, SameView;
    assert s.mode.Committing? by { OnlyCommitters(c, s); }
    SamePending(s, s');
    WriteHeadDisk(c, s);
    WriteHeadCommits(c, s);
    WriteKeepsCache(c, s, s', b);
    WriteKeepsView(c, s, s', b);
    Assemble(c, s);
  }

  /** The copy to a home buffer changes nothing when the block is pending; recovery may change it. */
  lemma CopyHomeDisk(c: Config, s: State)
    requires DiskSide(c, s) && Enabled(c, s, Work) && !s.mode.Normal? && s.mode.pc.CopyHome?
    requires s.cache[Slot(c, s.mode.pc.i)].data == s.disk[Slot(c, s.mode.pc.i)]
    ensures DiskSide(c, DoWork(c, s)) && SameDurable(c.lay, s.disk, DoWork(c, s).disk)
    ensures s.mode.Committing? ==> SameView(c, s, DoWork(c, s))
  {
    if s.mode.Committing? {
      assert s.cache[s.lh[s.mode.pc.i]].data == s.disk[Slot(c, s.mode.pc.i)];
      assert DoWork(c, s).cache == s.cache;
    }
  }

  /** A filled log block is a true copy of the disk. */
  lemma SlotIsClean(c: Config, s: State)
    requires DiskSide(c, s) && CacheOk(c, s) && DirtyOk(c, s) && Enabled(c, s, Work)
    requires !s.mode.Normal? && s.mode.pc.CopyHome?
    ensures InRange(s, Slot(c, s.mode.pc.i))
    ensures s.cache[Slot(c, s.mode.pc.i)].data == s.disk[Slot(c, s.mode.pc.i)]
  {
    assert !Pending(s, Slot(c, s.mode.pc.i));
  }

  lemma CopyHomeStep(c: Config, s: State)
    requires AtWork(c, s) && s.mode.pc.CopyHome?
    ensures Good(c, s, Work, DoWork(c, s))
  {
    hide CacheOk, DiskOk, DirtyOk, GoodDisk, GoodList, SameDurable, SameView;
    SlotIsClean(c, s);
    CopyKeepsCache(c, s, DoWork(c, s), s.lh[s.mode.pc.i]);
    CopyHomeDisk(c, s);
    Assemble(c, s);
  }

  /** Installing entry i takes exactly that entry out of the pending set. */
  lemma WriteHomePending(c: Config, s: State)
    requires Distinct(s.lh) && Enabled(c, s, Work) && !s.mode.Normal? && s.mode.pc.WriteHome?
    ensures forall x :: Pending(DoWork(c, s), x) <==> Pending(s, x) && x != s.lh[s.mode.pc.i]
  {
    var s' := DoWork(c, s);
    var i := s.mode.pc.i;
    assert !s.mode.Recovering? ==> Done(s') == i + 1 && Done(s) == i;
    forall x | Pending(s', x) ensures Pending(s, x) && x != s.lh[i] {
      var j :| Done(s') <= j < |s.lh| && s.lh[j] == x;
      assert i < j;
    }
    forall x | Pending(s, x) && x != s.lh[i] ensures Pending(s', x) {
      var j :| Done(s) <= j < |s.lh| && s.lh[j] == x;
    }
  }

  lemma WriteHomeInstalls(c: Config, s: State, s': State, i: nat)
    requires GoodDisk(c.lay, s.disk) && GoodList(c.lay, s.lh) && i < |s.lh| && WhileInstalling(c, s, i)
    requires s'.disk == s.disk[s.lh[i] := s.disk[Slot(c, i)]]
    requires s'.lh == s.lh && s'.cache == s.cache && s'.mode.Committing? == s.mode.Committing?
    ensures GoodDisk(c.lay, s'.disk) && WhileInstalling(c, s', i + 1)
  {
    InstallNext(c.lay, s.disk, s.lh, i);
  }

  lemma WriteHomeDisk(c: Config, s: State)
    requires DiskSide(c, s) && Enabled(c, s, Work) && !s.mode.Normal? && s.mode.pc.WriteHome?
    ensures DiskSide(c, DoWork(c, s)) && s.lh == OnDisk(c.lay, s.disk)
    ensures DoWork(c, s).disk == s.disk[s.lh[s.mode.pc.i] := s.disk[Slot(c, s.mode.pc.i)]]
  {
    WriteHomeInstalls(c, s, DoWork(c, s), s.mode.pc.i);
  }

  lemma WriteHomeDurable(c: Config, d: Disk, d': Disk, bs: seq<int>, i: nat)
    requires GoodDisk(c.lay, d) && GoodDisk(c.lay, d') && bs == OnDisk(c.lay, d) && i < |bs|
    requires d' == d[bs[i] := d[Slot(c, i)]]
    ensures SameDurable(c.lay, d, d')
  {
    hide SameDurable, GoodList;
    InstallInvisible(c.lay, d, i);
  }

  lemma WriteHomeStep(c: Config, s: State)
    requires AtWork(c, s) && s.mode.pc.WriteHome?
    ensures Good(c, s, Work, DoWork(c, s))
  {
    var s' := DoWork(c, s);
    var b := s.lh[s.mode.pc.i];
    assert b in s.dirty && s.cache[b].valid && |s.disk| == c.lay.nblocks && Distinct(s.lh);
    hide CacheOk, DiskOk, DirtyOk, GoodDisk, GoodList, SameDurable, SameView;
    WriteHomeDisk(c, s);
    WriteHomeDurable(c, s.disk, s'.disk, s.lh, s.mode.pc.i);
    WriteHomePending(c, s);
    WriteKeepsCache(c, s, s', b);
    WriteKeepsView(c, s, s', b);
    Assemble(c, s);
  }

  lemma UnpinCache(c: Config, s: State)
    requires Distinct(s.lh) && Enabled(c, s, Work) && s.mode.Committing? && s.mode.pc.Unpin? && CacheOk(c, s)
    ensures CacheOk(c, DoWork(c, s))
  {
    SamePending(s, DoWork(c, s));
    assert !Pending(s, s.lh[s.mode.pc.i]);
  }

  lemma UnpinDisk(c: Config, s: State)
    requires DiskSide(c, s) && Enabled(c, s, Work) && s.mode.Committing? && s.mode.pc.Unpin?
    ensures DiskSide(c, DoWork(c, s)) && SameView(c, s, DoWork(c, s))
    ensures SameDurable(c.lay, s.disk, DoWork(c, s).disk)
  {
  }

  lemma UnpinStep(c: Config, s: State)
    requires AtWork(c, s) && s.mode.pc.Unpin?
    ensures Good(c, s, Work, DoWork(c, s))
  {
    assert Distinct(s.lh);
    hide CacheOk, DiskOk, DirtyOk, GoodDisk, GoodList, SameDurable, SameView;
    assert s.mode.Committing? by { OnlyCommitters(c, s); }
    UnpinCache(c, s);
    UnpinDisk(c, s);
    Assemble(c, s);
  }

  lemma FormClearCache(c: Config, s: State)
    requires Enabled(c, s, Work) && !s.mode.Normal? && s.mode.pc.FormClear? && CacheOk(c, s)
    ensures CacheOk(c, DoWork(c, s))
  {
    assert forall b :: !Pending(s, b) && !Pending(DoWork(c, s), b);
  }

  lemma FormClearDisk(c: Config, s: State)
    requires DiskSide(c, s) && Enabled(c, s, Work) && !s.mode.Normal? && s.mode.pc.FormClear?
    ensures DiskSide(c, DoWork(c, s)) && SameView(c, s, DoWork(c, s))
    ensures SameDurable(c.lay, s.disk, DoWork(c, s).disk)
  {
  }

  lemma FormClearStep(c: Config, s: State)
    requires AtWork(c, s) && s.mode.pc.FormClear?
    ensures Good(c, s, Work, DoWork(c, s))
  {
    hide CacheOk, DiskOk, DirtyOk, GoodDisk, GoodList, SameDurable, SameView;
    FormClearCache(c, s);
    FormClearDisk(c, s);
    Assemble(c, s);
  }

  lemma WriteClearDisk(c: Config, s: State)
    requires DiskSide(c, s) && Enabled(c, s, Work) && !s.mode.Normal? && s.mode.pc.WriteClear?
    ensures DiskSide(c, DoWork(c, s)) && SameDurable(c.lay, s.disk, DoWork(c, s).disk)
  {
    EraseInvisible(c.lay, s.disk, s.cache[c.lay.start].data);
  }

  lemma WriteClearStep(c: Config, s: State)
    requires AtWork(c, s) && s.mode.pc.WriteClear?
    ensures Good(c, s, Work, DoWork(c, s))
  {
    var s' := DoWork(c, s);
    var b := c.lay.start;
    assert b in s.dirty && s.cache[b].valid && |s.disk| == c.lay.nblocks;
    hide CacheOk, DiskOk, DirtyOk, GoodDisk, GoodList, SameDurable, SameView;
    WriteClearDisk(c, s);
    SamePending(s, s');
    WriteKeepsCache(c, s, s', b);
    WriteKeepsView(c, s, s', b);
    Assemble(c, s);
  }

  lemma FinishStep(c: Config, s: State)
    requires AtWork(c, s) && s.mode.pc.Finish?
    ensures Good(c, s, Work, DoWork(c, s))
  {
    assert CacheOk(c, DoWork(c, s));
  }

  lemma WorkEvent(c: Config, s: State)
    requires AtWork(c, s)
    ensures Good(c, s, Work, DoWork(c, s))
  {
    hide Inv, Good;
    match s.mode.pc
    case ReadHead => ReadHeadStep(c, s);
    case CopyLog(_) => CopyLogStep(c, s);
    case WriteLog(_) => WriteLogStep(c, s);
    case FormHead => FormHeadStep(c, s);
    case WriteHead => WriteHeadStep(c, s);
    case CopyHome(_) => CopyHomeStep(c, s);
    case WriteHome(_) => WriteHomeStep(c, s);
    case Unpin(_) => UnpinStep(c, s);
    case FormClear => FormClearStep(c, s);
    case WriteClear => WriteClearStep(c, s);
    case Finish => FinishStep(c, s);
  }

  /** Every event keeps the invariant, changes what readers see only by `Modify`, and changes the
      durable image only at the commit point. */
  lemma EveryStepGood(c: Config, s: State, e: Event)
    requires Inv(c, s) && Enabled(c, s, e)
    ensures Good(c, s, e, Apply(c, s, e))
  {
    hide Inv, Good;
    match e
    case Bget(_, _, _) => CacheEvent(c, s, e);
    case Evict(_) => CacheEvent(c, s, e);
    case Lock(_, _) => CacheEvent(c, s, e);
    case Fill(_, _) => CacheEvent(c, s, e);
    case Modify(_, _, _) => ModifyEvent(c, s, e);
    case LogWrite(_, _) => LogWriteEvent(c, s, e);
    case Release(_, _) => CacheEvent(c, s, e);
    case Unref(_, _) => CacheEvent(c, s, e);
    case BeginOp(_) => BeginOpEvent(c, s, e);
    case BeginSleep(_) => BeginSleepEvent(c, s, e);
    case EndOp(_) => EndEvent(c, s, e);
    case Work => WorkEvent(c, s);
    case Crash(_) => CrashEvent(c, s, e);
  }

  /** log_write is what lets an operation give up a buffer that it has changed, and finish. */
  lemma LoggedMayRelease(c: Config, s: State, p: Pid, b: int)
    requires Enabled(c, s, LogWrite(p, b))
    ensures Enabled(c, Apply(c, s, LogWrite(p, b)), Release(p, b))
    ensures Enabled(c, s, Modify(p, b, s.cache[b].data)) && !Enabled(c, Apply(c, s, Modify(p, b, s.cache[b].data)), Release(p, b))
  {
  }

  // ---------------------------------------------------------------------------------------------
  // Commit and recovery come to an end
  // ---------------------------------------------------------------------------------------------

  /** How many steps of its own the committing or recovering process has left, at most. */
  function Left(s: State): (n: int) {
    if s.mode.Normal? then 0
    else
      var k := |s.lh|;
      match s.mode.pc
      case ReadHead => 3 * LOGSIZE + 4
      case CopyLog(i) => 2 * (k - i) + 3 * k + 5
      case WriteLog(i) => 2 * (k - i) + 3 * k + 4
      case FormHead => 3 * k + 5
      case WriteHead => 3 * k + 4
      case CopyHome(i) => 3 * (k - i) + 3
      case WriteHome(i) => 3 * (k - i) + 2
      case Unpin(i) => 3 * (k - i) + 1
      case FormClear => 3
      case WriteClear => 2
      case Finish => 1
  }

  /** Each step of commit and of recovery is one nearer to the end. */
  lemma WorkEnds(c: Config, s: State)
    requires Enabled(c, s, Work)
    ensures 0 <= Left(DoWork(c, s)) < Left(s)
  {
    hide EncodeHead, HeadBlocks, InRange, HeadInRange;
    match s.mode.pc
    case ReadHead => HeadFits(s.cache[c.lay.start].data);
    case CopyLog(_) =>
    case WriteLog(_) =>
    case FormHead =>
    case WriteHead =>
    case CopyHome(_) =>
    case WriteHome(_) =>
    case Unpin(_) =>
    case FormClear =>
    case WriteClear =>
    case Finish =>
  }

  lemma HeadFits(b: Block)
    requires HeadInRange(b)
    ensures |HeadBlocks(b)| <= LOGSIZE
  {
  }
}
