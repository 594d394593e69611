/** Whole runs of the log protocol: crash atomicity, refinement of a plain block map, and the
    space reservation of begin_op. */
module LogRuns {
  import opened DiskLog
  import opened LogProtocol

  /** A run starts by booting from a well-formed disk; crashes are among its events. */
  ghost predicate IsRun(c: Config, ss: seq<State>, es: seq<Event>) {
    && |ss| == |es| + 1
    && GoodDisk(c.lay, ss[0].disk)
    && (exists p: Pid :: ss[0] == Boot(ss[0].disk, p))
    && (forall i :: 0 <= i < |es| ==> Enabled(c, ss[i], es[i]) && ss[i + 1] == Apply(c, ss[i], es[i]))
  }

  lemma {:induction false} RunInv(c: Config, ss: seq<State>, es: seq<Event>, i: nat)
    requires IsRun(c, ss, es) && i < |ss|
    ensures Inv(c, ss[i])
  {
    if i == 0 {
      var p: Pid :| ss[0] == Boot(ss[0].disk, p);
    } else {
      RunInv(c, ss, es, i - 1);
      assert Enabled(c, ss[i - 1], es[i - 1]);
      EveryStepGood(c, ss[i - 1], es[i - 1]);
    }
  }

  /** The last commit point before state i, or -1. */
  ghost function LastCommit(ss: seq<State>, es: seq<Event>, i: nat): (k: int)
    requires i < |ss| == |es| + 1
    ensures -1 <= k < i
    ensures k >= 0 ==> CommitPoint(ss[k], es[k])
    ensures forall j :: k < j < i ==> !CommitPoint(ss[j], es[j])
  {
    if i == 0 then -1
    else if CommitPoint(ss[i - 1], es[i - 1]) then i - 1
    else LastCommit(ss, es, i - 1)
  }

  lemma StepDurable(c: Config, ss: seq<State>, es: seq<Event>, k: nat)
    requires IsRun(c, ss, es) && k < |es|
    ensures Inv(c, ss[k]) && GoodDisk(c.lay, ss[k].disk) && GoodDisk(c.lay, ss[k + 1].disk)
    ensures if CommitPoint(ss[k], es[k]) then
        && ss[k].used == map[] && ss[k].dirty <= {c.lay.start} && ss[k].lh != []
        && forall b :: c.lay.Home(b) ==> Durable(c.lay, ss[k + 1].disk, b) == View(ss[k], b)
      else
        SameDurable(c.lay, ss[k].disk, ss[k + 1].disk)
  {
    RunInv(c, ss, es, k);
    assert Enabled(c, ss[k], es[k]);
    EveryStepGood(c, ss[k], es[k]);
  }

  /** Crash atomicity.  At every state of every run (so at every crash point, during commits and
      during recoveries that are themselves cut short), recovery would produce exactly what readers
      saw at the last non-empty header write, at which point no operation was in progress; if there
      was none, it would produce what the first boot started from. */
  lemma {:induction false} CrashAtomicity(c: Config, ss: seq<State>, es: seq<Event>, i: nat)
    requires IsRun(c, ss, es) && i < |ss|
    ensures GoodDisk(c.lay, ss[i].disk)
    ensures var k := LastCommit(ss, es, i);
      if k < 0 then
        forall b :: c.lay.Home(b) ==> Durable(c.lay, ss[i].disk, b) == Durable(c.lay, ss[0].disk, b)
      else
        && ss[k].used == map[] && ss[k].dirty <= {c.lay.start} && ss[k].lh != [] && |ss[k].disk| == c.lay.nblocks
        && forall b :: c.lay.Home(b) ==> Durable(c.lay, ss[i].disk, b) == View(ss[k], b)
  {
    RunInv(c, ss, es, i);
    if i > 0 {
      RunInv(c, ss, es, i - 1);
      CrashAtomicity(c, ss, es, i - 1);
      StepDurable(c, ss, es, i - 1);
      hide Enabled, Apply, GoodDisk, View, IsRun, Durable;
    }
  }

  /** The home blocks as readers see them, and as recovery would restore them. */
  ghost function Seen(lay: Layout, s: State): (m: map<int, Block>)
    requires |s.disk| == lay.nblocks
  {
    map b: int | 0 <= b < lay.nblocks && lay.Home(b) :: View(s, b)
  }

  ghost function Restored(lay: Layout, d: Disk): (m: map<int, Block>)
    requires GoodDisk(lay, d)
  {
    map b: int | 0 <= b < lay.nblocks && lay.Home(b) :: Durable(lay, d, b)
  }

  /** What the log is for: a property of the whole disk that holds to begin with, and again whenever no operation
      is in progress, holds of what recovery restores after a crash at any moment, however often operations
      break it on the way. */
  lemma ConsistencySurvives(c: Config, ss: seq<State>, es: seq<Event>, i: nat, ok: map<int, Block> -> bool)
    requires IsRun(c, ss, es) && i < |ss| && ok(Restored(c.lay, ss[0].disk))
    requires forall k :: 0 <= k < |ss| && |ss[k].disk| == c.lay.nblocks && ss[k].used == map[] && !ss[k].mode.Recovering? ==>
      ok(Seen(c.lay, ss[k]))
    ensures GoodDisk(c.lay, ss[i].disk) && ok(Restored(c.lay, ss[i].disk))
  {
    hide Durable, View, Enabled, Apply;
    CrashAtomicity(c, ss, es, i);
    var k := LastCommit(ss, es, i);
    if k < 0 {
      assert Restored(c.lay, ss[i].disk) == Restored(c.lay, ss[0].disk);
    } else {
      assert Restored(c.lay, ss[i].disk) == Seen(c.lay, ss[k]);
    }
  }

  /** When recovery finishes, readers see exactly the durable image. */
  lemma RecoveryRestores(c: Config, ss: seq<State>, es: seq<Event>, i: nat)
    requires IsRun(c, ss, es) && i < |es|
    requires ss[i].mode.Recovering? && !ss[i + 1].mode.Recovering?
    ensures |ss[i + 1].disk| == c.lay.nblocks && GoodDisk(c.lay, ss[i + 1].disk)
    ensures ss[i + 1].mode.Normal?
    ensures forall b :: c.lay.Home(b) ==> View(ss[i + 1], b) == Durable(c.lay, ss[i + 1].disk, b)
  {
    RunInv(c, ss, es, i);
    assert Enabled(c, ss[i], es[i]);
    EveryStepGood(c, ss[i], es[i]);
  }

  /** Durability: whenever no operation is in progress and no commit or recovery is running, what readers see of every
      block would survive a crash.  So the end_op that ends the last operation returns only when all is safe. */
  lemma IdleIsDurable(c: Config, ss: seq<State>, es: seq<Event>, i: nat, b: int)
    requires IsRun(c, ss, es) && i < |ss| && ss[i].mode.Normal? && ss[i].used == map[] && c.lay.Home(b)
    ensures GoodDisk(c.lay, ss[i].disk) && InRange(ss[i], b) && View(ss[i], b) == Durable(c.lay, ss[i].disk, b)
  {
    RunInv(c, ss, es, i);
  }

  /** The plain map that the cache implements: the last value stored in `b` by events i to j - 1, or
      `w` if there is none. */
  ghost function Replay(es: seq<Event>, i: nat, j: nat, b: int, w: Block): (r: Block)
    requires i <= j <= |es|
  {
    if i == j then w
    else if es[j - 1].Modify? && es[j - 1].b == b then es[j - 1].w
    else Replay(es, i, j - 1, b, w)
  }

  lemma InvInRange(c: Config, s: State, b: int)
    requires Inv(c, s) && c.lay.Home(b)
    ensures InRange(s, b)
  {
  }

  lemma StepView(c: Config, ss: seq<State>, es: seq<Event>, k: nat, b: int)
    requires IsRun(c, ss, es) && k < |es| && c.lay.Home(b)
    requires !ss[k].mode.Recovering? && !es[k].Crash?
    ensures InRange(ss[k], b) && InRange(ss[k + 1], b)
    ensures View(ss[k + 1], b) == if es[k].Modify? && es[k].b == b then es[k].w else View(ss[k], b)
  {
    RunInv(c, ss, es, k);
    assert Enabled(c, ss[k], es[k]);
    EveryStepGood(c, ss[k], es[k]);
  }

  /** Cache refinement: between boot and crash, whatever is evicted, refilled, committed or
      installed in between, a reader of `b` sees the last value stored in `b`. */
  lemma {:induction false} CacheRefinesMap(c: Config, ss: seq<State>, es: seq<Event>, i: nat, j: nat, b: int)
    requires IsRun(c, ss, es) && i <= j < |ss| == |es| + 1 && c.lay.Home(b)
    requires forall k :: i <= k < j ==> !ss[k].mode.Recovering? && !es[k].Crash?
    ensures InRange(ss[i], b) && InRange(ss[j], b)
    ensures View(ss[j], b) == Replay(es, i, j, b, View(ss[i], b))
    decreases j
  {
    hide Enabled, Apply, GoodDisk, View, IsRun;
    if i == j {
      RunInv(c, ss, es, i);
      InvInRange(c, ss[i], b);
    } else {
      CacheRefinesMap(c, ss, es, i, j - 1, b);
      StepView(c, ss, es, j - 1, b);
    }
  }

  /** A block whose newest contents are not on disk cannot be evicted, and an evicted block loses
      nothing. */
  lemma EvictionLosesNothing(c: Config, ss: seq<State>, es: seq<Event>, i: nat)
    requires IsRun(c, ss, es) && i < |es| && es[i].Evict?
    ensures es[i].b in ss[i].cache && es[i].b !in ss[i].dirty && InRange(ss[i], es[i].b)
    ensures ss[i].cache[es[i].b].valid ==> ss[i].cache[es[i].b].data == ss[i].disk[es[i].b]
  {
    RunInv(c, ss, es, i);
    assert Enabled(c, ss[i], es[i]);
  }
}
