/** fork, exit, reparent and wait of kernel/proc.c, one lock operation or assignment at a time.

    sleep(p, &wait_lock) and wakeup are single steps here: SleepWakeup shows that going to sleep and
    giving up the lock cannot be separated by a wakeup.  A process asleep in wait sleeps on itself. */
module WaitExit {

  const NPROC: nat := 64
  const INIT: nat := 0

  type Pid = nat

  datatype Option<+T> = None | Some(value: T)

  /** Alive stands for RUNNABLE and RUNNING, and for SLEEPING anywhere but in wait. */
  datatype Status = Unused | Used | Alive | Asleep | Zombie

  datatype Pc =
    | Gone
    | Newborn
    | User
    | Fork1(np: Pid)
    | Fork2(np: Pid)
    | Fork3(np: Pid)
    | Fork4(np: Pid)
    | Fork5(np: Pid)
    | Reparent(i: nat)
    | TellInit(i: nat)
    | TellParent
    | Dying
    | Died
    | Leaving
    | Dead
    | Scan(i: nat, kids: bool)
    | Look(i: nat, kids: bool)
    | Doze
    | InWait

  datatype Proc = Proc(st: Status, parent: Option<Pid>, pid: nat, pc: Pc, plock: Option<Pid>, killed: bool, xstate: int)

  /** What a call of wait by process p has returned: a child's identifier and exit status, or -1. */
  datatype Result = Child(p: Pid, pid: nat, status: int) | Minus(p: Pid)

  /** `reaped` lists the process identifiers that wait has returned, and `results` all that it has returned, oldest first. */
  datatype State = State(procs: seq<Proc>, waitLock: Option<Pid>, nextpid: nat, reaped: seq<nat>, results: seq<Result>)

  datatype Event =
    | ForkAlloc(p: Pid, np: Pid)
    | ForkFail(p: Pid)
    | ForkUnlock(p: Pid)
    | ForkLock(p: Pid)
    | ForkAdopt(p: Pid)
    | ForkRelease(p: Pid)
    | ForkReady(p: Pid)
    | ExitStart(p: Pid)
    | ExitScan(p: Pid)
    | ExitTellInit(p: Pid)
    | ExitTellParent(p: Pid)
    | ExitDie(p: Pid, status: int)
    | ExitRelease(p: Pid)
    | ExitSwitch(p: Pid)
    | WaitStart(p: Pid)
    | WaitScan(p: Pid)
    | WaitLook(p: Pid, copyFails: bool)
    | WaitEnd(p: Pid)
    | WaitSleep(p: Pid)
    | WaitResume(p: Pid)
    | Kill(p: Pid)

  ghost predicate Enabled(s: State, e: Event) {
    && |s.procs| == NPROC && e.p < NPROC
    && var me := s.procs[e.p];
       match e
       case ForkAlloc(p, np) => me.pc.User? && np < NPROC && s.procs[np].st.Unused? && s.procs[np].plock.None?
       case ForkFail(p) => me.pc.Fork1? && me.pc.np < NPROC
       case ForkUnlock(p) => me.pc.Fork1? && me.pc.np < NPROC
       case ForkLock(p) => me.pc.Fork2? && s.waitLock.None?
       case ForkAdopt(p) => me.pc.Fork3? && me.pc.np < NPROC
       case ForkRelease(p) => me.pc.Fork4?
       case ForkReady(p) => me.pc.Fork5? && me.pc.np < NPROC && s.procs[me.pc.np].plock.None?
       case ExitStart(p) => me.pc.User? && p != INIT && s.waitLock.None?
       case ExitScan(p) => me.pc.Reparent?
       case ExitTellInit(p) => me.pc.TellInit?
       case ExitTellParent(p) => me.pc.TellParent?
       case ExitDie(p, _) => me.pc.Dying? && me.plock.None?
       case ExitRelease(p) => me.pc.Died?
       case ExitSwitch(p) => me.pc.Leaving?
       case WaitStart(p) => me.pc.User? && s.waitLock.None?
       case WaitScan(p) =>
         me.pc.Scan? && me.pc.i < NPROC && (s.procs[me.pc.i].parent == Some(p) ==> s.procs[me.pc.i].plock.None?)
       case WaitLook(p, _) => me.pc.Look? && me.pc.i < NPROC
       case WaitEnd(p) => me.pc.Scan? && me.pc.i == NPROC && me.plock.None?
       case WaitSleep(p) => me.pc.Doze? && me.plock.None?
       case WaitResume(p) => me.pc.InWait? && me.st.Alive? && s.waitLock.None?
       case Kill(p) => me.plock.None?
  }

  function With(s: State, p: Pid, q: Proc): (s': State)
    requires p < |s.procs|
  {
    s.(procs := s.procs[p := q])
  }

  function AtPc(s: State, p: Pid, pc: Pc): (s': State)
    requires p < |s.procs|
  {
    With(s, p, s.procs[p].(pc := pc))
  }

  /** wakeup(q): the only process that can be asleep on q is q itself, in wait. */
  function Wake(s: State, q: Option<Pid>): (s': State) {
    if q.Some? && q.value < |s.procs| && s.procs[q.value].st.Asleep?
    then With(s, q.value, s.procs[q.value].(st := Alive))
    else s
  }

  /** freeproc, and the release of the entry's lock that follows it. */
  const Free: Proc := Proc(Unused, None, 0, Gone, None, false, 0)

  ghost function Apply(s: State, e: Event): (s': State)
    requires Enabled(s, e)
  {
    var me := s.procs[e.p];
    match e
    case ForkAlloc(p, np) =>
      var q := s.procs[np].(st := Used, pid := s.nextpid, pc := Newborn, plock := Some(p));
      AtPc(With(s, np, q), p, Fork1(np)).(nextpid := s.nextpid + 1)
    case ForkFail(p) => AtPc(With(s, me.pc.np, Free), p, User)
    case ForkUnlock(p) => AtPc(With(s, me.pc.np, s.procs[me.pc.np].(plock := None)), p, Fork2(me.pc.np))
    case ForkLock(p) => AtPc(s, p, Fork3(me.pc.np)).(waitLock := Some(p))
    case ForkAdopt(p) => AtPc(With(s, me.pc.np, s.procs[me.pc.np].(parent := Some(p))), p, Fork4(me.pc.np))
    case ForkRelease(p) => AtPc(s, p, Fork5(me.pc.np)).(waitLock := None)
    case ForkReady(p) => AtPc(With(s, me.pc.np, s.procs[me.pc.np].(st := Alive, pc := User)), p, User)
    case ExitStart(p) => AtPc(s, p, Reparent(0)).(waitLock := Some(p))
    case ExitScan(p) =>
      var i := me.pc.i;
      if i >= NPROC then AtPc(s, p, TellParent)
      else if s.procs[i].parent == Some(p) then AtPc(With(s, i, s.procs[i].(parent := Some(INIT))), p, TellInit(i))
      else AtPc(s, p, Reparent(i + 1))
    case ExitTellInit(p) => AtPc(Wake(s, Some(INIT)), p, Reparent(me.pc.i + 1))
    case ExitTellParent(p) => AtPc(Wake(s, me.parent), p, Dying)
    case ExitDie(p, status) => With(s, p, me.(st := Zombie, pc := Died, plock := Some(p), xstate := status))
    case ExitRelease(p) => AtPc(s, p, Leaving).(waitLock := None)
    case ExitSwitch(p) => With(s, p, me.(pc := Dead, plock := None))
    case WaitStart(p) => AtPc(s, p, Scan(0, false)).(waitLock := Some(p))
    case WaitScan(p) =>
      var i := me.pc.i;
      if s.procs[i].parent == Some(p)
      then AtPc(With(s, i, s.procs[i].(plock := Some(p))), p, Look(i, me.pc.kids))
      else AtPc(s, p, Scan(i + 1, me.pc.kids))
    case WaitLook(p, copyFails) =>
      var i := me.pc.i;
      if !s.procs[i].st.Zombie? then AtPc(With(s, i, s.procs[i].(plock := None)), p, Scan(i + 1, true))
      else if copyFails then
        AtPc(With(s, i, s.procs[i].(plock := None)), p, User).(waitLock := None, results := s.results + [Minus(p)])
      else
        var r := Child(p, s.procs[i].pid, s.procs[i].xstate);
        AtPc(With(s, i, Free), p, User).(waitLock := None, reaped := s.reaped + [s.procs[i].pid], results := s.results + [r])
    case WaitEnd(p) =>
      if !me.pc.kids || me.killed then AtPc(s, p, User).(waitLock := None, results := s.results + [Minus(p)])
      else AtPc(s, p, Doze)
    case WaitSleep(p) => With(s, p, me.(st := Asleep, pc := InWait)).(waitLock := None)
    case WaitResume(p) => AtPc(s, p, Scan(0, false)).(waitLock := Some(p))
    case Kill(p) => With(s, p, me.(killed := true, st := if me.st.Asleep? then Alive else me.st))
  }

  // ---------------------------------------------------------------------------------------------
  // Invariant
  // ---------------------------------------------------------------------------------------------

  predicate HoldsWait(pc: Pc) {
    pc.Fork3? || pc.Fork4? || pc.Reparent? || pc.TellInit? || pc.TellParent? || pc.Dying? || pc.Died? || pc.Scan? || pc.Look? || pc.Doze?
  }

  predicate Forking(pc: Pc) {
    pc.Fork1? || pc.Fork2? || pc.Fork3? || pc.Fork4? || pc.Fork5?
  }

  /** The program position fits the process state. */
  predicate FitsState(q: Proc) {
    match q.st
    case Unused => q.pc.Gone? && q.parent.None? && q.plock.None?
    case Used => q.pc.Newborn?
    case Asleep => q.pc.InWait?
    case Zombie => q.pc.Died? || q.pc.Leaving? || q.pc.Dead?
    case Alive => !q.pc.Gone? && !q.pc.Newborn? && !q.pc.Died? && !q.pc.Leaving? && !q.pc.Dead?
  }

  ghost predicate ProcOk(s: State, p: Pid)
    requires p < |s.procs| == NPROC
  {
    var me := s.procs[p];
    && FitsState(me)
    && (HoldsWait(me.pc) <==> s.waitLock == Some(p))
    && (Forking(me.pc) ==>
          && me.pc.np < NPROC && s.procs[me.pc.np].st.Used?
          && s.procs[me.pc.np].parent == (if me.pc.Fork4? || me.pc.Fork5? then Some(p) else None)
          && (me.pc.Fork1? ==> s.procs[me.pc.np].plock == Some(p)))
    && (me.pc.Look? ==> me.pc.i < NPROC && s.procs[me.pc.i].parent == Some(p) && s.procs[me.pc.i].plock == Some(p))
    && (me.pc.Scan? || me.pc.Reparent? ==> me.pc.i <= NPROC)
    && (me.pc.TellInit? ==> me.pc.i < NPROC)
    && (me.pc.Died? || me.pc.Leaving? <==> me.plock == Some(p))
  }

  /** Each entry lock has the one holder that took it. */
  ghost predicate LockOk(s: State, q: Pid)
    requires q < |s.procs| == NPROC
  {
    match s.procs[q].plock
    case None => true
    case Some(r) => r < NPROC && (r == q || s.procs[r].pc == Fork1(q) || (s.procs[r].pc.Look? && s.procs[r].pc.i == q))
  }

  /** Everybody but init has a parent, parents are alive, and a process past the reparent loop has no
      children left. */
  ghost predicate ParentOk(s: State, q: Pid)
    requires q < |s.procs| == NPROC
  {
    match s.procs[q].parent
    case None => q == INIT || s.procs[q].st.Unused? || s.procs[q].st.Used?
    case Some(r) =>
      && r < NPROC && r != q && (s.procs[r].st.Alive? || s.procs[r].st.Asleep?)
      && !s.procs[q].st.Unused?
      && (s.procs[r].pc.Reparent? || s.procs[r].pc.TellInit? ==> q >= s.procs[r].pc.i && (s.procs[r].pc.TellInit? ==> q > s.procs[r].pc.i))
      && !s.procs[r].pc.TellParent? && !s.procs[r].pc.Dying?
  }

  /** Nobody is asleep in wait with a zombie child, except init while it is about to be told. */
  ghost predicate ChildOk(s: State, q: Pid)
    requires q < |s.procs| == NPROC
  {
    match s.procs[q].parent
    case None => true
    case Some(r) =>
      && r < NPROC
      && (s.procs[q].st.Zombie? && s.procs[r].st.Asleep? ==>
            r == INIT && s.waitLock.Some? && s.waitLock.value < NPROC && s.procs[s.waitLock.value].pc == TellInit(q))
      && (s.procs[q].st.Zombie? && s.procs[r].pc.Scan? ==> q >= s.procs[r].pc.i)
      && (s.procs[q].st.Zombie? && s.procs[r].pc.Look? ==> q >= s.procs[r].pc.i)
      && (s.procs[q].st.Zombie? ==> !s.procs[r].pc.Doze?)
      && (s.procs[q].pc.Dying? ==> !s.procs[r].st.Asleep?)
  }

  /** Process identifiers are never used twice and never reaped twice. */
  ghost predicate PidsOk(s: State)
    requires |s.procs| == NPROC
  {
    && (forall p :: 0 <= p < NPROC && !s.procs[p].st.Unused? ==> s.procs[p].pid < s.nextpid && s.procs[p].pid !in s.reaped)
    && (forall p, q :: 0 <= p < NPROC && 0 <= q < NPROC && p != q && !s.procs[p].st.Unused? && !s.procs[q].st.Unused? ==>
          s.procs[p].pid != s.procs[q].pid)
    && (forall i :: 0 <= i < |s.reaped| ==> s.reaped[i] < s.nextpid)
    && (forall i, j :: 0 <= i < j < |s.reaped| ==> s.reaped[i] != s.reaped[j])
  }

  /** Everything the invariant says about entry q. */
  ghost predicate Local(s: State, q: Pid)
    requires q < |s.procs| == NPROC
  {
    Mine(s, q) && Kin(s, q)
  }

  /** Its position and its locks, */
  ghost predicate Mine(s: State, q: Pid)
    requires q < |s.procs| == NPROC
  {
    ProcOk(s, q) && LockOk(s, q)
  }

  /** and its parent. */
  ghost predicate Kin(s: State, q: Pid)
    requires q < |s.procs| == NPROC
  {
    ParentOk(s, q) && ChildOk(s, q)
  }

  /** No entry is being filled in by two forks. */
  ghost predicate ForksApart(s: State, p: Pid, q: Pid)
    requires p < |s.procs| == NPROC && q < NPROC
  {
    p != q && Forking(s.procs[p].pc) && Forking(s.procs[q].pc) ==> s.procs[p].pc.np != s.procs[q].pc.np
  }

  ghost predicate InitOk(s: State)
    requires |s.procs| == NPROC
  {
    var i := s.procs[INIT];
    && (i.st.Alive? || i.st.Asleep?) && i.parent.None?
    && !(i.pc.Reparent? || i.pc.TellInit? || i.pc.TellParent? || i.pc.Dying?)
    && (s.waitLock.Some? ==> s.waitLock.value < NPROC)
  }

  ghost predicate Inv(s: State) {
    && |s.procs| == NPROC && InitOk(s)
    && (forall q :: 0 <= q < NPROC ==> Local(s, q))
    && (forall p, q :: 0 <= p < NPROC && 0 <= q < NPROC ==> ForksApart(s, p, q))
    && PidsOk(s)
  }

  lemma LocalAt(s: State, q: Pid)
    requires Inv(s) && q < NPROC
    ensures Local(s, q)
  {
  }

  lemma ProcAt(s: State, q: Pid)
    requires Inv(s) && q < NPROC
    ensures ProcOk(s, q)
  {
    LocalAt(s, q);
  }

  /** The entry other than its own that a statement touches. */
  function Target(s: State, e: Event): (t: nat)
    requires e.p < |s.procs|
  {
    var me := s.procs[e.p];
    if e.ForkAlloc? then e.np
    else if Forking(me.pc) then me.pc.np
    else if me.pc.Reparent? || me.pc.Look? || me.pc.Scan? then me.pc.i
    else if (me.pc.TellParent? || me.pc.Dying?) && me.parent.Some? then me.parent.value
    else INIT
  }

  /** The invariant at entry q, at the acting process, at its target and at init. */
  lemma Around(s: State, e: Event, q: Pid)
    requires Inv(s) && q < NPROC && e.p < NPROC
    ensures Local(s, q) && Local(s, e.p) && Local(s, INIT) && InitOk(s)
    ensures Target(s, e) < NPROC ==> Local(s, Target(s, e)) && ForksApart(s, e.p, q)
  {
    LocalAt(s, q);
    LocalAt(s, e.p);
    LocalAt(s, INIT);
    if Target(s, e) < NPROC {
      LocalAt(s, Target(s, e));
    }
  }

  lemma ForkAllocMine(s: State, e: Event, q: Pid)
    requires Inv(s) && Enabled(s, e) && q < NPROC && e.ForkAlloc?
    ensures |Apply(s, e).procs| == NPROC && Mine(Apply(s, e), q)
  {
    hide Inv;
    Around(s, e, q);
  }

  lemma ForkAllocKin(s: State, e: Event, q: Pid)
    requires Inv(s) && Enabled(s, e) && q < NPROC && e.ForkAlloc?
    ensures |Apply(s, e).procs| == NPROC && Kin(Apply(s, e), q)
  {
    hide Inv;
    Around(s, e, q);
  }

  lemma ForkAllocLocal(s: State, e: Event, q: Pid)
    requires Inv(s) && Enabled(s, e) && q < NPROC && e.ForkAlloc?
    ensures Local(Apply(s, e), q)
  {
    hide Inv, Apply, Mine, Kin;
    ForkAllocMine(s, e, q);
    ForkAllocKin(s, e, q);
  }

  lemma ForkFailMine(s: State, e: Event, q: Pid)
    requires Inv(s) && Enabled(s, e) && q < NPROC && e.ForkFail?
    ensures |Apply(s, e).procs| == NPROC && Mine(Apply(s, e), q)
  {
    hide Inv;
    Around(s, e, q);
  }

  lemma ForkFailKin(s: State, e: Event, q: Pid)
    requires Inv(s) && Enabled(s, e) && q < NPROC && e.ForkFail?
    ensures |Apply(s, e).procs| == NPROC && Kin(Apply(s, e), q)
  {
    hide Inv;
    Around(s, e, q);
  }

  lemma ForkFailLocal(s: State, e: Event, q: Pid)
    requires Inv(s) && Enabled(s, e) && q < NPROC && e.ForkFail?
    ensures Local(Apply(s, e), q)
  {
    hide Inv, Apply, Mine, Kin;
    ForkFailMine(s, e, q);
    ForkFailKin(s, e, q);
  }

  lemma ForkUnlockMine(s: State, e: Event, q: Pid)
    requires Inv(s) && Enabled(s, e) && q < NPROC && e.ForkUnlock?
    ensures |Apply(s, e).procs| == NPROC && Mine(Apply(s, e), q)
  {
    hide Inv;
    Around(s, e, q);
  }

  lemma ForkUnlockKin(s: State, e: Event, q: Pid)
    requires Inv(s) && Enabled(s, e) && q < NPROC && e.ForkUnlock?
    ensures |Apply(s, e).procs| == NPROC && Kin(Apply(s, e), q)
  {
    hide Inv;
    Around(s, e, q);
  }

  lemma ForkUnlockLocal(s: State, e: Event, q: Pid)
    requires Inv(s) && Enabled(s, e) && q < NPROC && e.ForkUnlock?
    ensures Local(Apply(s, e), q)
  {
    hide Inv, Apply, Mine, Kin;
    ForkUnlockMine(s, e, q);
    ForkUnlockKin(s, e, q);
  }

  lemma ForkAdoptLocal(s: State, e: Event, q: Pid)
    requires Inv(s) && Enabled(s, e) && q < NPROC && e.ForkAdopt?
    ensures Local(Apply(s, e), q)
  {
    hide Inv;
    Around(s, e, q);
  }

  lemma ForkReadyMine(s: State, e: Event, q: Pid)
    requires Inv(s) && Enabled(s, e) && q < NPROC && e.ForkReady?
    ensures |Apply(s, e).procs| == NPROC && Mine(Apply(s, e), q)
  {
    hide Inv;
    Around(s, e, q);
  }

  lemma ForkReadyKin(s: State, e: Event, q: Pid)
    requires Inv(s) && Enabled(s, e) && q < NPROC && e.ForkReady?
    ensures |Apply(s, e).procs| == NPROC && Kin(Apply(s, e), q)
  {
    hide Inv;
    Around(s, e, q);
  }

  lemma ForkReadyLocal(s: State, e: Event, q: Pid)
    requires Inv(s) && Enabled(s, e) && q < NPROC && e.ForkReady?
    ensures Local(Apply(s, e), q)
  {
    hide Inv, Apply, Mine, Kin;
    ForkReadyMine(s, e, q);
    ForkReadyKin(s, e, q);
  }

  /** reparent hands over the child it has found. */
  predicate HandsOver(s: State, e: Event)
    requires |s.procs| == NPROC && e.p < NPROC
  {
    var pc := s.procs[e.p].pc;
    e.ExitScan? && pc.Reparent? && pc.i < NPROC && s.procs[pc.i].parent == Some(e.p)
  }

  lemma HandOverMine(s: State, e: Event, q: Pid)
    requires Inv(s) && Enabled(s, e) && q < NPROC && HandsOver(s, e)
    ensures |Apply(s, e).procs| == NPROC && Mine(Apply(s, e), q)
  {
    hide Inv;
    Around(s, e, q);
  }

  lemma HandOverKin(s: State, e: Event, q: Pid)
    requires Inv(s) && Enabled(s, e) && q < NPROC && HandsOver(s, e)
    ensures |Apply(s, e).procs| == NPROC && Kin(Apply(s, e), q)
  {
    hide Inv;
    Around(s, e, q);
  }

  lemma HandOverLocal(s: State, e: Event, q: Pid)
    requires Inv(s) && Enabled(s, e) && q < NPROC && HandsOver(s, e)
    ensures Local(Apply(s, e), q)
  {
    hide Inv, Apply, Mine, Kin;
    HandOverMine(s, e, q);
    HandOverKin(s, e, q);
  }

  lemma ExitScanLocal(s: State, e: Event, q: Pid)
    requires Inv(s) && Enabled(s, e) && q < NPROC && e.ExitScan? && !HandsOver(s, e)
    ensures Local(Apply(s, e), q)
  {
    hide Inv;
    Around(s, e, q);
  }

  lemma ExitTellInitMine(s: State, e: Event, q: Pid)
    requires Inv(s) && Enabled(s, e) && q < NPROC && e.ExitTellInit?
    ensures |Apply(s, e).procs| == NPROC && Mine(Apply(s, e), q)
  {
    hide Inv;
    Around(s, e, q);
  }

  lemma ExitTellInitKin(s: State, e: Event, q: Pid)
    requires Inv(s) && Enabled(s, e) && q < NPROC && e.ExitTellInit?
    ensures |Apply(s, e).procs| == NPROC && Kin(Apply(s, e), q)
  {
    hide Inv;
    Around(s, e, q);
  }

  lemma ExitTellInitLocal(s: State, e: Event, q: Pid)
    requires Inv(s) && Enabled(s, e) && q < NPROC && e.ExitTellInit?
    ensures Local(Apply(s, e), q)
  {
    hide Inv, Apply, Mine, Kin;
    ExitTellInitMine(s, e, q);
    ExitTellInitKin(s, e, q);
  }

  /** The parent is woken. */
  lemma ExitWakesLocal(s: State, e: Event, q: Pid)
    requires Inv(s) && Enabled(s, e) && q < NPROC && e.ExitTellParent? && Wake(s, s.procs[e.p].parent) != s
    ensures Local(Apply(s, e), q)
  {
    hide Inv;
    Around(s, e, q);
  }

  /** Nobody has to be. */
  lemma ExitWakesNone(s: State, e: Event, q: Pid)
    requires Inv(s) && Enabled(s, e) && q < NPROC && e.ExitTellParent? && Wake(s, s.procs[e.p].parent) == s
    ensures Local(Apply(s, e), q)
  {
    hide Inv;
    Around(s, e, q);
  }

  lemma ExitTellParentLocal(s: State, e: Event, q: Pid)
    requires Inv(s) && Enabled(s, e) && q < NPROC && e.ExitTellParent?
    ensures Local(Apply(s, e), q)
  {
    hide Inv, Local, Apply, Wake;
    if Wake(s, s.procs[e.p].parent) != s {
      ExitWakesLocal(s, e, q);
    } else {
      ExitWakesNone(s, e, q);
    }
  }

  lemma ExitDieLocal(s: State, e: Event, q: Pid)
    requires Inv(s) && Enabled(s, e) && q < NPROC && e.ExitDie?
    ensures Local(Apply(s, e), q)
  {
    hide Inv;
    Around(s, e, q);
  }

  lemma ExitSwitchLocal(s: State, e: Event, q: Pid)
    requires Inv(s) && Enabled(s, e) && q < NPROC && e.ExitSwitch?
    ensures Local(Apply(s, e), q)
  {
    hide Inv;
    Around(s, e, q);
  }

  lemma WaitScanMine(s: State, e: Event, q: Pid)
    requires Inv(s) && Enabled(s, e) && q < NPROC && e.WaitScan?
    ensures |Apply(s, e).procs| == NPROC && Mine(Apply(s, e), q)
  {
    hide Inv;
    Around(s, e, q);
  }

  lemma WaitScanKin(s: State, e: Event, q: Pid)
    requires Inv(s) && Enabled(s, e) && q < NPROC && e.WaitScan?
    ensures |Apply(s, e).procs| == NPROC && Kin(Apply(s, e), q)
  {
    hide Inv;
    Around(s, e, q);
  }

  lemma WaitScanLocal(s: State, e: Event, q: Pid)
    requires Inv(s) && Enabled(s, e) && q < NPROC && e.WaitScan?
    ensures Local(Apply(s, e), q)
  {
    hide Inv, Apply, Mine, Kin;
    WaitScanMine(s, e, q);
    WaitScanKin(s, e, q);
  }

  /** wait frees the zombie it has found. */
  predicate Reaps(s: State, e: Event)
    requires |s.procs| == NPROC && e.p < NPROC
  {
    var pc := s.procs[e.p].pc;
    e.WaitLook? && !e.copyFails && pc.Look? && pc.i < NPROC && s.procs[pc.i].st.Zombie?
  }

  lemma ReapMine(s: State, e: Event, q: Pid)
    requires Inv(s) && Enabled(s, e) && q < NPROC && Reaps(s, e)
    ensures |Apply(s, e).procs| == NPROC && Mine(Apply(s, e), q)
  {
    hide Inv;
    Around(s, e, q);
  }

  lemma ReapKin(s: State, e: Event, q: Pid)
    requires Inv(s) && Enabled(s, e) && q < NPROC && Reaps(s, e)
    ensures |Apply(s, e).procs| == NPROC && Kin(Apply(s, e), q)
  {
    hide Inv;
    Around(s, e, q);
  }

  lemma ReapLocal(s: State, e: Event, q: Pid)
    requires Inv(s) && Enabled(s, e) && q < NPROC && Reaps(s, e)
    ensures Local(Apply(s, e), q)
  {
    hide Inv, Apply, Mine, Kin;
    ReapMine(s, e, q);
    ReapKin(s, e, q);
  }

  lemma LookNextLocal(s: State, e: Event, q: Pid)
    requires Inv(s) && Enabled(s, e) && q < NPROC && e.WaitLook? && !s.procs[s.procs[e.p].pc.i].st.Zombie?
    ensures Local(Apply(s, e), q)
  {
    hide Inv;
    Around(s, e, q);
  }

  lemma LookFailLocal(s: State, e: Event, q: Pid)
    requires Inv(s) && Enabled(s, e) && q < NPROC && e.WaitLook? && s.procs[s.procs[e.p].pc.i].st.Zombie? && e.copyFails
    ensures Local(Apply(s, e), q)
  {
    hide Inv;
    Around(s, e, q);
  }

  lemma LookOnLocal(s: State, e: Event, q: Pid)
    requires Inv(s) && Enabled(s, e) && q < NPROC && e.WaitLook? && !Reaps(s, e)
    ensures Local(Apply(s, e), q)
  {
    hide Inv, Local;
    if s.procs[s.procs[e.p].pc.i].st.Zombie? {
      LookFailLocal(s, e, q);
    } else {
      LookNextLocal(s, e, q);
    }
  }

  lemma WaitEndMine(s: State, e: Event, q: Pid)
    requires Inv(s) && Enabled(s, e) && q < NPROC && e.WaitEnd?
    ensures |Apply(s, e).procs| == NPROC && Mine(Apply(s, e), q)
  {
    hide Inv;
    Around(s, e, q);
  }

  lemma WaitEndKin(s: State, e: Event, q: Pid)
    requires Inv(s) && Enabled(s, e) && q < NPROC && e.WaitEnd?
    ensures |Apply(s, e).procs| == NPROC && Kin(Apply(s, e), q)
  {
    hide Inv;
    Around(s, e, q);
  }

  lemma WaitEndLocal(s: State, e: Event, q: Pid)
    requires Inv(s) && Enabled(s, e) && q < NPROC && e.WaitEnd?
    ensures Local(Apply(s, e), q)
  {
    hide Inv, Apply, Mine, Kin;
    WaitEndMine(s, e, q);
    WaitEndKin(s, e, q);
  }

  lemma WaitSleepLocal(s: State, e: Event, q: Pid)
    requires Inv(s) && Enabled(s, e) && q < NPROC && e.WaitSleep?
    ensures Local(Apply(s, e), q)
  {
    hide Inv;
    Around(s, e, q);
  }

  lemma KillMine(s: State, e: Event, q: Pid)
    requires Inv(s) && Enabled(s, e) && q < NPROC && e.Kill?
    ensures |Apply(s, e).procs| == NPROC && Mine(Apply(s, e), q)
  {
    hide Inv;
    Around(s, e, q);
  }

  lemma KillKin(s: State, e: Event, q: Pid)
    requires Inv(s) && Enabled(s, e) && q < NPROC && e.Kill?
    ensures |Apply(s, e).procs| == NPROC && Kin(Apply(s, e), q)
  {
    hide Inv;
    Around(s, e, q);
  }

  lemma KillLocal(s: State, e: Event, q: Pid)
    requires Inv(s) && Enabled(s, e) && q < NPROC && e.Kill?
    ensures Local(Apply(s, e), q)
  {
    hide Inv, Apply, Mine, Kin;
    KillMine(s, e, q);
    KillKin(s, e, q);
  }

  lemma TakeWaitLockMine(s: State, e: Event, q: Pid)
    requires Inv(s) && Enabled(s, e) && q < NPROC && (e.ForkLock? || e.ExitStart?)
    ensures |Apply(s, e).procs| == NPROC && Mine(Apply(s, e), q)
  {
    hide Inv;
    Around(s, e, q);
  }

  lemma TakeWaitLockKin(s: State, e: Event, q: Pid)
    requires Inv(s) && Enabled(s, e) && q < NPROC && (e.ForkLock? || e.ExitStart?)
    ensures |Apply(s, e).procs| == NPROC && Kin(Apply(s, e), q)
  {
    hide Inv;
    Around(s, e, q);
  }

  lemma TakeWaitLockLocal(s: State, e: Event, q: Pid)
    requires Inv(s) && Enabled(s, e) && q < NPROC && (e.ForkLock? || e.ExitStart?)
    ensures Local(Apply(s, e), q)
  {
    hide Inv, Apply, Mine, Kin;
    TakeWaitLockMine(s, e, q);
    TakeWaitLockKin(s, e, q);
  }

  lemma WaitEnterMine(s: State, e: Event, q: Pid)
    requires Inv(s) && Enabled(s, e) && q < NPROC && (e.WaitStart? || e.WaitResume?)
    ensures |Apply(s, e).procs| == NPROC && Mine(Apply(s, e), q)
  {
    hide Inv;
    Around(s, e, q);
  }

  lemma WaitEnterKin(s: State, e: Event, q: Pid)
    requires Inv(s) && Enabled(s, e) && q < NPROC && (e.WaitStart? || e.WaitResume?)
    ensures |Apply(s, e).procs| == NPROC && Kin(Apply(s, e), q)
  {
    hide Inv;
    Around(s, e, q);
  }

  lemma WaitEnterLocal(s: State, e: Event, q: Pid)
    requires Inv(s) && Enabled(s, e) && q < NPROC && (e.WaitStart? || e.WaitResume?)
    ensures Local(Apply(s, e), q)
  {
    hide Inv, Apply, Mine, Kin;
    WaitEnterMine(s, e, q);
    WaitEnterKin(s, e, q);
  }

  lemma GiveWaitLockMine(s: State, e: Event, q: Pid)
    requires Inv(s) && Enabled(s, e) && q < NPROC && (e.ForkRelease? || e.ExitRelease?)
    ensures |Apply(s, e).procs| == NPROC && Mine(Apply(s, e), q)
  {
    hide Inv;
    Around(s, e, q);
  }

  lemma GiveWaitLockKin(s: State, e: Event, q: Pid)
    requires Inv(s) && Enabled(s, e) && q < NPROC && (e.ForkRelease? || e.ExitRelease?)
    ensures |Apply(s, e).procs| == NPROC && Kin(Apply(s, e), q)
  {
    hide Inv;
    Around(s, e, q);
  }

  lemma GiveWaitLockLocal(s: State, e: Event, q: Pid)
    requires Inv(s) && Enabled(s, e) && q < NPROC && (e.ForkRelease? || e.ExitRelease?)
    ensures Local(Apply(s, e), q)
  {
    hide Inv, Apply, Mine, Kin;
    GiveWaitLockMine(s, e, q);
    GiveWaitLockKin(s, e, q);
  }

  lemma StepLocal(s: State, e: Event, q: Pid)
    requires Inv(s) && Enabled(s, e) && q < NPROC
    ensures Local(Apply(s, e), q)
  {
    assert |s.procs| == NPROC && e.p < NPROC;
    hide Inv, Enabled, Apply, Mine, Kin;
    match e
    case ForkAlloc(_, _) => ForkAllocLocal(s, e, q);
    case ForkFail(_) => ForkFailLocal(s, e, q);
    case ForkUnlock(_) => ForkUnlockLocal(s, e, q);
    case ForkAdopt(_) => ForkAdoptLocal(s, e, q);
    case ForkReady(_) => ForkReadyLocal(s, e, q);
    case ExitScan(_) =>
      if HandsOver(s, e) {
        HandOverLocal(s, e, q);
      } else {
        ExitScanLocal(s, e, q);
      }
    case ExitTellInit(_) => ExitTellInitLocal(s, e, q);
    case ExitTellParent(_) => ExitTellParentLocal(s, e, q);
    case ExitDie(_, _) => ExitDieLocal(s, e, q);
    case ExitSwitch(_) => ExitSwitchLocal(s, e, q);
    case WaitScan(_) => WaitScanLocal(s, e, q);
    case WaitLook(_, _) =>
      if Reaps(s, e) {
        ReapLocal(s, e, q);
      } else {
        LookOnLocal(s, e, q);
      }
    case WaitEnd(_) => WaitEndLocal(s, e, q);
    case WaitSleep(_) => WaitSleepLocal(s, e, q);
    case Kill(_) => KillLocal(s, e, q);
    case ForkRelease(_) => GiveWaitLockLocal(s, e, q);
    case ExitRelease(_) => GiveWaitLockLocal(s, e, q);
    case ForkLock(_) => TakeWaitLockLocal(s, e, q);
    case ExitStart(_) => TakeWaitLockLocal(s, e, q);
    case _ => WaitEnterLocal(s, e, q);
  }

  lemma Apart(s: State, p: Pid, q: Pid)
    requires Inv(s) && p < NPROC && q < NPROC
    ensures ForksApart(s, p, q)
  {
  }

  lemma StepSize(s: State, e: Event)
    requires Enabled(s, e)
    ensures |Apply(s, e).procs| == NPROC
  {
  }

  lemma StepInit(s: State, e: Event)
    requires Inv(s) && Enabled(s, e)
    ensures |Apply(s, e).procs| == NPROC && InitOk(Apply(s, e))
  {
    hide Inv, LockOk, ParentOk, ChildOk;
    StepSize(s, e);
    Around(s, e, e.p);
  }

  lemma ForkSource(s: State, e: Event, p: Pid)
    requires Enabled(s, e) && p < NPROC
    ensures |Apply(s, e).procs| == NPROC
    ensures Forking(Apply(s, e).procs[p].pc) ==>
      || (Forking(s.procs[p].pc) && Apply(s, e).procs[p].pc.np == s.procs[p].pc.np)
      || (e.ForkAlloc? && p == e.p && Apply(s, e).procs[p].pc.np == e.np)
  {
  }

  lemma StepApart(s: State, e: Event, p: Pid, q: Pid)
    requires Inv(s) && Enabled(s, e) && p < NPROC && q < NPROC
    ensures |Apply(s, e).procs| == NPROC && ForksApart(Apply(s, e), p, q)
  {
    hide Inv, Apply;
    LocalAt(s, p);
    LocalAt(s, q);
    Apart(s, p, q);
    ForkSource(s, e, p);
    ForkSource(s, e, q);
  }

  /** Process identifiers change only in allocproc and freeproc. */
  lemma PidFrame(s: State, e: Event, q: Pid)
    requires Enabled(s, e) && q < NPROC && FitsState(s.procs[e.p]) && !e.ForkAlloc? && !e.ForkFail? && !e.WaitLook?
    requires e.ForkReady? ==> s.procs[s.procs[e.p].pc.np].st.Used?
    ensures |Apply(s, e).procs| == NPROC && Apply(s, e).procs[q].pid == s.procs[q].pid
    ensures Apply(s, e).procs[q].st.Unused? == s.procs[q].st.Unused?
    ensures Apply(s, e).nextpid == s.nextpid && Apply(s, e).reaped == s.reaped
  {
  }

  /** allocproc and freeproc. */
  lemma PidChange(s: State, e: Event, q: Pid)
    requires Enabled(s, e) && ProcOk(s, e.p) && (e.ForkAlloc? || e.ForkFail? || e.WaitLook?) && q < NPROC
    ensures |Apply(s, e).procs| == NPROC
    ensures !Apply(s, e).procs[q].st.Unused? ==>
      || (Apply(s, e).procs[q].pid == s.procs[q].pid && !s.procs[q].st.Unused?)
      || (e.ForkAlloc? && q == e.np && Apply(s, e).procs[q].pid == s.nextpid)
  {
  }

  lemma ChangePids(s: State, e: Event)
    requires Inv(s) && Enabled(s, e) && (e.ForkAlloc? || e.ForkFail? || e.WaitLook?)
    ensures |Apply(s, e).procs| == NPROC && PidsOk(Apply(s, e))
  {
    ProcAt(s, e.p);
    hide Local, ForksApart, InitOk, ProcOk;
    var s' := Apply(s, e);
    forall q | 0 <= q < NPROC
      ensures !s'.procs[q].st.Unused? ==>
        (s'.procs[q].pid == s.procs[q].pid && !s.procs[q].st.Unused?) || (e.ForkAlloc? && q == e.np && s'.procs[q].pid == s.nextpid)
    {
      PidChange(s, e, q);
    }
  }

  lemma StepPids(s: State, e: Event)
    requires Inv(s) && Enabled(s, e)
    ensures |Apply(s, e).procs| == NPROC && PidsOk(Apply(s, e))
  {
    ProcAt(s, e.p);
    StepSize(s, e);
    if e.ForkAlloc? || e.ForkFail? || e.WaitLook? {
      hide Inv, Apply, PidsOk;
      ChangePids(s, e);
    } else {
      hide Local, ForksApart, InitOk, Apply;
      var s' := Apply(s, e);
      forall q | 0 <= q < NPROC
        ensures s'.procs[q].pid == s.procs[q].pid && s'.procs[q].st.Unused? == s.procs[q].st.Unused?
      {
        PidFrame(s, e, q);
      }
      PidFrame(s, e, 0);
    }
  }

  /** Every step of every process keeps the invariant. */
  lemma StepKeepsInv(s: State, e: Event)
    requires Inv(s) && Enabled(s, e)
    ensures Inv(Apply(s, e))
  {
    hide Enabled, Apply, Local, ForksApart, PidsOk, InitOk;
    StepInit(s, e);
    StepPids(s, e);
    forall q | 0 <= q < NPROC ensures Local(Apply(s, e), q) {
      StepLocal(s, e, q);
    }
    forall p, q | 0 <= p < NPROC && 0 <= q < NPROC ensures ForksApart(Apply(s, e), p, q) {
      StepApart(s, e, p, q);
    }
  }

  // ---------------------------------------------------------------------------------------------
  // Runs
  // ---------------------------------------------------------------------------------------------

  /** What userinit leaves: init alone, with process identifier 1. */
  ghost predicate IsRun(ss: seq<State>, es: seq<Event>) {
    && |ss| == |es| + 1
    && ss[0] == State([Proc(Alive, None, 1, User, None, false, 0)] + seq(NPROC - 1, _ => Free), None, 2, [], [])
    && (forall i :: 0 <= i < |es| ==> Enabled(ss[i], es[i]) && ss[i + 1] == Apply(ss[i], es[i]))
  }

  lemma {:induction false} RunInv(ss: seq<State>, es: seq<Event>, i: nat)
    requires IsRun(ss, es) && i < |ss|
    ensures Inv(ss[i])
  {
    if i == 0 {
      forall q | 0 <= q < NPROC ensures Local(ss[0], q) {
        assert q > 0 ==> ss[0].procs[q] == Free;
      }
    } else {
      RunInv(ss, es, i - 1);
      assert Enabled(ss[i - 1], es[i - 1]);
      hide Inv;
      StepKeepsInv(ss[i - 1], es[i - 1]);
    }
  }

  /** In every interleaving, no child keeps a zombie or freed parent, and every process that has
      started, except init, has a parent that can still wait for it. */
  lemma ParentsCanWait(ss: seq<State>, es: seq<Event>, i: nat, q: Pid)
    requires IsRun(ss, es) && i < |ss| && q < NPROC == |ss[i].procs|
    ensures match ss[i].procs[q].parent
      case None => q == INIT || ss[i].procs[q].st.Unused? || ss[i].procs[q].st.Used?
      case Some(r) => r < NPROC && (ss[i].procs[r].st.Alive? || ss[i].procs[r].st.Asleep?)
  {
    RunInv(ss, es, i);
    LocalAt(ss[i], q);
  }

  /** Whenever wait_lock is free, no process asleep in wait has a zombie child; this includes init and
      the children handed to it by reparent. */
  lemma NoSleeperHasZombie(ss: seq<State>, es: seq<Event>, i: nat, r: Pid, q: Pid)
    requires IsRun(ss, es) && i < |ss| && r < NPROC == |ss[i].procs| && q < NPROC
    requires ss[i].waitLock.None? && ss[i].procs[r].st.Asleep? && ss[i].procs[q].parent == Some(r)
    ensures !ss[i].procs[q].st.Zombie?
  {
    RunInv(ss, es, i);
    LocalAt(ss[i], q);
  }

  /** No process is reaped twice. */
  lemma ReapedOnce(ss: seq<State>, es: seq<Event>, i: nat)
    requires IsRun(ss, es) && i < |ss|
    ensures forall j, k :: 0 <= j < k < |ss[i].reaped| ==> ss[i].reaped[j] != ss[i].reaped[k]
  {
    RunInv(ss, es, i);
  }

  /** wait frees only its caller's own zombie child, and only once that child has left the CPU, so no
      kernel stack is freed while in use. */
  lemma ReapsOwnDeadChild(ss: seq<State>, es: seq<Event>, i: nat)
    requires IsRun(ss, es) && i < |es| && ss[i + 1].reaped != ss[i].reaped
    ensures es[i].WaitLook? && es[i].p < NPROC == |ss[i].procs| && ss[i].procs[es[i].p].pc.Look?
    ensures var k := ss[i].procs[es[i].p].pc.i;
      && k < NPROC && ss[i].procs[k].st.Zombie? && ss[i].procs[k].pc.Dead?
      && ss[i].procs[k].parent == Some(es[i].p)
      && ss[i + 1].reaped == ss[i].reaped + [ss[i].procs[k].pid] && ss[i + 1].procs[k] == Free
  {
    RunInv(ss, es, i);
    var e := es[i];
    assert Enabled(ss[i], e);
    LocalAt(ss[i], e.p);
    if e.WaitLook? {
      LocalAt(ss[i], ss[i].procs[e.p].pc.i);
    }
  }

  // ---------------------------------------------------------------------------------------------
  // What wait knows and returns
  // ---------------------------------------------------------------------------------------------

  /** Some entry below n has p as its parent. */
  ghost predicate HasKid(s: State, p: Pid, n: nat) {
    exists c :: 0 <= c < n && c < |s.procs| && s.procs[c].parent == Some(p)
  }

  /** havekids, wherever wait is, tells whether one of the entries that it has gone past is a child. */
  ghost predicate KidsOk(s: State, p: Pid)
    requires p < |s.procs|
  {
    var pc := s.procs[p].pc;
    && (pc.Scan? || pc.Look? ==> (pc.kids <==> HasKid(s, p, pc.i)))
    && (pc.Doze? ==> HasKid(s, p, NPROC))
  }

  /** Children change only under wait_lock. */
  lemma ParentFrame(s: State, e: Event, p: Pid, c: Pid)
    requires Inv(s) && Enabled(s, e) && p < NPROC && c < NPROC && s.waitLock == Some(p) && e.p != p
    ensures |Apply(s, e).procs| == NPROC && Apply(s, e).procs[c].parent == s.procs[c].parent
    ensures Apply(s, e).procs[p].pc == s.procs[p].pc
  {
    hide Inv;
    Around(s, e, p);
    LocalAt(s, c);
  }

  lemma OtherKids(s: State, e: Event, p: Pid)
    requires Inv(s) && Enabled(s, e) && p < NPROC && s.waitLock == Some(p) && e.p != p && KidsOk(s, p)
    ensures |Apply(s, e).procs| == NPROC && KidsOk(Apply(s, e), p)
  {
    assert |s.procs| == NPROC;
    hide Inv, Enabled, Apply;
    ParentFrame(s, e, p, p);
    forall c | 0 <= c < NPROC ensures Apply(s, e).procs[c].parent == s.procs[c].parent {
      ParentFrame(s, e, p, c);
    }
  }

  lemma SameKids(s: State, s': State, p: Pid, n: nat)
    requires |s'.procs| == |s.procs| && forall c :: 0 <= c < |s.procs| ==> s'.procs[c].parent == s.procs[c].parent
    ensures HasKid(s', p, n) <==> HasKid(s, p, n)
  {
  }

  lemma NextKid(s: State, p: Pid, i: nat)
    requires i < |s.procs|
    ensures HasKid(s, p, i + 1) <==> HasKid(s, p, i) || s.procs[i].parent == Some(p)
  {
  }

  /** Where p is after a step of its own. */
  lemma OwnPc(s: State, e: Event)
    requires Enabled(s, e)
    ensures |Apply(s, e).procs| == NPROC
    ensures var pc := Apply(s, e).procs[e.p].pc;
      pc.Scan? || pc.Look? || pc.Doze? ==> e.WaitScan? || e.WaitLook? || e.WaitEnd? || e.WaitStart? || e.WaitResume? || e.Kill?
  {
  }

  /** One step of p itself, in wait. */
  lemma WaitKids(s: State, e: Event)
    requires Inv(s) && Enabled(s, e) && KidsOk(s, e.p)
    requires e.WaitScan? || e.WaitLook? || e.WaitEnd? || e.WaitStart? || e.WaitResume? || e.Kill?
    ensures |Apply(s, e).procs| == NPROC && KidsOk(Apply(s, e), e.p)
  {
    hide Inv, HasKid;
    var s', p := Apply(s, e), e.p;
    var pc := s.procs[p].pc;
    NoKids(s', p);
    if !(e.WaitLook? && s.procs[pc.i].st.Zombie?) {
      assert forall c :: 0 <= c < |s.procs| ==> s'.procs[c].parent == s.procs[c].parent;
      SameKids(s, s', p, NPROC);
      if pc.Scan? || pc.Look? {
        SameKids(s, s', p, pc.i);
        SameKids(s, s', p, pc.i + 1);
        if pc.i < NPROC {
          NextKid(s, p, pc.i);
          LookAtKid(s, e);
        }
      }
    }
  }

  lemma LookAtKid(s: State, e: Event)
    requires Inv(s) && Enabled(s, e)
    ensures s.procs[e.p].pc.Look? && s.procs[e.p].pc.i < NPROC ==> s.procs[s.procs[e.p].pc.i].parent == Some(e.p)
  {
    LocalAt(s, e.p);
  }

  lemma NoKids(s: State, p: Pid)
    ensures !HasKid(s, p, 0)
  {
  }

  lemma StepKids(s: State, e: Event, p: Pid)
    requires Inv(s) && Enabled(s, e) && p < NPROC && KidsOk(s, p)
    ensures |Apply(s, e).procs| == NPROC && KidsOk(Apply(s, e), p)
  {
    StepInit(s, e);
    StepLocal(s, e, p);
    LocalAt(s, p);
    if e.p == p {
      hide Inv, Local, Enabled, Apply, HasKid;
      OwnPc(s, e);
      if e.WaitScan? || e.WaitLook? || e.WaitEnd? || e.WaitStart? || e.WaitResume? || e.Kill? {
        WaitKids(s, e);
      }
    } else if s.waitLock == Some(p) {
      hide Inv, Local;
      OtherKids(s, e, p);
    } else {
      hide Inv, LockOk, ParentOk, ChildOk;
      NotInWait(s, e, p);
    }
  }

  lemma NotInWait(s: State, e: Event, p: Pid)
    requires Enabled(s, e) && p < NPROC && e.p != p && ProcOk(s, p) && s.waitLock != Some(p) && |Apply(s, e).procs| == NPROC
    ensures HoldsWait(Apply(s, e).procs[p].pc) ==> HoldsWait(s.procs[p].pc)
  {
  }

  lemma {:induction false} RunKids(ss: seq<State>, es: seq<Event>, i: nat, p: Pid)
    requires IsRun(ss, es) && i < |ss| && p < NPROC
    ensures |ss[i].procs| == NPROC && KidsOk(ss[i], p)
  {
    if i > 0 {
      RunKids(ss, es, i - 1, p);
      RunInv(ss, es, i - 1);
      assert Enabled(ss[i - 1], es[i - 1]);
      hide Inv, Enabled, Apply, KidsOk;
      StepKids(ss[i - 1], es[i - 1], p);
    }
  }

  /** Once it has scanned the whole table, wait returns -1 exactly if it was killed or has no child; otherwise it goes on
      to sleep.  Either way none of its children is a zombie. */
  lemma WaitDecides(ss: seq<State>, es: seq<Event>, i: nat)
    requires IsRun(ss, es) && i < |es| && es[i].WaitEnd?
    ensures var p := es[i].p;
      && p < NPROC == |ss[i].procs| == |ss[i + 1].procs|
      && (forall c :: 0 <= c < NPROC && ss[i].procs[c].parent == Some(p) ==> !ss[i].procs[c].st.Zombie?)
      && (ss[i].procs[p].killed || !HasKid(ss[i], p, NPROC) ==>
        ss[i + 1].procs[p].pc.User? && ss[i + 1].waitLock.None? && ss[i + 1].results == ss[i].results + [Minus(p)])
      && (!ss[i].procs[p].killed && HasKid(ss[i], p, NPROC) ==>
        ss[i + 1].procs[p].pc.Doze? && ss[i + 1].results == ss[i].results)
  {
    var s, p := ss[i], es[i].p;
    assert Enabled(s, es[i]);
    RunInv(ss, es, i);
    RunKids(ss, es, i, p);
    forall c | 0 <= c < NPROC && s.procs[c].parent == Some(p) ensures !s.procs[c].st.Zombie? {
      LocalAt(s, c);
    }
    hide Inv;
  }

  /** When the scan comes upon a zombie child, wait returns: with its identifier and status, freeing the entry, or with -1
      and the zombie left for another call if the status cannot be copied out. */
  lemma WaitFinds(ss: seq<State>, es: seq<Event>, i: nat)
    requires IsRun(ss, es) && i < |es| && es[i].WaitLook?
    ensures var p := es[i].p; p < NPROC == |ss[i].procs| == |ss[i + 1].procs| && ss[i].procs[p].pc.Look? && ss[i].procs[p].pc.i < NPROC
    ensures var p, c := es[i].p, ss[i].procs[es[i].p].pc.i;
      var q := ss[i].procs[c];
      && q.parent == Some(p)
      && (q.st.Zombie? ==> ss[i + 1].procs[p].pc.User? && ss[i + 1].waitLock.None?)
      && (q.st.Zombie? && !es[i].copyFails ==>
        && ss[i + 1].results == ss[i].results + [Child(p, q.pid, q.xstate)]
        && ss[i + 1].reaped == ss[i].reaped + [q.pid] && ss[i + 1].procs[c] == Free)
      && (q.st.Zombie? && es[i].copyFails ==>
        && ss[i + 1].results == ss[i].results + [Minus(p)] && ss[i + 1].reaped == ss[i].reaped
        && ss[i + 1].procs[c] == q.(plock := None))
      && (!q.st.Zombie? ==> ss[i + 1].results == ss[i].results && ss[i + 1].procs[p].pc == Scan(c + 1, true))
  {
    RunInv(ss, es, i);
    assert Enabled(ss[i], es[i]);
    ProcAt(ss[i], es[i].p);
    LocalAt(ss[i], ss[i].procs[es[i].p].pc.i);
    hide Inv;
  }

  /** A process that falls asleep in wait has a child, and none that is a zombie. */
  lemma SleepsForLivingChild(ss: seq<State>, es: seq<Event>, i: nat)
    requires IsRun(ss, es) && i < |es| && es[i].WaitSleep?
    ensures var p := es[i].p;
      && p < NPROC == |ss[i].procs| == |ss[i + 1].procs| && HasKid(ss[i], p, NPROC)
      && (forall c :: 0 <= c < NPROC && ss[i].procs[c].parent == Some(p) ==> !ss[i].procs[c].st.Zombie?)
      && ss[i + 1].procs[p].st.Asleep? && ss[i + 1].procs[p].pc.InWait? && ss[i + 1].waitLock.None?
  {
    var s, p := ss[i], es[i].p;
    assert Enabled(s, es[i]);
    RunInv(ss, es, i);
    RunKids(ss, es, i, p);
    forall c | 0 <= c < NPROC && s.procs[c].parent == Some(p) ensures !s.procs[c].st.Zombie? {
      LocalAt(s, c);
    }
    hide Inv;
  }

  /** At step j, process q called exit, with this status, under this identifier. */
  ghost predicate ExitedAt(ss: seq<State>, es: seq<Event>, j: nat, q: Pid, pid: nat, status: int) {
    j < |es| < |ss| && es[j] == ExitDie(q, status) && q < |ss[j].procs| && ss[j].procs[q].pid == pid
  }

  /** A zombie is left as it died. */
  lemma ZombieStep(s: State, e: Event, q: Pid)
    requires Inv(s) && Enabled(s, e) && q < NPROC && |Apply(s, e).procs| == NPROC && Apply(s, e).procs[q].st.Zombie?
    ensures Apply(s, e).procs[q].pid == s.procs[q].pid
    ensures (e.ExitDie? && e.p == q && Apply(s, e).procs[q].xstate == e.status)
      || (s.procs[q].st.Zombie? && Apply(s, e).procs[q].xstate == s.procs[q].xstate)
  {
    hide Inv;
    ProcAt(s, e.p);
  }

  lemma {:induction false} ZombieExited(ss: seq<State>, es: seq<Event>, i: nat, q: Pid) returns (j: nat)
    requires IsRun(ss, es) && i < |ss| && q < NPROC == |ss[i].procs| && ss[i].procs[q].st.Zombie?
    ensures j < i && ExitedAt(ss, es, j, q, ss[i].procs[q].pid, ss[i].procs[q].xstate)
  {
    if i == 0 {
      assert false;
    } else {
      RunInv(ss, es, i - 1);
      assert Enabled(ss[i - 1], es[i - 1]);
      ZombieStep(ss[i - 1], es[i - 1], q);
      hide Inv, Apply, Enabled;
      if es[i - 1].ExitDie? && es[i - 1].p == q && ss[i].procs[q].xstate == es[i - 1].status {
        j := i - 1;
      } else {
        j := ZombieExited(ss, es, i - 1, q);
      }
    }
  }

  /** What wait returns: the identifier of a child of the caller, and the very status that this child passed to exit. */
  lemma WaitTellsStatus(ss: seq<State>, es: seq<Event>, i: nat) returns (c: Pid, j: nat)
    requires IsRun(ss, es) && i < |es| && ss[i + 1].reaped != ss[i].reaped
    ensures es[i].p < NPROC == |ss[i].procs| && c < NPROC && ss[i].procs[c].parent == Some(es[i].p)
    ensures j < i && ExitedAt(ss, es, j, c, ss[i].procs[c].pid, ss[i].procs[c].xstate)
    ensures ss[i + 1].reaped == ss[i].reaped + [ss[i].procs[c].pid]
    ensures ss[i + 1].results == ss[i].results + [Child(es[i].p, ss[i].procs[c].pid, ss[i].procs[c].xstate)]
  {
    ReapsOwnDeadChild(ss, es, i);
    c := ss[i].procs[es[i].p].pc.i;
    j := ZombieExited(ss, es, i, c);
    assert Enabled(ss[i], es[i]);
  }

  // ---------------------------------------------------------------------------------------------
  // Progress
  // ---------------------------------------------------------------------------------------------

  /** What process p has to wait for at its position: wait_lock or the lock of an entry, in the hands of another. */
  predicate Waits(s: State, p: Pid)
    requires |s.procs| == NPROC && p < NPROC
  {
    var pc := s.procs[p].pc;
    || ((pc.User? || pc.Fork2? || pc.InWait?) && s.waitLock.Some? && s.waitLock.value != p)
    || (pc.Fork5? && pc.np < NPROC && s.procs[pc.np].plock.Some? && s.procs[pc.np].plock.value != p)
    || (pc.Scan? && pc.i < NPROC && s.procs[pc.i].plock.Some? && s.procs[pc.i].plock.value != p)
    || ((pc.Dying? || pc.Doze? || pc.Scan?) && s.procs[p].plock.Some? && s.procs[p].plock.value != p)
  }

  /** The step of its own that process p can take. */
  function StepOf(s: State, p: Pid): (e: Event)
    requires |s.procs| == NPROC && p < NPROC
  {
    match s.procs[p].pc
    case User => WaitStart(p)
    case Fork1(_) => ForkUnlock(p)
    case Fork2(_) => ForkLock(p)
    case Fork3(_) => ForkAdopt(p)
    case Fork4(_) => ForkRelease(p)
    case Fork5(_) => ForkReady(p)
    case Reparent(_) => ExitScan(p)
    case TellInit(_) => ExitTellInit(p)
    case TellParent => ExitTellParent(p)
    case Dying => ExitDie(p, 0)
    case Died => ExitRelease(p)
    case Leaving => ExitSwitch(p)
    case Scan(i, _) => if i < NPROC then WaitScan(p) else WaitEnd(p)
    case Look(_, _) => WaitLook(p, false)
    case Doze => WaitSleep(p)
    case _ => WaitResume(p)
  }

  /** How many steps of its own a process is from the end of its fork, exit or scan of the table. */
  function Left(pc: Pc): (n: nat) {
    match pc
    case Fork1(_) => 5
    case Fork2(_) => 4
    case Fork3(_) => 3
    case Fork4(_) => 2
    case Fork5(_) => 1
    case Reparent(i) => if i <= NPROC then 2 * (NPROC - i) + 5 else 5
    case TellInit(i) => if i < NPROC then 2 * (NPROC - i) + 4 else 4
    case TellParent => 4
    case Dying => 3
    case Died => 2
    case Leaving => 1
    case Scan(i, _) => if i <= NPROC then 2 * (NPROC - i) + 2 else 2
    case Look(i, _) => if i < NPROC then 2 * (NPROC - i) + 1 else 1
    case Doze => 1
    case _ => 0
  }

  lemma OwnAdvances(s: State, e: Event)
    requires Enabled(s, e) && ProcOk(s, e.p) && Left(s.procs[e.p].pc) > 0 && !e.Kill?
    ensures |Apply(s, e).procs| == NPROC && Left(Apply(s, e).procs[e.p].pc) < Left(s.procs[e.p].pc)
  {
  }

  lemma OthersLeave(s: State, e: Event, p: Pid)
    requires Enabled(s, e) && p < NPROC && ProcOk(s, e.p) && FitsState(s.procs[p]) && Left(s.procs[p].pc) > 0 && (e.p != p || e.Kill?)
    requires s.procs[e.p].pc.Look? && s.procs[s.procs[e.p].pc.i].st.Zombie? ==> s.procs[s.procs[e.p].pc.i].pc.Dead?
    ensures |Apply(s, e).procs| == NPROC && Apply(s, e).procs[p].pc == s.procs[p].pc
  {
  }

  /** Every such step brings it nearer, and nobody else's step moves it. */
  lemma StepsAdvance(s: State, e: Event, p: Pid)
    requires Inv(s) && Enabled(s, e) && p < NPROC && Left(s.procs[p].pc) > 0
    ensures |Apply(s, e).procs| == NPROC
    ensures if e.p == p && !e.Kill? then Left(Apply(s, e).procs[p].pc) < Left(s.procs[p].pc)
      else Apply(s, e).procs[p].pc == s.procs[p].pc
  {
    ProcAt(s, e.p);
    ProcAt(s, p);
    if e.p == p && !e.Kill? {
      hide Inv, Apply, Enabled, ProcOk, Left;
      OwnAdvances(s, e);
    } else {
      LookedAt(s, e.p);
      hide Inv, Apply, Left;
      OthersLeave(s, e, p);
    }
  }

  /** A zombie that wait has in hand has left the CPU. */
  lemma LookedAt(s: State, p: Pid)
    requires Inv(s) && p < NPROC
    ensures s.procs[p].pc.Look? ==>
      s.procs[p].pc.i < NPROC && (s.procs[s.procs[p].pc.i].st.Zombie? ==> s.procs[s.procs[p].pc.i].pc.Dead?)
  {
    LocalAt(s, p);
    if s.procs[p].pc.Look? {
      LocalAt(s, s.procs[p].pc.i);
    }
  }

  /** Nobody is stuck: a process that is neither asleep nor dead nor being made can go on, or waits for a lock that
      another process has. */
  lemma Progress(ss: seq<State>, es: seq<Event>, i: nat, p: Pid)
    requires IsRun(ss, es) && i < |ss| && p < NPROC == |ss[i].procs|
    requires var q := ss[i].procs[p]; !q.st.Asleep? && !q.pc.Gone? && !q.pc.Newborn? && !q.pc.Dead?
    ensures Enabled(ss[i], StepOf(ss[i], p)) || Waits(ss[i], p)
  {
    hide Inv, Waits, Enabled, StepOf;
    RunInv(ss, es, i);
    if Forking(ss[i].procs[p].pc) {
      ForkGoesOn(ss[i], p);
    } else {
      OtherGoesOn(ss[i], p);
    }
  }

  lemma ForkGoesOn(s: State, p: Pid)
    requires Inv(s) && p < NPROC == |s.procs| && Forking(s.procs[p].pc) && !s.procs[p].st.Asleep?
    ensures Enabled(s, StepOf(s, p)) || Waits(s, p)
  {
    hide Inv;
    LocalAt(s, p);
    LocalAt(s, s.procs[p].pc.np);
  }

  lemma OtherGoesOn(s: State, p: Pid)
    requires Inv(s) && p < NPROC == |s.procs| && !Forking(s.procs[p].pc)
    requires var q := s.procs[p]; !q.st.Asleep? && !q.pc.Gone? && !q.pc.Newborn? && !q.pc.Dead?
    ensures Enabled(s, StepOf(s, p)) || Waits(s, p)
  {
    hide Inv;
    LocalAt(s, p);
    var pc := s.procs[p].pc;
    if (pc.Scan? || pc.Look?) && pc.i < NPROC {
      LocalAt(s, pc.i);
    }
  }

  // ---------------------------------------------------------------------------------------------
  // Who is whose child
  // ---------------------------------------------------------------------------------------------

  /** When fork returns, the child can run, is the caller's child, and has an identifier that nobody else has or had. */
  lemma ForkMakesChild(ss: seq<State>, es: seq<Event>, i: nat)
    requires IsRun(ss, es) && i < |es| && es[i].ForkReady?
    ensures var p := es[i].p; p < NPROC == |ss[i].procs| == |ss[i + 1].procs| && ss[i].procs[p].pc.Fork5?
    ensures var p, c := es[i].p, ss[i].procs[es[i].p].pc.np;
      && c < NPROC && c != p && ss[i].procs[c].st.Used? && ss[i + 1].procs[p].pc.User?
      && ss[i + 1].procs[c] == ss[i].procs[c].(st := Alive, pc := User) && ss[i + 1].procs[c].parent == Some(p)
      && ss[i + 1].procs[c].pid !in ss[i + 1].reaped
      && forall q :: 0 <= q < NPROC && q != c && !ss[i].procs[q].st.Unused? ==> ss[i].procs[q].pid != ss[i + 1].procs[c].pid
  {
    RunInv(ss, es, i);
    assert Enabled(ss[i], es[i]);
    ProcAt(ss[i], es[i].p);
  }

  /** In a step a started process keeps its parent, or goes to init because its parent, in exit, gives it up. */
  lemma ParentStep(s: State, e: Event, q: Pid)
    requires Inv(s) && Enabled(s, e) && q < NPROC && s.procs[q].parent.Some?
    requires |Apply(s, e).procs| == NPROC && !Apply(s, e).procs[q].st.Unused?
    ensures e.p < NPROC == |s.procs|
    ensures Apply(s, e).procs[q].parent == s.procs[q].parent
      || (s.procs[q].parent == Some(e.p) && Apply(s, e).procs[q].parent == Some(INIT) && e == ExitScan(e.p) && s.procs[e.p].pc.Reparent?)
  {
    ProcAt(s, e.p);
    LocalAt(s, q);
    hide Inv;
  }

  /** Entry q is in use from state i to state j. */
  ghost predicate InUse(ss: seq<State>, i: nat, j: nat, q: Pid) {
    i <= j < |ss| && forall k :: i <= k <= j ==> q < |ss[k].procs| == NPROC && !ss[k].procs[q].st.Unused?
  }

  lemma InUseAt(ss: seq<State>, i: nat, j: nat, q: Pid)
    requires InUse(ss, i, j, q)
    ensures i <= j < |ss| && q < |ss[j].procs| == NPROC && !ss[j].procs[q].st.Unused? && q < |ss[i].procs|
    ensures i < j ==> InUse(ss, i, j - 1, q)
  {
  }

  /** Between those states r, in exit, gave up a child. */
  ghost predicate GaveUp(ss: seq<State>, es: seq<Event>, i: nat, j: nat, r: Pid) {
    exists k :: i <= k < j && k < |es| && k < |ss| && es[k] == ExitScan(r) && r < |ss[k].procs| && ss[k].procs[r].pc.Reparent?
  }

  lemma GaveUpNow(ss: seq<State>, es: seq<Event>, i: nat, j: nat, r: Pid)
    requires i <= j < |es| && j < |ss|
    ensures GaveUp(ss, es, i, j, r) || (es[j] == ExitScan(r) && r < |ss[j].procs| && ss[j].procs[r].pc.Reparent?) ==>
      GaveUp(ss, es, i, j + 1, r)
  {
  }

  /** As long as a process lives, its parent is the one that forked it, or init once that one has called exit. */
  lemma {:induction false} ParentHistory(ss: seq<State>, es: seq<Event>, i: nat, j: nat, q: Pid, r: Pid)
    requires IsRun(ss, es) && InUse(ss, i, j, q) && q < |ss[i].procs| && ss[i].procs[q].parent == Some(r)
    ensures q < |ss[j].procs|
    ensures ss[j].procs[q].parent == Some(r) || (ss[j].procs[q].parent == Some(INIT) && GaveUp(ss, es, i, j, r))
    decreases j
  {
    hide IsRun, Inv, Apply, Enabled, InUse, GaveUp;
    InUseAt(ss, i, j, q);
    RunLength(ss, es);
    if i < j {
      ParentHistory(ss, es, i, j - 1, q, r);
      RunInv(ss, es, j - 1);
      RunStep(ss, es, j - 1);
      ParentStep(ss[j - 1], es[j - 1], q);
      NotInit(ss[j - 1]);
      GaveUpNow(ss, es, i, j - 1, r);
    }
  }

  lemma RunLength(ss: seq<State>, es: seq<Event>)
    requires IsRun(ss, es)
    ensures |ss| == |es| + 1
  {
  }

  lemma RunStep(ss: seq<State>, es: seq<Event>, i: nat)
    requires IsRun(ss, es) && i < |es|
    ensures Enabled(ss[i], es[i]) && ss[i + 1] == Apply(ss[i], es[i])
  {
    hide Enabled, Apply;
  }

  lemma NotInit(s: State)
    requires Inv(s)
    ensures |s.procs| == NPROC && !s.procs[INIT].pc.Reparent?
  {
  }

  // ---------------------------------------------------------------------------------------------
  // kill
  // ---------------------------------------------------------------------------------------------

  /** freeproc runs on entry q in this step. */
  predicate Frees(s: State, e: Event, q: Pid)
    requires |s.procs| == NPROC && e.p < NPROC
  {
    (e.ForkFail? && s.procs[e.p].pc == Fork1(q)) || (Reaps(s, e) && s.procs[e.p].pc.i == q)
  }

  /** An entry becomes free exactly when freeproc runs on it, */
  lemma FreedExactly(s: State, e: Event, q: Pid)
    requires Inv(s) && Enabled(s, e) && q < NPROC
    ensures |Apply(s, e).procs| == NPROC
    ensures Apply(s, e).procs[q].st.Unused? <==> Frees(s, e, q) || (s.procs[q].st.Unused? && e != ForkAlloc(e.p, q))
    ensures Frees(s, e, q) ==> Apply(s, e).procs[q] == Free
  {
    hide Inv;
    ProcAt(s, e.p);
  }

  /** and is a zombie exactly from the end of exit until then. */
  lemma ZombieExactly(s: State, e: Event, q: Pid)
    requires Inv(s) && Enabled(s, e) && q < NPROC
    ensures |Apply(s, e).procs| == NPROC
    ensures Apply(s, e).procs[q].st.Zombie? <==> (e.ExitDie? && e.p == q) || (s.procs[q].st.Zombie? && !Frees(s, e, q))
  {
    hide Inv;
    ProcAt(s, e.p);
  }

  /** The mark of kill stays on an entry until freeproc clears it, whoever the entry belongs to meanwhile. */
  lemma KilledExactly(s: State, e: Event, q: Pid)
    requires Inv(s) && Enabled(s, e) && q < NPROC
    ensures |Apply(s, e).procs| == NPROC
    ensures Apply(s, e).procs[q].killed <==> (e.Kill? && e.p == q) || (s.procs[q].killed && !Frees(s, e, q))
  {
    hide Inv;
    ProcAt(s, e.p);
  }

  /** A process sleeps in wait although it has been killed. */
  predicate Missed(s: State, q: Pid) {
    q < |s.procs| && s.procs[q].st.Asleep? && s.procs[q].killed
  }

  /** kill wakes a sleeper, so this comes about in exactly one way: the kill came after wait had looked for it and before
      wait fell asleep. */
  lemma MissedExactly(s: State, e: Event, q: Pid)
    requires Inv(s) && Enabled(s, e) && q < NPROC && !Missed(s, q)
    ensures Missed(Apply(s, e), q) <==> e == WaitSleep(q) && s.procs[q].killed
  {
    hide Inv;
    ProcAt(s, e.p);
    ProcAt(s, q);
  }

  lemma Extend(ss: seq<State>, es: seq<Event>, e: Event) returns (ss': seq<State>, es': seq<Event>)
    requires IsRun(ss, es) && Enabled(ss[|es|], e)
    ensures IsRun(ss', es') && ss'[|es'|] == Apply(ss[|es|], e) && |es'| == |es| + 1
  {
    hide Enabled, Apply;
    ss', es' := ss + [Apply(ss[|es|], e)], es + [e];
  }

  /** init and its child, which is in the given state; the other entries are free. */
  ghost predicate Two(s: State, me: Proc, child: Proc, lock: Option<Pid>) {
    |s.procs| == NPROC && s.procs[0] == me && s.procs[1] == child && s.waitLock == lock
      && forall q :: 2 <= q < NPROC ==> s.procs[q] == Free
  }

  /** init forks a child in entry 1, which kill may have marked while it was free. */
  lemma ForkOne(ss: seq<State>, es: seq<Event>, k: bool) returns (ss': seq<State>, es': seq<Event>)
    requires IsRun(ss, es) && ss[|es|].nextpid == 2
    requires Two(ss[|es|], Proc(Alive, None, 1, User, None, false, 0), Free.(killed := k), None)
    ensures IsRun(ss', es')
    ensures Two(ss'[|es'|], Proc(Alive, None, 1, User, None, false, 0), Proc(Alive, Some(0), 2, User, None, k, 0), None)
  {
    hide IsRun;
    ss', es' := ForkHalf(ss, es, k);
    ss', es' := Extend(ss', es', ForkAdopt(0));
    ss', es' := Extend(ss', es', ForkRelease(0));
    ss', es' := Extend(ss', es', ForkReady(0));
  }

  lemma ForkHalf(ss: seq<State>, es: seq<Event>, k: bool) returns (ss': seq<State>, es': seq<Event>)
    requires IsRun(ss, es) && ss[|es|].nextpid == 2
    requires Two(ss[|es|], Proc(Alive, None, 1, User, None, false, 0), Free.(killed := k), None)
    ensures IsRun(ss', es')
    ensures Two(ss'[|es'|], Proc(Alive, None, 1, Fork3(1), None, false, 0), Proc(Used, None, 2, Newborn, None, k, 0), Some(0))
  {
    hide IsRun;
    ss', es' := Extend(ss, es, ForkAlloc(0, 1));
    ss', es' := Extend(ss', es', ForkUnlock(0));
    ss', es' := Extend(ss', es', ForkLock(0));
  }

  lemma Start() returns (ss: seq<State>, es: seq<Event>)
    ensures IsRun(ss, es) && ss[|es|].nextpid == 2
    ensures Two(ss[|es|], Proc(Alive, None, 1, User, None, false, 0), Free, None)
  {
    es := [];
    ss := [State([Proc(Alive, None, 1, User, None, false, 0)] + seq(NPROC - 1, _ => Free), None, 2, [], [])];
  }

  /** kill(0) finds a free entry.  The process that is made there is killed before it starts. */
  lemma BornKilled() returns (ss: seq<State>, es: seq<Event>)
    ensures IsRun(ss, es) && Two(ss[|es|], Proc(Alive, None, 1, User, None, false, 0), Proc(Alive, Some(0), 2, User, None, true, 0), None)
  {
    ss, es := Start();
    hide IsRun;
    ss, es := Extend(ss, es, Kill(1));
    ss, es := ForkOne(ss, es, true);
  }

  /** The rest of the scan passes over free entries. */
  lemma {:induction false} ScanRest(ss: seq<State>, es: seq<Event>, i: nat, child: Proc) returns (ss': seq<State>, es': seq<Event>)
    requires IsRun(ss, es) && 2 <= i <= NPROC
    requires Two(ss[|es|], Proc(Alive, None, 1, Scan(i, true), None, false, 0), child, Some(0))
    ensures IsRun(ss', es') && Two(ss'[|es'|], Proc(Alive, None, 1, Scan(NPROC, true), None, false, 0), child, Some(0))
    decreases NPROC - i
  {
    hide IsRun;
    if i == NPROC {
      ss', es' := ss, es;
    } else {
      ss', es' := Extend(ss, es, WaitScan(0));
      ss', es' := ScanRest(ss', es', i + 1, child);
    }
  }

  /** A run in which a process sleeps in wait although it has been killed. */
  lemma MissedReachable() returns (ss: seq<State>, es: seq<Event>)
    ensures IsRun(ss, es) && Missed(ss[|es|], 0)
  {
    ss, es := Start();
    hide IsRun;
    ss, es := ForkOne(ss, es, false);
    ss, es := Extend(ss, es, WaitStart(0));
    ss, es := Extend(ss, es, WaitScan(0));
    ss, es := Extend(ss, es, WaitScan(0));
    ss, es := Extend(ss, es, WaitLook(0, false));
    ss, es := ScanRest(ss, es, 2, Proc(Alive, Some(0), 2, User, None, false, 0));
    ss, es := Extend(ss, es, WaitEnd(0));
    ss, es := Extend(ss, es, Kill(0));
    ss, es := Extend(ss, es, WaitSleep(0));
  }
}
