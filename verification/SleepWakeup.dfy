/** sleep, wakeup, the scheduler and kill of kernel/proc.c at the level of single lock operations.

    The clients are arbitrary: `data` is what they protect, `cond(c, data)` is the condition a process
    waits for on channel c, and `lockOf(c)` is the spin-lock passed to sleep for that channel. */
module SleepWakeup {

  const NPROC: nat := 64

  type Pid = nat
  type Lock = nat
  type Chan = nat

  datatype Option<+T> = None | Some(value: T)

  datatype Client<!S> = Client(lockOf: Chan -> Lock, cond: (Chan, S) -> bool)

  datatype RunState = Running | Runnable | Sleeping

  /** Where a process stands.  Doze1 to Doze4 are the statements of sleep up to swtch, Parked is off
      the CPU, Resumed is just after swtch returned, Relock is about to take the lock again. */
  datatype Pc =
    | Run
    | Waking(c: Chan, i: nat)
    | Doze1(c: Chan)
    | Doze2(c: Chan)
    | Doze3(c: Chan)
    | Doze4(c: Chan)
    | Parked(lk: Option<Lock>)
    | Resumed(lk: Option<Lock>)
    | Relock(l: Lock)

  /** `plocked` says whether some CPU holds p->lock. */
  datatype Proc = Proc(st: RunState, chan: Option<Chan>, pc: Pc, plocked: bool)

  /** `debts` are the channels whose condition was made true in the current critical section before
      any wakeup on them; `woken` are those on which wakeup has completed in it. */
  datatype State<!S> = State(data: S, locks: map<Lock, Pid>, procs: seq<Proc>,
                             debts: iset<Chan>, woken: iset<Chan>)

  datatype Event<!S> =
    | Acquire(p: Pid, l: Lock)
    | Release(p: Pid, l: Lock)
    | Mutate(p: Pid, l: Lock, data: S)
    | WakeStart(p: Pid, c: Chan)
    | WakeOne(p: Pid)
    | WakeEnd(p: Pid)
    | Check(p: Pid, c: Chan)
    | LockSelf(p: Pid)
    | Unlock(p: Pid)
    | Mark(p: Pid)
    | Switch(p: Pid)
    | Dispatch(p: Pid)
    | Clear(p: Pid)
    | Retake(p: Pid)
    | Yield(p: Pid)
    | Kill(p: Pid)

  predicate Owns<S>(s: State<S>, p: Pid, l: Lock) {
    l in s.locks && s.locks[l] == p
  }

  /** No condition of lock l has become true without a wakeup. */
  ghost predicate Settled<S(!new)>(k: Client<S>, s: State<S>, l: Lock) {
    forall c :: c in s.debts ==> k.lockOf(c) != l
  }

  ghost predicate Enabled<S(!new)>(k: Client<S>, s: State<S>, e: Event<S>) {
    && |s.procs| == NPROC && e.p < NPROC
    && var me := s.procs[e.p];
       match e
       case Acquire(p, l) => me.pc.Run? && l !in s.locks
       case Release(p, l) => me.pc.Run? && Owns(s, p, l) && Settled(k, s, l)
       case Mutate(p, l, data) =>
         && me.pc.Run? && Owns(s, p, l)
         && (forall c :: k.lockOf(c) != l ==> k.cond(c, data) == k.cond(c, s.data))
       case WakeStart(p, c) => me.pc.Run? && Owns(s, p, k.lockOf(c))
       case WakeOne(p) =>
         && me.pc.Waking? && me.pc.i < NPROC
         && (me.pc.i != p ==> !s.procs[me.pc.i].plocked)
       case WakeEnd(p) => me.pc.Waking? && me.pc.i == NPROC
       case Check(p, c) =>
         && me.pc.Run? && !k.cond(c, s.data)
         && (forall l :: Owns(s, p, l) <==> l == k.lockOf(c))
         && Settled(k, s, k.lockOf(c))
       case LockSelf(p) => me.pc.Doze1? && !me.plocked
       case Unlock(p) => me.pc.Doze2?
       case Mark(p) => me.pc.Doze3?
       case Switch(p) => me.pc.Doze4?
       case Dispatch(p) => me.pc.Parked? && !me.plocked && me.st.Runnable?
       case Clear(p) => me.pc.Resumed?
       case Retake(p) => me.pc.Relock? && me.pc.l !in s.locks
       case Yield(p) => me.pc.Run? && !me.plocked && (forall l :: !Owns(s, p, l))
       case Kill(p) => !me.plocked
  }

  function With<S>(s: State<S>, p: Pid, q: Proc): (s': State<S>)
    requires p < |s.procs|
  {
    s.(procs := s.procs[p := q])
  }

  /** Leaving a critical section. */
  ghost function Unlocked<S>(k: Client<S>, s: State<S>, l: Lock): (s': State<S>) {
    s.(locks := s.locks - {l}, woken := iset c | c in s.woken && k.lockOf(c) != l)
  }

  /** The part of sleep, wakeup, sched, scheduler, yield and kill that each event stands for. */
  ghost function Apply<S(!new)>(k: Client<S>, s: State<S>, e: Event<S>): (s': State<S>)
    requires Enabled(k, s, e)
  {
    var me := s.procs[e.p];
    match e
    case Acquire(p, l) => s.(locks := s.locks[l := p])
    case Release(p, l) => Unlocked(k, s, l)
    case Mutate(p, l, data) =>
      s.(data := data,
         debts := iset c | k.cond(c, data) && (c in s.debts || (!k.cond(c, s.data) && c !in s.woken)))
    case WakeStart(p, c) => With(s, p, me.(pc := Waking(c, 0)))
    case WakeOne(p) =>
      var i := me.pc.i;
      var q := s.procs[i];
      var s1 := if i != p && q.st.Sleeping? && q.chan == Some(me.pc.c) then With(s, i, q.(st := Runnable)) else s;
      With(s1, p, me.(pc := Waking(me.pc.c, i + 1)))
    case WakeEnd(p) =>
      With(s, p, me.(pc := Run)).(debts := s.debts - iset{me.pc.c}, woken := s.woken + iset{me.pc.c})
    case Check(p, c) => With(s, p, me.(pc := Doze1(c)))
    case LockSelf(p) => With(s, p, me.(pc := Doze2(me.pc.c), plocked := true))
    case Unlock(p) => Unlocked(k, With(s, p, me.(pc := Doze3(me.pc.c))), k.lockOf(me.pc.c))
    case Mark(p) => With(s, p, me.(pc := Doze4(me.pc.c), chan := Some(me.pc.c), st := Sleeping))
    case Switch(p) => With(s, p, me.(pc := Parked(Some(k.lockOf(me.pc.c))), plocked := false))
    case Dispatch(p) => With(s, p, me.(pc := Resumed(me.pc.lk), plocked := true, st := Running))
    case Clear(p) =>
      With(s, p, me.(pc := if me.pc.lk.Some? then Relock(me.pc.lk.value) else Run, plocked := false, chan := None))
    case Retake(p) => With(s, p, me.(pc := Run)).(locks := s.locks[me.pc.l := p])
    case Yield(p) => With(s, p, me.(pc := Parked(None), st := Runnable))
    case Kill(p) => if me.st.Sleeping? then With(s, p, me.(st := Runnable)) else s
  }

  // ---------------------------------------------------------------------------------------------
  // Invariant
  // ---------------------------------------------------------------------------------------------

  /** Process q has given up the lock of c and will not look at the condition again unless woken. */
  predicate Committed(q: Proc, c: Chan) {
    q.pc == Doze3(c) || (q.st.Sleeping? && q.chan == Some(c))
  }

  ghost predicate ProcOk<S(!new)>(k: Client<S>, s: State<S>, p: Pid)
    requires p < |s.procs|
  {
    var me := s.procs[p];
    && (me.st.Sleeping? ==>
          me.chan.Some? && (me.pc == Doze4(me.chan.value) || me.pc == Parked(Some(k.lockOf(me.chan.value)))))
    && (me.pc.Waking? ==> Owns(s, p, k.lockOf(me.pc.c)) && me.pc.i <= NPROC)
    && (me.pc.Doze1? || me.pc.Doze2? ==>
          Owns(s, p, k.lockOf(me.pc.c)) && !k.cond(me.pc.c, s.data) && Settled(k, s, k.lockOf(me.pc.c)))
    && (me.pc.Doze2? || me.pc.Doze3? || me.pc.Doze4? ==> me.plocked)
    && (me.pc.Doze4? ==> me.st.Sleeping? && me.chan == Some(me.pc.c))
  }

  ghost predicate LocksOk<S(!new)>(k: Client<S>, s: State<S>) {
    && (forall l :: l in s.locks ==> s.locks[l] < NPROC)
    && (forall c :: c in s.debts ==> k.lockOf(c) in s.locks)
    && (forall c :: c in s.woken ==> k.lockOf(c) in s.locks)
  }

  /** wakeup(c) has passed processes 0 to i - 1, and none of them is committed on c. */
  ghost predicate Visited<S(!new)>(s: State<S>, c: Chan, i: nat) {
    forall q :: 0 <= q < |s.procs| && q < i ==> !Committed(s.procs[q], c)
  }

  ghost predicate WakeOk<S(!new)>(k: Client<S>, s: State<S>) {
    && (forall p :: 0 <= p < |s.procs| && s.procs[p].pc.Waking? ==> Visited(s, s.procs[p].pc.c, s.procs[p].pc.i))
    && (forall c :: c in s.woken ==> Visited(s, c, NPROC))
  }

  /** A committed process whose condition holds is owed a wakeup. */
  ghost predicate NoneForgotten<S(!new)>(k: Client<S>, s: State<S>) {
    forall q, c :: 0 <= q < |s.procs| && Committed(s.procs[q], c) && k.cond(c, s.data) ==> c in s.debts
  }

  ghost predicate Inv<S(!new)>(k: Client<S>, s: State<S>) {
    && |s.procs| == NPROC
    && (forall p :: 0 <= p < NPROC ==> ProcOk(k, s, p))
    && LocksOk(k, s) && WakeOk(k, s) && NoneForgotten(k, s)
  }

  /** Statements that change nothing but the process's own entry, and commit it to nothing new. */
  lemma OwnStepKeeps<S(!new)>(k: Client<S>, s: State<S>, e: Event<S>)
    requires Inv(k, s) && Enabled(k, s, e)
    requires e.Dispatch? || e.Clear? || e.Yield? || e.Kill?
    ensures Inv(k, Apply(k, s, e))
  {
    var s' := Apply(k, s, e);
    forall p | 0 <= p < NPROC ensures ProcOk(k, s', p) {
      assert ProcOk(k, s, p);
    }
    assert LocksOk(k, s') && WakeOk(k, s') && NoneForgotten(k, s');
  }

  /** Entering wakeup, and the statements of sleep between taking p->lock and giving up the CPU. */
  lemma DozeStepKeeps<S(!new)>(k: Client<S>, s: State<S>, e: Event<S>)
    requires Inv(k, s) && Enabled(k, s, e) && (e.LockSelf? || e.Mark? || e.Switch? || e.WakeStart?)
    ensures Inv(k, Apply(k, s, e))
  {
    var s' := Apply(k, s, e);
    forall p | 0 <= p < NPROC ensures ProcOk(k, s', p) {
      assert ProcOk(k, s, p);
    }
    assert LocksOk(k, s') && WakeOk(k, s') && NoneForgotten(k, s');
  }

  lemma LockStepKeeps<S(!new)>(k: Client<S>, s: State<S>, e: Event<S>)
    requires Inv(k, s) && Enabled(k, s, e) && (e.Acquire? || e.Release? || e.Retake?)
    ensures Inv(k, Apply(k, s, e))
  {
    var s' := Apply(k, s, e);
    forall p | 0 <= p < NPROC ensures ProcOk(k, s', p) {
      assert ProcOk(k, s, p);
    }
    assert LocksOk(k, s') && WakeOk(k, s') && NoneForgotten(k, s');
  }

  lemma MutateKeeps<S(!new)>(k: Client<S>, s: State<S>, e: Event<S>)
    requires Inv(k, s) && Enabled(k, s, e) && e.Mutate?
    ensures Inv(k, Apply(k, s, e))
  {
    var s' := Apply(k, s, e);
    forall p | 0 <= p < NPROC ensures ProcOk(k, s', p) {
      assert ProcOk(k, s, p);
    }
    assert LocksOk(k, s');
    assert WakeOk(k, s');
    assert NoneForgotten(k, s');
  }

  /** wakeup commits nobody to sleep, and the visited process is off the channel. */
  lemma WakeOneCommits<S(!new)>(k: Client<S>, s: State<S>, e: Event<S>)
    requires Enabled(k, s, e) && e.WakeOne? && ProcOk(k, s, e.p) && ProcOk(k, s, s.procs[e.p].pc.i)
    ensures forall q, c :: 0 <= q < NPROC && Committed(Apply(k, s, e).procs[q], c) ==> Committed(s.procs[q], c)
    ensures !Committed(Apply(k, s, e).procs[s.procs[e.p].pc.i], s.procs[e.p].pc.c)
  {
  }

  lemma WakeOneProc<S(!new)>(k: Client<S>, s: State<S>, e: Event<S>, p: Pid)
    requires Enabled(k, s, e) && e.WakeOne? && p < NPROC == |s.procs|
    requires ProcOk(k, s, e.p) && ProcOk(k, s, s.procs[e.p].pc.i) && ProcOk(k, s, p)
    ensures ProcOk(k, Apply(k, s, e), p)
  {
  }

  lemma WakeOneKeeps<S(!new)>(k: Client<S>, s: State<S>, e: Event<S>)
    requires Inv(k, s) && Enabled(k, s, e) && e.WakeOne?
    ensures Inv(k, Apply(k, s, e))
  {
    hide Committed, ProcOk;
    var s' := Apply(k, s, e);
    assert ProcOk(k, s, e.p) && ProcOk(k, s, s.procs[e.p].pc.i);
    WakeOneCommits(k, s, e);
    forall p | 0 <= p < NPROC ensures ProcOk(k, s', p) {
      WakeOneProc(k, s, e, p);
    }
    assert LocksOk(k, s');
    assert WakeOk(k, s');
    assert NoneForgotten(k, s');
  }

  lemma WakeEndKeeps<S(!new)>(k: Client<S>, s: State<S>, e: Event<S>)
    requires Inv(k, s) && Enabled(k, s, e) && e.WakeEnd?
    ensures Inv(k, Apply(k, s, e))
  {
    assert ProcOk(k, s, e.p) && Visited(s, s.procs[e.p].pc.c, NPROC);
    var s' := Apply(k, s, e);
    forall p | 0 <= p < NPROC ensures ProcOk(k, s', p) {
      assert ProcOk(k, s, p);
    }
    assert LocksOk(k, s');
    assert WakeOk(k, s');
    assert NoneForgotten(k, s');
  }

  lemma CheckKeeps<S(!new)>(k: Client<S>, s: State<S>, e: Event<S>)
    requires Inv(k, s) && Enabled(k, s, e) && e.Check?
    ensures Inv(k, Apply(k, s, e))
  {
    assert Owns(s, e.p, k.lockOf(e.c));
    var s' := Apply(k, s, e);
    forall p | 0 <= p < NPROC ensures ProcOk(k, s', p) {
      assert ProcOk(k, s, p);
    }
    assert LocksOk(k, s');
    assert WakeOk(k, s');
    assert NoneForgotten(k, s');
  }

  lemma UnlockKeeps<S(!new)>(k: Client<S>, s: State<S>, e: Event<S>)
    requires Inv(k, s) && Enabled(k, s, e) && e.Unlock?
    ensures Inv(k, Apply(k, s, e))
  {
    assert ProcOk(k, s, e.p);
    var s' := Apply(k, s, e);
    forall p | 0 <= p < NPROC ensures ProcOk(k, s', p) {
      assert ProcOk(k, s, p);
    }
    var c := s.procs[e.p].pc.c;
    assert forall q, x :: 0 <= q < NPROC && Committed(s'.procs[q], x) ==> Committed(s.procs[q], x) || x == c;
    forall p | 0 <= p < NPROC && s'.procs[p].pc.Waking?
      ensures Visited(s', s'.procs[p].pc.c, s'.procs[p].pc.i)
    {
      assert ProcOk(k, s, p) && s'.procs[p] == s.procs[p];
      assert Visited(s, s.procs[p].pc.c, s.procs[p].pc.i);
    }
    forall x | x in s'.woken ensures Visited(s', x, NPROC) {
      assert Visited(s, x, NPROC);
    }
    assert LocksOk(k, s');
    assert WakeOk(k, s');
    assert NoneForgotten(k, s');
  }

  lemma StepKeepsInv<S(!new)>(k: Client<S>, s: State<S>, e: Event<S>)
    requires Inv(k, s) && Enabled(k, s, e)
    ensures Inv(k, Apply(k, s, e))
  {
    hide Inv, Apply;
    match e
    case Acquire(_, _) => LockStepKeeps(k, s, e);
    case Release(_, _) => LockStepKeeps(k, s, e);
    case Mutate(_, _, _) => MutateKeeps(k, s, e);
    case WakeStart(_, _) => DozeStepKeeps(k, s, e);
    case WakeOne(_) => WakeOneKeeps(k, s, e);
    case WakeEnd(_) => WakeEndKeeps(k, s, e);
    case Check(_, _) => CheckKeeps(k, s, e);
    case LockSelf(_) => DozeStepKeeps(k, s, e);
    case Unlock(_) => UnlockKeeps(k, s, e);
    case Mark(_) => DozeStepKeeps(k, s, e);
    case Switch(_) => DozeStepKeeps(k, s, e);
    case Dispatch(_) => OwnStepKeeps(k, s, e);
    case Clear(_) => OwnStepKeeps(k, s, e);
    case Retake(_) => LockStepKeeps(k, s, e);
    case Yield(_) => OwnStepKeeps(k, s, e);
    case Kill(_) => OwnStepKeeps(k, s, e);
  }

  // ---------------------------------------------------------------------------------------------
  // Runs
  // ---------------------------------------------------------------------------------------------

  ghost predicate Initial<S(!new)>(s: State<S>) {
    && |s.procs| == NPROC && s.locks == map[] && s.debts == iset{} && s.woken == iset{}
    && (forall p :: 0 <= p < NPROC ==> s.procs[p] == Proc(Running, None, Run, false))
  }

  ghost predicate IsRun<S(!new)>(k: Client<S>, ss: seq<State<S>>, es: seq<Event<S>>) {
    && |ss| == |es| + 1 && Initial(ss[0])
    && (forall i :: 0 <= i < |es| ==> Enabled(k, ss[i], es[i]) && ss[i + 1] == Apply(k, ss[i], es[i]))
  }

  lemma {:induction false} RunInv<S(!new)>(k: Client<S>, ss: seq<State<S>>, es: seq<Event<S>>, i: nat)
    requires IsRun(k, ss, es) && i < |ss|
    ensures Inv(k, ss[i])
  {
    if i > 0 {
      RunInv(k, ss, es, i - 1);
      assert Enabled(k, ss[i - 1], es[i - 1]);
      StepKeepsInv(k, ss[i - 1], es[i - 1]);
    } else {
      forall p | 0 <= p < NPROC ensures ProcOk(k, ss[0], p) {
        assert ss[0].procs[p].pc.Run?;
      }
    }
  }

  /** No lost wakeup: whenever the lock of channel c is free, no process is asleep on c, or on its way
      to sleep with the lock already given up, while the condition of c holds. */
  lemma NoLostWakeup<S(!new)>(k: Client<S>, ss: seq<State<S>>, es: seq<Event<S>>, i: nat, q: Pid, c: Chan)
    requires IsRun(k, ss, es) && i < |ss| && q < NPROC
    requires k.lockOf(c) !in ss[i].locks && |ss[i].procs| == NPROC
    ensures Committed(ss[i].procs[q], c) ==> !k.cond(c, ss[i].data)
  {
    RunInv(k, ss, es, i);
  }

  // ---------------------------------------------------------------------------------------------
  // Who is woken, and how sleep returns
  // ---------------------------------------------------------------------------------------------

  /** wakeup is at a process that sleeps on its channel. */
  predicate Wakes<S>(s: State<S>, e: Event<S>, q: Pid) {
    && e.WakeOne? && e.p < |s.procs| && q < |s.procs| && q != e.p && s.procs[e.p].pc.Waking? && s.procs[e.p].pc.i == q
    && s.procs[q].st.Sleeping? && s.procs[q].chan == Some(s.procs[e.p].pc.c)
  }

  /** A step touches another process exactly if it is a wakeup on the channel on which that process sleeps, and then it
      makes it runnable and nothing else. */
  lemma WakesExactly<S(!new)>(k: Client<S>, s: State<S>, e: Event<S>, q: Pid)
    requires Enabled(k, s, e) && q < NPROC && q != e.p
    ensures |Apply(k, s, e).procs| == NPROC
    ensures Apply(k, s, e).procs[q] != s.procs[q] <==> Wakes(s, e, q)
    ensures Wakes(s, e, q) ==> Apply(k, s, e).procs[q] == s.procs[q].(st := Runnable)
  {
  }

  /** A sleeper is woken by exactly two things: a wakeup on its channel, and a kill. */
  lemma WokenExactly<S(!new)>(k: Client<S>, s: State<S>, e: Event<S>, q: Pid)
    requires Inv(k, s) && Enabled(k, s, e) && q < NPROC && s.procs[q].st.Sleeping?
    ensures |Apply(k, s, e).procs| == NPROC
    ensures !Apply(k, s, e).procs[q].st.Sleeping? <==> Wakes(s, e, q) || e == Kill(q)
  {
    assert ProcOk(k, s, q);
    if q != e.p {
      WakesExactly(k, s, e, q);
    }
  }

  /** When wakeup returns, with the lock of the channel still held, nobody sleeps on the channel or is about to. */
  lemma WakesAll<S(!new)>(k: Client<S>, ss: seq<State<S>>, es: seq<Event<S>>, i: nat, q: Pid)
    requires IsRun(k, ss, es) && i < |es| && es[i].WakeEnd? && q < NPROC
    ensures es[i].p < NPROC == |ss[i].procs| == |ss[i + 1].procs| && ss[i].procs[es[i].p].pc.Waking?
    ensures !Committed(ss[i + 1].procs[q], ss[i].procs[es[i].p].pc.c)
  {
    RunInv(k, ss, es, i);
    assert Enabled(k, ss[i], es[i]);
    assert Visited(ss[i], ss[i].procs[es[i].p].pc.c, NPROC);
  }

  /** A process is off the CPU exactly if it is not running, and is then runnable or asleep.  Its lock is held exactly
      from the second statement of sleep until it is off the CPU, and while it comes back; its channel is set exactly from
      the moment that it is marked asleep until it has come back. */
  predicate Scheduled(q: Proc) {
    && (q.pc.Parked? <==> q.st.Runnable? || (q.st.Sleeping? && !q.pc.Doze4?)) && (q.pc.Doze4? ==> q.st.Sleeping?)
    && (!q.pc.Parked? && !q.pc.Doze4? ==> q.st.Running?)
    && (q.plocked <==> q.pc.Doze2? || q.pc.Doze3? || q.pc.Doze4? || q.pc.Resumed?)
    && (q.chan.Some? <==> q.pc.Doze4? || ((q.pc.Parked? || q.pc.Resumed?) && q.pc.lk.Some?))
  }

  lemma ScheduledStep<S(!new)>(k: Client<S>, s: State<S>, e: Event<S>, q: Pid)
    requires Inv(k, s) && Enabled(k, s, e) && q < NPROC && Scheduled(s.procs[q])
    ensures |Apply(k, s, e).procs| == NPROC && Scheduled(Apply(k, s, e).procs[q])
  {
    assert ProcOk(k, s, q);
    if q != e.p {
      WakesExactly(k, s, e, q);
    }
  }

  /** So nobody is lost: whoever gave up the CPU can be chosen by the scheduler, or sleeps on a channel. */
  lemma {:induction false} NobodyLost<S(!new)>(k: Client<S>, ss: seq<State<S>>, es: seq<Event<S>>, i: nat, q: Pid)
    requires IsRun(k, ss, es) && i < |ss| && q < NPROC
    ensures |ss[i].procs| == NPROC && Scheduled(ss[i].procs[q])
  {
    if i > 0 {
      hide Inv, Enabled, Apply, Scheduled;
      NobodyLost(k, ss, es, i - 1, q);
      RunInv(k, ss, es, i - 1);
      ScheduledStep(k, ss[i - 1], es[i - 1], q);
    }
  }

  /** A process inside a call of sleep on channel c, and asleep, if it is, on that channel. */
  predicate InSleep<S>(k: Client<S>, q: Proc, c: Chan) {
    && (q.pc in {Doze1(c), Doze2(c), Doze3(c), Doze4(c)}
      || q.pc in {Parked(Some(k.lockOf(c))), Resumed(Some(k.lockOf(c))), Relock(k.lockOf(c))})
    && (q.st.Sleeping? ==> q.chan == Some(c))
  }

  lemma SleepStep<S(!new)>(k: Client<S>, s: State<S>, e: Event<S>, p: Pid, c: Chan)
    requires Inv(k, s) && Enabled(k, s, e) && p < NPROC && InSleep(k, s.procs[p], c)
    ensures |Apply(k, s, e).procs| == NPROC
    ensures e != Retake(p) ==> InSleep(k, Apply(k, s, e).procs[p], c)
    ensures e == Retake(p) ==> Apply(k, s, e).procs[p].pc == Run && Owns(Apply(k, s, e), p, k.lockOf(c))
  {
    assert ProcOk(k, s, p);
    if e.p != p {
      WakesExactly(k, s, e, p);
    }
  }

  /** From its call until it has the lock of the channel again, a process is inside sleep; and that is how sleep returns. */
  lemma {:induction false} SleepReturns<S(!new)>(k: Client<S>, ss: seq<State<S>>, es: seq<Event<S>>, i: nat, j: nat, p: Pid, c: Chan)
    requires IsRun(k, ss, es) && i < j < |ss| && es[i] == Check(p, c) && forall m :: i < m < j ==> es[m] != Retake(p)
    ensures p < NPROC == |ss[j].procs| && InSleep(k, ss[j].procs[p], c)
    ensures j < |es| && es[j] == Retake(p) ==>
      p < |ss[j + 1].procs| && ss[j + 1].procs[p].pc == Run && Owns(ss[j + 1], p, k.lockOf(c))
    decreases j
  {
    hide Inv, Enabled, Apply, InSleep;
    if j == i + 1 {
      RunInv(k, ss, es, i);
      AwakeStep(k, ss[i], es[i]);
    } else {
      SleepReturns(k, ss, es, i, j - 1, p, c);
      RunInv(k, ss, es, j - 1);
      SleepStep(k, ss[j - 1], es[j - 1], p, c);
    }
    if j < |es| {
      RunInv(k, ss, es, j);
      SleepStep(k, ss[j], es[j], p, c);
    }
  }

  lemma AwakeStep<S(!new)>(k: Client<S>, s: State<S>, e: Event<S>)
    requires Inv(k, s) && Enabled(k, s, e) && e.Check?
    ensures e.p < NPROC == |Apply(k, s, e).procs| && InSleep(k, Apply(k, s, e).procs[e.p], e.c)
  {
    assert ProcOk(k, s, e.p);
  }

  /** The next step of a process inside sleep, wakeup or the scheduler. */
  function StepOf<S(!new)>(k: Client<S>, s: State<S>, p: Pid): (e: Event<S>)
    requires p < |s.procs|
  {
    match s.procs[p].pc
    case Waking(_, i) => if i == NPROC then WakeEnd(p) else WakeOne(p)
    case Doze1(_) => LockSelf(p)
    case Doze2(_) => Unlock(p)
    case Doze3(_) => Mark(p)
    case Doze4(_) => Switch(p)
    case Parked(_) => Dispatch(p)
    case Resumed(_) => Clear(p)
    case Relock(_) => Retake(p)
    case Run => Kill(p)
  }

  /** How many steps of its own a process is from the end of the call that it is in. */
  function Left(pc: Pc): (n: nat) {
    match pc
    case Run => 0
    case Waking(_, i) => if i <= NPROC then NPROC - i + 1 else 0
    case Doze1(_) => 7
    case Doze2(_) => 6
    case Doze3(_) => 5
    case Doze4(_) => 4
    case Parked(_) => 3
    case Resumed(_) => 2
    case Relock(_) => 1
  }

  /** Nobody is stuck inside them: the next step can be taken and brings the process nearer to the end of its call, or it
      sleeps, or a lock is in other hands.  Only its own steps move it. */
  lemma Progress<S(!new)>(k: Client<S>, ss: seq<State<S>>, es: seq<Event<S>>, i: nat, p: Pid)
    requires IsRun(k, ss, es) && i < |ss| && p < NPROC == |ss[i].procs| && !ss[i].procs[p].pc.Run?
    ensures var s := ss[i]; var me := s.procs[p];
      || Enabled(k, s, StepOf(k, s, p))
      || (me.pc.Waking? && me.pc.i < NPROC && me.pc.i != p && s.procs[me.pc.i].plocked)
      || (me.pc.Parked? && me.st.Sleeping? && me.chan.Some?)
      || (me.pc.Relock? && me.pc.l in s.locks)
  {
    RunInv(k, ss, es, i);
    assert ProcOk(k, ss[i], p);
    NobodyLost(k, ss, es, i, p);
  }

  lemma StepsAdvance<S(!new)>(k: Client<S>, s: State<S>, e: Event<S>, p: Pid)
    requires Inv(k, s) && Enabled(k, s, e) && p < NPROC && !s.procs[p].pc.Run?
    ensures |Apply(k, s, e).procs| == NPROC
    ensures if e == StepOf(k, s, p) then Left(Apply(k, s, e).procs[p].pc) < Left(s.procs[p].pc)
      else Apply(k, s, e).procs[p].pc == s.procs[p].pc
  {
    assert ProcOk(k, s, p);
    if p != e.p {
      WakesExactly(k, s, e, p);
    }
  }

  /** A wakeup on a channel whose condition is made true afterwards, but before the lock is released, does as well. */
  lemma WakeFirst<S(!new)>(k: Client<S>, s: State<S>, p: Pid, c: Chan, data: S)
    requires Inv(k, s) && Enabled(k, s, WakeEnd(p)) && s.procs[p].pc.Waking? && s.procs[p].pc.c == c
    requires Enabled(k, Apply(k, s, WakeEnd(p)), Mutate(p, k.lockOf(c), data))
    ensures c !in Apply(k, Apply(k, s, WakeEnd(p)), Mutate(p, k.lockOf(c), data)).debts
  {
  }
}
