/** acquiresleep and releasesleep (kernel/sleeplock.c) as a client of sleep and wakeup.

    A sleep-lock is named by its channel; its spin-lock lk->lk has the same name.  The shared data are
    the names of the sleep-locks whose `locked` field is set. */
module SleepLock {
  import opened SleepWakeup

  type Data = set<Chan>

  const K: Client<Data> := Client((c: Chan) => c, (c: Chan, d: Data) => c !in d)

  /** Where a process is in acquiresleep(c) or releasesleep(c). */
  datatype Prog =
    | Out
    | Trying(c: Chan)
    | Got(c: Chan)
    | Dropping(c: Chan)
    | Dropped(c: Chan)
    | Woke(c: Chan)

  /** `holders` are the processes that have returned from acquiresleep, or are about to, and have not
      yet cleared the lock in releasesleep. */
  datatype Sys = Sys(g: State<Data>, prog: seq<Prog>, holders: set<(Pid, Chan)>)

  datatype Act =
    | AcqEnter(p: Pid, c: Chan)
    | AcqSleep(p: Pid)
    | AcqTake(p: Pid)
    | AcqLeave(p: Pid)
    | RelEnter(p: Pid, c: Chan)
    | RelDrop(p: Pid)
    | RelWake(p: Pid)
    | RelWoke(p: Pid)
    | RelLeave(p: Pid)
    | Inner(p: Pid, e: Event<Data>)

  /** Events inside sleep, wakeup, the scheduler and kill. */
  predicate IsInner(e: Event<Data>) {
    e.WakeOne? || e.LockSelf? || e.Unlock? || e.Mark? || e.Switch? || e.Dispatch? || e.Clear? || e.Retake?
    || e.Yield? || e.Kill?
  }

  /** The machine event behind an action. */
  function EventOf(s: Sys, a: Act): (e: Event<Data>)
    requires a.p < |s.prog|
    requires a.AcqEnter? || a.RelEnter? || a.Inner? || !s.prog[a.p].Out?
  {
    match a
    case AcqEnter(p, c) => Acquire(p, c)
    case AcqSleep(p) => Check(p, s.prog[p].c)
    case AcqTake(p) => Mutate(p, s.prog[p].c, s.g.data + {s.prog[p].c})
    case AcqLeave(p) => Release(p, s.prog[p].c)
    case RelEnter(p, c) => Acquire(p, c)
    case RelDrop(p) => Mutate(p, s.prog[p].c, s.g.data - {s.prog[p].c})
    case RelWake(p) => WakeStart(p, s.prog[p].c)
    case RelWoke(p) => WakeEnd(p)
    case RelLeave(p) => Release(p, s.prog[p].c)
    case Inner(_, e) => e
  }

  /** The next statement of the process's program, and what the hardware asks of it: a spin-lock must
      be free to be taken.  Nothing here says that wakeup has been called before a release. */
  ghost predicate CanDo(s: Sys, a: Act) {
    && |s.g.procs| == NPROC == |s.prog| && a.p < NPROC
    && var pc := s.g.procs[a.p].pc;
       match a
       case AcqEnter(p, c) => s.prog[p].Out? && pc.Run? && c !in s.g.locks
       case AcqSleep(p) => s.prog[p].Trying? && pc.Run? && s.prog[p].c in s.g.data
       case AcqTake(p) => s.prog[p].Trying? && pc.Run? && s.prog[p].c !in s.g.data
       case AcqLeave(p) => s.prog[p].Got? && pc.Run?
       case RelEnter(p, c) => s.prog[p].Out? && pc.Run? && c !in s.g.locks && (p, c) in s.holders
       case RelDrop(p) => s.prog[p].Dropping? && pc.Run?
       case RelWake(p) => s.prog[p].Dropped? && pc.Run?
       case RelWoke(p) => s.prog[p].Dropped? && pc.Waking? && pc.i == NPROC
       case RelLeave(p) => s.prog[p].Woke? && pc.Run?
       case Inner(p, e) => e.p == p && IsInner(e) && Enabled(K, s.g, e)
  }

  function NextProg(q: Prog, a: Act): (r: Prog)
    requires a.AcqEnter? || a.RelEnter? || a.Inner? || !q.Out?
  {
    match a
    case AcqEnter(_, c) => Trying(c)
    case AcqTake(_) => Got(q.c)
    case AcqLeave(_) => Out
    case RelEnter(_, c) => Dropping(c)
    case RelDrop(_) => Dropped(q.c)
    case RelWoke(_) => Woke(q.c)
    case RelLeave(_) => Out
    case _ => q
  }

  ghost function Do(s: Sys, a: Act): (s': Sys)
    requires CanDo(s, a) && Enabled(K, s.g, EventOf(s, a))
  {
    Sys(Apply(K, s.g, EventOf(s, a)),
        s.prog[a.p := NextProg(s.prog[a.p], a)],
        if a.AcqTake? then s.holders + {(a.p, s.prog[a.p].c)}
        else if a.RelDrop? then s.holders - {(a.p, s.prog[a.p].c)}
        else s.holders)
  }

  /** The program position fits the machine position. */
  ghost predicate ProgOk(s: Sys, p: Pid)
    requires p < |s.prog| == |s.g.procs|
  {
    var pc := s.g.procs[p].pc;
    match s.prog[p]
    case Out => pc.Run? || pc == Parked(None) || pc == Resumed(None)
    case Trying(c) =>
      || (pc.Run? && Owns(s.g, p, c))
      || pc == Doze1(c) || pc == Doze2(c) || pc == Doze3(c) || pc == Doze4(c)
      || pc == Parked(Some(c)) || pc == Resumed(Some(c)) || pc == Relock(c)
    case Dropped(c) => (pc.Run? || (pc.Waking? && pc.c == c)) && Owns(s.g, p, c)
    case _ => pc.Run? && Owns(s.g, p, s.prog[p].c)
  }

  ghost predicate SysInv(s: Sys) {
    && Inv(K, s.g) && |s.prog| == NPROC
    && (forall p :: 0 <= p < NPROC ==> ProgOk(s, p))
    && (forall l :: l in s.g.locks ==> s.g.locks[l] < NPROC && !s.prog[s.g.locks[l]].Out? && s.prog[s.g.locks[l]].c == l)
    && (forall c :: c in s.g.debts ==> c in s.g.locks && s.prog[s.g.locks[c]] == Dropped(c))
    && (forall p, c :: (p, c) in s.holders ==> c in s.g.data)
    && (forall p :: 0 <= p < NPROC && s.prog[p].Dropping? ==> (p, s.prog[p].c) in s.holders)
    && (forall p, q, c :: (p, c) in s.holders && (q, c) in s.holders ==> p == q)
    && HeldOk(s)
  }

  ghost predicate Held(s: Sys, c: Chan) {
    exists p :: (p, c) in s.holders
  }

  /** A lock that is marked has a holder; acquiresleep, once it has taken the lock, is one, and releasesleep, once it has
      given it up, is none. */
  ghost predicate HeldOk(s: Sys)
    requires |s.prog| == NPROC
  {
    && (forall c :: c in s.g.data ==> Held(s, c))
    && (forall p :: 0 <= p < NPROC && s.prog[p].Got? ==> (p, s.prog[p].c) in s.holders)
    && (forall p :: 0 <= p < NPROC && (s.prog[p].Dropped? || s.prog[p].Woke?) ==> (p, s.prog[p].c) !in s.holders)
  }

  /** The code obeys the discipline: when it releases a spin-lock or goes to sleep, no wakeup is owed. */
  lemma Disciplined(s: Sys, a: Act)
    requires SysInv(s) && CanDo(s, a)
    ensures Enabled(K, s.g, EventOf(s, a))
  {
    assert ProgOk(s, a.p) && ProcOk(K, s.g, a.p);
  }

  /** Every program position still fits, given that it fitted before. */
  lemma InnerProgOk(s: Sys, a: Act, p: Pid)
    requires CanDo(s, a) && a.Inner? && p < NPROC && ProgOk(s, p) && ProgOk(s, a.p) && ProcOk(K, s.g, a.p)
    ensures ProgOk(Do(s, a), p)
  {
  }

  /** A process inside sleep gives up and takes back only the lock it sleeps with. */
  lemma InnerFrame(s: Sys, a: Act)
    requires CanDo(s, a) && a.Inner? && ProgOk(s, a.p) && ProcOk(K, s.g, a.p)
    ensures Do(s, a).g.data == s.g.data && Do(s, a).prog == s.prog && Do(s, a).holders == s.holders
    ensures Do(s, a).g.debts == s.g.debts && |Do(s, a).g.procs| == NPROC
    ensures forall l :: l in Do(s, a).g.locks ==>
      (l in s.g.locks && Do(s, a).g.locks[l] == s.g.locks[l]) || (Do(s, a).g.locks[l] == a.p && s.prog[a.p] == Trying(l))
    ensures forall l :: l in s.g.locks && l !in Do(s, a).g.locks ==> l !in s.g.debts
  {
  }

  /** Inside sleep, wakeup and the scheduler the program does not move. */
  lemma InnerKeeps(s: Sys, a: Act)
    requires SysInv(s) && CanDo(s, a) && a.Inner?
    ensures SysInv(Do(s, a))
  {
    StepKeepsInv(K, s.g, a.e);
    assert ProgOk(s, a.p) && ProcOk(K, s.g, a.p);
    HeldStep(s, a);
    hide Inv, ProgOk, ProcOk, Enabled, Apply, HeldOk;
    var s' := Do(s, a);
    InnerFrame(s, a);
    forall p | 0 <= p < NPROC ensures ProgOk(s', p) {
      InnerProgOk(s, a, p);
    }
  }

  lemma HeldStep(s: Sys, a: Act)
    requires SysInv(s) && CanDo(s, a) && Enabled(K, s.g, EventOf(s, a))
    ensures |Do(s, a).prog| == NPROC && HeldOk(Do(s, a))
  {
    var s' := Do(s, a);
    assert ProgOk(s, a.p) && ProcOk(K, s.g, a.p);
    if a.Inner? {
      InnerFrame(s, a);
    }
    hide Inv, ProgOk, ProcOk;
    forall c | c in s'.g.data ensures Held(s', c) {
      if c in s.g.data {
        var p :| (p, c) in s.holders;
        assert (p, c) in s'.holders;
      } else {
        assert (a.p, c) in s'.holders;
      }
    }
  }

  lemma LockingKeeps(s: Sys, a: Act)
    requires SysInv(s) && CanDo(s, a) && Enabled(K, s.g, EventOf(s, a))
    requires a.AcqEnter? || a.RelEnter? || a.AcqLeave? || a.RelLeave?
    ensures SysInv(Do(s, a))
  {
    hide Inv, HeldOk;
    StepKeepsInv(K, s.g, EventOf(s, a));
    HeldStep(s, a);
    var s' := Do(s, a);
    assert ProgOk(s, a.p);
    forall p | 0 <= p < NPROC ensures ProgOk(s', p) {
      assert ProgOk(s, p);
    }
    hide ProgOk;
  }

  lemma TakeDropKeeps(s: Sys, a: Act)
    requires SysInv(s) && CanDo(s, a) && Enabled(K, s.g, EventOf(s, a))
    requires a.AcqTake? || a.RelDrop?
    ensures SysInv(Do(s, a))
  {
    hide Inv, HeldOk;
    StepKeepsInv(K, s.g, EventOf(s, a));
    HeldStep(s, a);
    var s' := Do(s, a);
    assert ProgOk(s, a.p);
    forall p | 0 <= p < NPROC ensures ProgOk(s', p) {
      assert ProgOk(s, p);
    }
    hide ProgOk;
  }

  lemma WaitingKeeps(s: Sys, a: Act)
    requires SysInv(s) && CanDo(s, a) && Enabled(K, s.g, EventOf(s, a))
    requires a.AcqSleep? || a.RelWake? || a.RelWoke?
    ensures SysInv(Do(s, a))
  {
    hide Inv, HeldOk;
    StepKeepsInv(K, s.g, EventOf(s, a));
    HeldStep(s, a);
    var s' := Do(s, a);
    assert ProgOk(s, a.p);
    forall p | 0 <= p < NPROC ensures ProgOk(s', p) {
      assert ProgOk(s, p);
    }
    hide ProgOk;
  }

  // ---------------------------------------------------------------------------------------------
  // Runs
  // ---------------------------------------------------------------------------------------------

  ghost predicate IsSysRun(ss: seq<Sys>, acts: seq<Act>) {
    && |ss| == |acts| + 1
    && Initial(ss[0].g) && ss[0].prog == seq(NPROC, _ => Out) && ss[0].holders == {} && ss[0].g.data == {}
    && (forall i :: 0 <= i < |acts| ==>
          CanDo(ss[i], acts[i]) && (Enabled(K, ss[i].g, EventOf(ss[i], acts[i])) ==> ss[i + 1] == Do(ss[i], acts[i])))
  }

  lemma {:induction false} SysRunInv(ss: seq<Sys>, acts: seq<Act>, i: nat)
    requires IsSysRun(ss, acts) && i < |ss|
    ensures SysInv(ss[i])
  {
    if i == 0 {
      RunInv(K, [ss[0].g], [], 0);
      forall p | 0 <= p < NPROC ensures ProgOk(ss[0], p) {
        assert ss[0].g.procs[p].pc.Run?;
      }
    } else {
      SysRunInv(ss, acts, i - 1);
      var s, a := ss[i - 1], acts[i - 1];
      assert CanDo(s, a);
      Disciplined(s, a);
      hide SysInv, Enabled;
      if a.Inner? {
        InnerKeeps(s, a);
      } else if a.AcqEnter? || a.RelEnter? || a.AcqLeave? || a.RelLeave? {
        LockingKeeps(s, a);
      } else if a.AcqTake? || a.RelDrop? {
        TakeDropKeeps(s, a);
      } else {
        WaitingKeeps(s, a);
      }
    }
  }

  /** Mutual exclusion: in every interleaving a sleep-lock has at most one holder, and it is marked
      locked as long as it has one. */
  lemma AtMostOneHolder(ss: seq<Sys>, acts: seq<Act>, i: nat, p: Pid, q: Pid, c: Chan)
    requires IsSysRun(ss, acts) && i < |ss| && (p, c) in ss[i].holders && (q, c) in ss[i].holders
    ensures p == q && c in ss[i].g.data
  {
    SysRunInv(ss, acts, i);
  }

  /** Nobody sleeps on a free sleep-lock: when neither the sleep-lock nor its spin-lock is held, no
      process is asleep on it. */
  lemma NobodySleepsOnFreeLock(ss: seq<Sys>, acts: seq<Act>, i: nat, q: Pid, c: Chan)
    requires IsSysRun(ss, acts) && i < |ss| && q < NPROC && |ss[i].g.procs| == NPROC
    requires c !in ss[i].g.locks && c !in ss[i].g.data
    ensures !(ss[i].g.procs[q].st.Sleeping? && ss[i].g.procs[q].chan == Some(c))
  {
    SysRunInv(ss, acts, i);
    assert !Committed(ss[i].g.procs[q], c);
  }

  /** A sleep-lock is marked locked exactly while it has a holder. */
  lemma LockedExactlyHeld(ss: seq<Sys>, acts: seq<Act>, i: nat, c: Chan)
    requires IsSysRun(ss, acts) && i < |ss|
    ensures c in ss[i].g.data <==> Held(ss[i], c)
  {
    SysRunInv(ss, acts, i);
  }

  /** acquiresleep returns as the holder, and releasesleep as no holder, of the lock that it was called with. */
  lemma ReturnsHolding(ss: seq<Sys>, acts: seq<Act>, i: nat)
    requires IsSysRun(ss, acts) && i < |acts| && (acts[i].AcqLeave? || acts[i].RelLeave?)
    ensures var p := acts[i].p; p < NPROC == |ss[i].prog| == |ss[i + 1].prog| && !ss[i].prog[p].Out? && ss[i + 1].prog[p].Out?
    ensures (acts[i].p, ss[i].prog[acts[i].p].c) in ss[i + 1].holders <==> acts[i].AcqLeave?
  {
    SysRunInv(ss, acts, i);
    assert CanDo(ss[i], acts[i]);
    Disciplined(ss[i], acts[i]);
  }
}
