/** The inode table and its copies as seen from outside: a plain map from inode numbers to inodes.  Whatever entry an inode
    is loaded into, recycled from or reloaded into, whoever has it locked sees all of what was last stored into it. */
module InodeCopies {
  import opened Itable

  /** The number of the inode that reference t is to. */
  function Num(s: State, t: nat): (n: nat) {
    if t in s.refs && s.refs[t].e < |s.entries| then s.entries[s.refs[t].e].inum else 0
  }

  /** A plain map of inodes.  ialloc starts a new file without links; a holder stores what it likes; iput empties the file
      and takes its type away.  Taking references, locking, loading, writing back, recycling and dropping change nothing. */
  function Noted(m: map<nat, Dinode>, s: State, ev: Event): (r: map<nat, Dinode>) {
    match ev
    case Mark(_, n, typ) => if n in m then m[n := Dinode(typ, 0, m[n].gen + 1, 0)] else m
    case Modify(t, d) => m[Num(s, t) := d]
    case Trunc(t) => if Num(s, t) in m then m[Num(s, t) := m[Num(s, t)].(body := 0)] else m
    case Zero(t) => if Num(s, t) in m then m[Num(s, t) := m[Num(s, t)].(typ := 0)] else m
    case Lookup(_, _) => m
    case GetMarked(_, _) => m
    case Dup(_, _) => m
    case Lock(_) => m
    case Load(_) => m
    case Update(_) => m
    case Unlock(_) => m
    case Put(_) => m
    case Invalidate(_) => m
    case Release(_) => m
    case Drop(_) => m
  }

  /** The map after the first i steps of a run that started with what was on disk. */
  ghost function Latest(ss: seq<State>, es: seq<Event>, i: nat): (m: map<nat, Dinode>)
    requires |ss| == |es| + 1 && i < |ss|
  {
    if i == 0 then ss[0].disk else Noted(Latest(ss, es, i - 1), ss[i - 1], es[i - 1])
  }

  // ---------------------------------------------------------------------------------------------
  // The table follows the map
  // ---------------------------------------------------------------------------------------------

  /** What the holder of the sleep-lock of entry e does with it. */
  function UseOf(s: State, e: nat): (u: Use)
    requires e < |s.entries|
  {
    if s.entries[e].lock.By? && s.entries[e].lock.t in s.refs then s.refs[s.entries[e].lock.t].use else Idle
  }

  /** A copy that is up to date; under a holder it may be ahead of the disk. */
  ghost predicate Copy(s: State, m: map<nat, Dinode>, e: nat)
    requires e < |s.entries|
  {
    var x, use := s.entries[e], UseOf(s, e);
    && (use in {Ready, Freeing} ==> x.valid) && (use == Invalid ==> !x.valid)
    && (x.ref > 0 && x.valid && use != Zeroed ==>
      x.inum in m && x.inum in s.disk && x.mem == m[x.inum] && x.mem.typ != 0 && s.disk[x.inum].typ != 0)
  }

  /** Somebody has inode n locked and loaded. */
  ghost predicate Held(s: State, n: nat) {
    exists e :: 0 <= e < |s.entries| && s.entries[e].ref > 0 && s.entries[e].inum == n && UseOf(s, e) == Ready
  }

  ghost predicate Copies(s: State, m: map<nat, Dinode>) {
    forall e :: 0 <= e < |s.entries| ==> Copy(s, m, e)
  }

  /** What nobody has in hand is on disk. */
  ghost predicate Synced(s: State, m: map<nat, Dinode>) {
    m.Keys == s.disk.Keys && forall n :: n in m && !Held(s, n) ==> s.disk[n] == m[n]
  }

  ghost predicate Follows(s: State, m: map<nat, Dinode>) {
    Copies(s, m) && Synced(s, m)
  }

  /** Entry x of reference t, used in the given way, over the disk d. */
  ghost predicate Fits(x: Entry, use: Use, d: map<nat, Dinode>, m: map<nat, Dinode>) {
    && (use in {Ready, Freeing} ==> x.valid) && (use == Invalid ==> !x.valid)
    && (x.valid && use != Zeroed ==> x.inum in m && x.inum in d && x.mem == m[x.inum] && x.mem.typ != 0 && d[x.inum].typ != 0)
    && (use != Ready && x.inum in d && x.inum in m ==> d[x.inum] == m[x.inum])
  }

  /** Reference t, which has the lock of its entry or finds it free, changes its entry, its inode on disk, and the map. */
  ghost predicate Turn(s: State, t: nat, use: Use, x: Entry, d: map<nat, Dinode>, m: map<nat, Dinode>, m': map<nat, Dinode>) {
    && t in s.refs && s.refs[t].e < |s.entries| && Handled(s, t, use, x) && Fits(x, use, d, m')
    && d.Keys == s.disk.Keys && m'.Keys == m.Keys
    && (forall n :: n in d && n != x.inum ==> d[n] == s.disk[n]) && (forall n :: n in m && n != x.inum ==> m'[n] == m[n])
  }

  lemma TurnCopies(s: State, t: nat, use: Use, x: Entry, d: map<nat, Dinode>, m: map<nat, Dinode>, m': map<nat, Dinode>)
    requires Table(s) && Copies(s, m) && Turn(s, t, use, x, d, m, m')
    ensures Copies(Shift(s, t, use, x, d), m')
  {
    hide RefsTo;
    var s' := Shift(s, t, use, x, d);
    TableAt(s, t);
    forall e | 0 <= e < |s'.entries| ensures Copy(s', m', e) {
      assert Copy(s, m, e);
      if e != s.refs[t].e && s.entries[e].lock.By? {
        assert UseOf(s', e) == UseOf(s, e);
      }
    }
  }

  lemma HeldElsewhere(s: State, t: nat, use: Use, x: Entry, d: map<nat, Dinode>, n: nat)
    requires Table(s) && t in s.refs && s.refs[t].e < |s.entries| && Handled(s, t, use, x) && n != x.inum && Held(s, n)
    ensures Held(Shift(s, t, use, x, d), n)
  {
    hide RefsTo;
    var s' := Shift(s, t, use, x, d);
    var e :| 0 <= e < |s.entries| && s.entries[e].ref > 0 && s.entries[e].inum == n && UseOf(s, e) == Ready;
    assert e != s.refs[t].e && UseOf(s', e) == Ready;
    assert s'.entries[e].ref > 0 && s'.entries[e].inum == n;
  }

  lemma HeldHere(s: State, t: nat, x: Entry, d: map<nat, Dinode>)
    requires Table(s) && t in s.refs && s.refs[t].e < |s.entries| && Handled(s, t, Ready, x)
    ensures Held(Shift(s, t, Ready, x, d), x.inum)
  {
    TableAt(s, t);
    hide RefsTo;
    assert UseOf(Shift(s, t, Ready, x, d), s.refs[t].e) == Ready;
  }

  lemma TurnSynced(s: State, t: nat, use: Use, x: Entry, d: map<nat, Dinode>, m: map<nat, Dinode>, m': map<nat, Dinode>)
    requires Table(s) && Synced(s, m) && Turn(s, t, use, x, d, m, m')
    ensures Synced(Shift(s, t, use, x, d), m')
  {
    hide Table, Held, Handled;
    forall n | n in m' && !Held(Shift(s, t, use, x, d), n) ensures d[n] == m'[n] {
      if n != x.inum && Held(s, n) {
        HeldElsewhere(s, t, use, x, d, n);
      }
      if n == x.inum && use == Ready {
        HeldHere(s, t, x, d);
      }
    }
  }

  lemma TurnFollows(s: State, t: nat, use: Use, x: Entry, d: map<nat, Dinode>, m: map<nat, Dinode>, m': map<nat, Dinode>)
    requires Table(s) && Follows(s, m) && Turn(s, t, use, x, d, m, m')
    ensures Follows(Shift(s, t, use, x, d), m')
  {
    hide Table, Copies, Synced, Turn, Shift;
    assert t in s.refs && s.refs[t].e < |s.entries| by {
      TurnHas(s, t, use, x, d, m, m');
    }
    TurnCopies(s, t, use, x, d, m, m');
    TurnSynced(s, t, use, x, d, m, m');
  }

  lemma TurnHas(s: State, t: nat, use: Use, x: Entry, d: map<nat, Dinode>, m: map<nat, Dinode>, m': map<nat, Dinode>)
    requires Turn(s, t, use, x, d, m, m')
    ensures t in s.refs && s.refs[t].e < |s.entries|
  {
  }

  /** What the table and the copies say of one reference. */
  lemma At(s: State, m: map<nat, Dinode>, t: nat)
    requires Table(s) && Follows(s, m) && t in s.refs
    ensures s.refs[t].e < |s.entries|
    ensures var x, use := EntryOf(s, t), s.refs[t].use;
      && x.ref > 0 && (HoldsLock(use) <==> x.lock == By(t)) && m.Keys == s.disk.Keys && Num(s, t) == x.inum
      && (HoldsLock(use) ==> Fits(x, use, s.disk, m)) && (x.lock == Nobody ==> Fits(x, Idle, s.disk, m))
  {
    hide RefsTo;
    TableAt(s, t);
    var e := s.refs[t].e;
    assert Copy(s, m, e);
  }

  // ---------------------------------------------------------------------------------------------
  // Every step
  // ---------------------------------------------------------------------------------------------

  lemma LockStep(s: State, m: map<nat, Dinode>, ev: Event)
    requires Table(s) && Follows(s, m) && Enabled(s, ev) && (ev.Lock? || ev.Load? || ev.Unlock?)
    ensures Follows(Apply(s, ev), m)
  {
    hide Table, Follows;
    var t := ev.t;
    At(s, m, t);
    var x := EntryOf(s, t);
    match ev
    case Lock(_) => TurnFollows(s, t, Locked, x.(lock := By(t)), s.disk, m, m);
    case Load(_) => TurnFollows(s, t, Ready, Apply(s, ev).entries[s.refs[t].e], s.disk, m, m);
    case Unlock(_) => TurnFollows(s, t, Idle, x.(lock := Nobody), s.disk, m, m);
  }

  lemma StoreStep(s: State, m: map<nat, Dinode>, ev: Event)
    requires Table(s) && Follows(s, m) && Enabled(s, ev) && (ev.Modify? || ev.Update?)
    ensures Follows(Apply(s, ev), Noted(m, s, ev))
  {
    hide Table, Follows;
    var t := ev.t;
    At(s, m, t);
    var x := EntryOf(s, t);
    match ev
    case Modify(_, d) => TurnFollows(s, t, Ready, x.(mem := d), s.disk, m, m[x.inum := d]);
    case Update(_) =>
      assert s.entries[s.refs[t].e := x] == s.entries && s.refs[t := s.refs[t].(use := Ready)] == s.refs;
      TurnFollows(s, t, Ready, x, s.disk[x.inum := x.mem], m, m);
  }

  /** An iput that frees the inode. */
  lemma FreeStep(s: State, m: map<nat, Dinode>, ev: Event)
    requires Table(s) && Follows(s, m) && Enabled(s, ev)
    requires ev.Trunc? || ev.Zero? || ev.Invalidate? || ev.Release? || (ev.Put? && LastOfUnlinked(EntryOf(s, ev.t)))
    ensures Follows(Apply(s, ev), Noted(m, s, ev))
  {
    hide Table, Follows;
    var t := ev.t;
    At(s, m, t);
    var x := EntryOf(s, t);
    match ev
    case Put(_) => TurnFollows(s, t, Freeing, x.(lock := By(t)), s.disk, m, m);
    case Trunc(_) =>
      var d := x.mem.(body := 0);
      TurnFollows(s, t, Freeing, x.(mem := d), s.disk[x.inum := d], m, m[x.inum := d]);
    case Zero(_) =>
      var d := x.mem.(typ := 0);
      TurnFollows(s, t, Zeroed, x.(mem := d), s.disk[x.inum := d], m, m[x.inum := d]);
    case Invalidate(_) => TurnFollows(s, t, Invalid, x.(valid := false), s.disk, m, m);
    case Release(_) => TurnFollows(s, t, Released, x.(lock := Nobody), s.disk, m, m);
  }

  lemma JoinUses(s: State, t: nat, e: nat, x: Entry, gen: nat)
    requires Table(s) && Slotted(s, t, e, x)
    ensures var s' := Joined(s, t, e, x, gen); forall f :: 0 <= f < |s.entries| ==> UseOf(s', f) == UseOf(s, f)
    ensures s.entries[e].ref == 0 ==> UseOf(s, e) == Idle
  {
    var s' := Joined(s, t, e, x, gen);
    LockUse(s, e);
    forall f | 0 <= f < |s.entries| ensures UseOf(s', f) == UseOf(s, f) {
      LockUse(s, f);
    }
  }

  /** A new reference. */
  lemma JoinFollows(s: State, m: map<nat, Dinode>, t: nat, e: nat, x: Entry, gen: nat)
    requires Table(s) && Follows(s, m) && Slotted(s, t, e, x)
    ensures Follows(Joined(s, t, e, x, gen), m)
  {
    hide Table, UseOf;
    var s' := Joined(s, t, e, x, gen);
    JoinUses(s, t, e, x, gen);
    forall f | 0 <= f < |s'.entries| ensures Copy(s', m, f) {
      assert Copy(s, m, f);
    }
    forall n | Held(s, n) ensures Held(s', n) {
      var f :| 0 <= f < |s.entries| && s.entries[f].ref > 0 && s.entries[f].inum == n && UseOf(s, f) == Ready;
      assert s'.entries[f].ref > 0 && s'.entries[f].inum == n;
    }
  }

  lemma GetStep(s: State, m: map<nat, Dinode>, ev: Event)
    requires Table(s) && Follows(s, m) && Enabled(s, ev) && (ev.Lookup? || ev.GetMarked? || ev.Dup?)
    ensures Follows(Apply(s, ev), m)
  {
    hide Table, Follows, Slot, Iget, Slotted;
    match ev
    case Lookup(t, inum) =>
      IgetSlots(s, t, inum);
      JoinFollows(s, m, t, Slot(s.entries, inum), Iget(s.entries, inum)[Slot(s.entries, inum)], s.disk[inum].gen);
    case GetMarked(a, t) =>
      var inum := s.marks[a];
      IgetSlots(s, t, inum);
      JoinFollows(s, m, t, Slot(s.entries, inum), Iget(s.entries, inum)[Slot(s.entries, inum)], s.disk[inum].gen);
      var r := Ref(Slot(s.entries, inum), s.disk[inum].gen, Idle);
      SameTable(s.(entries := Iget(s.entries, inum), refs := s.refs[t := r]), Apply(s, ev), m);
    case Dup(t, t2) =>
      TableAt(s, t);
      DupSlots(s, t, t2);
      JoinFollows(s, m, t2, s.refs[t].e, EntryOf(s, t).(ref := EntryOf(s, t).ref + 1), s.refs[t].gen);
  }

  lemma DupSlots(s: State, t: nat, t2: nat)
    requires t in s.refs && s.refs[t].e < |s.entries| && EntryOf(s, t).ref > 0 && t2 !in s.refs
    ensures Slotted(s, t2, s.refs[t].e, EntryOf(s, t).(ref := EntryOf(s, t).ref + 1))
  {
  }

  lemma SameTable(s: State, s': State, m: map<nat, Dinode>)
    requires Follows(s, m) && s'.entries == s.entries && s'.refs == s.refs && s'.disk == s.disk
    ensures Follows(s', m)
  {
    forall e | 0 <= e < |s'.entries| ensures Copy(s', m, e) {
      assert Copy(s, m, e);
    }
    SameHolders(s, s');
  }

  lemma DropUses(s: State, t: nat)
    requires Table(s) && t in s.refs && s.refs[t].e < |s.entries| && !HoldsLock(s.refs[t].use)
    ensures var s' := Dropped(s, t); forall f :: 0 <= f < |s.entries| ==>
      UseOf(s', f) == UseOf(s, f) && (UseOf(s, f) == Ready ==> s'.entries[f].ref > 0)
  {
    DropTable(s, t);
    var s' := Dropped(s, t);
    forall f | 0 <= f < |s.entries| ensures UseOf(s', f) == UseOf(s, f) && (UseOf(s, f) == Ready ==> s'.entries[f].ref > 0) {
      LockUse(s, f);
      LockUse(s', f);
    }
  }

  /** The lock of an entry is held through a reference to it. */
  lemma LockUse(s: State, f: nat)
    requires Table(s) && f < |s.entries|
    ensures s.entries[f].lock.By? ==>
      var u := s.entries[f].lock.t; u in s.refs && s.refs[u].e == f && HoldsLock(s.refs[u].use) && s.entries[f].ref > 0
  {
    if s.entries[f].lock.By? {
      TableAt(s, s.entries[f].lock.t);
    }
  }

  /** A reference is given up. */
  lemma DropFollows(s: State, m: map<nat, Dinode>, t: nat)
    requires Table(s) && Follows(s, m) && t in s.refs && !HoldsLock(s.refs[t].use)
    ensures s.refs[t].e < |s.entries| && Follows(Dropped(s, t), m)
  {
    TableAt(s, t);
    var s' := Dropped(s, t);
    DropUses(s, t);
    hide Table, UseOf;
    forall f | 0 <= f < |s'.entries| ensures Copy(s', m, f) {
      assert Copy(s, m, f);
    }
    forall n | Held(s, n) ensures Held(s', n) {
      var f :| 0 <= f < |s.entries| && s.entries[f].ref > 0 && s.entries[f].inum == n && UseOf(s, f) == Ready;
      assert s'.entries[f].ref > 0 && s'.entries[f].inum == n;
    }
  }

  lemma MarkStep(s: State, m: map<nat, Dinode>, ev: Event)
    requires Follows(s, m) && Enabled(s, ev) && ev.Mark?
    ensures Follows(Apply(s, ev), Noted(m, s, ev))
  {
    hide Copies, Held, Slot, Iget;
    var s' := Apply(s, ev);
    assert s'.entries == s.entries && s'.refs == s.refs;
    NotHeld(s, m, ev.inum);
    SameHolders(s, s');
    MarkLeaves(s, m, s', Noted(m, s, ev), ev.inum);
  }

  lemma MarkLeaves(s: State, m: map<nat, Dinode>, s': State, m': map<nat, Dinode>, n: nat)
    requires Copies(s, m) && s'.entries == s.entries && s'.refs == s.refs && n in s.disk && s.disk[n].typ == 0
    requires forall k :: k in s.disk && k != n ==> k in s'.disk && s'.disk[k] == s.disk[k]
    requires forall k :: k in m && k != n ==> k in m' && m'[k] == m[k]
    ensures Copies(s', m')
  {
    forall e | 0 <= e < |s'.entries| ensures Copy(s', m', e) {
      assert Copy(s, m, e);
    }
  }

  /** Nobody has a free inode. */
  lemma NotHeld(s: State, m: map<nat, Dinode>, n: nat)
    requires Copies(s, m) && n in s.disk && s.disk[n].typ == 0
    ensures !Held(s, n)
  {
    forall e | 0 <= e < |s.entries| && s.entries[e].ref > 0 && s.entries[e].inum == n ensures UseOf(s, e) != Ready {
      assert Copy(s, m, e);
    }
  }

  lemma SameHolders(s: State, s': State)
    requires s'.entries == s.entries && s'.refs == s.refs
    ensures forall n :: Held(s', n) <==> Held(s, n)
  {
    forall e | 0 <= e < |s.entries| ensures UseOf(s', e) == UseOf(s, e) {
    }
  }

  lemma StepFollows(s: State, m: map<nat, Dinode>, ev: Event)
    requires Table(s) && Follows(s, m) && Enabled(s, ev)
    ensures Follows(Apply(s, ev), Noted(m, s, ev))
  {
    hide Table, Follows, Slot, Iget;
    if ev.Lookup? || ev.GetMarked? || ev.Dup? {
      GetStep(s, m, ev);
    } else if ev.Lock? || ev.Load? || ev.Unlock? {
      LockStep(s, m, ev);
    } else if ev.Modify? || ev.Update? {
      StoreStep(s, m, ev);
    } else if ev.Mark? {
      MarkStep(s, m, ev);
    } else if ev.Drop? || (ev.Put? && !LastOfUnlinked(EntryOf(s, ev.t))) {
      DropFollows(s, m, ev.t);
    } else {
      FreeStep(s, m, ev);
    }
  }

  lemma {:induction false} RunFollows(ss: seq<State>, es: seq<Event>, i: nat)
    requires IsRun(ss, es) && i < |ss|
    ensures Follows(ss[i], Latest(ss, es, i))
  {
    hide Table, Follows, Enabled, Apply, Noted;
    if i == 0 {
      InitFollows(ss[0]);
    } else {
      RunFollows(ss, es, i - 1);
      RunTable(ss, es, i - 1);
      StepFollows(ss[i - 1], Latest(ss, es, i - 1), es[i - 1]);
    }
  }

  lemma InitFollows(s: State)
    requires Init(s)
    ensures Follows(s, s.disk)
  {
    forall e | 0 <= e < |s.entries| ensures Copy(s, s.disk, e) {
    }
  }

  /** In every run, whatever is looked up and however entries are recycled, whoever has an inode locked and loaded sees all
      of what was last stored into it: type, links, file and body.  So does an iput that is about to free it. */
  lemma HolderSeesLatest(ss: seq<State>, es: seq<Event>, i: nat, t: nat)
    requires IsRun(ss, es) && i < |ss| && (Has(ss[i], t, Ready) || Has(ss[i], t, Freeing))
    ensures Num(ss[i], t) in Latest(ss, es, i) && EntryOf(ss[i], t).valid
    ensures EntryOf(ss[i], t).mem == Latest(ss, es, i)[Num(ss[i], t)]
  {
    hide Table, Follows, Latest;
    RunFollows(ss, es, i);
    RunTable(ss, es, i);
    At(ss[i], Latest(ss, es, i), t);
  }

  /** What nobody has locked and loaded is on disk as it was last stored. */
  lemma DiskIsLatest(ss: seq<State>, es: seq<Event>, i: nat, n: nat)
    requires IsRun(ss, es) && i < |ss| && n in ss[i].disk
    requires forall t :: Has(ss[i], t, Ready) ==> Num(ss[i], t) != n
    ensures n in Latest(ss, es, i) && ss[i].disk[n] == Latest(ss, es, i)[n]
  {
    hide Latest;
    RunFollows(ss, es, i);
    RunTable(ss, es, i);
    var s := ss[i];
    hide Table;
    forall e | 0 <= e < |s.entries| && s.entries[e].ref > 0 && UseOf(s, e) == Ready ensures s.entries[e].inum != n {
      LockUse(s, e);
      assert Has(s, s.entries[e].lock.t, Ready);
    }
  }
}
