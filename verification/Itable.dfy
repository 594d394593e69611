/** The inode table of kernel/fs.c under every interleaving of iget, idup, ilock, iunlock, iput and ialloc.
    Each step is what runs under one lock.  A reference is a pointer to a table entry that some process
    holds; what the process is doing with it is the state of the reference. */
module Itable {

  /** A disk inode.  gen tells the files apart that have had the same number: ialloc starts a new one. */
  datatype Dinode = Dinode(typ: nat, nlink: nat, gen: nat, body: int)

  datatype Holder = Nobody | By(t: nat)

  /** A table entry: ref counts pointers; lock is the sleep-lock; mem is the copy of the disk inode. */
  datatype Entry = Entry(inum: nat, ref: nat, valid: bool, lock: Holder, mem: Dinode)

  /** Idle: not locked.  Locked: ilock has the sleep-lock.  Ready: ilock has returned.  The last four are
      the stages of an iput that frees the inode: it has the lock; the disk inode is free; valid is clear;
      the lock is released, and only the count is left. */
  datatype Use = Idle | Locked | Ready | Freeing | Zeroed | Invalid | Released

  datatype Ref = Ref(e: nat, gen: nat, use: Use)

  /** marks: calls of ialloc that have marked an inode on disk and not yet called iget. */
  datatype State = State(entries: seq<Entry>, disk: map<nat, Dinode>, refs: map<nat, Ref>, marks: map<nat, nat>)

  datatype Event =
    | Lookup(t: nat, inum: nat)
    | Mark(a: nat, inum: nat, typ: nat)
    | GetMarked(a: nat, t: nat)
    | Dup(t: nat, t2: nat)
    | Lock(t: nat)
    | Load(t: nat)
    | Modify(t: nat, m: Dinode)
    | Update(t: nat)
    | Unlock(t: nat)
    | Put(t: nat)
    | Trunc(t: nat)
    | Zero(t: nat)
    | Invalidate(t: nat)
    | Release(t: nat)
    | Drop(t: nat)

  // ---------------------------------------------------------------------------------------------
  // The steps
  // ---------------------------------------------------------------------------------------------

  /** The loop of iget: the entry that holds inum. */
  function Find(es: seq<Entry>, inum: nat, i: nat): (e: nat)
    requires i <= |es|
    ensures i <= e <= |es|
    decreases |es| - i
  {
    if i == |es| || (es[i].ref > 0 && es[i].inum == inum) then i else Find(es, inum, i + 1)
  }

  /** The empty slot that iget remembers. */
  function FindEmpty(es: seq<Entry>, i: nat): (e: nat)
    requires i <= |es|
    ensures i <= e <= |es|
    decreases |es| - i
  {
    if i == |es| || es[i].ref == 0 then i else FindEmpty(es, i + 1)
  }

  function Slot(es: seq<Entry>, inum: nat): (e: nat)
    ensures e <= |es|
  {
    var e := Find(es, inum, 0);
    if e < |es| then e else FindEmpty(es, 0)
  }

  /** The loop of iget as it is written: one pass that looks for the inode and remembers the first empty slot.
      The length of the table stands for the panic. */
  method Scan(es: seq<Entry>, inum: nat) returns (e: nat)
    ensures e == Slot(es, inum)
    ensures e < |es| && es[e].ref > 0 ==> es[e].inum == inum
    ensures e == |es| || es[e].ref == 0 ==> forall f :: 0 <= f < |es| ==> !(es[f].ref > 0 && es[f].inum == inum)
    ensures e == |es| || es[e].ref == 0 ==> forall f :: 0 <= f < e ==> es[f].ref > 0
  {
    var empty := |es|;
    e := 0;
    while e < |es|
      invariant e <= |es| && empty <= |es| && Find(es, inum, 0) == Find(es, inum, e)
      invariant FindEmpty(es, 0) == if empty < |es| then empty else FindEmpty(es, e)
      invariant forall f :: 0 <= f < e ==> !(es[f].ref > 0 && es[f].inum == inum)
      invariant (forall f :: 0 <= f < e && f < empty ==> es[f].ref > 0) && (empty < |es| ==> empty < e && es[empty].ref == 0)
    {
      if es[e].ref > 0 && es[e].inum == inum {
        return;
      }
      if empty == |es| && es[e].ref == 0 {
        empty := e;
      }
      e := e + 1;
    }
    e := empty;
  }

  /** iget, when there is an entry to return. */
  function Iget(es: seq<Entry>, inum: nat): (r: seq<Entry>)
    requires Slot(es, inum) < |es|
  {
    var e := Slot(es, inum);
    if es[e].ref > 0 then es[e := es[e].(ref := es[e].ref + 1)]
    else es[e := es[e].(inum := inum, ref := 1, valid := false)]
  }

  predicate Has(s: State, t: nat, use: Use) {
    t in s.refs && s.refs[t].use == use && s.refs[t].e < |s.entries|
  }

  function EntryOf(s: State, t: nat): (x: Entry)
    requires t in s.refs && s.refs[t].e < |s.entries|
  {
    s.entries[s.refs[t].e]
  }

  /** What iput tests. */
  predicate LastOfUnlinked(x: Entry) {
    x.ref == 1 && x.valid && x.mem.nlink == 0
  }

  /** ilock is at its panic: the disk inode that it has just read has no type. */
  predicate Panics(s: State, t: nat) {
    && Has(s, t, Locked) && EntryOf(s, t).inum in s.disk
    && !EntryOf(s, t).valid && s.disk[EntryOf(s, t).inum].typ == 0
  }

  /** A directory entry leads to whatever number it holds.  ilock goes on only with an inode that has a type. */
  predicate Enabled(s: State, ev: Event) {
    match ev
    case Lookup(t, inum) => t !in s.refs && inum in s.disk && Slot(s.entries, inum) < |s.entries|
    case Mark(a, inum, typ) => a !in s.marks && inum in s.disk && s.disk[inum].typ == 0 && typ != 0
    case GetMarked(a, t) => a in s.marks && t !in s.refs && s.marks[a] in s.disk && Slot(s.entries, s.marks[a]) < |s.entries|
    case Dup(t, t2) => t in s.refs && s.refs[t].use in {Idle, Locked, Ready} && t2 !in s.refs && s.refs[t].e < |s.entries|
    case Lock(t) => Has(s, t, Idle) && EntryOf(s, t).lock == Nobody
    case Load(t) => Has(s, t, Locked) && EntryOf(s, t).inum in s.disk && !Panics(s, t)
    case Modify(t, m) => Has(s, t, Ready) && m.typ != 0 && m.gen == EntryOf(s, t).mem.gen
    case Update(t) => Has(s, t, Ready) && EntryOf(s, t).inum in s.disk
    case Unlock(t) => Has(s, t, Ready) && EntryOf(s, t).inum in s.disk && EntryOf(s, t).mem == s.disk[EntryOf(s, t).inum]
    case Put(t) => Has(s, t, Idle) && (LastOfUnlinked(EntryOf(s, t)) ==> EntryOf(s, t).lock == Nobody)
    case Trunc(t) => Has(s, t, Freeing) && EntryOf(s, t).inum in s.disk
    case Zero(t) => Has(s, t, Freeing) && EntryOf(s, t).inum in s.disk
    case Invalidate(t) => Has(s, t, Zeroed)
    case Release(t) => Has(s, t, Invalid)
    case Drop(t) => Has(s, t, Released)
  }

  /** Reference t is used in another way, and its entry becomes x. */
  function Moved(s: State, t: nat, use: Use, x: Entry): (s': State)
    requires t in s.refs && s.refs[t].e < |s.entries|
  {
    s.(refs := s.refs[t := s.refs[t].(use := use)], entries := s.entries[s.refs[t].e := x])
  }

  function Written(s: State, inum: nat, d: Dinode): (s': State) {
    s.(disk := s.disk[inum := d])
  }

  function Dropped(s: State, t: nat): (s': State)
    requires t in s.refs && s.refs[t].e < |s.entries|
  {
    var e := s.refs[t].e;
    var x := s.entries[e];
    s.(refs := s.refs - {t}, entries := s.entries[e := x.(ref := if x.ref > 0 then x.ref - 1 else 0)])
  }

  function Apply(s: State, ev: Event): (s': State)
    requires Enabled(s, ev)
  {
    match ev
    case Lookup(t, inum) =>
      s.(entries := Iget(s.entries, inum), refs := s.refs[t := Ref(Slot(s.entries, inum), s.disk[inum].gen, Idle)])
    case Mark(a, inum, typ) =>
      Written(s, inum, Dinode(typ, 0, s.disk[inum].gen + 1, 0)).(marks := s.marks[a := inum])
    case GetMarked(a, t) =>
      var inum := s.marks[a];
      s.(entries := Iget(s.entries, inum), refs := s.refs[t := Ref(Slot(s.entries, inum), s.disk[inum].gen, Idle)], marks := s.marks - {a})
    case Dup(t, t2) =>
      var r := s.refs[t];
      s.(entries := s.entries[r.e := s.entries[r.e].(ref := s.entries[r.e].ref + 1)], refs := s.refs[t2 := r.(use := Idle)])
    case Lock(t) => Moved(s, t, Locked, EntryOf(s, t).(lock := By(t)))
    case Load(t) =>
      var x := EntryOf(s, t);
      Moved(s, t, Ready, if x.valid then x else x.(mem := s.disk[x.inum], valid := true))
    case Modify(t, m) => Moved(s, t, Ready, EntryOf(s, t).(mem := m))
    case Update(t) => Written(s, EntryOf(s, t).inum, EntryOf(s, t).mem)
    case Unlock(t) => Moved(s, t, Idle, EntryOf(s, t).(lock := Nobody))
    case Put(t) =>
      var x := EntryOf(s, t);
      if LastOfUnlinked(x) then Moved(s, t, Freeing, x.(lock := By(t))) else Dropped(s, t)
    case Trunc(t) =>
      var x := EntryOf(s, t);
      Written(Moved(s, t, Freeing, x.(mem := x.mem.(body := 0))), x.inum, x.mem.(body := 0))
    case Zero(t) =>
      var x := EntryOf(s, t);
      Written(Moved(s, t, Zeroed, x.(mem := x.mem.(typ := 0))), x.inum, x.mem.(typ := 0))
    case Invalidate(t) => Moved(s, t, Invalid, EntryOf(s, t).(valid := false))
    case Release(t) => Moved(s, t, Released, EntryOf(s, t).(lock := Nobody))
    case Drop(t) => Dropped(s, t)
  }

  // ---------------------------------------------------------------------------------------------
  // The invariant
  // ---------------------------------------------------------------------------------------------

  /** The references to entry e. */
  ghost function RefsTo(refs: map<nat, Ref>, e: nat): (r: set<nat>) {
    set t | t in refs && refs[t].e == e
  }

  /** ref is the number of pointers to the entry. */
  ghost predicate CountsOk(s: State) {
    && (forall t :: t in s.refs ==> s.refs[t].e < |s.entries|)
    && (forall e :: 0 <= e < |s.entries| ==> s.entries[e].ref == |RefsTo(s.refs, e)|)
  }

  /** No inode has two referenced entries. */
  ghost predicate OneEntry(s: State) {
    forall e, f :: (0 <= e < |s.entries| && 0 <= f < |s.entries| && s.entries[e].ref > 0 && s.entries[f].ref > 0
      && s.entries[e].inum == s.entries[f].inum) ==> e == f
  }

  predicate HoldsLock(u: Use) {
    u in {Locked, Ready, Freeing, Zeroed, Invalid}
  }

  /** A process that may use the inode: it has not begun to free it, or has not yet freed it on disk. */
  predicate Live(u: Use) {
    u in {Idle, Locked, Ready, Freeing}
  }

  /** The sleep-lock of an entry is held through exactly the reference that it names. */
  ghost predicate LocksOk(s: State) {
    && (forall t :: t in s.refs && s.refs[t].e < |s.entries| ==> (HoldsLock(s.refs[t].use) <==> s.entries[s.refs[t].e].lock == By(t)))
    && (forall e, t :: 0 <= e < |s.entries| && s.entries[e].lock == By(t) ==> t in s.refs && s.refs[t].e == e)
  }

  /** Every live reference is to the file that the disk inode still is. */
  ghost predicate LiveOk(s: State) {
    forall t :: t in s.refs && s.refs[t].e < |s.entries| && Live(s.refs[t].use) ==>
      var n := s.entries[s.refs[t].e].inum;
      n in s.disk && s.disk[n].typ != 0 && s.disk[n].gen == s.refs[t].gen
  }

  /** What the copy of an inode may be, given who has it locked. */
  ghost predicate CopyOk(s: State, e: nat)
    requires e < |s.entries|
  {
    var x := s.entries[e];
    var use := if x.lock.By? && x.lock.t in s.refs then s.refs[x.lock.t].use else Idle;
    && (use == Ready ==> x.valid && x.mem.typ != 0 && x.inum in s.disk && x.mem.gen == s.disk[x.inum].gen)
    && (use == Invalid ==> !x.valid)
    && (use == Freeing ==> x.valid && x.mem.nlink == 0)
    && (x.ref > 0 && x.valid && use != Ready && use != Zeroed ==> x.inum in s.disk && x.mem == s.disk[x.inum] && x.mem.typ != 0)
  }

  ghost predicate CopiesOk(s: State) {
    forall e :: 0 <= e < |s.entries| ==> CopyOk(s, e)
  }

  /** A reference that is being freed is the only live one. */
  ghost predicate FreeingAlone(s: State) {
    forall t, t2 :: t in s.refs && t2 in s.refs && s.refs[t].e == s.refs[t2].e && s.refs[t].use == Freeing && Live(s.refs[t2].use) ==>
      t == t2
  }

  /** An inode that ialloc has marked is in no one's hands yet. */
  ghost predicate MarksOk(s: State) {
    && (forall a :: a in s.marks ==> s.marks[a] in s.disk && s.disk[s.marks[a]].typ != 0 && s.disk[s.marks[a]].nlink == 0)
    && (forall a, b :: a in s.marks && b in s.marks && s.marks[a] == s.marks[b] ==> a == b)
    && (forall a, t :: a in s.marks && t in s.refs && s.refs[t].e < |s.entries| && s.entries[s.refs[t].e].inum == s.marks[a] ==>
      !Live(s.refs[t].use))
  }

  /** The table itself, whatever the disk holds. */
  ghost predicate Table(s: State) {
    CountsOk(s) && OneEntry(s) && LocksOk(s)
  }

  ghost predicate Inv(s: State) {
    Table(s) && LiveOk(s) && CopiesOk(s) && FreeingAlone(s) && MarksOk(s)
  }

  /** When a step keeps the invariant: a lookup leads to an inode that is allocated, that no ialloc is about to
      return, and that no iput is about to free. */
  ghost predicate Sound(s: State, ev: Event)
    requires Enabled(s, ev)
  {
    ev.Lookup? ==>
      && s.disk[ev.inum].typ != 0 && (forall a :: a in s.marks ==> s.marks[a] != ev.inum)
      && forall u :: u in s.refs && s.refs[u].e < |s.entries| && s.entries[s.refs[u].e].inum == ev.inum ==> s.refs[u].use != Freeing
  }

  /** What an entry of a linked directory leads to: an allocated inode with a link. */
  predicate ByName(s: State, ev: Event)
    requires Enabled(s, ev)
  {
    ev.Lookup? ==> s.disk[ev.inum].typ != 0 && s.disk[ev.inum].nlink > 0
  }

  // ---------------------------------------------------------------------------------------------
  // Every step keeps it
  // ---------------------------------------------------------------------------------------------

  /** Reference t is used in another way, its entry becomes x, and the disk becomes d. */
  function Shift(s: State, t: nat, use: Use, x: Entry, d: map<nat, Dinode>): (s': State)
    requires t in s.refs && s.refs[t].e < |s.entries|
  {
    Moved(s, t, use, x).(disk := d)
  }

  /** Reference t takes, keeps or gives up the lock of its entry, which stays with its inode. */
  ghost predicate Handled(s: State, t: nat, use: Use, x: Entry)
    requires t in s.refs && s.refs[t].e < |s.entries|
  {
    var x0, use0 := s.entries[s.refs[t].e], s.refs[t].use;
    && x.ref == x0.ref && x.inum == x0.inum
    && (HoldsLock(use0) || x0.lock == Nobody) && x.lock == (if HoldsLock(use) then By(t) else Nobody)
  }

  /** The entry and the disk inode of reference t change in a way that suits its old and its new use. */
  ghost predicate Proper(s: State, t: nat, use: Use, x: Entry, d: map<nat, Dinode>)
    requires t in s.refs && s.refs[t].e < |s.entries|
  {
    var x0, use0 := s.entries[s.refs[t].e], s.refs[t].use;
    && Handled(s, t, use, x)
    && (Live(use) ==> Live(use0)) && (use == Freeing ==> use0 == Freeing || x0.ref == 1)
    && (d == s.disk || Live(use0)) && d.Keys == s.disk.Keys
    && (forall n :: n in d && n != x0.inum ==> d[n] == s.disk[n])
    && (x0.inum in d && Live(use0) ==> d[x0.inum].gen == s.disk[x0.inum].gen && (d[x0.inum].typ != 0 || (use0 == Freeing && !Live(use))))
    && CopyFits(x, use, d)
  }

  /** CopyOk for an entry whose lock holder uses it so. */
  ghost predicate CopyFits(x: Entry, use: Use, d: map<nat, Dinode>) {
    && (use == Ready ==> x.valid && x.mem.typ != 0 && x.inum in d && x.mem.gen == d[x.inum].gen)
    && (use == Invalid ==> !x.valid)
    && (use == Freeing ==> x.valid && x.mem.nlink == 0)
    && (x.ref > 0 && x.valid && use != Ready && use != Zeroed ==> x.inum in d && x.mem == d[x.inum] && x.mem.typ != 0)
  }

  lemma ShiftCounts(s: State, t: nat, use: Use, x: Entry, d: map<nat, Dinode>)
    requires CountsOk(s) && OneEntry(s) && t in s.refs && Handled(s, t, use, x)
    ensures CountsOk(Shift(s, t, use, x, d)) && OneEntry(Shift(s, t, use, x, d))
  {
    var s' := Shift(s, t, use, x, d);
    forall e | 0 <= e < |s'.entries| ensures s'.entries[e].ref == |RefsTo(s'.refs, e)| {
      assert RefsTo(s'.refs, e) == RefsTo(s.refs, e);
    }
  }

  lemma ShiftLocks(s: State, t: nat, use: Use, x: Entry, d: map<nat, Dinode>)
    requires CountsOk(s) && LocksOk(s) && t in s.refs && Handled(s, t, use, x)
    ensures LocksOk(Shift(s, t, use, x, d))
  {
    hide RefsTo;
  }

  /** An entry with a reference has a positive count. */
  lemma Counted(s: State, t: nat)
    requires CountsOk(s) && t in s.refs
    ensures s.entries[s.refs[t].e].ref > 0
  {
    assert t in RefsTo(s.refs, s.refs[t].e);
  }

  lemma ShiftLive(s: State, t: nat, use: Use, x: Entry, d: map<nat, Dinode>)
    requires CountsOk(s) && OneEntry(s) && LiveOk(s) && FreeingAlone(s) && t in s.refs && Proper(s, t, use, x, d)
    ensures LiveOk(Shift(s, t, use, x, d))
  {
    hide CopyFits, RefsTo;
    var s' := Shift(s, t, use, x, d);
    forall u | u in s'.refs && Live(s'.refs[u].use)
      ensures var n := s'.entries[s'.refs[u].e].inum; n in d && d[n].typ != 0 && d[n].gen == s'.refs[u].gen
    {
      Counted(s, u);
      Counted(s, t);
      assert Live(s.refs[u].use);
    }
  }

  lemma ShiftAlone(s: State, t: nat, use: Use, x: Entry, d: map<nat, Dinode>)
    requires CountsOk(s) && FreeingAlone(s) && t in s.refs && Proper(s, t, use, x, d)
    ensures FreeingAlone(Shift(s, t, use, x, d))
  {
    hide CopyFits;
    var s' := Shift(s, t, use, x, d);
    forall u, v | u in s'.refs && v in s'.refs && s'.refs[u].e == s'.refs[v].e && s'.refs[u].use == Freeing && Live(s'.refs[v].use)
      ensures u == v
    {
      if u == t && s.refs[t].use != Freeing {
        OnlyRef(s, t, v);
      }
    }
  }

  lemma OnlyRef(s: State, t: nat, v: nat)
    requires CountsOk(s) && t in s.refs && v in s.refs && s.refs[v].e == s.refs[t].e && s.entries[s.refs[t].e].ref == 1
    ensures v == t
  {
    var r := RefsTo(s.refs, s.refs[t].e);
    assert t in r && v in r;
    assert |r - {t}| == 0;
    assert v !in r - {t};
  }

  lemma ShiftMarks(s: State, t: nat, use: Use, x: Entry, d: map<nat, Dinode>)
    requires CountsOk(s) && MarksOk(s) && t in s.refs && Proper(s, t, use, x, d)
    ensures MarksOk(Shift(s, t, use, x, d))
  {
    hide CopyFits, RefsTo;
  }

  lemma ShiftCopyHere(s: State, t: nat, use: Use, x: Entry, d: map<nat, Dinode>)
    requires t in s.refs && s.refs[t].e < |s.entries| && Proper(s, t, use, x, d)
    ensures CopyOk(Shift(s, t, use, x, d), s.refs[t].e)
  {
  }

  lemma ShiftCopyElse(s: State, t: nat, use: Use, x: Entry, d: map<nat, Dinode>, e: nat)
    requires OneEntry(s) && LocksOk(s) && t in s.refs && s.refs[t].e < |s.entries| && Proper(s, t, use, x, d)
    requires e < |s.entries| && CopyOk(s, e) && e != s.refs[t].e && s.entries[s.refs[t].e].ref > 0
    requires (s.entries[e].lock.By? ==> s.entries[e].ref > 0)
    ensures CopyOk(Shift(s, t, use, x, d), e)
  {
  }

  lemma ShiftCopies(s: State, t: nat, use: Use, x: Entry, d: map<nat, Dinode>)
    requires CountsOk(s) && OneEntry(s) && LocksOk(s) && CopiesOk(s) && t in s.refs && Proper(s, t, use, x, d)
    ensures CopiesOk(Shift(s, t, use, x, d))
  {
    var s' := Shift(s, t, use, x, d);
    Counted(s, t);
    forall e | 0 <= e < |s'.entries| ensures CopyOk(s', e) {
      assert CopyOk(s, e);
      if s.entries[e].lock.By? {
        Counted(s, s.entries[e].lock.t);
      }
      hide CountsOk, CopiesOk, LocksOk, OneEntry, Proper, CopyOk;
      if e == s.refs[t].e {
        ShiftCopyHere(s, t, use, x, d);
      } else {
        ShiftCopyElse(s, t, use, x, d, e);
      }
    }
  }

  lemma ShiftKeeps(s: State, t: nat, use: Use, x: Entry, d: map<nat, Dinode>)
    requires Inv(s) && t in s.refs && s.refs[t].e < |s.entries| && Proper(s, t, use, x, d)
    ensures Inv(Shift(s, t, use, x, d))
  {
    hide CountsOk, OneEntry, LocksOk, LiveOk, CopiesOk, FreeingAlone, MarksOk, Shift, CopyFits;
    assert Handled(s, t, use, x);
    hide Proper, Handled;
    ShiftCounts(s, t, use, x, d);
    ShiftLocks(s, t, use, x, d);
    ShiftLive(s, t, use, x, d);
    ShiftAlone(s, t, use, x, d);
    ShiftMarks(s, t, use, x, d);
    ShiftCopies(s, t, use, x, d);
  }

  /** What the invariant says of one reference. */
  lemma About(s: State, t: nat)
    requires Inv(s) && t in s.refs
    ensures s.refs[t].e < |s.entries|
    ensures var x, use := EntryOf(s, t), s.refs[t].use;
      && x.ref > 0 && (HoldsLock(use) <==> x.lock == By(t))
      && (Live(use) ==> x.inum in s.disk && s.disk[x.inum].typ != 0 && s.disk[x.inum].gen == s.refs[t].gen)
      && (HoldsLock(use) ==> CopyFits(x, use, s.disk)) && (x.lock == Nobody ==> CopyFits(x, Idle, s.disk))
  {
    Counted(s, t);
    assert CopyOk(s, s.refs[t].e);
  }

  /** iput frees only an inode whose sleep-lock is free, so it does not wait for it. */
  lemma IputNeverBlocks(s: State, t: nat)
    requires Table(s) && Has(s, t, Idle) && LastOfUnlinked(EntryOf(s, t))
    ensures EntryOf(s, t).lock == Nobody
  {
    LastUnlocked(s, t);
  }

  /** ilock and iunlock. */
  lemma LockingKeeps(s: State, ev: Event)
    requires Inv(s) && Enabled(s, ev) && (ev.Lock? || ev.Load? || ev.Unlock?)
    ensures Inv(Apply(s, ev))
  {
    hide Inv;
    var t := ev.t;
    About(s, t);
    var x := EntryOf(s, t);
    match ev
    case Lock(_) => ShiftKeeps(s, t, Locked, x.(lock := By(t)), s.disk);
    case Load(_) => ShiftKeeps(s, t, Ready, if x.valid then x else x.(mem := s.disk[x.inum], valid := true), s.disk);
    case Unlock(_) => ShiftKeeps(s, t, Idle, x.(lock := Nobody), s.disk);
  }

  lemma ModifyKeeps(s: State, t: nat, m: Dinode)
    requires Inv(s) && Enabled(s, Modify(t, m))
    ensures Inv(Apply(s, Modify(t, m)))
  {
    hide Inv;
    About(s, t);
    ShiftKeeps(s, t, Ready, EntryOf(s, t).(mem := m), s.disk);
  }

  /** The last steps of an iput that frees. */
  lemma EndKeeps(s: State, ev: Event)
    requires Inv(s) && Enabled(s, ev) && (ev.Invalidate? || ev.Release?)
    ensures Inv(Apply(s, ev))
  {
    hide Inv;
    var t := ev.t;
    About(s, t);
    var x := EntryOf(s, t);
    match ev
    case Invalidate(_) => ShiftKeeps(s, t, Invalid, x.(valid := false), s.disk);
    case Release(_) => ShiftKeeps(s, t, Released, x.(lock := Nobody), s.disk);
  }

  lemma UpdateKeeps(s: State, t: nat)
    requires Inv(s) && Enabled(s, Update(t))
    ensures Inv(Apply(s, Update(t)))
  {
    hide Inv;
    About(s, t);
    var x := EntryOf(s, t);
    assert s.entries[s.refs[t].e := x] == s.entries && s.refs[t := s.refs[t].(use := Ready)] == s.refs;
    ShiftKeeps(s, t, Ready, x, s.disk[x.inum := x.mem]);
  }

  /** The first steps of an iput that frees. */
  lemma FreeKeeps(s: State, ev: Event)
    requires Inv(s) && Enabled(s, ev) && (ev.Trunc? || ev.Zero? || (ev.Put? && LastOfUnlinked(EntryOf(s, ev.t))))
    ensures Inv(Apply(s, ev))
  {
    hide Inv;
    var t := ev.t;
    About(s, t);
    var x := EntryOf(s, t);
    match ev
    case Put(_) => ShiftKeeps(s, t, Freeing, x.(lock := By(t)), s.disk);
    case Trunc(_) => ShiftKeeps(s, t, Freeing, x.(mem := x.mem.(body := 0)), s.disk[x.inum := x.mem.(body := 0)]);
    case Zero(_) => ShiftKeeps(s, t, Zeroed, x.(mem := x.mem.(typ := 0)), s.disk[x.inum := x.mem.(typ := 0)]);
  }

  // Taking a reference ---------------------------------------------------------------------------

  function Joined(s: State, t: nat, e: nat, x: Entry, gen: nat): (s': State)
    requires e < |s.entries|
  {
    s.(entries := s.entries[e := x], refs := s.refs[t := Ref(e, gen, Idle)])
  }

  /** A new reference to an entry in use, or to a recycled one for an inode that has none. */
  ghost predicate Slotted(s: State, t: nat, e: nat, x: Entry) {
    && t !in s.refs && e < |s.entries|
    && ((s.entries[e].ref > 0 && x == s.entries[e].(ref := s.entries[e].ref + 1))
      || (s.entries[e].ref == 0 && x == s.entries[e].(inum := x.inum, ref := 1, valid := false)
        && forall f :: 0 <= f < |s.entries| && s.entries[f].ref > 0 ==> s.entries[f].inum != x.inum))
  }

  /** The new reference is to an inode that is allocated and that nobody is freeing or about to return. */
  ghost predicate JoinFits(s: State, t: nat, e: nat, x: Entry, gen: nat) {
    && Slotted(s, t, e, x) && x.inum in s.disk && s.disk[x.inum].typ != 0 && gen == s.disk[x.inum].gen
    && (forall a :: a in s.marks ==> s.marks[a] != x.inum)
    && (forall u :: u in s.refs && s.refs[u].e == e ==> s.refs[u].use != Freeing)
  }

  lemma JoinCounts(s: State, t: nat, e: nat, x: Entry, gen: nat)
    requires CountsOk(s) && OneEntry(s) && Slotted(s, t, e, x)
    ensures CountsOk(Joined(s, t, e, x, gen)) && OneEntry(Joined(s, t, e, x, gen))
  {
    var s' := Joined(s, t, e, x, gen);
    forall f | 0 <= f < |s'.entries| ensures s'.entries[f].ref == |RefsTo(s'.refs, f)| {
      RefsToMore(s.refs, t, Ref(e, gen, Idle), f);
    }
    hide RefsTo, CountsOk;
    assert OneEntry(s');
  }

  lemma RefsToMore(refs: map<nat, Ref>, t: nat, r: Ref, f: nat)
    requires t !in refs
    ensures |RefsTo(refs[t := r], f)| == |RefsTo(refs, f)| + if f == r.e then 1 else 0
  {
    assert RefsTo(refs[t := r], f) == RefsTo(refs, f) + if f == r.e then {t} else {};
  }

  lemma JoinLocks(s: State, t: nat, e: nat, x: Entry, gen: nat)
    requires CountsOk(s) && LocksOk(s) && Slotted(s, t, e, x)
    ensures LocksOk(Joined(s, t, e, x, gen))
  {
    hide RefsTo;
  }

  lemma JoinLive(s: State, t: nat, e: nat, x: Entry, gen: nat)
    requires CountsOk(s) && LiveOk(s) && FreeingAlone(s) && MarksOk(s) && JoinFits(s, t, e, x, gen)
    ensures LiveOk(Joined(s, t, e, x, gen)) && FreeingAlone(Joined(s, t, e, x, gen)) && MarksOk(Joined(s, t, e, x, gen))
  {
    hide RefsTo;
    var s' := Joined(s, t, e, x, gen);
    forall u | u in s.refs ensures s'.entries[s'.refs[u].e].inum == s.entries[s.refs[u].e].inum {
      Counted(s, u);
    }
  }

  lemma JoinCopies(s: State, t: nat, e: nat, x: Entry, gen: nat)
    requires CountsOk(s) && LocksOk(s) && CopiesOk(s) && JoinFits(s, t, e, x, gen)
    ensures CopiesOk(Joined(s, t, e, x, gen))
  {
    var s' := Joined(s, t, e, x, gen);
    forall f | 0 <= f < |s'.entries| ensures CopyOk(s', f) {
      assert CopyOk(s, f);
      if s.entries[f].lock.By? {
        Counted(s, s.entries[f].lock.t);
      }
    }
  }

  lemma JoinKeeps(s: State, t: nat, e: nat, x: Entry, gen: nat)
    requires Inv(s) && JoinFits(s, t, e, x, gen)
    ensures Inv(Joined(s, t, e, x, gen))
  {
    hide CountsOk, OneEntry, LocksOk, LiveOk, CopiesOk, FreeingAlone, MarksOk, Joined;
    assert Slotted(s, t, e, x);
    hide JoinFits, Slotted;
    JoinCounts(s, t, e, x, gen);
    JoinLocks(s, t, e, x, gen);
    JoinLive(s, t, e, x, gen);
    JoinCopies(s, t, e, x, gen);
  }

  lemma {:induction false} FindWhat(es: seq<Entry>, inum: nat, i: nat)
    requires i <= |es|
    ensures var e := Find(es, inum, i);
      && (e < |es| ==> es[e].ref > 0 && es[e].inum == inum)
      && forall f :: i <= f < e ==> !(es[f].ref > 0 && es[f].inum == inum)
    decreases |es| - i
  {
    if i < |es| && !(es[i].ref > 0 && es[i].inum == inum) {
      FindWhat(es, inum, i + 1);
    }
  }

  lemma {:induction false} FindEmptyWhat(es: seq<Entry>, i: nat)
    requires i <= |es|
    ensures FindEmpty(es, i) < |es| ==> es[FindEmpty(es, i)].ref == 0
    decreases |es| - i
  {
    if i < |es| && es[i].ref != 0 {
      FindEmptyWhat(es, i + 1);
    }
  }

  /** iget joins the one entry of the inode, or makes one. */
  lemma IgetJoins(s: State, t: nat, inum: nat)
    requires Inv(s) && t !in s.refs && inum in s.disk && s.disk[inum].typ != 0 && Slot(s.entries, inum) < |s.entries|
    requires forall a :: a in s.marks ==> s.marks[a] != inum
    requires forall u :: u in s.refs && s.refs[u].e < |s.entries| && s.entries[s.refs[u].e].inum == inum ==> s.refs[u].use != Freeing
    ensures var s' := s.(entries := Iget(s.entries, inum), refs := s.refs[t := Ref(Slot(s.entries, inum), s.disk[inum].gen, Idle)]);
      Inv(s')
  {
    hide Inv, Iget, Slot;
    IgetSlots(s, t, inum);
    IgetHas(s.entries, inum);
    var e := Slot(s.entries, inum);
    var x := Iget(s.entries, inum)[e];
    forall u | u in s.refs && s.refs[u].e == e ensures s.refs[u].use != Freeing {
      About(s, u);
    }
    JoinKeeps(s, t, e, x, s.disk[inum].gen);
  }

  lemma LookupKeeps(s: State, t: nat, inum: nat)
    requires Inv(s) && Enabled(s, Lookup(t, inum)) && Sound(s, Lookup(t, inum))
    ensures Inv(Apply(s, Lookup(t, inum)))
  {
    hide Inv, Slot, Iget;
    IgetJoins(s, t, inum);
  }

  /** A name in a linked directory is sound: its inode has a link, so nobody frees it, and it is not new. */
  lemma LinkedIsSound(s: State, ev: Event)
    requires Inv(s) && Enabled(s, ev) && ByName(s, ev)
    ensures Sound(s, ev)
  {
    if ev.Lookup? {
      hide Slot, Iget, CountsOk, OneEntry, LocksOk, CopiesOk, LiveOk, FreeingAlone;
      forall u | u in s.refs && s.refs[u].e < |s.entries| && s.entries[s.refs[u].e].inum == ev.inum ensures s.refs[u].use != Freeing {
        About(s, u);
      }
    }
  }

  lemma Unmarked(s: State, a: nat)
    requires Inv(s)
    ensures Inv(s.(marks := s.marks - {a}))
  {
    hide RefsTo;
    var s1 := s.(marks := s.marks - {a});
    forall e | 0 <= e < |s1.entries| ensures CopyOk(s1, e) {
      assert CopyOk(s, e);
    }
  }

  lemma GetMarkedKeeps(s: State, a: nat, t: nat)
    requires Inv(s) && Enabled(s, GetMarked(a, t))
    ensures Inv(Apply(s, GetMarked(a, t)))
  {
    hide Find, FindEmpty, Slot, Iget;
    var s1 := s.(marks := s.marks - {a});
    Unmarked(s, a);
    IgetJoins(s1, t, s.marks[a]);
  }

  lemma NotFreeing(s: State, t: nat, u: nat)
    requires FreeingAlone(s) && t in s.refs && u in s.refs && s.refs[u].e == s.refs[t].e && Live(s.refs[t].use) && s.refs[t].use != Freeing
    ensures s.refs[u].use != Freeing
  {
  }

  lemma DupKeeps(s: State, t: nat, t2: nat)
    requires Inv(s) && Enabled(s, Dup(t, t2))
    ensures Inv(Apply(s, Dup(t, t2)))
  {
    hide RefsTo, CopiesOk, LocksOk, LiveOk, OneEntry;
    About(s, t);
    var x := EntryOf(s, t);
    assert Live(s.refs[t].use);
    assert forall a :: a in s.marks ==> s.marks[a] != x.inum;
    forall u | u in s.refs && s.refs[u].e == s.refs[t].e ensures s.refs[u].use != Freeing {
      NotFreeing(s, t, u);
    }
    hide Inv;
    JoinKeeps(s, t2, s.refs[t].e, x.(ref := x.ref + 1), s.refs[t].gen);
  }

  // Dropping a reference, and ialloc -------------------------------------------------------------

  lemma DropCounts(s: State, t: nat)
    requires CountsOk(s) && OneEntry(s) && t in s.refs
    ensures CountsOk(Dropped(s, t)) && OneEntry(Dropped(s, t))
  {
    var s' := Dropped(s, t);
    Counted(s, t);
    forall f | 0 <= f < |s'.entries| ensures s'.entries[f].ref == |RefsTo(s'.refs, f)| {
      assert RefsTo(s'.refs, f) == RefsTo(s.refs, f) - {t};
      assert f == s.refs[t].e <==> t in RefsTo(s.refs, f);
    }
  }

  lemma DropLocks(s: State, t: nat)
    requires CountsOk(s) && LocksOk(s) && t in s.refs && !HoldsLock(s.refs[t].use)
    ensures LocksOk(Dropped(s, t))
  {
    hide RefsTo;
  }

  lemma DropRest(s: State, t: nat)
    requires CountsOk(s) && LiveOk(s) && FreeingAlone(s) && MarksOk(s) && t in s.refs
    ensures var s' := Dropped(s, t); LiveOk(s') && FreeingAlone(s') && MarksOk(s')
  {
    hide RefsTo;
  }

  lemma DropCopies(s: State, t: nat)
    requires CountsOk(s) && LocksOk(s) && CopiesOk(s) && t in s.refs && !HoldsLock(s.refs[t].use)
    ensures CopiesOk(Dropped(s, t))
  {
    hide RefsTo;
    var s' := Dropped(s, t);
    forall f | 0 <= f < |s'.entries| ensures CopyOk(s', f) {
      assert CopyOk(s, f);
    }
  }

  lemma DropKeeps(s: State, t: nat)
    requires Inv(s) && t in s.refs && !HoldsLock(s.refs[t].use)
    ensures s.refs[t].e < |s.entries| && Inv(Dropped(s, t))
  {
    assert s.refs[t].e < |s.entries|;
    hide CountsOk, OneEntry, LocksOk, LiveOk, CopiesOk, FreeingAlone, MarksOk, Dropped;
    DropCounts(s, t);
    DropLocks(s, t);
    DropRest(s, t);
    DropCopies(s, t);
  }

  lemma MarkKeeps(s: State, a: nat, inum: nat, typ: nat)
    requires Inv(s) && Enabled(s, Mark(a, inum, typ))
    ensures Inv(Apply(s, Mark(a, inum, typ)))
  {
    hide CopiesOk, Table;
    InvTable(s);
    MarkCopies(s, a, inum, typ);
    TableSame(s, Apply(s, Mark(a, inum, typ)));
    TableRefs(s);
  }

  lemma TableRefs(s: State)
    requires Table(s)
    ensures forall t :: t in s.refs ==> s.refs[t].e < |s.entries|
  {
  }

  lemma MarkCopies(s: State, a: nat, inum: nat, typ: nat)
    requires Inv(s) && Enabled(s, Mark(a, inum, typ))
    ensures CopiesOk(Apply(s, Mark(a, inum, typ)))
  {
    hide RefsTo;
    var s' := Apply(s, Mark(a, inum, typ));
    forall e | 0 <= e < |s'.entries| ensures CopyOk(s', e) {
      assert CopyOk(s, e);
      if s.entries[e].lock.By? && s.entries[e].inum == inum {
        About(s, s.entries[e].lock.t);
      }
    }
  }

  /** Every sound step of every process keeps the invariant. */
  lemma StepKeepsInv(s: State, ev: Event)
    requires Inv(s) && Enabled(s, ev) && Sound(s, ev)
    ensures Inv(Apply(s, ev))
  {
    hide Inv;
    match ev
    case Lookup(t, inum) => LookupKeeps(s, t, inum);
    case Mark(a, inum, typ) => MarkKeeps(s, a, inum, typ);
    case GetMarked(a, t) => GetMarkedKeeps(s, a, t);
    case Dup(t, t2) => DupKeeps(s, t, t2);
    case Put(t) =>
      if LastOfUnlinked(EntryOf(s, t)) {
        FreeKeeps(s, ev);
      } else {
        DropKeeps(s, t);
      }
    case Update(t) => UpdateKeeps(s, t);
    case Trunc(_) => FreeKeeps(s, ev);
    case Zero(_) => FreeKeeps(s, ev);
    case Drop(t) => DropKeeps(s, t);
    case Lock(_) => LockingKeeps(s, ev);
    case Load(_) => LockingKeeps(s, ev);
    case Unlock(_) => LockingKeeps(s, ev);
    case Modify(t, m) => ModifyKeeps(s, t, m);
    case Invalidate(_) => EndKeeps(s, ev);
    case Release(_) => EndKeeps(s, ev);
  }

  /** Where a lookup ends up: at the entry of the inode, if it has one. */
  lemma SlotIs(s: State, inum: nat, u: nat)
    requires Table(s) && u in s.refs && s.refs[u].e < |s.entries| && s.entries[s.refs[u].e].inum == inum
    ensures Slot(s.entries, inum) == s.refs[u].e
  {
    Counted(s, u);
    FindWhat(s.entries, inum, 0);
    hide RefsTo, LocksOk;
  }

  /** A lookup that is not sound leaves a live reference to a free inode, or to one that is marked or freed. */
  lemma UnsoundBreaks(s: State, ev: Event)
    requires Inv(s) && Enabled(s, ev) && !Sound(s, ev)
    ensures !Inv(Apply(s, ev))
  {
    hide Slot, Iget, CountsOk, OneEntry, LocksOk, CopiesOk;
    var s', t, n := Apply(s, ev), ev.t, ev.inum;
    IgetHas(s.entries, n);
    assert EntryOf(s', t).inum == n && s'.refs[t].use == Idle;
    if u :| u in s.refs && s.refs[u].e < |s.entries| && s.entries[s.refs[u].e].inum == n && s.refs[u].use == Freeing {
      SlotIs(s, n, u);
      assert s'.refs[u] == s.refs[u] && s'.refs[u].e == s'.refs[t].e && u != t;
      assert !FreeingAlone(s');
    } else if a :| a in s.marks && s.marks[a] == n {
      assert !MarksOk(s');
    } else {
      assert !LiveOk(s');
    }
  }

  /** The invariant is kept exactly by the sound steps. */
  lemma StepExact(s: State, ev: Event)
    requires Inv(s) && Enabled(s, ev)
    ensures Inv(Apply(s, ev)) <==> Sound(s, ev)
  {
    hide Inv, Apply, Sound;
    if Sound(s, ev) {
      StepKeepsInv(s, ev);
    } else {
      UnsoundBreaks(s, ev);
    }
  }

  // What every step keeps, sound or not ----------------------------------------------------------

  lemma ShiftTable(s: State, t: nat, use: Use, x: Entry, d: map<nat, Dinode>)
    requires Table(s) && t in s.refs && s.refs[t].e < |s.entries| && Handled(s, t, use, x)
    ensures Table(Shift(s, t, use, x, d))
  {
    hide CountsOk, OneEntry, LocksOk, Handled, Shift;
    ShiftCounts(s, t, use, x, d);
    ShiftLocks(s, t, use, x, d);
  }

  lemma JoinTable(s: State, t: nat, e: nat, x: Entry, gen: nat)
    requires Table(s) && Slotted(s, t, e, x)
    ensures Table(Joined(s, t, e, x, gen))
  {
    hide CountsOk, OneEntry, LocksOk;
    JoinCounts(s, t, e, x, gen);
    JoinLocks(s, t, e, x, gen);
  }

  /** iget finds the entry of the inode, or a free one. */
  lemma IgetSlots(s: State, t: nat, inum: nat)
    requires t !in s.refs && Slot(s.entries, inum) < |s.entries|
    ensures var e := Slot(s.entries, inum);
      |Iget(s.entries, inum)| == |s.entries| && Iget(s.entries, inum) == s.entries[e := Iget(s.entries, inum)[e]]
        && Slotted(s, t, e, Iget(s.entries, inum)[e])
  {
    FindWhat(s.entries, inum, 0);
    FindEmptyWhat(s.entries, 0);
  }

  /** Only entries and references make the table. */
  lemma TableSame(s: State, s': State)
    requires Table(s) && s'.entries == s.entries && s'.refs == s.refs
    ensures Table(s')
  {
  }

  lemma IgetTable(s: State, t: nat, inum: nat, gen: nat)
    requires Table(s) && t !in s.refs && Slot(s.entries, inum) < |s.entries|
    ensures Table(s.(entries := Iget(s.entries, inum), refs := s.refs[t := Ref(Slot(s.entries, inum), gen, Idle)]))
  {
    hide Table, Slot, Iget, Slotted;
    IgetSlots(s, t, inum);
    JoinTable(s, t, Slot(s.entries, inum), Iget(s.entries, inum)[Slot(s.entries, inum)], gen);
  }

  /** What the table says of one reference. */
  lemma TableAt(s: State, t: nat)
    requires Table(s) && t in s.refs
    ensures s.refs[t].e < |s.entries| && EntryOf(s, t).ref > 0 && (HoldsLock(s.refs[t].use) <==> EntryOf(s, t).lock == By(t))
  {
    Counted(s, t);
  }

  lemma DropTable(s: State, t: nat)
    requires Table(s) && t in s.refs && !HoldsLock(s.refs[t].use)
    ensures s.refs[t].e < |s.entries| && Table(Dropped(s, t))
  {
    TableAt(s, t);
    hide CountsOk, OneEntry, LocksOk, Dropped;
    DropCounts(s, t);
    DropLocks(s, t);
  }

  lemma GetTable(s: State, ev: Event)
    requires Table(s) && Enabled(s, ev) && (ev.Lookup? || ev.GetMarked? || ev.Dup?)
    ensures Table(Apply(s, ev))
  {
    hide Table, Slot, Iget;
    match ev
    case Lookup(t, inum) => IgetTable(s, t, inum, s.disk[inum].gen);
    case GetMarked(a, t) =>
      IgetTable(s, t, s.marks[a], s.disk[s.marks[a]].gen);
      var r := Ref(Slot(s.entries, s.marks[a]), s.disk[s.marks[a]].gen, Idle);
      TableSame(s.(entries := Iget(s.entries, s.marks[a]), refs := s.refs[t := r]), Apply(s, ev));
    case Dup(t, t2) =>
      TableAt(s, t);
      JoinTable(s, t2, s.refs[t].e, EntryOf(s, t).(ref := EntryOf(s, t).ref + 1), s.refs[t].gen);
  }

  lemma UseTable(s: State, ev: Event)
    requires Table(s) && Enabled(s, ev) && (ev.Lock? || ev.Load? || ev.Modify? || ev.Unlock? || ev.Invalidate? || ev.Release?)
    ensures Table(Apply(s, ev))
  {
    hide Table;
    var t := ev.t;
    TableAt(s, t);
    var x := EntryOf(s, t);
    match ev
    case Lock(_) => ShiftTable(s, t, Locked, x.(lock := By(t)), s.disk);
    case Load(_) => ShiftTable(s, t, Ready, if x.valid then x else x.(mem := s.disk[x.inum], valid := true), s.disk);
    case Modify(_, m) => ShiftTable(s, t, Ready, x.(mem := m), s.disk);
    case Unlock(_) => ShiftTable(s, t, Idle, x.(lock := Nobody), s.disk);
    case Invalidate(_) => ShiftTable(s, t, Invalid, x.(valid := false), s.disk);
    case Release(_) => ShiftTable(s, t, Released, x.(lock := Nobody), s.disk);
  }

  lemma FreeTable(s: State, ev: Event)
    requires Table(s) && Enabled(s, ev) && (ev.Put? || ev.Trunc? || ev.Zero? || ev.Drop?)
    ensures Table(Apply(s, ev))
  {
    hide Table;
    var t := ev.t;
    TableAt(s, t);
    var x := EntryOf(s, t);
    match ev
    case Put(_) =>
      if LastOfUnlinked(x) {
        ShiftTable(s, t, Freeing, x.(lock := By(t)), s.disk);
      } else {
        DropTable(s, t);
      }
    case Trunc(_) => ShiftTable(s, t, Freeing, x.(mem := x.mem.(body := 0)), s.disk[x.inum := x.mem.(body := 0)]);
    case Zero(_) => ShiftTable(s, t, Zeroed, x.(mem := x.mem.(typ := 0)), s.disk[x.inum := x.mem.(typ := 0)]);
    case Drop(_) => DropTable(s, t);
  }

  /** Every step of every process, whatever it looks up, keeps the counts, the locks, and one entry per inode. */
  lemma StepKeepsTable(s: State, ev: Event)
    requires Table(s) && Enabled(s, ev)
    ensures Table(Apply(s, ev))
  {
    if ev.Lookup? || ev.GetMarked? || ev.Dup? {
      GetTable(s, ev);
    } else if ev.Put? || ev.Trunc? || ev.Zero? || ev.Drop? {
      FreeTable(s, ev);
    } else if ev.Mark? || ev.Update? {
      TableSame(s, Apply(s, ev));
    } else {
      UseTable(s, ev);
    }
  }

  // ---------------------------------------------------------------------------------------------
  // Whole runs
  // ---------------------------------------------------------------------------------------------

  /** Before the first iget. */
  ghost predicate Init(s: State) {
    && s.refs == map[] && s.marks == map[]
    && forall e :: 0 <= e < |s.entries| ==> s.entries[e].ref == 0 && s.entries[e].lock == Nobody
  }

  ghost predicate IsRun(ss: seq<State>, es: seq<Event>) {
    && |ss| == |es| + 1 && Init(ss[0])
    && forall i :: 0 <= i < |es| ==> Enabled(ss[i], es[i]) && ss[i + 1] == Apply(ss[i], es[i])
  }

  lemma InitInv(s: State)
    requires Init(s)
    ensures Inv(s)
  {
    forall e | 0 <= e < |s.entries| ensures CopyOk(s, e) && RefsTo(s.refs, e) == {} {
    }
  }

  /** The first k steps of the run are sound. */
  ghost predicate SoundTo(ss: seq<State>, es: seq<Event>, k: nat)
    requires IsRun(ss, es) && k <= |es|
  {
    forall i :: 0 <= i < k ==> Sound(ss[i], es[i])
  }

  lemma {:induction false} RunTable(ss: seq<State>, es: seq<Event>, i: nat)
    requires IsRun(ss, es) && i < |ss|
    ensures Table(ss[i])
  {
    hide Inv, Table, Enabled, Apply;
    if i == 0 {
      InitInv(ss[0]);
      InvTable(ss[0]);
    } else {
      RunTable(ss, es, i - 1);
      StepKeepsTable(ss[i - 1], es[i - 1]);
    }
  }

  lemma InvTable(s: State)
    requires Inv(s)
    ensures Table(s)
  {
  }

  lemma {:induction false} RunInv(ss: seq<State>, es: seq<Event>, i: nat)
    requires IsRun(ss, es) && i < |ss| && SoundTo(ss, es, i)
    ensures Inv(ss[i])
  {
    hide Inv, Enabled, Apply, Sound;
    if i == 0 {
      InitInv(ss[0]);
    } else {
      RunInv(ss, es, i - 1);
      StepKeepsInv(ss[i - 1], es[i - 1]);
    }
  }

  /** The invariant holds along a run exactly as long as its steps are sound. */
  lemma {:induction false} RunExact(ss: seq<State>, es: seq<Event>, k: nat)
    requires IsRun(ss, es) && k <= |es|
    ensures (forall i :: 0 <= i <= k ==> Inv(ss[i])) <==> SoundTo(ss, es, k)
  {
    hide Inv, Enabled, Apply, Sound;
    if SoundTo(ss, es, k) {
      forall i | 0 <= i <= k ensures Inv(ss[i]) {
        RunInv(ss, es, i);
      }
    }
    if forall i :: 0 <= i <= k ==> Inv(ss[i]) {
      forall i | 0 <= i < k ensures Sound(ss[i], es[i]) {
        assert Inv(ss[i]) && Inv(ss[i + 1]);
        StepExact(ss[i], es[i]);
      }
    }
  }

  /** Runs whose lookups all go through linked directories. */
  ghost predicate LinkedRun(ss: seq<State>, es: seq<Event>) {
    IsRun(ss, es) && forall i :: 0 <= i < |es| ==> ByName(ss[i], es[i])
  }

  lemma {:induction false} LinkedRunIsSound(ss: seq<State>, es: seq<Event>, k: nat)
    requires LinkedRun(ss, es) && k <= |es|
    ensures SoundTo(ss, es, k)
  {
    hide Inv, Enabled, Apply, Sound, ByName;
    if k > 0 {
      LinkedRunIsSound(ss, es, k - 1);
      RunInv(ss, es, k - 1);
      LinkedIsSound(ss[k - 1], es[k - 1]);
    }
  }

  /** In every run, whatever is looked up, an inode has at most one referenced entry, and each count is the number of
      references. */
  lemma OneEntryPerInode(ss: seq<State>, es: seq<Event>, i: nat, e: nat, f: nat)
    requires IsRun(ss, es) && i < |ss| && e < |ss[i].entries| && f < |ss[i].entries|
    requires ss[i].entries[e].ref > 0 && ss[i].entries[f].ref > 0 && ss[i].entries[e].inum == ss[i].entries[f].inum
    ensures e == f && ss[i].entries[e].ref == |RefsTo(ss[i].refs, e)|
  {
    RunTable(ss, es, i);
  }

  /** While lookups are sound, whoever has an inode locked and loaded sees the file that its reference was taken for,
      and the disk holds that file: a number reused by ialloc during an iput is read again before it is used. */
  lemma LockedIsCurrent(ss: seq<State>, es: seq<Event>, i: nat, t: nat)
    requires IsRun(ss, es) && i < |ss| && SoundTo(ss, es, i) && Has(ss[i], t, Ready)
    ensures var x := EntryOf(ss[i], t);
      && x.valid && x.mem.typ != 0 && x.mem.gen == ss[i].refs[t].gen
      && x.inum in ss[i].disk && ss[i].disk[x.inum].gen == ss[i].refs[t].gen
  {
    hide Sound;
    RunInv(ss, es, i);
    About(ss[i], t);
  }

  /** While lookups are sound, the panic of ilock on an inode without type is not reached. */
  lemma LoadNeverPanics(ss: seq<State>, es: seq<Event>, i: nat, t: nat)
    requires IsRun(ss, es) && i < |ss| && SoundTo(ss, es, i)
    ensures !Panics(ss[i], t)
    ensures Has(ss[i], t, Locked) ==> EntryOf(ss[i], t).inum in ss[i].disk && ss[i].disk[EntryOf(ss[i], t).inum].typ != 0
  {
    hide Sound;
    RunInv(ss, es, i);
    if t in ss[i].refs {
      About(ss[i], t);
    }
  }

  /** Exactly when a lookup followed by ilock panics: the number belongs to no inode. */
  lemma LookupPanics(s: State, t: nat, n: nat)
    requires Inv(s) && Enabled(s, Lookup(t, n)) && Enabled(Apply(s, Lookup(t, n)), Lock(t))
    ensures Panics(Apply(Apply(s, Lookup(t, n)), Lock(t)), t) <==> s.disk[n].typ == 0
  {
    IgetSlots(s, t, n);
    IgetHas(s.entries, n);
    var e := Slot(s.entries, n);
    assert CopyOk(s, e);
    hide Table, LiveOk, CopiesOk, FreeingAlone, MarksOk, Slot, Iget;
    var x, s2 := Iget(s.entries, n)[e], Apply(Apply(s, Lookup(t, n)), Lock(t));
    assert s2.entries[e] == x.(lock := By(t)) && s2.refs[t].e == e;
  }

  /** A reference that is not being freed keeps its entry and its inode number. */
  lemma StepKeepsRef(s: State, ev: Event, t: nat)
    requires Table(s) && Enabled(s, ev) && t in s.refs && t in Apply(s, ev).refs
    ensures var s' := Apply(s, ev);
      && s.refs[t].e < |s.entries| && |s'.entries| == |s.entries|
      && s'.refs[t].e == s.refs[t].e && s'.refs[t].gen == s.refs[t].gen && EntryOf(s', t).inum == EntryOf(s, t).inum
  {
    hide Table, Iget, Slot, LastOfUnlinked;
    TableAt(s, t);
    if ev.Lookup? {
      IgetKeeps(s.entries, ev.inum, s.refs[t].e);
    } else if ev.GetMarked? {
      IgetKeeps(s.entries, s.marks[ev.a], s.refs[t].e);
    }
  }

  /** iget leaves an entry in use to its inode. */
  lemma IgetKeeps(es: seq<Entry>, inum: nat, e: nat)
    requires Slot(es, inum) < |es| && e < |es| && es[e].ref > 0
    ensures |Iget(es, inum)| == |es| && Iget(es, inum)[e].inum == es[e].inum
  {
  }

  /** No entry is recycled while it is referenced: between two points of any run at all of which reference t exists,
      its entry is for the same inode. */
  lemma {:induction false} NeverRecycled(ss: seq<State>, es: seq<Event>, i: nat, j: nat, t: nat)
    requires IsRun(ss, es) && i <= j < |ss| && forall k :: i <= k <= j ==> t in ss[k].refs
    ensures ss[i].refs[t].e < |ss[i].entries| && ss[j].refs[t].e < |ss[j].entries|
    ensures ss[j].refs[t].e == ss[i].refs[t].e && EntryOf(ss[j], t).inum == EntryOf(ss[i], t).inum
    ensures ss[j].refs[t].gen == ss[i].refs[t].gen
    decreases j
  {
    hide Table, Enabled, Apply;
    RunTable(ss, es, i);
    TableAt(ss[i], t);
    RunTable(ss, es, j);
    TableAt(ss[j], t);
    if i < j {
      NeverRecycled(ss, es, i, j - 1, t);
      RunTable(ss, es, j - 1);
      StepKeepsRef(ss[j - 1], es[j - 1], t);
    }
  }

  /** And while lookups are sound and the reference is live, that inode is the same file. */
  lemma SameFile(ss: seq<State>, es: seq<Event>, i: nat, j: nat, t: nat)
    requires IsRun(ss, es) && i <= j < |ss| && SoundTo(ss, es, j) && forall k :: i <= k <= j ==> t in ss[k].refs
    requires Live(ss[j].refs[t].use)
    ensures ss[j].refs[t].e < |ss[j].entries| && EntryOf(ss[j], t).inum in ss[j].disk
    ensures ss[j].disk[EntryOf(ss[j], t).inum].gen == ss[i].refs[t].gen && ss[j].disk[EntryOf(ss[j], t).inum].typ != 0
  {
    hide Inv, Enabled, Apply, Sound;
    NeverRecycled(ss, es, i, j, t);
    RunInv(ss, es, j);
    About(ss[j], t);
  }

  /** The step that the process with reference t can take. */
  function StepOf(s: State, t: nat): (ev: Event)
    requires t in s.refs && s.refs[t].e < |s.entries|
  {
    match s.refs[t].use
    case Idle => Lock(t)
    case Locked => Load(t)
    case Ready =>
      var x := EntryOf(s, t);
      if x.inum in s.disk && x.mem != s.disk[x.inum] then Update(t) else Unlock(t)
    case Freeing => Zero(t)
    case Zeroed => Invalidate(t)
    case Invalid => Release(t)
    case Released => Drop(t)
  }

  /** While lookups are sound nobody is stuck: with every reference its process can go on, or waits for a sleep-lock that
      another has. */
  lemma Progress(ss: seq<State>, es: seq<Event>, i: nat, t: nat)
    requires IsRun(ss, es) && i < |ss| && SoundTo(ss, es, i) && t in ss[i].refs
    ensures ss[i].refs[t].e < |ss[i].entries|
    ensures Enabled(ss[i], StepOf(ss[i], t)) || (Has(ss[i], t, Idle) && EntryOf(ss[i], t).lock.By? && EntryOf(ss[i], t).lock != By(t))
  {
    hide Sound;
    RunInv(ss, es, i);
    About(ss[i], t);
    hide Inv, Slot;
  }

  /** What that step achieves: ilock locks and loads, a changed inode is written back and then unlocked, and an iput that
      frees goes on to the end, where the reference is gone. */
  lemma StepsAdvance(s: State, t: nat)
    requires Table(s) && t in s.refs && s.refs[t].e < |s.entries| && Enabled(s, StepOf(s, t))
    ensures var s' := Apply(s, StepOf(s, t)); var x := EntryOf(s, t);
      match s.refs[t].use
      case Idle => Has(s', t, Locked) && EntryOf(s', t) == x.(lock := By(t))
      case Locked => Has(s', t, Ready) && EntryOf(s', t).valid
      case Ready =>
        || (Has(s', t, Ready) && x.inum in s'.disk && EntryOf(s', t).mem == s'.disk[x.inum])
        || (Has(s', t, Idle) && EntryOf(s', t) == x.(lock := Nobody))
      case Freeing => Has(s', t, Zeroed) && x.inum in s'.disk && s'.disk[x.inum].typ == 0
      case Zeroed => Has(s', t, Invalid) && EntryOf(s', t) == x.(valid := false)
      case Invalid => Has(s', t, Released) && EntryOf(s', t) == x.(lock := Nobody)
      case Released => t !in s'.refs && s'.refs == s.refs - {t} && s'.entries[s.refs[t].e].ref == x.ref - 1
  {
    TableAt(s, t);
    hide Table, Slot, Iget;
  }

  // ---------------------------------------------------------------------------------------------
  // An inode that nobody frees
  // ---------------------------------------------------------------------------------------------

  /** Allocated on disk, without links, and in no one's hands. */
  ghost predicate Orphan(s: State, n: nat) {
    && n in s.disk && s.disk[n].typ != 0 && s.disk[n].nlink == 0
    && (forall t :: t in s.refs && s.refs[t].e < |s.entries| ==> s.entries[s.refs[t].e].inum != n)
    && (forall a :: a in s.marks ==> s.marks[a] != n)
  }

  /** When giving up a reference leaves an orphan: it was the last one, and iput either had passed its test
      before the number was reused, or found a copy that was never loaded. */
  predicate Abandons(s: State, ev: Event, n: nat) {
    && ((ev.Drop? && Has(s, ev.t, Released)) || (ev.Put? && Has(s, ev.t, Idle) && !EntryOf(s, ev.t).valid))
    && EntryOf(s, ev.t).inum == n && EntryOf(s, ev.t).ref == 1
    && n in s.disk && s.disk[n].typ != 0 && s.disk[n].nlink == 0 && forall a :: a in s.marks ==> s.marks[a] != n
  }

  /** A step that gives up no reference leaves the inode that it works on in someone's hands. */
  lemma NotGivingUp(s: State, ev: Event, n: nat)
    requires Table(s) && Enabled(s, ev) && !ev.Drop? && !ev.Put? && Orphan(Apply(s, ev), n)
    ensures Orphan(s, n)
  {
    hide Table, Iget, Slot, LastOfUnlinked;
    var s' := Apply(s, ev);
    forall t | t in s.refs ensures s.refs[t].e < |s.entries| && s.entries[s.refs[t].e].inum != n {
      StepKeepsRef(s, ev, t);
    }
    if ev.Lookup? {
      IgetHas(s.entries, ev.inum);
    } else if ev.GetMarked? {
      IgetHas(s.entries, s.marks[ev.a]);
      assert ev.t in s'.refs && EntryOf(s', ev.t).inum == s.marks[ev.a];
    } else if ev.Mark? {
      assert s'.marks[ev.a] == ev.inum;
    }
    assert s'.disk[n] == s.disk[n];
    forall a | a in s.marks ensures s.marks[a] != n {
      assert a in s'.marks ==> s'.marks[a] == s.marks[a];
    }
  }

  lemma IgetHas(es: seq<Entry>, inum: nat)
    requires Slot(es, inum) < |es|
    ensures |Iget(es, inum)| == |es| && Iget(es, inum)[Slot(es, inum)].inum == inum
  {
    FindWhat(es, inum, 0);
    FindEmptyWhat(es, 0);
  }

  /** The last reference to an inode without links. */
  predicate LastRef(s: State, t: nat, n: nat)
    requires t in s.refs && s.refs[t].e < |s.entries|
  {
    && EntryOf(s, t).inum == n && EntryOf(s, t).ref == 1 && n in s.disk && s.disk[n].typ != 0 && s.disk[n].nlink == 0
    && forall a :: a in s.marks ==> s.marks[a] != n
  }

  lemma DropOrphans(s: State, t: nat, n: nat)
    requires CountsOk(s) && OneEntry(s) && t in s.refs && !Orphan(s, n) && Orphan(Dropped(s, t), n)
    ensures LastRef(s, t, n)
  {
    var s', e := Dropped(s, t), s.refs[t].e;
    forall u | u in s.refs && u != t ensures s.entries[s.refs[u].e].inum != n {
      assert u in s'.refs && s'.entries[s'.refs[u].e].inum == s.entries[s.refs[u].e].inum;
    }
    assert EntryOf(s, t).inum == n;
    assert RefsTo(s.refs, e) == {t};
  }

  lemma LastRefOrphans(s: State, t: nat, n: nat)
    requires CountsOk(s) && OneEntry(s) && t in s.refs && LastRef(s, t, n)
    ensures Orphan(Dropped(s, t), n)
  {
    var s' := Dropped(s, t);
    forall u | u in s'.refs ensures s'.entries[s'.refs[u].e].inum != n {
      Counted(s, u);
      if s.entries[s.refs[u].e].inum == n {
        OnlyRef(s, t, u);
      }
    }
  }

  lemma GivingUp(s: State, ev: Event, n: nat)
    requires Inv(s) && Enabled(s, ev) && (ev.Drop? || ev.Put?) && !Orphan(s, n)
    ensures Orphan(Apply(s, ev), n) <==> Abandons(s, ev, n)
  {
    var t := ev.t;
    About(s, t);
    if ev.Put? && LastOfUnlinked(EntryOf(s, t)) {
      PutFreeing(s, t, n);
    } else {
      if ev.Put? && EntryOf(s, t).ref == 1 && EntryOf(s, t).lock.By? {
        LastUnlocked(s, t);
      }
      hide Orphan, Inv, Dropped;
      DropExactly(s, t, n);
    }
  }

  lemma DropExactly(s: State, t: nat, n: nat)
    requires Inv(s) && t in s.refs && s.refs[t].e < |s.entries| && !Orphan(s, n)
    ensures Orphan(Dropped(s, t), n) <==> LastRef(s, t, n)
  {
    hide Orphan, RefsTo, LocksOk, LiveOk, CopiesOk, FreeingAlone, MarksOk, OneEntry, CountsOk, Dropped, LastRef;
    if Orphan(Dropped(s, t), n) {
      DropOrphans(s, t, n);
    }
    if LastRef(s, t, n) {
      LastRefOrphans(s, t, n);
    }
  }

  /** The lock of an entry with one reference is not held through another. */
  lemma LastUnlocked(s: State, t: nat)
    requires Table(s) && t in s.refs && s.refs[t].e < |s.entries| && EntryOf(s, t).ref == 1 && !HoldsLock(s.refs[t].use)
    ensures EntryOf(s, t).lock == Nobody
  {
    hide RefsTo, OneEntry;
    if EntryOf(s, t).lock.By? {
      OnlyRef(s, t, EntryOf(s, t).lock.t);
    }
  }

  lemma PutFreeing(s: State, t: nat, n: nat)
    requires Inv(s) && Enabled(s, Put(t)) && LastOfUnlinked(EntryOf(s, t)) && !Orphan(s, n)
    ensures !Orphan(Apply(s, Put(t)), n)
  {
    hide RefsTo, OneEntry, LocksOk, LiveOk, CopiesOk, FreeingAlone, MarksOk, Orphan;
    StillHeld(s, Apply(s, Put(t)), t, n);
  }

  lemma StillHeld(s: State, s': State, t: nat, n: nat)
    requires s'.disk == s.disk && s'.marks == s.marks && s'.refs.Keys == s.refs.Keys && |s'.entries| == |s.entries| && !Orphan(s, n)
    requires forall u :: u in s.refs ==>
      s.refs[u].e == s'.refs[u].e < |s.entries| && s'.entries[s.refs[u].e].inum == s.entries[s.refs[u].e].inum
    ensures !Orphan(s', n)
  {
    if n in s.disk && s.disk[n].typ != 0 && s.disk[n].nlink == 0 && forall a :: a in s.marks ==> s.marks[a] != n {
      var u :| u in s.refs && s.refs[u].e < |s.entries| && s.entries[s.refs[u].e].inum == n;
      assert u in s'.refs && s'.entries[s'.refs[u].e].inum == n;
    }
  }

  /** Orphans arise in exactly these steps. */
  lemma OrphansArise(s: State, ev: Event, n: nat)
    requires Inv(s) && Enabled(s, ev) && !Orphan(s, n)
    ensures Orphan(Apply(s, ev), n) <==> Abandons(s, ev, n)
  {
    hide Inv, Orphan;
    if ev.Drop? || ev.Put? {
      GivingUp(s, ev, n);
    } else if Orphan(Apply(s, ev), n) {
      InvTable(s);
      NotGivingUp(s, ev, n);
    }
  }

  /** Once an orphan, always an orphan, unless a lookup leads to it. */
  lemma OrphanStays(s: State, ev: Event, n: nat)
    requires Table(s) && Enabled(s, ev) && Orphan(s, n)
    ensures Orphan(Apply(s, ev), n) <==> !(ev.Lookup? && ev.inum == n)
  {
    hide Table, Iget, Slot, LastOfUnlinked;
    var s' := Apply(s, ev);
    forall t | t in s.refs ensures s.refs[t].e < |s.entries| && EntryOf(s, t).inum != n {
      TableAt(s, t);
    }
    forall t | t in s.refs && t in s'.refs ensures s'.refs[t].e < |s'.entries| && EntryOf(s', t).inum != n {
      StepKeepsRef(s, ev, t);
    }
    if ev.Lookup? {
      IgetHas(s.entries, ev.inum);
      assert EntryOf(s', ev.t).inum == ev.inum;
    } else if ev.GetMarked? {
      IgetHas(s.entries, s.marks[ev.a]);
    }
  }

  /** As long as lookups go through linked directories, nobody ever finds it again. */
  lemma {:induction false} OrphanForever(ss: seq<State>, es: seq<Event>, i: nat, j: nat, n: nat)
    requires IsRun(ss, es) && i <= j < |ss| && Orphan(ss[i], n) && forall k :: i <= k < j ==> ByName(ss[k], es[k])
    ensures Orphan(ss[j], n)
    decreases j
  {
    hide Table, Enabled, Apply;
    if i < j {
      OrphanForever(ss, es, i, j - 1, n);
      RunTable(ss, es, j - 1);
      OrphanStays(ss[j - 1], es[j - 1], n);
    }
  }

  /** A table of one entry for inode 5. */
  function One(ref: nat, valid: bool, lock: Holder, mem: Dinode, disk: Dinode, refs: map<nat, Ref>, marks: map<nat, nat>): (s: State) {
    State([Entry(5, ref, valid, lock, mem)], map[5 := disk], refs, marks)
  }

  /** A step between two given states. */
  ghost predicate Leads(s: State, ev: Event, s': State) {
    Enabled(s, ev) && Apply(s, ev) == s'
  }

  lemma Extend(ss: seq<State>, es: seq<Event>, ev: Event, s': State) returns (ss': seq<State>, es': seq<Event>)
    requires LinkedRun(ss, es) && Leads(ss[|es|], ev, s') && ByName(ss[|es|], ev)
    ensures LinkedRun(ss', es') && ss'[|es'|] == s'
  {
    hide Init, Enabled, Apply, ByName;
    ss', es' := ss + [s'], es + [ev];
  }

  /** A process finds inode 5 by name, */
  lemma FiveFound(ss: seq<State>, es: seq<Event>, a: Dinode) returns (ss': seq<State>, es': seq<Event>)
    requires a == Dinode(1, 1, 0, 0)
    requires LinkedRun(ss, es) && ss[|es|] == One(0, false, Nobody, a, a, map[], map[])
    ensures LinkedRun(ss', es') && ss'[|es'|] == One(1, false, Nobody, a, a, map[0 := Ref(0, 0, Idle)], map[])
  {
    assert Find([Entry(5, 0, false, Nobody, a)], 5, 0) == 1 && FindEmpty([Entry(5, 0, false, Nobody, a)], 0) == 0;
    hide LinkedRun;
    ss', es' := ss, es;
    ss', es' := Extend(ss', es', Lookup(0, 5), One(1, false, Nobody, a, a, map[0 := Ref(0, 0, Idle)], map[]));
  }

  /** locks it and drops its last link, */
  lemma FiveUnlinks(ss: seq<State>, es: seq<Event>, a: Dinode, b: Dinode) returns (ss': seq<State>, es': seq<Event>)
    requires a == Dinode(1, 1, 0, 0) && b == Dinode(1, 0, 0, 0)
    requires LinkedRun(ss, es) && ss[|es|] == One(1, false, Nobody, a, a, map[0 := Ref(0, 0, Idle)], map[])
    ensures LinkedRun(ss', es') && ss'[|es'|] == One(1, true, By(0), b, a, map[0 := Ref(0, 0, Ready)], map[])
  {
    hide LinkedRun;
    ss', es' := ss, es;
    ss', es' := Extend(ss', es', Lock(0), One(1, false, By(0), a, a, map[0 := Ref(0, 0, Locked)], map[]));
    ss', es' := Extend(ss', es', Load(0), One(1, true, By(0), a, a, map[0 := Ref(0, 0, Ready)], map[]));
    ss', es' := Extend(ss', es', Modify(0, b), One(1, true, By(0), b, a, map[0 := Ref(0, 0, Ready)], map[]));
  }

  /** writes that back and puts the inode, */
  lemma FivePuts(ss: seq<State>, es: seq<Event>, a: Dinode, b: Dinode) returns (ss': seq<State>, es': seq<Event>)
    requires a == Dinode(1, 1, 0, 0) && b == Dinode(1, 0, 0, 0)
    requires LinkedRun(ss, es) && ss[|es|] == One(1, true, By(0), b, a, map[0 := Ref(0, 0, Ready)], map[])
    ensures LinkedRun(ss', es') && ss'[|es'|] == One(1, true, By(0), b, b, map[0 := Ref(0, 0, Freeing)], map[])
  {
    hide LinkedRun;
    ss', es' := ss, es;
    ss', es' := Extend(ss', es', Update(0), One(1, true, By(0), b, b, map[0 := Ref(0, 0, Ready)], map[]));
    ss', es' := Extend(ss', es', Unlock(0), One(1, true, Nobody, b, b, map[0 := Ref(0, 0, Idle)], map[]));
    ss', es' := Extend(ss', es', Put(0), One(1, true, By(0), b, b, map[0 := Ref(0, 0, Freeing)], map[]));
  }

  /** frees it on disk, up to the point where only the count is left. */
  lemma FiveFrees(ss: seq<State>, es: seq<Event>, b: Dinode, c: Dinode, r: Ref) returns (ss': seq<State>, es': seq<Event>)
    requires b == Dinode(1, 0, 0, 0) && c == Dinode(0, 0, 0, 0) && r == Ref(0, 0, Released)
    requires LinkedRun(ss, es) && ss[|es|] == One(1, true, By(0), b, b, map[0 := Ref(0, 0, Freeing)], map[])
    ensures LinkedRun(ss', es') && ss'[|es'|] == One(1, false, Nobody, c, c, map[0 := r], map[])
  {
    hide LinkedRun;
    ss', es' := ss, es;
    ss', es' := Extend(ss', es', Zero(0), One(1, true, By(0), c, c, map[0 := Ref(0, 0, Zeroed)], map[]));
    ss', es' := Extend(ss', es', Invalidate(0), One(1, false, By(0), c, c, map[0 := Ref(0, 0, Invalid)], map[]));
    ss', es' := Extend(ss', es', Release(0), One(1, false, Nobody, c, c, map[0 := r], map[]));
  }

  /** Another process allocates inode 5 again, */
  lemma FiveReuses(ss: seq<State>, es: seq<Event>, c: Dinode, d: Dinode, r: Ref) returns (ss': seq<State>, es': seq<Event>)
    requires c == Dinode(0, 0, 0, 0) && d == Dinode(2, 0, 1, 0) && r == Ref(0, 0, Released)
    requires LinkedRun(ss, es) && ss[|es|] == One(1, false, Nobody, c, c, map[0 := r], map[])
    ensures LinkedRun(ss', es') && ss'[|es'|] == One(2, false, Nobody, c, d, map[0 := r, 1 := Ref(0, 1, Idle)], map[])
  {
    assert map[0 := 5] - {0} == map[];
    hide LinkedRun;
    ss', es' := ss, es;
    ss', es' := Extend(ss', es', Mark(0, 5, 2), One(1, false, Nobody, c, d, map[0 := r], map[0 := 5]));
    ss', es' := Extend(ss', es', GetMarked(0, 1), One(2, false, Nobody, c, d, map[0 := r, 1 := Ref(0, 1, Idle)], map[]));
  }

  /** locks and loads it, */
  lemma FiveLoads(ss: seq<State>, es: seq<Event>, c: Dinode, d: Dinode, r: Ref) returns (ss': seq<State>, es': seq<Event>)
    requires c == Dinode(0, 0, 0, 0) && d == Dinode(2, 0, 1, 0) && r == Ref(0, 0, Released)
    requires LinkedRun(ss, es) && ss[|es|] == One(2, false, Nobody, c, d, map[0 := r, 1 := Ref(0, 1, Idle)], map[])
    ensures LinkedRun(ss', es') && ss'[|es'|] == One(2, true, Nobody, d, d, map[0 := r, 1 := Ref(0, 1, Idle)], map[])
  {
    hide LinkedRun;
    ss', es' := ss, es;
    ss', es' := Extend(ss', es', Lock(1), One(2, false, By(1), c, d, map[0 := r, 1 := Ref(0, 1, Locked)], map[]));
    ss', es' := Extend(ss', es', Load(1), One(2, true, By(1), d, d, map[0 := r, 1 := Ref(0, 1, Ready)], map[]));
    ss', es' := Extend(ss', es', Unlock(1), One(2, true, Nobody, d, d, map[0 := r, 1 := Ref(0, 1, Idle)], map[]));
  }

  /** and gives it up without a link; then the first process drops its count. */
  lemma FiveGivesUp(ss: seq<State>, es: seq<Event>, d: Dinode, r: Ref) returns (ss': seq<State>, es': seq<Event>)
    requires d == Dinode(2, 0, 1, 0) && r == Ref(0, 0, Released)
    requires LinkedRun(ss, es) && ss[|es|] == One(2, true, Nobody, d, d, map[0 := r, 1 := Ref(0, 1, Idle)], map[])
    ensures LinkedRun(ss', es') && ss'[|es'|] == One(0, true, Nobody, d, d, map[], map[])
  {
    assert map[0 := r, 1 := Ref(0, 1, Idle)] - {1} == map[0 := r] && map[0 := r] - {0} == map[];
    hide LinkedRun;
    ss', es' := ss, es;
    ss', es' := Extend(ss', es', Put(1), One(1, true, Nobody, d, d, map[0 := r], map[]));
    ss', es' := Extend(ss', es', Drop(0), One(0, true, Nobody, d, d, map[], map[]));
  }

  /** There is a run that leaves an orphan, although every lookup was by name and every process put what it got. */
  lemma OrphanReachable() returns (ss: seq<State>, es: seq<Event>)
    ensures LinkedRun(ss, es) && ss[|es|].refs == map[] && Orphan(ss[|es|], 5)
  {
    var a, b, c, d, r := Dinode(1, 1, 0, 0), Dinode(1, 0, 0, 0), Dinode(0, 0, 0, 0), Dinode(2, 0, 1, 0), Ref(0, 0, Released);
    ss, es := [One(0, false, Nobody, a, a, map[], map[])], [];
    assert LinkedRun(ss, es);
    hide LinkedRun;
    ss, es := FiveFound(ss, es, a);
    ss, es := FiveUnlinks(ss, es, a, b);
    ss, es := FivePuts(ss, es, a, b);
    ss, es := FiveFrees(ss, es, b, c, r);
    ss, es := FiveReuses(ss, es, c, d, r);
    ss, es := FiveLoads(ss, es, c, d, r);
    ss, es := FiveGivesUp(ss, es, d, r);
  }

  /** One more step, however it looks things up. */
  lemma ExtendAny(ss: seq<State>, es: seq<Event>, ev: Event, s': State) returns (ss': seq<State>, es': seq<Event>)
    requires IsRun(ss, es) && Leads(ss[|es|], ev, s')
    ensures IsRun(ss', es') && ss'[|es'|] == s'
  {
    hide Init, Enabled, Apply;
    ss', es' := ss + [s'], es + [ev];
  }

  /** Inode 5 is free on disk while the iput that freed it still has its count, */
  lemma FiveFreed(c: Dinode, r: Ref) returns (ss: seq<State>, es: seq<Event>)
    requires c == Dinode(0, 0, 0, 0) && r == Ref(0, 0, Released)
    ensures LinkedRun(ss, es) && ss[|es|] == One(1, false, Nobody, c, c, map[0 := r], map[])
  {
    var a, b := Dinode(1, 1, 0, 0), Dinode(1, 0, 0, 0);
    ss, es := [One(0, false, Nobody, a, a, map[], map[])], [];
    assert LinkedRun(ss, es);
    hide LinkedRun;
    ss, es := FiveFound(ss, es, a);
    ss, es := FiveUnlinks(ss, es, a, b);
    ss, es := FivePuts(ss, es, a, b);
    ss, es := FiveFrees(ss, es, b, c, r);
  }

  /** and ".." of a directory that has been removed still leads to it. */
  lemma FiveStray(c: Dinode, r: Ref) returns (ss: seq<State>, es: seq<Event>)
    requires c == Dinode(0, 0, 0, 0) && r == Ref(0, 0, Released)
    ensures IsRun(ss, es) && ss[|es|] == One(2, false, Nobody, c, c, map[0 := r, 1 := Ref(0, 0, Idle)], map[])
  {
    ss, es := FiveFreed(c, r);
    assert Find([Entry(5, 1, false, Nobody, c)], 5, 0) == 0;
    hide IsRun;
    ss, es := ExtendAny(ss, es, Lookup(1, 5), One(2, false, Nobody, c, c, map[0 := r, 1 := Ref(0, 0, Idle)], map[]));
  }

  /** A lookup of ".." in a removed directory whose parent has been freed reaches the panic of ilock. */
  lemma PanicReachable() returns (ss: seq<State>, es: seq<Event>)
    ensures IsRun(ss, es) && Panics(ss[|es|], 1)
  {
    var c, r := Dinode(0, 0, 0, 0), Ref(0, 0, Released);
    ss, es := FiveStray(c, r);
    hide IsRun;
    ss, es := ExtendAny(ss, es, Lock(1), One(2, false, By(1), c, c, map[0 := r, 1 := Ref(0, 0, Locked)], map[]));
  }

  /** And if ialloc takes the number first, the process works on a file other than the one it looked up. */
  lemma OtherFileReachable() returns (ss: seq<State>, es: seq<Event>)
    ensures IsRun(ss, es) && Has(ss[|es|], 1, Ready) && EntryOf(ss[|es|], 1).mem.gen != ss[|es|].refs[1].gen
  {
    var c, d, r := Dinode(0, 0, 0, 0), Dinode(2, 0, 1, 0), Ref(0, 0, Released);
    ss, es := FiveStray(c, r);
    hide IsRun;
    ss, es := ExtendAny(ss, es, Mark(0, 5, 2), One(2, false, Nobody, c, d, map[0 := r, 1 := Ref(0, 0, Idle)], map[0 := 5]));
    ss, es := ExtendAny(ss, es, Lock(1), One(2, false, By(1), c, d, map[0 := r, 1 := Ref(0, 0, Locked)], map[0 := 5]));
    ss, es := ExtendAny(ss, es, Load(1), One(2, true, By(1), d, d, map[0 := r, 1 := Ref(0, 0, Ready)], map[0 := 5]));
  }
}
