/** The copies of the software transactional memory cell of lualib-src/lua-stm.c, on top of the
    reader/writer lock. Any number of threads read, update, delete their reader or retire the cell;
    every atomic operation and every access to the shared pointer is one step. */
module Stm {
  import opened RwLock

  datatype Option<T> = None | Some(value: T)

  type CopyId = nat

  /** What a thread is doing with the cell. */
  datatype Act =
    | Idle
    | Reading                        // stm_copy: getting the read lock, then about to load the pointer
    | Loaded(ret: Option<CopyId>)    // stm_copy: pointer loaded, reference not yet taken
    | GotIn(ret: Option<CopyId>)     // stm_copy: reference taken, still inside
    | GotOut(ret: Option<CopyId>)    // lread: lock released
    | Updating(copy: CopyId)         // stm_update: new copy made, getting the write lock
    | Replacing(copy: CopyId, prev: Option<CopyId>) // stm_update: pointer loaded, about to change it
    | Swapped(prev: Option<CopyId>)  // stm_update: pointer changed, old copy to be released
    | Retiring                       // stm_release: getting the write lock
    | RetireGot(ret: Option<CopyId>) // stm_release: pointer loaded, about to drop its reference
    | RetireFree(c: CopyId)          // stm_release: last reference dropped, about to free
    | RetireNull                     // stm_release: about to clear the pointer
    | RetireDone                     // stm_release: about to unlock
    | Freeing(c: CopyId)             // stm_releasecopy: last reference dropped, about to free

  /** A thread and the `lastcopy` of its reader. */
  datatype Thread = Thread(act: Act, last: Option<CopyId>)

  /** The cell: the lock, the pointer, the reference counts of all copies ever made, the freed ones. */
  datatype Cell = Cell(lock: Lock, threads: seq<Thread>, obj: Option<CopyId>, refs: map<CopyId, int>, freed: set<CopyId>)

  function With(s: Cell, t: nat, act: Act): Cell
    requires t < |s.threads|
  {
    s.(threads := s.threads[t := s.threads[t].(act := act)])
  }

  ghost predicate Init(s: Cell) {
    && RwLock.Init(s.lock)
    && |s.lock.pcs| == |s.threads|
    && (forall t :: 0 <= t < |s.threads| ==> s.threads[t] == Thread(Idle, None))
    && s.obj == Some(0) && s.refs == map[0 := 1] && s.freed == {}
  }

  /** `ATOM_FDEC` in `stm_releasecopy`, and what the thread does next: free the copy if the count was at
      most one, else go on; `retire` tells the call in `stm_release` from the others. */
  function Release(s: Cell, t: nat, c: Option<CopyId>, retire: bool): Cell
    requires t < |s.threads|
  {
    var next := if retire then RetireNull else Idle;
    if c.None? || c.value !in s.refs then With(s, t, next)
    else
      var free := if retire then RetireFree(c.value) else Freeing(c.value);
      With(s, t, if s.refs[c.value] <= 1 then free else next).(refs := s.refs[c.value := s.refs[c.value] - 1])
  }

  /** A step inside the lock: `Act` does not change, or changes as the lock is left. */
  ghost predicate LockStep(v: Cas, s: Cell, t: nat, s': Cell) {
    && t < |s.threads| == |s.lock.pcs|
    && Next(v, s.lock, t, s'.lock)
    && var pc, pc', act := s.lock.pcs[t], s'.lock.pcs[t], s.threads[t].act;
       match pc
       case Out => ((pc'.RSpin? && act.Reading?) || (pc'.WSpin? && (act.Updating? || act.Retiring?)))
                   && s' == s.(lock := s'.lock)
       case RIn => act.GotIn? && s' == With(s, t, GotOut(act.ret)).(lock := s'.lock)
       case WIn => || (act.Swapped? && s' == s.(lock := s'.lock))
                   || (act.RetireDone? && s' == With(s, t, Idle).(lock := s'.lock))
       case _ => s' == s.(lock := s'.lock)
  }

  /** A step on the cell. */
  ghost predicate CellStep(s: Cell, t: nat, s': Cell) {
    && t < |s.threads| == |s.lock.pcs|
    && var pc, act, last := s.lock.pcs[t], s.threads[t].act, s.threads[t].last;
       match act
       case Idle =>
         || s' == With(s, t, Reading)
         || s' == With(s, t, Retiring)
         || (exists c :: c !in s.refs && s' == With(s, t, Updating(c)).(refs := s.refs[c := 1]))
         || s' == Release(SetLast(s, t, None), t, last, false)
       case Reading => pc.RIn? && s' == With(s, t, Loaded(s.obj))
       case Loaded(ret) =>
         s' == With(s, t, GotIn(ret))
               .(refs := if ret.Some? && ret.value in s.refs then s.refs[ret.value := s.refs[ret.value] + 1] else s.refs)
       case GotIn(_) => false
       case GotOut(ret) =>
         if ret == last then s' == Release(s, t, ret, false)
         else s' == Release(SetLast(s, t, ret), t, last, false)
       case Updating(c) => pc.WIn? && s' == With(s, t, Replacing(c, s.obj))
       case Replacing(c, prev) => s' == With(s, t, Swapped(prev)).(obj := Some(c))
       case Swapped(prev) => pc.Out? && s' == Release(s, t, prev, false)
       case Retiring => pc.WIn? && s' == With(s, t, RetireGot(s.obj))
       case RetireGot(ret) => s' == Release(s, t, ret, true)
       case RetireFree(c) => s' == With(s, t, RetireNull).(freed := s.freed + {c})
       case RetireNull => s' == With(s, t, RetireDone).(obj := None)
       case RetireDone => false
       case Freeing(c) => s' == With(s, t, Idle).(freed := s.freed + {c})
  }

  function SetLast(s: Cell, t: nat, last: Option<CopyId>): Cell
    requires t < |s.threads|
  {
    s.(threads := s.threads[t := s.threads[t].(last := last)])
  }

  ghost predicate StmNext(v: Cas, s: Cell, t: nat, s': Cell) {
    LockStep(v, s, t, s') || CellStep(s, t, s')
  }

  // ---------------------------------------------------------------------------
  // Who holds a copy
  // ---------------------------------------------------------------------------

  function One(x: Option<CopyId>, c: CopyId): nat {
    if x == Some(c) then 1 else 0
  }

  /** References to `c` that a thread has taken and not yet dropped. */
  function Holds(th: Thread, c: CopyId): nat {
    One(th.last, c)
    + match th.act
      case GotIn(ret) => One(ret, c)
      case GotOut(ret) => One(ret, c)
      case Updating(copy) => One(Some(copy), c)
      case Replacing(copy, _) => One(Some(copy), c)
      case Swapped(prev) => One(prev, c)
      case _ => 0
  }

  /** Is the thread about to free `c`? */
  function Frees(th: Thread, c: CopyId): nat {
    if th.act == Freeing(c) || th.act == RetireFree(c) then 1 else 0
  }

  /** Has the thread dropped the reference of the pointer without clearing the pointer yet? */
  function Drops(th: Thread): nat {
    if th.act.RetireFree? || th.act.RetireNull? then 1 else 0
  }

  /** What is added up over the threads. */
  datatype Measure = MHolds(c: CopyId) | MFrees(c: CopyId) | MDrops

  function Value(m: Measure, th: Thread): nat {
    match m
    case MHolds(c) => Holds(th, c)
    case MFrees(c) => Frees(th, c)
    case MDrops => Drops(th)
  }

  function Sum(threads: seq<Thread>, m: Measure): nat {
    if threads == [] then 0 else Sum(threads[..|threads| - 1], m) + Value(m, threads[|threads| - 1])
  }

  lemma {:induction false} SumUpdate(threads: seq<Thread>, m: Measure, t: nat, th: Thread)
    requires t < |threads|
    ensures Sum(threads[t := th], m) == Sum(threads, m) - Value(m, threads[t]) + Value(m, th)
    ensures Sum(threads, m) >= Value(m, threads[t])
  {
    var n := |threads| - 1;
    if t < n {
      assert threads[t := th][..n] == threads[..n][t := th];
      SumUpdate(threads[..n], m, t, th);
    } else {
      assert threads[t := th][..n] == threads[..n];
    }
  }

  lemma {:induction false} SumZero(threads: seq<Thread>, m: Measure)
    requires forall t :: 0 <= t < |threads| ==> Value(m, threads[t]) == 0
    ensures Sum(threads, m) == 0
  {
    if threads != [] {
      assert forall t :: 0 <= t < |threads| - 1 ==> threads[..|threads| - 1][t] == threads[t];
      SumZero(threads[..|threads| - 1], m);
    }
  }

  /** All references to `c`: the threads' and that of the shared pointer. */
  function Holders(s: Cell, c: CopyId): int {
    Sum(s.threads, MHolds(c)) + if Sum(s.threads, MDrops) == 0 then One(s.obj, c) else 0
  }

  /** How many threads are about to free `c`. */
  function Pending(s: Cell, c: CopyId): nat {
    Sum(s.threads, MFrees(c))
  }

  // ---------------------------------------------------------------------------
  // The invariant
  // ---------------------------------------------------------------------------

  /** Where in the lock an action may be. */
  predicate Fits(pc: Pc, act: Act) {
    match act
    case Reading => pc.Out? || pc.RSpin? || pc.RInc? || pc.RCheck? || pc.RDec? || pc.RIn?
    case Loaded(_) => pc.RIn?
    case GotIn(_) => pc.RIn?
    case Updating(_) => pc.Out? || pc.WSpin? || pc.WWait? || pc.WIn?
    case Replacing(_, _) => pc.WIn?
    case Swapped(_) => pc.Out? || pc.WIn?
    case Retiring => pc.Out? || pc.WSpin? || pc.WWait? || pc.WIn?
    case RetireGot(_) => pc.WIn?
    case RetireFree(_) => pc.WIn?
    case RetireNull => pc.WIn?
    case RetireDone => pc.WIn?
    case _ => pc.Out?
  }

  /** Does the thread rely on the pointer that it has loaded? */
  predicate Relies(act: Act) { act.Loaded? || act.Replacing? || act.RetireGot? }

  function Loads(act: Act): Option<CopyId>
    requires Relies(act)
  {
    if act.Replacing? then act.prev else act.ret
  }

  /** The count of a copy is the number of its holders; at zero exactly one thread is about to free it;
      a freed copy has no holders and nobody will free it again. */
  ghost predicate CopyOk(s: Cell, c: CopyId) {
    && (c !in s.refs ==> Holders(s, c) == 0 && Pending(s, c) == 0 && c !in s.freed)
    && (c in s.refs ==> s.refs[c] == Holders(s, c))
    && (c in s.refs ==> Pending(s, c) == if s.refs[c] == 0 && c !in s.freed then 1 else 0)
    && (c in s.freed ==> c in s.refs && s.refs[c] == 0)
  }

  ghost predicate StmInv(s: Cell) {
    && RwLock.Inv(s.lock)
    && |s.lock.pcs| == |s.threads|
    && (forall t :: 0 <= t < |s.threads| ==> Fits(s.lock.pcs[t], s.threads[t].act))
    && (forall t :: 0 <= t < |s.threads| && Relies(s.threads[t].act) ==> Loads(s.threads[t].act) == s.obj)
    && (forall c: CopyId :: CopyOk(s, c))
  }

  lemma {:induction false} StmInitInv(s: Cell)
    requires Init(s)
    ensures StmInv(s)
  {
    RwLock.InitInv(s.lock);
    SumZero(s.threads, MDrops);
    forall c: CopyId
      ensures CopyOk(s, c)
    {
      SumZero(s.threads, MHolds(c));
      SumZero(s.threads, MFrees(c));
    }
  }

  /** The sums after a step of thread `t`. */
  lemma SumsAfter(s: Cell, t: nat, th: Thread, c: CopyId)
    requires t < |s.threads|
    ensures var ths := s.threads[t := th];
            && Sum(ths, MHolds(c)) == Sum(s.threads, MHolds(c)) - Holds(s.threads[t], c) + Holds(th, c)
            && Sum(ths, MFrees(c)) == Sum(s.threads, MFrees(c)) - Frees(s.threads[t], c) + Frees(th, c)
            && Sum(ths, MDrops) == Sum(s.threads, MDrops) - Drops(s.threads[t]) + Drops(th)
    ensures Sum(s.threads, MHolds(c)) >= Holds(s.threads[t], c)
    ensures Sum(s.threads, MFrees(c)) >= Frees(s.threads[t], c)
    ensures Sum(s.threads, MDrops) >= Drops(s.threads[t])
  {
    SumUpdate(s.threads, MHolds(c), t, th);
    SumUpdate(s.threads, MFrees(c), t, th);
    SumUpdate(s.threads, MDrops, t, th);
  }

  /** A writer inside is alone: nobody else relies on the pointer or is dropping its reference. */
  lemma WriterAlone(s: Cell, t: nat)
    requires StmInv(s) && t < |s.threads| && s.lock.pcs[t].WIn?
    ensures forall u :: 0 <= u < |s.threads| && u != t ==> !Relies(s.threads[u].act) && Drops(s.threads[u]) == 0
    ensures Sum(s.threads, MDrops) == Drops(s.threads[t])
  {
    forall u | 0 <= u < |s.threads| && u != t
      ensures !Relies(s.threads[u].act) && Drops(s.threads[u]) == 0
    {
      assert Fits(s.lock.pcs[u], s.threads[u].act);
    }
    var rest := s.threads[t := Thread(Idle, None)];
    SumUpdate(s.threads, MDrops, t, Thread(Idle, None));
    SumZero(rest, MDrops);
  }

  /** A reader inside keeps writers out, so the pointer's reference is there. */
  lemma ReaderKeepsPointer(s: Cell, t: nat)
    requires StmInv(s) && t < |s.threads| && s.lock.pcs[t].RIn?
    ensures Sum(s.threads, MDrops) == 0
  {
    forall u | 0 <= u < |s.threads|
      ensures Drops(s.threads[u]) == 0
    {
      assert Fits(s.lock.pcs[u], s.threads[u].act);
      assert Fits(s.lock.pcs[t], s.threads[t].act);
    }
    SumZero(s.threads, MDrops);
  }

  /** What `StmInv` says of one thread. */
  ghost predicate ThreadOk(s: Cell, u: nat)
    requires u < |s.threads| == |s.lock.pcs|
  {
    var act := s.threads[u].act;
    Fits(s.lock.pcs[u], act) && (Relies(act) ==> Loads(act) == s.obj)
  }

  lemma LockThreadOk(v: Cas, s: Cell, t: nat, s': Cell, u: nat)
    requires StmInv(s) && LockStep(v, s, t, s') && u < |s.threads|
    ensures |s'.threads| == |s'.lock.pcs| == |s.threads| && ThreadOk(s', u)
  {
    hide CopyOk, RwLock.Inv;
  }

  /** Entering, waiting and leaving moves no reference. */
  lemma LockKeeps(v: Cas, s: Cell, t: nat, s': Cell, c: CopyId)
    requires LockStep(v, s, t, s')
    ensures |s'.threads| == |s.threads| && s'.threads == s.threads[t := s'.threads[t]]
    ensures Holds(s'.threads[t], c) == Holds(s.threads[t], c) && Frees(s'.threads[t], c) == Frees(s.threads[t], c)
    ensures Drops(s'.threads[t]) == Drops(s.threads[t])
    ensures s'.obj == s.obj && s'.refs == s.refs && s'.freed == s.freed
  {
    hide Next;
  }

  lemma LockCopyOk(v: Cas, s: Cell, t: nat, s': Cell, c: CopyId)
    requires StmInv(s) && LockStep(v, s, t, s')
    ensures CopyOk(s', c)
  {
    LockKeeps(v, s, t, s', c);
    assert CopyOk(s, c);
    SumsAfter(s, t, s'.threads[t], c);
    hide StmInv, Sum, LockStep, Holds, Frees, Drops;
  }

  lemma LockStepInv(v: Cas, s: Cell, t: nat, s': Cell)
    requires StmInv(s) && LockStep(v, s, t, s') && !Steals(s.lock, t, s'.lock)
    ensures StmInv(s')
  {
    NextInv(v, s.lock, t, s'.lock);
    forall c: CopyId ensures CopyOk(s', c) { LockCopyOk(v, s, t, s', c); }
    hide CopyOk, RwLock.Inv, LockStep;
    forall u | 0 <= u < |s.threads| ensures |s'.threads| == |s'.lock.pcs| == |s.threads| && ThreadOk(s', u) {
      LockThreadOk(v, s, t, s', u);
    }
    LockThreadOk(v, s, t, s', t);
    hide Fits, Relies, Loads;
  }

  /** The facts that each case below starts from. */
  lemma StepFacts(s: Cell, t: nat, s': Cell, c: CopyId)
    requires StmInv(s) && CellStep(s, t, s')
    ensures Fits(s.lock.pcs[t], s.threads[t].act) && CopyOk(s, c)
    ensures s'.threads == s.threads[t := s'.threads[t]]
    ensures s.lock.pcs[t].WIn? ==> Sum(s.threads, MDrops) == Drops(s.threads[t])
    ensures s.lock.pcs[t].RIn? ==> Sum(s.threads, MDrops) == 0
  {
    if s.lock.pcs[t].WIn? { WriterAlone(s, t); }
    if s.lock.pcs[t].RIn? { ReaderKeepsPointer(s, t); }
  }

  predicate Takes(act: Act) {
    act.Reading? || act.Loaded? || act.Updating? || act.Replacing? || act.Retiring? || act.RetireNull?
  }

  /** Steps that take or pass on references. */
  lemma TakeCopyOk(s: Cell, t: nat, s': Cell, c: CopyId)
    requires StmInv(s) && CellStep(s, t, s')
    requires Takes(s.threads[t].act)
    ensures CopyOk(s', c)
  {
    StepFacts(s, t, s', c);
    SumsAfter(s, t, s'.threads[t], c);
    hide Sum, StmInv, Fits;
  }

  /** Steps that drop references. */
  lemma DropCopyOk(s: Cell, t: nat, s': Cell, c: CopyId)
    requires StmInv(s) && CellStep(s, t, s') && s.threads[t].act.Swapped?
    ensures CopyOk(s', c)
  {
    StepFacts(s, t, s', c);
    SumsAfter(s, t, s'.threads[t], c);
    assert s' == Release(s, t, s.threads[t].act.prev, false);
    hide Sum, StmInv, Fits, CellStep;
  }

  lemma RetireCopyOk(s: Cell, t: nat, s': Cell, c: CopyId)
    requires StmInv(s) && CellStep(s, t, s') && s.threads[t].act.RetireGot?
    ensures CopyOk(s', c)
  {
    StepFacts(s, t, s', c);
    SumsAfter(s, t, s'.threads[t], c);
    assert ThreadOk(s, t) && s' == Release(s, t, s.threads[t].act.ret, true);
    hide Sum, StmInv, Fits, CellStep;
  }

  lemma CompareCopyOk(s: Cell, t: nat, s': Cell, c: CopyId)
    requires StmInv(s) && CellStep(s, t, s') && s.threads[t].act.GotOut?
    ensures CopyOk(s', c)
  {
    StepFacts(s, t, s', c);
    SumsAfter(s, t, s'.threads[t], c);
    hide Sum, StmInv, Fits;
  }

  /** The start of an operation; deleting a reader drops its last copy. */
  lemma IdleCopyOk(s: Cell, t: nat, s': Cell, c: CopyId)
    requires StmInv(s) && CellStep(s, t, s') && s.threads[t].act.Idle?
    ensures CopyOk(s', c)
  {
    StepFacts(s, t, s', c);
    SumsAfter(s, t, s'.threads[t], c);
    var last := s.threads[t].last;
    if s' == Release(SetLast(s, t, None), t, last, false) {
      hide Sum, StmInv, Fits, CellStep;
    } else {
      hide Sum, StmInv, Fits, Release;
    }
  }

  lemma FreeCopyOk(s: Cell, t: nat, s': Cell, c: CopyId)
    requires StmInv(s) && CellStep(s, t, s') && (s.threads[t].act.Freeing? || s.threads[t].act.RetireFree?)
    ensures CopyOk(s', c)
  {
    StepFacts(s, t, s', c);
    SumsAfter(s, t, s'.threads[t], c);
    hide Sum, StmInv, Fits;
  }

  lemma CellStepCopyOk(s: Cell, t: nat, s': Cell, c: CopyId)
    requires StmInv(s) && CellStep(s, t, s')
    ensures CopyOk(s', c)
  {
    var act := s.threads[t].act;
    if Takes(act) {
      TakeCopyOk(s, t, s', c);
    } else if act.Swapped? {
      DropCopyOk(s, t, s', c);
    } else if act.RetireGot? {
      RetireCopyOk(s, t, s', c);
    } else if act.GotOut? {
      CompareCopyOk(s, t, s', c);
    } else if act.Idle? {
      IdleCopyOk(s, t, s', c);
    } else {
      FreeCopyOk(s, t, s', c);
    }
  }

  lemma CellThreadOk(s: Cell, t: nat, s': Cell, u: nat)
    requires StmInv(s) && CellStep(s, t, s') && u < |s.threads|
    ensures s'.lock == s.lock && |s'.threads| == |s.threads| && ThreadOk(s', u)
  {
    assert ThreadOk(s, t) && ThreadOk(s, u);
    if u == t {
      hide StmInv;
    } else {
      assert s'.obj == s.obj || s.lock.pcs[t].WIn?;
      assert s'.threads[u] == s.threads[u] && s'.lock == s.lock;
      if s.lock.pcs[t].WIn? { WriterAlone(s, t); }
      hide StmInv, CellStep, Fits;
    }
  }

  lemma CellStepInv(s: Cell, t: nat, s': Cell)
    requires StmInv(s) && CellStep(s, t, s')
    ensures StmInv(s')
  {
    forall c: CopyId ensures CopyOk(s', c) { CellStepCopyOk(s, t, s', c); }
    hide CopyOk, RwLock.Inv, CellStep;
    forall u | 0 <= u < |s.threads| ensures s'.lock == s.lock && |s'.threads| == |s.threads| && ThreadOk(s', u) {
      CellThreadOk(s, t, s', u);
    }
    CellThreadOk(s, t, s', t);
    hide Fits, Relies, Loads;
  }

  /** Every step but one that steals the lock keeps the invariant. */
  lemma StmNextInv(v: Cas, s: Cell, t: nat, s': Cell)
    requires StmInv(s) && StmNext(v, s, t, s') && !Steals(s.lock, t, s'.lock)
    ensures StmInv(s')
  {
    if LockStep(v, s, t, s') { LockStepInv(v, s, t, s'); } else { CellStepInv(s, t, s'); }
  }

  // ---------------------------------------------------------------------------
  // What this means for the copies
  // ---------------------------------------------------------------------------

  /** A copy that a thread holds, or that it has loaded and is about to take a reference to, is alive:
      it is not freed and its count is positive. */
  lemma HeldIsAlive(s: Cell, t: nat, c: CopyId)
    requires StmInv(s) && t < |s.threads|
    requires Holds(s.threads[t], c) > 0 || s.threads[t].act == Loaded(Some(c))
    ensures c in s.refs && c !in s.freed && s.refs[c] >= 1
  {
    assert CopyOk(s, c);
    SumUpdate(s.threads, MHolds(c), t, Thread(Idle, None));
    if s.threads[t].act == Loaded(Some(c)) {
      assert Fits(s.lock.pcs[t], s.threads[t].act);
      ReaderKeepsPointer(s, t);
    }
  }

  /** A copy is freed only when nobody holds it, and only once. */
  lemma FreedOnce(v: Cas, s: Cell, t: nat, s': Cell, c: CopyId)
    requires StmInv(s) && StmNext(v, s, t, s') && c in s'.freed && c !in s.freed
    ensures Holders(s, c) == 0 && Pending(s, c) == 1 && Pending(s', c) == 0
  {
    StmNextInv(v, s, t, s');
    assert CopyOk(s, c) && CopyOk(s', c);
    assert Frees(s.threads[t], c) == 1;
    SumUpdate(s.threads, MFrees(c), t, Thread(Idle, None));
  }

  /** A copy is not forgotten: it is freed, held, or about to be freed by exactly one thread. */
  lemma NotLeaked(s: Cell, c: CopyId)
    requires StmInv(s) && c in s.refs && c !in s.freed
    ensures Holders(s, c) > 0 || Pending(s, c) == 1
  {
    assert CopyOk(s, c);
  }

  // ---------------------------------------------------------------------------
  // Runs
  // ---------------------------------------------------------------------------

  ghost predicate IsStmRun(v: Cas, run: seq<Cell>, threads: seq<nat>) {
    && |run| == |threads| + 1
    && Init(run[0])
    && forall k :: 0 <= k < |threads| ==> StmNext(v, run[k], threads[k], run[k + 1])
  }

  ghost predicate NeverStolen(run: seq<Cell>, threads: seq<nat>, k: nat)
    requires |run| == |threads| + 1 && k < |run|
  {
    forall j :: 0 <= j < k ==> !Steals(run[j].lock, threads[j], run[j + 1].lock)
  }

  /** In every run, all of this has held so far if and only if the lock was never stolen; what is freed
      stays freed in any case. */
  lemma {:induction false} StmRunSafe(v: Cas, run: seq<Cell>, threads: seq<nat>, k: nat)
    requires IsStmRun(v, run, threads) && k < |run|
    ensures NeverStolen(run, threads, k) <==> forall j :: 0 <= j <= k ==> StmInv(run[j])
    ensures NeverStolen(run, threads, k) ==> forall j :: 0 <= j <= k ==> Exclusive(run[j].lock)
    ensures forall i, j :: 0 <= i <= j <= k ==> run[i].freed <= run[j].freed
  {
    forall i, j | 0 <= i <= j <= k ensures run[i].freed <= run[j].freed { FreedStays(v, run, threads, i, j); }
    StmInitInv(run[0]);
    hide StmInv, StmNext, Steals, Exclusive;
    for n := 0 to k
      invariant forall j :: 0 <= j <= n ==> StmInv(run[j])
      invariant NeverStolen(run, threads, n)
    {
      if Steals(run[n].lock, threads[n], run[n + 1].lock) {
        StolenBreaks(v, run[n], threads[n], run[n + 1]);
        return;
      }
      StmNextInv(v, run[n], threads[n], run[n + 1]);
    }
    StmExclusive(run, k);
  }

  lemma StmExclusive(run: seq<Cell>, k: nat)
    requires k < |run| && forall j :: 0 <= j <= k ==> StmInv(run[j])
    ensures forall j :: 0 <= j <= k ==> Exclusive(run[j].lock)
  {
  }

  lemma StolenBreaks(v: Cas, s: Cell, t: nat, s': Cell)
    requires StmInv(s) && StmNext(v, s, t, s') && Steals(s.lock, t, s'.lock)
    ensures !StmInv(s')
  {
    StealMakesTwo(v, s.lock, t, s'.lock);
    if RwLock.Inv(s'.lock) { InvOneOwner(s'.lock); }
  }

  lemma {:induction false} FreedStays(v: Cas, run: seq<Cell>, threads: seq<nat>, i: nat, j: nat)
    requires IsStmRun(v, run, threads) && i <= j < |run|
    ensures run[i].freed <= run[j].freed
  {
    if i < j {
      FreedStays(v, run, threads, i, j - 1);
      assert StmNext(v, run[j - 1], threads[j - 1], run[j - 1 + 1]);
      FreedGrows(v, run[j - 1], threads[j - 1], run[j]);
      hide IsStmRun, StmNext;
    }
  }

  lemma FreedGrows(v: Cas, s: Cell, t: nat, s': Cell)
    requires StmNext(v, s, t, s')
    ensures s.freed <= s'.freed
  {
  }

  /** Is the thread in `stm_update` or in `stm_release`? */
  predicate Updates(act: Act) {
    act.Updating? || act.Replacing? || act.Swapped? || act.Retiring? || act.RetireGot? || act.RetireFree?
    || act.RetireNull? || act.RetireDone?
  }

  ghost predicate UpdatesApart(s: Cell) {
    forall t, u :: 0 <= t < |s.threads| && 0 <= u < |s.threads| && t != u && Updates(s.threads[t].act) ==>
      !Updates(s.threads[u].act)
  }

  /** Where updates and the release do not overlap, nobody can steal the lock. */
  lemma UpdatesDoNotSteal(s: Cell, t: nat, l': Lock)
    requires StmInv(s) && UpdatesApart(s)
    ensures !Steals(s.lock, t, l')
  {
    forall u | 0 <= u < |s.threads| && Writing(s.lock.pcs[u]) ensures Updates(s.threads[u].act) {
      assert Fits(s.lock.pcs[u], s.threads[u].act);
    }
    hide Fits, Updates;
    if Steals(s.lock, t, l') { var u := Robbed(s.lock, t); }
  }

  /** So the counts are exact in every run in which one thread at a time updates or releases the cell, as
      the one writer object of a cell does it. */
  lemma {:induction false} ApartSafe(v: Cas, run: seq<Cell>, threads: seq<nat>)
    requires IsStmRun(v, run, threads) && forall j :: 0 <= j < |run| ==> UpdatesApart(run[j])
    ensures forall j :: 0 <= j < |run| ==> StmInv(run[j]) && Exclusive(run[j].lock)
  {
    hide StmInv, StmNext, Steals, Exclusive, UpdatesApart;
    assert NeverStolen(run, threads, 0);
    for n := 0 to |threads|
      invariant NeverStolen(run, threads, n)
    {
      StmRunSafe(v, run, threads, n);
      UpdatesDoNotSteal(run[n], threads[n], run[n + 1].lock);
    }
    StmRunSafe(v, run, threads, |threads|);
  }

  /** And in every run without C11 atomics. */
  lemma {:induction false} SyncSafe(run: seq<Cell>, threads: seq<nat>)
    requires IsStmRun(Sync, run, threads)
    ensures forall j :: 0 <= j < |run| ==> StmInv(run[j]) && Exclusive(run[j].lock)
  {
    hide StmInv, Steals, Exclusive, Next, Release;
    for n := 0 to |threads|
      invariant forall j :: 0 <= j <= n ==> Clears(Sync, run[j].lock)
      invariant NeverStolen(run, threads, n)
    {
      SyncStep(run[n], threads[n], run[n + 1]);
    }
    StmRunSafe(Sync, run, threads, |threads|);
  }

  lemma SyncStep(s: Cell, t: nat, s': Cell)
    requires StmNext(Sync, s, t, s') && Clears(Sync, s.lock)
    ensures Clears(Sync, s'.lock) && !Steals(s.lock, t, s'.lock)
  {
    if LockStep(Sync, s, t, s') {
      NextClears(Sync, s.lock, t, s'.lock);
    } else {
      assert s'.lock == s.lock;
    }
  }

  // ---------------------------------------------------------------------------
  // Two updates at the same time
  // ---------------------------------------------------------------------------

  lemma GoCell(run: seq<Cell>, threads: seq<nat>, t: nat, s: Cell)
    returns (longer: seq<Cell>, more: seq<nat>)
    requires IsStmRun(Weak, run, threads) && CellStep(run[|threads|], t, s)
    ensures IsStmRun(Weak, longer, more) && longer == run + [s] && |more| == |threads| + 1
  {
    hide CellStep, LockStep;
    longer, more := run + [s], threads + [t];
  }

  lemma GoLock(run: seq<Cell>, threads: seq<nat>, t: nat, l: Lock)
    returns (longer: seq<Cell>, more: seq<nat>)
    requires IsStmRun(Weak, run, threads) && LockStep(Weak, run[|threads|], t, run[|threads|].(lock := l))
    ensures IsStmRun(Weak, longer, more) && longer == run + [run[|threads|].(lock := l)] && |more| == |threads| + 1
  {
    hide CellStep, LockStep;
    longer, more := run + [run[|threads|].(lock := l)], threads + [t];
  }

  /** Two threads are about to update, and the lock is free. */
  lemma BothStart() returns (run: seq<Cell>, threads: seq<nat>)
    ensures IsStmRun(Weak, run, threads) && |run| == |threads| + 1
    ensures run[|threads|] == Cell(Lock(0, 0, [Out, Out]), [Thread(Updating(1), None), Thread(Updating(2), None)],
                                   Some(0), map[0 := 1, 1 := 1, 2 := 1], {})
  {
    var s := Cell(Lock(0, 0, [Out, Out]), [Thread(Idle, None), Thread(Idle, None)], Some(0), map[0 := 1], {});
    run, threads := [s], [];
    assert IsStmRun(Weak, run, threads);
    hide IsStmRun;
    var s1 := With(s, 0, Updating(1)).(refs := s.refs[1 := 1]);
    assert 1 !in s.refs && 2 !in s1.refs;
    run, threads := GoCell(run, threads, 0, s1);
    run, threads := GoCell(run, threads, 1, With(s1, 1, Updating(2)).(refs := s1.refs[2 := 1]));
  }

  /** Both get past the write lock. */
  lemma BothInside(run: seq<Cell>, threads: seq<nat>) returns (longer: seq<Cell>, more: seq<nat>)
    requires IsStmRun(Weak, run, threads)
    requires var s := run[|threads|]; s.lock == Lock(0, 0, [Out, Out]) && |s.threads| == 2
    requires run[|threads|].threads[0].act.Updating? && run[|threads|].threads[1].act.Updating?
    ensures IsStmRun(Weak, longer, more) && |longer| == |more| + 1
    ensures longer[|more|] == run[|threads|].(lock := Lock(1, 0, [WIn, WIn]))
  {
    assert |run| == |threads| + 1;
    hide IsStmRun;
    longer, more := GoLock(run, threads, 0, At(Lock(0, 0, [Out, Out]), 0, WSpin(0)));
    longer, more := GoLock(longer, more, 0, Lock(1, 0, [Out, Out][0 := WSpin(0)][0 := WWait]));
    longer, more := GoLock(longer, more, 0, At(Lock(1, 0, [WWait, Out]), 0, WIn));
    longer, more := GoLock(longer, more, 1, At(Lock(1, 0, [WIn, Out]), 1, WSpin(0)));
    longer, more := GoLock(longer, more, 1, At(Lock(1, 0, [WIn, WSpin(0)]), 1, WSpin(1)));
    longer, more := GoLock(longer, more, 1, At(Lock(1, 0, [WIn, WSpin(1)]), 1, WWait));
    longer, more := GoLock(longer, more, 1, At(Lock(1, 0, [WIn, WWait]), 1, WIn));
  }

  /** Both load the pointer before either changes it, and so both have the same copy to release. */
  lemma BothReplace() returns (run: seq<Cell>, threads: seq<nat>)
    ensures IsStmRun(Weak, run, threads) && |run| == |threads| + 1
    ensures run[|threads|] == Cell(Lock(0, 0, [Out, Out]),
                                   [Thread(Swapped(Some(0)), None), Thread(Swapped(Some(0)), None)],
                                   Some(2), map[0 := 1, 1 := 1, 2 := 1], {})
  {
    run, threads := BothStart();
    hide IsStmRun;
    run, threads := BothInside(run, threads);
    var s := run[|threads|];
    var s1 := With(s, 0, Replacing(1, Some(0)));
    var s2 := With(s1, 1, Replacing(2, Some(0)));
    var s3 := With(s2, 0, Swapped(Some(0))).(obj := Some(1));
    run, threads := GoCell(run, threads, 0, s1);
    run, threads := GoCell(run, threads, 1, s2);
    run, threads := GoCell(run, threads, 0, s3);
    run, threads := GoCell(run, threads, 1, With(s3, 1, Swapped(Some(0))).(obj := Some(2)));
    run, threads := GoLock(run, threads, 0, At(s.lock, 0, Out).(write := 0));
    run, threads := GoLock(run, threads, 1, At(At(s.lock, 0, Out).(write := 0), 1, Out));
  }

  /** With C11 atomics, two updates at the same time may release one copy twice: it has been freed, the
      second thread is about to free it again, and another copy has no holder and is never freed. */
  lemma FreedTwice() returns (run: seq<Cell>, threads: seq<nat>)
    ensures IsStmRun(Weak, run, threads) && |run| == |threads| + 1
    ensures run[|threads|] == Cell(Lock(0, 0, [Out, Out]), [Thread(Idle, None), Thread(Freeing(0), None)],
                                   Some(2), map[0 := -1, 1 := 1, 2 := 1], {0})
    ensures Holders(run[|threads|], 1) == 0 && Pending(run[|threads|], 1) == 0
  {
    run, threads := BothReplace();
    hide IsStmRun;
    var s := run[|threads|];
    var s1 := With(s, 0, Freeing(0)).(refs := s.refs[0 := 0]);
    var s2 := With(s1, 0, Idle).(freed := {0});
    run, threads := GoCell(run, threads, 0, s1);
    run, threads := GoCell(run, threads, 0, s2);
    run, threads := GoCell(run, threads, 1, With(s2, 1, Freeing(0)).(refs := s2.refs[0 := -1]));
    var last := run[|threads|];
    assert last.threads == [Thread(Idle, None), Thread(Freeing(0), None)];
    assert last.refs == map[0 := -1, 1 := 1, 2 := 1];
    SumZero(last.threads, MHolds(1));
    SumZero(last.threads, MFrees(1));
  }
}
