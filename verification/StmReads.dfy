/** What a read of the cell delivers, and what an update leaves for the reads after it. */
module StmReads {
  import opened RwLock
  import opened Stm

  // ---------------------------------------------------------------------------
  // Reads
  // ---------------------------------------------------------------------------

  /** The thread is in `lread`, up to the comparison with the copy that its reader has. */
  predicate InRead(act: Act) { act.Reading? || act.Loaded? || act.GotIn? || act.GotOut? }

  /** What a reading thread has loaded, once it has. */
  predicate HasLoaded(act: Act, ret: Option<CopyId>) {
    act == Loaded(ret) || act == GotIn(ret) || act == GotOut(ret)
  }

  /** One step of any thread, seen from a thread that reads. */
  lemma ReadStep(v: Cas, s: Cell, u: nat, s': Cell, t: nat)
    requires StmNext(v, s, u, s') && t < |s.threads| && InRead(s.threads[t].act)
    ensures t < |s'.threads|
    ensures var act, act' := s.threads[t].act, s'.threads[t].act;
      && (act.Reading? ==> act'.Reading? || act' == Loaded(s.obj))
      && (!act.Reading? ==>
            if InRead(act') then HasLoaded(act', act.ret) else act.GotOut? && s'.threads[t].last == act.ret)
      && (InRead(act') ==> s'.threads[t].last == s.threads[t].last)
  {
    hide Next;
  }

  lemma RunStep(v: Cas, run: seq<Cell>, threads: seq<nat>, k: nat)
    requires IsStmRun(v, run, threads) && k < |threads|
    ensures |run| == |threads| + 1 && StmNext(v, run[k], threads[k], run[k + 1])
  {
    hide StmNext;
  }

  /** Up to step `k` the thread has been in one read, since step `a`. */
  ghost predicate ReadingFrom(run: seq<Cell>, t: nat, a: nat, k: nat) {
    && a <= k < |run|
    && (forall j :: a <= j <= k ==> t < |run[j].threads| && InRead(run[j].threads[t].act))
    && run[a].threads[t].act.Reading?
  }

  lemma {:induction false} LoadedSince(v: Cas, run: seq<Cell>, threads: seq<nat>, t: nat, a: nat, k: nat) returns (i: nat)
    requires |run| == |threads| + 1 && IsStmRun(v, run, threads) && ReadingFrom(run, t, a, k)
    ensures var act := run[k].threads[t].act; act.Reading? || (a <= i < k && HasLoaded(act, run[i].obj))
    ensures run[k].threads[t].last == run[a].threads[t].last
  {
    hide StmNext, IsStmRun;
    i := a;
    assert InRead(run[k].threads[t].act);
    if a < k {
      assert ReadingFrom(run, t, a, k - 1);
      hide ReadingFrom;
      i := LoadedSince(v, run, threads, t, a, k - 1);
      RunStep(v, run, threads, k - 1);
      ReadStep(v, run[k - 1], threads[k - 1], run[k], t);
      if run[k - 1].threads[t].act.Reading? { i := k - 1; }
    }
  }

  /** A read ends with its reader holding the copy that the cell pointed to at some moment between the start and the
      end of the read. */
  lemma ReadDelivers(v: Cas, run: seq<Cell>, threads: seq<nat>, t: nat, a: nat, e: nat) returns (i: nat)
    requires |run| == |threads| + 1 && IsStmRun(v, run, threads) && e < |threads| && ReadingFrom(run, t, a, e)
    requires t < |run[e + 1].threads| && !InRead(run[e + 1].threads[t].act)
    ensures a <= i < e && run[e + 1].threads[t].last == run[i].obj
  {
    i := LoadedSince(v, run, threads, t, a, e);
    RunStep(v, run, threads, e);
    hide StmNext, IsStmRun;
    ReadStep(v, run[e], threads[e], run[e + 1], t);
  }

  // ---------------------------------------------------------------------------
  // Stores
  // ---------------------------------------------------------------------------

  /** What the step of thread `u` stores in the pointer, if it does: the copy of an update, or null. */
  function Store(s: Cell, u: nat, s': Cell): Option<Option<CopyId>> {
    if u < |s.threads| && u < |s'.threads| then
      (if s.threads[u].act.Replacing? && s'.threads[u].act.Swapped? then Some(Some(s.threads[u].act.copy))
       else if s.threads[u].act.RetireNull? && s'.threads[u].act.RetireDone? then Some(None)
       else None)
    else None
  }

  /** The pointer changes by stores only, and to what is stored. */
  lemma StoreStep(v: Cas, s: Cell, u: nat, s': Cell)
    requires StmNext(v, s, u, s')
    ensures s'.obj == if Store(s, u, s').Some? then Store(s, u, s').value else s.obj
  {
    hide Next;
  }

  /** Between a store and a later moment there is a last store, and the pointer is what it stored. */
  lemma {:induction false} LastStore(v: Cas, run: seq<Cell>, threads: seq<nat>, w: nat, i: nat)
    returns (x: nat)
    requires |run| == |threads| + 1 && IsStmRun(v, run, threads) && w < i < |run| && Store(run[w], threads[w], run[w + 1]).Some?
    ensures w <= x < i && Store(run[x], threads[x], run[x + 1]) == Some(run[i].obj)
    ensures forall y :: x < y < i ==> Store(run[y], threads[y], run[y + 1]).None?
  {
    hide *;
    RunStep(v, run, threads, i - 1);
    StoreStep(v, run[i - 1], threads[i - 1], run[i]);
    if Store(run[i - 1], threads[i - 1], run[i]).Some? {
      x := i - 1;
    } else {
      x := LastStore(v, run, threads, w, i - 1);
    }
  }

  /** A read that starts after a store delivers what was stored, or what a later store put in its place, and never an
      older copy: step `x` is the last store before the moment of the read. */
  lemma NeverOlder(v: Cas, run: seq<Cell>, threads: seq<nat>, w: nat, t: nat, a: nat, e: nat) returns (x: nat, i: nat)
    requires |run| == |threads| + 1 && IsStmRun(v, run, threads) && e < |threads| && ReadingFrom(run, t, a, e)
    requires t < |run[e + 1].threads| && !InRead(run[e + 1].threads[t].act)
    requires w < a && Store(run[w], threads[w], run[w + 1]).Some?
    ensures a <= i < e && w <= x < i && Store(run[x], threads[x], run[x + 1]) == Some(run[e + 1].threads[t].last)
    ensures forall y :: x < y < i ==> Store(run[y], threads[y], run[y + 1]).None?
  {
    i := ReadDelivers(v, run, threads, t, a, e);
    x := LastStore(v, run, threads, w, i);
  }

  /** When nothing is stored during the read, it is the copy stored last. */
  lemma LatestDelivered(v: Cas, run: seq<Cell>, threads: seq<nat>, w: nat, t: nat, a: nat, e: nat)
    requires |run| == |threads| + 1 && IsStmRun(v, run, threads) && e < |threads| && ReadingFrom(run, t, a, e)
    requires t < |run[e + 1].threads| && !InRead(run[e + 1].threads[t].act)
    requires w < a && Store(run[w], threads[w], run[w + 1]).Some?
    requires forall y :: w < y < e ==> Store(run[y], threads[y], run[y + 1]).None?
    ensures Store(run[w], threads[w], run[w + 1]) == Some(run[e + 1].threads[t].last)
  {
    var x, i := NeverOlder(v, run, threads, w, t, a, e);
    hide IsStmRun, Store;
    assert x == w;
  }

  // ---------------------------------------------------------------------------
  // Updates
  // ---------------------------------------------------------------------------

  /** The thread is in `stm_update` with the new copy `c`, up to the store. */
  predicate BeforeStore(act: Act, c: CopyId) { act == Updating(c) || (act.Replacing? && act.copy == c) }

  /** An update that gets past its store has stored its own copy, once: the step that leaves `BeforeStore`. */
  lemma UpdateStores(v: Cas, s: Cell, u: nat, s': Cell, t: nat, c: CopyId)
    requires StmNext(v, s, u, s') && t < |s.threads| && BeforeStore(s.threads[t].act, c)
    ensures t < |s'.threads|
    ensures BeforeStore(s'.threads[t].act, c) || (s'.threads[t].act.Swapped? && u == t && Store(s, t, s') == Some(Some(c)))
    ensures u == t && BeforeStore(s'.threads[t].act, c) ==> Store(s, t, s').None?
  {
    hide Next;
  }

  /** So once an update has ended, its copy has been stored. */
  lemma {:induction false} UpdateEnds(v: Cas, run: seq<Cell>, threads: seq<nat>, t: nat, c: CopyId, a: nat, e: nat)
    returns (w: nat)
    requires |run| == |threads| + 1 && IsStmRun(v, run, threads) && a < e < |run|
    requires t < |run[a].threads| && run[a].threads[t].act == Updating(c)
    requires t < |run[e].threads| && !BeforeStore(run[e].threads[t].act, c)
    ensures a <= w < e && threads[w] == t && Store(run[w], t, run[w + 1]) == Some(Some(c))
  {
    var b := FirstLeft(v, run, threads, t, c, a, e);
    hide *;
    RunStep(v, run, threads, b);
    UpdateStores(v, run[b], threads[b], run[b + 1], t, c);
    w := b;
  }

  lemma {:induction false} FirstLeft(v: Cas, run: seq<Cell>, threads: seq<nat>, t: nat, c: CopyId, a: nat, e: nat)
    returns (b: nat)
    requires |run| == |threads| + 1 && IsStmRun(v, run, threads) && a < e < |run|
    requires t < |run[a].threads| && BeforeStore(run[a].threads[t].act, c)
    requires t < |run[e].threads| && !BeforeStore(run[e].threads[t].act, c)
    ensures a <= b < e && t < |run[b].threads| && t < |run[b + 1].threads|
    ensures BeforeStore(run[b].threads[t].act, c) && !BeforeStore(run[b + 1].threads[t].act, c)
    decreases e - a
  {
    hide *;
    RunStep(v, run, threads, a);
    UpdateStores(v, run[a], threads[a], run[a + 1], t, c);
    if BeforeStore(run[a + 1].threads[t].act, c) {
      b := FirstLeft(v, run, threads, t, c, a + 1, e);
    } else {
      b := a;
    }
  }

  // ---------------------------------------------------------------------------
  // A run
  // ---------------------------------------------------------------------------

  lemma GoBoth(run: seq<Cell>, threads: seq<nat>, t: nat, s: Cell) returns (longer: seq<Cell>, more: seq<nat>)
    requires IsStmRun(Weak, run, threads) && LockStep(Weak, run[|threads|], t, s)
    ensures IsStmRun(Weak, longer, more) && longer == run + [s] && |more| == |threads| + 1
  {
    hide CellStep, LockStep;
    longer, more := run + [s], threads + [t];
  }

  function One(pc: Pc, write: int, read: int): Lock { Lock(write, read, [pc]) }

  function Alone(lock: Lock, act: Act, last: Option<CopyId>, obj: Option<CopyId>, refs: int): Cell {
    Cell(lock, [Thread(act, last)], obj, map[0 := refs], {})
  }

  /** A thread reads for the first time and gets the copy that the cell was made with. */
  lemma FirstRead() returns (run: seq<Cell>, threads: seq<nat>)
    ensures IsStmRun(Weak, run, threads) && |run| == |threads| + 1
    ensures run[|threads|] == Alone(One(Out, 0, 0), Idle, Some(0), Some(0), 2)
  {
    run, threads := [Alone(One(Out, 0, 0), Idle, None, Some(0), 1)], [];
    assert IsStmRun(Weak, run, threads);
    hide IsStmRun;
    run, threads := GoCell(run, threads, 0, With(run[|threads|], 0, Reading));
    run, threads := GoLock(run, threads, 0, At(One(Out, 0, 0), 0, RSpin));
    run, threads := GoLock(run, threads, 0, At(One(RSpin, 0, 0), 0, RInc));
    run, threads := GoLock(run, threads, 0, At(One(RInc, 0, 0), 0, RCheck).(read := 1));
    run, threads := GoLock(run, threads, 0, At(One(RCheck, 0, 1), 0, RIn));
    run, threads := GoCell(run, threads, 0, With(run[|threads|], 0, Loaded(Some(0))));
    var s := run[|threads|];
    run, threads := GoCell(run, threads, 0, With(s, 0, GotIn(Some(0))).(refs := s.refs[0 := 2]));
    s := run[|threads|];
    run, threads := GoBoth(run, threads, 0, With(s, 0, GotOut(Some(0))).(lock := At(s.lock, 0, Out).(read := 0)));
    run, threads := GoCell(run, threads, 0, Release(SetLast(run[|threads|], 0, Some(0)), 0, None, false));
  }

  /** Then the cell is retired: the reader still has its copy, and nobody finds it any more. */
  lemma ThenRetired() returns (run: seq<Cell>, threads: seq<nat>)
    ensures IsStmRun(Weak, run, threads) && |run| == |threads| + 1
    ensures run[|threads|] == Alone(One(Out, 0, 0), Idle, Some(0), None, 1)
  {
    run, threads := FirstRead();
    hide IsStmRun;
    run, threads := GoCell(run, threads, 0, With(run[|threads|], 0, Retiring));
    run, threads := GoLock(run, threads, 0, At(One(Out, 0, 0), 0, WSpin(0)));
    run, threads := GoLock(run, threads, 0, At(One(WSpin(0), 0, 0), 0, WWait).(write := 1));
    run, threads := GoLock(run, threads, 0, At(One(WWait, 1, 0), 0, WIn));
    run, threads := GoCell(run, threads, 0, With(run[|threads|], 0, RetireGot(Some(0))));
    run, threads := GoCell(run, threads, 0, Release(run[|threads|], 0, Some(0), true));
    run, threads := GoCell(run, threads, 0, With(run[|threads|], 0, RetireDone).(obj := None));
    var s := run[|threads|];
    run, threads := GoBoth(run, threads, 0, With(s, 0, Idle).(lock := At(s.lock, 0, Out).(write := 0)));
  }

  /** And when the reader is deleted too, the copy is freed. */
  lemma ThenFreed() returns (run: seq<Cell>, threads: seq<nat>)
    ensures IsStmRun(Weak, run, threads) && |run| == |threads| + 1
    ensures run[|threads|] == Alone(One(Out, 0, 0), Idle, None, None, 0).(freed := {0})
  {
    run, threads := ThenRetired();
    hide IsStmRun;
    run, threads := GoCell(run, threads, 0, Release(SetLast(run[|threads|], 0, None), 0, Some(0), false));
    var s := run[|threads|];
    run, threads := GoCell(run, threads, 0, With(s, 0, Idle).(freed := s.freed + {0}));
  }
}
