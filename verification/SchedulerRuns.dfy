/** What holds in every state of every run of the scheduler. */
module SchedulerRuns {
  import opened Scheduler
  import opened SchedulerInv
  import opened SchedulerSteps

  /** A thread starts something, or an unfinished task takes its next step. */
  datatype Move = Spawn(task: Task) | Go(t: nat, again: bool)

  ghost predicate Next(s: State, m: Move, s': State) {
    match m
    case Spawn(task) => Fresh(task) && s' == s.(tasks := s.tasks + [task])
    case Go(t, again) =>
      && t < |s.tasks| && Known(|s.svcs|, s.tasks[t])
      && (forall k :: 0 <= k < |s.global| ==> s.global[k] < |s.svcs|)
      && s' == StepOf(s, t, again)
  }

  ghost predicate IsRun(run: seq<State>, moves: seq<Move>) {
    && |run| == |moves| + 1
    && run[0] == State([], [], [])
    && forall k :: 0 <= k < |moves| ==> Next(run[k], moves[k], run[k + 1])
  }

  lemma SpawnInv(s: State, task: Task)
    requires Inv(s) && Fresh(task)
    ensures Inv(s.(tasks := s.tasks + [task]))
  {
    var s' := s.(tasks := s.tasks + [task]);
    forall n: Id | n < |s.svcs| ensures SvcOk(s', n) {
      assert SvcOk(s, n);
      SumAppend(s.tasks, MRef(n), task);
      SumAppend(s.tasks, MDel(n), task);
      SumAppend(s.tasks, MPlace(n), task);
      SumAppend(s.tasks, MNew(n), task);
      hide Sum, Count;
    }
    forall k | 0 <= k < |s'.tasks| ensures TaskOk(s', s'.tasks[k]) {
      if k < |s.tasks| { assert TaskOk(s, s.tasks[k]); }
    }
    hide SvcOk, TaskOk;
  }

  /** The invariant holds in every state of every run, however many threads there are. */
  lemma {:induction false} RunInv(run: seq<State>, moves: seq<Move>, k: nat)
    requires IsRun(run, moves) && k < |run|
    ensures Inv(run[k])
  {
    if k > 0 {
      RunInv(run, moves, k - 1);
      assert Next(run[k - 1], moves[k - 1], run[k]);
      hide Inv;
      match moves[k - 1]
      case Spawn(task) => SpawnInv(run[k - 1], task);
      case Go(t, again) => StepInv(run[k - 1], t, again);
    }
  }

  /** A thread that has the queue of `q` in its hands. */
  predicate Holds(task: Task, q: Id) { Places(task, q) > 0 }

  /** A thread that executes the service `q`. */
  predicate Dispatches(task: Task, q: Id) {
    task == WRun(q) || task == WMsg(q) || task == WEnd(q)
  }

  /** The queue of `q` is with task `t` and nowhere else. */
  ghost predicate HeldBy(s: State, q: Id, t: nat) {
    && t < |s.tasks| && Places(s.tasks[t], q) == 1 && q !in s.global
    && forall u :: 0 <= u < |s.tasks| && u != t ==> !Holds(s.tasks[u], q)
  }

  /** The queue of `q` is once in the global list and with nobody. */
  ghost predicate Queued(s: State, q: Id) {
    Count(s.global, q) == 1 && forall u :: 0 <= u < |s.tasks| ==> !Holds(s.tasks[u], q)
  }

  ghost predicate Nowhere(s: State, q: Id) {
    q !in s.global && forall u :: 0 <= u < |s.tasks| ==> !Holds(s.tasks[u], q)
  }

  /** In every reachable state a queue that has not been freed is in exactly one place: queued once, in
      the hands of one thread, or idle, and then it is empty and flagged as not in the global list. */
  lemma ExactlyOnePlace(s: State, q: Id)
    requires Inv(s) && q < |s.svcs|
    ensures var v := s.svcs[q];
      if v.freed then Nowhere(s, q)
      else if !v.inGlobal && !v.release then Nowhere(s, q) && v.msgs == []
      else Queued(s, q) || exists t :: HeldBy(s, q, t)
  {
    assert SvcOk(s, q);
    CountIn(s.global, q);
    if Sum(s.tasks, MPlace(q)) > 0 {
      var t := SomeHolder(s.tasks, MPlace(q));
      SumUpdate(s.tasks, MPlace(q), t, Done);
      forall u | 0 <= u < |s.tasks| && u != t ensures !Holds(s.tasks[u], q) {
        TwoHolders(s, MPlace(q), t, u);
      }
      assert HeldBy(s, q, t);
    } else {
      forall u | 0 <= u < |s.tasks| ensures !Holds(s.tasks[u], q) {
        SumUpdate(s.tasks, MPlace(q), u, Done);
      }
    }
  }

  /** What a thread may rely on: the queue it holds has not been freed, the context it has a reference to is
      alive, and a queue that it is about to put on the global list is not there already. */
  ghost predicate Safe(s: State, task: Task) {
    && (forall q: Id :: q < |s.svcs| && Holds(task, q) ==> !s.svcs[q].freed && q !in s.global)
    && (forall n: Id :: n < |s.svcs| && Refs(task, n) > 0 ==>
          s.svcs[n].ref > 0 && !s.svcs[n].release && !s.svcs[n].freed && (s.svcs[n].inGlobal || n !in s.global))
    && (task.Del? && task.n < |s.svcs| ==>
          var v := s.svcs[task.n]; v.ref == 0 && !v.release && !v.freed && (v.inGlobal || task.n !in s.global))
  }

  lemma TaskSafe(s: State, t: nat)
    requires Inv(s) && t < |s.tasks| && Known(|s.svcs|, s.tasks[t])
    ensures Safe(s, s.tasks[t])
  {
    forall n: Id | n < |s.svcs|
      ensures Holds(s.tasks[t], n) ==> !s.svcs[n].freed && n !in s.global
      ensures Refs(s.tasks[t], n) > 0 || Deletes(s.tasks[t], n) > 0 ==>
        var v := s.svcs[n]; !v.release && !v.freed && (v.inGlobal || n !in s.global)
      ensures Refs(s.tasks[t], n) > 0 ==> s.svcs[n].ref > 0
      ensures Deletes(s.tasks[t], n) > 0 ==> s.svcs[n].ref == 0
    {
      assert SvcOk(s, n);
      SumUpdate(s.tasks, MPlace(n), t, Done);
      SumUpdate(s.tasks, MRef(n), t, Done);
      SumUpdate(s.tasks, MDel(n), t, Done);
      CountIn(s.global, n);
      hide Sum, Count, Inv;
    }
    hide Inv;
  }

  /** A creator that goes on using the context after it has let go of its reference: it marks it, logs in its
      name, and reads its handle. */
  predicate Late(task: Task, n: Id) {
    task == CSetInit(n) || task == CLog(n) || task == CAnswer(n)
  }

  /** Somebody else keeps the context alive: the handle table, a thread with a reference, or the thread that is
      deleting it and has not freed it yet. */
  ghost predicate KeptAlive(s: State, n: Id)
    requires n < |s.svcs|
  {
    || s.svcs[n].registered
    || (exists u :: 0 <= u < |s.tasks| && Refs(s.tasks[u], n) > 0)
    || (exists u :: 0 <= u < |s.tasks| && Deletes(s.tasks[u], n) > 0)
  }

  /** A context has been freed if and only if nobody keeps it alive; its count is not zero if and only if it can
      be found or some thread has a reference. A late access of a creator is safe exactly as long as that holds. */
  lemma AliveExactly(s: State, n: Id)
    requires Inv(s) && n < |s.svcs|
    ensures !s.svcs[n].release <==> KeptAlive(s, n)
    ensures s.svcs[n].ref > 0 <==> s.svcs[n].registered || exists u :: 0 <= u < |s.tasks| && Refs(s.tasks[u], n) > 0
  {
    assert SvcOk(s, n);
    if Sum(s.tasks, MRef(n)) > 0 { var u := SomeHolder(s.tasks, MRef(n)); }
    if Sum(s.tasks, MDel(n)) > 0 { var u := SomeHolder(s.tasks, MDel(n)); }
    forall u | 0 <= u < |s.tasks|
      ensures Refs(s.tasks[u], n) <= Sum(s.tasks, MRef(n)) && Deletes(s.tasks[u], n) <= Sum(s.tasks, MDel(n))
    {
      SumUpdate(s.tasks, MRef(n), u, Done);
      SumUpdate(s.tasks, MDel(n), u, Done);
    }
    hide Inv, Sum, Count;
  }

  lemma Extend(run: seq<State>, moves: seq<Move>, m: Move, s: State) returns (longer: seq<State>, more: seq<Move>)
    requires IsRun(run, moves) && Next(run[|moves|], m, s)
    ensures longer == run + [s] && more == moves + [m] && IsRun(longer, more) && longer[|more|] == s
  {
    longer, more := run + [s], moves + [m];
    hide Next;
  }

  /** A service has been created, its init function has succeeded, and its creator has let go of it. */
  lemma LetGo() returns (run: seq<State>, moves: seq<Move>)
    ensures IsRun(run, moves) && run[|moves|] == State([NewService().(ref := 1)], [], [CSetInit(0)])
  {
    var v := NewService();
    run, moves := [State([], [], [])], [];
    assert IsRun(run, moves);
    hide IsRun;
    run, moves := Extend(run, moves, Spawn(CStart), State([], [], [CStart]));
    run, moves := Extend(run, moves, Go(0, true), State([v], [], [CInit(0)]));
    run, moves := Extend(run, moves, Go(0, true), State([v], [], [Rel(0, ALaunch(0))]));
    run, moves := Extend(run, moves, Go(0, true), State([v.(ref := 1)], [], [CSetInit(0)]));
  }

  /** Another thread retires a service to which nobody has a reference: its context is freed. */
  lemma Retired(run: seq<State>, moves: seq<Move>, v: Service, g: seq<Id>, c: Task)
    returns (longer: seq<State>, more: seq<Move>)
    requires IsRun(run, moves) && run[|moves|] == State([v], g, [c]) && forall k :: 0 <= k < |g| ==> g[k] == 0
    requires v.ref == 1 && v.registered && v.inGlobal
    ensures IsRun(longer, more)
    ensures longer[|more|] == State([v.(registered := false, ref := 0, release := true)], g, [c, Done])
  {
    hide IsRun;
    var v1 := v.(registered := false);
    var v2 := v1.(ref := 0);
    longer, more := Extend(run, moves, Spawn(TStart(0)), State([v], g, [c, TStart(0)]));
    longer, more := Extend(longer, more, Go(1, true), State([v1], g, [c, Rel(0, ADone)]));
    longer, more := Extend(longer, more, Go(1, true), State([v2], g, [c, Del(0, ADone)]));
    longer, more := Extend(longer, more, Go(1, true), State([v2.(release := true)], g, [c, Done]));
  }

  /** So the creator may write to a context that has been freed. */
  lemma LateWrite() returns (run: seq<State>, moves: seq<Move>)
    ensures IsRun(run, moves)
    ensures var s := run[|moves|]; |s.svcs| == 1 && s.svcs[0].release && |s.tasks| == 2 && s.tasks[0] == CSetInit(0)
  {
    run, moves := LetGo();
    hide IsRun;
    run, moves := Retired(run, moves, NewService().(ref := 1), [], CSetInit(0));
  }

  /** And it may read the handle from one, when the service is retired after its queue was handed over. */
  lemma LateRead() returns (run: seq<State>, moves: seq<Move>)
    ensures IsRun(run, moves)
    ensures var s := run[|moves|]; |s.svcs| == 1 && s.svcs[0].release && |s.tasks| == 2 && s.tasks[0] == CAnswer(0)
  {
    run, moves := LetGo();
    hide IsRun;
    var v := NewService().(ref := 1, init := true);
    run, moves := Extend(run, moves, Go(0, true), State([v], [], [CLaunch(0, true)]));
    run, moves := Extend(run, moves, Go(0, true), State([v], [0], [CLog(0)]));
    run, moves := Extend(run, moves, Go(0, true), State([v], [0], [CAnswer(0)]));
    run, moves := Retired(run, moves, v, [0], CAnswer(0));
  }

  /** What one step does to a service: messages come in at the back and go out at the front, out only
      through the thread that holds the queue; the queue is freed once, by the thread that holds it, when
      the context is gone and every message that was ever pushed has been taken out. */
  ghost predicate Advances(s: State, t: nat, s': State, n: Id)
    requires n < |s.svcs| && n < |s'.svcs| && t < |s.tasks|
  {
    var v, w := s.svcs[n], s'.svcs[n];
    && w.pushed == (if s.tasks[t].PGot? && s.tasks[t].n == n then v.pushed + [s.tasks[t].m] else v.pushed)
    && (w.taken == v.taken
        || (Holds(s.tasks[t], n) && v.msgs != [] && w.taken == v.taken + [v.msgs[0]]))
    && (v.freed ==> w.freed)
    && (w.freed && !v.freed ==>
          && s.tasks[t].FreeQueue? && Holds(s.tasks[t], n)
          && v.release && v.ref == 0 && !v.registered && n !in s.global && v.pushed == v.taken)
  }

  /** The steps that leave the messages of every queue alone. */
  predicate Quiet(task: Task) {
    !task.WRun? && !task.Drop? && !task.FreeQueue? && !task.PGot?
  }

  lemma QuietStep(s: State, t: nat, again: bool, n: Id)
    requires Inv(s) && t < |s.tasks| && n < |s.svcs| && Quiet(s.tasks[t])
    ensures n < |StepOf(s, t, again).svcs|
    ensures var v, w := s.svcs[n], StepOf(s, t, again).svcs[n];
      v.pushed == w.pushed && v.taken == w.taken && v.freed == w.freed
  {
    var task := s.tasks[t];
    assert TaskOk(s, task);
    hide Inv, SvcOk, Sum, Count, Resume, IfDeleted;
    if Works(task) {
      hide OrphanMove, ReleaseMove, CreateMove, ClientMove;
    } else if Orphans(task) {
      hide WorkerMove, ReleaseMove, CreateMove, ClientMove;
    } else if Releases(task) {
      hide WorkerMove, OrphanMove, CreateMove, ClientMove;
    } else if Creates(task) {
      hide WorkerMove, OrphanMove, ReleaseMove, ClientMove;
    } else {
      hide WorkerMove, OrphanMove, ReleaseMove, CreateMove;
    }
  }

  lemma StepAdvances(s: State, t: nat, again: bool, n: Id)
    requires Inv(s) && t < |s.tasks| && n < |s.svcs|
    ensures n < |StepOf(s, t, again).svcs| && Advances(s, t, StepOf(s, t, again), n)
  {
    assert TaskOk(s, s.tasks[t]) && SvcOk(s, n);
    if Quiet(s.tasks[t]) {
      QuietStep(s, t, again, n);
      hide *;
    } else {
      TaskSafe(s, t);
      hide Inv, Sum, Count, Resume;
    }
  }

  /** Two threads never execute the same service. */
  lemma OneWorker(s: State, q: Id, t: nat, u: nat)
    requires Inv(s) && q < |s.svcs| && t < |s.tasks| && u < |s.tasks|
    requires Dispatches(s.tasks[t], q) && Dispatches(s.tasks[u], q)
    ensures t == u
  {
    assert SvcOk(s, q);
    if t != u { TwoHolders(s, MPlace(q), t, u); }
  }

  /** What one service has been through so far is the beginning of what it has been through later. */
  ghost predicate Continues(v: Service, w: Service) {
    v.pushed <= w.pushed && v.taken <= w.taken && (v.freed ==> w.freed && w.pushed == w.taken == v.taken)
  }

  lemma NextContinues(s: State, m: Move, s': State, n: Id)
    requires Inv(s) && Next(s, m, s') && n < |s.svcs|
    ensures n < |s'.svcs| && Continues(s.svcs[n], s'.svcs[n])
  {
    assert SvcOk(s, n);
    match m
    case Spawn(task) => hide Inv;
    case Go(t, again) =>
      StepAdvances(s, t, again, n);
      if s.tasks[t].PGot? { TaskSafe(s, t); }
      hide Inv, StepOf, Sum, Count;
  }

  /** Between any two states of a run the history of a service only grows, and freed stays freed. */
  lemma {:induction false} HistoryGrows(run: seq<State>, moves: seq<Move>, j: nat, k: nat, n: Id)
    requires IsRun(run, moves) && j <= k < |run| && n < |run[j].svcs|
    ensures n < |run[k].svcs| && Continues(run[j].svcs[n], run[k].svcs[n])
    decreases k
  {
    RunInv(run, moves, k);
    if k == j {
      assert SvcOk(run[k], n);
      hide Inv, Next;
    } else {
      HistoryGrows(run, moves, j, k - 1, n);
      RunInv(run, moves, k - 1);
      hide Inv;
      assert Next(run[k - 1], moves[k - 1], run[k]);
      hide Next;
      NextContinues(run[k - 1], moves[k - 1], run[k], n);
    }
  }

  /** The scheduler's guarantee, for every state of every run: each queue is in one place, no two threads execute
      one service, and they find it marked; no freed queue is touched, and no freed context either, but for the
      late accesses of creators, which are safe exactly while somebody else keeps the context alive; and the
      messages of a service come out in the order in which they went in, each once, with all of them out when
      its queue is freed. */
  lemma RunSafe(run: seq<State>, moves: seq<Move>, k: nat, q: Id)
    requires IsRun(run, moves) && k < |run| && q < |run[k].svcs|
    ensures var s := run[k]; var v := s.svcs[q];
      if v.freed then Nowhere(s, q)
      else if !v.inGlobal && !v.release then Nowhere(s, q) && v.msgs == []
      else Queued(s, q) || exists t :: HeldBy(s, q, t)
    ensures forall t, u | 0 <= t < |run[k].tasks| && 0 <= u < |run[k].tasks| ::
      Dispatches(run[k].tasks[t], q) && Dispatches(run[k].tasks[u], q) ==> t == u
    ensures forall t :: 0 <= t < |run[k].tasks| ==> Known(|run[k].svcs|, run[k].tasks[t]) && Safe(run[k], run[k].tasks[t])
    ensures forall t :: 0 <= t < |run[k].tasks| && Dispatches(run[k].tasks[t], q) ==> run[k].svcs[q].init
    ensures forall t :: 0 <= t < |run[k].tasks| && Late(run[k].tasks[t], q) ==>
      (!run[k].svcs[q].release <==> KeptAlive(run[k], q))
    ensures run[k].svcs[q].pushed == run[k].svcs[q].taken + run[k].svcs[q].msgs
    ensures run[k].svcs[q].freed ==> run[k].svcs[q].pushed == run[k].svcs[q].taken
  {
    var s := run[k];
    RunInv(run, moves, k);
    ExactlyOnePlace(s, q);
    forall t, u | 0 <= t < |s.tasks| && 0 <= u < |s.tasks| && Dispatches(s.tasks[t], q) && Dispatches(s.tasks[u], q)
      ensures t == u
    {
      OneWorker(s, q, t, u);
    }
    forall t | 0 <= t < |s.tasks|
      ensures Known(|s.svcs|, s.tasks[t]) && Safe(s, s.tasks[t]) && (Dispatches(s.tasks[t], q) ==> s.svcs[q].init)
    {
      assert TaskOk(s, s.tasks[t]);
      TaskSafe(s, t);
    }
    AliveExactly(s, q);
    assert SvcOk(s, q);
    hide Inv, Safe, KeptAlive;
  }
}
