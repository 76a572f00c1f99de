/** No message to a service that can be found is ever stuck: from every state of every run, the run can go on so that
    all of them are executed. */
module SchedulerProgress {
  import opened Scheduler
  import opened SchedulerInv
  import opened SchedulerSteps
  import opened SchedulerRuns
  import opened SchedulerSends

  // ---------------------------------------------------------------------------
  // More about the threads that have a queue
  // ---------------------------------------------------------------------------

  /** What a thread is about to do after a release tells of the service. */
  predicate AfterTells(s: State, a: After) {
    match a
    case ALaunch(q) => q < |s.svcs| && !s.svcs[q].init
    case AFail(q) => q < |s.svcs| && !s.svcs[q].init
    case AGone(q) => q < |s.svcs| && !s.svcs[q].registered
    case AOrphan(q) => q < |s.svcs| && !s.svcs[q].registered
    case _ => true
  }

  /** Whoever gives up a queue, or is still creating it, has one that no one finds, or that is not marked. */
  predicate Tells(s: State, task: Task) {
    match task
    case Orphan(q, a) => q < |s.svcs| && !s.svcs[q].registered && (a.ADone? || a.AIdle?)
    case Drop(q, a) => q < |s.svcs| && !s.svcs[q].registered && (a.ADone? || a.AIdle?)
    case FreeQueue(q, a) => q < |s.svcs| && !s.svcs[q].registered && (a.ADone? || a.AIdle?)
    case Rel(_, a) => AfterTells(s, a)
    case Del(_, a) => AfterTells(s, a)
    case CInit(q) => q < |s.svcs| && !s.svcs[q].init
    case CSetInit(q) => q < |s.svcs| && !s.svcs[q].init
    case CFail(q) => q < |s.svcs| && !s.svcs[q].init
    case _ => true
  }

  ghost predicate AllTell(s: State) {
    forall t :: 0 <= t < |s.tasks| ==> Tells(s, s.tasks[t])
  }

  /** A step leaves unregistered services unregistered, and marks a service only as its creator. */
  lemma MarksOwn(s: State, t: nat, again: bool, n: Id)
    requires Inv(s) && t < |s.tasks| && n < |s.svcs|
    ensures n < |StepOf(s, t, again).svcs|
    ensures StepOf(s, t, again).svcs[n].init ==> s.svcs[n].init || s.tasks[t] == CSetInit(n)
  {
    var task := s.tasks[t];
    assert TaskOk(s, task);
    hide Inv, Sum, Count, Resume, IfDeleted, TaskOk;
    if Works(task) {
      hide OrphanMove, ReleaseMove, CreateMove, ClientMove;
    } else if Orphans(task) {
      hide WorkerMove, ReleaseMove, CreateMove, ClientMove;
    } else if Releases(task) {
      hide WorkerMove, OrphanMove, CreateMove, ClientMove;
    } else if Creates(task) {
      hide WorkerMove, OrphanMove, ReleaseMove, ClientMove;
    } else {
      hide WorkerMove, OrphanMove, ReleaseMove, CreateMove;
    }
  }

  /** The service whose mark a thread relies on: it has the queue of that service. */
  function Unmarked(task: Task): set<Id> {
    match task
    case Rel(_, a) => if a.ALaunch? || a.AFail? then {a.q} else {}
    case Del(_, a) => if a.ALaunch? || a.AFail? then {a.q} else {}
    case CInit(q) => {q}
    case CSetInit(q) => {q}
    case CFail(q) => {q}
    case _ => {}
  }

  lemma StaysUnmarked(s: State, t: nat, again: bool, u: nat, q: Id)
    requires Inv(s) && t < |s.tasks| && u < |s.tasks| && u != t && q in Unmarked(s.tasks[u])
    requires q < |s.svcs| && !s.svcs[q].init
    ensures q < |StepOf(s, t, again).svcs| && !StepOf(s, t, again).svcs[q].init
  {
    MarksOwn(s, t, again, q);
    if s.tasks[t] == CSetInit(q) {
      assert SvcOk(s, q);
      TwoHolders(s, MPlace(q), t, u);
    }
    hide Inv, StepOf, Sum, Count;
  }

  /** The services of which a thread relies on nobody finding them. */
  function Unfound(task: Task): set<Id> {
    match task
    case Orphan(q, _) => {q}
    case Drop(q, _) => {q}
    case FreeQueue(q, _) => {q}
    case Rel(_, a) => if a.AGone? || a.AOrphan? then {a.q} else {}
    case Del(_, a) => if a.AGone? || a.AOrphan? then {a.q} else {}
    case _ => {}
  }

  lemma OthersTell(s: State, t: nat, again: bool, u: nat)
    requires Inv(s) && t < |s.tasks| && u < |s.tasks| && u != t && Tells(s, s.tasks[u])
    ensures Tells(StepOf(s, t, again), s.tasks[u])
  {
    forall q | q in Unmarked(s.tasks[u])
      ensures q < |StepOf(s, t, again).svcs| && !StepOf(s, t, again).svcs[q].init
    {
      StaysUnmarked(s, t, again, u, q);
    }
    forall q | q in Unfound(s.tasks[u])
      ensures q < |StepOf(s, t, again).svcs| && !StepOf(s, t, again).svcs[q].registered
    {
      StepStaysRetired(s, t, again, q);
    }
    hide Inv, StepOf;
  }

  lemma WorkerTells(s: State, t: nat, again: bool)
    requires Inv(s) && t < |s.tasks| && Tells(s, s.tasks[t]) && Works(s.tasks[t])
    ensures t < |StepOf(s, t, again).tasks| && Tells(StepOf(s, t, again), StepOf(s, t, again).tasks[t])
  {
    var task := s.tasks[t];
    assert TaskOk(s, task);
    hide Inv, Sum, Count, OrphanMove, ReleaseMove, CreateMove, ClientMove;
  }

  lemma OrphanTells(s: State, t: nat, again: bool)
    requires Inv(s) && t < |s.tasks| && Tells(s, s.tasks[t]) && Orphans(s.tasks[t])
    ensures t < |StepOf(s, t, again).tasks| && Tells(StepOf(s, t, again), StepOf(s, t, again).tasks[t])
  {
    var task := s.tasks[t];
    assert TaskOk(s, task);
    hide Inv, Sum, Count, WorkerMove, ReleaseMove, CreateMove, ClientMove;
  }

  lemma ReleaseTells(s: State, t: nat, again: bool)
    requires Inv(s) && t < |s.tasks| && Tells(s, s.tasks[t]) && Releases(s.tasks[t])
    ensures t < |StepOf(s, t, again).tasks| && Tells(StepOf(s, t, again), StepOf(s, t, again).tasks[t])
  {
    var task := s.tasks[t];
    assert TaskOk(s, task);
    if task.Rel? {
      assert task.n < |s.svcs| && SvcOk(s, task.n);
      SumUpdate(s.tasks, MRef(task.n), t, Done);
    }
    hide Inv, Sum, Count, WorkerMove, OrphanMove, CreateMove, ClientMove;
  }

  lemma CreateTells(s: State, t: nat, again: bool)
    requires Inv(s) && t < |s.tasks| && Tells(s, s.tasks[t]) && Creates(s.tasks[t])
    ensures t < |StepOf(s, t, again).tasks| && Tells(StepOf(s, t, again), StepOf(s, t, again).tasks[t])
  {
    var task := s.tasks[t];
    assert TaskOk(s, task);
    hide Inv, Sum, Count, WorkerMove, OrphanMove, ReleaseMove, ClientMove;
  }

  lemma MovedTells(s: State, t: nat, again: bool)
    requires Inv(s) && t < |s.tasks| && Tells(s, s.tasks[t])
    ensures t < |StepOf(s, t, again).tasks| && Tells(StepOf(s, t, again), StepOf(s, t, again).tasks[t])
  {
    var task := s.tasks[t];
    if Works(task) {
      WorkerTells(s, t, again);
    } else if Orphans(task) {
      OrphanTells(s, t, again);
    } else if Releases(task) {
      ReleaseTells(s, t, again);
    } else if Creates(task) {
      CreateTells(s, t, again);
    } else {
      assert TaskOk(s, task);
      hide Inv, WorkerMove, OrphanMove, ReleaseMove, CreateMove;
    }
    hide Inv, WorkerMove, OrphanMove, ReleaseMove, CreateMove, Tells;
  }

  lemma {:induction false} RunTells(run: seq<State>, moves: seq<Move>, k: nat)
    requires IsRun(run, moves) && k < |run|
    ensures AllTell(run[k])
  {
    if k > 0 {
      RunTells(run, moves, k - 1);
      RunInv(run, moves, k - 1);
      var s, m, s' := run[k - 1], moves[k - 1], run[k];
      assert Next(s, m, s') by { assert run[k - 1 + 1] == run[k]; }
      hide IsRun;
      match m
      case Spawn(task) =>
        hide Inv;
        forall u | 0 <= u < |s'.tasks| ensures Tells(s', s'.tasks[u]) {
          if u < |s.tasks| { assert Tells(s, s.tasks[u]); }
        }
      case Go(t, again) =>
        StepChangesOne(s, t, again);
        hide Inv, StepOf;
        forall u | 0 <= u < |s'.tasks| ensures Tells(s', s'.tasks[u]) {
          assert Tells(s, s.tasks[u]);
          if u == t { MovedTells(s, t, again); } else { OthersTell(s, t, again, u); }
        }
    }
  }

  // ---------------------------------------------------------------------------
  // Getting to the messages
  // ---------------------------------------------------------------------------

  /** A service that is found and marked, with what it had in `v` still to do. */
  predicate Ready(s: State, q: Id, v: Service) {
    && q < |s.svcs| && s.svcs[q].registered && s.svcs[q].init
    && s.svcs[q].msgs == v.msgs && s.svcs[q].pushed == v.pushed && s.svcs[q].taken == v.taken
  }

  /** The steps on the way to a worker that runs the service leave it ready. */
  predicate Approaches(task: Task) {
    task.WIdle? || task.WHold? || task.WMsg? || task.WEnd? || task.WBack? || task.Rel? || task.Del? || task.CLaunch?
  }

  lemma StaysReady(s: State, t: nat, again: bool, q: Id, v: Service)
    requires Inv(s) && t < |s.tasks| && Approaches(s.tasks[t]) && Ready(s, q, v)
    ensures Ready(StepOf(s, t, again), q, v)
  {
    var task := s.tasks[t];
    assert TaskOk(s, task);
    hide Inv, Sum, Count, Resume, IfDeleted, TaskOk;
    if Works(task) {
      hide OrphanMove, ReleaseMove, CreateMove, ClientMove;
    } else if Releases(task) {
      hide WorkerMove, OrphanMove, CreateMove, ClientMove;
    } else {
      hide WorkerMove, OrphanMove, ReleaseMove, ClientMove;
    }
  }

  /** One more move of a thread. */
  lemma Step(run: seq<State>, moves: seq<Move>, t: nat, again: bool) returns (longer: seq<State>, more: seq<Move>)
    requires IsRun(run, moves) && t < |run[|moves|].tasks|
    ensures IsRun(longer, more) && run <= longer && |longer| == |more| + 1
    ensures Inv(run[|moves|]) && longer[|more|] == StepOf(run[|moves|], t, again)
  {
    RunInv(run, moves, |moves|);
    var s := run[|moves|];
    assert TaskOk(s, s.tasks[t]);
    hide Inv, StepOf, IsRun;
    longer, more := Extend(run, moves, Go(t, again), StepOf(s, t, again));
  }

  lemma Approach(run: seq<State>, moves: seq<Move>, t: nat, again: bool, q: Id, v: Service)
    returns (longer: seq<State>, more: seq<Move>)
    requires IsRun(run, moves) && t < |run[|moves|].tasks| && Approaches(run[|moves|].tasks[t])
    requires Ready(run[|moves|], q, v)
    ensures IsRun(longer, more) && run <= longer && |longer| == |more| + 1
    ensures Inv(run[|moves|]) && longer[|more|] == StepOf(run[|moves|], t, again) && Ready(longer[|more|], q, v)
    ensures |longer[|more|].tasks| == |run[|moves|].tasks|
  {
    longer, more := Step(run, moves, t, again);
    StaysReady(run[|moves|], t, again, q, v);
    StepChangesOne(run[|moves|], t, again);
    hide Inv, StepOf, IsRun, Ready;
  }

  /** What the threads on the way do next. */
  lemma NextOnTheWay(s: State, t: nat, q: Id)
    requires Inv(s) && t < |s.tasks| && q < |s.svcs| && s.svcs[q].registered
    ensures var task := s.tasks[t]; var s' := StepOf(s, t, true);
      && t < |s'.tasks|
      && (task == WHold(q) ==> s'.tasks[t] == WRun(q))
      && (task == WMsg(q) ==> s'.tasks[t] == WRun(q))
      && (task == WEnd(q) && s.global == [] ==> s'.tasks[t] == Rel(q, AHold(q)))
      && (task == WEnd(q) && s.global != [] ==> s'.tasks[t] == WBack(q, s.global[0]) && s'.global == s.global[1..])
      && (task.WBack? ==> s'.tasks[t] == Rel(task.q, AHold(task.nq)) && s'.global == s.global + [task.q])
      && (task.WIdle? && s.global != [] ==> s'.tasks[t] == WHold(s.global[0]) && s'.global == s.global[1..])
      && (task.Rel? && task.after == AHold(q) ==> s'.tasks[t] == WHold(q) || s'.tasks[t] == Del(task.n, AHold(q)))
      && (task.Del? && task.after == AHold(q) ==> s'.tasks[t] == WHold(q))
      && (task.CLaunch? ==> s'.global == s.global + [task.q])
  {
    StepChangesOne(s, t, true);
    assert TaskOk(s, s.tasks[t]);
    hide Inv, OrphanMove, ClientMove, SetSvc, AddRef;
  }

  /** A worker that has the queue, or will have it after a release, gets to run the service. */
  lemma FromHold(run: seq<State>, moves: seq<Move>, t: nat, q: Id, v: Service)
    returns (longer: seq<State>, more: seq<Move>)
    requires IsRun(run, moves) && t < |run[|moves|].tasks| && Ready(run[|moves|], q, v)
    requires var task := run[|moves|].tasks[t];
      task == WHold(q) || ((task.Rel? || task.Del?) && task.after == AHold(q))
    ensures IsRun(longer, more) && run <= longer && |longer| == |more| + 1
    ensures t < |longer[|more|].tasks| && longer[|more|].tasks[t] == WRun(q) && Ready(longer[|more|], q, v)
    decreases var task := run[|moves|].tasks[t]; if task.Rel? then 2 else if task.Del? then 1 else 0
  {
    longer, more := Approach(run, moves, t, true, q, v);
    NextOnTheWay(run[|moves|], t, q);
    hide Inv, StepOf, IsRun;
    if run[|moves|].tasks[t] != WHold(q) { longer, more := FromHold(longer, more, t, q, v); }
  }

  /** New workers take the queues in front of it. */
  lemma FromGlobal(run: seq<State>, moves: seq<Move>, i: nat, q: Id, v: Service)
    returns (longer: seq<State>, more: seq<Move>, t: nat)
    requires IsRun(run, moves) && i < |run[|moves|].global| && run[|moves|].global[i] == q && Ready(run[|moves|], q, v)
    ensures IsRun(longer, more) && run <= longer && |longer| == |more| + 1
    ensures t < |longer[|more|].tasks| && longer[|more|].tasks[t] == WRun(q) && Ready(longer[|more|], q, v)
    decreases i
  {
    assert |run| == |moves| + 1;
    var s := run[|moves|];
    t := |s.tasks|;
    longer, more := Extend(run, moves, Spawn(WIdle), s.(tasks := s.tasks + [WIdle]));
    ghost var run1, s1 := longer, longer[|more|];
    hide IsRun, StepOf, Inv;
    longer, more := Approach(longer, more, t, true, q, v);
    NextOnTheWay(s1, t, q);
    if i == 0 {
      longer, more := FromHold(longer, more, t, q, v);
    } else {
      longer, more, t := FromGlobal(longer, more, i - 1, q, v);
    }
  }

  /** Wherever its queue is, a worker can get to run a service that is found and marked and has messages. */
  lemma FromAnywhere(run: seq<State>, moves: seq<Move>, q: Id)
    returns (longer: seq<State>, more: seq<Move>, t: nat)
    requires IsRun(run, moves) && q < |run[|moves|].svcs|
    requires var v := run[|moves|].svcs[q]; v.registered && v.init && v.msgs != []
    ensures IsRun(longer, more) && run <= longer && |longer| == |more| + 1
    ensures t < |longer[|more|].tasks| && longer[|more|].tasks[t] == WRun(q)
    ensures Ready(longer[|more|], q, run[|moves|].svcs[q])
  {
    assert |run| == |moves| + 1;
    var s, v := run[|moves|], run[|moves|].svcs[q];
    RunInv(run, moves, |moves|);
    RunTells(run, moves, |moves|);
    ExactlyOnePlace(s, q);
    assert SvcOk(s, q);
    NotFreed(s, q);
    if Queued(s, q) {
      CountIn(s.global, q);
      var i :| 0 <= i < |s.global| && s.global[i] == q;
      hide Inv, IsRun;
      longer, more, t := FromGlobal(run, moves, i, q, v);
    } else {
      t :| HeldBy(s, q, t);
      assert Tells(s, s.tasks[t]);
      hide Inv, IsRun;
      longer, more, t := FromHolder(run, moves, t, q, v);
    }
  }

  /** A service that can be found has not been freed. */
  lemma NotFreed(s: State, q: Id)
    requires Inv(s) && q < |s.svcs| && s.svcs[q].registered
    ensures !s.svcs[q].release && !s.svcs[q].freed
  {
    assert SvcOk(s, q);
    hide Sum, Count;
  }

  /** The holder of the queue goes on with it, or puts it on the global list. */
  lemma FromHolder(run: seq<State>, moves: seq<Move>, u: nat, q: Id, v: Service)
    returns (longer: seq<State>, more: seq<Move>, t: nat)
    requires IsRun(run, moves) && u < |run[|moves|].tasks| && Ready(run[|moves|], q, v)
    requires Places(run[|moves|].tasks[u], q) > 0 && Tells(run[|moves|], run[|moves|].tasks[u])
    ensures IsRun(longer, more) && run <= longer && |longer| == |more| + 1
    ensures t < |longer[|more|].tasks| && longer[|more|].tasks[t] == WRun(q) && Ready(longer[|more|], q, v)
    decreases var task := run[|moves|].tasks[u]; if task.WEnd? then 1 else 0
  {
    assert |run| == |moves| + 1;
    var s := run[|moves|];
    var task := s.tasks[u];
    t := u;
    hide IsRun, StepOf, Inv;
    if task == WRun(q) {
      longer, more := run, moves;
    } else if task == WHold(q) || ((task.Rel? || task.Del?) && task.after == AHold(q)) {
      longer, more := FromHold(run, moves, u, q, v);
    } else {
      longer, more := Approach(run, moves, u, true, q, v);
      NextOnTheWay(s, u, q);
      var s1 := longer[|more|];
      if task == WEnd(q) {
        if s.global == [] {
          longer, more := FromHold(longer, more, u, q, v);
        } else {
          longer, more, t := FromHolder(longer, more, u, q, v);
        }
      } else if task.WBack? && task.q != q {
        longer, more := FromHold(longer, more, u, q, v);
      } else if task.WBack? || task.CLaunch? {
        longer, more, t := FromGlobal(longer, more, |s1.global| - 1, q, v);
      }
    }
  }

  /** A worker that runs the service executes its messages one after the other. */
  lemma Drain(run: seq<State>, moves: seq<Move>, t: nat, q: Id) returns (longer: seq<State>, more: seq<Move>)
    requires IsRun(run, moves) && t < |run[|moves|].tasks| && run[|moves|].tasks[t] == WRun(q)
    requires q < |run[|moves|].svcs| && run[|moves|].svcs[q].registered && run[|moves|].svcs[q].init
    ensures IsRun(longer, more) && run <= longer && |longer| == |more| + 1
    ensures q < |longer[|more|].svcs|
    ensures var v, w := run[|moves|].svcs[q], longer[|more|].svcs[q];
      w.registered && w.msgs == [] && w.pushed == v.pushed
    decreases |run[|moves|].svcs[q].msgs|
  {
    assert |run| == |moves| + 1;
    longer, more := run, moves;
    var s := run[|moves|];
    if s.svcs[q].msgs != [] {
      hide IsRun, StepOf, Inv;
      longer, more := Step(run, moves, t, true);
      WorkerTakes(s, t, true, q);
      var s1 := longer[|more|];
      longer, more := Approach(longer, more, t, true, q, s1.svcs[q]);
      NextOnTheWay(s1, t, q);
      longer, more := Drain(longer, more, t, q);
    }
  }

  /** Every run in which a service can be found and is marked can go on so that all messages that were pushed to it
      by then are executed, in the order in which they were pushed. */
  lemma CanExecuteAll(run: seq<State>, moves: seq<Move>, q: Id) returns (longer: seq<State>, more: seq<Move>)
    requires IsRun(run, moves) && q < |run[|moves|].svcs|
    requires run[|moves|].svcs[q].registered && run[|moves|].svcs[q].init
    ensures IsRun(longer, more) && run <= longer && |longer| == |more| + 1
    ensures Executed(longer, more, q, |more|) == run[|moves|].svcs[q].pushed
  {
    assert |run| == |moves| + 1;
    longer, more := run, moves;
    var v := run[|moves|].svcs[q];
    hide IsRun;
    if v.msgs != [] {
      var t;
      longer, more, t := FromAnywhere(run, moves, q);
      longer, more := Drain(longer, more, t, q);
    }
    AllTaken(longer, more, q);
  }

  /** Nothing of a service that can be found has been dropped. */
  lemma AllTaken(run: seq<State>, moves: seq<Move>, q: Id)
    requires IsRun(run, moves) && |run| == |moves| + 1 && q < |run[|moves|].svcs|
    requires run[|moves|].svcs[q].registered && run[|moves|].svcs[q].msgs == []
    ensures Executed(run, moves, q, |moves|) == run[|moves|].svcs[q].pushed
  {
    RunInv(run, moves, |moves|);
    assert SvcOk(run[|moves|], q);
    NotFreed(run[|moves|], q);
    TakenExactly(run, moves, q, |moves|);
    hide Inv, IsRun, Executed, Dropped, Sum, Count;
  }

  // ---------------------------------------------------------------------------
  // Freeing
  // ---------------------------------------------------------------------------

  /** A service of which the context has been freed, but not the queue. */
  predicate Abandoned(s: State, q: Id) {
    q < |s.svcs| && s.svcs[q].release && !s.svcs[q].registered && !s.svcs[q].freed
  }

  lemma StaysAbandoned(s: State, t: nat, again: bool, q: Id)
    requires Inv(s) && t < |s.tasks| && (s.tasks[t].WIdle? || s.tasks[t].WHold? || s.tasks[t].Orphan? || s.tasks[t].Drop?)
    requires Abandoned(s, q)
    ensures Abandoned(StepOf(s, t, again), q)
  {
    assert TaskOk(s, s.tasks[t]);
    hide Inv, Resume, ReleaseMove, CreateMove, ClientMove;
  }

  lemma AbandonStep(run: seq<State>, moves: seq<Move>, t: nat, q: Id) returns (longer: seq<State>, more: seq<Move>)
    requires IsRun(run, moves) && t < |run[|moves|].tasks| && Abandoned(run[|moves|], q)
    requires var task := run[|moves|].tasks[t]; task.WIdle? || task.WHold? || task.Orphan? || task.Drop?
    ensures IsRun(longer, more) && run <= longer && |longer| == |more| + 1
    ensures Inv(run[|moves|]) && longer[|more|] == StepOf(run[|moves|], t, true) && Abandoned(longer[|more|], q)
    ensures t < |longer[|more|].tasks|
  {
    longer, more := Step(run, moves, t, true);
    StaysAbandoned(run[|moves|], t, true, q);
    StepChangesOne(run[|moves|], t, true);
    hide Inv, StepOf, IsRun, Abandoned;
  }

  /** What a thread does with a queue of which the context is gone. */
  lemma NextOfOrphan(s: State, t: nat, q: Id)
    requires Inv(s) && t < |s.tasks| && Abandoned(s, q)
    ensures var task, s' := s.tasks[t], StepOf(s, t, true);
      && t < |s'.tasks| && |s'.svcs| >= |s.svcs|
      && (task.WIdle? && s.global != [] ==> s'.tasks[t] == WHold(s.global[0]) && s'.global == s.global[1..])
      && (task == WHold(q) ==> s'.tasks[t] == Orphan(q, AIdle))
      && (task == Orphan(q, AIdle) ==> s'.tasks[t] == Drop(q, AIdle))
      && (task == Drop(q, AIdle) && s.svcs[q].msgs != [] ==>
            s'.tasks[t] == task && s'.svcs[q].msgs == s.svcs[q].msgs[1..])
      && (task == Drop(q, AIdle) && s.svcs[q].msgs == [] ==> s'.tasks[t] == FreeQueue(q, AIdle))
      && (task == FreeQueue(q, AIdle) ==> s'.svcs[q].freed)
  {
    StepChangesOne(s, t, true);
    MoreServices(s, t, true);
    assert TaskOk(s, s.tasks[t]);
    hide Inv, ReleaseMove, CreateMove, ClientMove;
  }

  lemma FreedFromDrop(run: seq<State>, moves: seq<Move>, t: nat, q: Id) returns (longer: seq<State>, more: seq<Move>)
    requires IsRun(run, moves) && t < |run[|moves|].tasks| && Abandoned(run[|moves|], q)
    requires run[|moves|].tasks[t] == Drop(q, AIdle)
    ensures IsRun(longer, more) && run <= longer && |longer| == |more| + 1
    ensures q < |longer[|more|].svcs| && longer[|more|].svcs[q].freed
    decreases |run[|moves|].svcs[q].msgs|
  {
    var s := run[|moves|];
    longer, more := AbandonStep(run, moves, t, q);
    NextOfOrphan(s, t, q);
    var s1 := longer[|more|];
    hide IsRun, StepOf, Inv;
    if s.svcs[q].msgs != [] {
      longer, more := FreedFromDrop(longer, more, t, q);
    } else {
      longer, more := Step(longer, more, t, true);
      NextOfOrphan(s1, t, q);
    }
  }

  /** A queue on the global list of which the context has been freed can be freed too: new workers take the queues in
      front of it, and one drops its messages. By `TakenExactly` and `RunSafe`, nothing of it is left then. */
  lemma CanFree(run: seq<State>, moves: seq<Move>, i: nat, q: Id) returns (longer: seq<State>, more: seq<Move>)
    requires IsRun(run, moves) && i < |run[|moves|].global| && run[|moves|].global[i] == q
    requires Abandoned(run[|moves|], q)
    ensures IsRun(longer, more) && run <= longer && |longer| == |more| + 1
    ensures q < |longer[|more|].svcs| && longer[|more|].svcs[q].freed
    decreases i
  {
    assert |run| == |moves| + 1;
    var s := run[|moves|];
    var t := |s.tasks|;
    longer, more := Extend(run, moves, Spawn(WIdle), s.(tasks := s.tasks + [WIdle]));
    hide IsRun, StepOf, Inv;
    var s1 := longer[|more|];
    longer, more := AbandonStep(longer, more, t, q);
    NextOfOrphan(s1, t, q);
    if i == 0 {
      var s2 := longer[|more|];
      longer, more := AbandonStep(longer, more, t, q);
      NextOfOrphan(s2, t, q);
      var s3 := longer[|more|];
      longer, more := AbandonStep(longer, more, t, q);
      NextOfOrphan(s3, t, q);
      longer, more := FreedFromDrop(longer, more, t, q);
    } else {
      longer, more := CanFree(longer, more, i - 1, q);
    }
  }
}
