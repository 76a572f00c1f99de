/** Every step of every thread keeps the invariant of the scheduler. */
module SchedulerSteps {
  import opened Scheduler
  import opened SchedulerInv

  /** A step does one of three things to the global list. */
  ghost predicate ListStep(s: State, s': State, q: Id) {
    || s'.global == s.global
    || s'.global == s.global + [q]
    || (s.global != [] && q == s.global[0] && s'.global == s.global[1..])
  }

  /** How the sums over tasks and list change when task `t` becomes `task`. */
  lemma Sums(s: State, s': State, t: nat, task: Task, q: Id, n: Id)
    requires t < |s.tasks| && s'.tasks == s.tasks[t := task] && ListStep(s, s', q)
    ensures Sum(s'.tasks, MRef(n)) == Sum(s.tasks, MRef(n)) - Refs(s.tasks[t], n) + Refs(task, n) >= Refs(task, n)
    ensures Sum(s'.tasks, MDel(n)) == Sum(s.tasks, MDel(n)) - Deletes(s.tasks[t], n) + Deletes(task, n)
    ensures Sum(s'.tasks, MPlace(n)) == Sum(s.tasks, MPlace(n)) - Places(s.tasks[t], n) + Places(task, n)
    ensures Sum(s'.tasks, MNew(n)) == Sum(s.tasks, MNew(n)) - News(s.tasks[t], n) + News(task, n)
    ensures Sum(s.tasks, MRef(n)) >= Refs(s.tasks[t], n)
    ensures Sum(s.tasks, MDel(n)) >= Deletes(s.tasks[t], n)
    ensures Sum(s.tasks, MPlace(n)) >= Places(s.tasks[t], n)
    ensures s'.global == s.global + [q] ==> Count(s'.global, n) == Count(s.global, n) + One(q, n)
    ensures s.global != [] && s'.global == s.global[1..] ==> Count(s.global, n) == One(s.global[0], n) + Count(s'.global, n)
  {
    SumUpdate(s.tasks, MRef(n), t, task);
    SumUpdate(s.tasks, MDel(n), t, task);
    SumUpdate(s.tasks, MPlace(n), t, task);
    SumUpdate(s.tasks, MNew(n), t, task);
    CountAppend(s.global, n, q);
    if s.global != [] { CountTail(s.global, n); }
  }

  /** The queue that a step moves on the global list. */
  function Moved(s: State, t: nat): Id
    requires t < |s.tasks|
  {
    match s.tasks[t]
    case WBack(q, _) => q
    case Orphan(q, _) => q
    case Del(n, _) => n
    case PGot(n, _) => n
    case CLaunch(q, _) => q
    case _ => if s.global != [] then s.global[0] else 0
  }

  lemma WorkerStep(s: State, t: nat, again: bool, n: Id)
    requires Inv(s) && t < |s.tasks| && n < |s.svcs|
    requires Works(s.tasks[t])
    ensures SvcOk(StepOf(s, t, again), n)
  {
    hide Sum, Count, OrphanMove, ReleaseMove, CreateMove, ClientMove;
    var s' := StepOf(s, t, again);
    Sums(s, s', t, s'.tasks[t], Moved(s, t), n);
    assert SvcOk(s, n) && TaskOk(s, s.tasks[t]);
    hide Inv;
  }

  lemma OrphanStep(s: State, t: nat, again: bool, n: Id)
    requires Inv(s) && t < |s.tasks| && n < |s.svcs|
    requires Orphans(s.tasks[t])
    ensures SvcOk(StepOf(s, t, again), n)
  {
    hide Sum, Count, WorkerMove, ReleaseMove, CreateMove, ClientMove;
    var s' := StepOf(s, t, again);
    Sums(s, s', t, s'.tasks[t], Moved(s, t), n);
    assert SvcOk(s, n) && TaskOk(s, s.tasks[t]);
    hide Inv;
  }

  lemma ReleaseStep(s: State, t: nat, again: bool, n: Id)
    requires Inv(s) && t < |s.tasks| && n < |s.svcs|
    requires Releases(s.tasks[t])
    ensures SvcOk(StepOf(s, t, again), n)
  {
    hide Sum, Count, WorkerMove, OrphanMove, CreateMove, ClientMove;
    var s' := StepOf(s, t, again);
    Sums(s, s', t, s'.tasks[t], Moved(s, t), n);
    assert SvcOk(s, n) && TaskOk(s, s.tasks[t]);
    hide Inv;
  }

  lemma ClientStep(s: State, t: nat, again: bool, n: Id)
    requires Inv(s) && t < |s.tasks| && n < |s.svcs|
    requires var task := s.tasks[t]; !Works(task) && !Orphans(task) && !Releases(task) && !Creates(task)
    ensures SvcOk(StepOf(s, t, again), n)
  {
    hide Sum, Count, WorkerMove, OrphanMove, ReleaseMove, CreateMove;
    var s' := StepOf(s, t, again);
    Sums(s, s', t, s'.tasks[t], Moved(s, t), n);
    assert SvcOk(s, n) && TaskOk(s, s.tasks[t]);
    hide Inv;
  }

  /** The creator whose service did not start takes it away again. */
  lemma FailStep(s: State, t: nat, again: bool, n: Id)
    requires Inv(s) && t < |s.tasks| && n < |s.svcs| && s.tasks[t].CFail?
    ensures SvcOk(StepOf(s, t, again), n)
  {
    hide Sum, Count, WorkerMove, OrphanMove, ReleaseMove, ClientMove;
    var s' := StepOf(s, t, again);
    Sums(s, s', t, s'.tasks[t], Moved(s, t), n);
    assert SvcOk(s, n) && TaskOk(s, s.tasks[t]);
    hide Inv, TaskOk;
  }

  lemma LaunchStep(s: State, t: nat, again: bool, n: Id)
    requires Inv(s) && t < |s.tasks| && n < |s.svcs|
    requires Creates(s.tasks[t]) && !s.tasks[t].CFail?
    ensures SvcOk(StepOf(s, t, again), n)
  {
    hide Sum, Count, WorkerMove, OrphanMove, ReleaseMove, ClientMove;
    var s' := StepOf(s, t, again);
    Sums(s, s', t, s'.tasks[t], Moved(s, t), n);
    assert SvcOk(s, n) && TaskOk(s, s.tasks[t]);
    hide Inv, TaskOk;
  }

  lemma {:induction false} NothingKnown(s: State, tasks: seq<Task>, m: Measure)
    requires m.n >= |s.svcs| && forall k :: 0 <= k < |tasks| ==> Known(|s.svcs|, tasks[k])
    ensures Sum(tasks, m) == 0
  {
    if tasks != [] {
      NothingKnown(s, tasks[..|tasks| - 1], m);
      assert Known(|s.svcs|, tasks[|tasks| - 1]);
    }
  }

  lemma {:induction false} CountIn(l: seq<Id>, n: Id)
    ensures Count(l, n) > 0 <==> n in l
  {
    if l != [] {
      CountIn(l[..|l| - 1], n);
      assert l == l[..|l| - 1] + [l[|l| - 1]];
    }
  }

  /** No task refers to a service that is not there yet. */
  lemma NobodyKnows(s: State)
    requires Inv(s)
    ensures var n := |s.svcs|;
      && Sum(s.tasks, MRef(n)) == Sum(s.tasks, MDel(n)) == Sum(s.tasks, MPlace(n)) == Sum(s.tasks, MNew(n)) == 0
      && Count(s.global, n) == 0
  {
    var n := |s.svcs|;
    assert forall k :: 0 <= k < |s.tasks| ==> TaskOk(s, s.tasks[k]);
    NothingKnown(s, s.tasks, MRef(n));
    NothingKnown(s, s.tasks, MDel(n));
    NothingKnown(s, s.tasks, MPlace(n));
    NothingKnown(s, s.tasks, MNew(n));
    CountIn(s.global, n);
    hide Sum, Count, SvcOk, TaskOk;
  }

  /** A new service starts with nothing but what its creator holds. */
  lemma NewStep(s: State, t: nat, again: bool)
    requires Inv(s) && t < |s.tasks| && s.tasks[t].CStart?
    ensures SvcOk(StepOf(s, t, again), |s.svcs|)
  {
    NobodyKnows(s);
    hide Sum, Count, WorkerMove, OrphanMove, ReleaseMove, ClientMove;
    var s', n := StepOf(s, t, again), |s.svcs|;
    Sums(s, s', t, CInit(n), Moved(s, t), n);
    hide Inv;
  }

  /** What a step leaves of a service that others rely on. */
  lemma ServiceKept(s: State, t: nat, again: bool, n: Id)
    requires Inv(s) && t < |s.tasks| && n < |s.svcs|
    ensures n < |StepOf(s, t, again).svcs|
    ensures var v, w := s.svcs[n], StepOf(s, t, again).svcs[n];
      (v.release ==> w.release) && (v.init ==> w.init) && (v.release && v.msgs == [] ==> w.msgs == [])
  {
    var task := s.tasks[t];
    assert TaskOk(s, task) && SvcOk(s, n);
    SumUpdate(s.tasks, MRef(n), t, Done);
    hide Inv, Sum, Count, Resume, IfDeleted, TaskOk;
    if Works(task) {
      hide OrphanMove, ReleaseMove, CreateMove, ClientMove;
    } else if Orphans(task) {
      hide WorkerMove, ReleaseMove, CreateMove, ClientMove;
    } else if Releases(task) {
      hide WorkerMove, OrphanMove, CreateMove, ClientMove;
    } else if Creates(task) {
      hide WorkerMove, OrphanMove, ReleaseMove, ClientMove;
    } else {
      hide WorkerMove, OrphanMove, ReleaseMove, CreateMove;
    }
  }

  /** The tasks that do not move still find what they rely on. */
  lemma OtherTask(s: State, t: nat, again: bool, k: nat)
    requires Inv(s) && t < |s.tasks| && k < |s.tasks| && k != t
    ensures TaskOk(StepOf(s, t, again), s.tasks[k])
  {
    var task := s.tasks[k];
    assert TaskOk(s, task);
    if task.Drop? || task.FreeQueue? || task.WRun? || task.WMsg? || task.WEnd? {
      ServiceKept(s, t, again, task.q);
    }
    MoreServices(s, t, again);
    hide Inv, StepOf;
  }

  lemma MoreServices(s: State, t: nat, again: bool)
    requires Inv(s) && t < |s.tasks|
    ensures |StepOf(s, t, again).svcs| >= |s.svcs|
  {
    var task := s.tasks[t];
    assert TaskOk(s, task);
    hide Inv, Sum, Count, Resume, IfDeleted, TaskOk;
    if Works(task) {
      hide OrphanMove, ReleaseMove, CreateMove, ClientMove;
    } else if Orphans(task) {
      hide WorkerMove, ReleaseMove, CreateMove, ClientMove;
    } else if Releases(task) {
      hide WorkerMove, OrphanMove, CreateMove, ClientMove;
    } else if Creates(task) {
      hide WorkerMove, OrphanMove, ReleaseMove, ClientMove;
    } else {
      hide WorkerMove, OrphanMove, ReleaseMove, CreateMove;
    }
  }

  /** The tasks that have something to go on with afterwards. */
  predicate HasAfter(task: Task) {
    task.Orphan? || task.Drop? || task.FreeQueue? || task.Rel? || task.Del?
  }

  lemma WorkerKnown(s: State, t: nat, again: bool)
    requires Inv(s) && t < |s.tasks| && Works(s.tasks[t])
    ensures var s' := StepOf(s, t, again); |s'.tasks| == |s.tasks| && Known(|s'.svcs|, s'.tasks[t])
  {
    var task, size := s.tasks[t], |s.svcs|;
    assert TaskOk(s, task);
    assert s.global != [] ==> s.global[0] < size;
    hide Inv, Sum, Count, Resume, IfDeleted, TaskOk, OrphanMove, ReleaseMove, CreateMove, ClientMove;
  }

  lemma OrphanKnown(s: State, t: nat, again: bool)
    requires Inv(s) && t < |s.tasks| && Orphans(s.tasks[t])
    ensures var s' := StepOf(s, t, again); |s'.tasks| == |s.tasks| && Known(|s'.svcs|, s'.tasks[t])
  {
    var task, size := s.tasks[t], |s.svcs|;
    assert TaskOk(s, task);
    if HasAfter(task) { assert Known(size, Resume(task.after)); }
    hide Inv, Sum, Count, Resume, IfDeleted, TaskOk, WorkerMove, ReleaseMove, CreateMove, ClientMove;
  }

  lemma ReleaseKnown(s: State, t: nat, again: bool)
    requires Inv(s) && t < |s.tasks| && Releases(s.tasks[t])
    ensures var s' := StepOf(s, t, again); |s'.tasks| == |s.tasks| && Known(|s'.svcs|, s'.tasks[t])
  {
    var task, size := s.tasks[t], |s.svcs|;
    assert TaskOk(s, task);
    if HasAfter(task) { assert Known(size, Resume(task.after)) && KnownAfter(size, IfDeleted(task.after)); }
    hide Inv, Sum, Count, Resume, IfDeleted, TaskOk, WorkerMove, OrphanMove, CreateMove, ClientMove;
  }

  lemma MovedKnown(s: State, t: nat, again: bool)
    requires Inv(s) && t < |s.tasks|
    ensures var s' := StepOf(s, t, again); |s'.tasks| == |s.tasks| && Known(|s'.svcs|, s'.tasks[t])
  {
    var task := s.tasks[t];
    assert TaskOk(s, task);
    if Works(task) {
      WorkerKnown(s, t, again);
    } else if Orphans(task) {
      OrphanKnown(s, t, again);
    } else if Releases(task) {
      ReleaseKnown(s, t, again);
    }
    hide Inv, Sum, Count, Resume, IfDeleted, TaskOk, WorkerMove, OrphanMove, ReleaseMove;
  }

  /** A worker that finds the context of its queue finds it marked: as long as it is not, the queue is with its
      creator. */
  lemma FoundIsMarked(s: State, t: nat, q: Id)
    requires Inv(s) && t < |s.tasks| && s.tasks[t] == WHold(q) && q < |s.svcs| && s.svcs[q].registered
    ensures s.svcs[q].init
  {
    assert SvcOk(s, q);
    if Sum(s.tasks, MNew(q)) >= 1 {
      var u := SomeHolder(s.tasks, MNew(q));
      TwoHolders(s, MPlace(q), t, u);
    }
    hide Inv, Sum, Count;
  }

  lemma MovedWorker(s: State, t: nat, again: bool)
    requires Inv(s) && t < |s.tasks| && Works(s.tasks[t])
    ensures TaskOk(StepOf(s, t, again), StepOf(s, t, again).tasks[t])
  {
    MovedKnown(s, t, again);
    var task := s.tasks[t];
    assert TaskOk(s, task);
    if task.WHold? && s.svcs[task.q].registered { FoundIsMarked(s, t, task.q); }
    hide Inv, Sum, Count, Known, KnownAfter, IfDeleted, OrphanMove, ReleaseMove, CreateMove, ClientMove;
  }

  lemma MovedOrphan(s: State, t: nat, again: bool)
    requires Inv(s) && t < |s.tasks| && Orphans(s.tasks[t])
    ensures TaskOk(StepOf(s, t, again), StepOf(s, t, again).tasks[t])
  {
    MovedKnown(s, t, again);
    assert TaskOk(s, s.tasks[t]);
    hide Inv, Sum, Count, Known, KnownAfter, IfDeleted, WorkerMove, ReleaseMove, CreateMove, ClientMove;
  }

  lemma MovedRelease(s: State, t: nat, again: bool)
    requires Inv(s) && t < |s.tasks| && Releases(s.tasks[t])
    ensures TaskOk(StepOf(s, t, again), StepOf(s, t, again).tasks[t])
  {
    MovedKnown(s, t, again);
    assert TaskOk(s, s.tasks[t]);
    hide Inv, Sum, Count, Known, KnownAfter, IfDeleted, WorkerMove, OrphanMove, CreateMove, ClientMove;
  }

  lemma MovedTask(s: State, t: nat, again: bool)
    requires Inv(s) && t < |s.tasks|
    ensures TaskOk(StepOf(s, t, again), StepOf(s, t, again).tasks[t])
  {
    MovedKnown(s, t, again);
    var task := s.tasks[t];
    if Works(task) {
      MovedWorker(s, t, again);
    } else if Orphans(task) {
      MovedOrphan(s, t, again);
    } else if Releases(task) {
      MovedRelease(s, t, again);
    }
    hide Inv, Sum, Count, Known, KnownAfter, WorkerMove, OrphanMove, ReleaseMove;
  }

  lemma StepRange(s: State, t: nat, again: bool)
    requires Inv(s) && t < |s.tasks|
    ensures var s' := StepOf(s, t, again);
      forall k :: 0 <= k < |s'.global| ==> s'.global[k] < |s'.svcs|
  {
    var task := s.tasks[t];
    assert TaskOk(s, task);
    hide SvcOk, TaskOk, Resume, IfDeleted;
    if Works(task) {
      hide OrphanMove, ReleaseMove, CreateMove, ClientMove;
    } else if Orphans(task) {
      hide WorkerMove, ReleaseMove, CreateMove, ClientMove;
    } else if Releases(task) {
      hide WorkerMove, OrphanMove, CreateMove, ClientMove;
    } else if Creates(task) {
      hide WorkerMove, OrphanMove, ReleaseMove, ClientMove;
    } else {
      hide WorkerMove, OrphanMove, ReleaseMove, CreateMove;
    }
  }

  /** Every step of every task keeps the invariant. */
  lemma StepInv(s: State, t: nat, again: bool)
    requires Inv(s) && t < |s.tasks|
    ensures Inv(StepOf(s, t, again))
  {
    var s' := StepOf(s, t, again);
    forall n: Id | n < |s.svcs| ensures SvcOk(s', n) {
      var task := s.tasks[t];
      if Works(task) {
        WorkerStep(s, t, again, n);
      } else if Orphans(task) {
        OrphanStep(s, t, again, n);
      } else if Releases(task) {
        ReleaseStep(s, t, again, n);
      } else if Creates(task) {
        if task.CFail? { FailStep(s, t, again, n); } else { LaunchStep(s, t, again, n); }
      } else {
        ClientStep(s, t, again, n);
      }
    }
    if s.tasks[t].CStart? { NewStep(s, t, again); }
    forall k | 0 <= k < |s'.tasks| ensures TaskOk(s', s'.tasks[k]) {
      if k == t { MovedTask(s, t, again); } else { OtherTask(s, t, again, k); }
    }
    StepRange(s, t, again);
    hide SvcOk, TaskOk, Sum, Count;
  }
}
