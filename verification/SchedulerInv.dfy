/** The invariant of the scheduler: how references and places are counted, and what holds of every service
    and every thread. */
module SchedulerInv {
  import opened Scheduler

  // ---------------------------------------------------------------------------
  // Counting
  // ---------------------------------------------------------------------------

  /** What is added up over the tasks, for one service: the references to its context, the places its
      queue is held at, the tasks that are about to mark its queue, the creators that have not handed it over. */
  datatype Measure = MRef(n: Id) | MPlace(n: Id) | MDel(n: Id) | MNew(n: Id)

  function One(a: Id, b: Id): nat { if a == b then 1 else 0 }

  function PlaceAfter(a: After, n: Id): nat {
    match a
    case AHold(q) => One(q, n)
    case ALaunch(q) => One(q, n)
    case AGone(q) => One(q, n)
    case AFail(q) => One(q, n)
    case AOrphan(q) => One(q, n)
    case _ => 0
  }

  function Refs(task: Task, n: Id): nat {
    match task
    case WRun(q) => One(q, n)
    case WMsg(q) => One(q, n)
    case WEnd(q) => One(q, n)
    case WBack(q, _) => One(q, n)
    case Rel(m, _) => One(m, n)
    case PGot(m, _) => One(m, n)
    case CInit(q) => One(q, n)
    case _ => 0
  }

  function Places(task: Task, n: Id): nat {
    match task
    case WHold(q) => One(q, n)
    case WRun(q) => One(q, n)
    case WMsg(q) => One(q, n)
    case WEnd(q) => One(q, n)
    case WBack(q, nq) => One(q, n) + One(nq, n)
    case Orphan(q, a) => One(q, n) + PlaceAfter(a, n)
    case Drop(q, a) => One(q, n) + PlaceAfter(a, n)
    case FreeQueue(q, a) => One(q, n) + PlaceAfter(a, n)
    case Rel(_, a) => PlaceAfter(a, n)
    case Del(_, a) => PlaceAfter(a, n)
    case CInit(q) => One(q, n)
    case CSetInit(q) => One(q, n)
    case CLaunch(q, _) => One(q, n)
    case CFail(q) => One(q, n)
    case _ => 0
  }

  function Deletes(task: Task, n: Id): nat {
    match task
    case Del(m, _) => One(m, n)
    case _ => 0
  }

  /** A creator that has not marked the context yet: it has the queue. */
  function News(task: Task, n: Id): nat {
    match task
    case CInit(q) => One(q, n)
    case Rel(_, a) => (match a case ALaunch(q) => One(q, n) case AFail(q) => One(q, n) case _ => 0)
    case CSetInit(q) => One(q, n)
    case Del(_, a) => (match a case AFail(q) => One(q, n) case _ => 0)
    case CFail(q) => One(q, n)
    case _ => 0
  }

  function Value(m: Measure, task: Task): nat {
    match m
    case MRef(n) => Refs(task, n)
    case MPlace(n) => Places(task, n)
    case MDel(n) => Deletes(task, n)
    case MNew(n) => News(task, n)
  }

  function Sum(tasks: seq<Task>, m: Measure): nat {
    if tasks == [] then 0 else Sum(tasks[..|tasks| - 1], m) + Value(m, tasks[|tasks| - 1])
  }

  lemma {:induction false} SumUpdate(tasks: seq<Task>, m: Measure, t: nat, task: Task)
    requires t < |tasks|
    ensures Sum(tasks[t := task], m) == Sum(tasks, m) - Value(m, tasks[t]) + Value(m, task)
    ensures Sum(tasks, m) >= Value(m, tasks[t])
  {
    var n := |tasks| - 1;
    if t < n {
      assert tasks[t := task][..n] == tasks[..n][t := task];
      SumUpdate(tasks[..n], m, t, task);
    } else {
      assert tasks[t := task][..n] == tasks[..n];
    }
  }

  lemma SumAppend(tasks: seq<Task>, m: Measure, task: Task)
    ensures Sum(tasks + [task], m) == Sum(tasks, m) + Value(m, task)
  {
    assert (tasks + [task])[..|tasks|] == tasks;
  }

  lemma TwoHolders(s: State, m: Measure, t: nat, u: nat)
    requires t < |s.tasks| && u < |s.tasks| && t != u
    ensures Sum(s.tasks, m) >= Value(m, s.tasks[t]) + Value(m, s.tasks[u])
  {
    SumUpdate(s.tasks, m, t, Done);
    SumUpdate(s.tasks[t := Done], m, u, Done);
  }

  lemma {:induction false} SomeHolder(tasks: seq<Task>, m: Measure) returns (t: nat)
    requires Sum(tasks, m) > 0
    ensures t < |tasks| && Value(m, tasks[t]) > 0
  {
    var n := |tasks| - 1;
    if Value(m, tasks[n]) > 0 { t := n; } else { t := SomeHolder(tasks[..n], m); }
  }

  /** How often a queue is in the global list. */
  function Count(l: seq<Id>, n: Id): nat {
    if l == [] then 0 else Count(l[..|l| - 1], n) + One(l[|l| - 1], n)
  }

  lemma CountAppend(l: seq<Id>, n: Id, q: Id)
    ensures Count(l + [q], n) == Count(l, n) + One(q, n)
  {
    assert (l + [q])[..|l|] == l;
  }

  lemma {:induction false} CountTail(l: seq<Id>, n: Id)
    requires l != []
    ensures Count(l, n) == One(l[0], n) + Count(l[1..], n)
  {
    if |l| > 1 {
      var front := l[..|l| - 1];
      CountTail(front, n);
      assert l[1..][..|l| - 2] == front[1..];
    }
  }

  // ---------------------------------------------------------------------------
  // The invariant
  // ---------------------------------------------------------------------------

  /** The places where the queue of `n` is: the global list and the hands of threads. */
  function WhereIs(s: State, n: Id): nat {
    Count(s.global, n) + Sum(s.tasks, MPlace(n))
  }

  ghost predicate SvcOk(s: State, n: Id)
    requires n < |s.svcs|
  {
    var v := s.svcs[n];
    // the count of the context
    && v.ref == (if v.registered then 1 else 0) + Sum(s.tasks, MRef(n))
    && Sum(s.tasks, MDel(n)) == (if v.ref == 0 && !v.release then 1 else 0)
    && (v.release ==> v.ref == 0)
    // the place of the queue
    && WhereIs(s, n) == (if !v.freed && (v.inGlobal || v.release) then 1 else 0)
    && (v.freed ==> v.release && v.msgs == [])
    && (!v.inGlobal && !v.release ==> v.msgs == [])
    // a service that can be found has been marked, or is still with its creator
    && (v.registered && !v.init ==> Sum(s.tasks, MNew(n)) >= 1)
    // its contents
    && v.pushed == v.taken + v.msgs
  }

  ghost predicate TaskOk(s: State, task: Task) {
    && Known(|s.svcs|, task)
    && (task.Drop? ==> s.svcs[task.q].release)
    && (task.FreeQueue? ==> s.svcs[task.q].release && s.svcs[task.q].msgs == [])
    && (task.Rel? && task.after.ALaunch? ==> task.n == task.after.q)
    && (task.WRun? || task.WMsg? || task.WEnd? ==> s.svcs[task.q].init)
  }

  ghost predicate Inv(s: State) {
    && (forall n: Id :: n < |s.svcs| ==> SvcOk(s, n))
    && (forall t :: 0 <= t < |s.tasks| ==> TaskOk(s, s.tasks[t]))
    && (forall k :: 0 <= k < |s.global| ==> s.global[k] < |s.svcs|)
  }
}
