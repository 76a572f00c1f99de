/** What becomes of the messages that are sent and of the services that are retired, over whole runs. */
module SchedulerSends {
  import opened Scheduler
  import opened SchedulerInv
  import opened SchedulerSteps
  import opened SchedulerRuns

  // ---------------------------------------------------------------------------
  // Steps of one thread
  // ---------------------------------------------------------------------------

  /** A move of thread `t`. */
  predicate Moves(m: Move, t: nat) { m.Go? && m.t == t }

  lemma StepChangesOne(s: State, t: nat, again: bool)
    requires Inv(s) && t < |s.tasks|
    ensures var s' := StepOf(s, t, again); |s'.tasks| == |s.tasks| && s'.tasks == s.tasks[t := s'.tasks[t]]
  {
    var task := s.tasks[t];
    assert TaskOk(s, task);
    assert s.tasks[t := task] == s.tasks;
    hide Inv, Sum, Count, Resume, IfDeleted, TaskOk;
    if Works(task) {
      hide OrphanMove, ReleaseMove, CreateMove, ClientMove;
    } else if Orphans(task) {
      hide WorkerMove, ReleaseMove, CreateMove, ClientMove;
    } else if Releases(task) {
      hide WorkerMove, OrphanMove, CreateMove, ClientMove;
    } else if Creates(task) {
      hide WorkerMove, OrphanMove, ReleaseMove, ClientMove;
    } else {
      hide WorkerMove, OrphanMove, ReleaseMove, CreateMove;
    }
  }

  /** What a thread is doing changes by its own moves only. */
  lemma OthersStay(s: State, m: Move, s': State, t: nat)
    requires Inv(s) && Next(s, m, s') && t < |s.tasks|
    ensures t < |s'.tasks| && (!Moves(m, t) ==> s'.tasks[t] == s.tasks[t])
  {
    match m
    case Spawn(task) =>
    case Go(u, again) =>
      StepChangesOne(s, u, again);
      hide StepOf, Inv;
  }

  /** The next state of a thread that sends to `n`, retires it, grabs it, or releases it afterwards. */
  lemma OwnStep(s: State, t: nat, again: bool)
    requires Inv(s) && t < |s.tasks|
    ensures var task, task' := s.tasks[t], StepOf(s, t, again).tasks[t];
      && (task.PStart? ==> task' == if Live(s, task.n) then PGot(task.n, task.m) else Done)
      && (task.PGot? ==> task' == Rel(task.n, ADone))
      && (task.TStart? || task.GStart? ==> task' == if Live(s, task.n) then Rel(task.n, ADone) else Done)
      && (task.Rel? && task.after.ADone? ==> task' == Done || task' == Del(task.n, ADone))
      && (task.Del? && task.after.ADone? ==> task' == Done)
      && (task.Done? ==> task' == Done)
  {
    assert TaskOk(s, s.tasks[t]);
    hide Inv, TaskOk, WorkerMove, OrphanMove, CreateMove, SetSvc, AddRef, MqPush, MarkRelease;
  }

  // ---------------------------------------------------------------------------
  // Sending
  // ---------------------------------------------------------------------------

  /** Step `i` is the one in which thread `t` looks up the service that it sends to. */
  ghost predicate Looks(run: seq<State>, moves: seq<Move>, t: nat, n: Id, m: Msg, i: nat)
    requires |run| == |moves| + 1
  {
    i < |moves| && Moves(moves[i], t) && t < |run[i].tasks| && run[i].tasks[t] == PStart(n, m)
  }

  /** Step `i` is one in which thread `t` pushes a message. */
  ghost predicate PushesAt(run: seq<State>, moves: seq<Move>, t: nat, i: nat)
    requires |run| == |moves| + 1
  {
    i < |moves| && Moves(moves[i], t) && t < |run[i].tasks| && run[i].tasks[t].PGot?
  }

  /** How often thread `t` pushes a message from step `j` on, before step `k`. */
  ghost function Pushes(run: seq<State>, moves: seq<Move>, t: nat, j: nat, k: nat): nat
    requires j <= k < |run| == |moves| + 1
  {
    if j == k then 0 else Pushes(run, moves, t, j, k - 1) + if PushesAt(run, moves, t, k - 1) then 1 else 0
  }

  /** What a thread that has found its service is doing, and how often it has pushed the message so far. */
  predicate Sending(task: Task, n: Id, m: Msg, pushes: nat) {
    || (task == PGot(n, m) && pushes == 0)
    || ((task == Rel(n, ADone) || task == Del(n, ADone) || task == Done) && pushes == 1)
  }

  ghost predicate SendState(run: seq<State>, moves: seq<Move>, t: nat, n: Id, m: Msg, j: nat, k: nat, i: nat)
    requires j <= k < |run| == |moves| + 1
  {
    && t < |run[k].tasks|
    && var task, pushes := run[k].tasks[t], Pushes(run, moves, t, j, k);
       || (task == PStart(n, m) && pushes == 0)
       || (j <= i < k && Looks(run, moves, t, n, m, i)
           && if Live(run[i], n) then Sending(task, n, m, pushes) else task == Done && pushes == 0)
  }

  lemma SendStep(run: seq<State>, moves: seq<Move>, t: nat, n: Id, m: Msg, j: nat, k: nat, i: nat)
    returns (i': nat)
    requires IsRun(run, moves) && j < k < |run| && SendState(run, moves, t, n, m, j, k - 1, i)
    ensures SendState(run, moves, t, n, m, j, k, i')
  {
    var s, move, s' := run[k - 1], moves[k - 1], run[k];
    RunInv(run, moves, k - 1);
    assert Next(s, move, s') by { assert run[k - 1 + 1] == run[k]; }
    OthersStay(s, move, s', t);
    if Moves(move, t) { OwnStep(s, t, move.again); }
    i' := if s.tasks[t] == PStart(n, m) then k - 1 else i;
    hide IsRun, Inv, StepOf, Live;
  }

  lemma {:induction false} SendPhases(run: seq<State>, moves: seq<Move>, t: nat, n: Id, m: Msg, j: nat, k: nat)
    returns (i: nat)
    requires IsRun(run, moves) && j <= k < |run| && t < |run[j].tasks| && run[j].tasks[t] == PStart(n, m)
    ensures SendState(run, moves, t, n, m, j, k, i)
  {
    hide IsRun;
    if j == k {
      i := 0;
    } else {
      i := SendPhases(run, moves, t, n, m, j, k - 1);
      hide SendState;
      i := SendStep(run, moves, t, n, m, j, k, i);
    }
  }

  lemma {:induction false} PushedSomewhere(run: seq<State>, moves: seq<Move>, t: nat, j: nat, k: nat) returns (p: nat)
    requires j <= k < |run| == |moves| + 1 && Pushes(run, moves, t, j, k) > 0
    ensures j <= p < k && PushesAt(run, moves, t, p)
  {
    if PushesAt(run, moves, t, k - 1) { p := k - 1; } else { p := PushedSomewhere(run, moves, t, j, k - 1); }
  }

  /** What a push does: the message comes to the end of what was ever pushed to that service, and no other service
      gets one. */
  lemma PushAppends(run: seq<State>, moves: seq<Move>, t: nat, p: nat, q: Id)
    requires IsRun(run, moves) && PushesAt(run, moves, t, p) && q < |run[p].svcs|
    ensures q < |run[p + 1].svcs|
    ensures var task := run[p].tasks[t];
      run[p + 1].svcs[q].pushed == run[p].svcs[q].pushed + if q == task.n then [task.m] else []
  {
    RunInv(run, moves, p);
    StepAdvances(run[p], t, moves[p].again, q);
    assert Next(run[p], moves[p], run[p + 1]);
    hide IsRun, Inv, StepOf;
  }

  /** A thread pushes what it was asked to send. */
  lemma {:induction false} PushesOwn(run: seq<State>, moves: seq<Move>, t: nat, n: Id, m: Msg, j: nat, p: nat)
    requires IsRun(run, moves) && j <= p < |moves| && t < |run[j].tasks| && run[j].tasks[t] == PStart(n, m)
    requires PushesAt(run, moves, t, p)
    ensures run[p].tasks[t] == PGot(n, m)
  {
    var i := SendPhases(run, moves, t, n, m, j, p);
    hide IsRun, Pushes, Looks, Live;
  }

  /** Whatever is sent to a service that can be found is delivered: a thread that was asked to send `m` to `n` and
      has finished looked `n` up once; if it was not registered then, nothing was pushed, and if it was, `m` was
      pushed to `n` in between, exactly once, by step `p`. */
  lemma SentOnce(run: seq<State>, moves: seq<Move>, t: nat, n: Id, m: Msg, j: nat, k: nat) returns (i: nat, p: nat)
    requires IsRun(run, moves) && j <= k < |run| && t < |run[j].tasks| && run[j].tasks[t] == PStart(n, m)
    requires t < |run[k].tasks| && run[k].tasks[t] == Done
    ensures j <= i < k && Looks(run, moves, t, n, m, i)
    ensures Pushes(run, moves, t, j, k) == if Live(run[i], n) then 1 else 0
    ensures Live(run[i], n) ==>
      && j <= p < k && PushesAt(run, moves, t, p) && run[p].tasks[t] == PGot(n, m)
      && n < |run[p].svcs| && n < |run[p + 1].svcs| && run[p + 1].svcs[n].pushed == run[p].svcs[n].pushed + [m]
  {
    i := SendPhases(run, moves, t, n, m, j, k);
    p := 0;
    if Live(run[i], n) {
      p := PushedSomewhere(run, moves, t, j, k);
      PushesOwn(run, moves, t, n, m, j, p);
      RunInv(run, moves, p);
      assert TaskOk(run[p], run[p].tasks[t]);
      hide Inv, IsRun, Pushes, Looks, Live;
      PushAppends(run, moves, t, p, n);
    }
    hide Inv, IsRun, Pushes, Live;
  }

  // ---------------------------------------------------------------------------
  // Receiving
  // ---------------------------------------------------------------------------

  /** A worker takes a message of `q`, to run the callback with it. */
  predicate Executes(s: State, m: Move, q: Id) {
    m.Go? && m.t < |s.tasks| && s.tasks[m.t] == WRun(q) && q < |s.svcs| && s.svcs[q].msgs != []
  }

  /** A thread that frees the queue of `q` drops one of its messages. */
  predicate Drops(s: State, m: Move, q: Id) {
    m.Go? && m.t < |s.tasks| && s.tasks[m.t].Drop? && s.tasks[m.t].q == q && q < |s.svcs| && s.svcs[q].msgs != []
  }

  /** A worker that has found the context of its queue takes the message at the front and runs the callback; if
      there is none, the queue is idle. */
  lemma WorkerTakes(s: State, t: nat, again: bool, q: Id)
    requires Inv(s) && t < |s.tasks| && s.tasks[t] == WRun(q) && q < |s.svcs|
    ensures var v, s' := s.svcs[q], StepOf(s, t, again);
      && q < |s'.svcs| && t < |s'.tasks|
      && if v.msgs == [] then s'.tasks[t] == Rel(q, AIdle) && s'.svcs[q] == v.(inGlobal := false)
         else s'.tasks[t] == WMsg(q) && s'.svcs[q] == v.(msgs := v.msgs[1..], taken := v.taken + [v.msgs[0]])
  {
    hide Inv, OrphanMove, ReleaseMove, CreateMove, ClientMove;
  }

  lemma DropTakes(s: State, t: nat, again: bool, q: Id)
    requires Inv(s) && t < |s.tasks| && s.tasks[t].Drop? && s.tasks[t].q == q && q < |s.svcs|
    ensures var v, s' := s.svcs[q], StepOf(s, t, again);
      && q < |s'.svcs| && s'.svcs[q].taken == v.taken + (if v.msgs == [] then [] else [v.msgs[0]]) && v.release
  {
    assert TaskOk(s, s.tasks[t]);
    hide Inv, WorkerMove, ReleaseMove, CreateMove, ClientMove;
  }

  /** All other moves take no message of `q`. */
  lemma OthersTakeNone(s: State, m: Move, s': State, q: Id)
    requires Inv(s) && Next(s, m, s') && q < |s.svcs| && !Executes(s, m, q) && !Drops(s, m, q)
    ensures q < |s'.svcs| && s'.svcs[q].taken == s.svcs[q].taken
  {
    match m
    case Spawn(task) =>
    case Go(t, again) =>
      if Quiet(s.tasks[t]) {
        QuietStep(s, t, again, q);
        hide *;
      } else {
        NoTaking(s, t, again, q);
        hide *;
      }
  }

  lemma NoTaking(s: State, t: nat, again: bool, q: Id)
    requires Inv(s) && t < |s.tasks| && q < |s.svcs| && !Quiet(s.tasks[t])
    requires !Executes(s, Go(t, again), q) && !Drops(s, Go(t, again), q)
    ensures q < |StepOf(s, t, again).svcs| && StepOf(s, t, again).svcs[q].taken == s.svcs[q].taken
  {
    assert TaskOk(s, s.tasks[t]);
    hide Inv, Resume, ReleaseMove, CreateMove;
  }

  /** The messages of `q` that were executed, and those that were dropped, up to step `k`. */
  ghost function Executed(run: seq<State>, moves: seq<Move>, q: Id, k: nat): seq<Msg>
    requires k < |run| == |moves| + 1
  {
    if k == 0 then []
    else Executed(run, moves, q, k - 1)
         + if Executes(run[k - 1], moves[k - 1], q) then [run[k - 1].svcs[q].msgs[0]] else []
  }

  ghost function Dropped(run: seq<State>, moves: seq<Move>, q: Id, k: nat): seq<Msg>
    requires k < |run| == |moves| + 1
  {
    if k == 0 then []
    else Dropped(run, moves, q, k - 1)
         + if Drops(run[k - 1], moves[k - 1], q) then [run[k - 1].svcs[q].msgs[0]] else []
  }

  /** What a state says of the messages of `q` that have been taken. */
  predicate TakenOk(s: State, q: Id, executed: seq<Msg>, dropped: seq<Msg>) {
    if q < |s.svcs| then s.svcs[q].taken == executed + dropped && (dropped != [] ==> s.svcs[q].release)
    else executed == dropped == []
  }

  lemma TakenStep(s: State, m: Move, s': State, q: Id, executed: seq<Msg>, dropped: seq<Msg>)
    requires Inv(s) && Next(s, m, s') && TakenOk(s, q, executed, dropped)
    ensures TakenOk(s', q, executed + (if Executes(s, m, q) then [s.svcs[q].msgs[0]] else []),
                    dropped + (if Drops(s, m, q) then [s.svcs[q].msgs[0]] else []))
  {
    if q >= |s.svcs| {
      NewTakesNone(s, m, s', q);
    } else {
      StaysReleased(s, m, s', q);
      if Executes(s, m, q) {
        TaskSafe(s, m.t);
        WorkerTakes(s, m.t, m.again, q);
      } else if Drops(s, m, q) {
        DropTakes(s, m.t, m.again, q);
      } else {
        OthersTakeNone(s, m, s', q);
      }
    }
    hide Inv, StepOf;
  }

  lemma StaysReleased(s: State, m: Move, s': State, q: Id)
    requires Inv(s) && Next(s, m, s') && q < |s.svcs|
    ensures q < |s'.svcs| && (s.svcs[q].release ==> s'.svcs[q].release)
  {
    if m.Go? { ServiceKept(s, m.t, m.again, q); }
    hide Inv, StepOf;
  }

  lemma NewTakesNone(s: State, m: Move, s': State, q: Id)
    requires Inv(s) && Next(s, m, s') && q >= |s.svcs|
    ensures q < |s'.svcs| ==> s'.svcs[q].taken == []
    ensures !Executes(s, m, q) && !Drops(s, m, q)
  {
    if m.Go? && s.tasks[m.t].CStart? {
      hide Inv, WorkerMove, OrphanMove, ReleaseMove, ClientMove;
    } else if m.Go? {
      NoNewService(s, m.t, m.again);
      hide *;
    }
  }

  lemma NoNewService(s: State, t: nat, again: bool)
    requires Inv(s) && t < |s.tasks| && !s.tasks[t].CStart?
    ensures |StepOf(s, t, again).svcs| == |s.svcs|
  {
    var task := s.tasks[t];
    assert TaskOk(s, task);
    hide Inv, Sum, Count, Resume, IfDeleted, TaskOk;
    if Works(task) {
      hide OrphanMove, ReleaseMove, CreateMove, ClientMove;
    } else if Orphans(task) {
      hide WorkerMove, ReleaseMove, CreateMove, ClientMove;
    } else if Releases(task) {
      hide WorkerMove, OrphanMove, CreateMove, ClientMove;
    } else if Creates(task) {
      hide WorkerMove, OrphanMove, ReleaseMove, ClientMove;
    } else {
      hide WorkerMove, OrphanMove, ReleaseMove, CreateMove;
    }
  }

  /** In every state of every run, the messages taken from a queue are those that were executed, and after them
      those that were dropped; none is dropped before the context of the service has been freed. */
  lemma {:induction false} TakenExactly(run: seq<State>, moves: seq<Move>, q: Id, k: nat)
    requires IsRun(run, moves) && k < |run|
    ensures TakenOk(run[k], q, Executed(run, moves, q, k), Dropped(run, moves, q, k))
  {
    if k > 0 {
      TakenExactly(run, moves, q, k - 1);
      RunInv(run, moves, k - 1);
      assert Next(run[k - 1], moves[k - 1], run[k]) by { assert run[k - 1 + 1] == run[k]; }
      hide IsRun, Inv, Next, Executes, Drops, TakenOk;
      TakenStep(run[k - 1], moves[k - 1], run[k], q, Executed(run, moves, q, k - 1), Dropped(run, moves, q, k - 1));
    }
  }

  // ---------------------------------------------------------------------------
  // Retiring
  // ---------------------------------------------------------------------------

  lemma StaysRetired(s: State, m: Move, s': State, n: Id)
    requires Inv(s) && Next(s, m, s') && n < |s.svcs| && !s.svcs[n].registered
    ensures n < |s'.svcs| && !s'.svcs[n].registered
  {
    if m.Go? { StepStaysRetired(s, m.t, m.again, n); }
    hide Inv, StepOf;
  }

  lemma StepStaysRetired(s: State, t: nat, again: bool, n: Id)
    requires Inv(s) && t < |s.tasks| && n < |s.svcs| && !s.svcs[n].registered
    ensures n < |StepOf(s, t, again).svcs| && !StepOf(s, t, again).svcs[n].registered
  {
    var task := s.tasks[t];
    assert TaskOk(s, task);
    hide Inv, Sum, Count, Resume, IfDeleted, TaskOk;
    if Works(task) {
      hide OrphanMove, ReleaseMove, CreateMove, ClientMove;
    } else if Orphans(task) {
      hide WorkerMove, ReleaseMove, CreateMove, ClientMove;
    } else if Releases(task) {
      hide WorkerMove, OrphanMove, CreateMove, ClientMove;
    } else if Creates(task) {
      hide WorkerMove, OrphanMove, ReleaseMove, ClientMove;
    } else {
      hide WorkerMove, OrphanMove, ReleaseMove, CreateMove;
    }
  }

  lemma RetireStep(s: State, t: nat, again: bool, n: Id)
    requires Inv(s) && t < |s.tasks| && s.tasks[t] == TStart(n) && n < |s.svcs|
    ensures n < |StepOf(s, t, again).svcs| && !StepOf(s, t, again).svcs[n].registered
  {
    hide Inv, WorkerMove, OrphanMove, ReleaseMove, CreateMove;
  }

  /** A thread that was asked to retire `n`, which there was, and has taken a step: since then nobody finds `n`. */
  lemma {:induction false} RetiredSince(run: seq<State>, moves: seq<Move>, t: nat, n: Id, j: nat, k: nat)
    requires IsRun(run, moves) && j <= k < |run| && t < |run[j].tasks| && run[j].tasks[t] == TStart(n)
    requires n < |run[j].svcs|
    ensures t < |run[k].tasks| && n < |run[k].svcs| && (run[k].tasks[t] == TStart(n) || !run[k].svcs[n].registered)
  {
    if j < k {
      RetiredSince(run, moves, t, n, j, k - 1);
      var s, m, s' := run[k - 1], moves[k - 1], run[k];
      RunInv(run, moves, k - 1);
      assert Next(s, m, s') by { assert run[k - 1 + 1] == run[k]; }
      OthersStay(s, m, s', t);
      NextContinues(s, m, s', n);
      if !s.svcs[n].registered {
        StaysRetired(s, m, s', n);
      } else if Moves(m, t) {
        RetireStep(s, t, m.again, n);
      }
      hide IsRun, Inv, StepOf, Continues;
    }
  }
}
