/** The actor scheduler of skynet-src/skynet_mq.c and skynet-src/skynet_server.c as a transition
    system: any number of threads create services, send to them, retire them and work on their queues.
    One step is one lock section or one atomic operation. A service is named by its handle; its
    context and its queue go by the same name. */
module Scheduler {

  type Id = nat
  type Msg = nat

  /** A service: the reference count and the `init` mark of its context, its entry in the handle table, and its
      queue. The context is freed when `release` is set. `pushed` and `taken` are the messages ever put into the
      queue and taken out of it. */
  datatype Service = Service(
    ref: int, init: bool, registered: bool,
    msgs: seq<Msg>, inGlobal: bool, release: bool, freed: bool,
    pushed: seq<Msg>, taken: seq<Msg>)

  /** What a thread does after it has released a context. */
  datatype After =
    | ADone                // nothing
    | AIdle                // a worker asks the global list for a queue
    | AHold(q: Id)         // a worker goes on with this queue
    | ALaunch(q: Id)       // the creator marks the context, which it has just let go of
    | AGone(q: Id)         // the creator has deleted the context and hands the queue over
    | AFail(q: Id)         // the creator retires the handle
    | AOrphan(q: Id)       // the creator gives the queue up

  /** Where a thread is. */
  datatype Task =
    | Done
    // skynet_context_message_dispatch
    | WIdle                            // about to pop the global list
    | WHold(q: Id)                     // has a queue, about to grab its context
    | WRun(q: Id)                      // has queue and context, about to pop a message
    | WMsg(q: Id)                      // running the callback of the service
    | WEnd(q: Id)                      // end of the batch, about to pop the global list
    | WBack(q: Id, nq: Id)             // about to push its queue back and go on with another one
    // skynet_mq_release
    | Orphan(q: Id, after: After)      // the context is gone
    | Drop(q: Id, after: After)        // dropping the messages
    | FreeQueue(q: Id, after: After)   // about to free the queue
    // skynet_context_release
    | Rel(n: Id, after: After)         // about to decrement the count
    | Del(n: Id, after: After)         // the count has reached zero, about to mark the queue
    // skynet_context_push
    | PStart(n: Id, m: Msg)            // about to grab the context
    | PGot(n: Id, m: Msg)              // about to push the message
    // skynet_handle_grab for another purpose
    | GStart(n: Id)
    // skynet_handle_retire
    | TStart(n: Id)
    // skynet_context_new
    | CStart
    | CInit(q: Id)                     // running the init function of the new service
    | CSetInit(q: Id)                  // about to write to the context it holds no more
    | CLaunch(q: Id, alive: bool)      // about to push the queue to the global list
    | CLog(q: Id)                      // about to log in the name of the context it holds no more
    | CAnswer(q: Id)                   // about to read the handle from it, for the caller
    | CFail(q: Id)                     // about to retire the handle

  function Resume(a: After): Task {
    match a
    case ADone => Done
    case AIdle => WIdle
    case AHold(q) => WHold(q)
    case ALaunch(q) => CSetInit(q)
    case AGone(q) => CLaunch(q, false)
    case AFail(q) => CFail(q)
    case AOrphan(q) => Orphan(q, ADone)
  }

  /** `skynet_context_release` returns null when it has deleted the context, and the creator goes by that. */
  function IfDeleted(a: After): After {
    match a
    case ALaunch(q) => AGone(q)
    case _ => a
  }

  datatype State = State(svcs: seq<Service>, global: seq<Id>, tasks: seq<Task>)

  /** The requests that threads may start with. */
  predicate Fresh(t: Task) {
    t.WIdle? || t.PStart? || t.GStart? || t.TStart? || t.CStart?
  }

  function NewService(): Service {
    Service(2, false, true, [], true, false, false, [], [])
  }

  // ---------------------------------------------------------------------------
  // Steps
  // ---------------------------------------------------------------------------

  function Live(s: State, n: Id): bool {
    n < |s.svcs| && s.svcs[n].registered
  }

  function SetTask(s: State, t: nat, task: Task): State
    requires t < |s.tasks|
  {
    s.(tasks := s.tasks[t := task])
  }

  function SetSvc(s: State, n: Id, v: Service): State
    requires n < |s.svcs|
  {
    s.(svcs := s.svcs[n := v])
  }

  /** `skynet_mq_pop` of a queue that is not empty. */
  function Take(v: Service): Service
    requires v.msgs != []
  {
    v.(msgs := v.msgs[1..], taken := v.taken + [v.msgs[0]])
  }

  /** `skynet_mq_push`. */
  function MqPush(s: State, n: Id, m: Msg): State
    requires n < |s.svcs|
  {
    var v := s.svcs[n];
    SetSvc(s, n, v.(msgs := v.msgs + [m], pushed := v.pushed + [m], inGlobal := true))
    .(global := if v.inGlobal then s.global else s.global + [n])
  }

  /** `skynet_mq_mark_release`. */
  function MarkRelease(s: State, n: Id): State
    requires n < |s.svcs|
  {
    var v := s.svcs[n];
    SetSvc(s, n, v.(release := true)).(global := if v.inGlobal then s.global else s.global + [n])
  }

  function AddRef(s: State, n: Id, k: int): State
    requires n < |s.svcs|
  {
    SetSvc(s, n, s.svcs[n].(ref := s.svcs[n].ref + k))
  }

  /** All services that a thread refers to at this point exist. */
  predicate Known(size: nat, task: Task) {
    match task
    case WHold(q) => q < size
    case WRun(q) => q < size
    case WMsg(q) => q < size
    case WEnd(q) => q < size
    case WBack(q, nq) => q < size && nq < size
    case Orphan(q, a) => q < size && KnownAfter(size, a)
    case Drop(q, a) => q < size && KnownAfter(size, a)
    case FreeQueue(q, a) => q < size && KnownAfter(size, a)
    case Rel(n, a) => n < size && KnownAfter(size, a)
    case Del(n, a) => n < size && KnownAfter(size, a)
    case PGot(n, _) => n < size
    case CInit(q) => q < size
    case CSetInit(q) => q < size
    case CLaunch(q, _) => q < size
    case CLog(q) => q < size
    case CAnswer(q) => q < size
    case CFail(q) => q < size
    case _ => true
  }

  predicate KnownAfter(size: nat, a: After) {
    match a
    case AHold(q) => q < size
    case ALaunch(q) => q < size
    case AGone(q) => q < size
    case AFail(q) => q < size
    case AOrphan(q) => q < size
    case _ => true
  }

  // Which function a thread is in.
  predicate Works(task: Task) { task.WIdle? || task.WHold? || task.WRun? || task.WMsg? || task.WEnd? || task.WBack? }
  predicate Orphans(task: Task) { task.Orphan? || task.Drop? || task.FreeQueue? }
  predicate Releases(task: Task) { task.Rel? || task.Del? }
  predicate Creates(task: Task) {
    task.CStart? || task.CInit? || task.CSetInit? || task.CLaunch? || task.CLog? || task.CAnswer? || task.CFail?
  }

  /** A step of `skynet_context_message_dispatch`; `again` decides whether a batch goes on. */
  function WorkerMove(s: State, t: nat, again: bool): State
    requires t < |s.tasks| && Known(|s.svcs|, s.tasks[t]) && forall k :: 0 <= k < |s.global| ==> s.global[k] < |s.svcs|
  {
    match s.tasks[t]
    case WIdle =>
      if s.global == [] then s else SetTask(s, t, WHold(s.global[0])).(global := s.global[1..])
    case WHold(q) =>
      if s.svcs[q].registered then SetTask(AddRef(s, q, 1), t, WRun(q)) else SetTask(s, t, Orphan(q, AIdle))
    case WRun(q) =>
      if s.svcs[q].msgs != [] then SetTask(SetSvc(s, q, Take(s.svcs[q])), t, WMsg(q))
      else SetTask(SetSvc(s, q, s.svcs[q].(inGlobal := false)), t, Rel(q, AIdle))
    case WMsg(q) => SetTask(s, t, if again then WRun(q) else WEnd(q))
    case WEnd(q) =>
      if s.global == [] then SetTask(s, t, Rel(q, AHold(q)))
      else SetTask(s, t, WBack(q, s.global[0])).(global := s.global[1..])
    case WBack(q, nq) => SetTask(s, t, Rel(q, AHold(nq))).(global := s.global + [q])
    case _ => s
  }

  /** A step of `skynet_mq_release`. */
  function OrphanMove(s: State, t: nat): State
    requires t < |s.tasks| && Known(|s.svcs|, s.tasks[t]) && forall k :: 0 <= k < |s.global| ==> s.global[k] < |s.svcs|
  {
    match s.tasks[t]
    case Orphan(q, a) =>
      if s.svcs[q].release then SetTask(s, t, Drop(q, a)) else SetTask(s, t, Resume(a)).(global := s.global + [q])
    case Drop(q, a) =>
      if s.svcs[q].msgs != [] then SetSvc(s, q, Take(s.svcs[q]))
      else SetTask(SetSvc(s, q, s.svcs[q].(inGlobal := false)), t, FreeQueue(q, a))
    case FreeQueue(q, a) => SetTask(SetSvc(s, q, s.svcs[q].(freed := true)), t, Resume(a))
    case _ => s
  }

  /** A step of `skynet_context_release`. */
  function ReleaseMove(s: State, t: nat): State
    requires t < |s.tasks| && Known(|s.svcs|, s.tasks[t]) && forall k :: 0 <= k < |s.global| ==> s.global[k] < |s.svcs|
  {
    match s.tasks[t]
    case Rel(n, a) =>
      SetTask(AddRef(s, n, -1), t, if s.svcs[n].ref == 1 then Del(n, IfDeleted(a)) else Resume(a))
    case Del(n, a) => SetTask(MarkRelease(s, n), t, Resume(a))
    case _ => s
  }

  /** A step of `skynet_context_new` or its caller; `again` decides whether the init function succeeds. */
  function CreateMove(s: State, t: nat, again: bool): State
    requires t < |s.tasks| && Known(|s.svcs|, s.tasks[t]) && forall k :: 0 <= k < |s.global| ==> s.global[k] < |s.svcs|
  {
    match s.tasks[t]
    case CStart => SetTask(s.(svcs := s.svcs + [NewService()]), t, CInit(|s.svcs|))
    case CInit(q) => SetTask(s, t, if again then Rel(q, ALaunch(q)) else Rel(q, AFail(q)))
    case CSetInit(q) => SetTask(SetSvc(s, q, s.svcs[q].(init := true)), t, CLaunch(q, true))
    case CLaunch(q, alive) => SetTask(s, t, if alive then CLog(q) else Done).(global := s.global + [q])
    case CLog(q) => SetTask(s, t, CAnswer(q))
    case CAnswer(q) => SetTask(s, t, Done)
    case CFail(q) =>
      if s.svcs[q].registered then SetTask(SetSvc(s, q, s.svcs[q].(registered := false)), t, Rel(q, AOrphan(q)))
      else SetTask(s, t, Orphan(q, ADone))
    case _ => s
  }

  /** A step of `skynet_context_push`, `skynet_handle_grab` or `skynet_handle_retire`. */
  function ClientMove(s: State, t: nat): State
    requires t < |s.tasks| && Known(|s.svcs|, s.tasks[t]) && forall k :: 0 <= k < |s.global| ==> s.global[k] < |s.svcs|
  {
    match s.tasks[t]
    case PStart(n, m) => if Live(s, n) then SetTask(AddRef(s, n, 1), t, PGot(n, m)) else SetTask(s, t, Done)
    case PGot(n, m) => SetTask(MqPush(s, n, m), t, Rel(n, ADone))
    case GStart(n) => if Live(s, n) then SetTask(AddRef(s, n, 1), t, Rel(n, ADone)) else SetTask(s, t, Done)
    case TStart(n) =>
      if Live(s, n) then SetTask(SetSvc(s, n, s.svcs[n].(registered := false)), t, Rel(n, ADone))
      else SetTask(s, t, Done)
    case _ => s
  }

  /** The step that task `t` takes; `again` decides where the C code depends on things outside the model. */
  function StepOf(s: State, t: nat, again: bool): State
    requires t < |s.tasks| && Known(|s.svcs|, s.tasks[t]) && forall k :: 0 <= k < |s.global| ==> s.global[k] < |s.svcs|
  {
    var task := s.tasks[t];
    if Works(task) then WorkerMove(s, t, again)
    else if Orphans(task) then OrphanMove(s, t)
    else if Releases(task) then ReleaseMove(s, t)
    else if Creates(task) then CreateMove(s, t, again)
    else ClientMove(s, t)
  }
}
