/** No package that was sent over a TCP socket is lost, and none is in two places. */
module TcpPackages {
  import opened TcpWire
  import opened TcpSocket
  import opened TcpBuffers

  /** What is counted: one package, or all packages that `sending` has to account for. */
  type Measure = Option<Pkg>

  function Is(p: Pkg, m: Measure): nat { if m.None? || m.value == p then 1 else 0 }

  function Carried(c: Cmd, m: Measure): nat {
    if c.D? || c.P? then Is(c.pkg, m) else 0
  }

  /** The package that a sender has; it is accounted for in `sending` when it is about to be posted. */
  function InHand(task: Task, m: Measure): nat {
    match task
    case Post(c) => Carried(c, m)
    case Inc(c) => if m.None? then 0 else Carried(c, m)
    case Done => 0
    case _ => if m.None? then 0 else Is(task.pkg, m)
  }

  function InHands(tasks: seq<Task>, m: Measure): nat {
    if tasks == [] then 0 else InHands(tasks[..|tasks| - 1], m) + InHand(tasks[|tasks| - 1], m)
  }

  function InPipe(pipe: seq<Cmd>, m: Measure): nat {
    if pipe == [] then 0 else Carried(pipe[0], m) + InPipe(pipe[1..], m)
  }

  function Occurs(ps: seq<Pkg>, p: Pkg): nat {
    if ps == [] then 0 else Is(ps[0], Some(p)) + Occurs(ps[1..], p)
  }

  /** How often a package has got past the pipe. */
  function Stored(s: State, p: Pkg): nat {
    Occurs(Pkgs(s.high), p) + Occurs(Pkgs(s.low), p) + (if s.dw.Some? then Is(s.dw.value.pkg, Some(p)) else 0)
    + Occurs(s.done, p) + Occurs(s.dropped, p)
  }

  /** The number of places where a package is. */
  function Places(s: State, p: Pkg): nat {
    InHands(s.tasks, Some(p)) + InPipe(s.pipe, Some(p)) + Stored(s, p)
  }

  predicate Issued(s: State, p: Pkg) {
    p.id < |s.issued| && s.issued[p.id] == p
  }

  /** Every package that was ever sent is in exactly one place. */
  ghost predicate PkgOk(s: State, p: Pkg) {
    Places(s, p) == if Issued(s, p) then 1 else 0
  }

  /** `sending` covers the packages on their way through the pipe. */
  ghost predicate SendingOk(s: State) {
    InHands(s.tasks, None) + InPipe(s.pipe, None) <= s.sending
  }

  lemma {:induction false} InHandsUpdate(tasks: seq<Task>, m: Measure, t: nat, task: Task)
    requires t < |tasks|
    ensures InHands(tasks[t := task], m) + InHand(tasks[t], m) == InHands(tasks, m) + InHand(task, m)
  {
    var n := |tasks| - 1;
    if t < n {
      assert tasks[t := task][..n] == tasks[..n][t := task];
      InHandsUpdate(tasks[..n], m, t, task);
    } else {
      assert tasks[t := task][..n] == tasks[..n];
    }
  }

  lemma {:induction false} InPipeAppend(pipe: seq<Cmd>, c: Cmd, m: Measure)
    ensures InPipe(pipe + [c], m) == InPipe(pipe, m) + Carried(c, m)
  {
    if pipe != [] {
      InPipeAppend(pipe[1..], c, m);
      assert (pipe + [c])[1..] == pipe[1..] + [c];
    } else {
      assert (pipe + [c])[1..] == [];
    }
  }

  lemma {:induction false} OccursAppend(ps: seq<Pkg>, qs: seq<Pkg>, p: Pkg)
    ensures Occurs(ps + qs, p) == Occurs(ps, p) + Occurs(qs, p)
  {
    if ps == [] {
      assert ps + qs == qs;
    } else {
      OccursAppend(ps[1..], qs, p);
      assert (ps + qs)[1..] == ps[1..] + qs;
    }
  }

  lemma OccursOne(q: Pkg, p: Pkg)
    ensures Occurs([q], p) == Is(q, Some(p))
  {
  }

  lemma BufsAppend(l: seq<Buf>, k: seq<Buf>, p: Pkg)
    ensures Occurs(Pkgs(l + k), p) == Occurs(Pkgs(l), p) + Occurs(Pkgs(k), p)
  {
    assert Pkgs(l + k) == Pkgs(l) + Pkgs(k);
    OccursAppend(Pkgs(l), Pkgs(k), p);
  }

  lemma BufOne(b: Buf, p: Pkg)
    ensures Occurs(Pkgs([b]), p) == Is(b.pkg, Some(p))
    ensures Occurs(Pkgs([]), p) == 0
  {
    assert Pkgs([b]) == [b.pkg];
    OccursOne(b.pkg, p);
  }

  lemma FreeListsStores(s: State, report: seq<Event>, p: Pkg)
    ensures Stored(FreeLists(s, report), p) == Stored(s, p)
  {
    OccursAppend(s.dropped + Pkgs(s.high), Pkgs(s.low), p);
    OccursAppend(s.dropped, Pkgs(s.high), p);
    assert Pkgs([]) == [];
    hide Pkgs;
  }

  lemma CloseFdStores(s: State, p: Pkg)
    ensures Stored(CloseFd(s), p) == Stored(s, p)
  {
    if s.dw.Some? {
      OccursAppend(s.dropped, [s.dw.value.pkg], p);
      OccursOne(s.dw.value.pkg, p);
    } else {
      assert s.dropped + [] == s.dropped;
    }
    hide Pkgs, Occurs;
  }

  lemma SendSocketStores(s: State, q: Pkg, low: bool, p: Pkg)
    ensures Stored(SendSocket(s, q, low), p) == Stored(s, p) + Is(q, Some(p))
  {
    BufsAppend(s.high, [Buf(q, 0)], p);
    BufsAppend(s.low, [Buf(q, 0)], p);
    BufOne(Buf(q, 0), p);
    OccursAppend(s.dropped, [q], p);
    OccursOne(q, p);
    hide Pkgs, Occurs;
  }

  lemma TakeDirectStores(s: State, p: Pkg)
    ensures Stored(TakeDirect(s), p) == Stored(s, p)
  {
    if s.dw.Some? {
      BufsAppend([s.dw.value], s.high, p);
      BufOne(s.dw.value, p);
    }
    hide Pkgs, Occurs;
  }

  lemma SendHighStores(s: State, r: Sent, p: Pkg)
    requires Pkgs(s.high) == r.done + Pkgs(r.list)
    ensures Stored(SendHigh(s, r), p) == Stored(s, p)
  {
    OccursAppend(r.done, Pkgs(r.list), p);
    OccursAppend(s.done, r.done, p);
    hide Pkgs, Occurs;
  }

  lemma SendLowStores(s: State, r: Sent, p: Pkg)
    requires Pkgs(s.low) == r.done + Pkgs(r.list)
    ensures Stored(SendLowList(s, r), p) == Stored(s, p)
  {
    OccursAppend(r.done, Pkgs(r.list), p);
    OccursAppend(s.done, r.done, p);
    hide Pkgs, Occurs;
  }

  lemma RaiseStores(s: State, p: Pkg)
    requires s.low != [] && s.high == []
    ensures Stored(Raise(s), p) == Stored(s, p)
  {
    assert s.low == [s.low[0]] + s.low[1..];
    BufsAppend([s.low[0]], s.low[1..], p);
    BufOne(s.low[0], p);
    hide Pkgs, Occurs;
  }

  lemma CloseWriteStores(s: State, p: Pkg)
    ensures Stored(CloseWrite(s), p) == Stored(s, p)
  {
    FreeListsStores(s, [], p);
    CloseFdStores(FreeLists(s, []), p);
    hide Pkgs, Occurs;
  }

  lemma SendRestStores(s: State, ws: seq<Write>, note: seq<Event>, p: Pkg)
    requires Untouched(s.low) && s.high == []
    ensures Stored(SendRest(s, ws, note), p) == Stored(s, p)
  {
    SendListKeepsPackages(s.low, ws);
    var r := SendList(s.low, ws);
    SendLowStores(s, r, p);
    var s' := SendLowList(s, r);
    CloseWriteStores(s', p);
    FreeListsStores(s', [], p);
    CloseFdStores(FreeLists(s', []), p);
    if r.list != [] { RaiseStores(s', p); }
    hide SendList, Pkgs, Occurs, CloseWrite, CloseFd, FreeLists;
  }

  lemma SendBufferStores(s: State, ws: seq<Write>, note: seq<Event>, p: Pkg)
    requires BufsOk(s)
    ensures Stored(SendBuffer(s, ws, note), p) == Stored(s, p)
  {
    if s.lock.None? {
      TakeDirectStores(s, p);
      var s1 := TakeDirect(s);
      SendListKeepsPackages(s1.high, ws);
      var r := SendList(s1.high, ws);
      SendHighStores(s1, r, p);
      var s2 := SendHigh(s1, r);
      CloseWriteStores(s2, p);
      hide SendList, Pkgs, CloseWrite, SendRest, Stored;
      if r.list == [] { SendRestStores(s2, r.rest, note, p); }
    }
  }

  /** The fields that the socket thread leaves alone outside its commands. */
  ghost predicate SameTraffic(s: State, s': State) {
    s'.tasks == s.tasks && s'.pipe == s.pipe && s'.issued == s.issued && s'.sending == s.sending && s'.sent == s.sent
    && s'.torn == s.torn
  }

  lemma SendBufferTraffic(s: State, ws: seq<Write>, note: seq<Event>)
    ensures SameTraffic(s, SendBuffer(s, ws, note))
  {
    var s1 := TakeDirect(s);
    var r := SendList(s1.high, ws);
    var s2 := SendHigh(s1, r);
    assert SameTraffic(s, s2) && SameTraffic(s2, CloseWrite(s2)) && SameTraffic(s2, SendRest(s2, r.rest, note));
    hide SendList, Pkgs, CloseWrite, SendRest;
  }

  lemma SameStore(s: State, s': State, p: Pkg)
    requires s'.high == s.high && s'.low == s.low && s'.dw == s.dw && s'.done == s.done && s'.dropped == s.dropped
    ensures Stored(s', p) == Stored(s, p)
  {
  }

  lemma ForwardShape(s: State, r: Read)
    ensures var s' := Forward(s, r);
      || s' == s.(kind := s'.kind, events := s'.events)
      || (s'.server.Freed? && s' == FreeLists(s, s'.server.report))
  {
    hide Pkgs, NoMoreSending;
  }

  /** What the events other than a writable socket do: they free the lists, or touch no package. */
  lemma PollShape(s: State, m: Move)
    requires Enabled(s, m) && (m.Readable? || m.Failure? || m.Eof? || m.ConnectDone? || m.Accepting?)
    ensures var s' := Next(s, m);
      || s' == s.(kind := s'.kind, events := s'.events)
      || (s'.server.Freed? && s' == FreeLists(s.(kind := s'.kind), s'.server.report))
  {
    hide Pkgs, NoMoreSending;
    match m
    case Readable(r) => ForwardShape(s, r);
    case ConnectDone(ok, disable) => assert Next(s, m) == ReportConnect(s, ok, disable);
    case _ =>
  }

  lemma PollStores(s: State, m: Move, p: Pkg)
    requires Enabled(s, m) && (m.Readable? || m.Failure? || m.Eof? || m.ConnectDone? || m.Accepting?)
    ensures Stored(Next(s, m), p) == Stored(s, p) && SameTraffic(s, Next(s, m))
  {
    var s' := Next(s, m);
    PollShape(s, m);
    hide Stored, Next, Enabled;
    if s'.server.Freed? && s' == FreeLists(s.(kind := s'.kind), s'.server.report) {
      var s0 := s.(kind := s'.kind);
      SameStore(s, s0, p);
      FreeListsStores(s0, s'.server.report, p);
    } else {
      SameStore(s, s', p);
    }
  }

  /** The socket thread, outside its commands, moves packages about but loses none. */
  lemma PollPkg(s: State, m: Move, p: Pkg)
    requires PkgOk(s, p) && SendingOk(s) && BufsOk(s) && Enabled(s, m)
    requires !m.NewSend? && !m.NewCmd? && !m.Step? && !m.Ctrl?
    ensures PkgOk(Next(s, m), p) && SendingOk(Next(s, m))
  {
    match m
    case Writable(ws, note) =>
      SendBufferStores(s, ws, note, p);
      SendBufferTraffic(s, ws, note);
      hide SendBuffer, Stored, InHands, InPipe;
    case Closes =>
      CloseFdStores(s, p);
      hide Stored, InHands, InPipe;
    case _ =>
      PollStores(s, m, p);
      hide Next, Stored, InHands, InPipe;
  }

  lemma CommandStores(s: State, note: seq<Event>, enable: bool, p: Pkg)
    requires s.pipe != [] && s.server == Idle
    ensures Stored(Command(s, note, enable), p) == Stored(s, p) + Carried(s.pipe[0], Some(p))
  {
    hide Stored;
    var s0, s' := s.(pipe := s.pipe[1..]), Command(s, note, enable);
    SameStore(s, s0, p);
    match s.pipe[0]
    case D(q) =>
      SendSocketStores(s0, q, false, p);
      SameStore(SendSocket(s0, q, false), s', p);
    case P(q) =>
      SendSocketStores(s0, q, true, p);
      SameStore(SendSocket(s0, q, true), s', p);
    case K(shutdown) =>
      if s'.server == Idle {
        SameStore(s0, s', p);
      } else {
        FreeListsStores(s0, s'.server.report, p);
        SameStore(FreeLists(s0, s'.server.report), s', p);
      }
    case _ => SameStore(s0, s', p);
  }

  lemma CommandTraffic(s: State, note: seq<Event>, enable: bool)
    requires s.pipe != []
    ensures var s' := Command(s, note, enable);
      && s'.tasks == s.tasks && s'.pipe == s.pipe[1..] && s'.issued == s.issued && s'.sent == s.sent
      && (s.sending >= Carried(s.pipe[0], None) ==> s'.sending == s.sending - Carried(s.pipe[0], None))
  {
    var s0 := s.(pipe := s.pipe[1..]);
    match s.pipe[0]
    case D(p) => SendSocketTraffic(s0, p, false); hide SendSocket;
    case P(p) => SendSocketTraffic(s0, p, true); hide SendSocket;
    case K(shutdown) => CloseSocketTraffic(s0, shutdown); hide CloseSocket;
    case _ =>
  }

  lemma SendSocketTraffic(s: State, p: Pkg, low: bool)
    ensures var s' := SendSocket(s, p, low); SameTraffic(s, s'.(sending := s.sending)) && (s.sending >= 1 ==> s'.sending == s.sending - 1)
  {
  }

  lemma CloseSocketTraffic(s: State, shutdown: bool)
    ensures SameTraffic(s, CloseSocket(s, shutdown))
  {
    hide Pkgs, NoMoreSending;
  }

  lemma CommandPkg(s: State, note: seq<Event>, enable: bool, p: Pkg)
    requires PkgOk(s, p) && SendingOk(s) && s.server == Idle && s.pipe != []
    ensures PkgOk(Command(s, note, enable), p) && SendingOk(Command(s, note, enable))
  {
    CommandStores(s, note, enable, p);
    CommandTraffic(s, note, enable);
    assert InPipe(s.pipe, Some(p)) == Carried(s.pipe[0], Some(p)) + InPipe(s.pipe[1..], Some(p));
    assert InPipe(s.pipe, None) == Carried(s.pipe[0], None) + InPipe(s.pipe[1..], None);
    hide InPipe, InHands, Stored, Command;
  }

  function Posted(task: Task): seq<Cmd> {
    if task.Post? then [task.cmd] else []
  }

  lemma DirectStores(s: State, t: nat, q: Pkg, n: nat, p: Pkg)
    requires t < |s.tasks| && n <= q.size && s.dw.None?
    ensures Stored(DirectWrite(s, t, q, n), p) == Stored(s, p) + Is(q, Some(p))
  {
    OccursAppend(s.done, [q], p);
    OccursOne(q, p);
    hide Bytes, Pkgs, Occurs;
  }

  lemma DropStores(s: State, q: Pkg, tasks: seq<Task>, p: Pkg)
    ensures Stored(s.(tasks := tasks, dropped := s.dropped + [q]), p) == Stored(s, p) + Is(q, Some(p))
  {
    OccursAppend(s.dropped, [q], p);
    OccursOne(q, p);
    hide Pkgs, Occurs;
  }

  /** What a step of a sender puts into the socket. */
  lemma StepStores(s: State, t: nat, try: bool, n: nat, p: Pkg)
    requires TasksOk(s) && t < |s.tasks|
    ensures var s' := TaskStep(s, t, try, n);
      Stored(s', p) + InHand(s'.tasks[t], Some(p)) + InPipe(Posted(s.tasks[t]), Some(p))
      == Stored(s, p) + InHand(s.tasks[t], Some(p))
  {
    var task, s' := s.tasks[t], TaskStep(s, t, try, n);
    assert TaskOk(s, task);
    assert InPipe(Posted(task), Some(p)) == if task.Post? then Carried(task.cmd, Some(p)) else 0;
    hide InPipe, TasksOk, TaskOk, Stored;
    if task.Direct? {
      DirectStores(s, t, task.pkg, Min(n, task.pkg.size), p);
      hide Bytes;
    } else if task.Post? {
      SameStore(s, s', p);
    } else {
      MovedStores(s, t, try, p);
      hide Moved, NextTask;
      assert s' == Moved(s, t, task, NextTask(s, task, try));
    }
  }

  lemma MovedStores(s: State, t: nat, try: bool, p: Pkg)
    requires t < |s.tasks| && !s.tasks[t].Direct? && !s.tasks[t].Post?
    ensures var task, task' := s.tasks[t], NextTask(s, s.tasks[t], try); var s' := Moved(s, t, task, task');
      s'.tasks[t] == task' && Stored(s', p) + InHand(task', Some(p)) == Stored(s, p) + InHand(task, Some(p))
  {
    var task, task' := s.tasks[t], NextTask(s, s.tasks[t], try);
    var s' := Moved(s, t, task, task');
    hide Stored;
    if (task.Send? || task.SendLow?) && task'.Done? {
      DropStores(s, task.pkg, s'.tasks, p);
      SameStore(s.(tasks := s'.tasks, dropped := s.dropped + [task.pkg]), s', p);
    } else {
      SameStore(s, s', p);
    }
  }

  /** The sender counts a command that the socket thread takes without counting it off: the one that only
      wakes it up after a direct write. */
  predicate Leaves(s: State, t: nat)
    requires t < |s.tasks|
  {
    s.tasks[t].Inc? && !s.tasks[t].cmd.D? && !s.tasks[t].cmd.P? && s.sending != 0xffff
  }

  lemma StepTraffic(s: State, t: nat, try: bool, n: nat)
    requires t < |s.tasks|
    ensures var s' := TaskStep(s, t, try, n);
      && |s'.tasks| == |s.tasks| && s'.tasks == s.tasks[t := s'.tasks[t]]
      && s'.pipe == s.pipe + Posted(s.tasks[t]) && s'.issued == s.issued
      && s'.sending + InHand(s.tasks[t], None)
         == s.sending + InHand(s'.tasks[t], None) + InPipe(Posted(s.tasks[t]), None) + (if Leaves(s, t) then 1 else 0)
  {
    hide Bytes;
    var task := s.tasks[t];
    assert s.tasks[t := task] == s.tasks;
    assert s.pipe + [] == s.pipe;
  }

  lemma StepPkg(s: State, t: nat, try: bool, n: nat, p: Pkg)
    requires PkgOk(s, p) && SendingOk(s) && TasksOk(s) && t < |s.tasks|
    ensures PkgOk(TaskStep(s, t, try, n), p) && SendingOk(TaskStep(s, t, try, n))
  {
    var task, s' := s.tasks[t], TaskStep(s, t, try, n);
    StepStores(s, t, try, n, p);
    StepTraffic(s, t, try, n);
    InHandsUpdate(s.tasks, None, t, s'.tasks[t]);
    InHandsUpdate(s.tasks, Some(p), t, s'.tasks[t]);
    if task.Post? {
      InPipeAppend(s.pipe, task.cmd, None);
      InPipeAppend(s.pipe, task.cmd, Some(p));
      assert InPipe([task.cmd], None) == Carried(task.cmd, None) && InPipe([task.cmd], Some(p)) == Carried(task.cmd, Some(p));
    } else {
      assert s.pipe + [] == s.pipe && InPipe([], None) == InPipe([], Some(p)) == 0;
    }
    hide InHands, InHand, InPipe, Stored, TaskStep;
  }

  lemma NewPkg(s: State, m: Move, p: Pkg)
    requires PkgOk(s, p) && SendingOk(s) && Enabled(s, m) && (m.NewSend? || m.NewCmd?)
    ensures PkgOk(Next(s, m), p) && SendingOk(Next(s, m))
  {
    if m.NewSend? { NewSender(s, m, p); } else { NewCommand(s, m, p); }
  }

  lemma NewSender(s: State, m: Move, p: Pkg)
    requires PkgOk(s, p) && SendingOk(s) && Enabled(s, m) && m.NewSend?
    ensures PkgOk(Next(s, m), p) && SendingOk(Next(s, m))
  {
    var s' := Next(s, m);
    SameStore(s, s', p);
    assert s'.tasks[..|s.tasks|] == s.tasks;
    hide Stored, InPipe;
  }

  lemma NewCommand(s: State, m: Move, p: Pkg)
    requires PkgOk(s, p) && SendingOk(s) && Enabled(s, m) && m.NewCmd?
    ensures PkgOk(Next(s, m), p) && SendingOk(Next(s, m))
  {
    hide Stored, InPipe, InHands;
    SameStore(s, Next(s, m), p);
    InPipeAppend(s.pipe, m.cmd, None);
    InPipeAppend(s.pipe, m.cmd, Some(p));
  }
}
