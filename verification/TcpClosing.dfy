/** When a TCP socket that has nothing left to send is closed at once, and when not. */
module TcpClosing {
  import opened TcpWire
  import opened TcpSocket
  import opened TcpBuffers
  import opened TcpEvents
  import opened TcpPackages
  import opened TcpRuns

  /** The packages that are counted and not yet taken from the pipe. */
  function OnTheWay(s: State): nat {
    InHands(s.tasks, None) + InPipe(s.pipe, None)
  }

  /** A sender counts the command that wakes the socket thread after a direct write that was cut short. */
  predicate Wakes(s: State, m: Move) {
    m.Step? && m.t < |s.tasks| && Leaves(s, m.t)
  }

  lemma StepSending(s: State, t: nat, try: bool, n: nat)
    requires t < |s.tasks|
    ensures var s' := TaskStep(s, t, try, n);
      s'.sending + OnTheWay(s) == s.sending + OnTheWay(s') + if Leaves(s, t) then 1 else 0
  {
    var task, s' := s.tasks[t], TaskStep(s, t, try, n);
    StepTraffic(s, t, try, n);
    InHandsUpdate(s.tasks, None, t, s'.tasks[t]);
    if task.Post? {
      InPipeAppend(s.pipe, task.cmd, None);
      assert InPipe([task.cmd], None) == Carried(task.cmd, None);
    } else {
      assert s.pipe + [] == s.pipe && InPipe([], None) == 0;
    }
    hide InHands, InHand, InPipe, TaskStep, Leaves;
  }

  lemma NewSending(s: State, m: Move)
    requires Enabled(s, m) && (m.NewSend? || m.NewCmd?)
    ensures Next(s, m).sending == s.sending && OnTheWay(Next(s, m)) == OnTheWay(s)
  {
    var s' := Next(s, m);
    if m.NewSend? {
      assert s'.tasks[..|s.tasks|] == s.tasks;
    } else {
      InPipeAppend(s.pipe, m.cmd, None);
      hide InPipe;
    }
  }

  lemma CommandSending(s: State, note: seq<Event>, enable: bool)
    requires SendingOk(s) && s.pipe != []
    ensures var s' := Command(s, note, enable); s'.sending + OnTheWay(s) == s.sending + OnTheWay(s')
  {
    CommandTraffic(s, note, enable);
    assert InPipe(s.pipe, None) == Carried(s.pipe[0], None) + InPipe(s.pipe[1..], None);
    hide InPipe, InHands, Command;
  }

  /** What `sending` counts beyond the packages on their way changes in this one place. */
  lemma NextSending(s: State, m: Move)
    requires SendingOk(s) && Enabled(s, m)
    ensures Next(s, m).sending + OnTheWay(s) == s.sending + OnTheWay(Next(s, m)) + if Wakes(s, m) then 1 else 0
  {
    match m
    case NewSend(_, _) => NewSending(s, m);
    case NewCmd(_) => NewSending(s, m);
    case Step(t, try, n) => StepSending(s, t, try, n);
    case Ctrl(note, enable) => CommandSending(s, note, enable);
    case Writable(ws, note) => SendBufferTraffic(s, ws, note);
    case Closes =>
    case _ => PollStores(s, m, Pkg(0, 0)); hide Next, Stored;
  }

  /** How many direct writes have been cut short. */
  function Woken(run: seq<State>, moves: seq<Move>, k: nat): nat
    requires k < |run| == |moves| + 1
  {
    if k == 0 then 0 else Woken(run, moves, k - 1) + if Wakes(run[k - 1], moves[k - 1]) then 1 else 0
  }

  /** In every state of every run `sending` counts the packages on their way, and for ever each direct write
      that was cut short. */
  lemma {:induction false} SendingExact(run: seq<State>, moves: seq<Move>, k: nat)
    requires IsRun(run, moves) && k < |run|
    ensures run[k].sending == OnTheWay(run[k]) + Woken(run, moves, k)
  {
    if k > 0 {
      SendingExact(run, moves, k - 1);
      RunInv(run, moves, k - 1);
      assert run[k - 1 + 1] == Next(run[k - 1], moves[k - 1]);
      NextSending(run[k - 1], moves[k - 1]);
      hide Next, OnTheWay, Wakes, Sound, EventsOk, PkgOk;
    }
  }

  /** Nothing is left to send, and nothing is on its way. */
  predicate AllSent(s: State) {
    s.high == [] && s.low == [] && s.dw.None? && OnTheWay(s) == 0
  }

  /** A socket with nothing left to send is closed at once if and only if its peer no longer takes bytes or
      no direct write was ever cut short; otherwise it stays open, closing and without reading. */
  lemma CloseExact(run: seq<State>, moves: seq<Move>, k: nat)
    requires IsRun(run, moves) && k < |run| && run[k].kind != Invalid && run[k].server == Idle && AllSent(run[k])
    ensures var s, s' := run[k], CloseSocket(run[k], false);
      && (s'.server.Freed? <==> s.kind == HalfWrite || Woken(run, moves, k) == 0)
      && (!s'.server.Freed? ==> s'.closing && s'.kind == HalfRead && AllSent(s'))
  {
    SendingExact(run, moves, k);
    hide IsRun, InHands, InPipe, Woken;
  }

  /** And that lasts: from then on no check for things left to send succeeds while bytes may still be sent. */
  lemma {:induction false} NeverDone(run: seq<State>, moves: seq<Move>, j: nat, k: nat)
    requires IsRun(run, moves) && j <= k < |run| && Woken(run, moves, j) > 0
    ensures NoMoreSending(run[k]) ==> run[k].kind == HalfWrite
  {
    SendingExact(run, moves, k);
    WokenGrows(run, moves, j, k);
    hide IsRun;
  }

  lemma {:induction false} WokenGrows(run: seq<State>, moves: seq<Move>, j: nat, k: nat)
    requires j <= k < |run| == |moves| + 1
    ensures Woken(run, moves, j) <= Woken(run, moves, k)
  {
    if j < k { WokenGrows(run, moves, j, k - 1); }
  }

  lemma RunStep(run: seq<State>, moves: seq<Move>, k: nat)
    requires IsRun(run, moves) && k < |moves|
    ensures |run| == |moves| + 1 && Enabled(run[k], moves[k]) && run[k + 1] == Next(run[k], moves[k])
  {
    hide Next, Enabled;
  }

  lemma RunStart(run: seq<State>, moves: seq<Move>)
    requires IsRun(run, moves)
    ensures |run| == |moves| + 1 && run[0].sending == 0
  {
    hide Next, Enabled;
  }

  /** The counter has sixteen bits, and a sender waits while they are all set. */
  lemma {:induction false} SendingBounded(run: seq<State>, moves: seq<Move>, k: nat)
    requires IsRun(run, moves) && k < |run|
    ensures run[k].sending <= 0xffff
  {
    hide *;
    RunStart(run, moves);
    if k > 0 {
      SendingBounded(run, moves, k - 1);
      RunStep(run, moves, k - 1);
      BoundedStep(run[k - 1], moves[k - 1]);
    }
  }

  lemma BoundedStep(s: State, m: Move)
    requires Enabled(s, m) && s.sending <= 0xffff
    ensures Next(s, m).sending <= 0xffff
  {
    match m
    case Ctrl(note, enable) => BoundedCommand(s, note, enable);
    case Writable(ws, note) => SendBufferTraffic(s, ws, note);
    case Step(_, _, _) => hide Bytes;
    case NewSend(_, _) =>
    case NewCmd(_) =>
    case Closes =>
    case _ => PollStores(s, m, Pkg(0, 0)); hide Next, Stored;
  }

  lemma BoundedCommand(s: State, note: seq<Event>, enable: bool)
    requires s.pipe != [] && s.sending <= 0xffff
    ensures Command(s, note, enable).sending <= 0xffff
  {
    hide Pkgs, NoMoreSending;
  }

  /** After 65535 direct writes that were cut short the counter stays at its end, and every thread that is about to
      count a command waits for ever. */
  lemma SendersWait(run: seq<State>, moves: seq<Move>, j: nat, k: nat, t: nat)
    requires IsRun(run, moves) && j <= k < |moves| && Woken(run, moves, j) >= 0xffff
    requires t < |run[k].tasks| && run[k].tasks[t].Inc?
    ensures run[k].sending == 0xffff && t < |run[k + 1].tasks| && run[k + 1].tasks[t] == run[k].tasks[t]
  {
    SendingExact(run, moves, k);
    SendingBounded(run, moves, k);
    WokenGrows(run, moves, j, k);
    assert Enabled(run[k], moves[k]) && run[k + 1] == Next(run[k], moves[k]);
    hide IsRun, Woken, OnTheWay;
    Waits(run[k], moves[k], t);
  }

  lemma Waits(s: State, m: Move, t: nat)
    requires Enabled(s, m) && s.sending == 0xffff && t < |s.tasks| && s.tasks[t].Inc?
    ensures t < |Next(s, m).tasks| && Next(s, m).tasks[t] == s.tasks[t]
  {
    match m
    case Ctrl(note, enable) => CommandTraffic(s, note, enable);
    case Writable(ws, note) => SendBufferTraffic(s, ws, note);
    case Step(u, try, n) => hide Bytes;
    case NewSend(_, _) =>
    case NewCmd(_) =>
    case Closes =>
    case _ => PollStores(s, m, Pkg(0, 0)); hide Next, Stored;
  }

  // ---------------------------------------------------------------------------
  // A run
  // ---------------------------------------------------------------------------

  lemma Looks(a: Pkg) returns (run: seq<State>, moves: seq<Move>)
    requires a == Pkg(0, 10)
    ensures IsRun(run, moves) && |run| == |moves| + 1
    ensures run[|moves|] == Fresh().(issued := [a], tasks := [Locked(a)], lock := Some(0))
  {
    var s := Fresh().(issued := [a]);
    var m := Step(0, true, 0);
    run, moves := [Fresh()], [];
    assert IsRun(run, moves);
    hide IsRun;
    run, moves := Extend(run, moves, NewSend(10, false), s.(tasks := [Send(a)]));
    run, moves := Extend(run, moves, m, s.(tasks := [Look(a)]));
    run, moves := Extend(run, moves, m, s.(tasks := [Grab(a)]));
    run, moves := Extend(run, moves, m, s.(tasks := [Locked(a)], lock := Some(0)));
  }

  /** A sender is about to write directly. */
  lemma AboutToSend(a: Pkg) returns (run: seq<State>, moves: seq<Move>)
    requires a == Pkg(0, 10)
    ensures IsRun(run, moves) && |run| == |moves| + 1
    ensures run[|moves|] == Fresh().(issued := [a], tasks := [Direct(a)], lock := Some(0))
  {
    run, moves := Looks(a);
    hide IsRun;
    var s, m := run[|moves|], Step(0, true, 0);
    run, moves := Extend(run, moves, m, s.(tasks := [LowList(a)]));
    run, moves := Extend(run, moves, m, s.(tasks := [DwBuffer(a)]));
    run, moves := Extend(run, moves, m, s.(tasks := [Counter(a)]));
    run, moves := Extend(run, moves, m, s.(tasks := [KindOf(a)]));
    run, moves := Extend(run, moves, m, s.(tasks := [Direct(a)]));
  }

  /** Four of ten bytes are written, and the socket thread is woken to send the rest. */
  lemma CutShort(a: Pkg) returns (run: seq<State>, moves: seq<Move>)
    requires a == Pkg(0, 10)
    ensures IsRun(run, moves) && |run| == |moves| + 1
    ensures run[|moves|] == Fresh().(issued := [a], tasks := [Done], dw := Some(Buf(a, 4)), sending := 1,
                                     wire := Bytes(a, 0, 4), sent := map[0 := 1])
  {
    run, moves := AboutToSend(a);
    hide IsRun, Bytes;
    var s := Fresh().(issued := [a], dw := Some(Buf(a, 4)), wire := Bytes(a, 0, 4), sent := map[0 := 1]);
    assert [] + Bytes(a, 0, 4) == Bytes(a, 0, 4);
    run, moves := Extend(run, moves, Step(0, true, 4), s.(tasks := [Inc(W)]));
    run, moves := Extend(run, moves, Step(0, true, 0), s.(tasks := [Post(W)], sending := 1));
    run, moves := Extend(run, moves, Step(0, true, 0), s.(tasks := [Done], sending := 1, pipe := [W]));
    run, moves := Extend(run, moves, Ctrl([], true), s.(tasks := [Done], sending := 1));
  }

  lemma LastBytes(a: Pkg, s: State)
    requires a.size == 10 && s.high == s.low == [] && s.dw == Some(Buf(a, 4)) && s.lock.None? && s.wbSize == 0 && !s.closing
    ensures var s' := SendBuffer(s, [Wrote(6)], []);
      s' == s.(dw := None, done := s.done + [a], wire := s'.wire)
  {
    assert SendList([Buf(a, 4)], [Wrote(6)]).list == [];
    hide Bytes;
  }

  lemma Written(a: Pkg) returns (run: seq<State>, moves: seq<Move>)
    requires a == Pkg(0, 10)
    ensures IsRun(run, moves) && |run| == |moves| + 1
    ensures var s := run[|moves|];
      s == Fresh().(issued := [a], tasks := [Done], sending := 1, done := [a], wire := s.wire, sent := map[0 := 1])
  {
    hide IsRun, Bytes, SendBuffer;
    run, moves := CutShort(a);
    var s := run[|moves|];
    LastBytes(a, s);
    run, moves := Extend(run, moves, Writable([Wrote(6)], []), SendBuffer(s, [Wrote(6)], []));
  }

  /** Everything has been written, but the close leaves the socket open. */
  lemma LeftOpen() returns (run: seq<State>, moves: seq<Move>)
    ensures IsRun(run, moves) && |run| == |moves| + 1
    ensures var s := run[|moves|];
      && AllSent(s) && s.pipe == [] && s.tasks == [Done] && s.done == s.issued == [Pkg(0, 10)]
      && s.closing && s.server == Idle && s.kind == HalfRead
  {
    run, moves := Written(Pkg(0, 10));
    hide IsRun;
    var s := run[|moves|];
    run, moves := Extend(run, moves, NewCmd(K(false)), s.(pipe := [K(false)]));
    run, moves := Extend(run, moves, Ctrl([], true), s.(closing := true, kind := HalfRead, events := [SocketClose]));
  }
}
