/** What holds in every state of every run of a TCP socket. */
module TcpRuns {
  import opened TcpWire
  import opened TcpSocket
  import opened TcpBuffers
  import opened TcpEvents
  import opened TcpPackages
  import opened TcpOrder

  ghost predicate Inv(s: State) {
    Sound(s) && EventsOk(s) && SendingOk(s) && forall p :: PkgOk(s, p)
  }

  lemma NewSound(s: State, m: Move)
    requires Sound(s) && Enabled(s, m) && (m.NewSend? || m.NewCmd?)
    ensures Sound(Next(s, m))
  {
    var s' := Next(s, m);
    forall t | 0 <= t < |s'.tasks| ensures TaskOk(s', s'.tasks[t]) {
      if t < |s.tasks| { assert TaskOk(s, s.tasks[t]); }
    }
    hide Flat, Unsent, Unbroken, Bytes;
  }

  lemma CommandSound(s: State, note: seq<Event>, enable: bool)
    requires Sound(s) && s.server == Idle && s.pipe != []
    ensures Sound(Command(s, note, enable))
  {
    hide Sound;
    var s0, s' := s.(pipe := s.pipe[1..]), Command(s, note, enable);
    SameBufs(s, s0);
    match s.pipe[0]
    case D(p) =>
      SendSocketSound(s0, p, false);
      SameBufs(SendSocket(s0, p, false), s');
    case P(p) =>
      SendSocketSound(s0, p, true);
      SameBufs(SendSocket(s0, p, true), s');
    case K(shutdown) =>
      if s'.server == Idle { SameBufs(s0, s'); } else { FreeListsSound(s0, s'.server.report); }
    case _ => SameBufs(s0, s');
  }

  lemma PollSound(s: State, m: Move)
    requires Sound(s) && Enabled(s, m)
    requires m.Readable? || m.Failure? || m.Eof? || m.ConnectDone? || m.Accepting?
    ensures Sound(Next(s, m))
  {
    hide Sound;
    var s' := Next(s, m);
    PollShape(s, m);
    assert s.kind != Invalid && s'.kind != Invalid && s.server == Idle;
    hide Next, Enabled;
    SameBufs(s, s.(kind := s'.kind));
    if s'.server.Freed? {
      FreeListsSound(s.(kind := s'.kind), s'.server.report);
    } else {
      SameBufs(s, s');
    }
  }

  lemma SoundStep(s: State, m: Move)
    requires Sound(s) && Enabled(s, m)
    ensures Sound(Next(s, m))
  {
    match m
    case NewSend(_, _) => NewSound(s, m);
    case NewCmd(_) => NewSound(s, m);
    case Step(t, try, n) => TaskStepSound(s, t, try, n);
    case Ctrl(note, enable) => CommandSound(s, note, enable);
    case Writable(ws, note) => SendBufferSound(s, ws, note);
    case Closes => CloseFdSound(s);
    case _ => PollSound(s, m);
  }

  lemma PkgStep(s: State, m: Move, p: Pkg)
    requires Sound(s) && PkgOk(s, p) && SendingOk(s) && Enabled(s, m)
    ensures PkgOk(Next(s, m), p) && SendingOk(Next(s, m))
  {
    match m
    case NewSend(_, _) => NewPkg(s, m, p);
    case NewCmd(_) => NewPkg(s, m, p);
    case Step(t, try, n) => StepPkg(s, t, try, n, p);
    case Ctrl(note, enable) => CommandPkg(s, note, enable, p);
    case _ => PollPkg(s, m, p);
  }

  /** Every step of every thread keeps the invariant. */
  lemma NextInv(s: State, m: Move)
    requires Inv(s) && Enabled(s, m)
    ensures Inv(Next(s, m))
  {
    SoundStep(s, m);
    EventsStep(s, m);
    PkgStep(s, m, Pkg(0, 0));
    forall p ensures PkgOk(Next(s, m), p) { PkgStep(s, m, p); }
    hide Next, Sound, EventsOk, SendingOk, PkgOk;
  }

  lemma InitSound(s: State)
    requires Init(s)
    ensures Sound(s) && EventsOk(s)
  {
    assert |s.events| == 0 && !s.closing && !s.server.Freed?;
    assert Flat(s.done) == [] && Begun(s) == [] && Unsent([]) == 0;
    hide Flat, Unbroken, Unsent, Init;
  }

  lemma InitPkg(s: State, p: Pkg)
    requires Init(s)
    ensures PkgOk(s, p) && SendingOk(s)
  {
    BufOne(Buf(p, 0), p);
    assert Occurs(s.done, p) == 0 && InPipe(s.pipe, Some(p)) == InPipe(s.pipe, None) == 0;
    assert InHands(s.tasks, Some(p)) == InHands(s.tasks, None) == 0;
    hide Occurs, Pkgs, InHands, InPipe;
  }

  lemma InitInv(s: State)
    requires Init(s)
    ensures Inv(s)
  {
    hide Init, Sound, EventsOk, SendingOk, PkgOk;
    InitSound(s);
    InitPkg(s, Pkg(0, 0));
    forall p ensures PkgOk(s, p) { InitPkg(s, p); }
  }

  ghost predicate IsRun(run: seq<State>, moves: seq<Move>) {
    && |run| == |moves| + 1 && Init(run[0])
    && forall k :: 0 <= k < |moves| ==> Enabled(run[k], moves[k]) && run[k + 1] == Next(run[k], moves[k])
  }

  lemma {:induction false} RunInv(run: seq<State>, moves: seq<Move>, k: nat)
    requires IsRun(run, moves) && k < |run|
    ensures Inv(run[k])
  {
    hide Inv, Next;
    if k == 0 {
      InitInv(run[0]);
    } else {
      RunInv(run, moves, k - 1);
      NextInv(run[k - 1], moves[k - 1]);
      assert run[k - 1 + 1] == Next(run[k - 1], moves[k - 1]);
    }
  }

  /** A sender writes while the socket thread is closing the descriptor, after the lists have been freed
      with a package half written. */
  predicate Races(s: State, m: Move) {
    m.Step? && m.t < |s.tasks| && s.tasks[m.t].Direct? && s.stub.Some? && Min(m.n, s.tasks[m.t].pkg.size) > 0
  }

  lemma TornStep(s: State, m: Move)
    requires Enabled(s, m)
    ensures Next(s, m).torn <==> s.torn || Races(s, m)
  {
    if m.Writable? { SendBufferTraffic(s, m.ws, m.note); }
    hide SendBuffer, Pkgs, Bytes;
  }

  ghost predicate NoRace(run: seq<State>, moves: seq<Move>, k: nat)
    requires k < |run| == |moves| + 1
  {
    forall j :: 0 <= j < k ==> !Races(run[j], moves[j])
  }

  lemma {:induction false} TornByRace(run: seq<State>, moves: seq<Move>, k: nat)
    requires IsRun(run, moves) && k < |run|
    ensures run[k].torn <==> !NoRace(run, moves, k)
  {
    if k > 0 {
      TornByRace(run, moves, k - 1);
      assert Enabled(run[k - 1], moves[k - 1]) && run[k - 1 + 1] == Next(run[k - 1], moves[k - 1]);
      hide Next, Races, Init, Enabled, IsRun;
      TornStep(run[k - 1], moves[k - 1]);
    }
  }

  /** In every state of every run the wire holds whole packages back to back and at most one unfinished
      at the end, if and only if no sender has won the race against a close. Without such a race the
      packages are those done, in the order in which they were finished. */
  lemma WholePackages(run: seq<State>, moves: seq<Move>, k: nat)
    requires IsRun(run, moves) && k < |run|
    ensures Unbroken(run[k].wire) <==> NoRace(run, moves, k)
    ensures NoRace(run, moves, k) ==> run[k].wire == Flat(run[k].done) + Begun(run[k])
  {
    RunInv(run, moves, k);
    TornByRace(run, moves, k);
    var s := run[k];
    if !s.torn {
      var b := if s.stub.Some? then s.stub.value else if s.dw.Some? then s.dw.value
               else if s.high != [] then s.high[0] else Buf(Pkg(0, 0), 0);
      assert Begun(s) == Bytes(b.pkg, 0, b.off);
      FlatWireUnbroken(s.done, b.pkg, b.off);
    }
    hide IsRun, NoRace, Unbroken, Flat;
  }

  /** As long as the socket is open, `wb_size` is what the lists still have to send. */
  lemma SizeIsUnsent(run: seq<State>, moves: seq<Move>, k: nat)
    requires IsRun(run, moves) && k < |run| && run[k].server == Idle && run[k].kind != Invalid
    ensures run[k].wbSize == Unsent(run[k].high) + Unsent(run[k].low)
  {
    RunInv(run, moves, k);
  }

  /** Over the whole life of the socket SOCKET_CLOSE is reported at most once and no data after it. */
  lemma CloseOnce(run: seq<State>, moves: seq<Move>, k: nat)
    requires IsRun(run, moves) && k < |run|
    ensures ClosedOnce(run[k].events)
  {
    RunInv(run, moves, k);
  }

  /** Every package is in exactly one place: with its sender, in the pipe, in a list, left by a direct
      write, written, or given up. So none is written twice, and when nothing is on its way and nothing was
      given up, every package has been written. */
  lemma EachPackageOnce(run: seq<State>, moves: seq<Move>, k: nat, p: Pkg)
    requires IsRun(run, moves) && k < |run|
    ensures Places(run[k], p) == if Issued(run[k], p) then 1 else 0
    ensures Occurs(run[k].done, p) <= 1
    ensures var s := run[k];
      && Issued(s, p) && InHands(s.tasks, Some(p)) == 0 && s.pipe == [] && s.high == [] && s.low == [] && s.dw.None?
      && Occurs(s.dropped, p) == 0
      ==> Occurs(s.done, p) == 1
  {
    RunInv(run, moves, k);
    assert PkgOk(run[k], p);
    BufOne(Buf(p, 0), p);
    hide IsRun, InHands, Occurs, Pkgs;
  }

  lemma {:induction false} RunOrder(run: seq<State>, moves: seq<Move>, k: nat, a: Pkg, b: Pkg)
    requires IsRun(run, moves) && k < |run|
    ensures SentOk(run[k]) && OrderOk(run[k], a, b)
  {
    hide Next;
    if k > 0 {
      RunOrder(run, moves, k - 1, a, b);
      RunInv(run, moves, k - 1);
      hide OrderOk, SentOk, Sound, SendingOk, PkgOk;
      assert run[k - 1 + 1] == Next(run[k - 1], moves[k - 1]);
      NextOrder(run[k - 1], moves[k - 1], a, b);
      NextSent(run[k - 1], moves[k - 1]);
    }
  }

  /** A package of high priority that left its sender before another one was issued is not overtaken by it: it
      has been given up, or it is in front wherever the other one has been or is about to be written. */
  lemma NotOvertaken(run: seq<State>, moves: seq<Move>, k: nat, a: Pkg, b: Pkg)
    requires IsRun(run, moves) && k < |run| && Precedes(run[k], a, b)
    ensures a in run[k].dropped || (Ahead(Line(run[k]), a, b) && Ahead(run[k].done, a, b))
  {
    RunOrder(run, moves, k, a, b);
    var s := run[k];
    if a !in s.dropped {
      assert Line(s) == s.done + (DirectLeft(s) + Pkgs(s.high));
      AheadPrefix(s.done, DirectLeft(s) + Pkgs(s.high), a, b);
    }
  }

  /** The assertions of the C code hold in every reachable state: the low list never starts with a package
      sent in part; when both lists have been sent out the size is zero; an unfinished package goes to an
      empty high list; and `sending` is not zero when a command is taken off it. */
  lemma AssertionsHold(run: seq<State>, moves: seq<Move>, k: nat, ws: seq<Write>)
    requires IsRun(run, moves) && k < |run|
    ensures Untouched(run[k].low)
    ensures var s := run[k]; Polled(s) && s.lock.None? ==>
      var s1 := TakeDirect(s);
      var r := SendList(s1.high, ws);
      var s2 := SendHigh(s1, r);
      var r2 := SendList(s2.low, r.rest);
      && (r.list == [] && r2.list == [] ==> SendLowList(s2, r2).wbSize == 0)
      && (r.list == [] && !r2.failed && r2.list != [] && r2.list[0].off > 0 ==>
            SendLowList(s2, r2).high == [] && SendRest(s2, r.rest, []) == Raise(SendLowList(s2, r2)))
    ensures run[k].pipe != [] && (run[k].pipe[0].D? || run[k].pipe[0].P?) ==> run[k].sending > 0
  {
    RunInv(run, moves, k);
    var s := run[k];
    hide IsRun;
    if Polled(s) && s.lock.None? {
      TakeDirectSound(s);
      var s1 := TakeDirect(s);
      SendHighSound(s1, ws);
      SendListKeepsPackages(s1.high, ws);
      var r := SendList(s1.high, ws);
      SendListKeepsPackages(s1.low, r.rest);
      hide SendList, Flat, Pkgs, Bytes, InHands, Occurs, Unbroken;
    }
  }

  lemma Extend(run: seq<State>, moves: seq<Move>, m: Move, s: State) returns (longer: seq<State>, more: seq<Move>)
    requires IsRun(run, moves) && Enabled(run[|moves|], m) && s == Next(run[|moves|], m)
    ensures longer == run + [s] && more == moves + [m] && IsRun(longer, more) && longer[|more|] == s
  {
    longer, more := run + [s], moves + [m];
    hide Next, Enabled;
  }

  lemma FourBytes(s: State, a: Pkg)
    requires a.size == 10 && s.high == [Buf(a, 0)] && s.lock.None? && s.dw.None? && s.wbSize == 10 && s.wire == []
    ensures SendBuffer(s, [Wrote(4)], []) == s.(high := [Buf(a, 4)], wbSize := 6, wire := Bytes(a, 0, 4))
  {
    assert SendList([Buf(a, 0)], [Wrote(4)]).list == [Buf(a, 4)] + [];
  }

  function Fresh(): State {
    State(Connected, false, [], [], 0, None, 0, None, [], [], Idle, [], [], [], [], [], None, false, map[])
  }

  /** A run in which a package is sent through the pipe. */
  lemma InThePipe(a: Pkg) returns (run: seq<State>, moves: seq<Move>)
    requires a == Pkg(0, 10)
    ensures IsRun(run, moves)
    ensures run[|moves|] == Fresh().(issued := [a], tasks := [Done], sending := 1, pipe := [D(a)], sent := map[0 := 1])
  {
    var s0 := Fresh();
    var s1 := s0.(issued := [a], tasks := [Send(a)]);
    var s2 := s1.(tasks := [Look(a)]);
    var s3 := s2.(tasks := [Inc(D(a))]);
    var s4 := s3.(tasks := [Post(D(a))], sending := 1);
    var s5 := s4.(tasks := [Done], pipe := [D(a)], sent := map[0 := 1]);
    run, moves := [s0], [];
    assert IsRun(run, moves);
    hide IsRun;
    run, moves := Extend(run, moves, NewSend(10, false), s1);
    run, moves := Extend(run, moves, Step(0, false, 0), s2);
    run, moves := Extend(run, moves, Step(0, false, 0), s3);
    run, moves := Extend(run, moves, Step(0, false, 0), s4);
    run, moves := Extend(run, moves, Step(0, false, 0), s5);
  }

  /** A run that gets four of ten bytes out, with another package about to be sent. */
  lemma HalfSent(a: Pkg, b: Pkg) returns (run: seq<State>, moves: seq<Move>)
    requires a == Pkg(0, 10) && b == Pkg(1, 3)
    ensures IsRun(run, moves)
    ensures var s := run[|moves|];
      && s.kind == Connected && s.high == [Buf(a, 4)] && s.low == [] && s.dw.None? && s.sending == 0 && s.lock.None?
      && s.pipe == [] && s.tasks == [Done, Send(b)] && s.server == Idle && !s.closing && s.stub.None?
  {
    run, moves := InThePipe(a);
    hide IsRun;
    var s4 := run[|moves|];
    var s5 := s4.(pipe := [], high := [Buf(a, 0)], wbSize := 10, sending := 0);
    var s6 := s5.(high := [Buf(a, 4)], wbSize := 6, wire := Bytes(a, 0, 4));
    var s7 := s6.(issued := [a, b], tasks := [Done, Send(b)]);
    run, moves := Extend(run, moves, Ctrl([], true), s5);
    FourBytes(s5, a);
    hide SendBuffer, Bytes;
    run, moves := Extend(run, moves, Writable([Wrote(4)], []), s6);
    run, moves := Extend(run, moves, NewSend(3, false), s7);
  }

  /** A shutdown frees the lists, and a sender that has looked before gets the lock. */
  lemma LocksAfterFree(a: Pkg, b: Pkg) returns (run: seq<State>, moves: seq<Move>)
    requires a == Pkg(0, 10) && b == Pkg(1, 3)
    ensures IsRun(run, moves)
    ensures var s := run[|moves|];
      && s.kind == Connected && s.high == [] && s.low == [] && s.dw.None? && s.sending == 0 && s.stub.Some?
      && s.tasks == [Done, Locked(b)] && s.lock == Some(1)
  {
    run, moves := HalfSent(a, b);
    hide IsRun;
    var s0 := run[|moves|];
    var s1 := s0.(pipe := [K(true)]);
    var s2 := FreeLists(s1.(pipe := []), [SocketClose]);
    var s3 := s2.(tasks := [Done, Look(b)]);
    var s4 := s3.(tasks := [Done, Grab(b)]);
    var s5 := s4.(tasks := [Done, Locked(b)], lock := Some(1));
    run, moves := Extend(run, moves, NewCmd(K(true)), s1);
    run, moves := Extend(run, moves, Ctrl([], true), s2);
    hide FreeLists;
    run, moves := Extend(run, moves, Step(1, true, 0), s3);
    run, moves := Extend(run, moves, Step(1, true, 0), s4);
    run, moves := Extend(run, moves, Step(1, true, 0), s5);
  }

  /** The sender sees nothing that would stop it. */
  lemma AboutToWrite(a: Pkg, b: Pkg) returns (run: seq<State>, moves: seq<Move>)
    requires a == Pkg(0, 10) && b == Pkg(1, 3)
    ensures IsRun(run, moves)
    ensures var s := run[|moves|]; s.stub.Some? && s.tasks == [Done, Direct(b)]
  {
    run, moves := LocksAfterFree(a, b);
    hide IsRun;
    var s := run[|moves|];
    run, moves := Extend(run, moves, Step(1, true, 0), s.(tasks := [Done, LowList(b)]));
    run, moves := Extend(run, moves, Step(1, true, 0), s.(tasks := [Done, DwBuffer(b)]));
    run, moves := Extend(run, moves, Step(1, true, 0), s.(tasks := [Done, Counter(b)]));
    run, moves := Extend(run, moves, Step(1, true, 0), s.(tasks := [Done, KindOf(b)]));
    run, moves := Extend(run, moves, Step(1, true, 0), s.(tasks := [Done, Direct(b)]));
  }

  /** The race happens: a package half written, a shutdown, and a sender that gets in between. */
  lemma RaceTears() returns (run: seq<State>, moves: seq<Move>)
    ensures IsRun(run, moves) && !Unbroken(run[|moves|].wire)
  {
    var a, b, m := Pkg(0, 10), Pkg(1, 3), Step(1, true, 3);
    run, moves := AboutToWrite(a, b);
    var k, s := |moves|, run[|moves|];
    assert Races(s, m) && Enabled(s, m);
    hide IsRun, Next;
    run, moves := Extend(run, moves, m, Next(s, m));
    assert run[k] == s && moves[k] == m;
    WholePackages(run, moves, |moves|);
  }
}
