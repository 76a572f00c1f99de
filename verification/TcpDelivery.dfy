/** When a package may be given up, and that otherwise all of them are written. */
module TcpDelivery {
  import opened TcpWire
  import opened TcpSocket
  import opened TcpBuffers
  import opened TcpEvents
  import opened TcpPackages
  import opened TcpRuns

  // ---------------------------------------------------------------------------
  // Why packages are given up
  // ---------------------------------------------------------------------------

  /** The socket is closing or closed, or this step closes it: it frees the lists or closes the descriptor. */
  predicate BeingClosed(s: State, m: Move)
    requires Enabled(s, m)
  {
    s.closing || s.kind == Invalid || s.server.Freed? || Next(s, m).server.Freed? || Next(s, m).kind == Invalid
  }

  /** Nobody will take what is written: the peer has stopped to, or the socket is no connection yet. */
  predicate NoTaker(s: State) {
    s.kind == HalfWrite || s.kind == PListen || s.kind == Listen || s.kind == PAccept
  }

  lemma SendingGivesUp(s: State, ws: seq<Write>, note: seq<Event>)
    requires s.kind != Invalid
    ensures var s' := SendBuffer(s, ws, note); s'.kind == Invalid || s'.dropped == s.dropped
  {
    hide SendList, Pkgs, CloseWrite, CloseFd;
    if s.lock.None? {
      var s1 := TakeDirect(s);
      var r := SendList(s1.high, ws);
      var s2 := SendHigh(s1, r);
      CloseWriteGivesUp(s2);
      RestGivesUp(s2, r.rest, note);
      hide SendRest;
    }
  }

  lemma CloseWriteGivesUp(s: State)
    ensures var s' := CloseWrite(s); s'.kind == Invalid || s'.dropped == s.dropped
  {
    hide Pkgs;
  }

  lemma RestGivesUp(s: State, ws: seq<Write>, note: seq<Event>)
    ensures var s' := SendRest(s, ws, note); s'.kind == Invalid || s'.dropped == s.dropped
  {
    hide SendList, Pkgs, CloseWrite;
    CloseWriteGivesUp(SendLowList(s, SendList(s.low, ws)));
  }

  lemma CommandGivesUp(s: State, note: seq<Event>, enable: bool)
    requires s.pipe != [] && s.server == Idle
    ensures var s' := Command(s, note, enable);
      s'.dropped == s.dropped || s.closing || s.kind == Invalid || NoTaker(s) || s'.server.Freed?
  {
    hide Pkgs, NoMoreSending;
  }

  lemma StepGivesUp(s: State, t: nat, try: bool, n: nat)
    requires t < |s.tasks|
    ensures TaskStep(s, t, try, n).dropped == s.dropped || s.closing || s.kind == Invalid
  {
    hide Bytes;
  }

  /** In every step: a package is given up only if the socket is closing or closed, or is being closed by this step,
      or if nobody will take what is written. */
  lemma GivenUpWhy(s: State, m: Move)
    requires Enabled(s, m)
    ensures Next(s, m).dropped == s.dropped || BeingClosed(s, m) || NoTaker(s)
  {
    match m
    case Step(t, try, n) => StepGivesUp(s, t, try, n);
    case Ctrl(note, enable) => CommandGivesUp(s, note, enable);
    case Writable(ws, note) => SendingGivesUp(s, ws, note);
    case NewSend(_, _) =>
    case NewCmd(_) =>
    case Closes =>
    case _ => PollShape(s, m); hide Next, Enabled;
  }

  // ---------------------------------------------------------------------------
  // Runs in which nothing is given up
  // ---------------------------------------------------------------------------

  predicate NoFail(ws: seq<Write>) {
    forall i :: 0 <= i < |ws| ==> !ws[i].Fail?
  }

  /** No close, no failed write, and nothing that makes the socket thread close the connection. Reading may fail, and
      the peer may shut down its side. */
  predicate Calm(m: Move) {
    match m
    case NewCmd(c) => !c.K?
    case Writable(ws, _) => NoFail(ws)
    case Eof => false
    case ConnectDone(ok, disable) => ok && disable
    case _ => true
  }

  /** A connection, or one that is being made or has been adopted. */
  predicate Connects(k: Kind) { k == Connecting || k == Connected || k == HalfRead || k == Bind }

  ghost predicate CalmState(s: State) {
    && Connects(s.kind) && !s.closing && s.server == Idle && s.dropped == []
    && (forall i :: 0 <= i < |s.pipe| ==> !s.pipe[i].K?)
    && (forall t :: 0 <= t < |s.tasks| && (s.tasks[t].Inc? || s.tasks[t].Post?) ==> !s.tasks[t].cmd.K?)
  }

  lemma {:induction false} SendListCalm(list: seq<Buf>, ws: seq<Write>)
    requires NoFail(ws)
    ensures !SendList(list, ws).failed && NoFail(SendList(list, ws).rest)
    decreases |ws|
  {
    if list != [] && ws != [] {
      match ws[0]
      case Interrupted => SendListCalm(list, ws[1..]);
      case Wrote(m) => SendListCalm(list[1..], ws[1..]);
      case _ =>
    }
  }

  lemma SendingCalm(s: State, ws: seq<Write>, note: seq<Event>)
    requires CalmState(s) && NoFail(ws)
    ensures CalmState(SendBuffer(s, ws, note))
  {
    if s.lock.None? {
      var s1 := TakeDirect(s);
      SendListCalm(s1.high, ws);
      var r := SendList(s1.high, ws);
      SendListCalm(s1.low, r.rest);
      hide SendList, Pkgs;
    }
  }

  lemma MovedCalm(s: State, t: nat, try: bool)
    requires CalmState(s) && t < |s.tasks|
    ensures var task := s.tasks[t]; CalmState(Moved(s, t, task, NextTask(s, task, try)))
  {
  }

  lemma WriteCalm(s: State, t: nat, n: nat)
    requires CalmState(s) && t < |s.tasks| && s.tasks[t].Direct? && n <= s.tasks[t].pkg.size
    ensures CalmState(DirectWrite(s, t, s.tasks[t].pkg, n))
  {
    hide Bytes;
  }

  lemma PostCalm(s: State, t: nat)
    requires CalmState(s) && t < |s.tasks| && s.tasks[t].Post?
    ensures CalmState(PostCmd(s, t, s.tasks[t].cmd))
  {
  }

  lemma StepCalm(s: State, t: nat, try: bool, n: nat)
    requires CalmState(s) && t < |s.tasks|
    ensures CalmState(TaskStep(s, t, try, n))
  {
    hide CalmState, Moved, NextTask, DirectWrite, PostCmd;
    match s.tasks[t]
    case Direct(p) => WriteCalm(s, t, Min(n, p.size));
    case Post(_) => PostCalm(s, t);
    case _ => MovedCalm(s, t, try);
  }

  lemma CommandCalm(s: State, note: seq<Event>, enable: bool)
    requires CalmState(s) && s.pipe != []
    ensures CalmState(Command(s, note, enable))
  {
    assert !s.pipe[0].K?;
    hide Pkgs, NoMoreSending, CloseSocket;
    match s.pipe[0]
    case D(p) => hide Resume;
    case P(p) => hide Resume;
    case _ => hide SendSocket;
  }

  lemma CalmNext(s: State, m: Move)
    requires CalmState(s) && Enabled(s, m) && Calm(m)
    ensures CalmState(Next(s, m))
  {
    match m
    case Step(t, try, n) => StepCalm(s, t, try, n); hide TaskStep;
    case Writable(ws, note) => SendingCalm(s, ws, note); hide SendBuffer;
    case Ctrl(note, enable) => CommandCalm(s, note, enable); hide Command;
    case _ => hide Pkgs, NoMoreSending, SendBuffer, Command, TaskStep;
  }

  /** In a run without a close, a failed write or an end of the connection no package is given up: not while it is
      being connected, and not when the peer has shut down its side. */
  lemma {:induction false} NothingGivenUp(run: seq<State>, moves: seq<Move>, k: nat)
    requires IsRun(run, moves) && k < |run| && Connects(run[0].kind)
    requires forall j :: 0 <= j < k ==> Calm(moves[j])
    ensures CalmState(run[k])
  {
    if k > 0 {
      NothingGivenUp(run, moves, k - 1);
      assert Enabled(run[k - 1], moves[k - 1]) && run[k - 1 + 1] == Next(run[k - 1], moves[k - 1]);
      hide Next, Enabled, CalmState, Calm;
      CalmNext(run[k - 1], moves[k - 1]);
    }
  }

  /** So when nothing is under way, every package that was ever sent has been written, once. */
  lemma AllWritten(run: seq<State>, moves: seq<Move>, k: nat, p: Pkg)
    requires IsRun(run, moves) && k < |run| && Connects(run[0].kind) && forall j :: 0 <= j < k ==> Calm(moves[j])
    requires var s := run[k];
      InHands(s.tasks, Some(p)) == 0 && s.pipe == [] && s.high == [] && s.low == [] && s.dw.None?
    requires Issued(run[k], p)
    ensures Occurs(run[k].done, p) == 1
  {
    NothingGivenUp(run, moves, k);
    EachPackageOnce(run, moves, k, p);
    hide IsRun, InHands;
  }

  // ---------------------------------------------------------------------------
  // Sending everything
  // ---------------------------------------------------------------------------

  /** The kernel takes all that it is given, `n` times. */
  predicate TakesAll(ws: seq<Write>, size: nat) {
    forall i :: 0 <= i < |ws| ==> ws[i].Wrote? && ws[i].n >= size
  }

  predicate Below(l: seq<Buf>, size: nat) {
    forall i :: 0 <= i < |l| ==> l[i].pkg.size <= size
  }

  lemma {:induction false} SendWhole(list: seq<Buf>, ws: seq<Write>, size: nat)
    requires TakesAll(ws, size) && Below(list, size) && |list| <= |ws|
    ensures var r := SendList(list, ws);
      r.list == [] && r.done == Pkgs(list) && TakesAll(r.rest, size) && |r.rest| == |ws| - |list| && !r.failed
    decreases |list|
  {
    if list != [] {
      SendWhole(list[1..], ws[1..], size);
      assert Pkgs(list) == [list[0].pkg] + Pkgs(list[1..]);
    }
  }

  /** When the kernel takes all, one call sends everything: first what a direct write has left, then the packages of
      high priority, then those of low priority. */
  lemma SendsAll(s: State, ws: seq<Write>, note: seq<Event>, size: nat)
    requires s.lock.None? && TakesAll(ws, size) && Below(s.high, size) && Below(s.low, size)
    requires s.dw.Some? ==> s.dw.value.pkg.size <= size
    requires |ws| >= |s.high| + |s.low| + 1
    ensures var s' := SendBuffer(s, ws, note);
      && s'.high == [] && s'.low == [] && s'.dw.None? && s'.dropped == s.dropped
      && s'.done == s.done + (if s.dw.Some? then [s.dw.value.pkg] else []) + Pkgs(s.high) + Pkgs(s.low)
      && (s.closing ==> s'.kind == Invalid) && (!s.closing ==> s'.kind == s.kind && s'.events == s.events + note)
  {
    hide SendList, Bytes, Pkgs, TakesAll, Below, SendRest;
    var s1 := TakeDirect(s);
    Taken(s, size);
    SendWhole(s1.high, ws, size);
    var r := SendList(s1.high, ws);
    var s2 := SendHigh(s1, r);
    RestSendsAll(s2, r.rest, note, size);
  }

  lemma Taken(s: State, size: nat)
    requires Below(s.high, size) && (s.dw.Some? ==> s.dw.value.pkg.size <= size)
    ensures var s1 := TakeDirect(s);
      && Below(s1.high, size) && |s1.high| <= |s.high| + 1 && s1.dw.None? && s1.low == s.low && s1.done == s.done
      && Pkgs(s1.high) == (if s.dw.Some? then [s.dw.value.pkg] else []) + Pkgs(s.high)
  {
  }

  lemma RestSendsAll(s: State, ws: seq<Write>, note: seq<Event>, size: nat)
    requires TakesAll(ws, size) && Below(s.low, size) && |ws| >= |s.low| && s.high == [] && s.dw.None?
    ensures var s' := SendRest(s, ws, note);
      && s'.high == [] && s'.low == [] && s'.dw.None? && s'.dropped == s.dropped && s'.done == s.done + Pkgs(s.low)
      && (s.closing ==> s'.kind == Invalid) && (!s.closing ==> s'.kind == s.kind && s'.events == s.events + note)
  {
    SendWhole(s.low, ws, size);
    assert Pkgs([]) == [] && s.dropped + [] + [] + [] == s.dropped;
    hide SendList, Bytes, TakesAll, Below;
  }

  // ---------------------------------------------------------------------------
  // What is read
  // ---------------------------------------------------------------------------

  function DataIn(es: seq<Event>): nat {
    if es == [] then 0 else DataIn(es[..|es| - 1]) + if es[|es| - 1] == SocketData then 1 else 0
  }

  /** Data comes in on a connection that the peer has not shut down. */
  predicate Reads(s: State, m: Move) {
    m.Readable? && m.r == ReadSome && s.kind != HalfRead
  }

  /** At most one event is reported, and no data. */
  predicate NoData(es: seq<Event>, fs: seq<Event>) {
    fs == es || (|fs| == |es| + 1 && fs[..|es|] == es && fs[|es|] != SocketData)
  }

  lemma NoteIsNoData(es: seq<Event>, note: seq<Event>)
    requires |note| <= 1 && SocketData !in note
    ensures NoData(es, es + note)
  {
    assert es + [] == es;
  }

  lemma SendingReports(s: State, ws: seq<Write>, note: seq<Event>)
    requires Note(note)
    ensures NoData(s.events, SendBuffer(s, ws, note).events)
  {
    NoteIsNoData(s.events, note);
    NoteIsNoData(s.events, [SocketErr]);
    assert s.events + [] == s.events;
    hide SendList, Pkgs, NoData;
  }

  lemma CommandReports(s: State, note: seq<Event>, enable: bool)
    requires s.pipe != [] && s.server == Idle && Note(note)
    ensures NoData(s.events, Command(s, note, enable).events)
  {
    NoteIsNoData(s.events, note);
    NoteIsNoData(s.events, [SocketErr]);
    NoteIsNoData(s.events, [SocketOpen]);
    NoteIsNoData(s.events, [SocketClose]);
    hide Pkgs, NoMoreSending, NoData;
  }

  lemma ReadingReports(s: State, r: Read)
    ensures if r == ReadSome && s.kind != HalfRead then Forward(s, r).events == s.events + [SocketData]
            else NoData(s.events, Forward(s, r).events)
  {
    NoteIsNoData(s.events, [SocketErr]);
    NoteIsNoData(s.events, [SocketClose]);
    hide Pkgs, NoMoreSending;
  }

  lemma OthersReport(s: State, m: Move)
    requires Enabled(s, m) && EventsOk(s)
    requires !m.Writable? && !m.Ctrl? && !m.Readable?
    ensures NoData(s.events, Next(s, m).events)
  {
    NoteIsNoData(s.events, [SocketErr]);
    NoteIsNoData(s.events, [SocketOpen]);
    match m
    case Accepting(e) => NoteIsNoData(s.events, e);
    case Closes => NoteIsNoData(s.events, s.server.report); hide Pkgs, Bytes, ClosedOnce;
    case _ => hide Pkgs, Bytes, NoMoreSending, NoData, ClosedOnce;
  }

  lemma OneMore(s: State, m: Move)
    requires Enabled(s, m) && EventsOk(s)
    ensures if Reads(s, m) then Next(s, m).events == s.events + [SocketData] else NoData(s.events, Next(s, m).events)
  {
    match m
    case Writable(ws, note) => SendingReports(s, ws, note); hide SendBuffer, NoData, EventsOk;
    case Ctrl(note, enable) => CommandReports(s, note, enable); hide Command, NoData, EventsOk;
    case Readable(r) => ReadingReports(s, r); hide Forward, NoData, EventsOk;
    case _ => OthersReport(s, m); hide Next, NoData, EventsOk;
  }

  /** How often data has come in. */
  ghost function DataRead(run: seq<State>, moves: seq<Move>, k: nat): nat
    requires k < |run| == |moves| + 1
  {
    if k == 0 then 0 else DataRead(run, moves, k - 1) + if Reads(run[k - 1], moves[k - 1]) then 1 else 0
  }

  /** In every run every piece of data that is read before the peer shuts down its side is reported, once, and nothing
      else is reported as data. */
  lemma {:induction false} DataReported(run: seq<State>, moves: seq<Move>, k: nat)
    requires IsRun(run, moves) && k < |run|
    ensures DataIn(run[k].events) == DataRead(run, moves, k)
  {
    if k > 0 {
      DataReported(run, moves, k - 1);
      RunInv(run, moves, k - 1);
      var s, m := run[k - 1], moves[k - 1];
      assert Enabled(s, m) && run[k - 1 + 1] == Next(s, m);
      hide Next, Enabled, IsRun, Sound, EventsOk, SendingOk, PkgOk, Reads, DataIn;
      OneMore(s, m);
      CountMore(s.events, run[k].events);
    }
  }

  lemma CountMore(es: seq<Event>, fs: seq<Event>)
    ensures NoData(es, fs) ==> DataIn(fs) == DataIn(es)
    ensures fs == es + [SocketData] ==> DataIn(fs) == DataIn(es) + 1
  {
    if fs == es + [SocketData] { assert fs[..|es|] == es; }
  }
}
