/** Packages sent with high priority are not overtaken: when a send is over before another one begins, its
    package is on the wire first or has been given up. That is what counting in `sending` and looking twice
    before a direct write are for. */
module TcpOrder {
  import opened TcpWire
  import opened TcpSocket
  import opened TcpBuffers
  import opened TcpPackages

  /** The packages written and next to be written, in order: those done, what a direct write has left, and the
      high list. */
  function DirectLeft(s: State): seq<Pkg> { if s.dw.Some? then [s.dw.value.pkg] else [] }
  function Front(s: State): seq<Pkg> { s.done + DirectLeft(s) }
  function Line(s: State): seq<Pkg> { Front(s) + Pkgs(s.high) }

  /** Package `a` has left its sender, with high priority, before `b` was issued. */
  ghost predicate Precedes(s: State, a: Pkg, b: Pkg) {
    Issued(s, a) && a.id in s.sent && s.sent[a.id] <= b.id
  }

  /** Wherever `b` is in the list, `a` is in front of it. */
  ghost predicate Ahead(l: seq<Pkg>, a: Pkg, b: Pkg) {
    forall j :: 0 <= j < |l| && l[j] == b ==> a in l[..j]
  }

  predicate Carries(c: Cmd, p: Pkg) { (c.D? || c.P?) && c.pkg == p }

  ghost predicate PipeOk(pipe: seq<Cmd>, line: seq<Pkg>, a: Pkg, b: Pkg) {
    forall j :: 0 <= j < |pipe| && Carries(pipe[j], b) ==> a in line || D(a) in pipe[..j]
  }

  /** How far the sender of `b` is on its way to a direct write: it has found nothing in the pipe, nothing in the
      high list, nothing left by a direct write. */
  function Progress(task: Task, b: Pkg): nat {
    match task
    case Grab(p) => if p == b then 1 else 0
    case Locked(p) => if p == b then 1 else 0
    case LowList(p) => if p == b then 2 else 0
    case DwBuffer(p) => if p == b then 2 else 0
    case Counter(p) => if p == b then 3 else 0
    case KindOf(p) => if p == b then 3 else 0
    case Direct(p) => if p == b then 3 else 0
    case _ => 0
  }

  /** So there are less and less places where `a` may be. */
  ghost predicate SenderOk(s: State, task: Task, a: Pkg, b: Pkg) {
    && (Progress(task, b) == 1 ==> a in Line(s))
    && (Progress(task, b) == 2 ==> a in Front(s))
    && (Progress(task, b) == 3 ==> a in s.done)
  }

  ghost predicate Placed(s: State, a: Pkg, b: Pkg) {
    && (a in Line(s) || D(a) in s.pipe)
    && Ahead(Line(s), a, b)
    && (b in Pkgs(s.low) ==> a in Line(s))
    && PipeOk(s.pipe, Line(s), a, b)
  }

  ghost predicate SendersOk(s: State, a: Pkg, b: Pkg) {
    forall t :: 0 <= t < |s.tasks| ==> SenderOk(s, s.tasks[t], a, b)
  }

  ghost predicate InOrder(s: State, a: Pkg, b: Pkg) {
    a in s.dropped || (Placed(s, a, b) && SendersOk(s, a, b))
  }

  // ---------------------------------------------------------------------------
  // Lists
  // ---------------------------------------------------------------------------

  lemma AheadAppend(l: seq<Pkg>, x: seq<Pkg>, a: Pkg, b: Pkg)
    requires Ahead(l, a, b) && (b in x ==> a in l)
    ensures Ahead(l + x, a, b)
  {
    forall j | 0 <= j < |l + x| && (l + x)[j] == b ensures a in (l + x)[..j] {
      if j < |l| {
        assert (l + x)[..j] == l[..j];
      } else {
        assert (l + x)[..j] == l + x[..j - |l|];
      }
    }
  }

  lemma AheadPrefix(l: seq<Pkg>, x: seq<Pkg>, a: Pkg, b: Pkg)
    requires Ahead(l + x, a, b)
    ensures Ahead(l, a, b)
  {
    forall j | 0 <= j < |l| && l[j] == b ensures a in l[..j] {
      assert (l + x)[j] == b && (l + x)[..j] == l[..j];
    }
  }

  lemma AheadInsert(l: seq<Pkg>, p: Pkg, x: seq<Pkg>, a: Pkg, b: Pkg)
    requires Ahead(l + x, a, b) && (p == b ==> a in l)
    ensures Ahead(l + [p] + x, a, b)
  {
    var m := l + [p] + x;
    forall j | 0 <= j < |m| && m[j] == b ensures a in m[..j] {
      if j < |l| {
        assert (l + x)[j] == b && (l + x)[..j] == m[..j];
      } else if j == |l| {
        assert m[..j] == l;
      } else {
        assert (l + x)[j - 1] == b && (l + x)[..j - 1] == l + x[..j - 1 - |l|];
        assert m[..j] == l + [p] + x[..j - 1 - |l|];
      }
    }
  }

  /** The fields that matter here. */
  ghost predicate SamePlaces(s: State, s': State) {
    && s'.done == s.done && s'.dw == s.dw && s'.high == s.high && s'.low == s.low
    && s'.dropped == s.dropped && s'.pipe == s.pipe && s'.tasks == s.tasks
  }

  lemma SameOrder(s: State, s': State, a: Pkg, b: Pkg)
    requires InOrder(s, a, b) && SamePlaces(s, s')
    ensures InOrder(s', a, b)
  {
    assert forall t :: 0 <= t < |s.tasks| && SenderOk(s, s.tasks[t], a, b) ==> SenderOk(s', s.tasks[t], a, b);
  }

  // ---------------------------------------------------------------------------
  // The socket thread
  // ---------------------------------------------------------------------------

  /** Nobody holds the lock. */
  ghost predicate Unlocked(s: State) {
    forall t :: 0 <= t < |s.tasks| ==> !HasLock(s.tasks[t])
  }

  /** Packages from the low list move to the end of the line, while nobody holds the lock. */
  lemma LineGrows(s: State, s': State, x: seq<Pkg>, a: Pkg, b: Pkg)
    requires InOrder(s, a, b) && Unlocked(s)
    requires Line(s') == Line(s) + x && s'.dropped == s.dropped && s'.pipe == s.pipe && s'.tasks == s.tasks
    requires Pkgs(s.low) == x + Pkgs(s'.low)
    ensures InOrder(s', a, b)
  {
    hide Pkgs;
    if a !in s.dropped {
      AheadAppend(Line(s), x, a, b);
      assert forall p :: p in Line(s) ==> p in Line(s');
      hide Line;
      assert Placed(s', a, b);
      forall t | 0 <= t < |s.tasks| ensures SenderOk(s', s.tasks[t], a, b) {
        assert SenderOk(s, s.tasks[t], a, b) && !HasLock(s.tasks[t]);
      }
    }
  }

  lemma TakeDirectOrder(s: State, a: Pkg, b: Pkg)
    requires InOrder(s, a, b) && Unlocked(s)
    ensures InOrder(TakeDirect(s), a, b)
  {
    if s.dw.Some? {
      var s' := TakeDirect(s);
      assert Pkgs(s'.high) == [s.dw.value.pkg] + Pkgs(s.high);
      assert Line(s') == Line(s) + [];
      LineGrows(s, s', [], a, b);
    }
  }

  lemma SendHighOrder(s: State, r: Sent, a: Pkg, b: Pkg)
    requires InOrder(s, a, b) && Unlocked(s) && s.dw.None? && Pkgs(s.high) == r.done + Pkgs(r.list)
    ensures InOrder(SendHigh(s, r), a, b)
  {
    var s' := SendHigh(s, r);
    assert Line(s') == Line(s) + [] by { hide Pkgs; }
    LineGrows(s, s', [], a, b);
  }

  lemma SendLowOrder(s: State, r: Sent, a: Pkg, b: Pkg)
    requires InOrder(s, a, b) && Unlocked(s) && s.dw.None? && s.high == [] && Pkgs(s.low) == r.done + Pkgs(r.list)
    ensures InOrder(SendLowList(s, r), a, b)
  {
    var s' := SendLowList(s, r);
    assert Pkgs([]) == [];
    assert Line(s') == Line(s) + r.done by { hide Pkgs; }
    LineGrows(s, s', r.done, a, b);
  }

  lemma RaiseOrder(s: State, a: Pkg, b: Pkg)
    requires InOrder(s, a, b) && Unlocked(s) && s.dw.None? && s.high == [] && s.low != []
    ensures InOrder(Raise(s), a, b)
  {
    var s' := Raise(s);
    assert Pkgs([]) == [] && Pkgs(s'.high) == [s.low[0].pkg] && Pkgs(s.low) == [s.low[0].pkg] + Pkgs(s'.low);
    LineGrows(s, s', [s.low[0].pkg], a, b);
  }

  /** Closing gives up the end of the line. */
  lemma FreeListsOrder(s: State, report: seq<Event>, a: Pkg, b: Pkg)
    requires InOrder(s, a, b)
    ensures InOrder(FreeLists(s, report), a, b)
  {
    var s' := FreeLists(s, report);
    assert Pkgs([]) == [];
    hide Pkgs;
    assert Line(s') == Front(s) == Front(s');
    if a !in s'.dropped {
      AheadPrefix(Front(s), Pkgs(s.high), a, b);
      assert a in Line(s) ==> a in Line(s');
      hide Line;
      assert Placed(s', a, b);
      forall t | 0 <= t < |s.tasks| ensures SenderOk(s', s.tasks[t], a, b) {
        assert SenderOk(s, s.tasks[t], a, b);
      }
    }
  }

  lemma CloseFdOrder(s: State, a: Pkg, b: Pkg)
    requires InOrder(s, a, b) && Unlocked(s) && s.high == []
    ensures InOrder(CloseFd(s), a, b)
  {
    var s' := CloseFd(s);
    assert Pkgs([]) == [];
    hide Pkgs;
    assert Line(s') == s.done && Line(s) == s.done + DirectLeft(s);
    if a !in s'.dropped {
      AheadPrefix(s.done, DirectLeft(s), a, b);
      assert a in Line(s) ==> a in Line(s');
      hide Line;
      assert Placed(s', a, b);
      forall t | 0 <= t < |s.tasks| ensures SenderOk(s', s.tasks[t], a, b) {
        assert SenderOk(s, s.tasks[t], a, b) && !HasLock(s.tasks[t]);
      }
    }
  }

  lemma CloseWriteOrder(s: State, a: Pkg, b: Pkg)
    requires InOrder(s, a, b) && Unlocked(s)
    ensures InOrder(CloseWrite(s), a, b)
  {
    hide InOrder;
    if s.closing || s.kind == HalfRead {
      FreeListsOrder(s, [], a, b);
      CloseFdOrder(FreeLists(s, []), a, b);
    } else {
      SameOrder(s, CloseWrite(s), a, b);
    }
  }

  lemma SendRestOrder(s: State, ws: seq<Write>, note: seq<Event>, a: Pkg, b: Pkg)
    requires InOrder(s, a, b) && Unlocked(s) && s.dw.None? && s.high == [] && Untouched(s.low)
    ensures InOrder(SendRest(s, ws, note), a, b)
  {
    hide InOrder;
    SendListKeepsPackages(s.low, ws);
    var r := SendList(s.low, ws);
    SendLowOrder(s, r, a, b);
    var s' := SendLowList(s, r);
    hide SendList, Pkgs;
    if r.failed {
      CloseWriteOrder(s', a, b);
    } else if r.list != [] && r.list[0].off > 0 {
      RaiseOrder(s', a, b);
    } else if r.list == [] && s.closing {
      FreeListsOrder(s', [], a, b);
      CloseFdOrder(FreeLists(s', []), a, b);
    } else if r.list == [] {
      SameOrder(s', Report(s', note), a, b);
    }
  }

  lemma SendBufferOrder(s: State, ws: seq<Write>, note: seq<Event>, a: Pkg, b: Pkg)
    requires InOrder(s, a, b) && BufsOk(s) && LockOk(s)
    ensures InOrder(SendBuffer(s, ws, note), a, b)
  {
    if s.lock.None? {
      assert Unlocked(s);
      hide InOrder;
      TakeDirectOrder(s, a, b);
      var s1 := TakeDirect(s);
      SendListKeepsPackages(s1.high, ws);
      var r := SendList(s1.high, ws);
      SendHighOrder(s1, r, a, b);
      var s2 := SendHigh(s1, r);
      hide SendList, Pkgs;
      if r.failed {
        CloseWriteOrder(s2, a, b);
      } else if r.list == [] {
        SendRestOrder(s2, r.rest, note, a, b);
      }
    }
  }

  /** A package comes out of the pipe: all that precede it have come out before. */
  lemma SendSocketOrder(s: State, p: Pkg, low: bool, a: Pkg, b: Pkg)
    requires s.pipe != [] && s.pipe[0] == (if low then P(p) else D(p)) && InOrder(s, a, b)
    ensures InOrder(SendSocket(s.(pipe := s.pipe[1..]), p, low), a, b)
  {
    var s' := SendSocket(s.(pipe := s.pipe[1..]), p, low);
    if a !in s'.dropped {
      var x := if Pkgs(s'.high) == Pkgs(s.high) then [] else [p];
      assert s'.high != s.high ==> Pkgs(s'.high) == Pkgs(s.high) + [p];
      assert s'.low != s.low ==> Pkgs(s'.low) == Pkgs(s.low) + [p];
      hide Pkgs;
      assert Carries(s.pipe[0], p) && s.pipe[..0] == [];
      assert p == b ==> a in Line(s);
      assert Line(s') == if s'.high == s.high then Line(s) else Line(s) + [p];
      AheadAppend(Line(s), [p], a, b);
      PipeAdvances(s.pipe, Line(s), Line(s'), a, b);
      assert D(a) in s.pipe ==> D(a) == s.pipe[0] || D(a) in s.pipe[1..];
      assert Front(s') == Front(s);
      hide Line, Front;
      assert Placed(s', a, b);
      forall t | 0 <= t < |s.tasks| ensures SenderOk(s', s.tasks[t], a, b) {
        assert SenderOk(s, s.tasks[t], a, b);
      }
    }
  }

  lemma PipeAdvances(pipe: seq<Cmd>, line: seq<Pkg>, line': seq<Pkg>, a: Pkg, b: Pkg)
    requires pipe != [] && PipeOk(pipe, line, a, b)
    requires (a in line ==> a in line') && (pipe[0] == D(a) ==> a in line')
    ensures PipeOk(pipe[1..], line', a, b)
  {
    forall j | 0 <= j < |pipe| - 1 && Carries(pipe[1..][j], b) ensures a in line' || D(a) in pipe[1..][..j] {
      assert pipe[1..][j] == pipe[j + 1];
      assert pipe[..j + 1] == [pipe[0]] + pipe[1..][..j];
    }
  }

  lemma CommandOrder(s: State, note: seq<Event>, enable: bool, a: Pkg, b: Pkg)
    requires s.pipe != [] && s.server == Idle && InOrder(s, a, b)
    ensures InOrder(Command(s, note, enable), a, b)
  {
    hide InOrder;
    var s0, s' := s.(pipe := s.pipe[1..]), Command(s, note, enable);
    match s.pipe[0]
    case D(p) =>
      SendSocketOrder(s, p, false, a, b);
      SameOrder(SendSocket(s0, p, false), s', a, b);
    case P(p) =>
      SendSocketOrder(s, p, true, a, b);
      SameOrder(SendSocket(s0, p, true), s', a, b);
    case K(shutdown) =>
      OtherCommandOrder(s, a, b);
      if s'.server == Idle {
        SameOrder(s0, s', a, b);
      } else {
        FreeListsOrder(s0, s'.server.report, a, b);
      }
    case _ =>
      OtherCommandOrder(s, a, b);
      SameOrder(s0, s', a, b);
  }

  lemma OtherCommandOrder(s: State, a: Pkg, b: Pkg)
    requires s.pipe != [] && !s.pipe[0].D? && !s.pipe[0].P? && InOrder(s, a, b)
    ensures InOrder(s.(pipe := s.pipe[1..]), a, b)
  {
    var s' := s.(pipe := s.pipe[1..]);
    if a !in s.dropped {
      PipeAdvances(s.pipe, Line(s), Line(s'), a, b);
      assert D(a) in s.pipe ==> D(a) in s.pipe[1..];
      forall t | 0 <= t < |s.tasks| ensures SenderOk(s', s.tasks[t], a, b) {
        assert SenderOk(s, s.tasks[t], a, b);
      }
    }
  }

  lemma EventOrder(s: State, m: Move, a: Pkg, b: Pkg)
    requires InOrder(s, a, b) && Enabled(s, m)
    requires m.Readable? || m.Failure? || m.Eof? || m.ConnectDone? || m.Accepting?
    ensures InOrder(Next(s, m), a, b)
  {
    hide InOrder;
    var s' := Next(s, m);
    PollShape(s, m);
    hide Next, Enabled;
    if s' == s.(kind := s'.kind, events := s'.events) {
      SameOrder(s, s', a, b);
    } else {
      SameOrder(s, s.(kind := s'.kind), a, b);
      FreeListsOrder(s.(kind := s'.kind), s'.server.report, a, b);
    }
  }

  // ---------------------------------------------------------------------------
  // The senders
  // ---------------------------------------------------------------------------

  lemma {:induction false} NoOccurrence(ps: seq<Pkg>, p: Pkg)
    requires Occurs(ps, p) == 0
    ensures p !in ps
  {
    if ps != [] { NoOccurrence(ps[1..], p); }
  }

  lemma {:induction false} NotInPipe(pipe: seq<Cmd>, m: Measure, j: nat)
    requires InPipe(pipe, m) == 0 && j < |pipe|
    ensures Carried(pipe[j], m) == 0
  {
    if j > 0 { NotInPipe(pipe[1..], m, j - 1); }
  }

  lemma {:induction false} NotInHands(tasks: seq<Task>, m: Measure, t: nat)
    requires InHands(tasks, m) == 0 && t < |tasks|
    ensures InHand(tasks[t], m) == 0
  {
    if t < |tasks| - 1 { NotInHands(tasks[..|tasks| - 1], m, t); }
  }

  /** A package that has not been issued is nowhere, so whatever has been sent precedes it. */
  lemma NewlySent(s: State, a: Pkg, b: Pkg)
    requires PkgOk(s, b) && !Issued(s, b) && (a in Line(s) || D(a) in s.pipe)
    ensures InOrder(s, a, b)
  {
    NoOccurrence(Pkgs(s.high), b);
    NoOccurrence(Pkgs(s.low), b);
    NoOccurrence(s.done, b);
    hide Occurs, Pkgs;
    forall j | 0 <= j < |s.pipe| ensures !Carries(s.pipe[j], b) { NotInPipe(s.pipe, Some(b), j); }
    forall t | 0 <= t < |s.tasks| ensures SenderOk(s, s.tasks[t], a, b) { NotInHands(s.tasks, Some(b), t); }
    assert b !in Line(s);
  }

  /** A step of a sender that leaves the line as it is. */
  lemma StepAside(s: State, t: nat, task: Task, a: Pkg, b: Pkg)
    requires InOrder(s, a, b) && t < |s.tasks| && (a !in s.dropped ==> SenderOk(s, task, a, b))
    ensures InOrder(Moved(s, t, s.tasks[t], task), a, b)
  {
    var s' := Moved(s, t, s.tasks[t], task);
    if a !in s'.dropped {
      assert Line(s') == Line(s) && Front(s') == Front(s);
      hide Line, Front;
      forall u | 0 <= u < |s'.tasks| ensures SenderOk(s', s'.tasks[u], a, b) {
        if u != t { assert SenderOk(s, s.tasks[u], a, b); }
      }
    }
  }

  lemma NoneInPipe(s: State, a: Pkg)
    requires SendingOk(s) && s.sending == 0
    ensures D(a) !in s.pipe
  {
    forall j | 0 <= j < |s.pipe| ensures s.pipe[j] != D(a) { NotInPipe(s.pipe, None, j); }
  }

  /** Each look of a sender that goes on rules out one place. */
  lemma NextProgress(s: State, task: Task, try: bool, b: Pkg)
    ensures var x, y := Progress(task, b), Progress(NextTask(s, task, try), b);
      || y == 0 || y == x
      || (y == 1 && s.sending == 0) || (y == 2 && x == 1 && s.high == []) || (y == 3 && x == 2 && s.dw.None?)
  {
  }

  /** The way to a direct write: each look rules out one place where an earlier package might still be. */
  lemma NextLook(s: State, task: Task, try: bool, a: Pkg, b: Pkg)
    requires Placed(s, a, b) && SendingOk(s) && SenderOk(s, task, a, b)
    ensures SenderOk(s, NextTask(s, task, try), a, b)
  {
    NextProgress(s, task, try, b);
    assert a in Line(s) || D(a) in s.pipe;
    if s.sending == 0 { NoneInPipe(s, a); }
    assert s.high == [] ==> Pkgs(s.high) == [];
    assert s.high == [] ==> Line(s) == Front(s);
    assert s.dw.None? ==> Front(s) == s.done;
    hide Placed, SendingOk, Line, Front, NextTask, Progress, Pkgs;
  }

  lemma LooksOrder(s: State, t: nat, try: bool, a: Pkg, b: Pkg)
    requires InOrder(s, a, b) && SendingOk(s) && t < |s.tasks|
    ensures InOrder(Moved(s, t, s.tasks[t], NextTask(s, s.tasks[t], try)), a, b)
  {
    if a !in s.dropped {
      assert SenderOk(s, s.tasks[t], a, b);
      NextLook(s, s.tasks[t], try, a, b);
    }
    hide InOrder, SenderOk, SendingOk, Moved, NextTask;
    StepAside(s, t, NextTask(s, s.tasks[t], try), a, b);
  }

  lemma PostOrder(s: State, t: nat, c: Cmd, a: Pkg, b: Pkg)
    requires InOrder(s, a, b) && t < |s.tasks|
    ensures InOrder(PostCmd(s, t, c), a, b)
  {
    var s' := PostCmd(s, t, c);
    if a !in s.dropped {
      assert Line(s') == Line(s) && Front(s') == Front(s);
      hide Line, Front;
      forall j | 0 <= j < |s'.pipe| && Carries(s'.pipe[j], b) ensures a in Line(s') || D(a) in s'.pipe[..j] {
        if j < |s.pipe| { assert s'.pipe[..j] == s.pipe[..j]; } else { assert s'.pipe[..j] == s.pipe; }
      }
      forall u | 0 <= u < |s'.tasks| ensures SenderOk(s', s'.tasks[u], a, b) {
        if u != t { assert SenderOk(s, s.tasks[u], a, b); }
      }
    }
  }

  lemma DirectLine(s: State, t: nat, p: Pkg, n: nat)
    requires t < |s.tasks| && n <= p.size && s.dw.None?
    ensures Line(s) == s.done + Pkgs(s.high)
    ensures Line(DirectWrite(s, t, p, n)) == s.done + [p] + Pkgs(s.high)
  {
    hide Pkgs, Bytes;
    assert s.done + [] == s.done;
  }

  /** The other senders, who do not have the lock, still find what they rely on. */
  lemma OthersStay(s: State, t: nat, p: Pkg, n: nat, u: nat, a: Pkg, b: Pkg)
    requires Sound(s) && t < |s.tasks| && s.tasks[t] == Direct(p) && n <= p.size && u < |s.tasks|
    requires SenderOk(s, s.tasks[u], a, b) && (a in Line(s) ==> a in Line(DirectWrite(s, t, p, n)))
    ensures SenderOk(DirectWrite(s, t, p, n), DirectWrite(s, t, p, n).tasks[u], a, b)
  {
    TaskView(s, t);
    TaskView(s, u);
    assert HasLock(s.tasks[u]) && u != t ==> s.lock == Some(u);
    hide Sound, Line, Front, Bytes;
  }

  /** A direct write goes in front of the high list, but behind all that precede it. */
  lemma DirectOrder(s: State, t: nat, p: Pkg, n: nat, a: Pkg, b: Pkg)
    requires InOrder(s, a, b) && Sound(s) && t < |s.tasks| && s.tasks[t] == Direct(p) && n <= p.size
    ensures InOrder(DirectWrite(s, t, p, n), a, b)
  {
    var s' := DirectWrite(s, t, p, n);
    TaskView(s, t);
    if a !in s.dropped {
      assert SenderOk(s, s.tasks[t], a, b);
      DirectLine(s, t, p, n);
      AheadInsert(s.done, p, Pkgs(s.high), a, b);
      assert a in Line(s) ==> a in Line(s') by { hide Line, Pkgs; }
      assert s'.pipe == s.pipe && s'.low == s.low && |s'.tasks| == |s.tasks|;
      hide Sound, Line, Pkgs, DirectWrite, SenderOk, Progress;
      assert Placed(s', a, b);
      forall u | 0 <= u < |s'.tasks| ensures SenderOk(s', s'.tasks[u], a, b) {
        assert SenderOk(s, s.tasks[u], a, b);
        OthersStay(s, t, p, n, u, a, b);
      }
    }
    hide DirectWrite, Placed, SenderOk;
    assert s'.dropped == s.dropped by { DirectDrops(s, t, p, n); }
  }

  lemma DirectDrops(s: State, t: nat, p: Pkg, n: nat)
    requires t < |s.tasks| && n <= p.size
    ensures DirectWrite(s, t, p, n).dropped == s.dropped
  {
  }

  ghost predicate OrderOk(s: State, a: Pkg, b: Pkg) {
    Precedes(s, a, b) ==> InOrder(s, a, b)
  }

  lemma StepOrder(s: State, t: nat, try: bool, n: nat, a: Pkg, b: Pkg)
    requires OrderOk(s, a, b) && Sound(s) && SendingOk(s) && t < |s.tasks| && forall p :: PkgOk(s, p)
    ensures OrderOk(TaskStep(s, t, try, n), a, b)
  {
    var task, s' := s.tasks[t], TaskStep(s, t, try, n);
    StepPkg(s, t, try, n, b);
    StepTraffic(s, t, try, n);
    if Precedes(s', a, b) {
      if Precedes(s, a, b) {
        hide Sound, InOrder, PkgOk, SendingOk;
        if task.Direct? {
          DirectOrder(s, t, task.pkg, Min(n, task.pkg.size), a, b);
        } else if task.Post? {
          PostOrder(s, t, task.cmd, a, b);
        } else {
          LooksOrder(s, t, try, a, b);
        }
      } else {
        JustSent(s, t, try, n, a, b);
        NewlySent(s', a, b);
      }
    }
  }

  lemma WhoSent(s: State, t: nat, try: bool, n: nat, a: Pkg, b: Pkg) returns (p: Pkg)
    requires t < |s.tasks| && !Precedes(s, a, b) && Precedes(TaskStep(s, t, try, n), a, b)
    ensures (s.tasks[t] == Direct(p) || s.tasks[t] == Post(D(p))) && p.id == a.id
    ensures Issued(s, a) && b.id >= |s.issued| && TaskStep(s, t, try, n).issued == s.issued
  {
    hide Bytes;
    var task := s.tasks[t];
    p := if task.Direct? then task.pkg else if task.Post? && task.cmd.D? then task.cmd.pkg else a;
  }

  lemma IsSent(s: State, t: nat, try: bool, n: nat, p: Pkg)
    requires t < |s.tasks| && (s.tasks[t] == Direct(p) || s.tasks[t] == Post(D(p)))
    ensures var s' := TaskStep(s, t, try, n); p in Line(s') || D(p) in s'.pipe
  {
    hide Pkgs, Bytes;
    var s' := TaskStep(s, t, try, n);
    if s.tasks[t].Direct? {
      assert s'.done == s.done + [p] || (s'.dw.Some? && s'.dw.value.pkg == p);
    } else {
      assert s'.pipe[|s.pipe|] == D(p);
    }
  }

  lemma HandIsIssued(s: State, t: nat, p: Pkg)
    requires t < |s.tasks| && InHand(s.tasks[t], Some(p)) > 0 && PkgOk(s, p)
    ensures Issued(s, p)
  {
    InHandsUpdate(s.tasks, Some(p), t, Done);
    hide InHands, InPipe, Stored;
  }

  /** The package that a step sends is the one in the hands of its sender, and what it precedes is not issued. */
  lemma JustSent(s: State, t: nat, try: bool, n: nat, a: Pkg, b: Pkg)
    requires t < |s.tasks| && forall p :: PkgOk(s, p)
    requires !Precedes(s, a, b) && Precedes(TaskStep(s, t, try, n), a, b)
    ensures var s' := TaskStep(s, t, try, n); !Issued(s', b) && (a in Line(s') || D(a) in s'.pipe)
  {
    var p := WhoSent(s, t, try, n, a, b);
    IsSent(s, t, try, n, p);
    assert PkgOk(s, p);
    hide TaskStep, PkgOk, Line;
    HandIsIssued(s, t, p);
  }

  // ---------------------------------------------------------------------------
  // Runs
  // ---------------------------------------------------------------------------

  /** What has been sent has been issued. */
  ghost predicate SentOk(s: State) {
    forall i :: i in s.sent ==> i < |s.issued|
  }

  lemma NewOrder(s: State, m: Move, a: Pkg, b: Pkg)
    requires OrderOk(s, a, b) && SentOk(s) && Enabled(s, m) && (m.NewSend? || m.NewCmd?)
    ensures OrderOk(Next(s, m), a, b)
  {
    var s' := Next(s, m);
    if Precedes(s', a, b) && a !in s.dropped {
      assert Precedes(s, a, b);
      assert Line(s') == Line(s) && Front(s') == Front(s);
      hide Line, Front;
      forall j | 0 <= j < |s'.pipe| && Carries(s'.pipe[j], b) ensures a in Line(s') || D(a) in s'.pipe[..j] {
        assert s'.pipe[..j] == s.pipe[..j];
      }
      assert Placed(s', a, b);
      forall t | 0 <= t < |s'.tasks| ensures SenderOk(s', s'.tasks[t], a, b) {
        if t < |s.tasks| { assert SenderOk(s, s.tasks[t], a, b); }
      }
    }
  }

  /** The socket thread does not touch the history of what was sent. */
  lemma ServerSentSame(s: State, m: Move)
    requires Enabled(s, m) && !m.NewSend? && !m.NewCmd? && !m.Step?
    ensures Next(s, m).sent == s.sent && Next(s, m).issued == s.issued
  {
    if m.Writable? {
      SendBufferTraffic(s, m.ws, m.note);
    } else if m.Ctrl? {
      CommandTraffic(s, m.note, m.enable);
    } else if !m.Closes? {
      PollStores(s, m, Pkg(0, 0));
    }
    hide SendBuffer, Pkgs, Command, Forward, ReportConnect;
  }

  lemma ServerOrder(s: State, m: Move, a: Pkg, b: Pkg)
    requires OrderOk(s, a, b) && Sound(s) && Enabled(s, m) && !m.NewSend? && !m.NewCmd? && !m.Step?
    ensures OrderOk(Next(s, m), a, b)
  {
    ServerSentSame(s, m);
    if Precedes(s, a, b) {
      if m.Writable? {
        SendBufferOrder(s, m.ws, m.note, a, b);
      } else if m.Ctrl? {
        CommandOrder(s, m.note, m.enable, a, b);
      } else if m.Closes? {
        assert Unlocked(s);
        CloseFdOrder(s, a, b);
      } else {
        EventOrder(s, m, a, b);
      }
    }
    hide InOrder, SendBuffer, Command, CloseFd;
  }

  /** Every step keeps the order of every two packages. */
  lemma NextOrder(s: State, m: Move, a: Pkg, b: Pkg)
    requires OrderOk(s, a, b) && Sound(s) && SendingOk(s) && SentOk(s) && Enabled(s, m) && forall p :: PkgOk(s, p)
    ensures OrderOk(Next(s, m), a, b)
  {
    hide OrderOk, Sound, SendingOk, PkgOk;
    if m.NewSend? || m.NewCmd? {
      NewOrder(s, m, a, b);
    } else if m.Step? {
      StepOrder(s, m.t, m.try, m.n, a, b);
    } else {
      ServerOrder(s, m, a, b);
    }
  }

  lemma NextSent(s: State, m: Move)
    requires SentOk(s) && Enabled(s, m) && forall p :: PkgOk(s, p)
    ensures SentOk(Next(s, m))
  {
    if m.Step? {
      var task := s.tasks[m.t];
      StepTraffic(s, m.t, m.try, m.n);
      if task.Direct? {
        assert PkgOk(s, task.pkg);
        HandIsIssued(s, m.t, task.pkg);
      } else if task.Post? && task.cmd.D? {
        assert PkgOk(s, task.cmd.pkg);
        HandIsIssued(s, m.t, task.cmd.pkg);
      }
      hide PkgOk, Bytes;
    } else if !m.NewSend? && !m.NewCmd? {
      ServerSentSame(s, m);
      hide Next, PkgOk;
    }
  }
}
