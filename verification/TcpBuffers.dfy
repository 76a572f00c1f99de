/** What every step of a TCP socket keeps: only one package is sent in part, `wb_size` is the number of
    unsent bytes, and the wire holds whole packages as long as no sender wins the race against a close. */
module TcpBuffers {
  import opened TcpWire
  import opened TcpSocket

  ghost predicate LockOk(s: State) {
    && (s.lock.Some? ==> s.lock.value < |s.tasks| && HasLock(s.tasks[s.lock.value]))
    && (forall t :: 0 <= t < |s.tasks| && HasLock(s.tasks[t]) ==> s.lock == Some(t))
  }

  /** What a sender with the lock has seen stays good enough: nobody sends from the lists meanwhile. */
  ghost predicate TaskOk(s: State, task: Task) {
    && (HasLock(task) && !task.Locked? ==> Untouched(s.high))
    && (task.Counter? || task.KindOf? || task.Direct? ==> s.dw.None?)
    && (task.Direct? ==> s.kind != Invalid)
  }

  ghost predicate TasksOk(s: State) {
    forall t :: 0 <= t < |s.tasks| ==> TaskOk(s, s.tasks[t])
  }

  /** Only the first package of the high list, or a package left by a direct write, is sent in part. */
  ghost predicate BufsOk(s: State) {
    && ListOk(s.high) && Untouched(s.low)
    && (s.dw.Some? ==> s.dw.value.off < s.dw.value.pkg.size && Untouched(s.high))
    && (s.server.Freed? ==> s.high == [] && s.low == [])
    && (s.kind == Invalid ==> s.server == Idle && s.high == [] && s.low == [] && s.dw.None?)
    && (s.stub.Some? ==> (s.server.Freed? || s.kind == Invalid) && 0 < s.stub.value.off < s.stub.value.pkg.size)
    && (s.torn ==> s.stub.Some?)
  }

  /** `wb_size` is the number of bytes that the lists still have to send. */
  ghost predicate SizeOk(s: State) {
    s.server == Idle && s.kind != Invalid ==> s.wbSize == Unsent(s.high) + Unsent(s.low)
  }

  /** What is on the wire of the package that is being sent. */
  function Begun(s: State): seq<Byte> {
    if s.stub.Some? then Bytes(s.stub.value.pkg, 0, s.stub.value.off)
    else if s.dw.Some? then Bytes(s.dw.value.pkg, 0, s.dw.value.off)
    else HeadBytes(s.high)
  }

  /** The wire holds the packages done, whole and in order, and what has begun. */
  ghost predicate WireOk(s: State) {
    && (s.torn ==> !Unbroken(s.wire))
    && (!s.torn ==> s.wire == Flat(s.done) + Begun(s))
    && (!s.torn && s.stub.Some? && s.dw.Some? ==> s.dw.value.off == 0)
  }

  ghost predicate Sound(s: State) {
    LockOk(s) && TasksOk(s) && BufsOk(s) && SizeOk(s) && WireOk(s)
  }

  lemma FreeListsSound(s: State, report: seq<Event>)
    requires Sound(s) && s.server == Idle && s.kind != Invalid
    ensures Sound(FreeLists(s, report))
  {
    hide Flat, Unsent, Unbroken, Bytes;
    assert TasksOk(FreeLists(s, report)) by {
      forall t | 0 <= t < |s.tasks| ensures TaskOk(FreeLists(s, report), s.tasks[t]) {
        assert TaskOk(s, s.tasks[t]);
      }
    }
    if s.high != [] && s.high[0].off == 0 { assert HeadBytes(s.high) == []; }
  }

  lemma CloseFdSound(s: State)
    requires Sound(s) && s.server.Freed? && s.lock.None?
    ensures Sound(CloseFd(s))
  {
    hide Flat, Unsent, Unbroken;
    if s.stub.None? && s.dw.Some? && s.dw.value.off == 0 { assert Begun(s) == []; }
  }

  /** A step that changes only the state of the connection. */
  lemma SameBufs(s: State, s': State)
    requires Sound(s) && s' == s.(kind := s'.kind, closing := s'.closing, events := s'.events, pipe := s'.pipe)
    requires s.kind == Invalid <==> s'.kind == Invalid
    ensures Sound(s')
  {
    assert forall t :: 0 <= t < |s.tasks| && TaskOk(s, s.tasks[t]) ==> TaskOk(s', s.tasks[t]);
  }

  lemma {:induction false} UnsentAppend(l: seq<Buf>, b: Buf)
    ensures Unsent(l + [b]) == Unsent(l) + Left(b)
  {
    if l != [] {
      UnsentAppend(l[1..], b);
      assert (l + [b])[1..] == l[1..] + [b];
    } else {
      assert (l + [b])[1..] == [];
    }
  }

  lemma SendSocketSound(s: State, p: Pkg, low: bool)
    requires Sound(s) && s.server == Idle
    ensures Sound(SendSocket(s, p, low))
  {
    var s' := SendSocket(s, p, low);
    assert TasksOk(s') by {
      hide Flat, Unsent, Unbroken;
      forall t | 0 <= t < |s.tasks| ensures TaskOk(s', s.tasks[t]) {
        assert TaskOk(s, s.tasks[t]);
      }
    }
    assert SizeOk(s') by {
      UnsentAppend(s.high, Buf(p, 0));
      UnsentAppend(s.low, Buf(p, 0));
      hide Flat, Unsent, Unbroken;
    }
    hide Flat, Unsent, Unbroken, TasksOk, TaskOk, SizeOk;
    assert s.high == [] ==> HeadBytes([Buf(p, 0)]) == [];
    hide Bytes;
  }

  lemma TakeDirectSound(s: State)
    requires Sound(s) && Polled(s) && s.lock.None?
    ensures Sound(TakeDirect(s))
  {
    if s.dw.Some? {
      assert ([s.dw.value] + s.high)[1..] == s.high;
      assert Unsent([s.dw.value] + s.high) == Left(s.dw.value) + Unsent(s.high);
      hide Flat, Unsent, Unbroken, Bytes;
    }
  }

  /** Appending what was written to what is on the wire. */
  lemma WireGrows(wire: seq<Byte>, done: seq<Pkg>, list: seq<Buf>, r: Sent)
    requires wire == Flat(done) + HeadBytes(list) && Conserves(list, r)
    ensures wire + r.bytes == Flat(done + r.done) + HeadBytes(r.list)
  {
    FlatAppend(done, r.done);
    hide Flat;
    assert wire + r.bytes == Flat(done) + (HeadBytes(list) + r.bytes);
  }

  lemma SendHighSound(s: State, ws: seq<Write>)
    requires Sound(s) && Polled(s) && s.lock.None? && s.dw.None?
    ensures Sound(SendHigh(s, SendList(s.high, ws)))
  {
    SendListKeepsPackages(s.high, ws);
    WireGrows(s.wire, s.done, s.high, SendList(s.high, ws));
    hide Flat, Unsent, Unbroken, Bytes, SendList, HeadBytes;
  }

  lemma CloseWriteSound(s: State)
    requires Sound(s) && Polled(s) && s.lock.None?
    ensures Sound(CloseWrite(s))
  {
    if s.closing || s.kind == HalfRead {
      FreeListsSound(s, []);
      CloseFdSound(FreeLists(s, []));
    } else {
      SameBufs(s, CloseWrite(s));
    }
  }

  /** Sending the low list, with the high list empty; what is left unfinished goes to the high list. */
  lemma SendRestSound(s: State, ws: seq<Write>, note: seq<Event>)
    requires Sound(s) && Polled(s) && s.lock.None? && s.dw.None? && s.high == []
    ensures Sound(SendRest(s, ws, note))
  {
    var r := SendList(s.low, ws);
    SendListKeepsPackages(s.low, ws);
    assert s.low != [] ==> s.low[0].off == 0;
    assert HeadBytes(s.low) == [];
    WireGrows(s.wire, s.done, s.low, r);
    var s' := SendLowList(s, r);
    hide SendList, Flat, Unbroken, Bytes;
    if r.list != [] && r.list[0].off > 0 {
      assert !r.failed;
      assert Sound(Raise(s')) by {
        assert Unsent([r.list[0]]) == Left(r.list[0]);
      }
    } else {
      assert r.list != [] ==> HeadBytes(r.list) == [];
      assert Sound(s');
      hide Sound;
      if r.failed {
        CloseWriteSound(s');
      } else if r.list == [] && s.closing {
        FreeListsSound(s', []);
        CloseFdSound(FreeLists(s', []));
      } else if r.list == [] {
        SameBufs(s', Report(s', note));
      }
    }
  }

  lemma SendBufferSound(s: State, ws: seq<Write>, note: seq<Event>)
    requires Sound(s) && Polled(s)
    ensures Sound(SendBuffer(s, ws, note))
  {
    if s.lock.None? {
      TakeDirectSound(s);
      var s1 := TakeDirect(s);
      var r := SendList(s1.high, ws);
      SendHighSound(s1, ws);
      var s2 := SendHigh(s1, r);
      hide Sound, SendList;
      if r.failed {
        CloseWriteSound(s2);
      } else if r.list == [] {
        SendRestSound(s2, r.rest, note);
      }
    }
  }

  lemma DirectWriteSound(s: State, t: nat, p: Pkg, n: nat)
    requires Sound(s) && t < |s.tasks| && s.tasks[t] == Direct(p) && n <= p.size
    ensures Sound(DirectWrite(s, t, p, n))
  {
    var s' := DirectWrite(s, t, p, n);
    assert TaskOk(s, s.tasks[t]);
    assert Begun(s) == [] || s.stub.Some?;
    if s.torn {
      BrokenStays(s.wire, Bytes(p, 0, n));
    } else if s.stub.Some? && n > 0 {
      TearBreaks(s.done, s.stub.value.pkg, s.stub.value.off, p, n);
    } else if n == p.size {
      FlatSnoc(s.done, p);
    }
    hide Flat, Unsent, Unbroken;
  }

  /** A sender that moves on without writing: it may take or give back the lock. */
  lemma MovesOn(s: State, s': State, t: nat, task: Task)
    requires Sound(s) && t < |s.tasks| && TaskOk(s, task)
    requires s' == s.(tasks := s.tasks[t := task], lock := s'.lock, sending := s'.sending, pipe := s'.pipe, dropped := s'.dropped, sent := s'.sent)
    requires if HasLock(task) then s'.lock == Some(t) && (s.lock.None? || s.lock == Some(t))
             else s'.lock == if s.lock == Some(t) then None else s.lock
    ensures Sound(s')
  {
    forall u | 0 <= u < |s.tasks| ensures TaskOk(s', s'.tasks[u]) {
      assert TaskOk(s, s.tasks[u]);
    }
    hide Flat, Unsent, Unbroken, Bytes;
  }

  lemma TaskView(s: State, t: nat)
    requires Sound(s) && t < |s.tasks|
    ensures HasLock(s.tasks[t]) <==> s.lock == Some(t)
    ensures TaskOk(s, s.tasks[t])
  {
  }

  lemma TaskStepSound(s: State, t: nat, try: bool, n: nat)
    requires Sound(s) && t < |s.tasks|
    ensures Sound(TaskStep(s, t, try, n))
  {
    hide Sound;
    TaskView(s, t);
    var task := s.tasks[t];
    if task.Direct? {
      DirectWriteSound(s, t, task.pkg, Min(n, task.pkg.size));
    } else {
      var s' := TaskStep(s, t, try, n);
      assert s.tasks[t := task] == s.tasks;
      MovesOn(s, s', t, s'.tasks[t]);
    }
  }
}
