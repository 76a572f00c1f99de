/** What every step of a TCP socket keeps about the events it reports. */
module TcpEvents {
  import opened TcpWire
  import opened TcpSocket

  /** SOCKET_CLOSE comes at most once, and no data after it. */
  ghost predicate ClosedOnce(es: seq<Event>) {
    forall i, j :: 0 <= i < j < |es| && es[i] == SocketClose ==> es[j] != SocketClose && es[j] != SocketData
  }

  ghost predicate EventsOk(s: State) {
    && ClosedOnce(s.events)
    && (SocketClose in s.events ==> s.kind == HalfRead || s.kind == Invalid)
    && (s.closing ==> s.kind == HalfRead || s.kind == Invalid)
    && (s.server.Freed? ==>
          || s.server.report == [] || s.server.report == [SocketErr]
          || (s.server.report == [SocketClose] && s.kind != HalfRead && s.kind != Invalid))
  }

  lemma NoteKeeps(es: seq<Event>, note: seq<Event>)
    requires ClosedOnce(es) && (Note(note) || note == [SocketOpen] || note == [SocketAccept])
    ensures ClosedOnce(es + note)
    ensures SocketClose in es + note <==> SocketClose in es
  {
  }

  lemma CloseKeeps(es: seq<Event>, e: Event)
    requires ClosedOnce(es) && SocketClose !in es
    ensures ClosedOnce(es + [e])
  {
  }

  lemma CloseFdEvents(s: State)
    requires EventsOk(s)
    ensures EventsOk(CloseFd(s))
  {
    if s.server.Freed? {
      if s.server.report == [SocketClose] { CloseKeeps(s.events, SocketClose); } else { NoteKeeps(s.events, s.server.report); }
    }
    assert s.events + [] == s.events;
    hide ClosedOnce;
  }

  lemma CloseWriteEvents(s: State)
    requires EventsOk(s) && Polled(s)
    ensures EventsOk(CloseWrite(s))
  {
    NoteKeeps(s.events, [SocketErr]);
    CloseFdEvents(FreeLists(s, []));
    hide ClosedOnce, CloseFd;
  }

  lemma SendRestEvents(s: State, ws: seq<Write>, note: seq<Event>)
    requires EventsOk(s) && Polled(s) && Note(note)
    ensures EventsOk(SendRest(s, ws, note))
  {
    var s' := SendLowList(s, SendList(s.low, ws));
    CloseWriteEvents(s');
    CloseFdEvents(FreeLists(s', []));
    NoteKeeps(s.events, note);
    hide SendList, ClosedOnce, CloseWrite, CloseFd;
  }

  lemma SendBufferEvents(s: State, ws: seq<Write>, note: seq<Event>)
    requires EventsOk(s) && Polled(s) && Note(note)
    ensures EventsOk(SendBuffer(s, ws, note))
  {
    var s1 := TakeDirect(s);
    var r := SendList(s1.high, ws);
    var s2 := SendHigh(s1, r);
    CloseWriteEvents(s2);
    SendRestEvents(s2, r.rest, note);
    hide SendList, ClosedOnce, CloseWrite, SendRest;
  }

  lemma CommandEvents(s: State, note: seq<Event>, enable: bool)
    requires EventsOk(s) && s.server == Idle && s.pipe != [] && Note(note)
    ensures EventsOk(Command(s, note, enable))
  {
    NoteKeeps(s.events, note);
    var s' := s.(pipe := s.pipe[1..]);
    match s.pipe[0]
    case K(shutdown) =>
      if SocketClose !in s.events { CloseKeeps(s.events, SocketClose); }
      hide ClosedOnce;
    case R =>
      NoteKeeps(s.events, [SocketErr]);
      NoteKeeps(s.events, [SocketOpen]);
      hide ClosedOnce;
    case _ => hide ClosedOnce;
  }

  lemma PollEvents(s: State, m: Move)
    requires EventsOk(s) && Enabled(s, m)
    requires m.Readable? || m.Failure? || m.Eof? || m.ConnectDone? || m.Accepting?
    ensures EventsOk(Next(s, m))
  {
    NoteKeeps(s.events, [SocketErr]);
    NoteKeeps(s.events, [SocketOpen]);
    if m.Accepting? { NoteKeeps(s.events, m.report); }
    if SocketClose !in s.events { CloseKeeps(s.events, SocketClose); CloseKeeps(s.events, SocketData); }
    hide ClosedOnce;
  }

  /** Every step keeps the order of what is reported. */
  lemma EventsStep(s: State, m: Move)
    requires EventsOk(s) && Enabled(s, m)
    ensures EventsOk(Next(s, m))
  {
    match m
    case Writable(ws, note) => SendBufferEvents(s, ws, note);
    case Ctrl(note, enable) => CommandEvents(s, note, enable);
    case Closes => CloseFdEvents(s);
    case NewSend(_, _) =>
    case NewCmd(_) =>
    case Step(t, try, n) => hide ClosedOnce;
    case _ => PollEvents(s, m);
  }
}
