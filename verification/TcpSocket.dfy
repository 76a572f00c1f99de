/** The life of one TCP socket id, skynet-src/socket_server.c, from the moment its descriptor has been
    added: the socket thread handles commands and events, any number of other threads send. System calls
    may answer anything. One step is one lock section, one atomic operation or, in the socket thread,
    what lies between two of them. */
module TcpSocket {
  import opened TcpWire

  datatype Kind =
    | PListen | Listen | Connecting | Connected | HalfRead | HalfWrite | PAccept | Bind | Invalid

  /** Commands in the control pipe: send with high or low priority, enable writing, close, resume, pause. */
  datatype Cmd = D(pkg: Pkg) | P(pkg: Pkg) | W | K(shutdown: bool) | R | S

  datatype Event = SocketOpen | SocketClose | SocketData | SocketErr | SocketWarning | SocketAccept

  /** Where a sending thread is. */
  datatype Task =
    | Send(pkg: Pkg)       // about to look at the socket
    | SendLow(pkg: Pkg)
    | Look(pkg: Pkg)       // about to see, without the lock, whether it may write directly
    | Grab(pkg: Pkg)       // about to try the lock
    | Locked(pkg: Pkg)     // has the lock, about to see whether the high list is empty
    | LowList(pkg: Pkg)    // about to see whether the low list is empty
    | DwBuffer(pkg: Pkg)   // about to see whether a direct write has left something
    | Counter(pkg: Pkg)    // about to read `sending`
    | KindOf(pkg: Pkg)     // about to read the state of the socket
    | Direct(pkg: Pkg)     // about to write
    | Inc(cmd: Cmd)        // about to increment `sending`
    | Post(cmd: Cmd)       // about to put the command into the pipe
    | Done

  /** The socket thread is free, or has freed the lists in `force_close` and still has to close the
      descriptor under the lock and then to report something. */
  datatype Server = Idle | Freed(report: seq<Event>)

  /** `done`, `dropped` and `issued` are the packages written, given up and ever sent; `wire` and
      `events` all that was written and reported. `stub` is a package that was given up unfinished, and
      `torn` says that something was written after one. `sent` says, for each package of high priority that
      has left the hands of its sender, how many had been issued by then. */
  datatype State = State(
    kind: Kind, closing: bool, high: seq<Buf>, low: seq<Buf>, wbSize: int, dw: Option<Buf>, sending: nat,
    lock: Option<nat>, pipe: seq<Cmd>, tasks: seq<Task>, server: Server,
    events: seq<Event>, wire: seq<Byte>, done: seq<Pkg>, dropped: seq<Pkg>, issued: seq<Pkg>,
    stub: Option<Buf>, torn: bool, sent: map<nat, nat>)

  predicate Init(s: State) {
    && s.kind != HalfRead && s.kind != HalfWrite && s.kind != Invalid
    && !s.closing && s.high == [] && s.low == [] && s.wbSize == 0 && s.dw.None? && s.sending == 0
    && s.lock.None? && s.pipe == [] && s.tasks == [] && s.server == Idle
    && s.events == [] && s.wire == [] && s.done == [] && s.dropped == [] && s.issued == [] && s.stub.None? && !s.torn
    && s.sent == map[]
  }

  // ---------------------------------------------------------------------------
  // Closing
  // ---------------------------------------------------------------------------

  /** The first half of `force_close`, outside the lock. */
  function FreeLists(s: State, report: seq<Event>): State {
    s.(high := [], low := [], dropped := s.dropped + Pkgs(s.high) + Pkgs(s.low), server := Freed(report),
       stub := if s.dw.None? && s.high != [] && s.high[0].off > 0 then Some(s.high[0]) else s.stub)
  }

  /** The second half, under the lock. */
  function CloseFd(s: State): State {
    s.(kind := Invalid, server := Idle, dw := None,
       dropped := s.dropped + (if s.dw.Some? then [s.dw.value.pkg] else []),
       stub := if s.dw.Some? && s.dw.value.off > 0 then s.dw else s.stub,
       events := s.events + if s.server.Freed? then s.server.report else [])
  }

  function Report(s: State, e: seq<Event>): State { s.(events := s.events + e) }

  /** `close_write`, called with the lock held. */
  function CloseWrite(s: State): State {
    if s.closing || s.kind == HalfRead then CloseFd(FreeLists(s, []))
    else if s.kind == HalfWrite then s
    else Report(s.(kind := HalfWrite), [SocketErr])
  }

  function NoMoreSending(s: State): bool {
    (s.high == [] && s.low == [] && s.dw.None? && s.sending == 0) || s.kind == HalfWrite
  }

  function CloseRead(s: State): State {
    Report(s.(kind := HalfRead), [SocketClose])
  }

  function CloseSocket(s: State, shutdown: bool): State {
    if s.kind == Invalid then s
    else if shutdown || NoMoreSending(s) then
      FreeLists(s, if s.kind == HalfRead then [] else [SocketClose])
    else if s.kind != HalfRead then CloseRead(s.(closing := true))
    else s.(closing := true)
  }

  // ---------------------------------------------------------------------------
  // Sending
  // ---------------------------------------------------------------------------

  /** `send_socket`, then `dec_sending_ref`. */
  function SendSocket(s: State, p: Pkg, low: bool): State {
    var s' := s.(sending := if s.sending > 0 then s.sending - 1 else 0);
    if s.kind == Invalid || s.kind == HalfWrite || s.kind == PAccept || s.closing
       || s.kind == PListen || s.kind == Listen then s'.(dropped := s.dropped + [p])
    else if low && !(s.high == [] && s.low == []) then
      s'.(low := s.low + [Buf(p, 0)], wbSize := s.wbSize + p.size)
    else
      s'.(high := s.high + [Buf(p, 0)], wbSize := s.wbSize + p.size)
  }

  /** Puts what a direct write has left in front of the high list. */
  function TakeDirect(s: State): State {
    if s.dw.None? then s
    else s.(high := [s.dw.value] + s.high, wbSize := s.wbSize + Left(s.dw.value), dw := None)
  }

  function SendHigh(s: State, r: Sent): State {
    s.(high := r.list, wbSize := s.wbSize - |r.bytes|, wire := s.wire + r.bytes, done := s.done + r.done)
  }

  function SendLowList(s: State, r: Sent): State {
    s.(low := r.list, wbSize := s.wbSize - |r.bytes|, wire := s.wire + r.bytes, done := s.done + r.done)
  }

  /** `raise_uncomplete`. */
  function Raise(s: State): State
    requires s.low != []
  {
    s.(high := [s.low[0]], low := s.low[1..])
  }

  /** `send_buffer_` after the high list has been sent out. */
  function SendRest(s: State, ws: seq<Write>, note: seq<Event>): State {
    var r := SendList(s.low, ws);
    var s' := SendLowList(s, r);
    if r.failed then CloseWrite(s')
    else if r.list != [] && r.list[0].off > 0 then Raise(s')
    else if r.list != [] then s'
    else if s.closing then CloseFd(FreeLists(s', []))
    else Report(s', note)
  }

  /** `send_buffer`, one lock section; it does nothing while a sender has the lock. */
  function SendBuffer(s: State, ws: seq<Write>, note: seq<Event>): State {
    if s.lock.Some? then s
    else
      var s1 := TakeDirect(s);
      var r := SendList(s1.high, ws);
      var s2 := SendHigh(s1, r);
      if r.failed then CloseWrite(s2)
      else if r.list != [] then s2
      else SendRest(s2, r.rest, note)
  }

  // ---------------------------------------------------------------------------
  // Reading, connecting, resuming
  // ---------------------------------------------------------------------------

  datatype Read = ReadErr | ReadAgain | ReadEof | ReadSome

  /** `forward_message_tcp`. */
  function Forward(s: State, r: Read): State {
    match r
    case ReadErr => Report(s, [SocketErr])
    case ReadAgain => s
    case ReadEof =>
      if s.closing then (if NoMoreSending(s) then FreeLists(s, []) else s)
      else if s.kind == HalfRead then s
      else if s.kind == HalfWrite then FreeLists(s, [SocketClose])
      else CloseRead(s)
    case ReadSome => if s.kind == HalfRead then s else Report(s, [SocketData])
  }

  /** `report_connect`; `disable` is whether the write event could be turned off. */
  function ReportConnect(s: State, ok: bool, disable: bool): State {
    if !ok then FreeLists(s, [SocketErr])
    else
      var s' := s.(kind := Connected);
      if NoMoreSending(s') && !disable then FreeLists(s', [SocketErr]) else Report(s', [SocketOpen])
  }

  /** `resume_socket`; `enable` is whether the read event could be turned on. */
  function Resume(s: State, enable: bool): State {
    if s.kind == Invalid || s.kind == HalfRead || !enable then Report(s, [SocketErr])
    else if s.kind == PAccept then Report(s.(kind := Connected), [SocketOpen])
    else if s.kind == PListen then Report(s.(kind := Listen), [SocketOpen])
    else if s.kind == Connected then Report(s, [SocketOpen])
    else s
  }

  /** `ctrl_cmd`; `note` is an error or a warning on the way. */
  function Command(s: State, note: seq<Event>, enable: bool): State
    requires s.pipe != []
  {
    var s' := s.(pipe := s.pipe[1..]);
    match s.pipe[0]
    case D(p) => Report(SendSocket(s', p, false), note)
    case P(p) => Report(SendSocket(s', p, true), note)
    case W => if s.kind == Invalid then s' else Report(s', note)
    case K(shutdown) => CloseSocket(s', shutdown)
    case R => Resume(s', enable)
    case S => if s.kind == Invalid then s' else Report(s', note)
  }

  // ---------------------------------------------------------------------------
  // Steps
  // ---------------------------------------------------------------------------

  /** What happens next. System calls, races for the lock and failures of the event registration are in
      the arguments. */
  datatype Move =
    | NewSend(size: nat, low: bool)              // a thread calls send
    | NewCmd(cmd: Cmd)                           // a thread calls close, shutdown, start or pause
    | Step(t: nat, try: bool, n: nat)            // a sender goes on; `n` bytes may be written
    | Ctrl(note: seq<Event>, enable: bool)       // the socket thread takes a command
    | Readable(r: Read)
    | Writable(ws: seq<Write>, note: seq<Event>)
    | Failure
    | Eof
    | ConnectDone(ok: bool, disable: bool)
    | Accepting(report: seq<Event>)
    | Closes                                     // the socket thread closes the descriptor

  predicate HasLock(task: Task) {
    task.Locked? || task.LowList? || task.DwBuffer? || task.Counter? || task.KindOf? || task.Direct?
  }

  /** Where a sender that does not write or post goes next, in `socket_server_send` and
      `socket_server_send_lowpriority`. The first look is without the lock, so all that counts of it is that
      `sending` was zero at some time; the second look is with the lock, one field after the other. */
  function NextTask(s: State, task: Task, try: bool): Task {
    match task
    case Send(p) => if s.kind == Invalid || s.closing then Done else Look(p)
    case SendLow(p) => if s.kind == Invalid then Done else Inc(P(p))
    case Look(p) => if try && s.sending == 0 then Grab(p) else Inc(D(p))
    case Grab(p) => if s.lock.None? then Locked(p) else Inc(D(p))
    case Locked(p) => if s.high == [] then LowList(p) else Inc(D(p))
    case LowList(p) => if s.low == [] then DwBuffer(p) else Inc(D(p))
    case DwBuffer(p) => if s.dw.None? then Counter(p) else Inc(D(p))
    case Counter(p) => if s.sending == 0 then KindOf(p) else Inc(D(p))
    case KindOf(p) => if s.kind == Connected then Direct(p) else Inc(D(p))
    case Inc(c) => if s.sending == 0xffff then task else Post(c)
    case _ => task
  }

  /** A package for a socket that is closed is given up; the lock is taken and given back on the way; and
      `sending` counts what is about to be posted. */
  function Moved(s: State, t: nat, task: Task, task': Task): State
    requires t < |s.tasks|
  {
    s.(tasks := s.tasks[t := task'],
       dropped := if (task.Send? || task.SendLow?) && task'.Done? then s.dropped + [task.pkg] else s.dropped,
       lock := if HasLock(task') then Some(t) else if HasLock(task) then None else s.lock,
       sending := if task.Inc? && task'.Post? then s.sending + 1 else s.sending)
  }

  function PostCmd(s: State, t: nat, c: Cmd): State
    requires t < |s.tasks|
  {
    s.(tasks := s.tasks[t := Done], pipe := s.pipe + [c],
       sent := if c.D? then s.sent[c.pkg.id := |s.issued|] else s.sent)
  }

  /** One step of a sender. */
  function TaskStep(s: State, t: nat, try: bool, n: nat): State
    requires t < |s.tasks|
  {
    match s.tasks[t]
    case Direct(p) => DirectWrite(s, t, p, Min(n, p.size))
    case Post(c) => PostCmd(s, t, c)
    case task => Moved(s, t, task, NextTask(s, task, try))
  }

  /** The write of a sender that holds the lock; what is not written is left for the socket thread. */
  function DirectWrite(s: State, t: nat, p: Pkg, n: nat): State
    requires t < |s.tasks| && n <= p.size
  {
    var s' := s.(lock := None, wire := s.wire + Bytes(p, 0, n), torn := s.torn || (s.stub.Some? && n > 0),
                 sent := s.sent[p.id := |s.issued|]);
    if n == p.size then s'.(tasks := s.tasks[t := Done], done := s.done + [p])
    else s'.(tasks := s.tasks[t := Inc(W)], dw := Some(Buf(p, n)))
  }

  predicate Note(e: seq<Event>) { e == [] || e == [SocketErr] || e == [SocketWarning] }

  /** What may happen in a state. Events come only for a socket that has not been closed, and of the kinds
      that its state is waiting for. */
  predicate Enabled(s: State, m: Move) {
    match m
    case NewSend(_, _) => true
    case NewCmd(c) => c.K? || c.R? || c.S?
    case Step(t, _, _) => t < |s.tasks|
    case Ctrl(note, _) => s.server == Idle && s.pipe != [] && Note(note)
    case Readable(_) => Polled(s)
    case Writable(_, note) => Polled(s) && Note(note)
    case Failure => Polled(s)
    case Eof => Polled(s)
    case ConnectDone(_, _) => s.server == Idle && s.kind == Connecting
    case Accepting(e) =>
      s.server == Idle && s.kind == Listen && (e == [] || e == [SocketAccept] || e == [SocketErr])
    case Closes => s.server.Freed? && s.lock.None?
  }

  predicate Polled(s: State) {
    s.server == Idle && s.kind != Connecting && s.kind != Listen && s.kind != Invalid
  }

  function Next(s: State, m: Move): State
    requires Enabled(s, m)
  {
    match m
    case NewSend(size, low) =>
      var p := Pkg(|s.issued|, size);
      s.(issued := s.issued + [p], tasks := s.tasks + [if low then SendLow(p) else Send(p)])
    case NewCmd(c) => s.(pipe := s.pipe + [c])
    case Step(t, try, n) => TaskStep(s, t, try, n)
    case Ctrl(note, enable) => Command(s, note, enable)
    case Readable(r) => Forward(s, r)
    case Writable(ws, note) => SendBuffer(s, ws, note)
    case Failure => Report(s, [SocketErr])
    case Eof => FreeLists(s, if s.kind == HalfRead then [] else [SocketClose])
    case ConnectDone(ok, disable) => ReportConnect(s, ok, disable)
    case Accepting(e) => Report(s, e)
    case Closes => CloseFd(s)
  }
}
