/** Stream framing, lualib-src/lua-netpack.c: packages with a two-byte length come in chunks of any size,
    over any number of connections. */
module Netpack {
  import opened MessageQueue

  type Byte = b: nat | b < 0x100

  datatype Option<T> = None | Some(value: T)

  // ---------------------------------------------------------------------------
  // The format
  // ---------------------------------------------------------------------------

  /** What a stream comes to: its complete packages, and the bytes left over. */
  datatype Parsed = Parsed(packages: seq<seq<Byte>>, rest: seq<Byte>)

  function ReadSize(s: seq<Byte>): nat
    requires |s| >= 2
  {
    (s[0] as int) * 0x100 + s[1] as int
  }

  /** The length-prefixed parse of a stream. */
  function Parse(s: seq<Byte>): Parsed {
    if |s| < 2 || |s| < 2 + ReadSize(s) then Parsed([], s)
    else
      var n := 2 + ReadSize(s);
      var r := Parse(s[n..]);
      Parsed([s[2..n]] + r.packages, r.rest)
  }

  /** Parsing may stop anywhere and go on from the bytes left over. */
  lemma {:induction false} ParseAppend(s: seq<Byte>, t: seq<Byte>)
    ensures var a := Parse(s); var b := Parse(a.rest + t);
      Parse(s + t) == Parsed(a.packages + b.packages, b.rest)
  {
    if |s| < 2 || |s| < 2 + ReadSize(s) {
      assert [] + Parse(s + t).packages == Parse(s + t).packages;
    } else {
      var n := 2 + ReadSize(s);
      assert (s + t)[n..] == s[n..] + t && (s + t)[2..n] == s[2..n];
      ParseAppend(s[n..], t);
      var a, b := Parse(s[n..]), Parse(Parse(s[n..]).rest + t);
      assert [s[2..n]] + (a.packages + b.packages) == ([s[2..n]] + a.packages) + b.packages;
    }
  }

  /** `lpack`; a package that is too long is an error. */
  function Pack(msg: seq<Byte>): Option<seq<Byte>> {
    if |msg| >= 0x10000 then None else Some([|msg| / 0x100, |msg| % 0x100] + msg)
  }

  /** Two bytes for the length, the high one first, and the message; a longer one is refused. */
  lemma PackFormat(msg: seq<Byte>)
    ensures Pack(msg).None? <==> |msg| >= 65536
    ensures Pack(msg).Some? ==>
      var s := Pack(msg).value;
      |s| == |msg| + 2 && s[2..] == msg && |msg| == 256 * s[0] as int + s[1] as int
  {
  }

  /** A stream that begins with a whole package, as its first two bytes say, parses to it and the rest. */
  lemma ParseFormat(s: seq<Byte>)
    ensures var whole := |s| >= 2 && |s| - 2 >= 256 * s[0] as int + s[1] as int;
      && (Parse(s).packages != [] <==> whole)
      && (whole ==> Parse(s).packages[0] == s[2..][..256 * s[0] as int + s[1] as int])
  {
  }

  function PackAll(msgs: seq<seq<Byte>>): seq<Byte>
    requires forall i :: 0 <= i < |msgs| ==> |msgs[i]| < 0x10000
  {
    if msgs == [] then [] else Pack(msgs[0]).value + PackAll(msgs[1..])
  }

  lemma {:induction false} ParsePacked(msgs: seq<seq<Byte>>)
    requires forall i :: 0 <= i < |msgs| ==> |msgs[i]| < 0x10000
    ensures Parse(PackAll(msgs)) == Parsed(msgs, [])
  {
    if msgs != [] {
      var m, s := msgs[0], PackAll(msgs);
      ParsePacked(msgs[1..]);
      assert ReadSize(s) == |m|;
      assert s[2..2 + |m|] == m && s[2 + |m|..] == PackAll(msgs[1..]);
      assert msgs == [m] + msgs[1..];
    }
  }

  // ---------------------------------------------------------------------------
  // Unfinished packages
  // ---------------------------------------------------------------------------

  /** The first byte of a length, or a package of which some bytes have come. */
  datatype Uncomplete =
    | Header(id: nat, header: Byte)
    | Body(id: nat, size: nat, data: seq<Byte>)

  /** The bytes that an unfinished package stands for. */
  function Raw(u: Uncomplete): seq<Byte>
    requires u.Body? ==> u.size < 0x10000
  {
    match u
    case Header(_, h) => [h]
    case Body(_, size, data) => [size / 0x100, size % 0x100] + data
  }

  const HashSize := 4096

  /** `hash_fd`, for the connection numbers that there are. */
  function HashFd(fd: nat): (h: nat)
    ensures h < HashSize
  {
    (fd / 0x100_0000 + fd / 0x1000 + fd) % 0x1_0000_0000 % HashSize
  }

  ghost predicate UncompleteOk(u: Uncomplete, pending: map<nat, seq<Byte>>) {
    && (u.Body? ==> |u.data| < u.size < 0x10000)
    && u.id in pending && pending[u.id] == Raw(u)
  }

  ghost predicate Recorded(c: seq<Uncomplete>, fd: nat) {
    exists i :: 0 <= i < |c| && c[i].id == fd
  }

  /** The records are in the chains of their hashes, at most one for a connection. */
  ghost predicate ChainsOk(hash: seq<seq<Uncomplete>>, pending: map<nat, seq<Byte>>) {
    && |hash| == HashSize
    && (forall h, i :: 0 <= h < HashSize && 0 <= i < |hash[h]| ==>
          HashFd(hash[h][i].id) == h && UncompleteOk(hash[h][i], pending))
    && (forall h, i, j :: 0 <= h < HashSize && 0 <= i < j < |hash[h]| ==> hash[h][i].id != hash[h][j].id)
    && (forall fd :: fd in pending ==> Recorded(hash[HashFd(fd)], fd))
  }

  function Pending(pending: map<nat, seq<Byte>>, fd: nat): seq<Byte> {
    if fd in pending then pending[fd] else []
  }

  lemma TakeOut(hash: seq<seq<Uncomplete>>, pending: map<nat, seq<Byte>>, fd: nat, i: nat)
    requires ChainsOk(hash, pending) && i < |hash[HashFd(fd)]| && hash[HashFd(fd)][i].id == fd
    ensures var h := HashFd(fd); ChainsOk(hash[h := hash[h][..i] + hash[h][i + 1..]], pending - {fd})
  {
    hide HashFd, Raw;
    var h := HashFd(fd);
    var c, c' := hash[h], hash[h][..i] + hash[h][i + 1..];
    var hash': seq<seq<Uncomplete>>, pending' := hash[h := c'], pending - {fd};
    assert forall j :: 0 <= j < |c'| ==> c'[j] == c[if j < i then j else j + 1];
    forall f | f in pending' ensures Recorded(hash'[HashFd(f)], f) {
      assert f != fd ==> Recorded(hash[HashFd(f)], f);
      var j :| 0 <= j < |hash[HashFd(f)]| && hash[HashFd(f)][j].id == f;
      if HashFd(f) == h { assert c'[if j < i then j else j - 1].id == f; } else { assert hash'[HashFd(f)][j].id == f; }
    }
  }

  lemma PutIn(hash: seq<seq<Uncomplete>>, pending: map<nat, seq<Byte>>, u: Uncomplete)
    requires ChainsOk(hash, pending) && u.id !in pending && (u.Body? ==> |u.data| < u.size < 0x10000)
    ensures var h := HashFd(u.id); ChainsOk(hash[h := [u] + hash[h]], pending[u.id := Raw(u)])
  {
    hide HashFd, Raw;
    var h := HashFd(u.id);
    var hash': seq<seq<Uncomplete>>, pending' := hash[h := [u] + hash[h]], pending[u.id := Raw(u)];
    forall f | f in pending' ensures Recorded(hash'[HashFd(f)], f) {
      if f == u.id {
        assert hash'[h][0].id == f;
      } else {
        var j :| 0 <= j < |hash[HashFd(f)]| && hash[HashFd(f)][j].id == f;
        assert hash'[HashFd(f)][if HashFd(f) == h then j + 1 else j].id == f;
      }
    }
  }

  // ---------------------------------------------------------------------------
  // The filter
  // ---------------------------------------------------------------------------

  const QueueSize := 1024

  datatype NetPack = NetPack(id: nat, data: seq<Byte>)

  /** What a chunk comes to: nothing yet, one package, or packages in the queue. */
  datatype Filtered = Nothing | Data(fd: nat, data: seq<Byte>) | More

  function Tagged(fd: nat, packages: seq<seq<Byte>>): seq<NetPack> {
    seq(|packages|, i requires 0 <= i < |packages| => NetPack(fd, packages[i]))
  }

  lemma TaggedCons(fd: nat, p: seq<Byte>, packages: seq<seq<Byte>>)
    ensures [NetPack(fd, p)] + Tagged(fd, packages) == Tagged(fd, [p] + packages)
  {
  }

  /** What handling a chunk must come to when the bytes kept and the chunk parse as `p`: the result, what is
      added to the queue, and what is kept. */
  ghost predicate Hands(fd: nat, p: Parsed, r: Filtered, queued: seq<NetPack>, queued': seq<NetPack>,
                        pending: map<nat, seq<Byte>>, pending': map<nat, seq<Byte>>)
  {
    && r == (if p.packages == [] then Nothing
             else if |p.packages| == 1 && p.rest == [] then Data(fd, p.packages[0]) else More)
    && queued' == queued + (if r.More? then Tagged(fd, p.packages) else [])
    && pending' == if p.rest == [] then pending - {fd} else pending[fd := p.rest]
  }

  lemma ParseShort(s: seq<Byte>)
    requires |s| < 2 || |s| < 2 + ReadSize(s)
    ensures Parse(s) == Parsed([], s)
  {
  }

  lemma ParseFirst(s: seq<Byte>, data: seq<Byte>, more: seq<Byte>)
    requires |s| >= 2 && ReadSize(s) == |data| && s[2..] == data + more
    ensures Parse(s) == Parsed([data] + Parse(more).packages, Parse(more).rest)
    ensures more == [] ==> Parse(more) == Parsed([], [])
    ensures more != [] ==> Parse(more) != Parsed([], [])
  {
    assert s == s[..2] + (data + more);
    assert s[2..2 + |data|] == data && s[2 + |data|..] == more;
  }

  lemma NoneTagged(fd: nat)
    ensures Tagged(fd, []) == []
  {
  }

  /** A record of what has come of a package stands for those bytes. */
  lemma RawBody(fd: nat, s: seq<Byte>)
    requires |s| >= 2
    ensures ReadSize(s) < 0x10000 && Raw(Body(fd, ReadSize(s), s[2..])) == s
  {
    assert s == [s[0], s[1]] + s[2..];
  }

  /** What the bytes kept and a chunk are, as the filter sees them. */
  lemma Resumed(u: Uncomplete, chunk: seq<Byte>)
    requires chunk != [] && (u.Body? ==> |u.data| < u.size < 0x10000)
    ensures var all := Raw(u) + chunk;
      && |all| >= 2
      && ReadSize(all) == (if u.Header? then (u.header as int) * 0x100 + chunk[0] as int else u.size)
      && all[2..] == if u.Header? then [] + chunk[1..] else u.data + chunk
  {
  }

  class Filter {
    const hash: array<seq<Uncomplete>>
    var queue: array<NetPack>
    var head: nat
    var tail: nat
    ghost var pending: map<nat, seq<Byte>>

    ghost predicate ValidQueue()
      reads this, queue
    {
      head < queue.Length && tail < queue.Length
    }

    ghost predicate Valid()
      reads this, queue, hash
    {
      ValidQueue() && ChainsOk(hash[..], pending)
    }

    /** The packages in the queue, the oldest first. */
    ghost function Contents(): seq<NetPack>
      reads this, queue
      requires ValidQueue()
    {
      Between(queue[..], head, tail)
    }

    constructor ()
      ensures Valid() && Contents() == [] && pending == map[] && fresh(hash) && fresh(queue)
    {
      hash := new seq<Uncomplete>[HashSize](_ => []);
      queue := new NetPack[QueueSize](_ => NetPack(0, []));
      head, tail := 0, 0;
      pending := map[];
    }

    /** Finds the record of a connection in its chain, and takes it out. */
    method FindUncomplete(fd: nat) returns (r: Option<Uncomplete>)
      requires Valid()
      modifies this`pending, hash
      ensures Valid() && pending == old(pending) - {fd}
      ensures r.Some? == (fd in old(pending))
      ensures r.Some? ==> r.value.id == fd && UncompleteOk(r.value, old(pending))
    {
      var h := HashFd(fd);
      var c := hash[h];
      ghost var all := hash[..];
      for i := 0 to |c|
        invariant hash[..] == all && pending == old(pending)
        invariant forall j :: 0 <= j < i ==> c[j].id != fd
      {
        if c[i].id == fd {
          TakeOut(all, pending, fd, i);
          hash[h] := c[..i] + c[i + 1..];
          pending := pending - {fd};
          assert hash[..] == all[h := c[..i] + c[i + 1..]];
          return Some(c[i]);
        }
      }
      assert !Recorded(c, fd);
      return None;
    }

    method SaveUncomplete(u: Uncomplete)
      requires Valid() && u.id !in pending && (u.Body? ==> |u.data| < u.size < 0x10000)
      modifies this`pending, hash
      ensures Valid() && pending == old(pending)[u.id := Raw(u)]
    {
      PutIn(hash[..], pending, u);
      ghost var all := hash[..];
      var h := HashFd(u.id);
      hash[h] := [u] + hash[h];
      pending := pending[u.id := Raw(u)];
      assert hash[..] == all[h := [u] + all[h]];
    }

    /** Puts a package into the queue, which grows by `QueueSize` when the last slot is taken. */
    method PushData(fd: nat, data: seq<Byte>)
      requires ValidQueue()
      modifies this`queue, this`head, this`tail, queue
      ensures ValidQueue() && (queue == old(queue) || fresh(queue))
      ensures Contents() == old(Contents()) + [NetPack(fd, data)]
    {
      ghost var before := queue[..];
      queue[tail] := NetPack(fd, data);
      tail := tail + 1;
      if tail >= queue.Length { tail := tail - queue.Length; }
      assert queue[..] == before[old(tail) := NetPack(fd, data)];
      Enqueued(before, head, old(tail), tail, NetPack(fd, data));
      hide Between;
      if head == tail {
        assert queue[head..] == queue[..][head..] && queue[..head] == queue[..][..head];
        ExpandQueue();
      }
    }

    method ExpandQueue()
      requires ValidQueue() && head == tail
      modifies this`queue, this`head, this`tail
      ensures ValidQueue() && fresh(queue)
      ensures Contents() == old(queue[head..] + queue[..head])
    {
      var cap := queue.Length;
      ghost var all := queue[head..] + queue[..head];
      var bigger := new NetPack[cap + QueueSize](_ => NetPack(0, []));
      for i := 0 to cap
        modifies bigger
        invariant bigger[..i] == all[..i]
      {
        WrapOnce(head + i, cap);
        bigger[i] := queue[(head + i) % cap];
      }
      queue, head, tail := bigger, 0, cap;
    }

    /** `lpop`. */
    method PopData() returns (r: Option<NetPack>)
      requires ValidQueue()
      modifies this`head
      ensures ValidQueue() && r.None? == (old(Contents()) == [])
      ensures r.None? ==> Contents() == []
      ensures r.Some? ==> old(Contents()) == [r.value] + Contents()
    {
      if head == tail { return None; }
      r := Some(queue[head]);
      head := head + 1;
      if head >= queue.Length { head := 0; }
      Dequeued(queue[..], old(head), head, tail);
    }

    /** Splits the rest of a chunk into packages for the queue, and keeps what is left over. */
    method PushMore(fd: nat, buffer: seq<Byte>)
      requires Valid() && fd !in pending && buffer != []
      modifies this, queue, hash
      ensures Valid() && (queue == old(queue) || fresh(queue))
      ensures var r := Parse(buffer);
        && Contents() == old(Contents()) + Tagged(fd, r.packages)
        && pending == if r.rest == [] then old(pending) else old(pending)[fd := r.rest]
      decreases |buffer|
    {
      hide Parse, ReadSize, Between, ChainsOk, Tagged;
      if |buffer| == 1 {
        ParseShort(buffer);
        assert Raw(Header(fd, buffer[0])) == buffer;
        SaveUncomplete(Header(fd, buffer[0]));
        NoneTagged(fd);
        return;
      }
      var size := ReadSize(buffer);
      var data := buffer[2..];
      if |data| < size {
        ParseShort(buffer);
        RawBody(fd, buffer);
        SaveUncomplete(Body(fd, size, data));
        NoneTagged(fd);
        return;
      }
      var more := data[size..];
      ParseFirst(buffer, data[..size], more);
      TaggedCons(fd, data[..size], Parse(more).packages);
      NoneTagged(fd);
      PushData(fd, data[..size]);
      ghost var mid := Contents();
      if |more| > 0 {
        PushMore(fd, more);
        assert Contents() == mid + Tagged(fd, Parse(more).packages);
      }
    }

    /** `filter_data_`: the packages that the bytes kept for the connection and the new chunk make up. */
    method FilterData(fd: nat, chunk: seq<Byte>) returns (r: Filtered)
      requires Valid() && chunk != []
      modifies this, queue, hash
      ensures Valid() && (queue == old(queue) || fresh(queue))
      ensures Hands(fd, Parse(old(Pending(pending, fd)) + chunk), r, old(Contents()), Contents(), old(pending), pending)
    {
      hide Parse, Between, ChainsOk, Tagged;
      assert [] + chunk == chunk;
      var found := FindUncomplete(fd);
      if found.Some? {
        r := Continue(fd, found.value, chunk);
      } else {
        r := Begin(fd, chunk);
      }
    }

    /** A chunk that starts a new package. */
    method Begin(fd: nat, chunk: seq<Byte>) returns (r: Filtered)
      requires Valid() && chunk != [] && fd !in pending
      modifies this, queue, hash
      ensures Valid() && (queue == old(queue) || fresh(queue))
      ensures Hands(fd, Parse(chunk), r, old(Contents()), Contents(), old(pending), pending)
    {
      hide Parse, ReadSize, Between, ChainsOk, Tagged;
      if |chunk| == 1 {
        ParseShort(chunk);
        assert Raw(Header(fd, chunk[0])) == chunk;
        SaveUncomplete(Header(fd, chunk[0]));
        return Nothing;
      }
      var size := ReadSize(chunk);
      var data := chunk[2..];
      if |data| < size {
        ParseShort(chunk);
        RawBody(fd, chunk);
        SaveUncomplete(Body(fd, size, data));
        return Nothing;
      }
      ParseFirst(chunk, data[..size], data[size..]);
      r := Complete(fd, data[..size], data[size..]);
    }

    /** A package is complete; `more` is what comes after it. */
    method Complete(fd: nat, data: seq<Byte>, more: seq<Byte>) returns (r: Filtered)
      requires Valid() && fd !in pending
      modifies this, queue, hash
      ensures Valid() && (queue == old(queue) || fresh(queue))
      ensures var p := Parse(more);
        && r == (if more == [] then Data(fd, data) else More)
        && Contents() == old(Contents()) + (if r.More? then Tagged(fd, [data] + p.packages) else [])
        && pending == if p.rest == [] then old(pending) else old(pending)[fd := p.rest]
    {
      if more == [] { return Data(fd, data); }
      PushData(fd, data);
      TaggedCons(fd, data, Parse(more).packages);
      PushMore(fd, more);
      return More;
    }

    /** A chunk for a package that has begun. */
    method Continue(fd: nat, u: Uncomplete, chunk: seq<Byte>) returns (r: Filtered)
      requires Valid() && chunk != [] && fd !in pending && u.id == fd && (u.Body? ==> |u.data| < u.size < 0x10000)
      modifies this, queue, hash
      ensures Valid() && (queue == old(queue) || fresh(queue))
      ensures Hands(fd, Parse(Raw(u) + chunk), r, old(Contents()), Contents(), old(pending), pending)
    {
      Resumed(u, chunk);
      hide Parse, ReadSize, Raw;
      if u.Header? {
        r := Fill(fd, (u.header as int) * 0x100 + chunk[0] as int, [], chunk[1..], Raw(u) + chunk);
      } else {
        r := Fill(fd, u.size, u.data, chunk, Raw(u) + chunk);
      }
    }

    /** Fills up a package of which the length and some bytes are known. */
    method Fill(fd: nat, size: nat, have: seq<Byte>, buffer: seq<Byte>, ghost all: seq<Byte>) returns (r: Filtered)
      requires Valid() && fd !in pending && |all| >= 2 && ReadSize(all) == size && all[2..] == have + buffer
      requires |have| <= size
      modifies this, queue, hash
      ensures Valid() && (queue == old(queue) || fresh(queue))
      ensures Hands(fd, Parse(all), r, old(Contents()), Contents(), old(pending), pending)
    {
      hide Parse, ReadSize, Between, ChainsOk, Tagged, Raw;
      var need := size - |have|;
      if |buffer| < need {
        ParseShort(all);
        RawBody(fd, all);
        SaveUncomplete(Body(fd, size, have + buffer));
        return Nothing;
      }
      assert have + buffer == (have + buffer[..need]) + buffer[need..];
      ParseFirst(all, have + buffer[..need], buffer[need..]);
      r := Complete(fd, have + buffer[..need], buffer[need..]);
    }
  }

  // ---------------------------------------------------------------------------
  // Whole streams
  // ---------------------------------------------------------------------------

  datatype Chunk = Chunk(fd: nat, bytes: seq<Byte>)

  /** All that has come over a connection. */
  function Stream(chunks: seq<Chunk>, fd: nat): seq<Byte> {
    if chunks == [] then []
    else
      var c := chunks[|chunks| - 1];
      Stream(chunks[..|chunks| - 1], fd) + if c.fd == fd then c.bytes else []
  }

  /** The packages of a connection, in order. */
  function For(out: seq<NetPack>, fd: nat): seq<seq<Byte>> {
    if out == [] then []
    else
      var p := out[|out| - 1];
      For(out[..|out| - 1], fd) + if p.id == fd then [p.data] else []
  }

  lemma {:induction false} ForAppend(a: seq<NetPack>, b: seq<NetPack>, fd: nat)
    ensures For(a + b, fd) == For(a, fd) + For(b, fd)
  {
    if b == [] {
      assert a + b == a;
    } else {
      ForAppend(a, b[..|b| - 1], fd);
      assert (a + b)[..|a + b| - 1] == a + b[..|b| - 1];
    }
  }

  lemma {:induction false} ForTagged(id: nat, packages: seq<seq<Byte>>, fd: nat)
    ensures For(Tagged(id, packages), fd) == if id == fd then packages else []
  {
    if packages != [] {
      var n := |packages| - 1;
      ForTagged(id, packages[..n], fd);
      assert Tagged(id, packages)[..n] == Tagged(id, packages[..n]);
      assert packages == packages[..n] + [packages[n]];
    }
  }

  /** So far the output and the bytes kept are the parse of the stream of each connection. */
  ghost predicate Follows(chunks: seq<Chunk>, out: seq<NetPack>, pending: map<nat, seq<Byte>>, fd: nat) {
    Parse(Stream(chunks, fd)) == Parsed(For(out, fd), Pending(pending, fd))
  }

  lemma FollowsNext(chunks: seq<Chunk>, out: seq<NetPack>, pending: map<nat, seq<Byte>>,
                    out': seq<NetPack>, pending': map<nat, seq<Byte>>, c: Chunk, fd: nat)
    requires Follows(chunks, out, pending, fd)
    requires var p := Parse(Pending(pending, c.fd) + c.bytes);
      && out' == out + Tagged(c.fd, p.packages)
      && pending' == if p.rest == [] then pending - {c.fd} else pending[c.fd := p.rest]
    ensures Follows(chunks + [c], out', pending', fd)
  {
    var p := Parse(Pending(pending, c.fd) + c.bytes);
    assert (chunks + [c])[..|chunks|] == chunks;
    ForAppend(out, Tagged(c.fd, p.packages), fd);
    ForTagged(c.fd, p.packages, fd);
    ParseAppend(Stream(chunks, fd), c.bytes);
    assert Stream(chunks, fd) + [] == Stream(chunks, fd) && For(out, fd) + [] == For(out, fd);
    hide Parse, For, Tagged;
  }

  /** However the streams of any number of connections are cut into chunks and mixed, what comes out for
      each connection is the parse of its stream. The queue is emptied after each chunk, as the gate does. */
  method FilterAll(chunks: seq<Chunk>) returns (out: seq<NetPack>)
    requires forall i :: 0 <= i < |chunks| ==> chunks[i].bytes != []
    ensures forall fd :: For(out, fd) == Parse(Stream(chunks, fd)).packages
  {
    var f := new Filter();
    out := [];
    hide Parse, Tagged, Between, ChainsOk;
    assert forall fd :: Follows([], [], f.pending, fd) by { ParseNothing(); }
    hide Follows;
    for i := 0 to |chunks|
      invariant f.Valid() && fresh(f) && fresh(f.queue) && fresh(f.hash) && f.Contents() == []
      invariant forall fd :: Follows(chunks[..i], out, f.pending, fd)
    {
      var c := chunks[i];
      ghost var p, pending, before := Parse(Pending(f.pending, c.fd) + c.bytes), f.pending, out;
      var r := f.FilterData(c.fd, c.bytes);
      ghost var queued := f.Contents();
      if r.Data? {
        out := out + [NetPack(c.fd, r.data)];
        OneTagged(c.fd, p.packages);
      } else {
        var more := TakeAll(f);
        out := out + more;
        NoneTagged(c.fd);
      }
      assert out == before + Tagged(c.fd, p.packages);
      ghost var seen := chunks[..i] + [c];
      assert chunks[..i + 1] == seen;
      forall fd ensures Follows(seen, out, f.pending, fd) {
        FollowsNext(chunks[..i], before, pending, out, f.pending, c, fd);
      }
    }
    assert chunks[..|chunks|] == chunks;
    forall fd ensures For(out, fd) == Parse(Stream(chunks, fd)).packages { Followed(chunks, out, f.pending, fd); }
  }

  lemma Followed(chunks: seq<Chunk>, out: seq<NetPack>, pending: map<nat, seq<Byte>>, fd: nat)
    requires Follows(chunks, out, pending, fd)
    ensures For(out, fd) == Parse(Stream(chunks, fd)).packages
  {
  }

  lemma ParseNothing()
    ensures Parse([]) == Parsed([], [])
  {
  }

  lemma OneTagged(fd: nat, packages: seq<seq<Byte>>)
    requires |packages| == 1
    ensures Tagged(fd, packages) == [NetPack(fd, packages[0])]
  {
  }

  method TakeAll(f: Filter) returns (all: seq<NetPack>)
    requires f.Valid()
    modifies f`head
    ensures f.Valid() && f.Contents() == [] && all == old(f.Contents())
  {
    hide ChainsOk, Between;
    all := [];
    var next := f.PopData();
    while next.Some?
      invariant f.Valid()
      invariant next.None? ==> f.Contents() == [] && all == old(f.Contents())
      invariant next.Some? ==> all + [next.value] + f.Contents() == old(f.Contents())
      decreases |f.Contents()|, next.Some?
    {
      all := all + [next.value];
      ghost var rest := f.Contents();
      next := f.PopData();
      assert next.Some? ==> rest == [next.value] + f.Contents();
    }
  }

  /** Packing, cutting anywhere, mixing with anything else and filtering gives the messages back. */
  method PackedComesBack(chunks: seq<Chunk>, fd: nat, ghost msgs: seq<seq<Byte>>) returns (out: seq<NetPack>)
    requires forall i :: 0 <= i < |chunks| ==> chunks[i].bytes != []
    requires (forall i :: 0 <= i < |msgs| ==> |msgs[i]| < 0x10000) && Stream(chunks, fd) == PackAll(msgs)
    ensures For(out, fd) == msgs
  {
    out := FilterAll(chunks);
    ParsePacked(msgs);
  }
}
