/** What a TCP socket writes, skynet-src/socket_server.c: packages, buffers that are sent in part, and
    the loop that sends a list of them. Every byte on the wire is known by its package and its place. */
module TcpWire {

  datatype Option<T> = None | Some(value: T)

  datatype Pkg = Pkg(id: nat, size: nat)
  datatype Byte = Byte(pkg: Pkg, at: nat)

  /** A package of which `off` bytes are on the wire. */
  datatype Buf = Buf(pkg: Pkg, off: nat)

  function Bytes(p: Pkg, from: nat, to: nat): (r: seq<Byte>)
    requires from <= to
    ensures |r| == to - from && forall i :: 0 <= i < |r| ==> r[i] == Byte(p, from + i)
  {
    seq(to - from, i requires 0 <= i => Byte(p, from + i))
  }

  /** Whole packages back to back. */
  function Flat(ps: seq<Pkg>): seq<Byte> {
    if ps == [] then [] else Flat(ps[..|ps| - 1]) + Bytes(ps[|ps| - 1], 0, ps[|ps| - 1].size)
  }

  /** The packages of a list of buffers. */
  function Pkgs(l: seq<Buf>): (r: seq<Pkg>)
    ensures |r| == |l|
  {
    seq(|l|, i requires 0 <= i < |l| => l[i].pkg)
  }

  // ---------------------------------------------------------------------------
  // Packages that are not torn apart
  // ---------------------------------------------------------------------------

  /** The byte `b` may come right after the byte `a`: it is the next one of the same package, or the
      first one of any package after the last one of `a`'s. */
  predicate Follows(a: Byte, b: Byte) {
    if b.at == 0 then a.at + 1 == a.pkg.size else b.pkg == a.pkg && b.at == a.at + 1
  }

  /** Byte by byte, no package is interrupted. */
  ghost predicate Unbroken(w: seq<Byte>) {
    && (forall i :: 0 <= i < |w| ==> w[i].at < w[i].pkg.size)
    && (w != [] ==> w[0].at == 0)
    && (forall i :: 0 < i < |w| ==> Follows(w[i - 1], w[i]))
  }

  /** The last package on the wire is complete. */
  predicate Complete(w: seq<Byte>) {
    w == [] || w[|w| - 1].at + 1 == w[|w| - 1].pkg.size
  }

  lemma AppendPackage(w: seq<Byte>, p: Pkg, k: nat)
    requires Unbroken(w) && Complete(w) && k <= p.size
    ensures Unbroken(w + Bytes(p, 0, k))
    ensures k == p.size ==> Complete(w + Bytes(p, 0, k))
  {
    var v := w + Bytes(p, 0, k);
    forall i | 0 < i < |v| ensures Follows(v[i - 1], v[i]) {
      if i < |w| {
        assert v[i - 1] == w[i - 1] && v[i] == w[i];
      } else if i > |w| {
        assert v[i - 1] == Byte(p, i - 1 - |w|) && v[i] == Byte(p, i - |w|);
      }
    }
  }

  lemma {:induction false} FlatUnbroken(ps: seq<Pkg>)
    ensures Unbroken(Flat(ps)) && Complete(Flat(ps))
  {
    if ps != [] {
      var n := |ps| - 1;
      FlatUnbroken(ps[..n]);
      AppendPackage(Flat(ps[..n]), ps[n], ps[n].size);
    }
  }

  lemma FlatSnoc(ps: seq<Pkg>, p: Pkg)
    ensures Flat(ps + [p]) == Flat(ps) + Bytes(p, 0, p.size)
  {
    assert (ps + [p])[..|ps|] == ps;
  }

  /** Unbroken, byte by byte, is the same as: whole packages back to back, and at most one unfinished
      package at the end. */
  lemma {:induction false} UnbrokenIsFlat(w: seq<Byte>) returns (ps: seq<Pkg>, p: Pkg, k: nat)
    requires Unbroken(w)
    ensures k < p.size && w == Flat(ps) + Bytes(p, 0, k)
  {
    if w == [] {
      ps, p, k := [], Pkg(0, 1), 0;
    } else {
      var n := |w| - 1;
      var front := w[..n];
      ps, p, k := UnbrokenIsFlat(front);
      var b := w[n];
      assert w == front + [b];
      FlatUnbroken(ps);
      hide Flat;
      if k > 0 { assert front[n - 1] == Bytes(p, 0, k)[k - 1]; assert Follows(w[n - 1], w[n]); }
      if k == 0 {
        if n > 0 { assert Follows(w[n - 1], w[n]) && front == Flat(ps) && Complete(front); }
        assert b.at == 0;
        p := b.pkg;
      }
      assert b == Byte(p, k);
      assert Bytes(p, 0, k + 1) == Bytes(p, 0, k) + [b];
      if k + 1 == p.size {
        FlatSnoc(ps, p);
        ps, p, k := ps + [p], p, 0;
      } else {
        k := k + 1;
      }
    }
  }

  lemma FlatWireUnbroken(ps: seq<Pkg>, p: Pkg, k: nat)
    requires k <= p.size
    ensures Unbroken(Flat(ps) + Bytes(p, 0, k))
  {
    FlatUnbroken(ps);
    AppendPackage(Flat(ps), p, k);
  }

  /** What comes after a package that was left unfinished breaks the wire. */
  lemma TearBreaks(ps: seq<Pkg>, a: Pkg, k: nat, b: Pkg, n: nat)
    requires 0 < k < a.size && n > 0
    ensures !Unbroken(Flat(ps) + Bytes(a, 0, k) + Bytes(b, 0, n))
  {
    var w := Flat(ps) + Bytes(a, 0, k) + Bytes(b, 0, n);
    var i := |Flat(ps)| + k;
    assert w[i - 1] == Byte(a, k - 1) && w[i] == Byte(b, 0);
    assert !Follows(w[i - 1], w[i]);
  }

  lemma BrokenStays(w: seq<Byte>, v: seq<Byte>)
    requires !Unbroken(w)
    ensures !Unbroken(w + v)
  {
    if Unbroken(w + v) {
      assert forall i :: 0 <= i < |w| ==> w[i] == (w + v)[i];
      forall i | 0 < i < |w| ensures Follows(w[i - 1], w[i]) {
        assert (w + v)[i - 1] == w[i - 1] && (w + v)[i] == w[i];
      }
    }
  }

  // ---------------------------------------------------------------------------
  // Sending a list
  // ---------------------------------------------------------------------------

  /** What a call of `write` may do; it never writes more than it is given. */
  datatype Write = Wrote(n: nat) | Interrupted | Again | Fail

  /** The outcome of sending a list: what is left of it, the bytes written, the packages finished, the
      results of `write` that were not asked for, and whether a write failed. */
  datatype Sent = Sent(list: seq<Buf>, bytes: seq<Byte>, done: seq<Pkg>, rest: seq<Write>, failed: bool)

  function Left(b: Buf): nat {
    if b.off <= b.pkg.size then b.pkg.size - b.off else 0
  }

  function Min(a: nat, b: nat): nat { if a <= b then a else b }

  /** `send_list_tcp`: sends the buffers in order until the kernel takes no more. `ws` are the results of
      its calls of `write`; when there are none left the kernel's buffer is full. */
  function SendList(list: seq<Buf>, ws: seq<Write>): Sent
    decreases |ws|
  {
    if list == [] || ws == [] then Sent(list, [], [], ws, false)
    else
      var b := list[0];
      match ws[0]
      case Interrupted => SendList(list, ws[1..])
      case Again => Sent(list, [], [], ws[1..], false)
      case Fail => Sent(list, [], [], ws[1..], true)
      case Wrote(m) =>
        var n := Min(m, Left(b));
        var bytes := Bytes(b.pkg, b.off, b.off + n);
        if n == Left(b) then
          var r := SendList(list[1..], ws[1..]);
          r.(bytes := bytes + r.bytes, done := [b.pkg] + r.done)
        else
          Sent([Buf(b.pkg, b.off + n)] + list[1..], bytes, [], ws[1..], false)
  }

  /** The same as the C code does it, in a loop. */
  method SendListTcp(list: seq<Buf>, ws: seq<Write>) returns (r: Sent)
    ensures r == SendList(list, ws)
  {
    var left, rest := list, ws;
    var bytes: seq<Byte>, done: seq<Pkg> := [], [];
    while left != [] && rest != []
      invariant var q := SendList(left, rest);
        SendList(list, ws) == q.(bytes := bytes + q.bytes, done := done + q.done)
      decreases |rest|
    {
      var b, w := left[0], rest[0];
      var rest' := rest[1..];
      match w {
      case Interrupted =>
      case Again => return Sent(left, bytes, done, rest', false);
      case Fail => return Sent(left, bytes, done, rest', true);
      case Wrote(m) =>
        var n := Min(m, Left(b));
        ghost var q := SendList(left, rest);
        var now := Bytes(b.pkg, b.off, b.off + n);
        if n != Left(b) {
          return Sent([Buf(b.pkg, b.off + n)] + left[1..], bytes + now, done, rest', false);
        }
        ghost var q' := SendList(left[1..], rest');
        assert bytes + q.bytes == (bytes + now) + q'.bytes;
        assert done + q.done == (done + [b.pkg]) + q'.done;
        bytes, done, left := bytes + now, done + [b.pkg], left[1..];
      }
      rest := rest';
    }
    r := Sent(left, bytes, done, rest, false);
  }

  /** A package that is not finished, or a package without bytes that is not sent yet. */
  predicate Open(b: Buf) { b.off == 0 || b.off < b.pkg.size }

  /** Only the first buffer of a list may have been sent in part. */
  ghost predicate ListOk(l: seq<Buf>) {
    (l != [] ==> Open(l[0])) && forall i :: 0 < i < |l| ==> l[i].off == 0
  }

  ghost predicate Untouched(l: seq<Buf>) {
    forall i :: 0 <= i < |l| ==> l[i].off == 0
  }

  /** The part of the first package that is on the wire. */
  function HeadBytes(l: seq<Buf>): seq<Byte> {
    if l == [] then [] else Bytes(l[0].pkg, 0, l[0].off)
  }

  function Unsent(l: seq<Buf>): nat {
    if l == [] then 0 else Left(l[0]) + Unsent(l[1..])
  }

  lemma {:induction false} FlatCons(p: Pkg, ps: seq<Pkg>)
    ensures Flat([p] + ps) == Bytes(p, 0, p.size) + Flat(ps)
  {
    if ps != [] {
      var n := |ps| - 1;
      FlatCons(p, ps[..n]);
      assert ([p] + ps)[..n + 1] == [p] + ps[..n];
    } else {
      assert ([p] + ps)[..0] == [];
    }
  }

  lemma {:induction false} FlatAppend(ps: seq<Pkg>, qs: seq<Pkg>)
    ensures Flat(ps + qs) == Flat(ps) + Flat(qs)
  {
    if qs != [] {
      var n := |qs| - 1;
      FlatAppend(ps, qs[..n]);
      assert (ps + qs)[..|ps| + n] == ps + qs[..n];
    } else {
      assert ps + qs == ps;
    }
  }

  /** The outcome accounts for every byte and every package of the list. A failed write leaves its
      package as it was. */
  ghost predicate Conserves(list: seq<Buf>, r: Sent) {
    && ListOk(r.list)
    && HeadBytes(list) + r.bytes == Flat(r.done) + HeadBytes(r.list)
    && Pkgs(list) == r.done + Pkgs(r.list)
    && Unsent(list) == |r.bytes| + Unsent(r.list)
    && (r.failed ==> r.list != [])
    && (r.failed && Untouched(list) ==> Untouched(r.list))
  }

  lemma Regroup<T>(h: seq<T>, now: seq<T>, f: seq<T>, t: seq<T>)
    ensures h + (now + (f + t)) == ((h + now) + f) + t
  {
  }

  /** Sending a list completes packages in list order and leaves at most one of them begun: together
      with what was on the wire already, the bytes written are the finished packages and the part of
      the new first one. Nothing is lost, and the bytes still to be sent decrease by those written. */
  lemma {:induction false} SendListKeepsPackages(list: seq<Buf>, ws: seq<Write>)
    requires ListOk(list)
    ensures Conserves(list, SendList(list, ws))
    decreases |ws|
  {
    if list != [] && ws != [] {
      var b := list[0];
      match ws[0]
      case Interrupted => SendListKeepsPackages(list, ws[1..]);
      case Wrote(m) =>
        var n := Min(m, Left(b));
        var r := SendList(list, ws);
        assert Bytes(b.pkg, 0, b.off) + Bytes(b.pkg, b.off, b.off + n) == Bytes(b.pkg, 0, b.off + n);
        if n == Left(b) {
          SendDone(list, ws);
        } else {
          assert Pkgs(r.list) == Pkgs(list);
        }
      case _ =>
    }
  }

  lemma {:induction false} SendDone(list: seq<Buf>, ws: seq<Write>)
    requires ListOk(list) && list != [] && ws != [] && ws[0].Wrote? && Min(ws[0].n, Left(list[0])) == Left(list[0])
    ensures Conserves(list, SendList(list, ws))
    decreases |ws|, 0
  {
    var b, tail := list[0], list[1..];
    SendListKeepsPackages(tail, ws[1..]);
    var r, r' := SendList(list, ws), SendList(tail, ws[1..]);
    var now := Bytes(b.pkg, b.off, b.pkg.size);
    assert r.bytes == now + r'.bytes && r.done == [b.pkg] + r'.done && r.list == r'.list;
    hide SendList, Flat;
    assert |tail| > 0 ==> tail[0].off == 0;
    assert HeadBytes(tail) + r'.bytes == r'.bytes;
    FlatCons(b.pkg, r'.done);
    assert HeadBytes(list) + now == Bytes(b.pkg, 0, b.pkg.size);
    assert Pkgs(list) == [b.pkg] + Pkgs(tail);
    assert Untouched(list) ==> Untouched(tail);
    Regroup(HeadBytes(list), now, Flat(r'.done), HeadBytes(r'.list));
    hide HeadBytes, Bytes, Pkgs;
  }
}
