/** The hierarchical timing wheel of skynet-src/skynet_timer.c: 256 near slots and 4 levels of 64
    slots over a 32-bit clock that wraps. It is proved to dispatch, at every tick, exactly the timers
    whose time of adding plus delay is that tick, in the order in which they were added. */
module TimerWheel {
  import opened Arithmetic

  const TIME_NEAR := 256
  const TIME_LEVEL := 64

  /** Size of the uint32 clock. */
  const WRAP := 0x1_0000_0000

  /** A delay is a positive C int. */
  const MAX_DELAY := 0x7FFF_FFFF

  type Uint32 = x: int | 0 <= x < WRAP

  /** A timer node: what to dispatch, and when on the 32-bit clock. */
  datatype Node = Node(event: nat, expire: Uint32)

  datatype Slot = Near(i: nat) | Level(level: nat, i: nat)

  predicate IsSlot(s: Slot) {
    match s
    case Near(i) => i < TIME_NEAR
    case Level(l, i) => l < 4 && i < TIME_LEVEL
  }

  // ---------------------------------------------------------------------------
  // Slots
  // ---------------------------------------------------------------------------

  // A time without its low bits.
  function P0(x: nat): nat { x / TIME_NEAR }
  function P1(x: nat): nat { P0(x) / TIME_LEVEL }
  function P2(x: nat): nat { P1(x) / TIME_LEVEL }
  function P3(x: nat): nat { P2(x) / TIME_LEVEL }

  /** The bitwise operations on unsigned numbers, bit by bit. */
  function BitOr(a: nat, b: nat): nat {
    if a == 0 then b else if b == 0 then a
    else (if a % 2 == 1 || b % 2 == 1 then 1 else 0) + 2 * BitOr(a / 2, b / 2)
  }

  function BitAnd(a: nat, b: nat): nat {
    if a == 0 || b == 0 then 0
    else (if a % 2 == 1 && b % 2 == 1 then 1 else 0) + 2 * BitAnd(a / 2, b / 2)
  }

  /** Taking off the lowest bit first. */
  lemma HalfMod(x: nat, m: nat)
    requires m > 0
    ensures x % (2 * m) == 2 * (x / 2 % m) + x % 2
  {
    var q, r := x / 2 / m, x / 2 % m;
    assert x / 2 == m * q + r;
    assert x == 2 * m * q + (2 * r + x % 2);
    ModUnique(x, 2 * m, q, 2 * r + x % 2);
  }

  /** The lowest bit of a mask is set. */
  lemma LowBit(x: nat, m: nat)
    requires m > 0
    ensures BitOr(x, 2 * m - 1) == 1 + 2 * BitOr(x / 2, m - 1)
    ensures BitAnd(x, 2 * m - 1) == x % 2 + 2 * BitAnd(x / 2, m - 1)
  {
    assert (2 * m - 1) / 2 == m - 1 && (2 * m - 1) % 2 == 1;
  }

  lemma Halves(x: nat, h: nat, b: nat, r: nat, m: nat, xm: nat)
    requires x == 2 * h + b && xm == 2 * r + b
    ensures 1 + 2 * (h - r + m - 1) == x - xm + 2 * m - 1 && b + 2 * r == xm
  {
  }

  /** Setting, and keeping only, the `k` lowest bits. */
  lemma {:induction false} LowBits(x: nat, k: nat)
    ensures BitOr(x, Pow2(k) - 1) == x - x % Pow2(k) + Pow2(k) - 1
    ensures BitAnd(x, Pow2(k) - 1) == x % Pow2(k)
  {
    if k > 0 {
      var m := Pow2(k - 1);
      LowBits(x / 2, k - 1);
      HalfMod(x, m);
      LowBit(x, m);
      assert Pow2(k) == 2 * m;
      hide Pow2, BitOr, BitAnd;
      Halves(x, x / 2, x % 2, x / 2 % m, m, x % (2 * m));
    }
  }

  lemma Masks()
    ensures Pow2(8) == 0x100 && Pow2(14) == 0x4000 && Pow2(20) == 0x10_0000 && Pow2(26) == 0x400_0000
    ensures Pow2(6) == 0x40
  {
    assert Pow2(4) == 0x10 && Pow2(10) == 0x40 * Pow2(4);
    assert Pow2(16) == 0x40 * Pow2(10);
    assert Pow2(22) == 0x40 * Pow2(16);
  }

  /** Comparing two times with their low bits set compares their prefixes. */
  lemma OrMaskComparesPrefixes(a: Uint32, b: Uint32)
    ensures BitOr(a, 0xFF) == BitOr(b, 0xFF) <==> P0(a) == P0(b)
    ensures BitOr(a, 0x3FFF) == BitOr(b, 0x3FFF) <==> P1(a) == P1(b)
    ensures BitOr(a, 0xF_FFFF) == BitOr(b, 0xF_FFFF) <==> P2(a) == P2(b)
    ensures BitOr(a, 0x3FF_FFFF) == BitOr(b, 0x3FF_FFFF) <==> P3(a) == P3(b)
  {
    Masks();
    LowBits(a, 8);
    LowBits(b, 8);
    LowBits(a, 14);
    LowBits(b, 14);
    LowBits(a, 20);
    LowBits(b, 20);
    LowBits(a, 26);
    LowBits(b, 26);
    Prefixes(a);
    Prefixes(b);
    hide BitOr, BitAnd, Pow2, P0, P1, P2, P3;
  }

  /** Keeping the low bits of a time, or those of a prefix. */
  lemma AndMaskKeepsLow(x: nat)
    ensures BitAnd(x, 0xFF) == x % TIME_NEAR && BitAnd(x, 0x3F) == x % TIME_LEVEL
  {
    Masks();
    LowBits(x, 8);
    LowBits(x, 6);
    hide BitOr, BitAnd, Pow2;
  }

  lemma AndMaskFindsMultiples(x: nat)
    ensures BitAnd(x, 0x3FFF) == x % 0x4000 && BitAnd(x, 0xF_FFFF) == x % 0x10_0000 && BitAnd(x, 0x3FF_FFFF) == x % 0x400_0000
  {
    Masks();
    LowBits(x, 14);
    LowBits(x, 20);
    LowBits(x, 26);
    hide BitOr, BitAnd, Pow2;
  }

  /** The slot that `add_node` chooses at clock time `now`. */
  function SlotOf(expire: Uint32, now: Uint32): (s: Slot)
    ensures IsSlot(s)
  {
    if P0(expire) == P0(now) then Near(expire % TIME_NEAR)
    else if P1(expire) == P1(now) then Level(0, P0(expire) % TIME_LEVEL)
    else if P2(expire) == P2(now) then Level(1, P1(expire) % TIME_LEVEL)
    else if P3(expire) == P3(now) then Level(2, P2(expire) % TIME_LEVEL)
    else Level(3, P3(expire) % TIME_LEVEL)
  }

  datatype Option<T> = None | Some(value: T)

  /** The one list that `timer_shift` moves when the clock has become `ct`. */
  function Cascade(ct: Uint32): (s: Option<Slot>)
    ensures s.Some? ==> IsSlot(s.value) && s.value.Level?
  {
    if ct == 0 then Some(Level(3, 0))
    else if ct % TIME_NEAR != 0 then None
    else if P0(ct) % TIME_LEVEL != 0 then Some(Level(0, P0(ct) % TIME_LEVEL))
    else if P1(ct) % TIME_LEVEL != 0 then Some(Level(1, P1(ct) % TIME_LEVEL))
    else if P2(ct) % TIME_LEVEL != 0 then Some(Level(2, P2(ct) % TIME_LEVEL))
    else if P3(ct) % TIME_LEVEL != 0 then Some(Level(3, P3(ct) % TIME_LEVEL))
    else None
  }

  lemma BlockKept256(e: Uint32, a: Uint32, c: Uint32)
    requires c == (a + 1) % WRAP && 1 <= (e - a) % WRAP <= MAX_DELAY
    ensures c % 0x100 != 0 ==> c / 0x100 == a / 0x100
    ensures c % 0x100 == 0 ==> e / 0x100 != a / 0x100
  {
  }

  lemma BlockKept16K(e: Uint32, a: Uint32, c: Uint32)
    requires c == (a + 1) % WRAP && 1 <= (e - a) % WRAP <= MAX_DELAY
    ensures c % 0x4000 != 0 ==> c / 0x4000 == a / 0x4000
    ensures c % 0x4000 == 0 ==> e / 0x4000 != a / 0x4000
  {
  }

  lemma BlockKept1M(e: Uint32, a: Uint32, c: Uint32)
    requires c == (a + 1) % WRAP && 1 <= (e - a) % WRAP <= MAX_DELAY
    ensures c % 0x10_0000 != 0 ==> c / 0x10_0000 == a / 0x10_0000
    ensures c % 0x10_0000 == 0 ==> e / 0x10_0000 != a / 0x10_0000
  {
  }

  lemma BlockKept64M(e: Uint32, a: Uint32, c: Uint32)
    requires c == (a + 1) % WRAP && 1 <= (e - a) % WRAP <= MAX_DELAY
    ensures c % 0x400_0000 != 0 ==> c / 0x400_0000 == a / 0x400_0000
    ensures c % 0x400_0000 == 0 ==> e / 0x400_0000 != a / 0x400_0000
  {
  }

  /** Blocks of times of size `m`, when the clock moves on from `a` to `c`: the block of a time that is
      still to come and not far away is compared as before, or was another block all along. */
  lemma BlockKept(e: Uint32, a: Uint32, c: Uint32, m: nat)
    requires c == (a + 1) % WRAP && m in {0x100, 0x4000, 0x10_0000, 0x400_0000}
    requires 1 <= (e - a) % WRAP <= MAX_DELAY
    ensures c % m != 0 ==> c / m == a / m
    ensures c % m == 0 ==> e / m != a / m
  {
    if m == 0x100 {
      BlockKept256(e, a, c);
    } else if m == 0x4000 {
      BlockKept16K(e, a, c);
    } else if m == 0x10_0000 {
      BlockKept1M(e, a, c);
    } else {
      BlockKept64M(e, a, c);
    }
  }

  /** The heart of the wheel: a pending node is in the slot that `add_node` would choose now, and stays
      in the right slot at the next tick unless it is in the one list that the tick moves. */
  lemma SlotStays(e: Uint32, a: Uint32, c: Uint32)
    requires c == (a + 1) % WRAP && 1 <= (e - a) % WRAP <= MAX_DELAY
    requires Cascade(c) != Some(SlotOf(e, a))
    ensures SlotOf(e, c) == SlotOf(e, a)
  {
    BlockKept(e, a, c, 256);
    BlockKept(e, a, c, 0x4000);
    BlockKept(e, a, c, 0x10_0000);
    BlockKept(e, a, c, 0x400_0000);
    Prefixes(e);
    Prefixes(a);
    Prefixes(c);
  }

  lemma Prefixes(x: Uint32)
    ensures P0(x) == x / 256 && P1(x) == x / 0x4000 && P2(x) == x / 0x10_0000 && P3(x) == x / 0x400_0000
    ensures x % 0x4000 == 0 <==> x % 256 == 0 && P0(x) % 64 == 0
    ensures x % 0x10_0000 == 0 <==> x % 0x4000 == 0 && P1(x) % 64 == 0
    ensures x % 0x400_0000 == 0 <==> x % 0x10_0000 == 0 && P2(x) % 64 == 0
    ensures P3(x) < 64
  {
  }

  // ---------------------------------------------------------------------------
  // Histories: what should be dispatched when
  // ---------------------------------------------------------------------------

  /** The atomic steps, one for each lock section: a thread adds a timer, the clock moves on, or the
      timer thread takes the list of the current slot to dispatch it. */
  datatype Op = Add(event: nat, delay: int) | Shift | Clear

  predicate ValidOp(op: Op) {
    op.Add? ==> 1 <= op.delay <= MAX_DELAY
  }

  predicate ValidOps(ops: seq<Op>) {
    forall k :: 0 <= k < |ops| ==> ValidOp(ops[k])
  }

  /** The time, which does not wrap here. */
  function Ticks(ops: seq<Op>): nat {
    if ops == [] then 0
    else Ticks(ops[..|ops| - 1]) + if ops[|ops| - 1].Shift? then 1 else 0
  }

  /** Has the list of the current slot been taken since the clock moved on? */
  predicate Drained(ops: seq<Op>) {
    if ops == [] then true
    else match ops[|ops| - 1]
      case Shift => false
      case Clear => true
      case Add(_, _) => Drained(ops[..|ops| - 1])
  }

  /** The timers that are due at tick `tick`, in the order in which they were added. */
  function Sched(ops: seq<Op>, tick: int): seq<nat> {
    if ops == [] then []
    else
      var before, op := ops[..|ops| - 1], ops[|ops| - 1];
      Sched(before, tick)
      + if op.Add? && Ticks(before) + op.delay == tick then [op.event] else []
  }

  /** The steps that added them. */
  function DueSteps(ops: seq<Op>, tick: int): (ks: seq<nat>)
    ensures forall j :: 0 <= j < |ks| ==> ks[j] < |ops|
  {
    if ops == [] then []
    else
      var before, op := ops[..|ops| - 1], ops[|ops| - 1];
      DueSteps(before, tick)
      + if op.Add? && Ticks(before) + op.delay == tick then [|ops| - 1] else []
  }

  lemma {:induction false} DueExact(ops: seq<Op>, tick: int)
    ensures var ks := DueSteps(ops, tick);
      && (forall i, j :: 0 <= i < j < |ks| ==> ks[i] < ks[j])
      && (forall k :: 0 <= k < |ops| ==> (k in ks <==> ops[k].Add? && Ticks(ops[..k]) + ops[k].delay == tick))
  {
    if ops != [] {
      var n := |ops| - 1;
      var before := ops[..n];
      DueExact(before, tick);
      assert forall k :: 0 <= k < n ==> before[..k] == ops[..k];
      var ks, ks0 := DueSteps(ops, tick), DueSteps(before, tick);
      assert ks == ks0 + if ops[n].Add? && Ticks(before) + ops[n].delay == tick then [n] else [];
      hide DueSteps, Ticks;
      forall k | 0 <= k < |ops|
        ensures k in ks <==> ops[k].Add? && Ticks(ops[..k]) + ops[k].delay == tick
      {
        if k < n { assert k in ks <==> k in ks0; } else { assert ops[..k] == before; }
      }
    }
  }

  lemma {:induction false} SchedFollows(ops: seq<Op>, tick: int)
    ensures var ks := DueSteps(ops, tick);
      |ks| == |Sched(ops, tick)|
      && forall j :: 0 <= j < |ks| ==> ops[ks[j]].Add? && Sched(ops, tick)[j] == ops[ks[j]].event
  {
    if ops != [] { SchedFollows(ops[..|ops| - 1], tick); }
  }

  /** `Sched` names every timer exactly once, at the tick that is its delay after the tick at which it
      was added, and keeps the order of adding. */
  lemma SchedExact(ops: seq<Op>, tick: int)
    ensures var ks := DueSteps(ops, tick);
            && |ks| == |Sched(ops, tick)|
            && (forall j :: 0 <= j < |ks| ==> ops[ks[j]].Add? && Sched(ops, tick)[j] == ops[ks[j]].event)
            && (forall i, j :: 0 <= i < j < |ks| ==> ks[i] < ks[j])
            && (forall k :: 0 <= k < |ops| ==>
                  (k in ks <==> ops[k].Add? && Ticks(ops[..k]) + ops[k].delay == tick))
  {
    DueExact(ops, tick);
    SchedFollows(ops, tick);
  }

  /** Nothing is due further away than the largest delay. */
  lemma {:induction false} NothingFar(ops: seq<Op>, tick: int)
    requires ValidOps(ops) && tick > Ticks(ops) + MAX_DELAY
    ensures Sched(ops, tick) == []
  {
    if ops != [] {
      assert ValidOp(ops[|ops| - 1]);
      NothingFar(ops[..|ops| - 1], tick);
    }
  }

  // ---------------------------------------------------------------------------
  // Logs: what was dispatched at each tick
  // ---------------------------------------------------------------------------

  /** The steps of other threads that add timers. */
  function Adds(others: seq<(nat, int)>): (ops: seq<Op>)
    ensures |ops| == |others|
  {
    seq(|others|, i requires 0 <= i < |others| => Add(others[i].0, others[i].1))
  }

  /** The tick at which the timer of step `k` is due. */
  function Due(ops: seq<Op>, k: nat): int
    requires k < |ops| && ops[k].Add?
  {
    Ticks(ops[..k]) + ops[k].delay
  }

  /** The log has one entry for each tick so far: what was dispatched then. It is what the history calls for. */
  ghost predicate Logged(ops: seq<Op>, log: seq<seq<nat>>) {
    |log| == Ticks(ops) && forall i :: 0 <= i < |log| ==> log[i] == Sched(ops, i + 1)
  }

  lemma {:induction false} TicksAppend(ops: seq<Op>, more: seq<Op>)
    ensures Ticks(ops + more) == Ticks(ops) + Ticks(more)
  {
    if more == [] {
      assert ops + more == ops;
    } else {
      TicksAppend(ops, more[..|more| - 1]);
      assert (ops + more)[..|ops + more| - 1] == ops + more[..|more| - 1];
    }
  }

  /** What comes later does not change what was due up to now. */
  lemma {:induction false} SchedSettled(ops: seq<Op>, more: seq<Op>, tick: int)
    requires ValidOps(more) && tick <= Ticks(ops)
    ensures Sched(ops + more, tick) == Sched(ops, tick)
  {
    if more == [] {
      assert ops + more == ops;
    } else {
      var front := more[..|more| - 1];
      assert ValidOp(more[|more| - 1]);
      SchedSettled(ops, front, tick);
      TicksAppend(ops, front);
      assert (ops + more)[..|ops + more| - 1] == ops + front;
    }
  }

  /** Adding timers, and taking the current list, leave the log right. */
  lemma LogKept(ops: seq<Op>, more: seq<Op>, log: seq<seq<nat>>)
    requires Logged(ops, log) && ValidOps(more) && Ticks(more) == 0
    ensures Logged(ops + more, log)
  {
    TicksAppend(ops, more);
    forall i | 0 <= i < |log| ensures log[i] == Sched(ops + more, i + 1) { SchedSettled(ops, more, i + 1); }
  }

  /** A tick adds what is due at it. */
  lemma LogTick(ops: seq<Op>, more: seq<Op>, log: seq<seq<nat>>, dispatched: seq<nat>)
    requires Logged(ops, log) && ValidOps(more) && Ticks(more) == 0 && dispatched == Sched(ops, Ticks(ops) + 1)
    ensures Logged(ops + [Shift] + more, log + [dispatched])
  {
    var ops' := ops + [Shift];
    assert ops'[..|ops|] == ops;
    TicksAppend(ops', more);
    forall i | 0 <= i < |log| + 1 ensures (log + [dispatched])[i] == Sched(ops' + more, i + 1) {
      SchedSettled(ops', more, i + 1);
    }
  }

  lemma {:induction false} AddsTakeNoTime(others: seq<(nat, int)>)
    ensures Ticks(Adds(others)) == 0
  {
    if others != [] {
      var front := others[..|others| - 1];
      AddsTakeNoTime(front);
      assert Adds(others)[..|others| - 1] == Adds(front);
    }
  }

  /** The timer of step `k`, once its tick has passed, is in the log: at that tick, at one place, and nowhere
      else. Place `i` of the entry of tick `t` belongs to the step `DueSteps(ops, t)[i]`. */
  lemma DispatchedOnce(ops: seq<Op>, log: seq<seq<nat>>, k: nat) returns (j: nat)
    requires Logged(ops, log) && ValidOps(ops) && k < |ops| && ops[k].Add? && Due(ops, k) <= |log|
    ensures var t := Due(ops, k);
      && 1 <= t && j < |log[t - 1]| == |DueSteps(ops, t)| && DueSteps(ops, t)[j] == k && log[t - 1][j] == ops[k].event
    ensures forall t, i :: 1 <= t <= |log| && 0 <= i < |DueSteps(ops, t)| && DueSteps(ops, t)[i] == k ==>
      t == Due(ops, k) && i == j
  {
    var t := Due(ops, k);
    assert ValidOp(ops[k]);
    SchedExact(ops, t);
    hide Sched, DueSteps, Ticks, ValidOps, Due;
    j :| 0 <= j < |DueSteps(ops, t)| && DueSteps(ops, t)[j] == k;
    forall u, i | 1 <= u <= |log| && 0 <= i < |DueSteps(ops, u)| && DueSteps(ops, u)[i] == k ensures u == t && i == j {
      OneDue(ops, u, i, t, j);
    }
  }

  /** The lists of due steps have no step in common, and none twice. */
  lemma OneDue(ops: seq<Op>, u: int, i: nat, t: int, j: nat)
    requires i < |DueSteps(ops, u)| && j < |DueSteps(ops, t)| && DueSteps(ops, u)[i] == DueSteps(ops, t)[j]
    ensures u == t && i == j
  {
    SchedExact(ops, u);
    SchedExact(ops, t);
    hide Sched, DueSteps, Ticks;
    assert DueSteps(ops, u)[i] in DueSteps(ops, u) && DueSteps(ops, t)[j] in DueSteps(ops, t);
  }

  /** Whatever is in the log is there for a timer that was due then, and the timers of one tick come in the order
      in which they were added. */
  lemma NothingElseDispatched(ops: seq<Op>, log: seq<seq<nat>>, t: nat)
    requires Logged(ops, log) && 1 <= t <= |log|
    ensures |log[t - 1]| == |DueSteps(ops, t)|
    ensures forall i :: 0 <= i < |log[t - 1]| ==>
      var k := DueSteps(ops, t)[i]; ops[k].Add? && Due(ops, k) == t && log[t - 1][i] == ops[k].event
    ensures forall i, j :: 0 <= i < j < |log[t - 1]| ==> DueSteps(ops, t)[i] < DueSteps(ops, t)[j]
  {
    hide Sched, DueSteps, Ticks;
    SchedExact(ops, t);
    var ks := DueSteps(ops, t);
    assert forall i :: 0 <= i < |ks| ==> ks[i] in ks;
  }

  /** No other step adds a timer with the event of step `k`. */
  ghost predicate EventAlone(ops: seq<Op>, k: nat)
    requires k < |ops| && ops[k].Add?
  {
    forall l :: 0 <= l < |ops| && ops[l].Add? && ops[l].event == ops[k].event ==> l == k
  }

  /** An event is in the log at entry `u`, place `j`, and nowhere else. */
  ghost predicate LoggedOnce(log: seq<seq<nat>>, event: nat, u: nat, j: nat) {
    && u < |log| && j < |log[u]| && log[u][j] == event
    && forall v, l :: 0 <= v < |log| && 0 <= l < |log[v]| && log[v][l] == event ==> v == u && l == j
  }

  /** A timer with an event of its own: the event is in the log at one place only. */
  lemma EventDispatchedOnce(ops: seq<Op>, log: seq<seq<nat>>, k: nat) returns (j: nat)
    requires Logged(ops, log) && ValidOps(ops) && k < |ops| && ops[k].Add? && Due(ops, k) <= |log|
    requires EventAlone(ops, k)
    ensures Due(ops, k) >= 1 && LoggedOnce(log, ops[k].event, Due(ops, k) - 1, j)
  {
    j := DispatchedOnce(ops, log, k);
    forall u, i | 0 <= u < |log| && 0 <= i < |log[u]| && log[u][i] == ops[k].event
      ensures u + 1 == Due(ops, k) && i == j
    {
      NothingElseDispatched(ops, log, u + 1);
      assert DueSteps(ops, u + 1)[i] == k;
    }
    hide Sched, DueSteps, Ticks;
  }

  // ---------------------------------------------------------------------------
  // Lists
  // ---------------------------------------------------------------------------

  type Lists = imap<Slot, seq<Node>>

  ghost predicate Complete(lists: Lists) {
    forall s :: IsSlot(s) ==> s in lists
  }

  /** The nodes with a given expiry, in order. */
  function Pick(l: seq<Node>, e: Uint32): seq<Node> {
    if l == [] then []
    else Pick(l[..|l| - 1], e) + if l[|l| - 1].expire == e then [l[|l| - 1]] else []
  }

  lemma {:induction false} PickAppend(a: seq<Node>, b: seq<Node>, e: Uint32)
    ensures Pick(a + b, e) == Pick(a, e) + Pick(b, e)
  {
    if b == [] {
      assert a + b == a;
    } else {
      assert (a + b)[..|a + b| - 1] == a + b[..|b| - 1];
      PickAppend(a, b[..|b| - 1], e);
    }
  }

  lemma PickOne(n: Node, e: Uint32)
    ensures Pick([n], e) == if n.expire == e then [n] else []
  {
    assert [n][..0] == [];
  }

  /** A list with a single expiry. */
  lemma {:induction false} PickAll(l: seq<Node>, e: Uint32)
    requires forall x: Uint32 :: x != e ==> Pick(l, x) == []
    ensures Pick(l, e) == l
  {
    if l != [] {
      var front, last := l[..|l| - 1], l[|l| - 1];
      assert last.expire != e ==> |Pick(l, last.expire)| > 0;
      forall x: Uint32 | x != e
        ensures Pick(front, x) == []
      {
        assert Pick(l, x) == [];
      }
      PickAll(front, e);
    }
  }

  function Nodes(events: seq<nat>, e: Uint32): seq<Node> {
    seq(|events|, j requires 0 <= j < |events| => Node(events[j], e))
  }

  lemma NodesNone(e: Uint32)
    ensures Nodes([], e) == []
  {
  }

  lemma NodesAppend(events: seq<nat>, event: nat, e: Uint32)
    ensures Nodes(events + [event], e) == Nodes(events, e) + [Node(event, e)]
    ensures events + [] == events
  {
  }

  function Events(l: seq<Node>): seq<nat> {
    seq(|l|, j requires 0 <= j < |l| => l[j].event)
  }

  /** `add_node`. */
  ghost function AddTo(lists: Lists, n: Node, now: Uint32): (r: Lists)
    requires Complete(lists)
    ensures Complete(r)
  {
    lists[SlotOf(n.expire, now) := lists[SlotOf(n.expire, now)] + [n]]
  }

  /** The loop of `move_list`: add the nodes again, at the current time. */
  ghost function Readd(lists: Lists, l: seq<Node>, now: Uint32): (r: Lists)
    requires Complete(lists)
    ensures Complete(r)
  {
    if l == [] then lists else AddTo(Readd(lists, l[..|l| - 1], now), l[|l| - 1], now)
  }

  lemma ReaddNone(lists: Lists, now: Uint32)
    requires Complete(lists)
    ensures Readd(lists, [], now) == lists
  {
  }

  lemma ReaddStep(lists: Lists, l: seq<Node>, i: nat, now: Uint32)
    requires Complete(lists) && i < |l|
    ensures Readd(lists, l[..i + 1], now) == AddTo(Readd(lists, l[..i], now), l[i], now)
  {
    assert l[..i + 1][..i] == l[..i];
  }

  /** `timer_shift` after the clock has become `ct`. */
  ghost function Cascaded(lists: Lists, ct: Uint32): (r: Lists)
    requires Complete(lists)
    ensures Complete(r)
  {
    match Cascade(ct)
    case None => lists
    case Some(src) => Readd(lists[src := []], lists[src], ct)
  }

  /** Adding one node, seen through one expiry. */
  lemma PickAdd(lists: Lists, n: Node, now: Uint32, s: Slot, e: Uint32)
    requires Complete(lists) && IsSlot(s)
    ensures Pick(AddTo(lists, n, now)[s], e)
         == Pick(lists[s], e) + if s == SlotOf(e, now) && n.expire == e then [n] else []
  {
    hide SlotOf, Pick;
    PickOne(n, e);
    if s == SlotOf(n.expire, now) { PickAppend(lists[s], [n], e); }
  }

  lemma {:induction false} PickReadd(lists: Lists, l: seq<Node>, now: Uint32, s: Slot, e: Uint32)
    requires Complete(lists) && IsSlot(s)
    ensures Pick(Readd(lists, l, now)[s], e)
         == Pick(lists[s], e) + (if s == SlotOf(e, now) then Pick(l, e) else [])
  {
    hide SlotOf;
    if l != [] {
      var front, last := l[..|l| - 1], l[|l| - 1];
      var r := Readd(lists, front, now);
      assert Readd(lists, l, now) == AddTo(r, last, now);
      assert Pick(l, e) == Pick(front, e) + if last.expire == e then [last] else [];
      hide Pick, Readd, AddTo;
      PickReadd(lists, front, now, s, e);
      PickAdd(r, last, now, s, e);
    }
  }

  // ---------------------------------------------------------------------------
  // The invariant
  // ---------------------------------------------------------------------------

  function Clock(ops: seq<Op>): Uint32 { Ticks(ops) % WRAP }

  /** The timers that a node with expiry `e` may stand for: expiries are read as times to come. */
  function Waiting(ops: seq<Op>, e: Uint32): seq<nat> {
    if e == Clock(ops) then (if Drained(ops) then [] else Sched(ops, Ticks(ops)))
    else Sched(ops, Ticks(ops) + (e - Clock(ops)) % WRAP)
  }

  /** Every waiting timer is in the slot that `add_node` would choose for it now, behind the ones with
      the same expiry that were added before it, and there is nothing else in the wheel. */
  ghost predicate InPlace(lists: Lists, ops: seq<Op>, s: Slot, e: Uint32)
    requires Complete(lists) && IsSlot(s)
  {
    Pick(lists[s], e) == if s == SlotOf(e, Clock(ops)) then Nodes(Waiting(ops, e), e) else []
  }

  ghost predicate Inv(lists: Lists, ops: seq<Op>) {
    && Complete(lists)
    && ValidOps(ops)
    && forall s, e: Uint32 :: IsSlot(s) ==> InPlace(lists, ops, s, e)
  }

  /** The slot of the nodes that are due at this tick. */
  function Current(ops: seq<Op>): (s: Slot)
    ensures IsSlot(s)
  {
    Near(Clock(ops) % TIME_NEAR)
  }

  /** The current slot holds exactly the timers that are due at this tick and not yet dispatched. */
  lemma CurrentIsDue(lists: Lists, ops: seq<Op>)
    requires Inv(lists, ops)
    ensures lists[Current(ops)] == Nodes(Waiting(ops, Clock(ops)), Clock(ops))
    ensures Events(lists[Current(ops)]) == if Drained(ops) then [] else Sched(ops, Ticks(ops))
  {
    var ct, s := Clock(ops), Current(ops);
    forall x: Uint32 | x != ct
      ensures Pick(lists[s], x) == []
    {
      assert InPlace(lists, ops, s, x);
    }
    PickAll(lists[s], ct);
    assert InPlace(lists, ops, s, ct);
  }

  /** The expiry of a new node, read as a time to come, is its delay. */
  lemma ExpiryIsDelay(ct: Uint32, delay: int, e: Uint32)
    requires 1 <= delay <= MAX_DELAY
    ensures (e - ct) % WRAP == delay <==> e == (delay + ct) % WRAP
    ensures (delay + ct) % WRAP != ct
  {
  }

  lemma AddKeepsInv(lists: Lists, ops: seq<Op>, event: nat, delay: int)
    requires Inv(lists, ops) && 1 <= delay <= MAX_DELAY
    ensures Inv(AddTo(lists, Node(event, (delay + Clock(ops)) % WRAP), Clock(ops)), ops + [Add(event, delay)])
  {
    var ops' := ops + [Add(event, delay)];
    var n := Node(event, (delay + Clock(ops)) % WRAP);
    var lists' := AddTo(lists, n, Clock(ops));
    forall s, e: Uint32 | IsSlot(s)
      ensures InPlace(lists', ops', s, e)
    {
      AddInPlace(lists, ops, event, delay, s, e);
    }
  }

  lemma WaitingAdd(ops: seq<Op>, event: nat, delay: int, e: Uint32)
    requires 1 <= delay <= MAX_DELAY
    ensures Waiting(ops + [Add(event, delay)], e)
         == Waiting(ops, e) + if e == (delay + Clock(ops)) % WRAP then [event] else []
    ensures Clock(ops + [Add(event, delay)]) == Clock(ops)
  {
    var ops' := ops + [Add(event, delay)];
    assert ops'[..|ops|] == ops;
    ExpiryIsDelay(Clock(ops), delay, e);
  }

  lemma AddInPlace(lists: Lists, ops: seq<Op>, event: nat, delay: int, s: Slot, e: Uint32)
    requires Inv(lists, ops) && 1 <= delay <= MAX_DELAY && IsSlot(s)
    ensures InPlace(AddTo(lists, Node(event, (delay + Clock(ops)) % WRAP), Clock(ops)), ops + [Add(event, delay)], s, e)
  {
    assert InPlace(lists, ops, s, e);
    var now := Clock(ops);
    var n := Node(event, (delay + now) % WRAP);
    WaitingAdd(ops, event, delay, e);
    PickAdd(lists, n, now, s, e);
    NodesAppend(Waiting(ops, e), event, e);
    hide Inv, Waiting, Clock, SlotOf, Pick, AddTo, Nodes;
  }

  lemma ShiftKeepsInv(lists: Lists, ops: seq<Op>)
    requires Inv(lists, ops) && lists[Current(ops)] == []
    ensures Inv(Cascaded(lists, (Clock(ops) + 1) % WRAP), ops + [Shift])
  {
    hide InPlace, Cascaded, Clock;
    var ops' := ops + [Shift];
    var lists' := Cascaded(lists, (Clock(ops) + 1) % WRAP);
    forall s, e: Uint32 | IsSlot(s)
      ensures InPlace(lists', ops', s, e)
    {
      ShiftInPlace(lists, ops, s, e);
    }
  }

  lemma ShiftInPlace(lists: Lists, ops: seq<Op>, s: Slot, e: Uint32)
    requires Inv(lists, ops) && lists[Current(ops)] == [] && IsSlot(s)
    ensures InPlace(Cascaded(lists, (Clock(ops) + 1) % WRAP), ops + [Shift], s, e)
  {
    var a, c: Uint32 := Clock(ops), (Clock(ops) + 1) % WRAP;
    WaitingShift(lists, ops, e);
    if Waiting(ops, e) != [] && Cascade(c) != Some(SlotOf(e, a)) { SlotStays(e, a, c); }
    NodesNone(e);
    var w := Nodes(Waiting(ops, e), e);
    forall x | IsSlot(x) ensures Pick(lists[x], e) == if x == SlotOf(e, a) then w else [] {
      assert InPlace(lists, ops, x, e);
    }
    hide Inv, Waiting, Clock, Current, SlotOf, Cascade, Cascaded, Nodes, Pick;
    CascadeMoves(lists, a, c, s, e, w);
  }

  /** What a tick does to the nodes of one expiry that are all in their slot. */
  lemma CascadeMoves(lists: Lists, a: Uint32, c: Uint32, s: Slot, e: Uint32, w: seq<Node>)
    requires Complete(lists) && IsSlot(s)
    requires forall x :: IsSlot(x) ==> Pick(lists[x], e) == if x == SlotOf(e, a) then w else []
    requires w != [] ==> Cascade(c) == Some(SlotOf(e, a)) || SlotOf(e, c) == SlotOf(e, a)
    ensures Pick(Cascaded(lists, c)[s], e) == if s == SlotOf(e, c) then w else []
  {
    if Cascade(c).Some? {
      var src := Cascade(c).value;
      PickReadd(lists[src := []], lists[src], c, s, e);
    }
    hide SlotOf, Cascade, Readd;
  }

  /** The time to come, seen before and after a tick. */
  lemma DistanceShift(a: Uint32, e: Uint32)
    ensures var c: Uint32 := (a + 1) % WRAP;
            if e == a then e != c && 1 + (e - c) % WRAP == WRAP
            else 1 + (if e == c then 0 else (e - c) % WRAP) == (e - a) % WRAP
  {
  }

  /** Moving the clock changes nobody's deadline. */
  lemma WaitingShift(lists: Lists, ops: seq<Op>, e: Uint32)
    requires Inv(lists, ops) && lists[Current(ops)] == []
    ensures Waiting(ops + [Shift], e) == Waiting(ops, e)
    ensures Waiting(ops, e) != [] ==> 1 <= (e - Clock(ops)) % WRAP <= MAX_DELAY
    ensures Clock(ops + [Shift]) == (Clock(ops) + 1) % WRAP
  {
    var ops' := ops + [Shift];
    assert ops'[..|ops|] == ops;
    var a := Clock(ops);
    assert Clock(ops') == (a + 1) % WRAP;
    DistanceShift(a, e);
    if e == a {
      CurrentIsDue(lists, ops);
      assert |Nodes(Waiting(ops, a), a)| == 0;
      NothingFar(ops, Ticks(ops) + WRAP);
    } else {
      var delta := (e - a) % WRAP;
      if delta > MAX_DELAY { NothingFar(ops, Ticks(ops) + delta); }
    }
  }

  lemma ClearKeepsInv(lists: Lists, ops: seq<Op>)
    requires Inv(lists, ops)
    ensures Inv(lists[Current(ops) := []], ops + [Clear])
  {
    hide InPlace, Clock;
    var lists', ops' := lists[Current(ops) := []], ops + [Clear];
    forall s, e: Uint32 | IsSlot(s)
      ensures InPlace(lists', ops', s, e)
    {
      ClearInPlace(lists, ops, s, e);
    }
  }

  lemma WaitingClear(ops: seq<Op>, e: Uint32)
    ensures Waiting(ops + [Clear], e) == if e == Clock(ops) then [] else Waiting(ops, e)
    ensures Clock(ops + [Clear]) == Clock(ops)
  {
    assert (ops + [Clear])[..|ops|] == ops;
  }

  lemma ClearInPlace(lists: Lists, ops: seq<Op>, s: Slot, e: Uint32)
    requires Inv(lists, ops) && IsSlot(s)
    ensures InPlace(lists[Current(ops) := []], ops + [Clear], s, e)
  {
    WaitingClear(ops, e);
    NodesNone(e);
    assert InPlace(lists, ops, s, e);
    assert SlotOf(e, Clock(ops)) == Current(ops) <==> e == Clock(ops);
    hide Inv, Waiting, Clock, Current, SlotOf, Nodes;
  }
}
