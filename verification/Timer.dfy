/** The operations of skynet-src/skynet_timer.c on the wheel itself. */
module Timer {
  import opened TimerWheel

  /** The level of a timer outside the near slots, and its slot there. */
  method LevelOf(e: Uint32, now: Uint32) returns (i: nat, idx: nat)
    requires P0(e) != P0(now)
    ensures i < 4 && idx < TIME_LEVEL && SlotOf(e, now) == Level(i, idx)
  {
    OrMaskComparesPrefixes(e, now);
    hide BitOr, BitAnd;
    i := 0;
    var mask := TIME_NEAR * TIME_LEVEL;
    var prefix := e / TIME_NEAR;
    while i < 3 && BitOr(e, mask - 1) != BitOr(now, mask - 1)
      invariant 0 <= i <= 3
      invariant i == 0 ==> mask == 0x4000 && prefix == P0(e)
      invariant i == 1 ==> mask == 0x10_0000 && prefix == P1(e)
      invariant i == 2 ==> mask == 0x400_0000 && prefix == P2(e)
      invariant i == 3 ==> prefix == P3(e)
      invariant i >= 1 ==> P1(e) != P1(now)
      invariant i >= 2 ==> P2(e) != P2(now)
      invariant i >= 3 ==> P3(e) != P3(now)
    {
      mask := mask * TIME_LEVEL;
      prefix := prefix / TIME_LEVEL;
      i := i + 1;
    }
    AndMaskKeepsLow(prefix);
    idx := BitAnd(prefix, TIME_LEVEL - 1);
  }

  class Wheel {
    const near: array<seq<Node>>
    const t: array2<seq<Node>>
    var time: Uint32

    /** The steps so far. */
    ghost var ops: seq<Op>

    ghost predicate Shape() {
      near.Length == TIME_NEAR && t.Length0 == 4 && t.Length1 == TIME_LEVEL
    }

    ghost function ListAt(s: Slot): seq<Node>
      requires Shape() && IsSlot(s)
      reads near, t
    {
      match s
      case Near(i) => near[i]
      case Level(l, i) => t[l, i]
    }

    ghost function Contents(): (lists: Lists)
      requires Shape()
      reads near, t
      ensures Complete(lists)
    {
      imap s | IsSlot(s) :: ListAt(s)
    }

    ghost predicate Valid()
      reads this, near, t
    {
      Shape() && time == Clock(ops) && Inv(Contents(), ops)
    }

    /** Nothing is left to dispatch at this tick. */
    predicate Quiet()
      requires Shape()
      reads this, near
    {
      near[time % TIME_NEAR] == []
    }

    constructor ()
      ensures Valid() && Quiet() && ops == [] && fresh(near) && fresh(t)
    {
      near := new seq<Node>[TIME_NEAR](_ => []);
      t := new seq<Node>[4, TIME_LEVEL]((_, _) => []);
      time := 0;
      ops := [];
      new;
      forall s, e: Uint32 | IsSlot(s)
        ensures InPlace(Contents(), ops, s, e)
      {
        assert Contents()[s] == [];
        assert Waiting(ops, e) == [];
      }
    }

    /** Append a node to the list that its expiry calls for. */
    method AddNode(n: Node)
      requires Shape()
      modifies near, t
      ensures Contents() == AddTo(old(Contents()), n, time)
    {
      ghost var before := Contents();
      var e, now := n.expire, time;
      OrMaskComparesPrefixes(e, now);
      AndMaskKeepsLow(e);
      hide BitOr, BitAnd;
      if BitOr(e, TIME_NEAR - 1) == BitOr(now, TIME_NEAR - 1) {
        var idx := BitAnd(e, TIME_NEAR - 1);
        near[idx] := near[idx] + [n];
      } else {
        var i, idx := LevelOf(e, now);
        t[i, idx] := t[i, idx] + [n];
      }
      assert Contents() == AddTo(before, n, time);
    }

    /** `timer_add`: a positive delay. */
    method TimerAdd(event: nat, delay: int)
      requires Valid() && 1 <= delay <= MAX_DELAY
      modifies near, t, this`ops
      ensures Valid() && ops == old(ops) + [Add(event, delay)]
      ensures Quiet() <==> old(Quiet())
    {
      hide Inv, AddTo;
      AddKeepsInv(Contents(), ops, event, delay);
      ghost var before := Contents();
      AddNode(Node(event, (delay + time) % WRAP));
      OthersKept(before, event, delay);
      assert before[Near(time % TIME_NEAR)] == old(near[time % TIME_NEAR]);
      ops := ops + [Add(event, delay)];
      assert Clock(ops) == time by { assert ops[..|ops| - 1] == old(ops); }
    }

    /** A positive delay does not lead to the current slot. */
    lemma OthersKept(before: Lists, event: nat, delay: int)
      requires Shape() && Complete(before) && 1 <= delay <= MAX_DELAY
      requires Contents() == AddTo(before, Node(event, (delay + time) % WRAP), time)
      ensures near[time % TIME_NEAR] == before[Near(time % TIME_NEAR)]
    {
      var e: Uint32 := (delay + time) % WRAP;
      ExpiryIsDelay(time, delay, e);
      assert SlotOf(e, time) != Near(time % TIME_NEAR);
      assert Contents()[Near(time % TIME_NEAR)] == near[time % TIME_NEAR];
    }

    /** `skynet_timeout`: a delay that is not positive is dispatched at once. */
    method Timeout(event: nat, delay: int) returns (now: bool)
      requires Valid() && delay <= MAX_DELAY
      modifies near, t, this`ops
      ensures Valid() && (Quiet() <==> old(Quiet())) && (now <==> delay <= 0)
      ensures ops == if now then old(ops) else old(ops) + [Add(event, delay)]
    {
      if delay <= 0 {
        now := true;
      } else {
        now := false;
        TimerAdd(event, delay);
      }
    }

    /** Empty a list of a level and add its nodes again. */
    method MoveList(level: nat, idx: nat)
      requires Shape() && level < 4 && idx < TIME_LEVEL
      modifies near, t
      ensures var src := Level(level, idx);
              Contents() == Readd(old(Contents())[src := []], old(Contents())[src], time)
    {
      ghost var src := Level(level, idx);
      ghost var before := Contents();
      var current := t[level, idx];
      t[level, idx] := [];
      ghost var cleared := before[src := []];
      assert Contents() == cleared;
      hide AddTo, Readd, Contents;
      assert Readd(cleared, current[..0], time) == cleared by { ReaddNone(cleared, time); }
      for i := 0 to |current|
        invariant Contents() == Readd(cleared, current[..i], time)
      {
        ReaddStep(cleared, current, i, time);
        AddNode(current[i]);
      }
      assert current[..|current|] == current;
    }

    /** Move the clock and the one list that this calls for. */
    method TimerShift()
      requires Valid() && Quiet()
      modifies this`time, this`ops, near, t
      ensures Valid() && ops == old(ops) + [Shift]
    {
      hide Inv, Cascaded;
      ShiftKeepsInv(Contents(), ops) by { assert Contents()[Current(ops)] == near[time % TIME_NEAR]; }
      time := (time + 1) % WRAP;
      Shifting();
      ops := ops + [Shift];
      assert ops[..|ops| - 1] == old(ops);
      assert Clock(ops) == time;
    }

    /** The list that the new time calls for. */
    method Shifting()
      requires Shape()
      modifies near, t
      ensures Contents() == Cascaded(old(Contents()), time)
    {
      hide Readd, Contents;
      if time == 0 {
        MoveList(3, 0);
      } else {
        var ct, p, i := time, P0(time), 0;
        var mask := TIME_NEAR;
        Prefixes(ct);
        AndMaskKeepsLow(ct);
        AndMaskFindsMultiples(ct);
        hide BitAnd;
        while BitAnd(ct, mask - 1) == 0
          invariant 0 <= i <= 3 && Contents() == old(Contents())
          invariant i == 0 ==> p == P0(ct) && mask == 0x100
          invariant i == 1 ==> p == P1(ct) && mask == 0x4000 && ct % mask == 0
          invariant i == 2 ==> p == P2(ct) && mask == 0x10_0000 && ct % mask == 0
          invariant i == 3 ==> p == P3(ct) && mask == 0x400_0000 && ct % mask == 0
          decreases 3 - i
        {
          AndMaskKeepsLow(p);
          var idx := BitAnd(p, TIME_LEVEL - 1);
          if idx != 0 {
            MoveList(i, idx);
            return;
          }
          mask := mask * TIME_LEVEL;
          p := p / TIME_LEVEL;
          i := i + 1;
        }
      }
    }

    /** Dispatch the current slot. The lock is released while a list is dispatched, so other threads may add
        timers then; `others` are their requests. What they add does not come to the current slot. */
    method TimerExecute(others: seq<(nat, int)>) returns (dispatched: seq<nat>)
      requires Valid()
      requires forall k :: 0 <= k < |others| ==> 1 <= others[k].1 <= MAX_DELAY
      modifies near, t, this`ops
      ensures Valid() && Quiet()
      ensures dispatched == if Drained(old(ops)) then [] else Sched(old(ops), Ticks(old(ops)))
      ensures ops == if old(Quiet()) then old(ops) else old(ops) + [Clear] + Adds(others)
      ensures dispatched == [] <==> old(Quiet())
    {
      CurrentIsDue(Contents(), ops);
      assert Contents()[Current(ops)] == near[time % TIME_NEAR];
      dispatched := [];
      var idx := time % TIME_NEAR;
      while near[idx] != []
        invariant Valid() && time == old(time) && idx == time % TIME_NEAR
        invariant near[idx] != [] ==> ops == old(ops) && dispatched == [] && !old(Quiet())
        invariant near[idx] == [] ==> dispatched == if Drained(old(ops)) then [] else Sched(old(ops), Ticks(old(ops)))
        invariant near[idx] == [] ==> ops == if old(Quiet()) then old(ops) else old(ops) + [Clear] + Adds(others)
        invariant near[idx] == [] ==> (dispatched == [] <==> old(Quiet()))
        decreases if near[idx] == [] then 0 else 1
      {
        CurrentIsDue(Contents(), ops);
        var current := ClearCurrent();
        dispatched := dispatched + Events(current);
        AddOthers(others);
      }
    }

    /** `link_clear` of the current slot. */
    method ClearCurrent() returns (current: seq<Node>)
      requires Valid()
      modifies near, this`ops
      ensures Valid() && Quiet() && current == old(near[time % TIME_NEAR]) && ops == old(ops) + [Clear]
    {
      ClearKeepsInv(Contents(), ops);
      ghost var before := Contents();
      var idx := time % TIME_NEAR;
      current := near[idx];
      near[idx] := [];
      ops := ops + [Clear];
      assert ops[..|ops| - 1] == old(ops);
      assert Contents() == before[Near(idx) := []];
    }

    /** Other threads add timers. */
    method AddOthers(others: seq<(nat, int)>)
      requires Valid() && Quiet()
      requires forall k :: 0 <= k < |others| ==> 1 <= others[k].1 <= MAX_DELAY
      modifies near, t, this`ops
      ensures Valid() && Quiet() && ops == old(ops) + Adds(others)
    {
      for k := 0 to |others|
        invariant Valid() && Quiet() && ops == old(ops) + Adds(others)[..k]
      {
        hide Inv;
        TimerAdd(others[k].0, others[k].1);
      }
    }

    /** One tick of `timer_update`: exactly the timers that are due at the new time are dispatched, in the order
        in which they were added, whatever other threads add meanwhile, and the history goes on: the tick, and if
        anything was dispatched, what was added meanwhile. */
    method TimerUpdate(others: seq<(nat, int)>) returns (dispatched: seq<nat>)
      requires Valid() && Quiet()
      requires forall k :: 0 <= k < |others| ==> 1 <= others[k].1 <= MAX_DELAY
      modifies this`time, this`ops, near, t
      ensures Valid() && Quiet()
      ensures dispatched == Sched(old(ops), Ticks(old(ops)) + 1)
      ensures ops == old(ops) + [Shift] + if dispatched == [] then [] else [Clear] + Adds(others)
    {
      AfterShift(ops);
      hide Valid, Quiet, Sched, Ticks, Drained, Adds;
      var early := LateAndShift();
      ghost var shifted := ops;
      dispatched := TimerExecute(others);
      if dispatched == [] {
        assert ops == shifted == shifted + [];
      } else {
        Grouped(shifted, [Clear], Adds(others));
      }
      dispatched := early + dispatched;
    }

    /** The first half of `timer_update`: what is still there is dispatched first, which is nothing, and the clock
        moves on. */
    method LateAndShift() returns (early: seq<nat>)
      requires Valid() && Quiet()
      modifies this`time, this`ops, near, t
      ensures Valid() && ops == old(ops) + [Shift] && early == []
    {
      hide Valid, Quiet, Sched, Ticks, Drained, Adds;
      early := TimerExecute([]);
      TimerShift();
    }
  }

  lemma Grouped<T>(a: seq<T>, b: seq<T>, c: seq<T>)
    ensures a + b + c == a + (b + c)
  {
  }

  /** A tick adds no timer. */
  lemma AfterShift(ops: seq<Op>)
    ensures var ops' := ops + [Shift];
      && !Drained(ops') && Ticks(ops') == Ticks(ops) + 1 && Sched(ops', Ticks(ops')) == Sched(ops, Ticks(ops) + 1)
  {
    assert (ops + [Shift])[..|ops|] == ops;
  }

  // ---------------------------------------------------------------------------
  // Whole runs
  // ---------------------------------------------------------------------------

  /** What happens to the timer from outside: a thread calls `skynet_timeout`, or a tick passes, with what other
      threads add while its list is dispatched. */
  datatype Call = CallTimeout(event: nat, delay: int) | CallUpdate(others: seq<(nat, int)>)

  predicate ValidCall(c: Call) {
    match c
    case CallTimeout(_, delay) => delay <= MAX_DELAY
    case CallUpdate(others) => forall k :: 0 <= k < |others| ==> 1 <= others[k].1 <= MAX_DELAY
  }

  /** The steps that a call comes to. */
  function Steps(ops: seq<Op>, c: Call): seq<Op> {
    match c
    case CallTimeout(event, delay) => if delay <= 0 then [] else [Add(event, delay)]
    case CallUpdate(others) => [Shift] + if Sched(ops, Ticks(ops) + 1) == [] then [] else [Clear] + Adds(others)
  }

  /** The steps that a sequence of calls comes to. */
  function History(calls: seq<Call>): seq<Op> {
    if calls == [] then []
    else
      var before := History(calls[..|calls| - 1]);
      before + Steps(before, calls[|calls| - 1])
  }

  /** For every sequence of calls, the log of what each tick dispatched is what the history calls for. So, by
      `DispatchedOnce` and `NothingElseDispatched`, every timer is dispatched once, at its tick, and in order. */
  method RunTimer(calls: seq<Call>) returns (log: seq<seq<nat>>)
    requires forall i :: 0 <= i < |calls| ==> ValidCall(calls[i])
    ensures ValidOps(History(calls)) && Logged(History(calls), log)
  {
    var w := new Wheel();
    log := [];
    hide Inv, Logged, History, Steps;
    assert Logged([], []) && History([]) == [] by { NoCalls(); }
    for i := 0 to |calls|
      invariant fresh(w) && fresh(w.near) && fresh(w.t) && w.Valid() && w.Quiet()
      invariant w.ops == History(calls[..i]) && Logged(w.ops, log)
    {
      HistoryNext(calls, i);
      assert ValidCall(calls[i]);
      log := RunCall(w, calls[i], log);
    }
    assert calls[..|calls|] == calls;
    ValidHistory(w);
  }

  method RunCall(w: Wheel, c: Call, log: seq<seq<nat>>) returns (longer: seq<seq<nat>>)
    requires w.Valid() && w.Quiet() && ValidCall(c) && Logged(w.ops, log)
    modifies w, w.near, w.t
    ensures w.Valid() && w.Quiet() && w.ops == old(w.ops) + Steps(old(w.ops), c) && Logged(w.ops, longer)
  {
    ghost var before := w.ops;
    longer := log;
    match c {
      case CallTimeout(event, delay) =>
        hide Inv, Logged, Sched, Ticks;
        var now := w.Timeout(event, delay);
        if !now { AddLogged(before, Add(event, delay), log); }
      case CallUpdate(others) =>
        hide Inv, Logged, Sched, Ticks, Adds;
        var dispatched := w.TimerUpdate(others);
        ghost var more := if dispatched == [] then [] else [Clear] + Adds(others);
        MoreIsQuick(others);
        LogTick(before, more, log, dispatched);
        longer := log + [dispatched];
        assert before + [Shift] + more == before + ([Shift] + more);
    }
  }

  lemma NoCalls()
    ensures Logged([], []) && History([]) == []
  {
  }

  lemma ValidHistory(w: Wheel)
    requires w.Valid()
    ensures ValidOps(w.ops)
  {
  }

  lemma HistoryNext(calls: seq<Call>, i: nat)
    requires i < |calls|
    ensures var before := History(calls[..i]); History(calls[..i + 1]) == before + Steps(before, calls[i])
  {
    assert calls[..i + 1][..i] == calls[..i];
  }

  lemma AddLogged(ops: seq<Op>, op: Op, log: seq<seq<nat>>)
    requires Logged(ops, log) && op.Add? && ValidOp(op)
    ensures Logged(ops + [op], log)
  {
    assert Ticks([op]) == 0 by { assert [op][..0] == []; }
    LogKept(ops, [op], log);
  }

  lemma MoreIsQuick(others: seq<(nat, int)>)
    requires forall k :: 0 <= k < |others| ==> 1 <= others[k].1 <= MAX_DELAY
    ensures ValidOps([]) && Ticks([]) == 0
    ensures ValidOps([Clear] + Adds(others)) && Ticks([Clear] + Adds(others)) == 0
  {
    AddsTakeNoTime(others);
    assert Ticks([Clear]) == 0 by { assert [Clear][..0] == []; }
    TicksAppend([Clear], Adds(others));
  }

  /** The ticks in a sequence of calls. */
  function Updates(calls: seq<Call>): nat {
    if calls == [] then 0 else Updates(calls[..|calls| - 1]) + if calls[|calls| - 1].CallUpdate? then 1 else 0
  }

  /** Does a call add a timer with this event, or have others add one? */
  predicate Mentions(c: Call, event: nat) {
    match c
    case CallTimeout(e, delay) => e == event && delay > 0
    case CallUpdate(others) => exists k :: 0 <= k < |others| && others[k].0 == event
  }

  lemma StepsTicks(ops: seq<Op>, c: Call)
    ensures Ticks(Steps(ops, c)) == if c.CallUpdate? then 1 else 0
  {
    match c
    case CallTimeout(event, delay) =>
      assert [Add(event, delay)][..0] == [];
    case CallUpdate(others) =>
      var rest := if Sched(ops, Ticks(ops) + 1) == [] then [] else [Clear] + Adds(others);
      AddsTakeNoTime(others);
      assert [Shift][..0] == [Clear][..0] == [];
      assert Ticks([Shift]) == 1 && Ticks([Clear]) == 0;
      hide Sched, Adds, Ticks;
      TicksAppend([Clear], Adds(others));
      TicksAppend([Shift], rest);
      assert Ticks([]) == 0 by { TicksAppend([], []); }
  }

  lemma StepsMention(ops: seq<Op>, c: Call, event: nat)
    requires !Mentions(c, event)
    ensures forall l :: 0 <= l < |Steps(ops, c)| && Steps(ops, c)[l].Add? ==> Steps(ops, c)[l].event != event
  {
    hide Sched, Ticks;
    var steps := Steps(ops, c);
    forall l | 0 <= l < |steps| && steps[l].Add? ensures steps[l].event != event {
      if c.CallUpdate? {
        assert 2 <= l && steps[l] == Adds(c.others)[l - 2];
        assert c.others[l - 2].0 == steps[l].event;
      }
    }
  }

  lemma {:induction false} TicksAreUpdates(calls: seq<Call>)
    ensures Ticks(History(calls)) == Updates(calls)
  {
    if calls != [] {
      var before, c := History(calls[..|calls| - 1]), calls[|calls| - 1];
      TicksAreUpdates(calls[..|calls| - 1]);
      StepsTicks(before, c);
      hide Steps, Ticks;
      TicksAppend(before, Steps(before, c));
    }
  }

  lemma {:induction false} NotMentioned(calls: seq<Call>, event: nat)
    requires forall i :: 0 <= i < |calls| ==> !Mentions(calls[i], event)
    ensures forall l :: 0 <= l < |History(calls)| && History(calls)[l].Add? ==> History(calls)[l].event != event
  {
    if calls != [] {
      NotMentioned(calls[..|calls| - 1], event);
      StepsMention(History(calls[..|calls| - 1]), calls[|calls| - 1], event);
      hide Steps, Mentions;
    }
  }

  /** The step of a call in the history of all calls, which is the only one with its event. */
  lemma {:induction false} StepOfCall(calls: seq<Call>, i: nat)
    requires i < |calls| && calls[i].CallTimeout? && calls[i].delay > 0
    requires forall l :: 0 <= l < |calls| && Mentions(calls[l], calls[i].event) ==> l == i
    ensures var k, ops := |History(calls[..i])|, History(calls);
      && k < |ops| && ops[k] == Add(calls[i].event, calls[i].delay) && ops[..k] == History(calls[..i])
      && forall l :: 0 <= l < |ops| && ops[l].Add? && ops[l].event == calls[i].event ==> l == k
  {
    var front, c := calls[..|calls| - 1], calls[|calls| - 1];
    if i == |calls| - 1 {
      NotMentioned(front, c.event);
      assert Steps(History(front), c) == [Add(c.event, c.delay)];
      hide Steps, Mentions;
    } else {
      StepsMention(History(front), c, calls[i].event);
      assert front[..i] == calls[..i];
      StepOfCall(front, i);
      hide Steps, Mentions;
    }
  }

  lemma LogLength(calls: seq<Call>, log: seq<seq<nat>>)
    requires Logged(History(calls), log)
    ensures |log| == Updates(calls)
  {
    TicksAreUpdates(calls);
    hide History, Updates, Ticks, Sched;
  }

  lemma CallDue(calls: seq<Call>, i: nat)
    requires i < |calls| && calls[i].CallTimeout? && calls[i].delay > 0
    requires forall l :: 0 <= l < |calls| && Mentions(calls[l], calls[i].event) ==> l == i
    ensures var k, ops := |History(calls[..i])|, History(calls);
      && k < |ops| && ops[k].Add? && ops[k].event == calls[i].event
      && Due(ops, k) == Updates(calls[..i]) + calls[i].delay && EventAlone(ops, k)
  {
    StepOfCall(calls, i);
    TicksAreUpdates(calls[..i]);
    hide History, Mentions, Updates, Ticks;
  }

  /** For every sequence of calls: a timer whose event is its own is in the log once, at as many ticks after
      those before its call as its delay says. */
  lemma CallDispatchedOnce(calls: seq<Call>, log: seq<seq<nat>>, i: nat) returns (j: nat)
    requires ValidOps(History(calls)) && Logged(History(calls), log)
    requires i < |calls| && calls[i].CallTimeout? && calls[i].delay > 0
    requires forall l :: 0 <= l < |calls| && Mentions(calls[l], calls[i].event) ==> l == i
    requires Updates(calls[..i]) + calls[i].delay <= Updates(calls)
    ensures |log| == Updates(calls)
    ensures LoggedOnce(log, calls[i].event, Updates(calls[..i]) + calls[i].delay - 1, j)
  {
    hide History, Mentions, Updates, ValidOps, Logged, Due, EventAlone, LoggedOnce;
    CallDue(calls, i);
    LogLength(calls, log);
    j := EventDispatchedOnce(History(calls), log, |History(calls[..i])|);
  }
}
