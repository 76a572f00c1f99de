/** The reader/writer spin lock of skynet-src/rwlock.h, for any number of threads. Every load, store,
    increment and compare-and-swap is one step; any interleaving is allowed. */
module RwLock {

  /** The two meanings of `ATOM_CAS` in skynet-src/atomic.h. With C11 atomics it is the weak
      compare-exchange, which may fail for no reason and which, when it fails, stores what it has read in
      the variable of the expected value. Without them it is a builtin that takes the value itself. */
  datatype Cas = Weak | Sync

  /** Where a thread is in the lock. */
  datatype Pc =
    | Out       // not using the lock
    | RSpin     // rlock: waiting for `write` to be 0
    | RInc      // rlock: about to increment `read`
    | RCheck    // rlock: about to look at `write` again
    | RDec      // rlock: about to decrement `read` and retry
    | RIn       // inside, as a reader
    | WSpin(clear: int) // wlock: about to try the compare-and-swap on `write`, with its variable `clear`
    | WWait     // wlock: waiting for `read` to be 0
    | WIn       // inside, as a writer

  datatype Lock = Lock(write: int, read: int, pcs: seq<Pc>)

  ghost predicate Init(l: Lock) {
    l.write == 0 && l.read == 0 && forall t :: 0 <= t < |l.pcs| ==> l.pcs[t] == Out
  }

  function At(l: Lock, t: nat, pc: Pc): Lock
    requires t < |l.pcs|
  {
    l.(pcs := l.pcs[t := pc])
  }

  /** One try of `wlock`. */
  ghost predicate Try(v: Cas, l: Lock, t: nat, clear: int, l': Lock)
    requires t < |l.pcs|
  {
    if l.write == clear then l' == At(l, t, WWait).(write := 1) || (v.Weak? && l' == At(l, t, WSpin(clear)))
    else l' == At(l, t, WSpin(if v.Weak? then l.write else clear))
  }

  /** One atomic step of thread `t`. */
  ghost predicate Next(v: Cas, l: Lock, t: nat, l': Lock) {
    && t < |l.pcs|
    && match l.pcs[t]
       case Out => l' == At(l, t, RSpin) || l' == At(l, t, WSpin(0))
       case RSpin => l' == At(l, t, if l.write != 0 then RSpin else RInc)
       case RInc => l' == At(l, t, RCheck).(read := l.read + 1)
       case RCheck => l' == At(l, t, if l.write != 0 then RDec else RIn)
       case RDec => l' == At(l, t, RSpin).(read := l.read - 1)
       case RIn => l' == At(l, t, Out).(read := l.read - 1)
       case WSpin(clear) => Try(v, l, t, clear, l')
       case WWait => l' == At(l, t, if l.read != 0 then WWait else WIn)
       case WIn => l' == At(l, t, Out).(write := 0)
  }

  /** A thread that has incremented `read` and not yet decremented it. */
  predicate Counted(pc: Pc) { pc.RCheck? || pc.RDec? || pc.RIn? }

  /** A thread that has set `write` and not yet cleared it. */
  predicate Owner(pc: Pc) { pc.WWait? || pc.WIn? }

  function Count(pcs: seq<Pc>, p: Pc -> bool): nat {
    if pcs == [] then 0 else Count(pcs[..|pcs| - 1], p) + if p(pcs[|pcs| - 1]) then 1 else 0
  }

  lemma {:induction false} CountUpdate(pcs: seq<Pc>, p: Pc -> bool, t: nat, pc: Pc)
    requires t < |pcs|
    ensures Count(pcs[t := pc], p) == Count(pcs, p) - (if p(pcs[t]) then 1 else 0) + (if p(pc) then 1 else 0)
  {
    var n := |pcs| - 1;
    if t < n {
      assert pcs[t := pc][..n] == pcs[..n][t := pc];
      CountUpdate(pcs[..n], p, t, pc);
    } else {
      assert pcs[t := pc][..n] == pcs[..n];
    }
  }

  lemma {:induction false} CountZero(pcs: seq<Pc>, p: Pc -> bool)
    ensures Count(pcs, p) == 0 <==> forall t :: 0 <= t < |pcs| ==> !p(pcs[t])
  {
    if pcs != [] {
      CountZero(pcs[..|pcs| - 1], p);
      assert forall t :: 0 <= t < |pcs| - 1 ==> pcs[..|pcs| - 1][t] == pcs[t];
    }
  }

  /** No writer is inside together with a reader or another writer. */
  ghost predicate Exclusive(l: Lock) {
    forall t, u :: 0 <= t < |l.pcs| && 0 <= u < |l.pcs| && t != u && l.pcs[t].WIn? ==> !l.pcs[u].WIn? && !l.pcs[u].RIn?
  }

  /** `read` counts the readers on their way, `write` marks the one owner, and a writer inside keeps
      readers out of the section. */
  ghost predicate Inv(l: Lock) {
    && l.read == Count(l.pcs, Counted)
    && l.write == Count(l.pcs, Owner)
    && l.write <= 1
    && Exclusive(l)
  }

  lemma {:induction false} InitInv(l: Lock)
    requires Init(l)
    ensures Inv(l)
  {
    CountZero(l.pcs, Counted);
    CountZero(l.pcs, Owner);
  }

  /** Two owners make the count larger than one. */
  lemma {:induction false} TwoOwners(pcs: seq<Pc>, t: nat, u: nat)
    requires t < |pcs| && u < |pcs| && t != u && Owner(pcs[t]) && Owner(pcs[u])
    ensures Count(pcs, Owner) >= 2
  {
    var rest := pcs[t := Out];
    CountUpdate(pcs, Owner, t, Out);
    CountZero(rest, Owner);
    assert Owner(rest[u]);
  }

  predicate Writing(pc: Pc) { pc.WSpin? || Owner(pc) }

  ghost predicate OneOwner(l: Lock) {
    forall t, u :: 0 <= t < |l.pcs| && 0 <= u < |l.pcs| && t != u && Owner(l.pcs[t]) ==> !Owner(l.pcs[u])
  }

  /** A compare-and-swap that succeeds on a lock that is taken. */
  predicate Steals(l: Lock, t: nat, l': Lock) {
    t < |l.pcs| && t < |l'.pcs| && l.pcs[t].WSpin? && l'.pcs[t].WWait? && l.write != 0
  }

  lemma InvOneOwner(l: Lock)
    requires Inv(l)
    ensures OneOwner(l)
  {
    forall t, u | 0 <= t < |l.pcs| && 0 <= u < |l.pcs| && t != u && Owner(l.pcs[t]) ensures !Owner(l.pcs[u]) {
      if Owner(l.pcs[u]) { TwoOwners(l.pcs, t, u); }
    }
  }

  /** Every step but one that steals keeps the invariant. */
  lemma NextInv(v: Cas, l: Lock, t: nat, l': Lock)
    requires Inv(l) && Next(v, l, t, l') && !Steals(l, t, l')
    ensures Inv(l')
  {
    var pc := l'.pcs[t];
    CountUpdate(l.pcs, Counted, t, pc);
    CountUpdate(l.pcs, Owner, t, pc);
    assert l'.pcs == l.pcs[t := pc];
    if l.pcs[t].WWait? && pc.WIn? {
      CountZero(l.pcs, Counted);
    }
    if l.pcs[t].RCheck? && pc.RIn? {
      CountZero(l.pcs, Owner);
    }
    forall a, b | 0 <= a < |l'.pcs| && 0 <= b < |l'.pcs| && a != b && l'.pcs[a].WIn?
      ensures !l'.pcs[b].WIn? && !l'.pcs[b].RIn?
    {
      if Owner(l'.pcs[b]) { TwoOwners(l'.pcs, a, b); }
    }
  }

  /** Whoever has the lock when it is stolen. */
  lemma Robbed(l: Lock, t: nat) returns (u: nat)
    requires Inv(l) && t < |l.pcs| && l.pcs[t].WSpin? && l.write != 0
    ensures u < |l.pcs| && u != t && Owner(l.pcs[u])
  {
    CountZero(l.pcs, Owner);
    u :| u < |l.pcs| && Owner(l.pcs[u]);
  }

  /** And a step that steals makes two owners. */
  lemma StealMakesTwo(v: Cas, l: Lock, t: nat, l': Lock)
    requires Inv(l) && Next(v, l, t, l') && Steals(l, t, l')
    ensures !OneOwner(l')
  {
    var u := Robbed(l, t);
    assert Owner(l'.pcs[t]) && Owner(l'.pcs[u]);
  }

  // ---------------------------------------------------------------------------
  // Runs
  // ---------------------------------------------------------------------------

  /** A run, with the thread that takes each step. */
  ghost predicate IsRun(v: Cas, run: seq<Lock>, threads: seq<nat>) {
    && |run| == |threads| + 1
    && Init(run[0])
    && forall k :: 0 <= k < |threads| ==> Next(v, run[k], threads[k], run[k + 1])
  }

  ghost predicate NoSteal(run: seq<Lock>, threads: seq<nat>, k: nat)
    requires |run| == |threads| + 1 && k < |run|
  {
    forall j :: 0 <= j < k ==> !Steals(run[j], threads[j], run[j + 1])
  }

  /** In every run, there has never been more than one owner if and only if no compare-and-swap has
      succeeded on a lock that was taken; and then writers have excluded everybody. */
  lemma {:induction false} RunExclusive(v: Cas, run: seq<Lock>, threads: seq<nat>, k: nat)
    requires IsRun(v, run, threads) && k < |run|
    ensures NoSteal(run, threads, k) <==> forall j :: 0 <= j <= k ==> OneOwner(run[j])
    ensures NoSteal(run, threads, k) ==> forall j :: 0 <= j <= k ==> Inv(run[j]) && Exclusive(run[j])
  {
    hide Next, Exclusive, Count, OneOwner, Steals;
    InitInv(run[0]);
    InvOneOwner(run[0]);
    for n := 0 to k
      invariant forall j :: 0 <= j <= n ==> Inv(run[j]) && OneOwner(run[j])
      invariant NoSteal(run, threads, n)
    {
      if Steals(run[n], threads[n], run[n + 1]) {
        StealMakesTwo(v, run[n], threads[n], run[n + 1]);
        return;
      }
      NextInv(v, run[n], threads[n], run[n + 1]);
      InvOneOwner(run[n + 1]);
    }
  }

  /** What the variables of the waiting writers hold. */
  ghost predicate Clears(v: Cas, l: Lock) {
    && (l.write == 0 || l.write == 1)
    && forall t :: 0 <= t < |l.pcs| && l.pcs[t].WSpin? ==> l.pcs[t].clear == 0 || (v.Weak? && l.pcs[t].clear == 1)
  }

  lemma NextClears(v: Cas, l: Lock, t: nat, l': Lock)
    requires Clears(v, l) && Next(v, l, t, l')
    ensures Clears(v, l')
    ensures v.Sync? ==> !Steals(l, t, l')
  {
  }

  /** Without C11 atomics the lock excludes, in every state of every run. */
  lemma {:induction false} SyncExclusive(run: seq<Lock>, threads: seq<nat>)
    requires IsRun(Sync, run, threads)
    ensures forall j :: 0 <= j < |run| ==> Exclusive(run[j])
  {
    for n := 0 to |threads|
      invariant forall j :: 0 <= j <= n ==> Clears(Sync, run[j])
      invariant NoSteal(run, threads, n)
    {
      NextClears(Sync, run[n], threads[n], run[n + 1]);
    }
    RunExclusive(Sync, run, threads, |threads|);
  }

  /** No two threads are between the start of `wlock` and the end of `wunlock`. */
  ghost predicate WritersApart(l: Lock) {
    forall t, u :: 0 <= t < |l.pcs| && 0 <= u < |l.pcs| && t != u && Writing(l.pcs[t]) ==> !Writing(l.pcs[u])
  }

  lemma ApartNoSteal(l: Lock, t: nat, l': Lock)
    requires Inv(l) && WritersApart(l)
    ensures !Steals(l, t, l')
  {
    if Steals(l, t, l') { var u := Robbed(l, t); }
  }

  /** With either meaning, the lock excludes in every run whose write sections do not overlap. */
  lemma {:induction false} ApartExclusive(v: Cas, run: seq<Lock>, threads: seq<nat>)
    requires IsRun(v, run, threads) && forall j :: 0 <= j < |run| ==> WritersApart(run[j])
    ensures forall j :: 0 <= j < |run| ==> Exclusive(run[j])
  {
    hide Next, Count, Exclusive;
    assert NoSteal(run, threads, 0);
    for n := 0 to |threads|
      invariant NoSteal(run, threads, n)
    {
      RunExclusive(v, run, threads, n);
      ApartNoSteal(run[n], threads[n], run[n + 1]);
    }
    RunExclusive(v, run, threads, |threads|);
  }

  // ---------------------------------------------------------------------------
  // Write sections that overlap
  // ---------------------------------------------------------------------------

  lemma Extend(v: Cas, run: seq<Lock>, threads: seq<nat>, t: nat, l: Lock)
    returns (longer: seq<Lock>, more: seq<nat>)
    requires IsRun(v, run, threads) && Next(v, run[|threads|], t, l)
    ensures IsRun(v, longer, more) && longer == run + [l] && |more| == |threads| + 1
  {
    hide Next;
    longer, more := run + [l], threads + [t];
  }

  /** With C11 atomics two tries are enough to get past the compare-and-swap, whatever the lock is. */
  lemma TwoTries(run: seq<Lock>, threads: seq<nat>, t: nat) returns (longer: seq<Lock>, more: seq<nat>)
    requires IsRun(Weak, run, threads)
    requires var l := run[|threads|]; t < |l.pcs| && l.pcs[t].WSpin?
    ensures IsRun(Weak, longer, more) && run <= longer
    ensures longer[|more|] == At(run[|threads|], t, WWait).(write := 1)
  {
    var l := run[|threads|];
    hide IsRun;
    longer, more := Extend(Weak, run, threads, t, At(l, t, WSpin(l.write)));
    assert l.pcs[t := WSpin(l.write)][t := WWait] == l.pcs[t := WWait];
    longer, more := Extend(Weak, longer, more, t, At(l, t, WWait).(write := 1));
  }

  /** So from every state of every run in which two write sections overlap, the run may go on to a state
      with two owners. */
  lemma OverlapBreaks(run: seq<Lock>, threads: seq<nat>, t: nat, u: nat)
    returns (longer: seq<Lock>, more: seq<nat>)
    requires IsRun(Weak, run, threads)
    requires var pcs := run[|threads|].pcs; t < |pcs| && u < |pcs| && t != u && Writing(pcs[t]) && Writing(pcs[u])
    ensures IsRun(Weak, longer, more) && run <= longer && !OneOwner(longer[|more|])
  {
    longer, more := run, threads;
    if longer[|more|].pcs[t].WSpin? { longer, more := TwoTries(longer, more, t); }
    if longer[|more|].pcs[u].WSpin? { longer, more := TwoTries(longer, more, u); }
    var pcs := longer[|more|].pcs;
    assert Owner(pcs[t]) && Owner(pcs[u]);
  }

  /** Two writers are inside, and when the first one leaves, a reader gets in beside the second. */
  lemma TwoWritersInside() returns (run: seq<Lock>, threads: seq<nat>)
    ensures IsRun(Weak, run, threads) && |run| == 13
    ensures run[0].pcs == [Out, Out, Out] && run[7].pcs == [WIn, WIn, Out] && run[12].pcs == [Out, WIn, RIn]
  {
    run, threads := [Lock(0, 0, [Out, Out, Out])], [];
    assert IsRun(Weak, run, threads);
    hide IsRun;
    run, threads := Extend(Weak, run, threads, 0, Lock(0, 0, [WSpin(0), Out, Out]));
    run, threads := Extend(Weak, run, threads, 0, Lock(1, 0, [WWait, Out, Out]));
    run, threads := Extend(Weak, run, threads, 0, Lock(1, 0, [WIn, Out, Out]));
    run, threads := Extend(Weak, run, threads, 1, Lock(1, 0, [WIn, WSpin(0), Out]));
    run, threads := Extend(Weak, run, threads, 1, Lock(1, 0, [WIn, WSpin(1), Out]));
    run, threads := Extend(Weak, run, threads, 1, Lock(1, 0, [WIn, WWait, Out]));
    run, threads := Extend(Weak, run, threads, 1, Lock(1, 0, [WIn, WIn, Out]));
    run, threads := Extend(Weak, run, threads, 0, Lock(0, 0, [Out, WIn, Out]));
    run, threads := Extend(Weak, run, threads, 2, Lock(0, 0, [Out, WIn, RSpin]));
    run, threads := Extend(Weak, run, threads, 2, Lock(0, 0, [Out, WIn, RInc]));
    run, threads := Extend(Weak, run, threads, 2, Lock(0, 1, [Out, WIn, RCheck]));
    run, threads := Extend(Weak, run, threads, 2, Lock(0, 1, [Out, WIn, RIn]));
  }
}
