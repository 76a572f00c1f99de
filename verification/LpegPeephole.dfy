/** The jump optimiser `peephole` of 3rd/lpeg/lpcode.c, as rewrites of single instructions, and the
    proof that each of them keeps how every run ends. */
module LpegPeephole {
  import opened LpegTree
  import opened LpegVm

  function Target(code: seq<Instr>, i: int): int
    requires 0 <= i < |code| && HasLabel(code[i])
  {
    i + code[i].off
  }

  /** Every label leads into the code, and `rank` shows that no chain of jumps goes around. */
  ghost predicate Ranked(code: seq<Instr>, rank: seq<nat>) {
    && |rank| == |code|
    && (forall q :: 0 <= q < |code| && HasLabel(code[q]) ==> 0 <= q + code[q].off < |code|)
    && (forall q :: 0 <= q < |code| && code[q].IJmp? ==> rank[q + code[q].off] < rank[q])
  }

  /** A jump is followed by the slot of its offset. */
  ghost predicate JumpsPadded(code: seq<Instr>) {
    forall q :: 0 <= q < |code| && code[q].IJmp? ==> q + 1 < |code| && code[q + 1] == Pad
  }

  /** `b` is on the chain of jumps that starts at `a`. */
  ghost predicate Chain(code: seq<Instr>, rank: seq<nat>, a: int, b: int)
    requires Ranked(code, rank) && 0 <= a < |code|
    decreases rank[a]
  {
    a == b || (code[a].IJmp? && Chain(code, rank, Target(code, a), b))
  }

  /** Where a chain of jumps ends. */
  ghost function FinalTarget(code: seq<Instr>, rank: seq<nat>, i: int): (j: int)
    requires Ranked(code, rank) && 0 <= i < |code|
    ensures 0 <= j < |code| && !code[j].IJmp? && Chain(code, rank, i, j)
    decreases rank[i]
  {
    if code[i].IJmp? then FinalTarget(code, rank, Target(code, i)) else i
  }

  lemma {:induction false} ChainRank(code: seq<Instr>, rank: seq<nat>, a: int, b: int)
    requires Ranked(code, rank) && 0 <= a < |code| && Chain(code, rank, a, b)
    ensures 0 <= b < |code| && rank[b] <= rank[a]
    decreases rank[a]
  {
    if a != b { ChainRank(code, rank, Target(code, a), b); }
  }

  // ---------------------------------------------------------------------------
  // The rewrites
  // ---------------------------------------------------------------------------

  function WithOffset(ins: Instr, off: int): (r: Instr)
    requires HasLabel(ins)
    ensures HasLabel(r) && r.off == off && SizeI(r) == SizeI(ins) && (r.IJmp? <==> ins.IJmp?)
  {
    match ins
    case ITestAny(_) => ITestAny(off)
    case ITestChar(c, _) => ITestChar(c, off)
    case ITestSet(cs, _) => ITestSet(cs, off)
    case IChoice(_) => IChoice(off)
    case IJmp(_) => IJmp(off)
    case ICommit(_) => ICommit(off)
    case IPartialCommit(_) => IPartialCommit(off)
    case IBackCommit(_) => IBackCommit(off)
  }

  /** An instruction that ends with an implicit jump: a jump to it may become it. */
  predicate JumpsAway(ins: Instr) {
    ins.IFail? || ins.IFailTwice? || ins.IEnd?
  }

  /** An instruction that ends with an explicit jump. */
  predicate CommitLike(ins: Instr) {
    ins.ICommit? || ins.IPartialCommit? || ins.IBackCommit?
  }

  /** The instruction that may replace the one at `q`. */
  ghost predicate Replaces(code: seq<Instr>, rank: seq<nat>, q: int, ins: Instr)
    requires Ranked(code, rank) && 0 <= q < |code| && HasLabel(code[q])
  {
    || (HasLabel(ins) && ins == WithOffset(code[q], ins.off) && 0 <= q + ins.off < |code|
        && Chain(code, rank, Target(code, q), q + ins.off))
    || (code[q].IJmp?
        && var ft := FinalTarget(code, rank, q);
           || (JumpsAway(code[ft]) && ins == code[ft])
           || (CommitLike(code[ft]) && HasLabel(ins) && ins == WithOffset(code[ft], ins.off)
               && 0 <= q + ins.off < |code| && Chain(code, rank, Target(code, ft), q + ins.off)))
  }

  /** `code'` is `code` with the instruction at `q` replaced; operand slots do not matter. */
  ghost predicate Rewrites(code: seq<Instr>, rank: seq<nat>, q: int, code': seq<Instr>)
    requires Ranked(code, rank) && 0 <= q < |code| && HasLabel(code[q])
  {
    && |code'| == |code|
    && Replaces(code, rank, q, code'[q])
    && (forall k :: 0 <= k < |code| && k != q && code[k] != Pad ==> code'[k] == code[k])
    && (forall k :: 0 <= k < |code| && code[k] == Pad ==> !HasLabel(code'[k]))
  }

  /** The same ranks serve after the rewrite. */
  lemma RewriteRanked(code: seq<Instr>, rank: seq<nat>, q: int, code': seq<Instr>)
    requires Ranked(code, rank) && 0 <= q < |code| && HasLabel(code[q]) && Rewrites(code, rank, q, code')
    ensures Ranked(code', rank)
  {
    if HasLabel(code'[q]) && code'[q] == WithOffset(code[q], code'[q].off) {
      ChainRank(code, rank, Target(code, q), q + code'[q].off);
    }
  }

  // ---------------------------------------------------------------------------
  // Simulation
  // ---------------------------------------------------------------------------

  /** An address of the original run and the address the rewritten code may use in its place. */
  ghost predicate PcRel(code: seq<Instr>, rank: seq<nat>, a: int, b: int)
    requires Ranked(code, rank)
  {
    a == b || (0 <= a < |code| && Chain(code, rank, a, b))
  }

  ghost predicate StackRel(code: seq<Instr>, rank: seq<nat>, a: seq<Entry>, b: seq<Entry>)
    requires Ranked(code, rank)
  {
    && |a| == |b|
    && forall k :: 0 <= k < |a| ==> a[k].s == b[k].s && PcRel(code, rank, a[k].p, b[k].p)
  }

  ghost predicate ConfigRel(code: seq<Instr>, rank: seq<nat>, a: Config, b: Config)
    requires Ranked(code, rank)
  {
    if a.Run? then
      && b.Run? && a.s == b.s
      && PcRel(code, rank, a.p, b.p) && StackRel(code, rank, a.stack, b.stack)
    else a == b
  }

  /** What an instruction does, given the addresses of its label and of the next instruction. */
  function Act(ins: Instr, tgt: int, next: int, subject: seq<Byte>, s: nat, stack: seq<Entry>): Config
    requires s <= |subject|
  {
    match ins
    case IEnd => if |stack| == 1 then Matched(s) else Stuck
    case IAny => if s < |subject| then Run(next, s + 1, stack) else Fail(stack)
    case ITestAny(_) => if s < |subject| then Run(next, s, stack) else Run(tgt, s, stack)
    case IChar(ch) => if s < |subject| && subject[s] == ch then Run(next, s + 1, stack) else Fail(stack)
    case ITestChar(ch, _) => if s < |subject| && subject[s] == ch then Run(next, s, stack) else Run(tgt, s, stack)
    case ISet(cs) => if s < |subject| && subject[s] in cs then Run(next, s + 1, stack) else Fail(stack)
    case ITestSet(cs, _) => if s < |subject| && subject[s] in cs then Run(next, s, stack) else Run(tgt, s, stack)
    case IBehind(n) => if n > s then Fail(stack) else Run(next, s - n, stack)
    case ISpan(cs) => Run(next, Span(cs, subject, s), stack)
    case IJmp(_) => Run(tgt, s, stack)
    case IChoice(_) => Run(next, s, stack + [Entry(tgt, s)])
    case ICommit(_) => if stack == [] then Stuck else Run(tgt, s, stack[..|stack| - 1])
    case IPartialCommit(_) =>
      if stack == [] then Stuck
      else Run(tgt, s, stack[..|stack| - 1] + [Entry(stack[|stack| - 1].p, s)])
    case IBackCommit(_) => if stack == [] then Stuck else Run(tgt, stack[|stack| - 1].s, stack[..|stack| - 1])
    case IFailTwice => if stack == [] then Stuck else Fail(stack[..|stack| - 1])
    case IFail => Fail(stack)
    case Pad => Stuck
  }

  function LabelOf(ins: Instr, p: int): int {
    if HasLabel(ins) then p + ins.off else p
  }

  lemma StepIsAct(code: seq<Instr>, subject: seq<Byte>, p: int, s: nat, stack: seq<Entry>)
    requires 0 <= p < |code| && s <= |subject|
    ensures Step(code, subject, Run(p, s, stack))
         == Act(code[p], LabelOf(code[p], p), p + SizeI(code[p]), subject, s, stack)
  {
  }

  /** The operands other than the label. */
  predicate SameButLabel(a: Instr, b: Instr) {
    a == b || (HasLabel(a) && HasLabel(b) && b == WithOffset(a, b.off))
  }

  lemma ActRel(code: seq<Instr>, rank: seq<nat>, ins: Instr, ins': Instr, tgt: int, tgt': int, next: int, next': int,
               subject: seq<Byte>, s: nat, stack: seq<Entry>, stack': seq<Entry>)
    requires Ranked(code, rank) && s <= |subject| && SameButLabel(ins, ins')
    requires HasLabel(ins) ==> PcRel(code, rank, tgt, tgt')
    requires next == next' || JumpsAway(ins) || CommitLike(ins)
    requires StackRel(code, rank, stack, stack')
    ensures ConfigRel(code, rank, Act(ins, tgt, next, subject, s, stack), Act(ins', tgt', next', subject, s, stack'))
  {
  }

  /** A run that ends, from the start of a chain of jumps, goes through the end of the chain. */
  lemma {:induction false} RunThroughChain(code: seq<Instr>, rank: seq<nat>, subject: seq<Byte>, a: int, b: int,
                                           s: nat, stack: seq<Entry>, n: nat) returns (m: nat)
    requires Ranked(code, rank) && 0 <= a < |code| && Chain(code, rank, a, b) && s <= |subject|
    requires var r := Steps(code, subject, Run(a, s, stack), n); r.Matched? || r.GaveUp?
    ensures m <= n && Steps(code, subject, Run(b, s, stack), m) == Steps(code, subject, Run(a, s, stack), n)
    decreases rank[a]
  {
    if a == b {
      m := n;
    } else {
      m := RunThroughChain(code, rank, subject, Target(code, a), b, s, stack, n - 1);
    }
  }

  /** One step from the same address, where the instruction is the same up to its label. */
  lemma SameStepRel(code: seq<Instr>, rank: seq<nat>, q: int, code': seq<Instr>, subject: seq<Byte>,
                    p: int, s: nat, stack: seq<Entry>, stack': seq<Entry>)
    requires Ranked(code, rank) && 0 <= q < |code| && HasLabel(code[q]) && Rewrites(code, rank, q, code')
    requires 0 <= p < |code| && s <= |subject| && code[p] != Pad && SameButLabel(code[p], code'[p])
    requires StackRel(code, rank, stack, stack')
    ensures ConfigRel(code, rank, Step(code, subject, Run(p, s, stack)), Step(code', subject, Run(p, s, stack')))
  {
    hide Step, Act, StackRel;
    StepIsAct(code, subject, p, s, stack);
    StepIsAct(code', subject, p, s, stack');
    ActRel(code, rank, code[p], code'[p], LabelOf(code[p], p), LabelOf(code'[p], p),
           p + SizeI(code[p]), p + SizeI(code'[p]), subject, s, stack, stack');
  }

  /** A jump that became the instruction it led to. */
  lemma MovedStepRel(code: seq<Instr>, rank: seq<nat>, q: int, code': seq<Instr>, subject: seq<Byte>,
                     s: nat, stack: seq<Entry>, stack': seq<Entry>)
    requires Ranked(code, rank) && 0 <= q < |code| && HasLabel(code[q]) && Rewrites(code, rank, q, code')
    requires s <= |subject| && !SameButLabel(code[q], code'[q])
    requires StackRel(code, rank, stack, stack')
    ensures ConfigRel(code, rank, Step(code, subject, Run(FinalTarget(code, rank, q), s, stack)),
                      Step(code', subject, Run(q, s, stack')))
  {
    hide Step, Act, StackRel;
    var ft := FinalTarget(code, rank, q);
    StepIsAct(code, subject, ft, s, stack);
    StepIsAct(code', subject, q, s, stack');
    ActRel(code, rank, code[ft], code'[q], LabelOf(code[ft], ft), LabelOf(code'[q], q),
           ft + SizeI(code[ft]), q + SizeI(code'[q]), subject, s, stack, stack');
  }

  /** Not at an instruction: the machine ends at once, and in the same way with the other code. */
  lemma OutsideSame(code: seq<Instr>, rank: seq<nat>, code': seq<Instr>, subject: seq<Byte>, c: Config, c': Config, n: nat)
    requires Ranked(code, rank) && |code'| == |code| && ConfigRel(code, rank, c, c')
    requires !c.Run? || c.p < 0 || c.p >= |code| || c.s > |subject|
    requires var r := Steps(code, subject, c, n); r.Matched? || r.GaveUp?
    ensures Reaches(code', subject, c', Steps(code, subject, c, n))
  {
    if c.Run? {
      HaltedStays(code, subject, Step(code, subject, c), n - 1);
      ReachesStep(code', subject, c');
    } else {
      HaltedStays(code, subject, c, n);
      ReachesRefl(code', subject, c');
    }
  }

  /** The rewritten code ends every run the way the original does. */
  lemma {:induction false} RewriteSimulates(code: seq<Instr>, rank: seq<nat>, q: int, code': seq<Instr>,
                                            subject: seq<Byte>, c: Config, c': Config, n: nat)
    requires Ranked(code, rank) && 0 <= q < |code| && HasLabel(code[q]) && Rewrites(code, rank, q, code')
    requires ConfigRel(code, rank, c, c')
    requires var r := Steps(code, subject, c, n); r.Matched? || r.GaveUp?
    ensures Reaches(code', subject, c', Steps(code, subject, c, n))
    decreases n
  {
    if !c.Run? || c.p < 0 || c.p >= |code| || c.s > |subject| {
      OutsideSame(code, rank, code', subject, c, c', n);
    } else if c.p != c'.p {
      RewriteSimulates(code, rank, q, code', subject, Step(code, subject, c), c', n - 1);
    } else {
      hide Step, StackRel, Ranked, Reaches, Chain, Replaces;
      var r := Steps(code, subject, c, n);
      if c.p == q && !SameButLabel(code[q], code'[q]) {
        var ft := FinalTarget(code, rank, q);
        var m := RunThroughChain(code, rank, subject, q, ft, c.s, c.stack, n);
        MovedStepRel(code, rank, q, code', subject, c.s, c.stack, c'.stack);
        RewriteSimulates(code, rank, q, code', subject, Step(code, subject, Run(ft, c.s, c.stack)),
                         Step(code', subject, c'), m - 1);
      } else {
        PadsAreNotRun(code, subject, c, n);
        SameStepRel(code, rank, q, code', subject, c.p, c.s, c.stack, c'.stack);
        RewriteSimulates(code, rank, q, code', subject, Step(code, subject, c), Step(code', subject, c'), n - 1);
      }
      ReachesVia(code', subject, c', r);
    }
  }

  lemma PadsAreNotRun(code: seq<Instr>, subject: seq<Byte>, c: Config, n: nat)
    requires c.Run? && 0 <= c.p < |code| && c.s <= |subject|
    requires var r := Steps(code, subject, c, n); r.Matched? || r.GaveUp?
    ensures code[c.p] != Pad && n > 0
  {
    if n > 0 && code[c.p] == Pad { HaltedStays(code, subject, Stuck, n - 1); }
  }

  /** Two programs that end every run in the same way. */
  ghost predicate KeepsRuns(code: seq<Instr>, code': seq<Instr>) {
    forall subject, c, r :: Reaches(code, subject, c, r) && (r.Matched? || r.GaveUp?)
                            ==> Reaches(code', subject, c, r)
  }

  lemma RewriteKeepsRuns(code: seq<Instr>, rank: seq<nat>, q: int, code': seq<Instr>)
    requires Ranked(code, rank) && 0 <= q < |code| && HasLabel(code[q]) && Rewrites(code, rank, q, code')
    ensures KeepsRuns(code, code')
  {
    forall subject, c, r | Reaches(code, subject, c, r) && (r.Matched? || r.GaveUp?)
      ensures Reaches(code', subject, c, r)
    {
      var n: nat :| Steps(code, subject, c, n) == r;
      RewriteSimulates(code, rank, q, code', subject, c, c, n);
    }
  }

  /** What the optimiser needs and keeps. */
  ghost predicate Optimizable(code: seq<Instr>, rank: seq<nat>) {
    Ranked(code, rank) && JumpsPadded(code)
  }

  lemma KeepsRunsTrans(a: seq<Instr>, b: seq<Instr>, c: seq<Instr>)
    requires KeepsRuns(a, b) && KeepsRuns(b, c)
    ensures KeepsRuns(a, c)
  {
  }

  /** A better label. */
  lemma LabelRewrite(code: seq<Instr>, rank: seq<nat>, q: int, d: int)
    requires Optimizable(code, rank) && 0 <= q < |code| && HasLabel(code[q])
    requires d == FinalTarget(code, rank, Target(code, q))
    ensures var code' := code[q := WithOffset(code[q], d - q)]; Optimizable(code', rank) && KeepsRuns(code, code')
  {
    hide KeepsRuns;
    var code' := code[q := WithOffset(code[q], d - q)];
    assert Rewrites(code, rank, q, code');
    RewriteRanked(code, rank, q, code');
    RewriteKeepsRuns(code, rank, q, code');
  }

  /** A jump to an instruction without a label. */
  lemma JumpAwayRewrite(code: seq<Instr>, rank: seq<nat>, q: int)
    requires Optimizable(code, rank) && 0 <= q < |code| && code[q].IJmp?
    requires JumpsAway(code[FinalTarget(code, rank, q)])
    ensures q + 1 < |code|
    ensures var code' := code[q := code[FinalTarget(code, rank, q)]][q + 1 := IAny];
            Optimizable(code', rank) && KeepsRuns(code, code')
  {
    hide KeepsRuns;
    var code' := code[q := code[FinalTarget(code, rank, q)]][q + 1 := IAny];
    assert Rewrites(code, rank, q, code');
    RewriteRanked(code, rank, q, code');
    RewriteKeepsRuns(code, rank, q, code');
  }

  /** A jump to a commit. */
  lemma JumpCommitRewrite(code: seq<Instr>, rank: seq<nat>, q: int, d: int)
    requires Optimizable(code, rank) && 0 <= q < |code| && code[q].IJmp?
    requires CommitLike(code[FinalTarget(code, rank, q)])
    requires d == FinalTarget(code, rank, Target(code, FinalTarget(code, rank, q)))
    ensures var code' := code[q := WithOffset(code[FinalTarget(code, rank, q)], d - q)];
            Optimizable(code', rank) && KeepsRuns(code, code')
  {
    hide KeepsRuns;
    var code' := code[q := WithOffset(code[FinalTarget(code, rank, q)], d - q)];
    assert Rewrites(code, rank, q, code');
    RewriteRanked(code, rank, q, code');
    RewriteKeepsRuns(code, rank, q, code');
  }

  // ---------------------------------------------------------------------------
  // What the pass achieves
  // ---------------------------------------------------------------------------

  /** The label at `q`, if there is one, leads to no jump; and a jump leads to nothing that could be in its place. */
  predicate Straight(code: seq<Instr>, q: int)
    requires 0 <= q < |code|
  {
    HasLabel(code[q]) ==>
      var t := q + code[q].off;
      0 <= t < |code| && !code[t].IJmp? && (code[q].IJmp? ==> !JumpsAway(code[t]) && !CommitLike(code[t]))
  }

  /** Going from instruction to instruction, from `q` on, all labels are straight. */
  ghost predicate AllStraight(code: seq<Instr>, q: nat)
    decreases |code| - q
  {
    q >= |code| || (Straight(code, q) && AllStraight(code, q + SizeI(code[q])))
  }

  /** They are up to `end`, and one gets there. */
  ghost predicate StraightTo(code: seq<Instr>, q: nat, end: nat)
    decreases end - q
  {
    q == end || (q < end && q < |code| && Straight(code, q) && StraightTo(code, q + SizeI(code[q]), end))
  }

  /** A rewrite at `i` changes nothing but the instruction there, and the slot behind a jump that is replaced. What was
      no jump stays none, and stays what it is but for its label. */
  ghost predicate RewritesAt(code: seq<Instr>, code': seq<Instr>, i: int)
    requires 0 <= i < |code|
  {
    && |code'| == |code|
    && (forall p :: 0 <= p < |code| && p != i && p != i + 1 ==> code'[p] == code[p])
    && (!code[i].IJmp? ==>
          !code'[i].IJmp? && JumpsAway(code'[i]) == JumpsAway(code[i]) && CommitLike(code'[i]) == CommitLike(code[i]))
    && (i + 1 < |code| ==> code'[i + 1] == code[i + 1] || code'[i + 1] == IAny)
  }

  lemma StraightStays(code: seq<Instr>, code': seq<Instr>, i: int, q: int)
    requires 0 <= q < i < |code| && RewritesAt(code, code', i) && Straight(code, q)
    ensures Straight(code', q)
  {
  }

  lemma {:induction false} StraightToStays(code: seq<Instr>, code': seq<Instr>, i: nat, q: nat)
    requires q <= i < |code| && RewritesAt(code, code', i) && StraightTo(code, q, i)
    ensures StraightTo(code', q, i)
    decreases i - q
  {
    if q < i {
      StraightStays(code, code', i, q);
      assert code'[q] == code[q];
      hide Straight, RewritesAt;
      StraightToStays(code, code', i, q + SizeI(code[q]));
    }
  }

  lemma {:induction false} StraightToNext(code: seq<Instr>, q: nat, i: nat)
    requires q <= i < |code| && StraightTo(code, q, i) && Straight(code, i)
    ensures StraightTo(code, q, i + SizeI(code[i]))
    decreases i - q
  {
    hide Straight;
    if q < i { StraightToNext(code, q + SizeI(code[q]), i); }
  }

  lemma {:induction false} StraightToEnd(code: seq<Instr>, q: nat, i: nat)
    requires q <= i && |code| <= i && StraightTo(code, q, i)
    ensures AllStraight(code, q)
    decreases i - q
  {
    hide Straight;
    if q < i { StraightToEnd(code, q + SizeI(code[q]), i); }
  }
}
