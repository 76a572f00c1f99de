/** How pieces of LPeg bytecode run, independently of the trees they come from: each lemma takes what
    the inner pieces do and concludes what the composed code does. */
module LpegRun {
  import opened LpegTree
  import opened LpegVm
  import opened LpegGen

  /** `seg` is the code at position `pc`. */
  ghost predicate At(code: seq<Instr>, pc: int, seg: seq<Instr>) {
    0 <= pc && pc + |seg| <= |code| && code[pc..pc + |seg|] == seg
  }

  lemma AtSplit(code: seq<Instr>, pc: int, a: seq<Instr>, b: seq<Instr>)
    requires At(code, pc, a + b)
    ensures At(code, pc, a) && At(code, pc + |a|, b)
  {
    assert code[pc..pc + |a|] == code[pc..pc + |a + b|][..|a|] == a;
    assert code[pc + |a|..pc + |a| + |b|] == code[pc..pc + |a + b|][|a|..] == b;
  }

  /** The instruction at `pc`, with its operand slots. */
  ghost predicate Is(code: seq<Instr>, pc: int, ins: Instr) {
    && 0 <= pc && pc + SizeI(ins) <= |code| && code[pc] == ins
    && forall k :: pc < k < pc + SizeI(ins) ==> code[k] == Pad
  }

  lemma AtEmit(code: seq<Instr>, pc: int, ins: Instr)
    requires At(code, pc, Emit(ins))
    ensures Is(code, pc, ins)
  {
    assert forall k :: pc <= k < pc + SizeI(ins) ==> code[k] == code[pc..pc + |Emit(ins)|][k - pc];
  }

  // Where the pieces of a construct are.

  lemma TestChoiceParts(code: seq<Instr>, pc: int, test: seq<Instr>, g1: seq<Instr>, g2: seq<Instr>, skip: bool)
    requires At(code, pc, TestChoiceCode(test, g1, g2, skip))
    ensures At(code, pc, test) && At(code, pc + |test|, g1)
    ensures var mid := pc + |test| + |g1|;
            At(code, mid, JumpOver(g2, skip)) && At(code, mid + |JumpOver(g2, skip)|, g2)
    ensures |TestChoiceCode(test, g1, g2, skip)| == |test| + |g1| + |JumpOver(g2, skip)| + |g2|
  {
    var jmp := JumpOver(g2, skip);
    hide JumpOver;
    AtSplit(code, pc, test + g1 + jmp, g2);
    AtSplit(code, pc, test + g1, jmp);
    AtSplit(code, pc, test, g1);
  }

  lemma PlainChoiceParts(code: seq<Instr>, pc: int, test: seq<Instr>, g1: seq<Instr>, g2: seq<Instr>)
    requires At(code, pc, PlainChoiceCode(test, g1, g2))
    ensures At(code, pc, test)
    ensures var c0 := pc + |test|;
            && Is(code, c0, IChoice(2 + |g1| + 2)) && At(code, c0 + 2, g1)
            && Is(code, c0 + 2 + |g1|, ICommit(2 + |g2|)) && At(code, c0 + 2 + |g1| + 2, g2)
    ensures |PlainChoiceCode(test, g1, g2)| == |test| + 2 + |g1| + 2 + |g2|
  {
    var choice, commit := Emit(IChoice(2 + |g1| + 2)), Emit(ICommit(2 + |g2|));
    AtSplit(code, pc, test + choice + g1 + commit, g2);
    AtSplit(code, pc, test + choice + g1, commit);
    AtSplit(code, pc, test + choice, g1);
    AtSplit(code, pc, test, choice);
    AtEmit(code, pc + |test|, IChoice(2 + |g1| + 2));
    AtEmit(code, pc + |test| + 2 + |g1|, ICommit(2 + |g2|));
  }

  lemma TestLoopParts(code: seq<Instr>, pc: int, test: seq<Instr>, g: seq<Instr>)
    requires At(code, pc, TestLoopCode(test, g))
    ensures At(code, pc, test) && At(code, pc + |test|, g)
    ensures Is(code, pc + |test| + |g|, IJmp(-(|test| + |g|)))
    ensures |TestLoopCode(test, g)| == |test| + |g| + 2
  {
    var jmp := IJmp(-(|test| + |g|));
    AtSplit(code, pc, test + g, Emit(jmp));
    AtSplit(code, pc, test, g);
    AtEmit(code, pc + |test| + |g|, jmp);
  }

  lemma ChoiceLoopParts(code: seq<Instr>, pc: int, test: seq<Instr>, g: seq<Instr>, opt: bool)
    requires At(code, pc, ChoiceLoopCode(test, g, opt))
    ensures At(code, pc, test)
    ensures var c0 := pc + |test|;
            && Is(code, c0, LoopEntry(g, opt)) && At(code, c0 + 2, g)
            && Is(code, c0 + 2 + |g|, IPartialCommit(-|g|))
    ensures |ChoiceLoopCode(test, g, opt)| == |test| + 2 + |g| + 2
  {
    var entry, back := LoopEntry(g, opt), IPartialCommit(-|g|);
    AtSplit(code, pc, test + Emit(entry) + g, Emit(back));
    AtSplit(code, pc, test + Emit(entry), g);
    AtSplit(code, pc, test, Emit(entry));
    AtEmit(code, pc + |test|, entry);
    AtEmit(code, pc + |test| + 2 + |g|, back);
  }

  lemma NotParts(code: seq<Instr>, pc: int, test: seq<Instr>, g: seq<Instr>)
    requires At(code, pc, NotCode(test, g))
    ensures At(code, pc, test)
    ensures var c0 := pc + |test|;
            Is(code, c0, IChoice(2 + |g| + 1)) && At(code, c0 + 2, g) && Is(code, c0 + 2 + |g|, IFailTwice)
    ensures |NotCode(test, g)| == |test| + 2 + |g| + 1
  {
    var choice := Emit(IChoice(2 + |g| + 1));
    AtSplit(code, pc, test + choice + g, Emit(IFailTwice));
    AtSplit(code, pc, test + choice, g);
    AtSplit(code, pc, test, choice);
    AtEmit(code, pc + |test|, IChoice(2 + |g| + 1));
    AtEmit(code, pc + |test| + 2 + |g|, IFailTwice);
  }

  lemma AndParts(code: seq<Instr>, pc: int, g: seq<Instr>)
    requires At(code, pc, AndCode(g))
    ensures var c := pc + 2 + |g|;
            && Is(code, pc, IChoice(2 + |g| + 2)) && At(code, pc + 2, g)
            && Is(code, c, IBackCommit(3)) && Is(code, c + 2, IFail)
    ensures |AndCode(g)| == 2 + |g| + 3
  {
    var choice, commit := Emit(IChoice(2 + |g| + 2)), Emit(IBackCommit(2 + 1));
    AtSplit(code, pc, choice + g + commit, Emit(IFail));
    AtSplit(code, pc, choice + g, commit);
    AtSplit(code, pc, choice, g);
    AtEmit(code, pc, IChoice(2 + |g| + 2));
    AtEmit(code, pc + 2 + |g|, IBackCommit(3));
    AtEmit(code, pc + 2 + |g| + 2, IFail);
  }

  // What the pieces do.

  /** The follow set promises that what comes next fails at `j`. */
  ghost predicate FollowFails(fl: Charset, s: seq<Byte>, j: nat) {
    j < |s| && s[j] !in fl
  }

  /** Code of a tree that is not the tail of an optional pattern, where the tree's result is `r`: it
      leaves the stack as it was and goes to `end` with the position of the match, or fails. It may
      also fail after a match when the follow set says that what comes next would fail there anyway. */
  ghost predicate PlainOutcome(r: Option<nat>, fl: Charset, code: seq<Instr>, pc: int, end: int,
                               s: seq<Byte>, i: nat, stack: seq<Entry>)
  {
    if r.None? then Reaches(code, s, Run(pc, i, stack), Fail(stack))
    else
      || Reaches(code, s, Run(pc, i, stack), Run(end, r.value, stack))
      || (FollowFails(fl, s, r.value) && Reaches(code, s, Run(pc, i, stack), Fail(stack)))
  }

  /** The choice on top of the stack, with another saved position. */
  function Retop(stack: seq<Entry>, x: nat): seq<Entry>
    requires stack != []
  {
    stack[..|stack| - 1] + [Entry(stack[|stack| - 1].p, x)]
  }

  /** Code at the tail of an optional pattern, whose choice is on top of the stack: after a match it
      is at its end with that choice still there, or it has left through that choice. */
  ghost predicate TailOutcome(r: Option<nat>, code: seq<Instr>, pc: int, end: int,
                              s: seq<Byte>, i: nat, stack: seq<Entry>)
    requires stack != []
  {
    if r.None? then Reaches(code, s, Run(pc, i, stack), Fail(stack))
    else
      || (exists x: nat :: Reaches(code, s, Run(pc, i, stack), Run(end, r.value, Retop(stack, x))))
      || Reaches(code, s, Run(pc, i, stack), Run(stack[|stack| - 1].p, r.value, stack[..|stack| - 1]))
  }

  /** The tail form is only used where nothing is known about what follows. */
  ghost predicate OptOk(opt: bool, fl: Charset, stack: seq<Entry>) {
    opt ==> stack != [] && fl == FULLSET
  }

  ghost predicate Outcome(r: Option<nat>, opt: bool, fl: Charset, code: seq<Instr>, pc: int, end: int,
                          s: seq<Byte>, i: nat, stack: seq<Entry>)
    requires OptOk(opt, fl, stack)
  {
    if opt then TailOutcome(r, code, pc, end, s, i, stack)
    else PlainOutcome(r, fl, code, pc, end, s, i, stack)
  }

  /** A run up to the start of a piece of code and the outcome of that piece. */
  lemma OutcomeVia(r: Option<nat>, opt: bool, fl: Charset, code: seq<Instr>, pc: int, pc': int, end: int,
                   s: seq<Byte>, i: nat, i': nat, stack: seq<Entry>)
    requires OptOk(opt, fl, stack)
    requires Reaches(code, s, Run(pc, i, stack), Run(pc', i', stack))
    requires Outcome(r, opt, fl, code, pc', end, s, i', stack)
    ensures Outcome(r, opt, fl, code, pc, end, s, i, stack)
  {
    var a, b := Run(pc, i, stack), Run(pc', i', stack);
    forall c | Reaches(code, s, b, c)
      ensures Reaches(code, s, a, c)
    {
      ReachesTrans(code, s, a, b, c);
    }
  }

  /** A plain outcome that needs no help from the follow set is also a tail outcome. */
  lemma PlainIsOutcome(r: Option<nat>, opt: bool, fl: Charset, code: seq<Instr>, pc: int, end: int,
                       s: seq<Byte>, i: nat, stack: seq<Entry>)
    requires OptOk(opt, fl, stack)
    requires PlainOutcome(r, fl, code, pc, end, s, i, stack)
    ensures Outcome(r, opt, fl, code, pc, end, s, i, stack)
  {
    if opt { assert Retop(stack, stack[|stack| - 1].s) == stack; }
  }

  /** `<p1> <p2>`: when `p1` failed because of the follow set, `p2` fails or its match is one that
      the outer follow set rejects. */
  lemma SeqRuns(r1: Option<nat>, r2: Option<nat>, opt: bool, fl1: Charset, fl: Charset, code: seq<Instr>,
                pc: int, mid: int, end: int, s: seq<Byte>, i: nat, stack: seq<Entry>)
    requires OptOk(opt, fl, stack)
    requires PlainOutcome(r1, fl1, code, pc, mid, s, i, stack)
    requires r1.Some? ==> Outcome(r2, opt, fl, code, mid, end, s, r1.value, stack)
    requires r1.Some? && FollowFails(fl1, s, r1.value) ==>
               r2.None? || (r2.value == r1.value && FollowFails(fl, s, r2.value))
    ensures Outcome(if r1.None? then None else r2, opt, fl, code, pc, end, s, i, stack)
  {
    if r1.Some? {
      if Reaches(code, s, Run(pc, i, stack), Run(mid, r1.value, stack)) {
        OutcomeVia(r2, opt, fl, code, pc, mid, end, s, i, r1.value, stack);
      }
    }
  }

  /** The layout of `GenChoice` when a test alone decides: past the test comes the first branch and a jump over
      the second, which is where the test leads when it fails. */
  lemma TestChoiceRuns(r1: Option<nat>, r2: Option<nat>, hit: bool, opt: bool, fl: Charset, code: seq<Instr>,
                       pc: int, b: int, mid: int, l1: int, end: int, s: seq<Byte>, i: nat, stack: seq<Entry>)
    requires OptOk(opt, fl, stack)
    requires Step(code, s, Run(pc, i, stack)) == Run(if hit then b else l1, i, stack)
    requires hit ==> PlainOutcome(r1, fl, code, b, mid, s, i, stack)
    requires mid == end || Is(code, mid, IJmp(end - mid))
    requires r1.Some? ==> r1.value <= |s|
    requires Outcome(r2, opt, fl, code, l1, end, s, i, stack)
    requires !hit ==> r1.None?
    requires hit && r1.None? ==> r2.None? || FollowFails(fl, s, r2.value)
    ensures Outcome(if r1.Some? then r1 else r2, opt, fl, code, pc, end, s, i, stack)
  {
    var from := Run(pc, i, stack);
    ReachesStep(code, s, from);
    if hit {
      OutcomeVia(r1, false, fl, code, pc, b, mid, s, i, i, stack);
      if r1.Some? && mid != end && Reaches(code, s, from, Run(mid, r1.value, stack)) {
        ReachesThen(code, s, from, Run(mid, r1.value, stack));
      }
      PlainIsOutcome(if r1.Some? then r1 else r2, opt, fl, code, pc, end, s, i, stack);
    } else {
      OutcomeVia(r2, opt, fl, code, pc, l1, end, s, i, i, stack);
    }
  }

  /** The layout of `GenChoice` for an option inside an option: the choice that is there already is moved up to
      the current position, and the pattern follows. */
  lemma TailOptionRuns(r: Option<nat>, code: seq<Instr>, pc: int, end: int,
                       s: seq<Byte>, i: nat, stack: seq<Entry>)
    requires stack != [] && i <= |s| && Is(code, pc, IPartialCommit(2))
    requires TailOutcome(r, code, pc + 2, end, s, i, Retop(stack, i))
    ensures TailOutcome(if r.Some? then r else Some(i), code, pc, end, s, i, stack)
  {
    var a, b := Run(pc, i, stack), Run(pc + 2, i, Retop(stack, i));
    assert Step(code, s, a) == b;
    ReachesStep(code, s, a);
    assert forall x: nat :: Retop(Retop(stack, i), x) == Retop(stack, x);
    forall c | Reaches(code, s, b, c)
      ensures Reaches(code, s, a, c)
    {
      ReachesTrans(code, s, a, b, c);
    }
  }

  /** A branch between a choice and a commit matches: the choice is gone and the run is where the commit leads.
      In the tail form, where choice and commit lead to the same place, the run may also have left through the
      choice. */
  lemma ChoiceCommits(j: nat, tail: bool, code: seq<Instr>, pc: int, l1: int, c: int, end: int,
                      s: seq<Byte>, i: nat, stack: seq<Entry>)
    requires i <= |s| && j <= |s| && Is(code, pc, IChoice(l1 - pc)) && Is(code, c, ICommit(end - c))
    requires tail ==> l1 == end
    requires Outcome(Some(j), tail, FULLSET, code, pc + 2, c, s, i, stack + [Entry(l1, i)])
    ensures Reaches(code, s, Run(pc, i, stack), Run(end, j, stack))
  {
    var inner := stack + [Entry(l1, i)];
    var from := Run(pc + 2, i, inner);
    assert inner[..|inner| - 1] == stack;
    if tail {
      if exists x: nat :: Reaches(code, s, from, Run(c, j, Retop(inner, x))) {
        var x: nat :| Reaches(code, s, from, Run(c, j, Retop(inner, x)));
        assert Step(code, s, Run(c, j, Retop(inner, x))) == Run(end, j, stack);
        ReachesThen(code, s, from, Run(c, j, Retop(inner, x)));
      }
    } else {
      assert Step(code, s, Run(c, j, inner)) == Run(end, j, stack);
      ReachesThen(code, s, from, Run(c, j, inner));
    }
    assert Step(code, s, Run(pc, i, stack)) == from;
    ReachesVia(code, s, Run(pc, i, stack), Run(end, j, stack));
  }

  /** A branch after a choice fails: the run is where the choice leads, as if nothing had happened. */
  lemma ChoiceBacktracks(code: seq<Instr>, pc: int, l1: int, s: seq<Byte>, i: nat, stack: seq<Entry>)
    requires i <= |s| && Is(code, pc, IChoice(l1 - pc))
    requires Reaches(code, s, Run(pc + 2, i, stack + [Entry(l1, i)]), Fail(stack + [Entry(l1, i)]))
    ensures Reaches(code, s, Run(pc, i, stack), Run(l1, i, stack))
  {
    var inner := stack + [Entry(l1, i)];
    assert Fail(inner) == Run(l1, i, stack);
    assert Step(code, s, Run(pc, i, stack)) == Run(pc + 2, i, inner);
    ReachesVia(code, s, Run(pc, i, stack), Run(l1, i, stack));
  }

  /** The layout of `GenChoice` that backtracks, from its choice on, which the run comes to from `pc`. */
  lemma PlainChoiceRuns(r1: Option<nat>, r2: Option<nat>, opt: bool, tail: bool, fl: Charset,
                        code: seq<Instr>, pc: int, c0: int, c: int, l1: int, end: int,
                        s: seq<Byte>, i: nat, stack: seq<Entry>)
    requires OptOk(opt, fl, stack) && i <= |s| && (r1.Some? ==> r1.value <= |s|)
    requires Reaches(code, s, Run(pc, i, stack), Run(c0, i, stack))
    requires Is(code, c0, IChoice(l1 - c0)) && Is(code, c, ICommit(end - c)) && (tail ==> l1 == end)
    requires Outcome(r1, tail, FULLSET, code, c0 + 2, c, s, i, stack + [Entry(l1, i)])
    requires Outcome(r2, opt, fl, code, l1, end, s, i, stack)
    ensures Outcome(if r1.Some? then r1 else r2, opt, fl, code, pc, end, s, i, stack)
  {
    if r1.Some? {
      ChoiceCommits(r1.value, tail, code, c0, l1, c, end, s, i, stack);
      ReachesTrans(code, s, Run(pc, i, stack), Run(c0, i, stack), Run(end, r1.value, stack));
      PlainIsOutcome(r1, opt, fl, code, pc, end, s, i, stack);
    } else {
      ChoiceBacktracks(code, c0, l1, s, i, stack);
      ReachesTrans(code, s, Run(pc, i, stack), Run(c0, i, stack), Run(l1, i, stack));
      OutcomeVia(r2, opt, fl, code, pc, l1, end, s, i, i, stack);
    }
  }

  /** One turn of the loop of `GenRep` that a test ends. When the body fails inside, the follow set must reject
      the current character; `rest` is the result of the loop from the next position. */
  lemma TestLoopRuns(r: Option<nat>, rest: Option<nat>, hit: bool, fl: Charset, code: seq<Instr>,
                     pc: int, b: int, mid: int, end: int, s: seq<Byte>, i: nat, stack: seq<Entry>)
    requires Step(code, s, Run(pc, i, stack)) == Run(if hit then b else end, i, stack)
    requires hit ==> PlainOutcome(r, FULLSET, code, b, mid, s, i, stack)
    requires Is(code, mid, IJmp(pc - mid))
    requires !hit ==> r.None?
    requires r.Some? ==> r.value <= |s| && PlainOutcome(rest, fl, code, pc, end, s, r.value, stack)
    requires hit && r.None? ==> FollowFails(fl, s, i)
    ensures PlainOutcome(if r.Some? then rest else Some(i), fl, code, pc, end, s, i, stack)
  {
    var from := Run(pc, i, stack);
    ReachesStep(code, s, from);
    if hit {
      OutcomeVia(r, false, FULLSET, code, pc, b, mid, s, i, i, stack);
      if r.Some? {
        ReachesThen(code, s, from, Run(mid, r.value, stack));
        OutcomeVia(rest, false, fl, code, pc, pc, end, s, i, r.value, stack);
      }
    }
  }

  /** One turn of the loop of `GenRep` that a partial commit closes, under a choice that leads to `exit`. */
  lemma CommitLoopRuns(r: Option<nat>, last: nat, code: seq<Instr>, l1: int, c: int, exit: int,
                       s: seq<Byte>, i: nat, stack: seq<Entry>)
    requires Is(code, c, IPartialCommit(l1 - c))
    requires PlainOutcome(r, FULLSET, code, l1, c, s, i, stack + [Entry(exit, i)])
    requires r.Some? ==> r.value <= |s|
    requires r.Some? ==> Reaches(code, s, Run(l1, r.value, stack + [Entry(exit, r.value)]), Run(exit, last, stack))
    requires r.None? ==> last == i
    ensures Reaches(code, s, Run(l1, i, stack + [Entry(exit, i)]), Run(exit, last, stack))
  {
    var here := stack + [Entry(exit, i)];
    var from := Run(l1, i, here);
    if r.Some? {
      var next := Run(l1, r.value, stack + [Entry(exit, r.value)]);
      assert Step(code, s, Run(c, r.value, here)) == next;
      ReachesThen(code, s, from, Run(c, r.value, here));
      ReachesTrans(code, s, from, next, Run(exit, last, stack));
    } else {
      assert Fail(here) == Run(exit, i, stack);
    }
  }

  /** Entering the loop above, with a choice of its own or with the enclosing one. */
  lemma LoopEntryRuns(last: nat, hit: bool, opt: bool, fl: Charset, code: seq<Instr>, pc: int, c0: int, end: int,
                      s: seq<Byte>, i: nat, stack: seq<Entry>)
    requires OptOk(opt, fl, stack) && i <= |s|
    requires Reaches(code, s, Run(pc, i, stack), Run(if hit then c0 else end, i, stack))
    requires !hit ==> last == i
    requires Is(code, c0, if opt then IPartialCommit(2) else IChoice(end - c0))
    requires hit ==>
               var below, exit := if opt then stack[..|stack| - 1] else stack, if opt then stack[|stack| - 1].p else end;
               Reaches(code, s, Run(c0 + 2, i, below + [Entry(exit, i)]), Run(exit, last, below))
    ensures Outcome(Some(last), opt, fl, code, pc, end, s, i, stack)
  {
    if hit {
      var below, exit := if opt then stack[..|stack| - 1] else stack, if opt then stack[|stack| - 1].p else end;
      assert Step(code, s, Run(c0, i, stack)) == Run(c0 + 2, i, below + [Entry(exit, i)]);
      ReachesVia(code, s, Run(c0, i, stack), Run(exit, last, below));
      ReachesTrans(code, s, Run(pc, i, stack), Run(c0, i, stack), Run(exit, last, below));
    } else {
      PlainIsOutcome(Some(last), opt, fl, code, pc, end, s, i, stack);
    }
  }

  /** The layout of `GenNot` that backtracks: failing twice drops the choice too. */
  lemma NotRuns(r: Option<nat>, fl: Charset, code: seq<Instr>, pc: int, c: int, end: int,
                s: seq<Byte>, i: nat, stack: seq<Entry>)
    requires i <= |s| && (r.Some? ==> r.value <= |s|)
    requires Is(code, pc, IChoice(end - pc)) && Is(code, c, IFailTwice)
    requires PlainOutcome(r, FULLSET, code, pc + 2, c, s, i, stack + [Entry(end, i)])
    ensures PlainOutcome(if r.Some? then None else Some(i), fl, code, pc, end, s, i, stack)
  {
    var inner := stack + [Entry(end, i)];
    if r.Some? {
      assert inner[..|inner| - 1] == stack;
      assert Step(code, s, Run(pc, i, stack)) == Run(pc + 2, i, inner);
      ReachesThen(code, s, Run(pc + 2, i, inner), Run(c, r.value, inner));
      ReachesVia(code, s, Run(pc, i, stack), Fail(stack));
    } else {
      ChoiceBacktracks(code, pc, end, s, i, stack);
    }
  }

  /** The layout of `GenAnd` that backtracks: a match goes back and over the failure that follows. */
  lemma AndRuns(r: Option<nat>, fl: Charset, code: seq<Instr>, pc: int, c: int,
                s: seq<Byte>, i: nat, stack: seq<Entry>)
    requires i <= |s| && (r.Some? ==> r.value <= |s|)
    requires Is(code, pc, IChoice(c + 2 - pc)) && Is(code, c, IBackCommit(3)) && Is(code, c + 2, IFail)
    requires PlainOutcome(r, FULLSET, code, pc + 2, c, s, i, stack + [Entry(c + 2, i)])
    ensures PlainOutcome(if r.Some? then Some(i) else None, fl, code, pc, c + 3, s, i, stack)
  {
    var inner := stack + [Entry(c + 2, i)];
    if r.Some? {
      assert Step(code, s, Run(pc, i, stack)) == Run(pc + 2, i, inner);
      assert Step(code, s, Run(c, r.value, inner)) == Run(c + 3, i, stack);
      ReachesThen(code, s, Run(pc + 2, i, inner), Run(c, r.value, inner));
      ReachesVia(code, s, Run(pc, i, stack), Run(c + 3, i, stack));
    } else {
      ChoiceBacktracks(code, pc, c + 2, s, i, stack);
      ReachesThen(code, s, Run(pc, i, stack), Run(c + 2, i, stack));
    }
  }
}
