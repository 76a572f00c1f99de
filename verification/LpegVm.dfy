/** The LPeg virtual machine (3rd/lpeg/lpvm.c), opcodes without captures and calls. */
module LpegVm {
  import opened LpegTree

  /** One slot of the code array. An instruction keeps its operands with its opcode and is
      followed by `Pad` slots for the space that the C code uses for them, so that sizes,
      positions and offsets are those of the C code. */
  datatype Instr =
    | IAny
    | IChar(c: Byte)
    | ISet(cs: Charset)
    | ITestAny(off: int)
    | ITestChar(c: Byte, off: int)
    | ITestSet(cs: Charset, off: int)
    | ISpan(cs: Charset)
    | IBehind(n: nat)
    | IEnd
    | IChoice(off: int)
    | IJmp(off: int)
    | ICommit(off: int)
    | IPartialCommit(off: int)
    | IBackCommit(off: int)
    | IFailTwice
    | IFail
    | Pad

  /** CHARSETINSTSIZE: an opcode slot plus 32 bytes of charset. */
  const CHARSET_INST_SIZE := 9

  function SizeI(ins: Instr): (n: nat)
    ensures n >= 1
  {
    match ins
    case ISet(_) => CHARSET_INST_SIZE
    case ISpan(_) => CHARSET_INST_SIZE
    case ITestSet(_, _) => CHARSET_INST_SIZE + 1
    case ITestAny(_) => 2
    case ITestChar(_, _) => 2
    case IChoice(_) => 2
    case IJmp(_) => 2
    case ICommit(_) => 2
    case IPartialCommit(_) => 2
    case IBackCommit(_) => 2
    case _ => 1
  }

  predicate HasLabel(ins: Instr) {
    ins.ITestAny? || ins.ITestChar? || ins.ITestSet? || ins.IChoice? || ins.IJmp?
    || ins.ICommit? || ins.IPartialCommit? || ins.IBackCommit?
  }

  /** A backtrack entry: where to go on failure and the subject position to go back to. */
  datatype Entry = Entry(p: int, s: nat)

  /** The address of the `giveup` instruction, which is outside the code array. */
  const GIVEUP := -1

  /** A machine state, or how `match` ended. `Stuck` stands for a violated assertion of the
      C code, a jump out of the code or the execution of an operand slot. */
  datatype Config =
    | Run(p: int, s: nat, stack: seq<Entry>)
    | Matched(pos: nat)
    | GaveUp
    | Stuck

  /** The code at label `fail`: go back to the last choice. */
  function Fail(stack: seq<Entry>): Config {
    if stack == [] then Stuck
    else Run(stack[|stack| - 1].p, stack[|stack| - 1].s, stack[..|stack| - 1])
  }

  function Span(cs: Charset, subject: seq<Byte>, s: nat): (e: nat)
    requires s <= |subject|
    ensures s <= e <= |subject|
    decreases |subject| - s
  {
    if s < |subject| && subject[s] in cs then Span(cs, subject, s + 1) else s
  }

  /** One turn of the loop of `match`. */
  function Step(code: seq<Instr>, subject: seq<Byte>, c: Config): Config {
    if !c.Run? then c
    else if c.p == GIVEUP then (if c.stack == [] then GaveUp else Stuck)
    else if c.p < 0 || c.p >= |code| || c.s > |subject| then Stuck
    else
      var Run(p, s, stack) := c;
      match code[p]
      case IEnd => if |stack| == 1 then Matched(s) else Stuck
      case IAny => if s < |subject| then Run(p + 1, s + 1, stack) else Fail(stack)
      case ITestAny(off) => if s < |subject| then Run(p + 2, s, stack) else Run(p + off, s, stack)
      case IChar(ch) =>
        if s < |subject| && subject[s] == ch then Run(p + 1, s + 1, stack) else Fail(stack)
      case ITestChar(ch, off) =>
        if s < |subject| && subject[s] == ch then Run(p + 2, s, stack) else Run(p + off, s, stack)
      case ISet(cs) =>
        if s < |subject| && subject[s] in cs then Run(p + CHARSET_INST_SIZE, s + 1, stack) else Fail(stack)
      case ITestSet(cs, off) =>
        if s < |subject| && subject[s] in cs then Run(p + 1 + CHARSET_INST_SIZE, s, stack)
        else Run(p + off, s, stack)
      case IBehind(n) => if n > s then Fail(stack) else Run(p + 1, s - n, stack)
      case ISpan(cs) => Run(p + CHARSET_INST_SIZE, Span(cs, subject, s), stack)
      case IJmp(off) => Run(p + off, s, stack)
      case IChoice(off) => Run(p + 2, s, stack + [Entry(p + off, s)])
      case ICommit(off) =>
        if stack == [] then Stuck else Run(p + off, s, stack[..|stack| - 1])
      case IPartialCommit(off) =>
        if stack == [] then Stuck
        else Run(p + off, s, stack[..|stack| - 1] + [Entry(stack[|stack| - 1].p, s)])
      case IBackCommit(off) =>
        if stack == [] then Stuck else Run(p + off, stack[|stack| - 1].s, stack[..|stack| - 1])
      case IFailTwice => if stack == [] then Stuck else Fail(stack[..|stack| - 1])
      case IFail => Fail(stack)
      case Pad => Stuck
  }

  function Steps(code: seq<Instr>, subject: seq<Byte>, c: Config, n: nat): Config
    decreases n
  {
    if n == 0 then c else Steps(code, subject, Step(code, subject, c), n - 1)
  }

  ghost predicate Reaches(code: seq<Instr>, subject: seq<Byte>, a: Config, b: Config) {
    exists n: nat :: Steps(code, subject, a, n) == b
  }

  /** The state in which `match` starts. */
  function Start(i: nat): Config {
    Run(0, i, [Entry(GIVEUP, i)])
  }

  lemma {:induction false} StepsAdd(code: seq<Instr>, subject: seq<Byte>, a: Config, m: nat, n: nat)
    ensures Steps(code, subject, a, m + n) == Steps(code, subject, Steps(code, subject, a, m), n)
    decreases m
  {
    if m > 0 { StepsAdd(code, subject, Step(code, subject, a), m - 1, n); }
  }

  lemma ReachesRefl(code: seq<Instr>, subject: seq<Byte>, a: Config)
    ensures Reaches(code, subject, a, a)
  {
    assert Steps(code, subject, a, 0) == a;
  }

  lemma ReachesStep(code: seq<Instr>, subject: seq<Byte>, a: Config)
    ensures Reaches(code, subject, a, Step(code, subject, a))
  {
    assert Steps(code, subject, a, 1) == Steps(code, subject, Step(code, subject, a), 0);
  }

  lemma ReachesTrans(code: seq<Instr>, subject: seq<Byte>, a: Config, b: Config, c: Config)
    requires Reaches(code, subject, a, b) && Reaches(code, subject, b, c)
    ensures Reaches(code, subject, a, c)
  {
    var m: nat :| Steps(code, subject, a, m) == b;
    var n: nat :| Steps(code, subject, b, n) == c;
    StepsAdd(code, subject, a, m, n);
  }

  /** A first step followed by a run. */
  lemma ReachesVia(code: seq<Instr>, subject: seq<Byte>, a: Config, c: Config)
    requires Reaches(code, subject, Step(code, subject, a), c)
    ensures Reaches(code, subject, a, c)
  {
    ReachesStep(code, subject, a);
    ReachesTrans(code, subject, a, Step(code, subject, a), c);
  }

  /** A run followed by a last step. */
  lemma ReachesThen(code: seq<Instr>, subject: seq<Byte>, a: Config, b: Config)
    requires Reaches(code, subject, a, b)
    ensures Reaches(code, subject, a, Step(code, subject, b))
  {
    ReachesStep(code, subject, b);
    ReachesTrans(code, subject, a, b, Step(code, subject, b));
  }

  lemma {:induction false} HaltedStays(code: seq<Instr>, subject: seq<Byte>, c: Config, n: nat)
    requires !c.Run?
    ensures Steps(code, subject, c, n) == c
    decreases n
  {
    if n > 0 { HaltedStays(code, subject, c, n - 1); }
  }

  /** The machine is deterministic: a run ends in at most one way. */
  lemma EndsOneWay(code: seq<Instr>, subject: seq<Byte>, a: Config, b: Config, c: Config)
    requires Reaches(code, subject, a, b) && Reaches(code, subject, a, c) && !b.Run? && !c.Run?
    ensures b == c
  {
    var m: nat :| Steps(code, subject, a, m) == b;
    var n: nat :| Steps(code, subject, a, n) == c;
    if m <= n {
      StepsAdd(code, subject, a, m, n - m);
      HaltedStays(code, subject, b, n - m);
    } else {
      StepsAdd(code, subject, a, n, m - n);
      HaltedStays(code, subject, c, m - n);
    }
  }
}
