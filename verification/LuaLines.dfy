/** Lua's compressed line table, 3rd/lua/lcode.c and 3rd/lua/ldebug.c: one byte per instruction with the
    difference from the line before, and an absolute entry wherever the difference is too large or the last
    entry too far away. */
module LuaLines {

  const AbsLineInfo := -0x80
  const LimLineDiff := 0x80
  const MaxIwthAbs := 128

  datatype Abs = Abs(pc: nat, line: int)

  /** The debug information of a function. */
  datatype Proto = Proto(linedefined: int, lineinfo: seq<int>, abslineinfo: seq<Abs>)

  // ---------------------------------------------------------------------------
  // What a table means
  // ---------------------------------------------------------------------------

  /** The line that entry `pc` is relative to. */
  function Before(linedefined: int, lines: seq<int>, pc: nat): int
    requires pc <= |lines|
  {
    if pc == 0 then linedefined else lines[pc - 1]
  }

  /** The absolute entries are in order, in range, belong to marked instructions, and there is
      one for every `MaxIwthAbs` instructions. */
  ghost predicate AbsOk(p: Proto, lines: seq<int>) {
    && (forall i, j :: 0 <= i < j < |p.abslineinfo| ==> p.abslineinfo[i].pc < p.abslineinfo[j].pc)
    && (forall i :: 0 <= i < |p.abslineinfo| ==>
          && p.abslineinfo[i].pc < |p.lineinfo| == |lines|
          && p.lineinfo[p.abslineinfo[i].pc] == AbsLineInfo && p.abslineinfo[i].line == lines[p.abslineinfo[i].pc]
          && p.abslineinfo[i].pc <= (i + 1) * MaxIwthAbs)
    && |p.lineinfo| <= (|p.abslineinfo| + 1) * MaxIwthAbs
  }

  /** Entry `pc` is marked and has an absolute entry, or is the difference from the line before, in a signed byte. */
  ghost predicate EntryOk(p: Proto, lines: seq<int>, pc: nat)
    requires pc < |p.lineinfo| == |lines|
  {
    if p.lineinfo[pc] == AbsLineInfo then exists i :: 0 <= i < |p.abslineinfo| && p.abslineinfo[i].pc == pc
    else -0x80 < p.lineinfo[pc] == lines[pc] - Before(p.linedefined, lines, pc) < 0x80
  }

  /** The table holds these lines. */
  ghost predicate Encodes(p: Proto, lines: seq<int>) {
    && |p.lineinfo| == |lines| && AbsOk(p, lines)
    && forall pc :: 0 <= pc < |lines| ==> EntryOk(p, lines, pc)
  }

  // ---------------------------------------------------------------------------
  // Reading
  // ---------------------------------------------------------------------------

  /** The estimate of `getbaseline` never lies behind the entry that it looks for. */
  lemma EstimateIsLow(p: Proto, lines: seq<int>, pc: nat)
    requires Encodes(p, lines) && pc < |lines|
    ensures var i := pc / MaxIwthAbs - 1; i < 0 || (i < |p.abslineinfo| && p.abslineinfo[i].pc <= pc)
  {
    var i := pc / MaxIwthAbs - 1;
    assert (i + 1) * MaxIwthAbs <= pc;
  }

  /** `getbaseline`: the last absolute entry at or before `pc`, or the start of the function. */
  method GetBaseLine(p: Proto, pc: nat, ghost lines: seq<int>) returns (line: int, basepc: int)
    requires Encodes(p, lines) && pc < |lines|
    ensures -1 <= basepc <= pc
    ensures line == if basepc < 0 then p.linedefined else lines[basepc]
    ensures forall q :: basepc < q <= pc ==> p.lineinfo[q] != AbsLineInfo
  {
    var abs := p.abslineinfo;
    if |abs| == 0 || pc < abs[0].pc {
      forall q | 0 <= q <= pc ensures p.lineinfo[q] != AbsLineInfo { assert EntryOk(p, lines, q); }
      return p.linedefined, -1;
    }
    var i := pc / MaxIwthAbs - 1;
    EstimateIsLow(p, lines, pc);
    assert i < 0 || (i < |abs| && abs[i].pc <= pc);
    while i + 1 < |abs| && pc >= abs[i + 1].pc
      invariant -1 <= i < |abs| && (i >= 0 ==> abs[i].pc <= pc)
      decreases |abs| - i
    {
      i := i + 1;
    }
    forall q | abs[i].pc < q <= pc ensures p.lineinfo[q] != AbsLineInfo { assert EntryOk(p, lines, q); }
    return abs[i].line, abs[i].pc;
  }

  /** `luaG_getfuncline`: the line of instruction `pc`. */
  method GetFuncLine(p: Proto, pc: nat, ghost lines: seq<int>) returns (line: int)
    requires Encodes(p, lines) && pc < |lines|
    ensures line == lines[pc]
  {
    var basepc: int;
    line, basepc := GetBaseLine(p, pc, lines);
    while basepc < pc
      invariant -1 <= basepc <= pc && line == Before(p.linedefined, lines, basepc + 1)
      invariant forall q :: basepc < q <= pc ==> p.lineinfo[q] != AbsLineInfo
    {
      basepc := basepc + 1;
      assert EntryOk(p, lines, basepc);
      line := line + p.lineinfo[basepc];
    }
  }

  /** `changedline`: whether two instructions, the first one before the second, are on different lines. */
  method ChangedLine(p: Proto, oldpc: nat, newpc: nat, ghost lines: seq<int>) returns (changed: bool)
    requires Encodes(p, lines) && oldpc < newpc < |lines|
    ensures changed == (lines[oldpc] != lines[newpc])
  {
    if newpc - oldpc < MaxIwthAbs / 2 {
      var delta, pc := 0, oldpc;
      while true
        invariant oldpc <= pc < newpc && delta == lines[pc] - lines[oldpc]
        decreases newpc - pc
      {
        pc := pc + 1;
        assert EntryOk(p, lines, pc);
        if p.lineinfo[pc] == AbsLineInfo { break; }
        delta := delta + p.lineinfo[pc];
        if pc == newpc { return delta != 0; }
      }
    }
    var a := GetFuncLine(p, oldpc, lines);
    var b := GetFuncLine(p, newpc, lines);
    return a != b;
  }

  // ---------------------------------------------------------------------------
  // Writing
  // ---------------------------------------------------------------------------

  function Magnitude(x: int): nat { if x < 0 then -x else x }

  /** What the code generator keeps: the table, the line last saved, and the number of entries since the last
      absolute one. */
  datatype Gen = Gen(table: Proto, previousline: int, iwthabs: int)

  /** `savelineinfo`, for an instruction at the end of the code. */
  function Save(g: Gen, line: int): Gen {
    var linedif := line - g.previousline;
    var p := g.table;
    if Magnitude(linedif) >= LimLineDiff || g.iwthabs >= MaxIwthAbs then
      Gen(Proto(p.linedefined, p.lineinfo + [AbsLineInfo], p.abslineinfo + [Abs(|p.lineinfo|, line)]), line, 1)
    else
      Gen(p.(lineinfo := p.lineinfo + [linedif]), line, g.iwthabs + 1)
  }

  /** `removelastlineinfo`. The line before an absolute entry is not known; instead the next entry is made
      absolute. */
  function Remove(g: Gen): Gen
    requires g.table.lineinfo != []
  {
    var p := g.table;
    var pc := |p.lineinfo| - 1;
    if p.lineinfo[pc] != AbsLineInfo then
      Gen(p.(lineinfo := p.lineinfo[..pc]), g.previousline - p.lineinfo[pc], g.iwthabs - 1)
    else
      var m := |p.abslineinfo|;
      Gen(Proto(p.linedefined, p.lineinfo[..pc], if m > 0 then p.abslineinfo[..m - 1] else []), g.previousline, MaxIwthAbs + 1)
  }

  /** The table holds these lines, and the counter is not behind. */
  ghost predicate Sound(g: Gen, lines: seq<int>) {
    && Encodes(g.table, lines)
    && |lines| - |g.table.abslineinfo| * MaxIwthAbs <= g.iwthabs <= MaxIwthAbs + 1
  }

  /** The line last saved is that of the last instruction, or will not be used. */
  ghost predicate Ready(g: Gen, lines: seq<int>) {
    Sound(g, lines) && (g.iwthabs >= MaxIwthAbs || g.previousline == Before(g.table.linedefined, lines, |lines|))
  }

  lemma SavedAbsolute(p: Proto, lines: seq<int>, line: int)
    requires Encodes(p, lines)
    ensures Encodes(Proto(p.linedefined, p.lineinfo + [AbsLineInfo], p.abslineinfo + [Abs(|p.lineinfo|, line)]), lines + [line])
  {
    var p', lines' := Proto(p.linedefined, p.lineinfo + [AbsLineInfo], p.abslineinfo + [Abs(|p.lineinfo|, line)]), lines + [line];
    var n := |p.abslineinfo|;
    assert p'.abslineinfo[n].pc == |lines|;
    forall pc | 0 <= pc < |lines'| ensures EntryOk(p', lines', pc) {
      if pc < |lines| {
        assert EntryOk(p, lines, pc);
        if p.lineinfo[pc] == AbsLineInfo {
          var i :| 0 <= i < n && p.abslineinfo[i].pc == pc;
          assert p'.abslineinfo[i].pc == pc;
        }
      }
    }
  }

  lemma SavedRelative(p: Proto, lines: seq<int>, line: int)
    requires Encodes(p, lines) && |lines| < (|p.abslineinfo| + 1) * MaxIwthAbs
    requires Magnitude(line - Before(p.linedefined, lines, |lines|)) < LimLineDiff
    ensures Encodes(p.(lineinfo := p.lineinfo + [line - Before(p.linedefined, lines, |lines|)]), lines + [line])
  {
    var p', lines' := p.(lineinfo := p.lineinfo + [line - Before(p.linedefined, lines, |lines|)]), lines + [line];
    forall pc | 0 <= pc < |lines'| ensures EntryOk(p', lines', pc) {
      if pc < |lines| { assert EntryOk(p, lines, pc); }
    }
  }

  /** The table without its last entry. */
  lemma Removed(p: Proto, lines: seq<int>)
    requires Encodes(p, lines) && lines != []
    ensures var n, m := |lines| - 1, |p.abslineinfo|;
      if p.lineinfo[n] == AbsLineInfo
      then m > 0 && p.abslineinfo[m - 1].pc == n && Encodes(Proto(p.linedefined, p.lineinfo[..n], p.abslineinfo[..m - 1]), lines[..n])
      else Encodes(p.(lineinfo := p.lineinfo[..n]), lines[..n])
  {
    var n, m := |lines| - 1, |p.abslineinfo|;
    assert EntryOk(p, lines, n);
    var abs' := if p.lineinfo[n] == AbsLineInfo then p.abslineinfo[..m - 1] else p.abslineinfo;
    var p', lines' := Proto(p.linedefined, p.lineinfo[..n], abs'), lines[..n];
    forall pc | 0 <= pc < n ensures EntryOk(p', lines', pc) {
      assert EntryOk(p, lines, pc);
      if p.lineinfo[pc] == AbsLineInfo {
        var i :| 0 <= i < m && p.abslineinfo[i].pc == pc;
        assert p'.abslineinfo[i].pc == pc;
      }
    }
  }

  lemma SaveReady(g: Gen, lines: seq<int>, line: int)
    requires Ready(g, lines)
    ensures Ready(Save(g, line), lines + [line])
  {
    if Magnitude(line - g.previousline) >= LimLineDiff || g.iwthabs >= MaxIwthAbs {
      SavedAbsolute(g.table, lines, line);
    } else {
      SavedRelative(g.table, lines, line);
    }
    hide Encodes;
  }

  /** Saving any line works if and only if the generator is ready. */
  lemma SaveExact(g: Gen, lines: seq<int>)
    requires Sound(g, lines)
    ensures Ready(g, lines) <==> forall line :: Encodes(Save(g, line).table, lines + [line])
  {
    if Ready(g, lines) {
      forall line ensures Encodes(Save(g, line).table, lines + [line]) { SaveReady(g, lines, line); }
    } else {
      var line := g.previousline;
      var lines' := lines + [line];
      assert !EntryOk(Save(g, line).table, lines', |lines|);
      assert !Encodes(Save(g, line).table, lines + [line]);
    }
  }

  /** Removing an entry leaves the table right. The generator stays ready unless a relative entry is removed
      when the line last saved is wrong and the counter is no higher than its maximum: that is, after an
      absolute and a relative entry have been removed already. */
  lemma RemoveExact(g: Gen, lines: seq<int>)
    requires Ready(g, lines) && lines != []
    ensures var n := |lines| - 1;
      && Sound(Remove(g), lines[..n])
      && (Ready(Remove(g), lines[..n]) <==>
            g.table.lineinfo[n] == AbsLineInfo || g.iwthabs > MaxIwthAbs || g.previousline == lines[n])
  {
    var n := |lines| - 1;
    assert EntryOk(g.table, lines, n);
    Removed(g.table, lines);
    hide Encodes, EntryOk;
  }

  /** A line right after a removal is always right: `luaK_fixline`, and removal followed by a new
      instruction. */
  lemma Replaced(g: Gen, lines: seq<int>, line: int)
    requires Ready(g, lines) && lines != [] && g.previousline == lines[|lines| - 1]
    ensures Ready(Save(Remove(g), line), lines[..|lines| - 1] + [line])
    ensures Save(Remove(g), line).previousline == line
  {
    RemoveExact(g, lines);
    SaveReady(Remove(g), lines[..|lines| - 1], line);
  }

  /** A new instruction, or another line for the last one, by `luaK_fixline` or by removing it and emitting
      one in its place. */
  datatype Op = Emit(line: int) | Replace(line: int)

  function LinesAfter(ops: seq<Op>): seq<int> {
    if ops == [] then []
    else
      var lines, op := LinesAfter(ops[..|ops| - 1]), ops[|ops| - 1];
      if op.Replace? && lines != [] then lines[..|lines| - 1] + [op.line] else lines + [op.line]
  }

  function GenAfter(linedefined: int, ops: seq<Op>): Gen {
    if ops == [] then Gen(Proto(linedefined, [], []), linedefined, 0)
    else
      var g, op := GenAfter(linedefined, ops[..|ops| - 1]), ops[|ops| - 1];
      Save(if op.Replace? && g.table.lineinfo != [] then Remove(g) else g, op.line)
  }

  /** After any sequence of these the table holds, for each instruction, the line last saved for it. */
  lemma {:induction false} RunReady(linedefined: int, ops: seq<Op>)
    ensures var g, lines := GenAfter(linedefined, ops), LinesAfter(ops);
      Ready(g, lines) && g.previousline == Before(linedefined, lines, |lines|) && g.table.linedefined == linedefined
  {
    if ops != [] {
      var front, op := ops[..|ops| - 1], ops[|ops| - 1];
      RunReady(linedefined, front);
      var g, lines := GenAfter(linedefined, front), LinesAfter(front);
      assert |g.table.lineinfo| == |lines|;
      if op.Replace? && lines != [] {
        Replaced(g, lines, op.line);
      } else {
        SaveReady(g, lines, op.line);
      }
      hide Ready, Encodes;
    }
  }

  /** Does instruction `pc` need an absolute entry? It does when its line is 128 lines or more away from that of the
      instruction before, or when there are 128 entries since the last absolute one. */
  predicate NeedsAbsolute(linedefined: int, lines: seq<int>, pc: nat)
    requires pc < |lines|
    decreases pc, 1
  {
    var d := lines[pc] - Before(linedefined, lines, pc);
    d <= -128 || d >= 128 || SinceAbsolute(linedefined, lines, pc) >= 128
  }

  function SinceAbsolute(linedefined: int, lines: seq<int>, pc: nat): nat
    requires pc <= |lines|
    decreases pc, 0
  {
    if pc == 0 then 0
    else if NeedsAbsolute(linedefined, lines, pc - 1) then 1
    else SinceAbsolute(linedefined, lines, pc - 1) + 1
  }

  function Emits(lines: seq<int>): seq<Op> {
    seq(|lines|, i requires 0 <= i < |lines| => Emit(lines[i]))
  }

  lemma {:induction false} SameBefore(linedefined: int, lines: seq<int>, n: nat, pc: nat)
    requires pc <= n <= |lines|
    ensures SinceAbsolute(linedefined, lines[..n], pc) == SinceAbsolute(linedefined, lines, pc)
    ensures pc < n ==> (NeedsAbsolute(linedefined, lines[..n], pc) <==> NeedsAbsolute(linedefined, lines, pc))
    decreases pc
  {
    if pc > 0 { SameBefore(linedefined, lines, n, pc - 1); }
  }

  /** The table has absolute entries exactly where they are needed, with the mark -128 in the byte, and the difference
      everywhere else. */
  ghost predicate Exact(g: Gen, linedefined: int, lines: seq<int>) {
    && |g.table.lineinfo| == |lines| && g.iwthabs == SinceAbsolute(linedefined, lines, |lines|)
    && g.previousline == Before(linedefined, lines, |lines|)
    && forall pc :: 0 <= pc < |lines| ==>
         g.table.lineinfo[pc] ==
           if NeedsAbsolute(linedefined, lines, pc) then -128 else lines[pc] - Before(linedefined, lines, pc)
  }

  lemma SaveKeepsExact(g: Gen, linedefined: int, lines: seq<int>)
    requires lines != [] && Exact(g, linedefined, lines[..|lines| - 1])
    ensures Exact(Save(g, lines[|lines| - 1]), linedefined, lines)
  {
    var n := |lines| - 1;
    AllSame(linedefined, lines, n);
    NextSince(linedefined, lines, n);
    NeedsIff(linedefined, lines, n);
    hide NeedsAbsolute, SinceAbsolute;
  }

  /** For every sequence of lines. */
  lemma {:induction false} EntriesExact(linedefined: int, lines: seq<int>)
    ensures Exact(GenAfter(linedefined, Emits(lines)), linedefined, lines)
  {
    if lines != [] {
      var n := |lines| - 1;
      var front := lines[..n];
      EntriesExact(linedefined, front);
      assert Emits(lines) == Emits(front) + [Emit(lines[n])];
      hide *;
      Emitted(linedefined, Emits(front), lines[n]);
      SaveKeepsExact(GenAfter(linedefined, Emits(front)), linedefined, lines);
    }
  }

  lemma AllSame(linedefined: int, lines: seq<int>, n: nat)
    requires n <= |lines|
    ensures SinceAbsolute(linedefined, lines[..n], n) == SinceAbsolute(linedefined, lines, n)
    ensures forall pc :: 0 <= pc < n ==>
      (NeedsAbsolute(linedefined, lines[..n], pc) <==> NeedsAbsolute(linedefined, lines, pc))
  {
    SameBefore(linedefined, lines, n, n);
    forall pc | 0 <= pc < n
      ensures NeedsAbsolute(linedefined, lines[..n], pc) <==> NeedsAbsolute(linedefined, lines, pc)
    {
      SameBefore(linedefined, lines, n, pc);
    }
  }

  lemma NextSince(linedefined: int, lines: seq<int>, n: nat)
    requires n < |lines|
    ensures SinceAbsolute(linedefined, lines, n + 1)
      == if NeedsAbsolute(linedefined, lines, n) then 1 else SinceAbsolute(linedefined, lines, n) + 1
  {
  }

  lemma NeedsIff(linedefined: int, lines: seq<int>, pc: nat)
    requires pc < |lines|
    ensures NeedsAbsolute(linedefined, lines, pc) <==>
      Magnitude(lines[pc] - Before(linedefined, lines, pc)) >= 128 || SinceAbsolute(linedefined, lines, pc) >= 128
  {
  }

  lemma Emitted(linedefined: int, ops: seq<Op>, line: int)
    ensures GenAfter(linedefined, ops + [Emit(line)]) == Save(GenAfter(linedefined, ops), line)
  {
    assert (ops + [Emit(line)])[..|ops|] == ops;
  }

  lemma ThreeLines()
    ensures GenAfter(0, [Emit(10), Emit(20), Emit(1000)])
      == Gen(Proto(0, [10, 10, AbsLineInfo], [Abs(2, 1000)]), 1000, 1)
  {
    Emitted(0, [], 10);
    Emitted(0, [Emit(10)], 20);
    Emitted(0, [Emit(10), Emit(20)], 1000);
    assert GenAfter(0, []) == Gen(Proto(0, [], []), 0, 0);
    hide GenAfter;
    assert [] + [Emit(10)] == [Emit(10)] && [Emit(10)] + [Emit(20)] == [Emit(10), Emit(20)];
    assert [Emit(10), Emit(20)] + [Emit(1000)] == [Emit(10), Emit(20), Emit(1000)];
    assert GenAfter(0, [Emit(10)]) == Gen(Proto(0, [10], []), 10, 1);
    assert GenAfter(0, [Emit(10), Emit(20)]) == Gen(Proto(0, [10, 10], []), 20, 2);
  }

  /** Three removals in a row, of an absolute and two relative entries, and the next line comes out wrong. No caller
      does that: `luaK_fixline` saves a line at once, and the one place that removes an instruction emits another
      one in its place (3rd/lua/lcode.c:1101). */
  lemma ThreeRemovalsBreak()
    ensures var g := GenAfter(0, [Emit(10), Emit(20), Emit(1000)]);
      |g.table.lineinfo| == 3 && !Encodes(Save(Remove(Remove(Remove(g))), 900).table, [900])
  {
    ThreeLines();
    var g := GenAfter(0, [Emit(10), Emit(20), Emit(1000)]);
    hide GenAfter, Encodes;
    assert Remove(g) == Gen(Proto(0, [10, 10], []), 1000, 129);
    assert Remove(Remove(g)) == Gen(Proto(0, [10], []), 990, 128);
    assert Remove(Remove(Remove(g))) == Gen(Proto(0, [], []), 980, 127);
    assert Save(Remove(Remove(Remove(g))), 900).table == Proto(0, [-80], []);
    NotEncoded();
  }

  lemma NotEncoded()
    ensures !Encodes(Proto(0, [-80], []), [900])
  {
    assert !EntryOk(Proto(0, [-80], []), [900], 0);
  }

  /** The generator. `lines` is what was last saved for each instruction. */
  class FuncState {
    const linedefined: int
    var lineinfo: seq<int>
    var abslineinfo: seq<Abs>
    var previousline: int
    var iwthabs: int
    ghost var lines: seq<int>

    ghost function State(): Gen
      reads this
    {
      Gen(Proto(linedefined, lineinfo, abslineinfo), previousline, iwthabs)
    }

    ghost predicate Valid()
      reads this
    {
      Ready(State(), lines)
    }

    constructor (linedefined: int)
      ensures Valid() && lines == [] && this.linedefined == linedefined
      ensures State() == Gen(Proto(linedefined, [], []), linedefined, 0)
    {
      this.linedefined := linedefined;
      lineinfo, abslineinfo, previousline, iwthabs := [], [], linedefined, 0;
      lines := [];
    }

    /** `luaK_code`, as far as lines are concerned. */
    method SaveLineInfo(line: int)
      modifies this
      ensures State() == Save(old(State()), line) && lines == old(lines) + [line]
      ensures old(Valid()) ==> Valid()
    {
      if Valid() { SaveReady(State(), lines, line); }
      hide Ready;
      var linedif := line - previousline;
      var pc := |lineinfo|;
      var absolute := Magnitude(linedif) >= LimLineDiff;
      if !absolute {
        absolute := iwthabs >= MaxIwthAbs;
        iwthabs := iwthabs + 1;
      }
      if absolute {
        abslineinfo := abslineinfo + [Abs(pc, line)];
        linedif := AbsLineInfo;
        iwthabs := 1;
      }
      lineinfo := lineinfo + [linedif];
      previousline := line;
      lines := lines + [line];
    }

    /** The table stays right; whether the generator stays ready is what `RemoveExact` says. */
    method RemoveLastLineInfo()
      requires Sound(State(), lines) && lines != []
      modifies this
      ensures State() == Remove(old(State())) && lines == old(lines[..|lines| - 1])
      ensures old(Valid()) ==> Sound(State(), lines)
      ensures old(Valid()) ==> (Valid() <==>
        var n := |old(lines)| - 1; old(lineinfo[n]) == AbsLineInfo || old(iwthabs) > MaxIwthAbs || old(previousline == lines[n]))
    {
      if Valid() { RemoveExact(State(), lines); }
      Removed(State().table, lines);
      hide Ready, Sound, Encodes;
      var pc := |lineinfo| - 1;
      if lineinfo[pc] != AbsLineInfo {
        previousline := previousline - lineinfo[pc];
        iwthabs := iwthabs - 1;
      } else {
        assert abslineinfo[|abslineinfo| - 1].pc == pc;
        abslineinfo := abslineinfo[..|abslineinfo| - 1];
        iwthabs := MaxIwthAbs + 1;
      }
      lineinfo := lineinfo[..pc];
      lines := lines[..pc];
    }

    /** `luaK_fixline`: gives the last instruction another line. */
    method FixLine(line: int)
      requires Sound(State(), lines) && lines != []
      modifies this
      ensures State() == Save(Remove(old(State())), line) && lines == old(lines[..|lines| - 1]) + [line]
      ensures old(Valid() && previousline == lines[|lines| - 1]) ==> Valid() && previousline == line
    {
      if Valid() && previousline == lines[|lines| - 1] { Replaced(State(), lines, line); }
      hide Ready;
      RemoveLastLineInfo();
      SaveLineInfo(line);
    }
  }
}
