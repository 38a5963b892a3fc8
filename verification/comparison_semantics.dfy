/**
 * What the emitted comparison blocks (eq, gt, lt) do. Unlike the other
 * blocks these branch: `D;JEQ` (or `JGT`, `JLT`) on the difference `x - y`
 * skips to `(HIT_id)`, which sets temp 0 to -1 (true); otherwise an
 * unconditional jump to `(CONTINUE_id)` leaves it at 0 (false).
 */
module ComparisonSemantics {
  import opened Wrappers
  import opened Numbers
  import opened Hack
  import opened VmCodeWriter
  import opened CodeWriterSemantics
  import opened ArithmeticSemantics

  function Note(cmd: string): string
    requires IsComparison(cmd)
  {
    "temp0 := temp1 " + CompareSymbol(cmd) + " temp0"
  }

  /** The pops, framed by their comments: the first 40 records. */
  function Head(cmd: string): (r: seq<Instr>)
    requires IsComparison(cmd)
    ensures Straight(r)
  {
    StraightAppend(PopTemp(0), PopTemp(1));
    ArithHead(cmd, PopTemp(0) + PopTemp(1), Note(cmd))
  }

  /** The push of temp 0, framed by its comments: the last 17 records. */
  function Tail(cmd: string): (r: seq<Instr>)
    requires IsComparison(cmd)
    ensures Straight(r)
  {
    ArithTail(cmd, Note(cmd))
  }

  /** Records 51 to 71: `(HIT_id) @5 M=-1 (CONTINUE_id)` and the tail. */
  function Hit(cmd: string, id: string): seq<Instr>
    requires IsComparison(cmd)
  {
    [Label(HitLabel(id)), A(Lit(5)), C(DestM, MinusOne, NoJump), Label(ContinueLabel(id))] + Tail(cmd)
  }

  /** Records 54 to 71: `(CONTINUE_id)` and the tail. */
  function Continue(cmd: string, id: string): seq<Instr>
    requires IsComparison(cmd)
  {
    [Label(ContinueLabel(id))] + Tail(cmd)
  }

  lemma PopTempLength(i: I32)
    requires !TempOverflows(i)
    ensures |PopTemp(i)| == 19
  {
  }

  lemma PushTempLength(i: I32)
    requires !TempOverflows(i)
    ensures |PushTemp(i)| == 13
  {
  }

  lemma PiecesLength(cmd: string)
    requires IsComparison(cmd)
    ensures |Head(cmd)| == 40 && |Tail(cmd)| == 17
  {
    PopTempLength(0);
    PopTempLength(1);
    PushTempLength(0);
  }

  /** Slicing `head + (diff + branch) + tail` at the branch's records. */
  lemma Slices(head: seq<Instr>, diff: seq<Instr>, branch: seq<Instr>, tail: seq<Instr>)
    requires |head| == 40 && |diff| == 7 && |branch| == 8
    ensures var prog := head + (diff + branch) + tail;
      && prog[..48] == head + diff + [branch[0]]
      && prog[48] == branch[1] && prog[49] == branch[2] && prog[50] == branch[3]
      && prog[51..] == branch[4..] + tail
      && prog[54..] == branch[7..] + tail
  {
    var prog := head + (diff + branch) + tail;
    assert prog[..48] == head + diff + [branch[0]];
    assert prog[51..] == branch[4..] + tail;
    assert prog[54..] == branch[7..] + tail;
  }

  lemma Layout(cmd: string, id: string)
    requires IsComparison(cmd)
    ensures var prog := CompareBlock(cmd, id);
      && |prog| == 72
      && prog[..48] == Head(cmd) + Difference + [A(Sym(HitLabel(id)))]
      && prog[48] == C(NoDest, CompD, CompareJump(cmd))
      && prog[49] == A(Sym(ContinueLabel(id)))
      && prog[50] == C(NoDest, Zero, JMP)
      && prog[51..] == Hit(cmd, id)
      && prog[54..] == Continue(cmd, id)
  {
    var branch := Branch(CompareJump(cmd), id);
    assert CompareBlock(cmd, id) == Head(cmd) + (Difference + branch) + Tail(cmd);
    PiecesLength(cmd);
    Slices(Head(cmd), Difference, branch, Tail(cmd));
  }

  /** The branch labels hold an underscore; no predefined symbol does. */
  lemma BranchLabelsNotPredefined(id: string)
    ensures HitLabel(id) !in Predefined && ContinueLabel(id) !in Predefined
  {
    assert HitLabel(id)[3] == '_' && !PlainName(HitLabel(id));
    assert ContinueLabel(id)[8] == '_' && !PlainName(ContinueLabel(id));
    PredefinedPlain();
  }

  /** The shape of a comparison block, as far as its labels go. */
  predicate Shaped(prog: seq<Instr>, cmd: string, id: string)
    requires IsComparison(cmd)
  {
    && |prog| == 72
    && prog[..48] == Head(cmd) + Difference + [A(Sym(HitLabel(id)))]
    && BranchShaped(prog, cmd, id)
  }

  /** The shape of a comparison block from its conditional jump on. */
  predicate BranchShaped(prog: seq<Instr>, cmd: string, id: string)
    requires IsComparison(cmd)
  {
    && |prog| == 72
    && prog[48] == C(NoDest, CompD, CompareJump(cmd))
    && prog[49] == A(Sym(ContinueLabel(id)))
    && prog[50] == C(NoDest, Zero, JMP)
    && prog[51..] == Hit(cmd, id)
    && prog[54..] == Continue(cmd, id)
  }

  lemma Shape(cmd: string, id: string)
    requires IsComparison(cmd)
    ensures Shaped(CompareBlock(cmd, id), cmd, id)
  {
    Layout(cmd, id);
  }

  /** Two labels declared at 51 and 54 and nowhere before resolve there. */
  lemma BranchTable(prog: seq<Instr>, hit: string, cont: string, statics: map<string, Word>)
    requires |prog| == 72 && hit != cont
    requires hit !in Predefined && cont !in Predefined
    requires forall k :: 0 <= k < 51 ==> !prog[k].Label?
    requires prog[51] == Label(hit) && !prog[52].Label? && !prog[53].Label? && prog[54] == Label(cont)
    ensures var tab := Symbols(prog, statics);
      && hit in tab && tab[hit] == 51
      && cont in tab && tab[cont] == 54
  {
    LabelAt(prog, 0, 51, hit);
    assert forall k :: 0 <= k < 54 ==> prog[k] != Label(cont) by {
      forall k | 0 <= k < 54 ensures prog[k] != Label(cont) {
        if k < 51 {
          assert !prog[k].Label?;
        }
      }
    }
    LabelAt(prog, 0, 54, cont);
  }

  /** The records before `(HIT_id)` declare no label. */
  lemma FrontUnlabelled(prog: seq<Instr>, cmd: string, id: string)
    requires IsComparison(cmd) && Shaped(prog, cmd, id)
    ensures forall k :: 0 <= k < 51 ==> !prog[k].Label?
  {
    var front := Head(cmd) + Difference + [A(Sym(HitLabel(id)))];
    StraightAppend(Head(cmd), Difference);
    StraightAppend(Head(cmd) + Difference, [A(Sym(HitLabel(id)))]);
    forall k | 0 <= k < 51 ensures !prog[k].Label? {
      if k < 48 {
        assert prog[k] == prog[..48][k] == front[k];
      }
    }
  }

  lemma BranchRecords(prog: seq<Instr>, cmd: string, id: string)
    requires IsComparison(cmd) && Shaped(prog, cmd, id)
    ensures prog[51] == Label(HitLabel(id)) && prog[52] == A(Lit(5)) && prog[53] == C(DestM, MinusOne, NoJump)
    ensures prog[54] == Label(ContinueLabel(id))
  {
    assert prog[51..][0] == prog[51] && prog[51..][1] == prog[52] && prog[51..][2] == prog[53];
    assert prog[54..][0] == prog[54];
  }

  lemma ShapedTable(prog: seq<Instr>, cmd: string, id: string, statics: map<string, Word>)
    requires IsComparison(cmd) && Shaped(prog, cmd, id)
    ensures var tab := Symbols(prog, statics);
      && Standard(tab)
      && HitLabel(id) in tab && tab[HitLabel(id)] == 51
      && ContinueLabel(id) in tab && tab[ContinueLabel(id)] == 54
  {
    SymbolsStandard(prog, statics);
    BranchLabelsNotPredefined(id);
    FrontUnlabelled(prog, cmd, id);
    BranchRecords(prog, cmd, id);
    assert HitLabel(id)[0] != ContinueLabel(id)[0];
    BranchTable(prog, HitLabel(id), ContinueLabel(id), statics);
  }

  /** The jump a comparison uses fires exactly when the comparison holds. */
  lemma JumpHolds(cmd: string, diff: Word)
    requires IsComparison(cmd)
    ensures Jumps(CompareJump(cmd), diff) <==> Holds(cmd, diff)
  {
  }

  /** `@5 A=A+1 D=M @5 M=D-M D=M M=0`: `D` = temp 1 - temp 0, temp 0 cleared. */
  lemma DifferenceEffect(tab: map<string, Word>, m: Machine)
    ensures Exec(Difference, tab, m)
         == Some(Machine(TEMP0, Sub(Read(m.ram, TEMP1), Read(m.ram, TEMP0)), Write(m.ram, TEMP0, 0)))
  {
    var rest := [C(DestM, DMinusM, NoJump), C(DestD, CompM, NoJump), C(DestM, Zero, NoJump)];
    ExecAppend(LoadOperands, rest, tab, m);
    LoadOperandsEffect(tab, m);
    var m1 := m.(a := TEMP0, d := Read(m.ram, TEMP1));
    var diff := Sub(Read(m.ram, TEMP1), Read(m.ram, TEMP0));
    var ram2 := Write(m.ram, TEMP0, diff);
    assert Exec(rest, tab, m1) == Some(Machine(TEMP0, diff, Write(ram2, TEMP0, 0)));
    assert Write(ram2, TEMP0, 0) == Write(m.ram, TEMP0, 0);
  }

  /** The framed pops leave the operands in temp 0 and temp 1. */
  lemma HeadEffect(cmd: string, tab: map<string, Word>, m: Machine)
    requires IsComparison(cmd) && Standard(tab)
    requires UserCell(Sub(Sp(m.ram), 1)) && UserCell(Sub(Sp(m.ram), 2))
    ensures RamOf(Exec(Head(cmd), tab, m)) == Some(Popped(m.ram))
  {
    ExecPopPair(0, 1, tab, m);
    ExecFramed([Comment("start ======= " + cmd)], PopTemp(0) + PopTemp(1), [Comment("start ======= " + Note(cmd))], tab, m);
  }

  /**
   * Records 0 to 47: the pops, the difference and `@HIT_id`, leaving the
   * difference in `D`, temp 0 cleared and `A` at the hit label.
   */
  lemma FrontEffect(cmd: string, id: string, tab: map<string, Word>, m: Machine)
    requires IsComparison(cmd) && Standard(tab) && HitLabel(id) in tab
    requires UserCell(Sub(Sp(m.ram), 1)) && UserCell(Sub(Sp(m.ram), 2))
    ensures Exec(Head(cmd) + Difference + [A(Sym(HitLabel(id)))], tab, m)
         == Some(var p := Popped(m.ram);
                 Machine(tab[HitLabel(id)], Sub(Read(p, TEMP1), Read(p, TEMP0)), Write(p, TEMP0, 0)))
  {
    ExecAppend(Head(cmd) + Difference, [A(Sym(HitLabel(id)))], tab, m);
    ExecAppend(Head(cmd), Difference, tab, m);
    HeadEffect(cmd, tab, m);
    var m1 := Exec(Head(cmd), tab, m).value;
    DifferenceEffect(tab, m1);
    var m2 := Exec(Difference, tab, m1).value;
    assert Exec([A(Sym(HitLabel(id)))], tab, m2) == Some(m2.(a := tab[HitLabel(id)]));
  }

  /** A push of a temp cell between inert records. */
  lemma ExecFramedPush(i: I32, before: seq<Instr>, after: seq<Instr>, tab: map<string, Word>, m: Machine)
    requires 0 <= i <= 7 && Inert(before) && Inert(after)
    requires Standard(tab) && UserCell(Sp(m.ram))
    ensures RamOf(Exec(before + PushTemp(i) + after, tab, m)) == Some(PushRam(m.ram, Read(m.ram, i + 5)))
  {
    ExecFramed(before, PushTemp(i), after, tab, m);
    ExecPushTempEffect(i, tab, m);
  }

  /** The tail pushes temp 0. */
  lemma TailEffect(cmd: string, tab: map<string, Word>, m: Machine)
    requires IsComparison(cmd) && Standard(tab) && UserCell(Sp(m.ram))
    ensures RamOf(Exec(Tail(cmd), tab, m)) == Some(PushRam(m.ram, Read(m.ram, TEMP0)))
  {
    var before := [Comment("end ======= " + Note(cmd)), Blank];
    var after := [Comment("end ======= " + cmd), Blank];
    assert Inert(before) && Inert(after);
    ExecFramedPush(0, before, after, tab, m);
  }

  /** From `(HIT_id)`: temp 0 set to true, then pushed. */
  lemma HitEffect(cmd: string, id: string, tab: map<string, Word>, m: Machine)
    requires IsComparison(cmd) && Standard(tab) && UserCell(Sp(m.ram))
    ensures RamOf(Exec(Hit(cmd, id), tab, m)) == Some(PushRam(Write(m.ram, TEMP0, TRUE), TRUE))
  {
    var mark := [Label(HitLabel(id)), A(Lit(5)), C(DestM, MinusOne, NoJump), Label(ContinueLabel(id))];
    var store := [A(Lit(5)), C(DestM, MinusOne, NoJump)];
    ExecAppend(mark, Tail(cmd), tab, m);
    assert mark == [Label(HitLabel(id))] + store + [Label(ContinueLabel(id))];
    ExecFramed([Label(HitLabel(id))], store, [Label(ContinueLabel(id))], tab, m);
    assert Exec(mark, tab, m) == Some(m.(a := TEMP0, ram := Write(m.ram, TEMP0, TRUE)));
    TailEffect(cmd, tab, m.(a := TEMP0, ram := Write(m.ram, TEMP0, TRUE)));
  }

  /** From `(CONTINUE_id)`: temp 0 pushed as it is. */
  lemma ContinueEffect(cmd: string, id: string, tab: map<string, Word>, m: Machine)
    requires IsComparison(cmd) && Standard(tab) && UserCell(Sp(m.ram))
    ensures RamOf(Exec(Continue(cmd, id), tab, m)) == Some(PushRam(m.ram, Read(m.ram, TEMP0)))
  {
    ExecAfterInert([Label(ContinueLabel(id))], Tail(cmd), tab, m);
    TailEffect(cmd, tab, m);
  }

  lemma BranchTargetsJumpFree(cmd: string, id: string)
    requires IsComparison(cmd)
    ensures JumpFree(Hit(cmd, id)) && JumpFree(Continue(cmd, id))
  {
    var mark := [Label(HitLabel(id)), A(Lit(5)), C(DestM, MinusOne, NoJump), Label(ContinueLabel(id))];
    forall k | 0 <= k < |Hit(cmd, id)| ensures !IsJump(Hit(cmd, id)[k]) {
      if k >= 4 {
        assert Hit(cmd, id)[k] == Tail(cmd)[k - 4];
      }
    }
    forall k | 0 <= k < |Continue(cmd, id)| ensures !IsJump(Continue(cmd, id)[k]) {
      if k >= 1 {
        assert Continue(cmd, id)[k] == Tail(cmd)[k - 1];
      }
    }
  }

  /** The first 48 steps run the front straight through. */
  lemma FrontRun(prog: seq<Instr>, cmd: string, id: string, tab: map<string, Word>, m: Machine)
    requires IsComparison(cmd) && Shaped(prog, cmd, id)
    requires Standard(tab) && HitLabel(id) in tab
    requires UserCell(Sub(Sp(m.ram), 1)) && UserCell(Sub(Sp(m.ram), 2))
    ensures Run(prog, tab, Config(0, m), 48)
         == Some(Config(48, var p := Popped(m.ram);
                            Machine(tab[HitLabel(id)], Sub(Read(p, TEMP1), Read(p, TEMP0)), Write(p, TEMP0, 0))))
  {
    var front := Head(cmd) + Difference + [A(Sym(HitLabel(id)))];
    StraightAppend(Head(cmd), Difference);
    StraightAppend(Head(cmd) + Difference, [A(Sym(HitLabel(id)))]);
    assert prog[0..48] == front;
    assert JumpFree(front) by {
      forall k | 0 <= k < |front| ensures !IsJump(front[k]) {
        assert Plain(front[k]);
      }
    }
    RunStraight(prog, tab, 0, 48, m);
    FrontEffect(cmd, id, tab, m);
  }

  /** The jump at record 48 taken: on to `(HIT_id)` and the end. */
  lemma TakenRun(prog: seq<Instr>, cmd: string, id: string, tab: map<string, Word>, ram: Ram, diff: Word)
    requires IsComparison(cmd) && BranchShaped(prog, cmd, id) && Holds(cmd, diff)
    requires Standard(tab) && UserCell(Sp(ram))
    ensures var r := Run(prog, tab, Config(48, Machine(51, diff, Write(ram, TEMP0, 0))), 24);
      r.Some? && r.value.pc == 72 && r.value.m.ram == PushRam(Write(ram, TEMP0, TRUE), TRUE)
  {
    var m1 := Machine(51, diff, Write(ram, TEMP0, 0));
    BranchTargetsJumpFree(cmd, id);
    JumpHolds(cmd, diff);
    assert prog[51..] == Hit(cmd, id);
    assert Run(prog, tab, Config(48, m1), 24) == Run(prog, tab, Config(51, m1), 23);
    RunToEnd(prog, tab, 51, m1, 23);
    HitEffect(cmd, id, tab, m1);
    assert Write(Write(ram, TEMP0, 0), TEMP0, TRUE) == Write(ram, TEMP0, TRUE);
  }

  /** `D;Jcc` falling through, then `@CONTINUE_id 0;JMP`: three steps to record 54. */
  lemma SkipSteps(prog: seq<Instr>, j: Jump, cont: string, tab: map<string, Word>, m: Machine)
    requires |prog| == 72 && !Jumps(j, m.d)
    requires prog[48] == C(NoDest, CompD, j) && prog[49] == A(Sym(cont)) && prog[50] == C(NoDest, Zero, JMP)
    requires cont in tab && tab[cont] == 54
    ensures Run(prog, tab, Config(48, m), 24) == Run(prog, tab, Config(54, m.(a := 54)), 21)
  {
    var m2 := m.(a := 54);
    assert Run(prog, tab, Config(48, m), 24) == Run(prog, tab, Config(49, m), 23);
    assert Run(prog, tab, Config(49, m), 23) == Run(prog, tab, Config(50, m2), 22);
  }

  /** From `(CONTINUE_id)` at record 54 to the end of the block. */
  lemma ContinueRun(prog: seq<Instr>, cmd: string, id: string, tab: map<string, Word>, m: Machine)
    requires IsComparison(cmd) && |prog| == 72 && prog[54..] == Continue(cmd, id)
    requires Standard(tab) && UserCell(Sp(m.ram))
    ensures var r := Run(prog, tab, Config(54, m), 21);
      r.Some? && r.value.pc == 72 && r.value.m.ram == PushRam(m.ram, Read(m.ram, TEMP0))
  {
    BranchTargetsJumpFree(cmd, id);
    assert prog[54..] == Continue(cmd, id);
    RunToEnd(prog, tab, 54, m, 21);
    ContinueEffect(cmd, id, tab, m);
  }

  /** The jump at record 48 not taken: `@CONTINUE_id 0;JMP`, then the end. */
  lemma SkippedRun(prog: seq<Instr>, cmd: string, id: string, tab: map<string, Word>, ram: Ram, diff: Word)
    requires IsComparison(cmd) && BranchShaped(prog, cmd, id) && !Holds(cmd, diff)
    requires Standard(tab) && ContinueLabel(id) in tab && tab[ContinueLabel(id)] == 54
    requires UserCell(Sp(ram))
    ensures var r := Run(prog, tab, Config(48, Machine(51, diff, Write(ram, TEMP0, 0))), 24);
      r.Some? && r.value.pc == 72 && r.value.m.ram == PushRam(Write(ram, TEMP0, FALSE), FALSE)
  {
    var m1 := Machine(51, diff, Write(ram, TEMP0, 0));
    JumpHolds(cmd, diff);
    SkipSteps(prog, CompareJump(cmd), ContinueLabel(id), tab, m1);
    ContinueRun(prog, cmd, id, tab, m1.(a := 54));
  }

  /** From the conditional jump at record 48 to the end, either way. */
  lemma BranchRun(prog: seq<Instr>, cmd: string, id: string, tab: map<string, Word>, ram: Ram, diff: Word)
    requires IsComparison(cmd) && BranchShaped(prog, cmd, id)
    requires Standard(tab) && ContinueLabel(id) in tab && tab[ContinueLabel(id)] == 54
    requires UserCell(Sp(ram))
    ensures var v := if Holds(cmd, diff) then TRUE else FALSE;
      var r := Run(prog, tab, Config(48, Machine(51, diff, Write(ram, TEMP0, 0))), 24);
      r.Some? && r.value.pc == 72 && r.value.m.ram == PushRam(Write(ram, TEMP0, v), v)
  {
    if Holds(cmd, diff) {
      TakenRun(prog, cmd, id, tab, ram, diff);
    } else {
      SkippedRun(prog, cmd, id, tab, ram, diff);
    }
  }

  /** A block of the comparison's shape completes, having pushed the comparison's value. */
  lemma ShapedRun(prog: seq<Instr>, cmd: string, id: string, statics: map<string, Word>, m: Machine)
    requires IsComparison(cmd) && Shaped(prog, cmd, id)
    requires UserCell(Sub(Sp(m.ram), 1)) && UserCell(Sub(Sp(m.ram), 2))
    ensures RamOf(RunBlock(prog, statics, m))
         == Some(var p := Popped(m.ram);
                 var v := CompareValue(cmd, Read(p, TEMP1), Read(p, TEMP0));
                 PushRam(Write(p, TEMP0, v), v))
  {
    var tab := Symbols(prog, statics);
    var p := Popped(m.ram);
    ShapedTable(prog, cmd, id, statics);
    FrontRun(prog, cmd, id, tab, m);
    assert UserCell(Sp(p)) by {
      PoppedOperands(m.ram);
    }
    var diff := Sub(Read(p, TEMP1), Read(p, TEMP0));
    var c := Config(48, Machine(51, diff, Write(p, TEMP0, 0)));
    BranchRun(prog, cmd, id, tab, p, diff);
    RunBlockThen(prog, statics, m, 48, 24, c, Run(prog, tab, c, 24).value);
  }

  /**
   * eq, gt, lt: with `x` below `y` on the stack, the two entries become true
   * (-1) or false (0) according to the 16-bit difference `x - y` read as a
   * signed number, and `SP` drops by one.
   */
  lemma CompareEffect(cmd: string, id: string, statics: map<string, Word>, m: Machine)
    requires IsComparison(cmd)
    requires UserCell(Sub(Sp(m.ram), 1)) && UserCell(Sub(Sp(m.ram), 2))
    ensures RunBlock(CompareBlock(cmd, id), statics, m).Some?
    ensures PairReplaced(m.ram, RunBlock(CompareBlock(cmd, id), statics, m).value.ram, CompareValue(cmd, Second(m.ram), Top(m.ram)))
  {
    Shape(cmd, id);
    ShapedRun(CompareBlock(cmd, id), cmd, id, statics, m);
    PoppedOperands(m.ram);
    PairResult(m.ram, CompareValue(cmd, Second(m.ram), Top(m.ram)));
  }
}
