/**
 * What the emitted arithmetic and logical blocks do to RAM. A binary block
 * pops its operands into temp 0 and temp 1 (RAM[5] and RAM[6]) through R13,
 * combines them in temp 0 and pushes temp 0, so besides the stack it leaves
 * temp 0, temp 1 and R13 overwritten. A unary block pops only into temp 0,
 * so it overwrites temp 0 and R13.
 */
module ArithmeticSemantics {
  import opened Wrappers
  import opened Numbers
  import opened Hack
  import opened VmCodeWriter
  import opened CodeWriterSemantics

  const TEMP0: Word := 5
  const TEMP1: Word := 6

  /** The VM's boolean encoding. */
  const TRUE: Word := 0xFFFF
  const FALSE: Word := 0

  /** `x op y` for `x` below `y` on the stack. */
  function BinaryValue(cmd: string, x: Word, y: Word): Word
    requires IsBinary(cmd)
  {
    match cmd
    case "add" => Add(x, y)
    case "sub" => Sub(x, y)
    case "and" => And(x, y)
    case _ => Or(x, y)
  }

  /** A word read as a two's-complement number. */
  function Signed(v: Word): int {
    if v < 0x8000 then v else v - 0x10000
  }

  /** Whether a comparison holds of the 16-bit difference `x - y` read as a signed number. */
  predicate Holds(cmd: string, diff: Word)
    requires IsComparison(cmd)
  {
    match cmd
    case "eq" => Signed(diff) == 0
    case "gt" => Signed(diff) > 0
    case _ => Signed(diff) < 0
  }

  function CompareValue(cmd: string, x: Word, y: Word): Word
    requires IsComparison(cmd)
  {
    if Holds(cmd, Sub(x, y)) then TRUE else FALSE
  }

  /** The wrapped difference is the true signed difference whenever the latter fits in 16 bits. */
  lemma SignedSub(x: Word, y: Word)
    requires -0x8000 <= Signed(x) - Signed(y) <= 0x7FFF
    ensures Signed(Sub(x, y)) == Signed(x) - Signed(y)
  {
  }

  /**
   * When `x - y` does not overflow 16 signed bits, a comparison yields true
   * exactly when it holds of `x` and `y` read as signed numbers.
   */
  lemma CompareValueOrder(cmd: string, x: Word, y: Word)
    requires IsComparison(cmd)
    requires -0x8000 <= Signed(x) - Signed(y) <= 0x7FFF
    ensures cmd == "eq" ==> (CompareValue(cmd, x, y) == TRUE <==> Signed(x) == Signed(y))
    ensures cmd == "gt" ==> (CompareValue(cmd, x, y) == TRUE <==> Signed(x) > Signed(y))
    ensures cmd == "lt" ==> (CompareValue(cmd, x, y) == TRUE <==> Signed(x) < Signed(y))
  {
    SignedSub(x, y);
  }

  function UnaryValue(cmd: string, y: Word): Word
    requires IsUnary(cmd)
  {
    if cmd == "neg" then Neg(y) else Not(y)
  }

  /**
   * The two top entries replaced by `r`, with temp 0 holding `r`, temp 1
   * holding the lower operand and R13 holding 6; every other cell as before.
   */
  predicate PairReplaced(before: Ram, after: Ram, r: Word) {
    && Sp(after) == Sub(Sp(before), 1)
    && Top(after) == r
    && Read(after, TEMP0) == r
    && Read(after, TEMP1) == Second(before)
    && Read(after, R13) == TEMP1
    && forall w :: w != SP && w != TEMP0 && w != TEMP1 && w != R13 && w != Sub(Sp(before), 2) ==> Read(after, w) == Read(before, w)
  }

  /**
   * The top entry replaced by `r`, with temp 0 holding `r` and R13 holding
   * 5; every other cell, `SP` included, as before.
   */
  predicate TopReplaced(before: Ram, after: Ram, r: Word) {
    && Top(after) == r
    && Read(after, TEMP0) == r
    && Read(after, R13) == TEMP0
    && forall w :: w != TEMP0 && w != R13 && w != Sub(Sp(before), 1) ==> Read(after, w) == Read(before, w)
  }

  /** An arithmetic block runs its pops, its body, then the push of temp 0. */
  lemma ExecArithBlock(cmd: string, pops: seq<Instr>, note: string, body: seq<Instr>, tab: map<string, Word>, m: Machine)
    requires Straight(pops)
    ensures Exec(ArithBlock(cmd, pops, note, body), tab, m)
         == Then(Then(Exec(pops, tab, m), body, tab), PushTemp(0), tab)
  {
    var head := ArithHead(cmd, pops, note);
    var tail := ArithTail(cmd, note);
    assert ArithBlock(cmd, pops, note, body) == head + body + tail;
    ExecAppend(head + body, tail, tab, m);
    ExecAppend(head, body, tab, m);
    ExecFramed([Comment("start ======= " + cmd)], pops, [Comment("start ======= " + note)], tab, m);
    match Exec(head + body, tab, m)
    case None =>
    case Some(m1) =>
      ExecFramed([Comment("end ======= " + note), Blank], PushTemp(0), [Comment("end ======= " + cmd), Blank], tab, m1);
  }

  /** Two pops into temp cells in a row, `i` first. */
  lemma ExecPopPair(i: I32, j: I32, tab: map<string, Word>, m: Machine)
    requires 0 <= i <= 7 && 0 <= j <= 7
    requires Standard(tab)
    requires UserCell(Sub(Sp(m.ram), 1)) && UserCell(Sub(Sp(m.ram), 2))
    ensures Straight(PopTemp(i) + PopTemp(j))
    ensures RamOf(Exec(PopTemp(i) + PopTemp(j), tab, m))
         == Some(PopRamViaR13(PopRamViaR13(m.ram, i + 5), j + 5))
  {
    StraightAppend(PopTemp(i), PopTemp(j));
    ExecAppend(PopTemp(i), PopTemp(j), tab, m);
    ExecPopTempEffect(i, tab, m);
    var m1 := Exec(PopTemp(i), tab, m).value;
    assert UserCell(Sub(Sp(m1.ram), 1)) by {
      StepBack(Sp(m.ram));
      assert Sp(m1.ram) == Sub(Sp(m.ram), 1);
    }
    ExecPopTempEffect(j, tab, m1);
  }

  /** What the two pops leave behind. */
  lemma PoppedOperands(ram: Ram)
    requires UserCell(Sub(Sp(ram), 1)) && UserCell(Sub(Sp(ram), 2))
    ensures var popped := PopRamViaR13(PopRamViaR13(ram, TEMP0), TEMP1);
      && Sp(popped) == Sub(Sp(ram), 2)
      && Read(popped, TEMP0) == Top(ram)
      && Read(popped, TEMP1) == Second(ram)
      && Read(popped, R13) == TEMP1
      && forall w :: w != SP && w != TEMP0 && w != TEMP1 && w != R13 ==> Read(popped, w) == Read(ram, w)
  {
    StepBack(Sp(ram));
    var once := PopRamViaR13(ram, TEMP0);
    assert Sp(once) == Sub(Sp(ram), 1);
    assert Top(once) == Second(ram);
  }

  /** `@5 A=A+1 D=M @5`: `D` = temp 1 and `A` points at temp 0. */
  lemma LoadOperandsEffect(tab: map<string, Word>, m: Machine)
    ensures Exec(LoadOperands, tab, m) == Some(m.(a := TEMP0, d := Read(m.ram, TEMP1)))
  {
    assert Exec(LoadOperands, tab, m) == Some(Machine(5, Read(m.ram, 6), m.ram));
  }

  /** `M = D op M` with `D = x` and `M = y` stores `x op y` in temp 0. */
  lemma BinaryBodyEffect(cmd: string, tab: map<string, Word>, m: Machine)
    requires IsBinary(cmd)
    ensures RamOf(Exec(LoadOperands + [C(DestM, BinaryComp(cmd), NoJump)], tab, m))
         == Some(Write(m.ram, TEMP0, BinaryValue(cmd, Read(m.ram, TEMP1), Read(m.ram, TEMP0))))
  {
    ExecAppend(LoadOperands, [C(DestM, BinaryComp(cmd), NoJump)], tab, m);
    LoadOperandsEffect(tab, m);
    var m1 := m.(a := TEMP0, d := Read(m.ram, TEMP1));
    assert Eval(BinaryComp(cmd), m1) == BinaryValue(cmd, Read(m.ram, TEMP1), Read(m.ram, TEMP0));
    assert Exec([C(DestM, BinaryComp(cmd), NoJump)], tab, m1)
        == Some(m1.(ram := Write(m.ram, TEMP0, Eval(BinaryComp(cmd), m1))));
  }

  /** The two operands popped, as the pops leave them. */
  function Popped(ram: Ram): Ram {
    PopRamViaR13(PopRamViaR13(ram, TEMP0), TEMP1)
  }

  /** Pushing the combined value back leaves the pair replaced by it. */
  lemma PairResult(ram: Ram, r: Word)
    requires UserCell(Sub(Sp(ram), 1)) && UserCell(Sub(Sp(ram), 2))
    ensures PairReplaced(ram, PushRam(Write(Popped(ram), TEMP0, r), r), r)
  {
    PoppedOperands(ram);
    StepBack(Sp(ram));
  }

  /** The pops and the combining instruction of a binary block. */
  lemma ExecBinaryBody(cmd: string, tab: map<string, Word>, m: Machine)
    requires IsBinary(cmd) && Standard(tab)
    requires UserCell(Sub(Sp(m.ram), 1)) && UserCell(Sub(Sp(m.ram), 2))
    ensures RamOf(Then(Exec(PopTemp(0) + PopTemp(1), tab, m), LoadOperands + [C(DestM, BinaryComp(cmd), NoJump)], tab))
         == Some(var p := Popped(m.ram);
                 Write(p, TEMP0, BinaryValue(cmd, Read(p, TEMP1), Read(p, TEMP0))))
  {
    ExecPopPair(0, 1, tab, m);
    var m2 := Exec(PopTemp(0) + PopTemp(1), tab, m).value;
    BinaryBodyEffect(cmd, tab, m2);
  }

  lemma ExecBinaryBlock(cmd: string, tab: map<string, Word>, m: Machine)
    requires IsBinary(cmd) && Standard(tab)
    requires UserCell(Sub(Sp(m.ram), 1)) && UserCell(Sub(Sp(m.ram), 2))
    ensures RamOf(Exec(BinaryBlock(cmd), tab, m))
         == Some(var p := Popped(m.ram);
                 var r := BinaryValue(cmd, Read(p, TEMP1), Read(p, TEMP0));
                 PushRam(Write(p, TEMP0, r), r))
  {
    var pops := PopTemp(0) + PopTemp(1);
    var body := LoadOperands + [C(DestM, BinaryComp(cmd), NoJump)];
    ExecPopPair(0, 1, tab, m);
    ExecArithBlock(cmd, pops, "temp0 = temp1 " + BinarySymbol(cmd) + " temp0", body, tab, m);
    ExecBinaryBody(cmd, tab, m);
    var m3 := Then(Exec(pops, tab, m), body, tab).value;
    assert UserCell(Sp(m3.ram)) by {
      PoppedOperands(m.ram);
      assert Sp(m3.ram) == Sub(Sp(m.ram), 2);
    }
    ExecPushTempEffect(0, tab, m3);
  }

  /**
   * add, sub, and, or: with `x` below `y` on the stack, the two entries
   * become `x op y` (so `sub` yields `x - y`) and `SP` drops by one.
   */
  lemma BinaryEffect(cmd: string, statics: map<string, Word>, m: Machine)
    requires IsBinary(cmd)
    requires UserCell(Sub(Sp(m.ram), 1)) && UserCell(Sub(Sp(m.ram), 2))
    ensures RunBlock(BinaryBlock(cmd), statics, m).Some?
    ensures PairReplaced(m.ram, RunBlock(BinaryBlock(cmd), statics, m).value.ram, BinaryValue(cmd, Second(m.ram), Top(m.ram)))
  {
    RunBlockIsExec(BinaryBlock(cmd), statics, m);
    ExecBinaryBlock(cmd, statics + Predefined, m);
    PoppedOperands(m.ram);
    PairResult(m.ram, BinaryValue(cmd, Second(m.ram), Top(m.ram)));
  }

  /** `@5 M=-M` or `@5 M=!M` applies the unary operation to temp 0. */
  lemma UnaryBodyEffect(cmd: string, tab: map<string, Word>, m: Machine)
    requires IsUnary(cmd)
    ensures RamOf(Exec([A(Lit(5)), C(DestM, UnaryComp(cmd), NoJump)], tab, m))
         == Some(Write(m.ram, TEMP0, UnaryValue(cmd, Read(m.ram, TEMP0))))
  {
    var m1 := m.(a := TEMP0);
    if UnaryComp(cmd) == NegM {
      assert Exec([A(Lit(5)), C(DestM, NegM, NoJump)], tab, m)
          == Some(m1.(ram := Write(m.ram, TEMP0, Neg(Read(m.ram, TEMP0)))));
    } else {
      assert Exec([A(Lit(5)), C(DestM, NotM, NoJump)], tab, m)
          == Some(m1.(ram := Write(m.ram, TEMP0, Not(Read(m.ram, TEMP0)))));
    }
  }

  /** A pop into a temp cell followed by a store into that cell. */
  lemma ExecPopThen(i: I32, body: seq<Instr>, tab: map<string, Word>, m: Machine, v: Word)
    requires 0 <= i <= 7 && Standard(tab)
    requires UserCell(Sub(Sp(m.ram), 1))
    requires var p := PopRamViaR13(m.ram, i + 5);
      forall m': Machine :: m'.ram == p ==> RamOf(Exec(body, tab, m')) == Some(Write(p, i + 5, v))
    ensures RamOf(Then(Exec(PopTemp(i), tab, m), body, tab)) == Some(Write(PopRamViaR13(m.ram, i + 5), i + 5, v))
  {
    ExecPopTempEffect(i, tab, m);
    var m1 := Exec(PopTemp(i), tab, m).value;
    assert m1.ram == PopRamViaR13(m.ram, i + 5);
    assert Then(Exec(PopTemp(i), tab, m), body, tab) == Exec(body, tab, m1);
  }

  /** The pop and the operating instruction of a unary block. */
  lemma ExecUnaryBody(cmd: string, tab: map<string, Word>, m: Machine)
    requires IsUnary(cmd) && Standard(tab)
    requires UserCell(Sub(Sp(m.ram), 1))
    ensures RamOf(Then(Exec(PopTemp(0), tab, m), [A(Lit(5)), C(DestM, UnaryComp(cmd), NoJump)], tab))
         == Some(var p := PopRamViaR13(m.ram, TEMP0);
                 Write(p, TEMP0, UnaryValue(cmd, Read(p, TEMP0))))
  {
    var p := PopRamViaR13(m.ram, TEMP0);
    var v := UnaryValue(cmd, Read(p, TEMP0));
    forall m': Machine | m'.ram == p
      ensures RamOf(Exec([A(Lit(5)), C(DestM, UnaryComp(cmd), NoJump)], tab, m')) == Some(Write(p, TEMP0, v))
    {
      UnaryBodyEffect(cmd, tab, m');
    }
    ExecPopThen(0, [A(Lit(5)), C(DestM, UnaryComp(cmd), NoJump)], tab, m, v);
  }

  lemma ExecUnaryBlock(cmd: string, tab: map<string, Word>, m: Machine)
    requires IsUnary(cmd) && Standard(tab)
    requires UserCell(Sub(Sp(m.ram), 1))
    ensures RamOf(Exec(UnaryBlock(cmd), tab, m))
         == Some(var p := PopRamViaR13(m.ram, TEMP0);
                 var r := UnaryValue(cmd, Read(p, TEMP0));
                 PushRam(Write(p, TEMP0, r), r))
  {
    var body := [A(Lit(5)), C(DestM, UnaryComp(cmd), NoJump)];
    ExecArithBlock(cmd, PopTemp(0), if cmd == "neg" then "temp0 = -temp0" else "temp0 = !temp0", body, tab, m);
    ExecUnaryBody(cmd, tab, m);
    var m3 := Then(Exec(PopTemp(0), tab, m), body, tab).value;
    assert UserCell(Sp(m3.ram)) by {
      assert Sp(m3.ram) == Sub(Sp(m.ram), 1);
    }
    ExecPushTempEffect(0, tab, m3);
  }

  /** Pushing the new value back leaves only the top entry replaced. */
  lemma TopResult(ram: Ram, r: Word)
    requires UserCell(Sub(Sp(ram), 1))
    ensures Read(PopRamViaR13(ram, TEMP0), TEMP0) == Top(ram)
    ensures TopReplaced(ram, PushRam(Write(PopRamViaR13(ram, TEMP0), TEMP0, r), r), r)
  {
    StepBack(Sp(ram));
  }

  /** neg, not: the top entry `y` becomes `-y` or `!y`; `SP` is unchanged. */
  lemma UnaryEffect(cmd: string, statics: map<string, Word>, m: Machine)
    requires IsUnary(cmd)
    requires UserCell(Sub(Sp(m.ram), 1))
    ensures RunBlock(UnaryBlock(cmd), statics, m).Some?
    ensures TopReplaced(m.ram, RunBlock(UnaryBlock(cmd), statics, m).value.ram, UnaryValue(cmd, Top(m.ram)))
  {
    RunBlockIsExec(UnaryBlock(cmd), statics, m);
    ExecUnaryBlock(cmd, statics + Predefined, m);
    TopResult(m.ram, UnaryValue(cmd, Top(m.ram)));
  }
}
