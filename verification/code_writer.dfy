/**
 * The Hack assembly emitter: each VM command becomes a block of Hack
 * records. Failures of the emitter (unknown segment, unknown verb, unknown
 * operation, `i32` overflow while computing a temp address) are `Failure`
 * values.
 */
module VmCodeWriter {
  import opened Wrappers
  import opened Numbers
  import opened Hack
  import VmParser

  datatype WriteError =
    | UnknownSegment(segment: string)
    | BadPushPopVerb(verb: string)
    | UnknownArithmetic(cmd: string)
    | Overflow

  /** The four segments addressed through a base register. */
  const MemSegMap: map<string, string> :=
    map["local" := "LCL", "argument" := "ARG", "this" := "THIS", "that" := "THAT"]

  /** The RAM address of the base register a mapped segment names. */
  function BaseRegister(segment: string): (r: Word)
    requires segment in MemSegMap
    ensures MemSegMap[segment] in Predefined && Predefined[MemSegMap[segment]] == r
    ensures LCL <= r <= THAT
  {
    if segment == "local" then LCL
    else if segment == "argument" then ARG
    else if segment == "this" then THIS
    else THAT
  }

  /** The segments `push` accepts; `pop` accepts all of them but `constant`. */
  predicate IsPushSegment(segment: string) {
    segment in {"constant", "temp", "static", "pointer"} || segment in MemSegMap
  }

  predicate IsPopSegment(segment: string) {
    segment in {"temp", "static", "pointer"} || segment in MemSegMap
  }

  /** `temp i` lives at `5 + i`, computed in `i32`. */
  predicate TempOverflows(index: I32) {
    index + 5 > I32_MAX
  }

  /** The symbol a `static i` names: the output file's name, a dot, and `i`. */
  function StaticName(filename: string, index: I32): string {
    filename + "." + ShowInt(index)
  }

  /** `pointer 0` is `THIS`; every other index is `THAT`. */
  function PointerAddress(index: I32): (r: int)
    ensures r == THIS as int <==> index == 0
    ensures r == THIS as int || r == THAT as int
    ensures "THIS" in Predefined && "THAT" in Predefined
    ensures r == Predefined[if index == 0 then "THIS" else "THAT"] as int
  {
    if index == 0 then 3 else 4
  }

  /** `stack[SP] = D; SP++`. */
  const PushD: seq<Instr> := [
    Comment("stack[SP]=D"), A(Sym("SP")), C(DestA, CompM, NoJump), C(DestM, CompD, NoJump),
    Comment("SP++"), A(Sym("SP")), C(DestM, MPlus1, NoJump)]

  const DecSp: seq<Instr> := [Comment("SP--"), A(Sym("SP")), C(DestM, MMinus1, NoJump)]

  const TopToD: seq<Instr> := [Comment("D=stack[SP]"), A(Sym("SP")), C(DestA, CompM, NoJump), C(DestD, CompM, NoJump)]

  /** `R13 = D`. */
  const SaveR13: seq<Instr> := [A(Sym("R13")), C(DestM, CompD, NoJump)]

  const StoreDThroughR13: seq<Instr> := [Comment("*R13=D"), A(Sym("R13")), C(DestA, CompM, NoJump), C(DestM, CompD, NoJump)]

  function PushBlock(name: string, index: I32, note: string, load: seq<Instr>): (r: seq<Instr>)
    requires Straight(load)
    ensures Straight(r)
  {
    var head := [Comment("start ======== push " + name + " " + ShowInt(index)), Comment(note)];
    var tail := [Comment("end ======== push " + name + " " + ShowInt(index)), Blank];
    StraightAppend(head, load);
    StraightAppend(head + load, PushD);
    StraightAppend(head + load + PushD, tail);
    head + load + PushD + tail
  }

  function PopBlock(name: string, index: I32, body: seq<Instr>): (r: seq<Instr>)
    requires Straight(body)
    ensures Straight(r)
  {
    var head := [Comment("start ======== pop " + name + " " + ShowInt(index))];
    var tail := [Comment("end ======== pop " + name + " " + ShowInt(index)), Blank];
    StraightAppend(head, body);
    StraightAppend(head + body, tail);
    head + body + tail
  }

  function PushConstant(index: I32): (r: seq<Instr>)
    ensures Straight(r)
  {
    PushBlock("constant", index, "D=" + ShowInt(index), [A(Lit(index)), C(DestD, CompA, NoJump)])
  }

  function PushTemp(index: I32): (r: seq<Instr>)
    requires !TempOverflows(index)
    ensures Straight(r)
  {
    PushBlock("temp", index, "D=temp+" + ShowInt(index), [A(Lit(index + 5)), C(DestD, CompM, NoJump)])
  }

  function PushStatic(filename: string, index: I32): (r: seq<Instr>)
    ensures Straight(r)
  {
    PushBlock("static", index, "D=static+" + ShowInt(index), [A(Sym(StaticName(filename, index))), C(DestD, CompM, NoJump)])
  }

  function PushPointer(index: I32): (r: seq<Instr>)
    ensures Straight(r)
  {
    PushBlock("pointer", index, "D= value of pointer " + ShowInt(index), [A(Lit(PointerAddress(index))), C(DestD, CompM, NoJump)])
  }

  /** `D = RAM[base] + index`: the address of entry `index` of a mapped segment. */
  function OffsetAddress(base: string, index: I32): (r: seq<Instr>)
    ensures Straight(r)
  {
    [A(Sym(base)), C(DestD, CompM, NoJump), A(Lit(index)), C(DestD, DPlusA, NoJump)]
  }

  /** `D = RAM[RAM[base] + index]`, then push `D`. */
  function PushMem(segment: string, index: I32): (r: seq<Instr>)
    requires segment in MemSegMap
    ensures Straight(r)
  {
    var base := MemSegMap[segment];
    StraightAppend(OffsetAddress(base, index), [C(DestA, CompD, NoJump), C(DestD, CompM, NoJump)]);
    PushBlock(base, index, "D=" + base + "+" + ShowInt(index),
      OffsetAddress(base, index) + [C(DestA, CompD, NoJump), C(DestD, CompM, NoJump)])
  }

  /** Pop into `D`, then store `D` where `store` points. */
  function PopThen(name: string, index: I32, store: seq<Instr>): (r: seq<Instr>)
    requires Straight(store)
    ensures Straight(r)
  {
    StraightAppend(DecSp, TopToD);
    StraightAppend(DecSp + TopToD, store);
    PopBlock(name, index, DecSp + TopToD + store)
  }

  /** Pop after saving the target address in R13, then store through R13. */
  function PopThroughR13(name: string, index: I32, address: seq<Instr>): (r: seq<Instr>)
    requires Straight(address)
    ensures Straight(r)
  {
    var save := address + SaveR13;
    StraightAppend(address, SaveR13);
    StraightAppend(DecSp, save);
    StraightAppend(DecSp + save, TopToD);
    StraightAppend(DecSp + save + TopToD, StoreDThroughR13);
    PopBlock(name, index, DecSp + save + TopToD + StoreDThroughR13)
  }

  function PopTemp(index: I32): (r: seq<Instr>)
    requires !TempOverflows(index)
    ensures Straight(r)
  {
    PopThroughR13("temp", index,
      [Comment("R13=addr(temp+" + ShowInt(index) + ")"), A(Lit(index + 5)), C(DestD, CompA, NoJump)])
  }

  function PopStatic(filename: string, index: I32): (r: seq<Instr>)
    ensures Straight(r)
  {
    PopThen("static", index,
      [Comment("*{filename}.i=D"), A(Sym(StaticName(filename, index))), C(DestM, CompD, NoJump)])
  }

  function PopPointer(index: I32): (r: seq<Instr>)
    ensures Straight(r)
  {
    PopThen("pointer", index,
      [Comment("*(pointer " + ShowInt(index) + ")=D"), A(Lit(PointerAddress(index))), C(DestM, CompD, NoJump)])
  }

  /** Saves `RAM[base] + index` in R13 and stores the popped value there. */
  function PopMem(segment: string, index: I32): (r: seq<Instr>)
    requires segment in MemSegMap
    ensures Straight(r)
  {
    var base := MemSegMap[segment];
    StraightAppend([Comment("R13=addr(" + base + "+" + ShowInt(index) + ")")], OffsetAddress(base, index));
    PopThroughR13(base, index,
      [Comment("R13=addr(" + base + "+" + ShowInt(index) + ")")] + OffsetAddress(base, index))
  }

  /** The block for `push segment index`. */
  function WritePush(filename: string, segment: string, index: I32): (r: Result<seq<Instr>, WriteError>)
    ensures r.Success? <==> IsPushSegment(segment) && !(segment == "temp" && TempOverflows(index))
    ensures r == Failure(Overflow) <==> segment == "temp" && TempOverflows(index)
    ensures r.Failure? && !r.error.Overflow? ==> r.error == UnknownSegment(segment)
    ensures r.Success? ==> Straight(r.value)
  {
    if segment == "constant" then Success(PushConstant(index))
    else if segment == "temp" then
      if TempOverflows(index) then Failure(Overflow) else Success(PushTemp(index))
    else if segment == "static" then Success(PushStatic(filename, index))
    else if segment == "pointer" then Success(PushPointer(index))
    else if segment in MemSegMap then Success(PushMem(segment, index))
    else Failure(UnknownSegment(segment))
  }

  /** The block for `pop segment index`. */
  function WritePop(filename: string, segment: string, index: I32): (r: Result<seq<Instr>, WriteError>)
    ensures r.Success? <==> IsPopSegment(segment) && !(segment == "temp" && TempOverflows(index))
    ensures r == Failure(Overflow) <==> segment == "temp" && TempOverflows(index)
    ensures r.Failure? && !r.error.Overflow? ==> r.error == UnknownSegment(segment)
    ensures r.Success? ==> Straight(r.value)
  {
    if segment == "temp" then
      if TempOverflows(index) then Failure(Overflow) else Success(PopTemp(index))
    else if segment == "static" then Success(PopStatic(filename, index))
    else if segment == "pointer" then Success(PopPointer(index))
    else if segment in MemSegMap then Success(PopMem(segment, index))
    else Failure(UnknownSegment(segment))
  }

  /** Dispatch on the verb: `push`, `pop`, or a failure. */
  function WritePushPop(filename: string, verb: string, segment: string, index: I32): (r: Result<seq<Instr>, WriteError>)
    ensures verb == "push" ==> r == WritePush(filename, segment, index)
    ensures verb == "pop" ==> r == WritePop(filename, segment, index)
    ensures verb != "push" && verb != "pop" <==> r == Failure(BadPushPopVerb(verb))
  {
    if verb == "push" then WritePush(filename, segment, index)
    else if verb == "pop" then WritePop(filename, segment, index)
    else Failure(BadPushPopVerb(verb))
  }

  /** Operations combining the two top entries into one value. */
  predicate IsBinary(cmd: string) {
    cmd in {"add", "sub", "and", "or"}
  }

  predicate IsComparison(cmd: string) {
    cmd in {"eq", "gt", "lt"}
  }

  predicate IsUnary(cmd: string) {
    cmd in {"neg", "not"}
  }

  /** How `x op y` is computed with `D = x` and `M = y`. */
  function BinaryComp(cmd: string): Comp
    requires IsBinary(cmd)
  {
    if cmd == "add" then DPlusM
    else if cmd == "sub" then DMinusM
    else if cmd == "and" then DAndM
    else DOrM
  }

  function BinarySymbol(cmd: string): string
    requires IsBinary(cmd)
  {
    if cmd == "add" then "+" else if cmd == "sub" then "-" else if cmd == "and" then "&" else "|"
  }

  /** The jump taken when the comparison holds of `x - y`. */
  function CompareJump(cmd: string): Jump
    requires IsComparison(cmd)
  {
    if cmd == "eq" then JEQ else if cmd == "gt" then JGT else JLT
  }

  function CompareSymbol(cmd: string): string
    requires IsComparison(cmd)
  {
    if cmd == "eq" then "==" else if cmd == "gt" then ">" else "<"
  }

  function HitLabel(id: string): string {
    "HIT_" + id
  }

  function ContinueLabel(id: string): string {
    "CONTINUE_" + id
  }

  /** Load `x` (temp 1) into `D` and point `A` at `y` (temp 0). */
  const LoadOperands: seq<Instr> := [
    A(Lit(5)), C(DestA, APlus1, NoJump), C(DestD, CompM, NoJump), A(Lit(5))]

  /** Pops the operands into temp 0 (and temp 1). */
  function ArithHead(cmd: string, pops: seq<Instr>, note: string): (r: seq<Instr>)
    requires Straight(pops)
    ensures Straight(r)
  {
    StraightAppend([Comment("start ======= " + cmd)], pops);
    StraightAppend([Comment("start ======= " + cmd)] + pops, [Comment("start ======= " + note)]);
    [Comment("start ======= " + cmd)] + pops + [Comment("start ======= " + note)]
  }

  /** Pushes temp 0, the result. */
  function ArithTail(cmd: string, note: string): (r: seq<Instr>)
    ensures Straight(r)
  {
    StraightAppend([Comment("end ======= " + note), Blank], PushTemp(0));
    StraightAppend([Comment("end ======= " + note), Blank] + PushTemp(0), [Comment("end ======= " + cmd), Blank]);
    [Comment("end ======= " + note), Blank] + PushTemp(0) + [Comment("end ======= " + cmd), Blank]
  }

  /** Pops into temp 0 (and temp 1), runs `body` on them, and pushes temp 0. */
  function ArithBlock(cmd: string, pops: seq<Instr>, note: string, body: seq<Instr>): (r: seq<Instr>)
    requires Straight(pops)
    ensures Labels(r) == Labels(body)
    ensures Straight(body) ==> Straight(r)
  {
    var head := ArithHead(cmd, pops, note);
    var tail := ArithTail(cmd, note);
    StraightAppend(head, body);
    StraightAppend(head + body, tail);
    StraightLabels(head);
    StraightLabels(tail);
    LabelsAppend(head, body);
    LabelsAppend(head + body, tail);
    head + body + tail
  }

  function BinaryBlock(cmd: string): (r: seq<Instr>)
    requires IsBinary(cmd)
    ensures Straight(r)
  {
    StraightAppend(PopTemp(0), PopTemp(1));
    StraightAppend(LoadOperands, [C(DestM, BinaryComp(cmd), NoJump)]);
    ArithBlock(cmd, PopTemp(0) + PopTemp(1), "temp0 = temp1 " + BinarySymbol(cmd) + " temp0",
      LoadOperands + [C(DestM, BinaryComp(cmd), NoJump)])
  }

  /** The conditional part of a comparison: `temp0 = -1` when the jump is taken, else `0`. */
  function Branch(j: Jump, id: string): (r: seq<Instr>)
    ensures Labels(r) == {HitLabel(id), ContinueLabel(id)}
  {
    var r := [A(Sym(HitLabel(id))), C(NoDest, CompD, j),
              A(Sym(ContinueLabel(id))), C(NoDest, Zero, JMP),
              Label(HitLabel(id)), A(Lit(5)), C(DestM, MinusOne, NoJump),
              Label(ContinueLabel(id))];
    assert r[4].Label? && r[7].Label?;
    r
  }

  /** `temp0 = x - y`, `D = x - y`, then `temp0 = 0` before branching. */
  const Difference: seq<Instr> :=
    LoadOperands + [C(DestM, DMinusM, NoJump), C(DestD, CompM, NoJump), C(DestM, Zero, NoJump)]

  function CompareBlock(cmd: string, id: string): (r: seq<Instr>)
    requires IsComparison(cmd)
    ensures Labels(r) == {HitLabel(id), ContinueLabel(id)}
  {
    StraightAppend(PopTemp(0), PopTemp(1));
    StraightLabels(Difference);
    LabelsAppend(Difference, Branch(CompareJump(cmd), id));
    ArithBlock(cmd, PopTemp(0) + PopTemp(1), "temp0 := temp1 " + CompareSymbol(cmd) + " temp0",
      Difference + Branch(CompareJump(cmd), id))
  }

  /** How `op y` is computed with `M = y`. */
  function UnaryComp(cmd: string): Comp
    requires IsUnary(cmd)
  {
    if cmd == "neg" then NegM else NotM
  }

  function UnaryBlock(cmd: string): (r: seq<Instr>)
    requires IsUnary(cmd)
    ensures Straight(r)
  {
    ArithBlock(cmd, PopTemp(0), if cmd == "neg" then "temp0 = -temp0" else "temp0 = !temp0",
      [A(Lit(5)), C(DestM, UnaryComp(cmd), NoJump)])
  }

  /** The block for an arithmetic or logical command; `id` makes its labels unique. */
  function WriteArithmetic(cmd: string, id: string): (r: Result<seq<Instr>, WriteError>)
    ensures r.Success? <==> cmd in VmParser.ArithmeticKeywords
    ensures r.Failure? ==> r.error == UnknownArithmetic(cmd)
    ensures r.Success? && !IsComparison(cmd) ==> Straight(r.value)
    ensures r.Success? && IsComparison(cmd) ==> Labels(r.value) == {HitLabel(id), ContinueLabel(id)}
  {
    if IsBinary(cmd) then Success(BinaryBlock(cmd))
    else if IsComparison(cmd) then Success(CompareBlock(cmd, id))
    else if IsUnary(cmd) then Success(UnaryBlock(cmd))
    else Failure(UnknownArithmetic(cmd))
  }

  /** The closing loop: `(END) @END 0;JMP`. */
  function Close(): (r: seq<Instr>)
    ensures Labels(r) == {"END"}
  {
    var r := [Comment("end the program"), Label("END"), A(Sym("END")), C(NoDest, Zero, JMP)];
    assert r[1].Label?;
    r
  }
}
