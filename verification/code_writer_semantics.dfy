/**
 * What the emitted push and pop blocks do to the Hack machine's RAM, stated
 * against the VM's stack discipline: `SP` (RAM[0]) points one past the top
 * of the stack, `push` stores at `SP` and advances it, `pop` retreats it and
 * moves the cell it then points to.
 */
module CodeWriterSemantics {
  import opened Wrappers
  import opened Numbers
  import opened Hack
  import opened VmCodeWriter

  function Sp(ram: Ram): Word {
    Read(ram, SP)
  }

  /** The entry on top of the stack. */
  function Top(ram: Ram): Word {
    Read(ram, Sub(Sp(ram), 1))
  }

  /** The entry below the top. */
  function Second(ram: Ram): Word {
    Read(ram, Sub(Sp(ram), 2))
  }

  /** A cell above the sixteen registers R0..R15, where the VM keeps its stack. */
  predicate UserCell(w: Word) {
    w >= 16
  }

  /** The VM's `push v`. */
  function PushRam(ram: Ram, v: Word): Ram {
    Write(Write(ram, Sp(ram), v), SP, Add(Sp(ram), 1))
  }

  /** The VM's `pop` into `addr`. */
  function PopRam(ram: Ram, addr: Word): Ram {
    Write(Write(ram, SP, Sub(Sp(ram), 1)), addr, Top(ram))
  }

  /** `pop` into `addr` with the address parked in R13 first. */
  function PopRamViaR13(ram: Ram, addr: Word): Ram {
    Write(Write(Write(ram, SP, Sub(Sp(ram), 1)), R13, addr), addr, Top(ram))
  }

  function RamOf(o: Option<Machine>): Option<Ram> {
    match o
    case None => None
    case Some(m) => Some(m.ram)
  }

  /**
   * The cell `segment index` denotes when read or written, or `None` where
   * the emitted code cannot run: a negative or too large `@` constant, or a
   * static variable the symbol table does not place.
   */
  function SegmentCell(filename: string, segment: string, index: I32, statics: map<string, Word>, ram: Ram): Option<Word> {
    if segment == "temp" then
      if 0 <= index + 5 <= MAX_LITERAL then Some((index + 5) as Word) else None
    else if segment == "static" then
      var name := StaticName(filename, index);
      if name in statics then Some(statics[name]) else None
    else if segment == "pointer" then
      Some(if index == 0 then THIS else THAT)
    else if segment in MemSegMap then
      if 0 <= index <= MAX_LITERAL then Some(Add(Read(ram, BaseRegister(segment)), index)) else None
    else None
  }

  /** Segments whose pop parks the target address in R13. */
  predicate PopsViaR13(segment: string) {
    segment == "temp" || segment in MemSegMap
  }

  // Effects of the fixed snippets.

  lemma PushDEffect(tab: map<string, Word>, m: Machine)
    requires Standard(tab) && UserCell(Sp(m.ram))
    ensures Exec(PushD, tab, m) == Some(m.(a := SP, ram := PushRam(m.ram, m.d)))
  {
    var stored := Write(m.ram, Sp(m.ram), m.d);
    assert Exec(PushD, tab, m) == Some(Machine(SP, m.d, Write(stored, SP, Add(Read(stored, SP), 1))));
  }

  lemma DecSpEffect(tab: map<string, Word>, m: Machine)
    requires Standard(tab)
    ensures Exec(DecSp, tab, m) == Some(m.(a := SP, ram := Write(m.ram, SP, Sub(Sp(m.ram), 1))))
  {
  }

  lemma TopToDEffect(tab: map<string, Word>, m: Machine)
    requires Standard(tab)
    ensures Exec(TopToD, tab, m) == Some(m.(a := Sp(m.ram), d := Read(m.ram, Sp(m.ram))))
  {
  }

  lemma SaveR13Effect(tab: map<string, Word>, m: Machine)
    requires Standard(tab)
    ensures Exec(SaveR13, tab, m) == Some(m.(a := R13, ram := Write(m.ram, R13, m.d)))
  {
  }

  lemma StoreDThroughR13Effect(tab: map<string, Word>, m: Machine)
    requires Standard(tab)
    ensures Exec(StoreDThroughR13, tab, m)
         == Some(m.(a := Read(m.ram, R13), ram := Write(m.ram, Read(m.ram, R13), m.d)))
  {
  }

  /** `@n` followed by `D=A` or `D=M`: the constant faults outside 0..32767. */
  lemma LoadLiteralEffect(n: int, c: Comp, tab: map<string, Word>, m: Machine)
    requires c == CompA || c == CompM
    ensures 0 <= n <= MAX_LITERAL ==>
      Exec([A(Lit(n)), C(DestD, c, NoJump)], tab, m) == Some(m.(a := n as Word, d := Eval(c, m.(a := n as Word))))
    ensures !(0 <= n <= MAX_LITERAL) ==> Exec([A(Lit(n)), C(DestD, c, NoJump)], tab, m) == None
  {
    var code := [A(Lit(n)), C(DestD, c, NoJump)];
    assert code[1..] == [code[1]];
    if 0 <= n <= MAX_LITERAL {
      var m1 := m.(a := n as Word);
      assert Exec1(code[0], tab, m) == Some(m1);
      assert Exec([code[1]], tab, m1) == Some(m1.(d := Eval(c, m1)));
    }
  }

  /** `@symbol` followed by `D=M`: the symbol must be in the table. */
  lemma LoadSymbolEffect(name: string, tab: map<string, Word>, m: Machine)
    ensures name in tab ==>
      Exec([A(Sym(name)), C(DestD, CompM, NoJump)], tab, m) == Some(m.(a := tab[name], d := Read(m.ram, tab[name])))
    ensures name !in tab ==> Exec([A(Sym(name)), C(DestD, CompM, NoJump)], tab, m) == None
  {
    var code := [A(Sym(name)), C(DestD, CompM, NoJump)];
    assert code[1..] == [code[1]];
    if name in tab {
      var m1 := m.(a := tab[name]);
      assert Exec1(code[0], tab, m) == Some(m1);
      assert Exec([code[1]], tab, m1) == Some(m1.(d := Read(m.ram, tab[name])));
    }
  }

  /** `D = RAM[base] + index`. */
  lemma OffsetAddressEffect(base: string, index: I32, tab: map<string, Word>, m: Machine)
    requires base in tab
    ensures 0 <= index <= MAX_LITERAL ==>
      Exec(OffsetAddress(base, index), tab, m)
        == Some(m.(a := index as Word, d := Add(Read(m.ram, tab[base]), index)))
    ensures !(0 <= index <= MAX_LITERAL) ==> Exec(OffsetAddress(base, index), tab, m) == None
  {
    var first := [A(Sym(base)), C(DestD, CompM, NoJump)];
    var second := [A(Lit(index)), C(DestD, DPlusA, NoJump)];
    assert OffsetAddress(base, index) == first + second;
    ExecAppend(first, second, tab, m);
    LoadSymbolEffect(base, tab, m);
    var m1 := m.(a := tab[base], d := Read(m.ram, tab[base]));
    if 0 <= index <= MAX_LITERAL {
      var w := index as Word;
      var m2 := m1.(a := w);
      assert second[1..] == [second[1]];
      assert Exec1(second[0], tab, m1) == Some(m2);
      assert Eval(DPlusA, m2) == Add(m1.d, w);
      assert Exec1(second[1], tab, m2) == Some(m2.(d := Add(m1.d, w)));
      assert Exec([second[1]], tab, m2) == Some(m2.(d := Add(m1.d, w)));
    } else {
      assert Exec1(second[0], tab, m1) == None;
    }
  }

  // Block structure.

  /** A push block loads `D`, then pushes it. */
  lemma ExecPushBlock(name: string, index: I32, note: string, load: seq<Instr>, tab: map<string, Word>, m: Machine)
    requires Straight(load)
    ensures Exec(PushBlock(name, index, note, load), tab, m) == Then(Exec(load, tab, m), PushD, tab)
  {
    var head := [Comment("start ======== push " + name + " " + ShowInt(index)), Comment(note)];
    var tail := [Comment("end ======== push " + name + " " + ShowInt(index)), Blank];
    ExecFramed(head, load + PushD, tail, tab, m);
    ExecAppend(load, PushD, tab, m);
    assert head + (load + PushD) + tail == PushBlock(name, index, note, load);
  }

  /** A direct pop block: `SP--`, `D = stack[SP]`, then `store`. */
  lemma ExecPopThen(name: string, index: I32, store: seq<Instr>, tab: map<string, Word>, m: Machine)
    requires Straight(store)
    ensures Exec(PopThen(name, index, store), tab, m) == Then(Then(Exec(DecSp, tab, m), TopToD, tab), store, tab)
  {
    var head := [Comment("start ======== pop " + name + " " + ShowInt(index))];
    var tail := [Comment("end ======== pop " + name + " " + ShowInt(index)), Blank];
    var body := DecSp + TopToD + store;
    ExecFramed(head, body, tail, tab, m);
    ExecAppend(DecSp + TopToD, store, tab, m);
    ExecAppend(DecSp, TopToD, tab, m);
    assert head + body + tail == PopThen(name, index, store);
  }

  /** A pop through R13: `SP--`, `R13 = address`, `D = stack[SP]`, `RAM[R13] = D`. */
  lemma ExecPopThroughR13(name: string, index: I32, address: seq<Instr>, tab: map<string, Word>, m: Machine)
    requires Straight(address)
    ensures Exec(PopThroughR13(name, index, address), tab, m)
         == Then(Then(Then(Then(Exec(DecSp, tab, m), address, tab), SaveR13, tab), TopToD, tab), StoreDThroughR13, tab)
  {
    var head := [Comment("start ======== pop " + name + " " + ShowInt(index))];
    var tail := [Comment("end ======== pop " + name + " " + ShowInt(index)), Blank];
    var save := address + SaveR13;
    var body := DecSp + save + TopToD + StoreDThroughR13;
    ExecFramed(head, body, tail, tab, m);
    ExecAppend(DecSp + save + TopToD, StoreDThroughR13, tab, m);
    ExecAppend(DecSp + save, TopToD, tab, m);
    ExecAppend(DecSp, save, tab, m);
    match Exec(DecSp, tab, m)
    case None =>
    case Some(m1) => ExecAppend(address, SaveR13, tab, m1);
    assert head + body + tail == PopThroughR13(name, index, address);
  }

  /** Straight blocks see only the static symbols and the predefined ones. */
  lemma StraightSymbols(block: seq<Instr>, statics: map<string, Word>)
    requires Straight(block)
    ensures Symbols(block, statics) == statics + Predefined
    ensures Standard(Symbols(block, statics))
  {
    StraightLabels(block);
    NoLabelsFrom(block, 0);
    OverEmpty(statics, LabelTable(block), Predefined);
    SymbolsStandard(block, statics);
  }

  lemma OverEmpty<K, V>(low: map<K, V>, empty: map<K, V>, high: map<K, V>)
    requires empty == map[]
    ensures low + empty + high == low + high
  {
  }

  /** Every static symbol holds a dot, which no predefined symbol does. */
  lemma StaticNotPredefined(filename: string, index: I32)
    ensures StaticName(filename, index) !in Predefined
  {
    var name := StaticName(filename, index);
    assert name[|filename|] == '.';
    assert !PlainName(name);
    PredefinedPlain();
  }

  // Push blocks.

  /**
   * A push block whose load leaves RAM alone pushes whatever the load put
   * in `D`, and faults exactly when the load does.
   */
  lemma ExecPushBlockEffect(name: string, index: I32, note: string, load: seq<Instr>, tab: map<string, Word>, m: Machine)
    requires Straight(load) && Standard(tab) && UserCell(Sp(m.ram))
    requires Exec(load, tab, m).Some? ==> Exec(load, tab, m).value.ram == m.ram
    ensures Exec(load, tab, m).None? ==> Exec(PushBlock(name, index, note, load), tab, m) == None
    ensures Exec(load, tab, m).Some? ==>
      RamOf(Exec(PushBlock(name, index, note, load), tab, m)) == Some(PushRam(m.ram, Exec(load, tab, m).value.d))
  {
    ExecPushBlock(name, index, note, load, tab, m);
    match Exec(load, tab, m)
    case None =>
    case Some(loaded) => PushDEffect(tab, loaded);
  }

  /** Straight blocks run as straight-line code over the static and predefined symbols. */
  lemma RunBlockIsExec(block: seq<Instr>, statics: map<string, Word>, m: Machine)
    requires Straight(block)
    ensures Standard(statics + Predefined)
    ensures RunBlock(block, statics, m) == Exec(block, statics + Predefined, m)
  {
    StraightSymbols(block, statics);
    StraightLabels(block);
    RunBlockStraight(block, statics, m);
  }

  /**
   * A push block whose load leaves RAM alone pushes whatever the load put
   * in `D`, and faults exactly when the load does.
   */
  lemma RunPushBlock(name: string, index: I32, note: string, load: seq<Instr>, statics: map<string, Word>, m: Machine)
    requires Straight(load) && UserCell(Sp(m.ram))
    requires Exec(load, statics + Predefined, m).Some? ==> Exec(load, statics + Predefined, m).value.ram == m.ram
    ensures Exec(load, statics + Predefined, m).None? ==> RunBlock(PushBlock(name, index, note, load), statics, m) == None
    ensures Exec(load, statics + Predefined, m).Some? ==>
      RamOf(RunBlock(PushBlock(name, index, note, load), statics, m)) == Some(PushRam(m.ram, Exec(load, statics + Predefined, m).value.d))
  {
    RunBlockIsExec(PushBlock(name, index, note, load), statics, m);
    ExecPushBlockEffect(name, index, note, load, statics + Predefined, m);
  }

  /** `push constant k` pushes `k`; a constant outside 0..32767 cannot be loaded. */
  lemma PushConstantEffect(index: I32, statics: map<string, Word>, m: Machine)
    requires UserCell(Sp(m.ram))
    ensures 0 <= index <= MAX_LITERAL ==> RamOf(RunBlock(PushConstant(index), statics, m)) == Some(PushRam(m.ram, index))
    ensures !(0 <= index <= MAX_LITERAL) ==> RunBlock(PushConstant(index), statics, m) == None
  {
    LoadLiteralEffect(index, CompA, statics + Predefined, m);
    RunPushBlock("constant", index, "D=" + ShowInt(index), [A(Lit(index)), C(DestD, CompA, NoJump)], statics, m);
  }

  lemma ExecPushTempEffect(index: I32, tab: map<string, Word>, m: Machine)
    requires !TempOverflows(index) && 0 <= index + 5 <= MAX_LITERAL
    requires Standard(tab) && UserCell(Sp(m.ram))
    ensures RamOf(Exec(PushTemp(index), tab, m)) == Some(PushRam(m.ram, Read(m.ram, index + 5)))
  {
    LoadLiteralEffect(index + 5, CompM, tab, m);
    ExecPushBlockEffect("temp", index, "D=temp+" + ShowInt(index), [A(Lit(index + 5)), C(DestD, CompM, NoJump)], tab, m);
  }

  /** `push temp i` pushes RAM[5 + i]. */
  lemma PushTempEffect(index: I32, statics: map<string, Word>, m: Machine)
    requires !TempOverflows(index) && UserCell(Sp(m.ram))
    ensures 0 <= index + 5 <= MAX_LITERAL ==>
      RamOf(RunBlock(PushTemp(index), statics, m)) == Some(PushRam(m.ram, Read(m.ram, index + 5)))
    ensures !(0 <= index + 5 <= MAX_LITERAL) ==> RunBlock(PushTemp(index), statics, m) == None
  {
    LoadLiteralEffect(index + 5, CompM, statics + Predefined, m);
    RunPushBlock("temp", index, "D=temp+" + ShowInt(index), [A(Lit(index + 5)), C(DestD, CompM, NoJump)], statics, m);
  }

  /** `push pointer i` pushes THIS for `i == 0` and THAT otherwise. */
  lemma PushPointerEffect(index: I32, statics: map<string, Word>, m: Machine)
    requires UserCell(Sp(m.ram))
    ensures RamOf(RunBlock(PushPointer(index), statics, m))
         == Some(PushRam(m.ram, Read(m.ram, if index == 0 then THIS else THAT)))
  {
    LoadLiteralEffect(PointerAddress(index), CompM, statics + Predefined, m);
    RunPushBlock("pointer", index, "D= value of pointer " + ShowInt(index),
      [A(Lit(PointerAddress(index))), C(DestD, CompM, NoJump)], statics, m);
  }

  /** `push static i` pushes the cell the symbol `{filename}.{i}` names. */
  lemma PushStaticEffect(filename: string, index: I32, statics: map<string, Word>, m: Machine)
    requires UserCell(Sp(m.ram))
    ensures StaticName(filename, index) in statics ==>
      RamOf(RunBlock(PushStatic(filename, index), statics, m))
        == Some(PushRam(m.ram, Read(m.ram, statics[StaticName(filename, index)])))
    ensures StaticName(filename, index) !in statics ==> RunBlock(PushStatic(filename, index), statics, m) == None
  {
    var name := StaticName(filename, index);
    StaticNotPredefined(filename, index);
    LoadSymbolEffect(name, statics + Predefined, m);
    RunPushBlock("static", index, "D=static+" + ShowInt(index), [A(Sym(name)), C(DestD, CompM, NoJump)], statics, m);
  }

  /** `push local i` (and argument, this, that) pushes RAM[RAM[base] + i]. */
  lemma PushMemEffect(segment: string, index: I32, statics: map<string, Word>, m: Machine)
    requires segment in MemSegMap && UserCell(Sp(m.ram))
    ensures 0 <= index <= MAX_LITERAL ==>
      RamOf(RunBlock(PushMem(segment, index), statics, m))
        == Some(PushRam(m.ram, Read(m.ram, Add(Read(m.ram, BaseRegister(segment)), index))))
    ensures !(0 <= index <= MAX_LITERAL) ==> RunBlock(PushMem(segment, index), statics, m) == None
  {
    var base := MemSegMap[segment];
    var tab := statics + Predefined;
    var tail := [C(DestA, CompD, NoJump), C(DestD, CompM, NoJump)];
    var load := OffsetAddress(base, index) + tail;
    ExecAppend(OffsetAddress(base, index), tail, tab, m);
    OffsetAddressEffect(base, index, tab, m);
    if 0 <= index <= MAX_LITERAL {
      var addr := Add(Read(m.ram, BaseRegister(segment)), index);
      var m1 := m.(a := index, d := addr);
      assert Exec(tail, tab, m1) == Some(m.(a := addr, d := Read(m.ram, addr)));
    }
    RunPushBlock(base, index, "D=" + base + "+" + ShowInt(index), load, statics, m);
  }

  // Pop blocks.

  /** `@target` followed by `M=D`, after a comment. */
  lemma StoreDAtEffect(note: string, target: Addr, tab: map<string, Word>, m: Machine)
    ensures Target(target, tab).None? ==> Exec([Comment(note), A(target), C(DestM, CompD, NoJump)], tab, m) == None
    ensures Target(target, tab).Some? ==>
      var t := Target(target, tab).value;
      Exec([Comment(note), A(target), C(DestM, CompD, NoJump)], tab, m) == Some(m.(a := t, ram := Write(m.ram, t, m.d)))
  {
    var code := [Comment(note), A(target), C(DestM, CompD, NoJump)];
    assert code == [Comment(note)] + code[1..];
    ExecAfterInert([Comment(note)], code[1..], tab, m);
    assert code[1..][1..] == [code[2]];
    match Target(target, tab)
    case None =>
    case Some(t) =>
      var m1 := m.(a := t);
      assert Exec1(code[1], tab, m) == Some(m1);
      assert Exec([code[2]], tab, m1) == Some(m1.(ram := Write(m.ram, t, m.d)));
  }

  /**
   * A direct pop block moves the top entry to the cell its store names,
   * and faults exactly when that name cannot be resolved.
   */
  lemma RunPopThen(name: string, index: I32, note: string, target: Addr, statics: map<string, Word>, m: Machine)
    requires UserCell(Sub(Sp(m.ram), 1))
    ensures Target(target, statics + Predefined).None? ==>
      RunBlock(PopThen(name, index, [Comment(note), A(target), C(DestM, CompD, NoJump)]), statics, m) == None
    ensures Target(target, statics + Predefined).Some? ==>
      RamOf(RunBlock(PopThen(name, index, [Comment(note), A(target), C(DestM, CompD, NoJump)]), statics, m))
        == Some(PopRam(m.ram, Target(target, statics + Predefined).value))
  {
    var store := [Comment(note), A(target), C(DestM, CompD, NoJump)];
    var block := PopThen(name, index, store);
    StraightSymbols(block, statics);
    StraightLabels(block);
    RunBlockStraight(block, statics, m);
    var tab := statics + Predefined;
    ExecPopThen(name, index, store, tab, m);
    DecSpEffect(tab, m);
    var m1 := m.(a := SP, ram := Write(m.ram, SP, Sub(Sp(m.ram), 1)));
    TopToDEffect(tab, m1);
    var m2 := m1.(a := Sp(m1.ram), d := Read(m1.ram, Sp(m1.ram)));
    assert m2.d == Top(m.ram);
    StoreDAtEffect(note, target, tab, m2);
  }

  /** `pop static i` stores into the cell `{filename}.{i}` names. */
  lemma PopStaticEffect(filename: string, index: I32, statics: map<string, Word>, m: Machine)
    requires UserCell(Sub(Sp(m.ram), 1))
    ensures StaticName(filename, index) in statics ==>
      RamOf(RunBlock(PopStatic(filename, index), statics, m)) == Some(PopRam(m.ram, statics[StaticName(filename, index)]))
    ensures StaticName(filename, index) !in statics ==> RunBlock(PopStatic(filename, index), statics, m) == None
  {
    StaticNotPredefined(filename, index);
    RunPopThen("static", index, "*{filename}.i=D", Sym(StaticName(filename, index)), statics, m);
  }

  /** `pop pointer i` stores into THIS for `i == 0` and into THAT otherwise. */
  lemma PopPointerEffect(index: I32, statics: map<string, Word>, m: Machine)
    requires UserCell(Sub(Sp(m.ram), 1))
    ensures RamOf(RunBlock(PopPointer(index), statics, m)) == Some(PopRam(m.ram, if index == 0 then THIS else THAT))
  {
    RunPopThen("pointer", index, "*(pointer " + ShowInt(index) + ")=D", Lit(PointerAddress(index)), statics, m);
  }

  /** The machine right after `SP--`. */
  function Decremented(m: Machine): (r: Machine)
    ensures Sp(r.ram) == Sub(Sp(m.ram), 1)
    ensures forall w :: w != SP ==> Read(r.ram, w) == Read(m.ram, w)
  {
    m.(a := SP, ram := Write(m.ram, SP, Sub(Sp(m.ram), 1)))
  }

  /**
   * A pop through R13 moves the top entry to the address its address code
   * leaves in `D`, parking that address in R13; it faults exactly when the
   * address code does.
   */
  lemma ExecPopThroughR13Effect(name: string, index: I32, address: seq<Instr>, tab: map<string, Word>, m: Machine)
    requires Straight(address) && Standard(tab) && UserCell(Sub(Sp(m.ram), 1))
    requires Exec(address, tab, Decremented(m)).Some? ==> Exec(address, tab, Decremented(m)).value.ram == Decremented(m).ram
    ensures Exec(address, tab, Decremented(m)).None? ==> Exec(PopThroughR13(name, index, address), tab, m) == None
    ensures Exec(address, tab, Decremented(m)).Some? ==>
      RamOf(Exec(PopThroughR13(name, index, address), tab, m))
        == Some(PopRamViaR13(m.ram, Exec(address, tab, Decremented(m)).value.d))
  {
    ExecPopThroughR13(name, index, address, tab, m);
    DecSpEffect(tab, m);
    var m1 := Decremented(m);
    match Exec(address, tab, m1)
    case None =>
    case Some(m2) =>
      var target := m2.d;
      SaveR13Effect(tab, m2);
      var m3 := m2.(a := R13, ram := Write(m1.ram, R13, target));
      TopToDEffect(tab, m3);
      assert Sp(m3.ram) == Sub(Sp(m.ram), 1);
      var m4 := m3.(a := Sp(m3.ram), d := Top(m.ram));
      StoreDThroughR13Effect(tab, m4);
  }

  /**
   * A pop through R13 moves the top entry to the address its address code
   * leaves in `D`, parking that address in R13; it faults exactly when the
   * address code does.
   */
  lemma RunPopThroughR13(name: string, index: I32, address: seq<Instr>, statics: map<string, Word>, m: Machine)
    requires Straight(address) && UserCell(Sub(Sp(m.ram), 1))
    requires Exec(address, statics + Predefined, Decremented(m)).Some? ==>
      Exec(address, statics + Predefined, Decremented(m)).value.ram == Decremented(m).ram
    ensures Exec(address, statics + Predefined, Decremented(m)).None? ==>
      RunBlock(PopThroughR13(name, index, address), statics, m) == None
    ensures Exec(address, statics + Predefined, Decremented(m)).Some? ==>
      RamOf(RunBlock(PopThroughR13(name, index, address), statics, m))
        == Some(PopRamViaR13(m.ram, Exec(address, statics + Predefined, Decremented(m)).value.d))
  {
    RunBlockIsExec(PopThroughR13(name, index, address), statics, m);
    ExecPopThroughR13Effect(name, index, address, statics + Predefined, m);
  }

  lemma ExecPopTempEffect(index: I32, tab: map<string, Word>, m: Machine)
    requires !TempOverflows(index) && 0 <= index + 5 <= MAX_LITERAL
    requires Standard(tab) && UserCell(Sub(Sp(m.ram), 1))
    ensures RamOf(Exec(PopTemp(index), tab, m)) == Some(PopRamViaR13(m.ram, index + 5))
  {
    var note := [Comment("R13=addr(temp+" + ShowInt(index) + ")")];
    var load := [A(Lit(index + 5)), C(DestD, CompA, NoJump)];
    assert note + load == [Comment("R13=addr(temp+" + ShowInt(index) + ")"), A(Lit(index + 5)), C(DestD, CompA, NoJump)];
    ExecAfterInert(note, load, tab, Decremented(m));
    LoadLiteralEffect(index + 5, CompA, tab, Decremented(m));
    ExecPopThroughR13Effect("temp", index, note + load, tab, m);
  }

  /** `pop temp i` stores into RAM[5 + i], leaving `5 + i` in R13. */
  lemma PopTempEffect(index: I32, statics: map<string, Word>, m: Machine)
    requires !TempOverflows(index) && UserCell(Sub(Sp(m.ram), 1))
    ensures 0 <= index + 5 <= MAX_LITERAL ==>
      RamOf(RunBlock(PopTemp(index), statics, m)) == Some(PopRamViaR13(m.ram, index + 5))
    ensures !(0 <= index + 5 <= MAX_LITERAL) ==> RunBlock(PopTemp(index), statics, m) == None
  {
    var tab := statics + Predefined;
    var note := [Comment("R13=addr(temp+" + ShowInt(index) + ")")];
    var load := [A(Lit(index + 5)), C(DestD, CompA, NoJump)];
    assert note + load == [Comment("R13=addr(temp+" + ShowInt(index) + ")"), A(Lit(index + 5)), C(DestD, CompA, NoJump)];
    ExecAfterInert(note, load, tab, Decremented(m));
    LoadLiteralEffect(index + 5, CompA, tab, Decremented(m));
    RunPopThroughR13("temp", index, note + load, statics, m);
  }

  /** `pop local i` (and argument, this, that) stores into RAM[RAM[base] + i], leaving that address in R13. */
  lemma PopMemEffect(segment: string, index: I32, statics: map<string, Word>, m: Machine)
    requires segment in MemSegMap && UserCell(Sub(Sp(m.ram), 1))
    ensures 0 <= index <= MAX_LITERAL ==>
      RamOf(RunBlock(PopMem(segment, index), statics, m))
        == Some(PopRamViaR13(m.ram, Add(Read(m.ram, BaseRegister(segment)), index)))
    ensures !(0 <= index <= MAX_LITERAL) ==> RunBlock(PopMem(segment, index), statics, m) == None
  {
    var base := MemSegMap[segment];
    var tab := statics + Predefined;
    var note := [Comment("R13=addr(" + base + "+" + ShowInt(index) + ")")];
    ExecAfterInert(note, OffsetAddress(base, index), tab, Decremented(m));
    OffsetAddressEffect(base, index, tab, Decremented(m));
    RunPopThroughR13(base, index, note + OffsetAddress(base, index), statics, m);
  }

  // Whole commands.

  /**
   * `push segment index` for every segment but `constant`: it pushes the
   * content of the cell the segment denotes, and faults exactly when no
   * such cell can be addressed.
   */
  lemma PushEffect(filename: string, segment: string, index: I32, statics: map<string, Word>, m: Machine)
    requires segment != "constant" && WritePush(filename, segment, index).Success?
    requires UserCell(Sp(m.ram))
    ensures RunBlock(WritePush(filename, segment, index).value, statics, m).None?
        <==> SegmentCell(filename, segment, index, statics, m.ram).None?
    ensures SegmentCell(filename, segment, index, statics, m.ram).Some? ==>
      RamOf(RunBlock(WritePush(filename, segment, index).value, statics, m))
        == Some(PushRam(m.ram, Read(m.ram, SegmentCell(filename, segment, index, statics, m.ram).value)))
  {
    if segment == "temp" {
      PushTempEffect(index, statics, m);
    } else if segment == "static" {
      PushStaticEffect(filename, index, statics, m);
    } else if segment == "pointer" {
      PushPointerEffect(index, statics, m);
    } else {
      PushMemEffect(segment, index, statics, m);
    }
  }

  /**
   * `pop segment index`: it moves the top entry into the cell the segment
   * denotes (parking the address in R13 for temp and the mapped segments),
   * and faults exactly when no such cell can be addressed.
   */
  lemma PopEffect(filename: string, segment: string, index: I32, statics: map<string, Word>, m: Machine)
    requires WritePop(filename, segment, index).Success?
    requires UserCell(Sub(Sp(m.ram), 1))
    ensures RunBlock(WritePop(filename, segment, index).value, statics, m).None?
        <==> SegmentCell(filename, segment, index, statics, m.ram).None?
    ensures SegmentCell(filename, segment, index, statics, m.ram).Some? ==>
      var cell := SegmentCell(filename, segment, index, statics, m.ram).value;
      RamOf(RunBlock(WritePop(filename, segment, index).value, statics, m))
        == Some(if PopsViaR13(segment) then PopRamViaR13(m.ram, cell) else PopRam(m.ram, cell))
  {
    var block := WritePop(filename, segment, index).value;
    var cell := SegmentCell(filename, segment, index, statics, m.ram);
    if segment == "temp" {
      assert block == PopTemp(index) && PopsViaR13(segment);
      assert cell == if 0 <= index + 5 <= MAX_LITERAL then Some((index + 5) as Word) else None;
      PopTempEffect(index, statics, m);
    } else if segment == "static" {
      assert block == PopStatic(filename, index) && !PopsViaR13(segment);
      PopStaticEffect(filename, index, statics, m);
    } else if segment == "pointer" {
      assert block == PopPointer(index) && !PopsViaR13(segment);
      assert cell == Some(if index == 0 then THIS else THAT);
      PopPointerEffect(index, statics, m);
    } else {
      assert segment in MemSegMap && block == PopMem(segment, index) && PopsViaR13(segment);
      assert cell == if 0 <= index <= MAX_LITERAL then Some(Add(Read(m.ram, BaseRegister(segment)), index)) else None;
      PopMemEffect(segment, index, statics, m);
    }
  }

  /** Straight blocks run one after the other. */
  lemma RunBlockSequence(first: seq<Instr>, second: seq<Instr>, statics: map<string, Word>, m: Machine)
    requires Straight(first) && Straight(second)
    ensures Straight(first + second)
    ensures RunBlock(first + second, statics, m)
         == (match RunBlock(first, statics, m) case None => None case Some(m1) => RunBlock(second, statics, m1))
  {
    StraightAppend(first, second);
    StraightSymbols(first, statics);
    StraightSymbols(second, statics);
    StraightSymbols(first + second, statics);
    StraightLabels(first);
    StraightLabels(second);
    StraightLabels(first + second);
    RunBlockStraight(first, statics, m);
    RunBlockStraight(first + second, statics, m);
    ExecAppend(first, second, statics + Predefined, m);
    match RunBlock(first, statics, m)
    case None =>
    case Some(m1) => RunBlockStraight(second, statics, m1);
  }

  /**
   * `push constant k` then `pop segment index` leaves `k` in the addressed
   * cell and `SP` where it was, provided that cell is not `SP` itself.
   */
  lemma PushConstantPopRoundTrip(filename: string, k: I32, segment: string, index: I32, statics: map<string, Word>, m: Machine)
    requires 0 <= k <= MAX_LITERAL
    requires WritePop(filename, segment, index).Success?
    requires UserCell(Sp(m.ram))
    requires SegmentCell(filename, segment, index, statics, m.ram).Some?
    requires SegmentCell(filename, segment, index, statics, m.ram).value != SP
    ensures Straight(PushConstant(k) + WritePop(filename, segment, index).value)
    ensures var out := RunBlock(PushConstant(k) + WritePop(filename, segment, index).value, statics, m);
      && out.Some?
      && Read(out.value.ram, SegmentCell(filename, segment, index, statics, m.ram).value) == k
      && Sp(out.value.ram) == Sp(m.ram)
  {
    var pop := WritePop(filename, segment, index).value;
    RunBlockSequence(PushConstant(k), pop, statics, m);
    PushConstantEffect(k, statics, m);
    var m1 := RunBlock(PushConstant(k), statics, m).value;
    assert m1.ram == PushRam(m.ram, k);
    StepBack(Sp(m.ram));
    assert Sub(Sp(m1.ram), 1) == Sp(m.ram);
    assert Top(m1.ram) == k;
    assert SegmentCell(filename, segment, index, statics, m1.ram) == SegmentCell(filename, segment, index, statics, m.ram);
    PopEffect(filename, segment, index, statics, m1);
  }

  /**
   * `pop segment index` then `push segment index` restores the top entry
   * and `SP`, provided the addressed cell is neither `SP` nor, for the
   * mapped segments, the base register the address is computed from.
   */
  lemma PopPushRoundTrip(filename: string, segment: string, index: I32, statics: map<string, Word>, m: Machine)
    requires WritePop(filename, segment, index).Success?
    requires UserCell(Sub(Sp(m.ram), 1))
    requires SegmentCell(filename, segment, index, statics, m.ram).Some?
    requires SegmentCell(filename, segment, index, statics, m.ram).value != SP
    requires segment in MemSegMap ==> SegmentCell(filename, segment, index, statics, m.ram).value != BaseRegister(segment)
    ensures WritePush(filename, segment, index).Success?
    ensures Straight(WritePop(filename, segment, index).value + WritePush(filename, segment, index).value)
    ensures var out := RunBlock(WritePop(filename, segment, index).value + WritePush(filename, segment, index).value, statics, m);
      && out.Some?
      && Top(out.value.ram) == Top(m.ram)
      && Sp(out.value.ram) == Sp(m.ram)
  {
    var pop := WritePop(filename, segment, index).value;
    var push := WritePush(filename, segment, index).value;
    var cell := SegmentCell(filename, segment, index, statics, m.ram).value;
    RunBlockSequence(pop, push, statics, m);
    PopEffect(filename, segment, index, statics, m);
    var m1 := RunBlock(pop, statics, m).value;
    PopThenPushRam(m.ram, cell, PopsViaR13(segment));
    SegmentCellAfterPop(filename, segment, index, statics, m.ram, PopsViaR13(segment));
    PushEffect(filename, segment, index, statics, m1);
  }

  /** The RAM after a pop into `cell`, with or without the address parked in R13. */
  function AfterPop(ram: Ram, cell: Word, viaR13: bool): Ram {
    if viaR13 then PopRamViaR13(ram, cell) else PopRam(ram, cell)
  }

  /** Pushing back what a pop moved restores the top entry and `SP`. */
  lemma PopThenPushRam(ram: Ram, cell: Word, viaR13: bool)
    requires UserCell(Sub(Sp(ram), 1)) && cell != SP
    ensures var after := AfterPop(ram, cell, viaR13);
      && UserCell(Sp(after))
      && Read(after, cell) == Top(ram)
      && Top(PushRam(after, Top(ram))) == Top(ram)
      && Sp(PushRam(after, Top(ram))) == Sp(ram)
  {
    var after := AfterPop(ram, cell, viaR13);
    StepBack(Sp(ram));
    assert Sp(after) == Sub(Sp(ram), 1);
    assert Read(after, cell) == Top(ram);
  }

  /** A pop that does not overwrite the segment's base register leaves the segment's cell where it was. */
  lemma SegmentCellAfterPop(filename: string, segment: string, index: I32, statics: map<string, Word>, ram: Ram, viaR13: bool)
    requires SegmentCell(filename, segment, index, statics, ram).Some?
    requires SegmentCell(filename, segment, index, statics, ram).value != SP
    requires segment in MemSegMap ==> SegmentCell(filename, segment, index, statics, ram).value != BaseRegister(segment)
    ensures var cell := SegmentCell(filename, segment, index, statics, ram).value;
      SegmentCell(filename, segment, index, statics, AfterPop(ram, cell, viaR13)) == Some(cell)
  {
    var cell := SegmentCell(filename, segment, index, statics, ram).value;
    if segment != "temp" && segment != "static" && segment != "pointer" && segment in MemSegMap {
      var base := BaseRegister(segment);
      assert Read(AfterPop(ram, cell, viaR13), base) == Read(ram, base);
    }
  }
}
