/**
 * The Hack target machine: assembly records and a small executor used to
 * give the emitted blocks a meaning.
 *
 * A program is a sequence of records. The program counter indexes that
 * sequence; label declarations, comments and blank lines occupy a slot but
 * do nothing, so a label resolves to the index of its own record.
 */
module Hack {
  import opened Wrappers

  /** A 16-bit machine word, as its unsigned value. */
  const WORDS: int := 0x1_0000

  type Word = w: int | 0 <= w < WORDS

  /** Fixed register addresses. */
  const SP: Word := 0
  const LCL: Word := 1
  const ARG: Word := 2
  const THIS: Word := 3
  const THAT: Word := 4
  const TEMP_BASE: Word := 5
  const R13: Word := 13

  /** An `@value` instruction carries a 15-bit constant. */
  const MAX_LITERAL: int := 0x7FFF

  datatype Addr = Lit(n: int) | Sym(name: string)

  datatype Dest = NoDest | DestA | DestD | DestM

  /** The computations the translator emits. */
  datatype Comp =
    | Zero | MinusOne | CompA | CompD | CompM | NotM | NegM
    | APlus1 | MPlus1 | MMinus1 | DPlusA | DPlusM | DMinusM | DAndM | DOrM

  datatype Jump = NoJump | JGT | JEQ | JGE | JLT | JNE | JLE | JMP

  datatype Instr =
    | A(addr: Addr)
    | C(dest: Dest, comp: Comp, jump: Jump)
    | Label(name: string)
    | Comment(text: string)
    | Blank

  /** The assembler's predefined symbols. */
  const Predefined: map<string, Word> := map[
    "SP" := 0, "LCL" := 1, "ARG" := 2, "THIS" := 3, "THAT" := 4,
    "R0" := 0, "R1" := 1, "R2" := 2, "R3" := 3, "R4" := 4, "R5" := 5, "R6" := 6, "R7" := 7,
    "R8" := 8, "R9" := 9, "R10" := 10, "R11" := 11, "R12" := 12, "R13" := 13, "R14" := 14, "R15" := 15,
    "SCREEN" := 0x4000, "KBD" := 0x6000]

  type Ram = map<Word, Word>

  /** The registers `A` and `D` and the data memory; an unwritten cell reads as 0. */
  datatype Machine = Machine(a: Word, d: Word, ram: Ram)

  function Read(ram: Ram, addr: Word): Word {
    if addr in ram then ram[addr] else 0
  }

  function Write(ram: Ram, addr: Word, v: Word): (r: Ram)
    ensures Read(r, addr) == v
    ensures forall w :: w != addr ==> Read(r, w) == Read(ram, w)
  {
    ram[addr := v]
  }

  /** The ALU's operations: arithmetic wraps around modulo 2^16. */
  function Add(x: Word, y: Word): Word {
    (x + y) % WORDS
  }

  function Sub(x: Word, y: Word): Word {
    (x - y) % WORDS
  }

  function Neg(x: Word): Word {
    (WORDS - x) % WORDS
  }

  /** Bitwise complement: every one of the sixteen bits flips. */
  function Not(x: Word): Word {
    WORDS - 1 - x
  }

  function And(x: Word, y: Word): Word {
    ((x as bv16) & (y as bv16)) as int
  }

  function Or(x: Word, y: Word): Word {
    ((x as bv16) | (y as bv16)) as int
  }

  /** Stepping a word up and back down, or down and back up, returns to it. */
  lemma StepBack(x: Word)
    ensures Sub(Add(x, 1), 1) == x
    ensures Add(Sub(x, 1), 1) == x
    ensures Sub(x, 1) != x
    ensures Add(Sub(x, 2), 1) == Sub(x, 1)
    ensures Sub(Sub(x, 1), 1) == Sub(x, 2)
  {
    if x == WORDS - 1 {
      assert Add(x, 1) == 0;
    } else {
      assert Add(x, 1) == x + 1;
    }
    if x == 0 {
      assert Sub(x, 1) == WORDS - 1;
    } else {
      assert Sub(x, 1) == x - 1;
    }
    if x < 2 {
      assert Sub(x, 2) == x + WORDS - 2;
    } else {
      assert Sub(x, 2) == x - 2;
    }
  }

  function Eval(comp: Comp, m: Machine): Word {
    match comp
    case Zero => 0
    case MinusOne => 0xFFFF
    case CompA => m.a
    case CompD => m.d
    case CompM => Read(m.ram, m.a)
    case NotM => Not(Read(m.ram, m.a))
    case NegM => Neg(Read(m.ram, m.a))
    case APlus1 => Add(m.a, 1)
    case MPlus1 => Add(Read(m.ram, m.a), 1)
    case MMinus1 => Sub(Read(m.ram, m.a), 1)
    case DPlusA => Add(m.d, m.a)
    case DPlusM => Add(m.d, Read(m.ram, m.a))
    case DMinusM => Sub(m.d, Read(m.ram, m.a))
    case DAndM => And(m.d, Read(m.ram, m.a))
    case DOrM => Or(m.d, Read(m.ram, m.a))
  }

  /** A word read as a two's-complement number is negative when its top bit is set. */
  predicate IsNegative(v: Word) {
    v >= 0x8000
  }

  predicate Jumps(j: Jump, v: Word) {
    match j
    case NoJump => false
    case JGT => v != 0 && !IsNegative(v)
    case JEQ => v == 0
    case JGE => !IsNegative(v)
    case JLT => IsNegative(v)
    case JNE => v != 0
    case JLE => v == 0 || IsNegative(v)
    case JMP => true
  }

  /** The value an `@` record loads into `A`, if it can be assembled. */
  function Target(addr: Addr, tab: map<string, Word>): (r: Option<Word>)
    ensures addr.Lit? ==> (r.Some? <==> 0 <= addr.n <= MAX_LITERAL) && (r.Some? ==> r.value == addr.n)
    ensures addr.Sym? ==> (r.Some? <==> addr.name in tab) && (r.Some? ==> r.value == tab[addr.name])
  {
    match addr
    case Lit(n) => if 0 <= n <= MAX_LITERAL then Some(n) else None
    case Sym(s) => if s in tab then Some(tab[s]) else None
  }

  /**
   * The data effect of one record; `None` when an `@` operand is not a
   * 15-bit constant or names an unknown symbol.
   */
  function Exec1(i: Instr, tab: map<string, Word>, m: Machine): Option<Machine> {
    match i
    case A(addr) =>
      (match Target(addr, tab)
       case None => None
       case Some(w) => Some(m.(a := w)))
    case C(dest, comp, _) =>
      var v := Eval(comp, m);
      Some(match dest
        case NoDest => m
        case DestA => m.(a := v)
        case DestD => m.(d := v)
        case DestM => m.(ram := Write(m.ram, m.a, v)))
    case _ => Some(m)
  }

  /** Straight-line execution of `code`, ignoring jumps. */
  function Exec(code: seq<Instr>, tab: map<string, Word>, m: Machine): Option<Machine>
    decreases |code|
  {
    if |code| == 0 then Some(m)
    else match Exec1(code[0], tab, m)
      case None => None
      case Some(m') => Exec(code[1..], tab, m')
  }

  function Then(o: Option<Machine>, code: seq<Instr>, tab: map<string, Word>): Option<Machine> {
    match o
    case None => None
    case Some(m) => Exec(code, tab, m)
  }

  /** Running two pieces of straight-line code one after the other. */
  lemma {:induction false} ExecAppend(a: seq<Instr>, b: seq<Instr>, tab: map<string, Word>, m: Machine)
    ensures Exec(a + b, tab, m) == Then(Exec(a, tab, m), b, tab)
    decreases |a|
  {
    if |a| == 0 {
      assert a + b == b;
    } else {
      assert (a + b)[0] == a[0];
      assert (a + b)[1..] == a[1..] + b;
      match Exec1(a[0], tab, m)
      case None =>
      case Some(m') => ExecAppend(a[1..], b, tab, m');
    }
  }

  /** Records that do nothing when executed. */
  predicate Inert(code: seq<Instr>) {
    forall k :: 0 <= k < |code| ==> code[k].Label? || code[k].Comment? || code[k].Blank?
  }

  lemma {:induction false} ExecInert(code: seq<Instr>, tab: map<string, Word>, m: Machine)
    requires Inert(code)
    decreases |code|
    ensures Exec(code, tab, m) == Some(m)
  {
    if |code| > 0 {
      assert Inert(code[1..]) by {
        forall k | 0 <= k < |code| - 1 ensures code[1..][k] == code[k + 1] { }
      }
      ExecInert(code[1..], tab, m);
    }
  }

  lemma ExecAfterInert(head: seq<Instr>, body: seq<Instr>, tab: map<string, Word>, m: Machine)
    requires Inert(head)
    ensures Exec(head + body, tab, m) == Exec(body, tab, m)
  {
    ExecAppend(head, body, tab, m);
    ExecInert(head, tab, m);
  }

  /** Inert records around `body` change nothing about its execution. */
  lemma ExecFramed(head: seq<Instr>, body: seq<Instr>, tail: seq<Instr>, tab: map<string, Word>, m: Machine)
    requires Inert(head) && Inert(tail)
    ensures Exec(head + body + tail, tab, m) == Then(Exec(body, tab, m), tail, tab)
    ensures Exec(head + body + tail, tab, m) == Exec(body, tab, m)
  {
    ExecAppend(head + body, tail, tab, m);
    ExecAppend(head, body, tab, m);
    ExecInert(head, tab, m);
    match Exec(body, tab, m)
    case None =>
    case Some(m') => ExecInert(tail, tab, m');
  }

  predicate IsJump(i: Instr) {
    i.C? && i.jump != NoJump
  }

  predicate JumpFree(code: seq<Instr>) {
    forall k :: 0 <= k < |code| ==> !IsJump(code[k])
  }

  predicate NoLabels(code: seq<Instr>) {
    forall k :: 0 <= k < |code| ==> !code[k].Label?
  }

  /** A record that neither jumps nor declares a label. */
  predicate Plain(i: Instr) {
    !IsJump(i) && !i.Label?
  }

  /** Code that runs from top to bottom and declares no label. */
  predicate Straight(code: seq<Instr>) {
    forall k :: 0 <= k < |code| ==> Plain(code[k])
  }

  lemma StraightAppend(a: seq<Instr>, b: seq<Instr>)
    ensures Straight(a + b) <==> Straight(a) && Straight(b)
  {
    if Straight(a) && Straight(b) {
      forall k | 0 <= k < |a + b| ensures Plain((a + b)[k]) {
        if k < |a| { assert (a + b)[k] == a[k]; } else { assert (a + b)[k] == b[k - |a|]; }
      }
    }
    if Straight(a + b) {
      forall k | 0 <= k < |a| ensures Plain(a[k]) { assert (a + b)[k] == a[k]; }
      forall k | 0 <= k < |b| ensures Plain(b[k]) { assert (a + b)[k + |a|] == b[k]; }
    }
  }

  /** The names the code declares as labels. */
  function Labels(code: seq<Instr>): (r: set<string>)
    ensures forall k :: 0 <= k < |code| && code[k].Label? ==> code[k].name in r
    ensures forall name :: name in r ==> Label(name) in code
  {
    set k | 0 <= k < |code| && code[k].Label? :: code[k].name
  }

  lemma LabelsAppend(a: seq<Instr>, b: seq<Instr>)
    ensures Labels(a + b) == Labels(a) + Labels(b)
  {
    forall name | name in Labels(a + b) ensures name in Labels(a) + Labels(b) {
      var k :| 0 <= k < |a + b| && (a + b)[k] == Label(name);
      if k < |a| { assert a[k] == Label(name); } else { assert b[k - |a|] == Label(name); }
    }
    forall name | name in Labels(a) ensures name in Labels(a + b) {
      var k :| 0 <= k < |a| && a[k] == Label(name);
      assert (a + b)[k] == Label(name);
    }
    forall name | name in Labels(b) ensures name in Labels(a + b) {
      var k :| 0 <= k < |b| && b[k] == Label(name);
      assert (a + b)[|a| + k] == Label(name);
    }
  }

  lemma StraightLabels(code: seq<Instr>)
    requires Straight(code)
    ensures Labels(code) == {} && JumpFree(code) && NoLabels(code)
  {
    assert forall k :: 0 <= k < |code| ==> !code[k].Label?;
  }

  /** Each label bound to the index of its first declaration at or after `i`. */
  function LabelsFrom(prog: seq<Instr>, i: nat): map<string, Word>
    requires i <= |prog|
    decreases |prog| - i
  {
    if i == |prog| then map[]
    else
      var rest := LabelsFrom(prog, i + 1);
      if prog[i].Label? && i <= MAX_LITERAL then rest[prog[i].name := i as Word] else rest
  }

  function LabelTable(prog: seq<Instr>): map<string, Word> {
    LabelsFrom(prog, 0)
  }

  /** A label declared at `j`, and not earlier from `i` on, resolves to `j`. */
  lemma {:induction false} LabelAt(prog: seq<Instr>, i: nat, j: nat, name: string)
    requires i <= j < |prog| && j <= MAX_LITERAL
    requires prog[j] == Label(name)
    requires forall k :: i <= k < j ==> prog[k] != Label(name)
    decreases j - i
    ensures name in LabelsFrom(prog, i) && LabelsFrom(prog, i)[name] == j as Word
  {
    if i < j {
      LabelAt(prog, i + 1, j, name);
    }
  }

  /** Code without label declarations binds no label. */
  lemma {:induction false} NoLabelsFrom(prog: seq<Instr>, i: nat)
    requires i <= |prog|
    requires forall k :: i <= k < |prog| ==> !prog[k].Label?
    decreases |prog| - i
    ensures LabelsFrom(prog, i) == map[]
  {
    if i < |prog| {
      NoLabelsFrom(prog, i + 1);
    }
  }

  /**
   * The symbol table of a program: the predefined symbols, then its labels,
   * then the addresses given to its variables (the `static` symbols).
   */
  function Symbols(prog: seq<Instr>, statics: map<string, Word>): map<string, Word> {
    statics + LabelTable(prog) + Predefined
  }

  /** The symbols the emitted code relies on carry their fixed addresses. */
  predicate Standard(tab: map<string, Word>) {
    && "SP" in tab && tab["SP"] == SP
    && "LCL" in tab && tab["LCL"] == LCL
    && "ARG" in tab && tab["ARG"] == ARG
    && "THIS" in tab && tab["THIS"] == THIS
    && "THAT" in tab && tab["THAT"] == THAT
    && "R13" in tab && tab["R13"] == R13
  }

  /** A name with neither a dot nor an underscore, as every predefined symbol is. */
  predicate PlainName(name: string) {
    forall i :: 0 <= i < |name| ==> name[i] != '.' && name[i] != '_'
  }

  lemma PredefinedPlain()
    ensures forall name :: name in Predefined ==> PlainName(name)
  {
    assert PlainName("SP") && PlainName("LCL") && PlainName("ARG") && PlainName("THIS") && PlainName("THAT");
    assert PlainName("R0") && PlainName("R1") && PlainName("R2") && PlainName("R3") && PlainName("R4") && PlainName("R5") && PlainName("R6") && PlainName("R7");
    assert PlainName("R8") && PlainName("R9") && PlainName("R10") && PlainName("R11") && PlainName("R12") && PlainName("R13") && PlainName("R14") && PlainName("R15");
    assert PlainName("SCREEN") && PlainName("KBD");
  }

  lemma PredefinedStandard()
    ensures Standard(Predefined)
  {
  }

  /** Symbols laid over a table cannot displace the fixed ones it puts on top. */
  lemma OverrideStandard(low: map<string, Word>, tab: map<string, Word>)
    requires Standard(tab)
    ensures Standard(low + tab)
  {
  }

  lemma SymbolsStandard(prog: seq<Instr>, statics: map<string, Word>)
    ensures Standard(Symbols(prog, statics))
  {
    PredefinedStandard();
    OverrideStandard(statics + LabelTable(prog), Predefined);
  }

  datatype Config = Config(pc: int, m: Machine)

  function Step(prog: seq<Instr>, tab: map<string, Word>, c: Config): Option<Config>
    requires 0 <= c.pc < |prog|
  {
    var i := prog[c.pc];
    match Exec1(i, tab, c.m)
    case None => None
    case Some(m') =>
      if i.C? && Jumps(i.jump, Eval(i.comp, c.m)) then Some(Config(c.m.a as int, m'))
      else Some(Config(c.pc + 1, m'))
  }

  /** At most `fuel` steps; stops early once the program counter leaves the program. */
  function Run(prog: seq<Instr>, tab: map<string, Word>, c: Config, fuel: nat): Option<Config>
    decreases fuel
  {
    if fuel == 0 || !(0 <= c.pc < |prog|) then Some(c)
    else match Step(prog, tab, c)
      case None => None
      case Some(c') => Run(prog, tab, c', fuel - 1)
  }

  function Landed(pc: int, o: Option<Machine>): Option<Config> {
    match o
    case None => None
    case Some(m) => Some(Config(pc, m))
  }

  /** A jump-free stretch of the program runs as straight-line code. */
  lemma {:induction false} RunStraight(prog: seq<Instr>, tab: map<string, Word>, pc: nat, k: nat, m: Machine)
    requires pc + k <= |prog|
    requires JumpFree(prog[pc..pc + k])
    decreases k
    ensures Run(prog, tab, Config(pc, m), k) == Landed(pc + k, Exec(prog[pc..pc + k], tab, m))
  {
    if k > 0 {
      var code := prog[pc..pc + k];
      assert code[0] == prog[pc];
      assert !IsJump(code[0]);
      assert code[1..] == prog[pc + 1..pc + k];
      match Exec1(prog[pc], tab, m)
      case None =>
      case Some(m') =>
        assert JumpFree(prog[pc + 1..pc + k]) by {
          forall j | 0 <= j < k - 1 ensures !IsJump(code[1..][j]) {
            assert code[1..][j] == code[j + 1];
          }
        }
        RunStraight(prog, tab, pc + 1, k - 1, m');
    }
  }

  function ThenRun(o: Option<Config>, prog: seq<Instr>, tab: map<string, Word>, fuel: nat): Option<Config> {
    match o
    case None => None
    case Some(c) => Run(prog, tab, c, fuel)
  }

  /** Running for `f + g` steps is running for `f` steps, then for `g`. */
  lemma {:induction false} RunAdd(prog: seq<Instr>, tab: map<string, Word>, c: Config, f: nat, g: nat)
    decreases f
    ensures Run(prog, tab, c, f + g) == ThenRun(Run(prog, tab, c, f), prog, tab, g)
  {
    if f > 0 && 0 <= c.pc < |prog| {
      match Step(prog, tab, c)
      case None =>
      case Some(c') => RunAdd(prog, tab, c', f - 1, g);
    } else if f == 0 {
    } else {
      RunStopped(prog, tab, c, g);
    }
  }

  /** Once `f` steps reach `c1`, the next `g` steps start from there. */
  lemma RunThen(prog: seq<Instr>, tab: map<string, Word>, c0: Config, f: nat, g: nat, c1: Config)
    requires Run(prog, tab, c0, f) == Some(c1)
    ensures Run(prog, tab, c0, f + g) == Run(prog, tab, c1, g)
  {
    RunAdd(prog, tab, c0, f, g);
  }

  /** Outside the program nothing more happens. */
  lemma RunStopped(prog: seq<Instr>, tab: map<string, Word>, c: Config, fuel: nat)
    requires !(0 <= c.pc < |prog|)
    ensures Run(prog, tab, c, fuel) == Some(c)
  {
  }

  /** With fuel to spare, a jump-free rest of the program runs to its end. */
  lemma RunToEnd(prog: seq<Instr>, tab: map<string, Word>, pc: nat, m: Machine, fuel: nat)
    requires pc <= |prog| && |prog| - pc <= fuel
    requires JumpFree(prog[pc..])
    ensures Run(prog, tab, Config(pc, m), fuel) == Landed(|prog|, Exec(prog[pc..], tab, m))
  {
    var k := |prog| - pc;
    assert prog[pc..pc + k] == prog[pc..];
    RunAdd(prog, tab, Config(pc, m), k, fuel - k);
    RunStraight(prog, tab, pc, k, m);
    match Exec(prog[pc..], tab, m)
    case None =>
    case Some(m') => RunStopped(prog, tab, Config(|prog|, m'), fuel - k);
  }

  /**
   * A block run on its own: it completes when execution falls off its end
   * within one step per record.
   */
  function RunBlock(prog: seq<Instr>, statics: map<string, Word>, m: Machine): Option<Machine> {
    match Run(prog, Symbols(prog, statics), Config(0, m), |prog|)
    case Some(c) => if c.pc == |prog| then Some(c.m) else None
    case None => None
  }

  /** A block whose run, taken in two legs, ends just past its last record completes there. */
  lemma RunBlockThen(prog: seq<Instr>, statics: map<string, Word>, m: Machine, f: nat, g: nat, c: Config, r: Config)
    requires f + g == |prog|
    requires Run(prog, Symbols(prog, statics), Config(0, m), f) == Some(c)
    requires Run(prog, Symbols(prog, statics), c, g) == Some(r) && r.pc == |prog|
    ensures RunBlock(prog, statics, m) == Some(r.m)
  {
    RunThen(prog, Symbols(prog, statics), Config(0, m), f, g, c);
  }

  /** A jump-free block completes exactly as its straight-line execution does. */
  lemma RunBlockStraight(prog: seq<Instr>, statics: map<string, Word>, m: Machine)
    requires JumpFree(prog)
    ensures RunBlock(prog, statics, m) == Exec(prog, Symbols(prog, statics), m)
  {
    assert prog[0..|prog|] == prog;
    RunStraight(prog, Symbols(prog, statics), 0, |prog|, m);
  }
}
