/**
 * Facts about the emitted program as a whole: every arithmetic command's
 * block does what the VM command means, the labels of different comparison
 * blocks and of the closing loop never clash, and the closing loop never
 * lets execution fall off the end of the program.
 */
module Translation {
  import opened Wrappers
  import opened Numbers
  import opened Hack
  import opened VmParser
  import opened VmCodeWriter
  import opened CodeWriterSemantics
  import opened ArithmeticSemantics
  import opened ComparisonSemantics

  /**
   * Every arithmetic or logical command's block runs to completion on a
   * stack holding enough entries, replacing its operands by the result.
   */
  lemma WriteArithmeticEffect(cmd: string, id: string, statics: map<string, Word>, m: Machine)
    requires cmd in ArithmeticKeywords
    requires UserCell(Sub(Sp(m.ram), 1)) && UserCell(Sub(Sp(m.ram), 2))
    ensures WriteArithmetic(cmd, id).Success?
    ensures var out := RunBlock(WriteArithmetic(cmd, id).value, statics, m);
      && out.Some?
      && (IsBinary(cmd) ==> PairReplaced(m.ram, out.value.ram, BinaryValue(cmd, Second(m.ram), Top(m.ram))))
      && (IsComparison(cmd) ==> PairReplaced(m.ram, out.value.ram, CompareValue(cmd, Second(m.ram), Top(m.ram))))
      && (IsUnary(cmd) ==> TopReplaced(m.ram, out.value.ram, UnaryValue(cmd, Top(m.ram))))
  {
    var block := WriteArithmetic(cmd, id).value;
    if IsBinary(cmd) {
      assert block == BinaryBlock(cmd) && !IsComparison(cmd) && !IsUnary(cmd);
      BinaryEffect(cmd, statics, m);
    } else if IsComparison(cmd) {
      assert block == CompareBlock(cmd, id) && !IsUnary(cmd);
      CompareEffect(cmd, id, statics, m);
    } else {
      assert IsUnary(cmd) && block == UnaryBlock(cmd);
      UnaryEffect(cmd, statics, m);
    }
  }

  /**
   * A `push`/`pop` command's block, whichever verb and segment it names:
   * `push constant k` pushes `k`, any other `push` pushes the content of the
   * segment's cell, and `pop` moves the top entry into that cell; each faults
   * exactly when the constant or the cell cannot be addressed.
   */
  lemma WritePushPopEffect(filename: string, verb: string, segment: string, index: I32, statics: map<string, Word>, m: Machine)
    requires WritePushPop(filename, verb, segment, index).Success?
    requires verb == "push" ==> UserCell(Sp(m.ram))
    requires verb == "pop" ==> UserCell(Sub(Sp(m.ram), 1))
    ensures verb == "push" || verb == "pop"
    ensures var out := RunBlock(WritePushPop(filename, verb, segment, index).value, statics, m);
      && (verb == "push" && segment == "constant" ==>
        && (0 <= index <= MAX_LITERAL ==> RamOf(out) == Some(PushRam(m.ram, index)))
        && (!(0 <= index <= MAX_LITERAL) ==> out == None))
      && (verb == "push" && segment != "constant" ==>
        && (out.None? <==> SegmentCell(filename, segment, index, statics, m.ram).None?)
        && (SegmentCell(filename, segment, index, statics, m.ram).Some? ==>
          RamOf(out) == Some(PushRam(m.ram, Read(m.ram, SegmentCell(filename, segment, index, statics, m.ram).value)))))
      && (verb == "pop" ==>
        && (out.None? <==> SegmentCell(filename, segment, index, statics, m.ram).None?)
        && (SegmentCell(filename, segment, index, statics, m.ram).Some? ==>
          var cell := SegmentCell(filename, segment, index, statics, m.ram).value;
          RamOf(out) == Some(if PopsViaR13(segment) then PopRamViaR13(m.ram, cell) else PopRam(m.ram, cell))))
  {
    var block := WritePushPop(filename, verb, segment, index).value;
    if verb == "push" {
      assert block == WritePush(filename, segment, index).value;
      if segment == "constant" {
        assert block == PushConstant(index);
        PushConstantEffect(index, statics, m);
      } else {
        PushEffect(filename, segment, index, statics, m);
      }
    } else {
      assert verb == "pop" && block == WritePop(filename, segment, index).value;
      PopEffect(filename, segment, index, statics, m);
    }
  }

  /**
   * Comparison blocks emitted with different ids declare different labels,
   * and none of them declares the closing loop's `END`.
   */
  lemma LabelsUnique(id1: string, id2: string)
    ensures "END" !in {HitLabel(id1), ContinueLabel(id1)}
    ensures id1 != id2 ==> {HitLabel(id1), ContinueLabel(id1)} !! {HitLabel(id2), ContinueLabel(id2)}
  {
    assert HitLabel(id1)[0] == 'H' && ContinueLabel(id1)[0] == 'C';
    assert HitLabel(id2)[0] == 'H' && ContinueLabel(id2)[0] == 'C';
    if HitLabel(id1) == HitLabel(id2) {
      assert id1 == HitLabel(id1)[4..];
      assert id2 == HitLabel(id2)[4..];
    }
    if ContinueLabel(id1) == ContinueLabel(id2) {
      assert id1 == ContinueLabel(id1)[9..];
      assert id2 == ContinueLabel(id2)[9..];
    }
  }

  /** Where execution may be in the closing loop: `A` holds `END` before the jump. */
  predicate Looping(c: Config, ram: Ram) {
    && 0 <= c.pc <= 3
    && (c.pc == 3 ==> c.m.a == 1)
    && c.m.ram == ram
  }

  /** In the closing loop `END` resolves to record 1. */
  lemma CloseSymbols(statics: map<string, Word>)
    ensures "END" in Symbols(Close(), statics) && Symbols(Close(), statics)["END"] == 1
  {
    var prog := Close();
    LabelAt(prog, 0, 1, "END");
    assert "END" !in Predefined;
  }

  /** However long it runs, the closing loop stays inside its four records and writes nothing. */
  lemma {:induction false} CloseLoops(statics: map<string, Word>, c: Config, ram: Ram, fuel: nat)
    requires Looping(c, ram)
    decreases fuel
    ensures var r := Run(Close(), Symbols(Close(), statics), c, fuel);
      r.Some? && Looping(r.value, ram)
  {
    if fuel > 0 {
      var tab := Symbols(Close(), statics);
      CloseSymbols(statics);
      var next := Step(Close(), tab, c);
      assert next.Some? && Looping(next.value, ram);
      CloseLoops(statics, next.value, ram, fuel - 1);
    }
  }

  /** The program's last block never completes: the machine halts by spinning. */
  lemma CloseNeverCompletes(statics: map<string, Word>, m: Machine)
    ensures RunBlock(Close(), statics, m) == None
  {
    CloseLoops(statics, Config(0, m), m.ram, |Close()|);
  }

  /** Three straight blocks run one after the other. */
  lemma RunThreeBlocks(b1: seq<Instr>, b2: seq<Instr>, b3: seq<Instr>, statics: map<string, Word>, m: Machine)
    requires Straight(b1) && Straight(b2) && Straight(b3)
    ensures Straight(b1 + b2 + b3)
    ensures RunBlock(b1 + b2 + b3, statics, m)
         == (match RunBlock(b1, statics, m)
             case None => None
             case Some(m1) =>
               match RunBlock(b2, statics, m1)
               case None => None
               case Some(m2) => RunBlock(b3, statics, m2))
  {
    RunBlockSequence(b1, b2, statics, m);
    RunBlockSequence(b1 + b2, b3, statics, m);
  }

  /** Two pushes stack their values above the old top. */
  lemma PushTwice(ram: Ram, x: Word, y: Word)
    requires UserCell(Sp(ram)) && Sp(ram) < 0xFFFE
    ensures Sp(PushRam(ram, x)) == Sp(ram) + 1 && UserCell(Sp(PushRam(ram, x)))
    ensures var after := PushRam(PushRam(ram, x), y);
      && Sp(after) == Sp(ram) + 2
      && Sub(Sp(after), 1) == Sp(ram) + 1
      && Top(after) == y && Second(after) == x
      && UserCell(Sub(Sp(after), 1)) && UserCell(Sub(Sp(after), 2))
  {
    var once := PushRam(ram, x);
    assert Sp(once) == Sp(ram) + 1;
    var after := PushRam(once, y);
    assert Sub(Sp(after), 2) == Sp(ram);
    assert Sub(Sp(after), 1) == Sp(ram) + 1;
  }

  /**
   * `push constant x`, `push constant y` and a binary command leave
   * `x op y` on top, one entry above where the stack started.
   */
  lemma BinaryOnConstants(cmd: string, x: int, y: int, statics: map<string, Word>, m: Machine)
    requires IsBinary(cmd)
    requires 0 <= x <= MAX_LITERAL && 0 <= y <= MAX_LITERAL
    requires UserCell(Sp(m.ram)) && Sp(m.ram) < 0xFFFE
    ensures Straight(PushConstant(x) + PushConstant(y) + BinaryBlock(cmd))
    ensures var out := RunBlock(PushConstant(x) + PushConstant(y) + BinaryBlock(cmd), statics, m);
      && out.Some?
      && Top(out.value.ram) == BinaryValue(cmd, x, y)
      && Sp(out.value.ram) == Sp(m.ram) + 1
  {
    RunThreeBlocks(PushConstant(x), PushConstant(y), BinaryBlock(cmd), statics, m);
    PushConstantEffect(x, statics, m);
    PushTwice(m.ram, x, y);
    var m1 := RunBlock(PushConstant(x), statics, m).value;
    PushConstantEffect(y, statics, m1);
    var m2 := RunBlock(PushConstant(y), statics, m1).value;
    BinaryEffect(cmd, statics, m2);
  }
}
