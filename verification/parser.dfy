/**
 * The VM line reader: a cursor over the lines of one `.vm` file that skips
 * comments and blank lines and classifies each remaining line.
 */
module VmParser {
  import opened Wrappers
  import opened Strings
  import opened Numbers

  datatype CommandType = Arithmetic | Push | Pop | Label | Goto | If | Function | Return | Call

  /** The reasons the reader panics. */
  datatype ParseError =
    | UnknownCommand      // `get_type`: no keyword matched
    | NoCommand           // an accessor called before any command was read
    | ReturnHasNoArg1     // `arg1` on `return`
    | MissingArg1         // `push`/`pop` line with a single token
    | MissingArg2         // `push`/`pop` line with fewer than three tokens
    | Arg2NotInt          // third token does not parse as an `i32`
    | Arg2NotSupported    // `arg2` on a kind that has no numeric operand
    | Unimplemented       // `todo!()` branches

  const ArithmeticKeywords: set<string> := {"add", "sub", "neg", "eq", "gt", "lt", "and", "or", "not"}

  /** Kinds recognised only when the keyword is the entire line. */
  predicate IsWholeLineKind(kind: CommandType) {
    kind in {Label, Goto, If, Function, Return, Call}
  }

  function KeywordOf(kind: CommandType): string
    requires IsWholeLineKind(kind)
  {
    match kind
    case Label => "label"
    case Goto => "goto"
    case If => "if"
    case Function => "function"
    case Return => "return"
    case Call => "call"
  }

  const WholeLineKeywords: set<string> := {"label", "goto", "if", "function", "return", "call"}

  /**
   * `CommandType::get_type`: exact arithmetic keywords first, then any line
   * starting with `push`, then any line starting with `pop`, then the bare
   * keywords of the other kinds; anything else panics.
   */
  function GetType(cmd: string): (r: Result<CommandType, ParseError>)
    ensures r == Success(Arithmetic) <==> cmd in ArithmeticKeywords
    ensures r == Success(Push) <==> cmd !in ArithmeticKeywords && "push" <= cmd
    ensures r == Success(Pop) <==> cmd !in ArithmeticKeywords && !("push" <= cmd) && "pop" <= cmd
    ensures r.Success? && IsWholeLineKind(r.value) ==> cmd == KeywordOf(r.value)
    ensures r.Failure? <==>
      cmd !in ArithmeticKeywords && !("push" <= cmd) && !("pop" <= cmd) && cmd !in WholeLineKeywords
    ensures r.Failure? ==> r.error == UnknownCommand
  {
    if cmd in ArithmeticKeywords then Success(Arithmetic)
    else if "push" <= cmd then Success(Push)
    else if "pop" <= cmd then Success(Pop)
    else if cmd == "label" then Success(Label)
    else if cmd == "goto" then Success(Goto)
    else if cmd == "if" then Success(If)
    else if cmd == "function" then Success(Function)
    else if cmd == "return" then Success(Return)
    else if cmd == "call" then Success(Call)
    else Failure(UnknownCommand)
  }

  /** The Rust `Canmand` record: the kind and the trimmed, comment-free line. */
  datatype Command = Command(kind: CommandType, raw: string)

  datatype Parser = Parser(lines: seq<string>, nextLine: nat, nextCmd: nat, current: Option<Command>)

  predicate Valid(p: Parser) {
    p.nextLine <= |p.lines|
  }

  /** `Parser::new` once the file's lines are read. */
  function New(lines: seq<string>): (p: Parser)
    ensures Valid(p) && p.current.None?
    ensures p.lines == lines && p.nextLine == 0 && p.nextCmd == 0
    ensures HasMoreLines(p) <==> |lines| > 0
  {
    Parser(lines, 0, 0, None)
  }

  predicate HasMoreLines(p: Parser) {
    p.nextLine < |p.lines|
  }

  /** The text of a line before its first `//`. */
  function StripComment(line: string): string {
    match Find(line, "//")
    case None => line
    case Some(i) => line[..i]
  }

  /** The cut is at the first `//`, and what is left holds no `//`. */
  lemma StripCommentCut(line: string)
    ensures StripComment(line) <= line
    ensures forall k :: 0 <= k <= |StripComment(line)| ==> !OccursAt(StripComment(line), "//", k)
    ensures |StripComment(line)| < |line| ==> OccursAt(line, "//", |StripComment(line)|)
    ensures forall k :: 0 <= k < |StripComment(line)| ==> !OccursAt(line, "//", k)
  {
    FindFirst(line, "//");
    var r := StripComment(line);
    forall k | 0 <= k <= |r| && OccursAt(r, "//", k) ensures OccursAt(line, "//", k) {
      assert r[k..k + 2] == line[k..k + 2];
    }
  }

  /** A piece of a string without `//` has no `//` either. */
  lemma NoCommentInFactor(s: string, i: int, j: int)
    requires 0 <= i <= j <= |s|
    requires forall k :: 0 <= k <= |s| ==> !OccursAt(s, "//", k)
    ensures forall k :: 0 <= k <= j - i ==> !OccursAt(s[i..j], "//", k)
  {
    var t := s[i..j];
    forall k | 0 <= k <= j - i ensures !OccursAt(t, "//", k) {
      if k + 2 <= |t| {
        assert t[k] == s[i + k] && t[k + 1] == s[i + k + 1];
        assert t[k..k + 2] == s[i + k..i + k + 2];
        assert !OccursAt(s, "//", i + k);
      }
    }
  }

  /** The text of a line up to its first `//`, trimmed: what `advance` classifies. */
  function CleanLine(line: string): string {
    Trim(StripComment(line))
  }

  /** A cleaned line has no comment and no surrounding whitespace, and is empty exactly when the code part is blank. */
  lemma CleanLineShape(line: string) returns (i: nat, j: nat)
    ensures i <= j <= |StripComment(line)| && CleanLine(line) == StripComment(line)[i..j]
    ensures AllWhitespace(StripComment(line)[..i]) && AllWhitespace(StripComment(line)[j..])
    ensures forall k :: 0 <= k <= |CleanLine(line)| ==> !OccursAt(CleanLine(line), "//", k)
    ensures CleanLine(line) == [] || (!IsWhitespace(CleanLine(line)[0]) && !IsWhitespace(CleanLine(line)[|CleanLine(line)| - 1]))
    ensures CleanLine(line) == [] <==> AllWhitespace(StripComment(line))
  {
    var code := StripComment(line);
    StripCommentCut(line);
    i, j := TrimBounds(code);
    NoCommentInFactor(code, i, j);
    TrimEmptyIffBlank(code);
  }

  /** A line the reader skips: empty once the comment is cut off and the rest trimmed. */
  predicate IsBlank(line: string) {
    CleanLine(line) == []
  }

  predicate AllBlank(lines: seq<string>, lo: int, hi: int)
    requires 0 <= lo && hi <= |lines|
  {
    forall k :: lo <= k < hi ==> IsBlank(lines[k])
  }

  /** What `advance` does once it reaches the non-blank line `j`. */
  function ReadAt(lines: seq<string>, nextCmd: nat, j: nat): Result<Parser, ParseError>
    requires j < |lines|
  {
    var raw := CleanLine(lines[j]);
    match GetType(raw)
    case Failure(e) => Failure(e)
    case Success(kind) => Success(Parser(lines, j + 1, nextCmd + 1, Some(Command(kind, raw))))
  }

  /**
   * `Parser::advance`: skips blank and comment-only lines and reads the first
   * other line as the current command; at the end of input it does nothing.
   */
  function Advance(p: Parser): (r: Result<Parser, ParseError>)
    requires Valid(p)
    decreases |p.lines| - p.nextLine
    ensures r.Success? ==> Valid(r.value) && r.value.lines == p.lines
    ensures !HasMoreLines(p) ==> r == Success(p)
    ensures HasMoreLines(p) && r.Success? ==> p.nextLine < r.value.nextLine
  {
    if !HasMoreLines(p) then Success(p)
    else if !IsBlank(p.lines[p.nextLine]) then ReadAt(p.lines, p.nextCmd, p.nextLine)
    else Advance(p.(nextLine := p.nextLine + 1))
  }

  /** When only blank lines remain, `advance` consumes them all and changes nothing else. */
  lemma {:induction false} AdvanceAllBlank(p: Parser)
    requires Valid(p)
    requires AllBlank(p.lines, p.nextLine, |p.lines|)
    decreases |p.lines| - p.nextLine
    ensures Advance(p) == Success(p.(nextLine := |p.lines|))
  {
    if HasMoreLines(p) {
      var q := p.(nextLine := p.nextLine + 1);
      assert IsBlank(p.lines[p.nextLine]);
      AdvanceSkip(p);
      AdvanceAllBlank(q);
    }
  }

  /** A blank line is skipped. */
  lemma AdvanceSkip(p: Parser)
    requires Valid(p) && HasMoreLines(p) && IsBlank(p.lines[p.nextLine])
    ensures Advance(p) == Advance(p.(nextLine := p.nextLine + 1))
  {
  }

  /** Otherwise the first non-blank line `j` decides the result of `advance`. */
  lemma {:induction false} AdvanceFirstCommand(p: Parser, j: nat)
    requires Valid(p)
    requires p.nextLine <= j < |p.lines|
    requires AllBlank(p.lines, p.nextLine, j) && !IsBlank(p.lines[j])
    decreases j - p.nextLine
    ensures Advance(p) == ReadAt(p.lines, p.nextCmd, j)
  {
    if j != p.nextLine {
      var q := p.(nextLine := p.nextLine + 1);
      assert IsBlank(p.lines[p.nextLine]);
      AdvanceSkip(p);
      assert AllBlank(q.lines, q.nextLine, j);
      AdvanceFirstCommand(q, j);
    }
  }

  /** `Parser::get_cmd_type`. */
  function GetCmdType(p: Parser): (r: Option<CommandType>)
    ensures r.None? <==> p.current.None?
    ensures r.Some? ==> r.value == p.current.value.kind
  {
    match p.current
    case None => None
    case Some(c) => Some(c.kind)
  }

  /** `Parser::cmd`: the text before the first space of the current command. */
  function Cmd(p: Parser): (r: Result<string, ParseError>)
    ensures p.current.None? <==> r == Failure(NoCommand)
    ensures p.current.Some? ==> r.Success?
    ensures r.Success? ==>
      var raw := p.current.value.raw;
      && ' ' !in r.value
      && r.value <= raw
      && (|r.value| == |raw| || raw[|r.value|] == ' ')
  {
    match p.current
    case None => Failure(NoCommand)
    case Some(c) =>
      var pieces := Split(c.raw, ' ');
      JoinSplit(c.raw, ' ');
      assert |pieces| > 1 ==> c.raw == pieces[0] + [' '] + Join(pieces[1..], ' ');
      Success(pieces[0])
  }

  /** `Parser::arg1`. */
  function Arg1(p: Parser): (r: Result<string, ParseError>)
    ensures p.current.None? ==> r == Failure(NoCommand)
    ensures p.current.Some? ==>
      var c := p.current.value;
      && (c.kind == Return ==> r == Failure(ReturnHasNoArg1))
      && (c.kind == Arithmetic ==> r == Success(c.raw))
      && (c.kind.Label? || c.kind.Goto? || c.kind.If? || c.kind.Function? || c.kind.Call? ==> r == Failure(Unimplemented))
      && (c.kind.Push? || c.kind.Pop? ==> (r.Success? <==> ' ' in c.raw) && (r.Failure? ==> r.error == MissingArg1))
    ensures p.current.Some? && (p.current.value.kind.Push? || p.current.value.kind.Pop?) && r.Success? ==>
      r.value == Split(p.current.value.raw, ' ')[1]
  {
    match p.current
    case None => Failure(NoCommand)
    case Some(c) =>
      if c.kind == Return then Failure(ReturnHasNoArg1)
      else if c.kind == Arithmetic then Success(c.raw)
      else if c.kind == Push || c.kind == Pop then
        var pieces := Split(c.raw, ' ');
        if |pieces| < 2 then Failure(MissingArg1)
        else
          Success(pieces[1])
      else Failure(Unimplemented)
  }

  /** `Parser::arg2`: the third space-separated token of a `push`/`pop` line, as an `i32`. */
  function Arg2(p: Parser): (r: Result<I32, ParseError>)
    ensures p.current.None? ==> r == Failure(NoCommand)
    ensures p.current.Some? ==>
      var c := p.current.value;
      && (c.kind.Arithmetic? || c.kind.Goto? || c.kind.If? || c.kind.Label? || c.kind.Return? ==> r == Failure(Arg2NotSupported))
      && (c.kind.Function? || c.kind.Call? ==> r == Failure(Unimplemented))
      && (c.kind.Push? || c.kind.Pop? ==>
            && (r == Failure(MissingArg2) <==> |Split(c.raw, ' ')| < 3)
            && (r.Success? ==> ParseI32(Split(c.raw, ' ')[2]) == Some(r.value))
            && (|Split(c.raw, ' ')| >= 3 && ParseI32(Split(c.raw, ' ')[2]).Some? ==> r.Success?)
            && (r.Failure? && |Split(c.raw, ' ')| >= 3 ==> r.error == Arg2NotInt))
  {
    match p.current
    case None => Failure(NoCommand)
    case Some(c) =>
      match c.kind
      case Arithmetic => Failure(Arg2NotSupported)
      case Goto => Failure(Arg2NotSupported)
      case If => Failure(Arg2NotSupported)
      case Label => Failure(Arg2NotSupported)
      case Return => Failure(Arg2NotSupported)
      case Function => Failure(Unimplemented)
      case Call => Failure(Unimplemented)
      case _ =>
        var pieces := Split(c.raw, ' ');
        if |pieces| < 3 then Failure(MissingArg2)
        else match ParseI32(pieces[2])
          case Some(n) => Success(n)
          case None => Failure(Arg2NotInt)
  }
}

/** Properties of the reader that relate several of its operations. */
module VmParserProperties {
  import opened Wrappers
  import opened Strings
  import opened Numbers
  import opened VmParser

  /** The first non-blank line at or after `lo`, when there is one. */
  lemma {:induction false} FirstNonBlank(lines: seq<string>, lo: nat) returns (j: nat)
    requires lo <= |lines|
    requires !AllBlank(lines, lo, |lines|)
    decreases |lines| - lo
    ensures lo <= j < |lines| && AllBlank(lines, lo, j) && !IsBlank(lines[j])
  {
    if IsBlank(lines[lo]) {
      j := FirstNonBlank(lines, lo + 1);
    } else {
      j := lo;
    }
  }

  /**
   * The counters after one `advance` on unfinished input: at least one line is
   * consumed, the command counter grows by one exactly when a non-blank line
   * remained, and otherwise all lines are consumed and the command is kept.
   */
  lemma AdvanceCounters(p: Parser)
    requires Valid(p) && HasMoreLines(p)
    requires Advance(p).Success?
    ensures p.nextLine < Advance(p).value.nextLine <= |p.lines|
    ensures Advance(p).value.nextCmd == p.nextCmd + 1 <==> !AllBlank(p.lines, p.nextLine, |p.lines|)
    ensures Advance(p).value.nextCmd == p.nextCmd <==> AllBlank(p.lines, p.nextLine, |p.lines|)
    ensures AllBlank(p.lines, p.nextLine, |p.lines|) ==>
      Advance(p).value.nextLine == |p.lines| && Advance(p).value.current == p.current
    ensures !AllBlank(p.lines, p.nextLine, |p.lines|) ==>
      var q := Advance(p).value;
      && AllBlank(p.lines, p.nextLine, q.nextLine - 1)
      && !IsBlank(p.lines[q.nextLine - 1])
      && q.current.Some?
      && q.current.value.raw == CleanLine(p.lines[q.nextLine - 1])
      && GetType(q.current.value.raw) == Success(q.current.value.kind)
  {
    var q := Advance(p).value;
    if AllBlank(p.lines, p.nextLine, |p.lines|) {
      AdvanceAllBlank(p);
      assert q == p.(nextLine := |p.lines|);
    } else {
      var j := FirstNonBlank(p.lines, p.nextLine);
      AdvanceReadsCommand(p, j);
      ReadLineIsPrevious(p, j, q);
    }
  }

  /** The facts about the line read at `j`, restated for the line just before the new cursor. */
  lemma ReadLineIsPrevious(p: Parser, j: nat, q: Parser)
    requires Valid(p) && FirstCommandLine(p, j)
    requires q.nextLine == j + 1 && q.nextCmd == p.nextCmd + 1
    requires q.current.Some? && q.current.value.raw == CleanLine(p.lines[j])
    requires GetType(q.current.value.raw) == Success(q.current.value.kind)
    ensures && p.nextLine < q.nextLine <= |p.lines|
      && q.nextCmd == p.nextCmd + 1
      && AllBlank(p.lines, p.nextLine, q.nextLine - 1)
      && !IsBlank(p.lines[q.nextLine - 1])
      && q.current.Some?
      && q.current.value.raw == CleanLine(p.lines[q.nextLine - 1])
      && GetType(q.current.value.raw) == Success(q.current.value.kind)
  {
  }

  /** Line `k` is the first line from the cursor on that is not blank. */
  predicate FirstCommandLine(p: Parser, k: int)
    requires Valid(p)
  {
    p.nextLine <= k < |p.lines| && AllBlank(p.lines, p.nextLine, k) && !IsBlank(p.lines[k])
  }

  /** At most one line is the first non-blank one. */
  lemma FirstCommandLineUnique(p: Parser, j: int, k: int)
    requires Valid(p) && FirstCommandLine(p, j) && FirstCommandLine(p, k)
    ensures j == k
  {
  }

  /**
   * `advance` panics exactly when the first non-blank line from the cursor
   * on is one `get_type` does not know, and then with an unknown-command error.
   */
  lemma AdvanceFailure(p: Parser)
    requires Valid(p)
    ensures Advance(p).Failure? ==> Advance(p).error == UnknownCommand
    ensures Advance(p).Failure? <==>
      exists k :: FirstCommandLine(p, k) && GetType(CleanLine(p.lines[k])).Failure?
  {
    if !AllBlank(p.lines, p.nextLine, |p.lines|) {
      var j := FirstNonBlank(p.lines, p.nextLine);
      AdvanceFirstCommand(p, j);
      assert FirstCommandLine(p, j);
      forall k | FirstCommandLine(p, k) ensures k == j {
        FirstCommandLineUnique(p, j, k);
      }
    } else {
      AdvanceAllBlank(p);
    }
  }

  /** After `advance` reads line `j`, `get_cmd_type` reports the kind `get_type` gives that line. */
  lemma AdvanceCmdType(p: Parser, j: nat)
    requires Valid(p) && FirstCommandLine(p, j)
    requires Advance(p).Success?
    ensures GetType(CleanLine(p.lines[j])).Success?
    ensures GetCmdType(Advance(p).value) == Some(GetType(CleanLine(p.lines[j])).value)
  {
    AdvanceReadsCommand(p, j);
  }

  lemma AdvanceReadsCommand(p: Parser, j: nat)
    requires Valid(p)
    requires p.nextLine <= j < |p.lines|
    requires AllBlank(p.lines, p.nextLine, j) && !IsBlank(p.lines[j])
    requires Advance(p).Success?
    ensures var q := Advance(p).value;
      && q.nextLine == j + 1
      && q.nextCmd == p.nextCmd + 1
      && q.current.Some?
      && q.current.value.raw == CleanLine(p.lines[j])
      && GetType(q.current.value.raw) == Success(q.current.value.kind)
  {
    AdvanceFirstCommand(p, j);
  }

  /** A string without `/` has no `//` anywhere. */
  lemma NoSlashNoComment(s: string)
    requires '/' !in s
    ensures StripComment(s) == s
  {
    FindFirst(s, "//");
    forall k | 0 <= k <= |s| ensures !OccursAt(s, "//", k) {
      if k + 2 <= |s| {
        assert s[k..k + 2][0] == s[k] != '/';
      }
    }
  }

  /** A segment or symbol name as the VM language writes it: one non-empty word. */
  predicate IsWord(s: string) {
    |s| >= 1 && forall k :: 0 <= k < |s| ==> !IsWhitespace(s[k]) && s[k] != '/'
  }

  /** The canonical text of a `push`/`pop` command. */
  function PushPopLine(verb: string, segment: string, index: int): string {
    verb + " " + segment + " " + ShowInt(index)
  }

  lemma CanonicalLineIsClean(verb: string, segment: string, index: int)
    requires verb == "push" || verb == "pop"
    requires IsWord(segment)
    ensures CleanLine(PushPopLine(verb, segment, index)) == PushPopLine(verb, segment, index)
  {
    var number := ShowInt(index);
    var line := PushPopLine(verb, segment, index);
    ShowIntCharset(index);
    assert '/' !in line by {
      forall k | 0 <= k < |line| ensures line[k] != '/' {
        if k < |verb| + 1 + |segment| + 1 {
          assert line[k] == (verb + " " + segment + " ")[k];
        } else {
          assert line[k] == number[k - |verb| - |segment| - 2];
        }
      }
    }
    NoSlashNoComment(line);
    assert line[|line| - 1] == number[|number| - 1];
    TrimNoop(line);
  }

  lemma CanonicalLineTokens(verb: string, segment: string, index: int)
    requires verb == "push" || verb == "pop"
    requires IsWord(segment)
    ensures Split(PushPopLine(verb, segment, index), ' ') == [verb, segment, ShowInt(index)]
  {
    var number := ShowInt(index);
    ShowIntCharset(index);
    var pieces := [verb, segment, number];
    assert Join(pieces, ' ') == PushPopLine(verb, segment, index) by {
      assert pieces[1..] == [segment, number];
      assert Join([segment, number], ' ') == segment + " " + number;
    }
    forall k | 0 <= k < 3 ensures ' ' !in pieces[k] {
      if k == 1 {
        assert forall m :: 0 <= m < |segment| ==> segment[m] != ' ';
      } else if k == 2 {
        assert forall m :: 0 <= m < |number| ==> number[m] != ' ';
      }
    }
    SplitJoin(pieces, ' ');
  }

  lemma CanonicalLineKind(verb: string, segment: string, index: int)
    requires verb == "push" || verb == "pop"
    requires IsWord(segment)
    ensures GetType(PushPopLine(verb, segment, index)) == Success(if verb == "push" then Push else Pop)
  {
    var line := PushPopLine(verb, segment, index);
    assert line !in ArithmeticKeywords by { assert |line| > 3; }
    if verb == "pop" {
      assert !("push" <= line) by { assert line[1] == 'o'; }
    }
  }

  /**
   * A `push`/`pop` line written the canonical way (`push local 3`) is read
   * back exactly: the verb, the segment and the index come out of `cmd`,
   * `arg1` and `arg2` unchanged.
   */
  lemma ReadPushPopLine(verb: string, segment: string, index: I32)
    requires verb == "push" || verb == "pop"
    requires IsWord(segment)
    ensures Advance(New([PushPopLine(verb, segment, index)])).Success?
    ensures var q := Advance(New([PushPopLine(verb, segment, index)])).value;
      && GetCmdType(q) == Some(if verb == "push" then Push else Pop)
      && Cmd(q) == Success(verb)
      && Arg1(q) == Success(segment)
      && Arg2(q) == Success(index)
  {
    CanonicalAdvance(verb, segment, index);
    CanonicalCmd(verb, segment, index);
    CanonicalArg1(verb, segment, index);
    CanonicalArg2(verb, segment, index);
  }

  /** The reader positioned on a canonical `push`/`pop` line. */
  function Holding(verb: string, segment: string, index: int): Parser {
    var line := PushPopLine(verb, segment, index);
    Parser([line], 1, 1, Some(Command(if verb == "push" then Push else Pop, line)))
  }

  lemma CanonicalAdvance(verb: string, segment: string, index: I32)
    requires verb == "push" || verb == "pop"
    requires IsWord(segment)
    ensures Advance(New([PushPopLine(verb, segment, index)])) == Success(Holding(verb, segment, index))
  {
    CanonicalLineIsClean(verb, segment, index);
    CanonicalLineKind(verb, segment, index);
  }

  lemma CanonicalCmd(verb: string, segment: string, index: I32)
    requires verb == "push" || verb == "pop"
    requires IsWord(segment)
    ensures Cmd(Holding(verb, segment, index)) == Success(verb)
  {
    CanonicalLineTokens(verb, segment, index);
  }

  lemma CanonicalArg1(verb: string, segment: string, index: I32)
    requires verb == "push" || verb == "pop"
    requires IsWord(segment)
    ensures Arg1(Holding(verb, segment, index)) == Success(segment)
  {
    CanonicalLineTokens(verb, segment, index);
  }

  /** `arg2` of a push or pop reads the third of its tokens. */
  lemma Arg2FromTokens(p: Parser, pieces: seq<string>, n: I32)
    requires p.current.Some? && (p.current.value.kind.Push? || p.current.value.kind.Pop?)
    requires Split(p.current.value.raw, ' ') == pieces && |pieces| >= 3 && ParseI32(pieces[2]) == Some(n)
    ensures Arg2(p) == Success(n)
  {
  }

  lemma CanonicalArg2(verb: string, segment: string, index: I32)
    requires verb == "push" || verb == "pop"
    requires IsWord(segment)
    ensures Arg2(Holding(verb, segment, index)) == Success(index)
  {
    CanonicalLineTokens(verb, segment, index);
    ParseShowInt(index);
    Arg2FromTokens(Holding(verb, segment, index), [verb, segment, ShowInt(index)], index);
  }

  /** A VM command written in the intended grammar of the language. */
  datatype VmLine =
    | ArithmeticLine(op: string)
    | PushLine(segment: string, index: nat)
    | PopLine(segment: string, index: nat)
    | LabelLine(name: string)
    | GotoLine(name: string)
    | IfGotoLine(name: string)
    | FunctionLine(name: string, count: nat)
    | CallLine(name: string, count: nat)
    | ReturnLine

  predicate WellFormed(c: VmLine) {
    match c
    case ArithmeticLine(op) => op in ArithmeticKeywords
    case PushLine(s, _) => IsWord(s)
    case PopLine(s, _) => IsWord(s)
    case LabelLine(n) => IsWord(n)
    case GotoLine(n) => IsWord(n)
    case IfGotoLine(n) => IsWord(n)
    case FunctionLine(n, _) => IsWord(n)
    case CallLine(n, _) => IsWord(n)
    case ReturnLine => true
  }

  function Render(c: VmLine): string {
    match c
    case ArithmeticLine(op) => op
    case PushLine(s, i) => "push " + s + " " + ShowNat(i)
    case PopLine(s, i) => "pop " + s + " " + ShowNat(i)
    case LabelLine(n) => "label " + n
    case GotoLine(n) => "goto " + n
    case IfGotoLine(n) => "if-goto " + n
    case FunctionLine(n, k) => "function " + n + " " + ShowNat(k)
    case CallLine(n, k) => "call " + n + " " + ShowNat(k)
    case ReturnLine => "return"
  }

  /**
   * Classification against the intended grammar: arithmetic, `push`, `pop`
   * and `return` lines get their kind, while every branching and function
   * command written with its operands is rejected as an unknown command,
   * because those keywords are matched against the whole line.
   */
  lemma ClassifyIntendedGrammar(c: VmLine)
    requires WellFormed(c)
    ensures GetType(Render(c)).Success? <==> (c.ArithmeticLine? || c.PushLine? || c.PopLine? || c.ReturnLine?)
    ensures c.ArithmeticLine? ==> GetType(Render(c)) == Success(Arithmetic)
    ensures c.PushLine? ==> GetType(Render(c)) == Success(Push)
    ensures c.PopLine? ==> GetType(Render(c)) == Success(Pop)
    ensures c.ReturnLine? ==> GetType(Render(c)) == Success(Return)
  {
    var line := Render(c);
    match c
    case ArithmeticLine(op) =>
    case PushLine(s, i) =>
      assert |line| > 3;
    case PopLine(s, i) =>
      assert |line| > 3 && line[1] == 'o';
    case LabelLine(n) =>
      assert |line| > 6 && line[0] == 'l';
    case GotoLine(n) =>
      assert |line| > 5 && line[0] == 'g';
    case IfGotoLine(n) =>
      assert |line| > 8 && line[0] == 'i';
    case FunctionLine(n, k) =>
      assert |line| > 9 && line[0] == 'f';
    case CallLine(n, k) =>
      assert |line| > 5 && line[0] == 'c';
    case ReturnLine =>
      assert line[0] == 'r';
      assert !("push" <= line) && !("pop" <= line);
  }
}
