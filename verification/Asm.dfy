/** The two-pass assembler, over source lines already split into tokens. */
module Asm {
  import opened Bytes
  import opened Isa

  /** A jump operand: a number, or the name of a label. */
  datatype Target = Digits(value: nat) | Word(name: string)

  datatype JumpOp = JmpOp | CallOp | JzOp(a: Reg) | JnzOp(a: Reg)

  /** A tokenised line. `Unparsed` is a line the parser rejects whatever the labels are. */
  datatype Line =
    | Label(name: string)
    | Plain(instr: Instr)
    | Jump(op: JumpOp, target: Target)
    | Unparsed

  datatype Source = Source(no: nat, line: Line)

  datatype AsmError =
    | BadLine(no: nat)
    | BadNumber(no: nat, value: nat)
    | UnknownLabel(no: nat, name: string)
    | DuplicateLabel(no: nat, name: string)
    | ProgramTooLarge(no: nat)

  type Labels = map<string, u32>

  function JumpInstr(op: JumpOp, target: u32): Instr {
    match op
    case JmpOp => Jmp(target)
    case CallOp => Call(target)
    case JzOp(a) => Jz(a, target)
    case JnzOp(a) => Jnz(a, target)
  }

  /** A jump operand's value; in the first pass an unknown label stands for 0. */
  function Resolve(no: nat, t: Target, labels: Labels, allowUnknown: bool): Result<u32, AsmError> {
    match t
    case Digits(v) => if v < TWO32 then Ok(v) else Err(BadNumber(no, v))
    case Word(name) =>
      if name in labels then Ok(labels[name])
      else if allowUnknown then Ok(0)
      else Err(UnknownLabel(no, name))
  }

  function ParseInstr(s: Source, labels: Labels, allowUnknown: bool): Result<Instr, AsmError>
    requires !s.line.Label?
  {
    match s.line
    case Plain(i) => Ok(i)
    case Jump(op, t) =>
      var target :- Resolve(s.no, t, labels, allowUnknown);
      Ok(JumpInstr(op, target))
    case Unparsed => Err(BadLine(s.no))
  }

  /** The first pass over the first `n` lines: the labels so far and the offset reached. */
  function PassOne(lines: seq<Source>, n: nat): Result<(Labels, u32), AsmError>
    requires n <= |lines|
  {
    if n == 0 then Ok((map[], 0))
    else
      var st :- PassOne(lines, n - 1);
      var s := lines[n - 1];
      if s.line.Label? then
        if s.line.name in st.0 then Err(DuplicateLabel(s.no, s.line.name))
        else Ok((st.0[s.line.name := st.1], st.1))
      else
        var i :- ParseInstr(s, st.0, true);
        var next := st.1 + |Encode(i)|;
        if next >= TWO32 then Err(ProgramTooLarge(s.no)) else Ok((st.0, next))
  }

  /** The second pass over the first `n` lines: their bytes. */
  function PassTwo(lines: seq<Source>, n: nat, labels: Labels): Result<seq<byte>, AsmError>
    requires n <= |lines|
  {
    if n == 0 then Ok([])
    else
      var code :- PassTwo(lines, n - 1, labels);
      if lines[n - 1].line.Label? then Ok(code)
      else
        var i :- ParseInstr(lines[n - 1], labels, false);
        Ok(code + Encode(i))
  }

  function Assembled(lines: seq<Source>): Result<seq<byte>, AsmError> {
    var st :- PassOne(lines, |lines|);
    PassTwo(lines, |lines|, st.0)
  }

  // ---- What a source says, without assembling it ----

  /** The length of a line's encoding, which no jump target changes. */
  function LineBytes(line: Line): nat {
    match line
    case Plain(i) => |Encode(i)|
    case Jump(op, _) => if op.JmpOp? || op.CallOp? then 5 else 6
    case _ => 0
  }

  /** The bytes the first `n` lines take. */
  function SizeTo(lines: seq<Source>, n: nat): nat
    requires n <= |lines|
  {
    if n == 0 then 0 else SizeTo(lines, n - 1) + LineBytes(lines[n - 1].line)
  }

  predicate Declares(lines: seq<Source>, k: nat, name: string) {
    k < |lines| && lines[k].line == Label(name)
  }

  /** A line the parser accepts once every label is known. */
  predicate Acceptable(line: Line) {
    !line.Unparsed? && (line.Jump? && line.target.Digits? ==> line.target.value < TWO32)
  }

  ghost predicate TargetDeclared(lines: seq<Source>, line: Line) {
    line.Jump? && line.target.Word? ==> exists k :: Declares(lines, k, line.target.name)
  }

  /** The first `n` lines can be laid out: acceptable, each label declared once, and not too long. */
  ghost predicate LaysOut(lines: seq<Source>, n: nat)
    requires n <= |lines|
  {
    && (forall k | 0 <= k < n :: Acceptable(lines[k].line))
    && (forall j, k | 0 <= j < k < n && lines[j].line.Label? :: lines[j].line != lines[k].line)
    && SizeTo(lines, n) < TWO32
  }

  /** A source that assembles. */
  ghost predicate WellFormed(lines: seq<Source>) {
    LaysOut(lines, |lines|) && forall k | 0 <= k < |lines| :: TargetDeclared(lines, lines[k].line)
  }

  /** The instruction a line stands for under a label table. */
  function InstrOf(line: Line, labels: Labels): Instr
    requires !line.Label? && !line.Unparsed?
  {
    match line
    case Plain(i) => i
    case Jump(op, Digits(v)) => JumpInstr(op, if v < TWO32 then v else 0)
    case Jump(op, Word(name)) => JumpInstr(op, if name in labels then labels[name] else 0)
  }

  /** The instructions of the first `n` lines. */
  function Program(lines: seq<Source>, n: nat, labels: Labels): seq<Instr>
    requires n <= |lines| && forall k | 0 <= k < n :: Acceptable(lines[k].line)
  {
    if n == 0 then []
    else
      assert Acceptable(lines[n - 1].line);
      if lines[n - 1].line.Label? then Program(lines, n - 1, labels)
      else Program(lines, n - 1, labels) + [InstrOf(lines[n - 1].line, labels)]
  }

  lemma JumpLength(op: JumpOp, target: u32)
    ensures |Encode(JumpInstr(op, target))| == if op.JmpOp? || op.CallOp? then 5 else 6
  {
    hide ToBE;
  }

  /** Each line's encoding has the same length in both passes, placeholder or not. */
  lemma SameLength(s: Source, labels: Labels, allowUnknown: bool)
    requires !s.line.Label? && ParseInstr(s, labels, allowUnknown).Ok?
    ensures |Encode(ParseInstr(s, labels, allowUnknown).value)| == LineBytes(s.line)
  {
    hide Encode, JumpInstr;
    if s.line.Jump? {
      JumpLength(s.line.op, Resolve(s.no, s.line.target, labels, allowUnknown).value);
    }
  }

  lemma ParsesWhenAcceptable(s: Source, labels: Labels)
    requires !s.line.Label?
    ensures ParseInstr(s, labels, true).Ok? <==> Acceptable(s.line)
    ensures ParseInstr(s, labels, false).Ok? <==>
            Acceptable(s.line) && (s.line.Jump? && s.line.target.Word? ==> s.line.target.name in labels)
    ensures ParseInstr(s, labels, false).Ok? ==>
              ParseInstr(s, labels, false).value == InstrOf(s.line, labels)
  {
  }

  /** The first pass succeeds exactly on lines that can be laid out, and then maps every label to
      the number of bytes before it. */
  lemma {:induction false} PassOneExact(lines: seq<Source>, n: nat)
    requires n <= |lines|
    ensures PassOne(lines, n).Ok? <==> LaysOut(lines, n)
    ensures PassOne(lines, n).Ok? ==>
              var (labels, offset) := PassOne(lines, n).value;
              && offset == SizeTo(lines, n)
              && (forall name | name in labels :: exists k: nat :: k < n && Declares(lines, k, name))
              && forall k: nat, name | k < n && Declares(lines, k, name) ::
                   name in labels && labels[name] == SizeTo(lines, k)
    decreases n
  {
    hide Encode, ParseInstr, LineBytes, Acceptable;
    if n > 0 {
      PassOneExact(lines, n - 1);
      var s := lines[n - 1];
      if s.line.Label? {
        LabelLine(s.line);
        assert Declares(lines, n - 1, s.line.name);
        assert forall j: nat | j < n - 1 && lines[j].line == s.line :: Declares(lines, j, s.line.name);
      } else if PassOne(lines, n - 1).Ok? {
        var labels := PassOne(lines, n - 1).value.0;
        ParsesWhenAcceptable(s, labels);
        if Acceptable(s.line) {
          SameLength(s, labels, true);
        }
      }
    }
  }

  lemma LabelLine(line: Line)
    requires line.Label?
    ensures Acceptable(line) && LineBytes(line) == 0
  {
  }

  /** The second pass lays the program down, and fails only on an undeclared label. */
  lemma {:induction false} PassTwoExact(lines: seq<Source>, n: nat, labels: Labels)
    requires n <= |lines| && forall k | 0 <= k < n :: Acceptable(lines[k].line)
    ensures PassTwo(lines, n, labels).Ok? <==>
            forall k | 0 <= k < n :: lines[k].line.Jump? && lines[k].line.target.Word? ==>
              lines[k].line.target.name in labels
    ensures PassTwo(lines, n, labels).Ok? ==>
              PassTwo(lines, n, labels).value == EncodeAll(Program(lines, n, labels))
    decreases n
  {
    hide Encode, ParseInstr, Acceptable, InstrOf;
    if n > 0 {
      PassTwoExact(lines, n - 1, labels);
      var s := lines[n - 1];
      if !s.line.Label? {
        ParsesWhenAcceptable(s, labels);
        AcceptedLine(s.line);
        OneMoreInstr(Program(lines, n - 1, labels), s, labels);
      }
    }
  }

  lemma OneMoreInstr(p: seq<Instr>, s: Source, labels: Labels)
    requires !s.line.Label? && !s.line.Unparsed?
    ensures EncodeAll(p + [InstrOf(s.line, labels)]) == EncodeAll(p) + Encode(InstrOf(s.line, labels))
  {
    hide Encode, InstrOf;
    var i := InstrOf(s.line, labels);
    EncodeAllAppend(p, [i]);
    assert EncodeAll([i]) == Encode(i) + EncodeAll([]);
  }

  /** The bytes before a line are the encodings of the instructions before it. */
  lemma {:induction false} SizeOfProgram(lines: seq<Source>, n: nat, labels: Labels)
    requires n <= |lines| && forall k | 0 <= k < n :: Acceptable(lines[k].line)
    ensures |EncodeAll(Program(lines, n, labels))| == SizeTo(lines, n)
    decreases n
  {
    hide Encode, Acceptable, InstrOf, JumpInstr;
    if n > 0 {
      SizeOfProgram(lines, n - 1, labels);
      var s := lines[n - 1];
      if s.line.Label? {
        LabelLine(s.line);
      } else {
        AcceptedLine(s.line);
        OneMoreInstr(Program(lines, n - 1, labels), s, labels);
        InstrLength(s.line, labels);
      }
    }
  }

  lemma AcceptedLine(line: Line)
    requires Acceptable(line)
    ensures !line.Unparsed?
  {
  }

  lemma InstrLength(line: Line, labels: Labels)
    requires !line.Label? && !line.Unparsed?
    ensures |Encode(InstrOf(line, labels))| == LineBytes(line)
  {
    hide Encode, JumpInstr;
    match line
    case Plain(_) =>
    case Jump(op, Digits(v)) => JumpLength(op, if v < TWO32 then v else 0);
    case Jump(op, Word(name)) => JumpLength(op, if name in labels then labels[name] else 0);
  }

  /** The program of a prefix of the lines is a prefix of the program. */
  lemma {:induction false} ProgramPrefix(lines: seq<Source>, k: nat, n: nat, labels: Labels)
    requires k <= n <= |lines| && forall j | 0 <= j < n :: Acceptable(lines[j].line)
    ensures Program(lines, k, labels) <= Program(lines, n, labels)
    decreases n
  {
    hide Acceptable, InstrOf;
    if k < n {
      ProgramPrefix(lines, k, n - 1, labels);
    }
  }

  /** Assembly succeeds exactly on well-formed sources. */
  lemma AssemblesExactly(lines: seq<Source>)
    ensures Assembled(lines).Ok? <==> WellFormed(lines)
  {
    hide PassOne, PassTwo, Acceptable, SizeTo;
    var n := |lines|;
    PassOneExact(lines, n);
    if PassOne(lines, n).Ok? {
      var labels := PassOne(lines, n).value.0;
      PassTwoExact(lines, n, labels);
      forall k | 0 <= k < n && lines[k].line.Jump? && lines[k].line.target.Word?
        ensures TargetDeclared(lines, lines[k].line) <==> lines[k].line.target.name in labels
      {
      }
    }
  }

  /** Two-pass assembly is correct: the output decodes to exactly the instruction lines in order,
      and every label stands for the offset at which the next instruction after it begins, or for
      the code length when there is none. */
  lemma AssemblyIsCorrect(lines: seq<Source>)
    requires Assembled(lines).Ok?
    ensures LaysOut(lines, |lines|)
    ensures var code, labels := Assembled(lines).value, PassOne(lines, |lines|).value.0;
            && |code| < TWO32
            && FullyDecodes(code)
            && InstrsOf(Listing(code, 0)) == Program(lines, |lines|, labels)
            && forall k, name | Declares(lines, k, name) ::
                 && name in labels
                 && var m := |Program(lines, k, labels)|;
                    labels[name] == if m < |Listing(code, 0)| then Listing(code, 0)[m].at else |code|
  {
    hide PassOne, PassTwo, SizeTo, Listing, StopOf, EncodeAll, Acceptable, Program;
    var n := |lines|;
    PassOneExact(lines, n);
    var code, labels := Assembled(lines).value, PassOne(lines, n).value.0;
    PassTwoExact(lines, n, labels);
    SizeOfProgram(lines, n, labels);
    var program := Program(lines, n, labels);
    assert [] + EncodeAll(program) == code;
    ProgramDecodes([], program);
    forall k, name | Declares(lines, k, name)
      ensures name in labels
      ensures var m := |Program(lines, k, labels)|;
              labels[name] == if m < |Listing(code, 0)| then Listing(code, 0)[m].at else |code|
    {
      LabelStands(lines, k, labels, code);
    }
  }

  lemma LabelStands(lines: seq<Source>, k: nat, labels: Labels, code: seq<byte>)
    requires k <= |lines| && LaysOut(lines, |lines|)
    requires code == EncodeAll(Program(lines, |lines|, labels))
    requires InstrsOf(Listing(code, 0)) == Program(lines, |lines|, labels)
    ensures var m := |Program(lines, k, labels)|;
            SizeTo(lines, k) == if m < |Listing(code, 0)| then Listing(code, 0)[m].at else |code|
  {
    hide SizeTo, Listing, EncodeAll, Acceptable, Program, StopOf;
    var m, program := |Program(lines, k, labels)|, Program(lines, |lines|, labels);
    SizeOfProgram(lines, k, labels);
    ProgramPrefix(lines, k, |lines|, labels);
    assert program[..m] == Program(lines, k, labels);
    if m < |Listing(code, 0)| {
      ListingOffsets(code, 0, m);
    } else {
      assert program[..m] == program;
    }
  }

  /** Every instruction line is in its place in the program: a plain one as it is, a jump as the jump
      it names, to the number it gives or to its label's offset. */
  lemma LineStands(lines: seq<Source>, j: nat, labels: Labels)
    requires j < |lines| && LaysOut(lines, |lines|) && (lines[j].line.Plain? || lines[j].line.Jump?)
    requires lines[j].line.Jump? && lines[j].line.target.Word? ==> lines[j].line.target.name in labels
    ensures var line, m := lines[j].line, |Program(lines, j, labels)|;
            && m < |Program(lines, |lines|, labels)|
            && var i := Program(lines, |lines|, labels)[m];
               if line.Plain? then i == line.instr
               else
                 && (line.target.Digits? ==> line.target.value < TWO32)
                 && var t: u32 := if line.target.Digits? then line.target.value else labels[line.target.name];
                    match line.op
                    case JmpOp => i == Jmp(t)
                    case CallOp => i == Call(t)
                    case JzOp(a) => i == Jz(a, t)
                    case JnzOp(a) => i == Jnz(a, t)
  {
    hide Acceptable;
    ProgramPrefix(lines, j + 1, |lines|, labels);
    DigitsFit(lines[j].line);
  }

  lemma DigitsFit(line: Line)
    requires Acceptable(line)
    ensures !line.Unparsed? && (line.Jump? && line.target.Digits? ==> line.target.value < TWO32)
  {
  }

  // ---- Which error assembly reports ----

  /** What is wrong with the first line the first pass stops at. */
  function LineError(s: Source): AsmError {
    match s.line
    case Label(name) => DuplicateLabel(s.no, name)
    case Unparsed => BadLine(s.no)
    case Plain(_) => ProgramTooLarge(s.no)
    case Jump(_, Digits(v)) => if v >= TWO32 then BadNumber(s.no, v) else ProgramTooLarge(s.no)
    case Jump(_, Word(_)) => ProgramTooLarge(s.no)
  }

  lemma {:induction false} PassOneFails(lines: seq<Source>, n: nat) returns (k: nat)
    requires n <= |lines| && PassOne(lines, n).Err?
    ensures k < n && PassOne(lines, k).Ok? && PassOne(lines, k + 1).Err?
    ensures PassOne(lines, n) == Err(LineError(lines[k]))
    decreases n
  {
    hide Encode, JumpInstr;
    if PassOne(lines, n - 1).Err? {
      k := PassOneFails(lines, n - 1);
    } else {
      k := n - 1;
    }
  }

  lemma {:induction false} PassTwoFails(lines: seq<Source>, n: nat, labels: Labels) returns (k: nat)
    requires n <= |lines| && PassTwo(lines, n, labels).Err?
    requires forall j | 0 <= j < n :: Acceptable(lines[j].line)
    ensures k < n && PassTwo(lines, k, labels).Ok?
    ensures lines[k].line.Jump? && lines[k].line.target.Word? && lines[k].line.target.name !in labels
    ensures PassTwo(lines, n, labels) == Err(UnknownLabel(lines[k].no, lines[k].line.target.name))
    decreases n
  {
    hide Encode, JumpInstr;
    if PassTwo(lines, n - 1, labels).Err? {
      k := PassTwoFails(lines, n - 1, labels);
    } else {
      k := n - 1;
      assert Acceptable(lines[k].line);
    }
  }

  /** The error assembly reports: that of the first line at which the lines so far can no longer be laid
      out; or, when all can, the undeclared label of the first line that names one. */
  lemma AssemblyFailsAt(lines: seq<Source>) returns (k: nat)
    requires Assembled(lines).Err?
    ensures k < |lines|
    ensures !LaysOut(lines, |lines|) ==>
              LaysOut(lines, k) && !LaysOut(lines, k + 1) && Assembled(lines) == Err(LineError(lines[k]))
    ensures LaysOut(lines, |lines|) ==>
              && (forall j | 0 <= j < k :: TargetDeclared(lines, lines[j].line))
              && !TargetDeclared(lines, lines[k].line)
              && lines[k].line.Jump? && lines[k].line.target.Word?
              && Assembled(lines) == Err(UnknownLabel(lines[k].no, lines[k].line.target.name))
  {
    hide PassOne, PassTwo, Acceptable, SizeTo, LineError;
    var n := |lines|;
    PassOneExact(lines, n);
    if PassOne(lines, n).Err? {
      k := PassOneFails(lines, n);
      PassOneExact(lines, k);
      PassOneExact(lines, k + 1);
    } else {
      var labels := PassOne(lines, n).value.0;
      k := PassTwoFails(lines, n, labels);
      PassTwoExact(lines, k, labels);
      forall j | 0 <= j < n && lines[j].line.Jump? && lines[j].line.target.Word?
        ensures TargetDeclared(lines, lines[j].line) <==> lines[j].line.target.name in labels
      {
      }
    }
  }

  lemma {:induction false} FirstErrorStays(lines: seq<Source>, k: nat, n: nat, labels: Labels)
    requires k <= n <= |lines|
    ensures PassOne(lines, k).Err? ==> PassOne(lines, n) == Err(PassOne(lines, k).error)
    ensures PassTwo(lines, k, labels).Err? ==> PassTwo(lines, n, labels) == Err(PassTwo(lines, k, labels).error)
    decreases n
  {
    hide ParseInstr, Encode;
    if k < n {
      FirstErrorStays(lines, k, n - 1, labels);
    }
  }

  method CollectLabels(lines: seq<Source>) returns (r: Result<Labels, AsmError>)
    ensures match PassOne(lines, |lines|)
            case Ok(st) => r == Ok(st.0)
            case Err(e) => r == Err(e)
  {
    hide ParseInstr, Encode;
    var labels: Labels := map[];
    var offset, k := 0, 0;
    while k < |lines|
      invariant 0 <= k <= |lines| && 0 <= offset < TWO32
      invariant PassOne(lines, k) == Ok((labels, offset))
    {
      var s := lines[k];
      FirstErrorStays(lines, k + 1, |lines|, map[]);
      if s.line.Label? {
        if s.line.name in labels {
          return Err(DuplicateLabel(s.no, s.line.name));
        }
        labels := labels[s.line.name := offset];
      } else {
        var i := ParseInstr(s, labels, true);
        if i.Err? {
          return Err(i.error);
        }
        if offset + |Encode(i.value)| >= TWO32 {
          return Err(ProgramTooLarge(s.no));
        }
        offset := offset + |Encode(i.value)|;
      }
      k := k + 1;
    }
    return Ok(labels);
  }

  /** The assembler as the source runs it: a loop for labels, then a loop appending code. */
  method Assemble(lines: seq<Source>) returns (r: Result<seq<byte>, AsmError>)
    ensures r == Assembled(lines)
  {
    hide ParseInstr, Encode, PassOne;
    var labels := CollectLabels(lines);
    if labels.Err? {
      return Err(labels.error);
    }
    var code := new ByteVec();
    var k := 0;
    while k < |lines|
      invariant 0 <= k <= |lines|
      invariant PassTwo(lines, k, labels.value) == Ok(code.bytes)
    {
      FirstErrorStays(lines, k + 1, |lines|, labels.value);
      if !lines[k].line.Label? {
        var i := ParseInstr(lines[k], labels.value, false);
        if i.Err? {
          return Err(i.error);
        }
        EncodeTo(i.value, code);
      }
      k := k + 1;
    }
    return Ok(code.bytes);
  }
}
