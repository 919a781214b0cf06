/** Instructions, their byte encoding and the decoder. */
module Isa {
  import opened Bytes

  const NUM_REGS := 16

  type Reg = r: int | 0 <= r < NUM_REGS

  /** The three-register arithmetic, logic, shift and comparison opcodes. */
  datatype AluOp =
    | Add | Sub | Mul | Div | Rem | AddW | SubW | MulW | MulHi
    | And | Or | Xor | Shl | Shr | Eq | LtU | GtU

  /** The 128-bit division opcodes. */
  datatype WideOp = DivW | RemW

  datatype Instr =
    | Halt
    | Nop
    | Mov(d: Reg, a: Reg)
    | Ldi(d: Reg, imm: u64)
    | Ldc(d: Reg, idx: u16)
    | Alu(op: AluOp, d: Reg, a: Reg, b: Reg)
    | Wide(wop: WideOp, dlo: Reg, dhi: Reg, alo: Reg, ahi: Reg, blo: Reg, bhi: Reg)
    | Not(d: Reg, a: Reg)
    | Push(a: Reg)
    | Pop(d: Reg)
    | MLoad(d: Reg, a: Reg)
    | MStore(a: Reg, b: Reg)
    | Jmp(target: u32)
    | Jz(a: Reg, target: u32)
    | Jnz(a: Reg, target: u32)
    | Call(target: u32)
    | Ret
    | SLoad(d: Reg, a: Reg)
    | SStore(a: Reg, b: Reg)
    | Send(a: Reg, b: Reg, c: Reg)
    | Emit(a: Reg, b: Reg, c: Reg)
    | Hash(a: Reg, b: Reg, c: Reg)
    | VerifyMl(a: Reg, b: Reg, c: Reg)
    | VerifySlh(a: Reg, b: Reg, c: Reg)
    | MerkleVerify(a: Reg, b: Reg, c: Reg)
    | Addr(a: Reg, b: Reg, c: Reg)

  datatype OpCode =
    | OpHalt | OpNop | OpMov | OpLdi | OpLdc
    | OpAlu(alu: AluOp) | OpWide(wide: WideOp) | OpNot
    | OpPush | OpPop | OpMLoad | OpMStore
    | OpJmp | OpJz | OpJnz | OpCall | OpRet
    | OpSLoad | OpSStore | OpSend | OpEmit
    | OpHash | OpVerifyMl | OpVerifySlh | OpMerkleVerify | OpAddr

  datatype DecodeError = UnknownOpcode(op: byte) | BadRegister(reg: byte) | Truncated

  function OpCodeOf(i: Instr): OpCode {
    match i
    case Halt => OpHalt
    case Nop => OpNop
    case Mov(_, _) => OpMov
    case Ldi(_, _) => OpLdi
    case Ldc(_, _) => OpLdc
    case Alu(op, _, _, _) => OpAlu(op)
    case Wide(op, _, _, _, _, _, _) => OpWide(op)
    case Not(_, _) => OpNot
    case Push(_) => OpPush
    case Pop(_) => OpPop
    case MLoad(_, _) => OpMLoad
    case MStore(_, _) => OpMStore
    case Jmp(_) => OpJmp
    case Jz(_, _) => OpJz
    case Jnz(_, _) => OpJnz
    case Call(_) => OpCall
    case Ret => OpRet
    case SLoad(_, _) => OpSLoad
    case SStore(_, _) => OpSStore
    case Send(_, _, _) => OpSend
    case Emit(_, _, _) => OpEmit
    case Hash(_, _, _) => OpHash
    case VerifyMl(_, _, _) => OpVerifyMl
    case VerifySlh(_, _, _) => OpVerifySlh
    case MerkleVerify(_, _, _) => OpMerkleVerify
    case Addr(_, _, _) => OpAddr
  }

  function OpByte(op: OpCode): byte {
    match op
    case OpHalt => 0
    case OpNop => 1
    case OpMov => 2
    case OpLdi => 3
    case OpLdc => 4
    case OpAlu(Add) => 16
    case OpAlu(Sub) => 17
    case OpAlu(Mul) => 18
    case OpAlu(Div) => 19
    case OpAlu(Rem) => 20
    case OpAlu(AddW) => 24
    case OpAlu(SubW) => 25
    case OpAlu(MulW) => 26
    case OpAlu(MulHi) => 27
    case OpWide(DivW) => 28
    case OpWide(RemW) => 29
    case OpAlu(And) => 32
    case OpAlu(Or) => 33
    case OpAlu(Xor) => 34
    case OpNot => 35
    case OpAlu(Shl) => 36
    case OpAlu(Shr) => 37
    case OpAlu(Eq) => 40
    case OpAlu(LtU) => 41
    case OpAlu(GtU) => 42
    case OpPush => 48
    case OpPop => 49
    case OpMLoad => 56
    case OpMStore => 57
    case OpJmp => 64
    case OpJz => 65
    case OpJnz => 66
    case OpCall => 67
    case OpRet => 68
    case OpSLoad => 80
    case OpSStore => 81
    case OpSend => 96
    case OpEmit => 97
    case OpHash => 112
    case OpVerifyMl => 113
    case OpVerifySlh => 114
    case OpMerkleVerify => 115
    case OpAddr => 118
  }

  function FromByte(b: byte): Option<OpCode> {
    match b
    case 0 => Some(OpHalt)
    case 1 => Some(OpNop)
    case 2 => Some(OpMov)
    case 3 => Some(OpLdi)
    case 4 => Some(OpLdc)
    case 16 => Some(OpAlu(Add))
    case 17 => Some(OpAlu(Sub))
    case 18 => Some(OpAlu(Mul))
    case 19 => Some(OpAlu(Div))
    case 20 => Some(OpAlu(Rem))
    case 24 => Some(OpAlu(AddW))
    case 25 => Some(OpAlu(SubW))
    case 26 => Some(OpAlu(MulW))
    case 27 => Some(OpAlu(MulHi))
    case 28 => Some(OpWide(DivW))
    case 29 => Some(OpWide(RemW))
    case 32 => Some(OpAlu(And))
    case 33 => Some(OpAlu(Or))
    case 34 => Some(OpAlu(Xor))
    case 35 => Some(OpNot)
    case 36 => Some(OpAlu(Shl))
    case 37 => Some(OpAlu(Shr))
    case 40 => Some(OpAlu(Eq))
    case 41 => Some(OpAlu(LtU))
    case 42 => Some(OpAlu(GtU))
    case 48 => Some(OpPush)
    case 49 => Some(OpPop)
    case 56 => Some(OpMLoad)
    case 57 => Some(OpMStore)
    case 64 => Some(OpJmp)
    case 65 => Some(OpJz)
    case 66 => Some(OpJnz)
    case 67 => Some(OpCall)
    case 68 => Some(OpRet)
    case 80 => Some(OpSLoad)
    case 81 => Some(OpSStore)
    case 96 => Some(OpSend)
    case 97 => Some(OpEmit)
    case 112 => Some(OpHash)
    case 113 => Some(OpVerifyMl)
    case 114 => Some(OpVerifySlh)
    case 115 => Some(OpMerkleVerify)
    case 118 => Some(OpAddr)
    case _ => None
  }

  lemma OpCodesRoundTrip(op: OpCode, b: byte)
    ensures FromByte(b) == Some(op) <==> b == OpByte(op)
  {
  }

  /** The operand layouts; opcodes that share one are encoded and decoded alike. */
  datatype Layout = L0 | L1 | L2 | L3 | L6 | LWord | LIndex | LTarget | LBranch

  datatype Fields =
    | F0
    | F1(x: Reg)
    | F2(x: Reg, y: Reg)
    | F3(x: Reg, y: Reg, z: Reg)
    | F6(x: Reg, y: Reg, z: Reg, u: Reg, v: Reg, w: Reg)
    | FWord(x: Reg, word: u64)
    | FIndex(x: Reg, index: u16)
    | FTarget(target: u32)
    | FBranch(x: Reg, target: u32)
  {
    function Shape(): Layout {
      match this
      case F0 => L0
      case F1(_) => L1
      case F2(_, _) => L2
      case F3(_, _, _) => L3
      case F6(_, _, _, _, _, _) => L6
      case FWord(_, _) => LWord
      case FIndex(_, _) => LIndex
      case FTarget(_) => LTarget
      case FBranch(_, _) => LBranch
    }

    function Bytes(): seq<byte> {
      match this
      case F0 => []
      case F1(x) => [x]
      case F2(x, y) => [x, y]
      case F3(x, y, z) => [x, y, z]
      case F6(x, y, z, u, v, w) => [x, y, z, u, v, w]
      case FWord(x, n) => [x] + ToBE(n, 8)
      case FIndex(x, n) => [x] + ToBE(n, 2)
      case FTarget(t) => ToBE(t, 4)
      case FBranch(x, t) => [x] + ToBE(t, 4)
    }
  }

  function LayoutOf(op: OpCode): Layout {
    match op
    case OpHalt | OpNop | OpRet => L0
    case OpPush | OpPop => L1
    case OpMov | OpNot | OpMLoad | OpSLoad | OpMStore | OpSStore => L2
    case OpWide(_) => L6
    case OpLdi => LWord
    case OpLdc => LIndex
    case OpJmp | OpCall => LTarget
    case OpJz | OpJnz => LBranch
    case _ => L3
  }

  function FieldsOf(i: Instr): (f: Fields)
    ensures f.Shape() == LayoutOf(OpCodeOf(i))
  {
    match i
    case Halt | Nop | Ret => F0
    case Push(a) => F1(a)
    case Pop(d) => F1(d)
    case Mov(d, a) => F2(d, a)
    case Not(d, a) => F2(d, a)
    case MLoad(d, a) => F2(d, a)
    case SLoad(d, a) => F2(d, a)
    case MStore(a, b) => F2(a, b)
    case SStore(a, b) => F2(a, b)
    case Wide(_, dlo, dhi, alo, ahi, blo, bhi) => F6(dlo, dhi, alo, ahi, blo, bhi)
    case Ldi(d, imm) => FWord(d, imm)
    case Ldc(d, idx) => FIndex(d, idx)
    case Jmp(t) => FTarget(t)
    case Call(t) => FTarget(t)
    case Jz(a, t) => FBranch(a, t)
    case Jnz(a, t) => FBranch(a, t)
    case Alu(_, d, a, b) => F3(d, a, b)
    case Send(a, b, c) => F3(a, b, c)
    case Emit(a, b, c) => F3(a, b, c)
    case Hash(a, b, c) => F3(a, b, c)
    case VerifyMl(a, b, c) => F3(a, b, c)
    case VerifySlh(a, b, c) => F3(a, b, c)
    case MerkleVerify(a, b, c) => F3(a, b, c)
    case Addr(a, b, c) => F3(a, b, c)
  }

  function Build(op: OpCode, f: Fields): (i: Instr)
    requires f.Shape() == LayoutOf(op)
    ensures OpCodeOf(i) == op && FieldsOf(i) == f
  {
    match op
    case OpHalt => Halt
    case OpNop => Nop
    case OpRet => Ret
    case OpPush => Push(f.x)
    case OpPop => Pop(f.x)
    case OpMov => Mov(f.x, f.y)
    case OpNot => Not(f.x, f.y)
    case OpMLoad => MLoad(f.x, f.y)
    case OpSLoad => SLoad(f.x, f.y)
    case OpMStore => MStore(f.x, f.y)
    case OpSStore => SStore(f.x, f.y)
    case OpWide(o) => Wide(o, f.x, f.y, f.z, f.u, f.v, f.w)
    case OpLdi => Ldi(f.x, f.word)
    case OpLdc => Ldc(f.x, f.index)
    case OpJmp => Jmp(f.target)
    case OpCall => Call(f.target)
    case OpJz => Jz(f.x, f.target)
    case OpJnz => Jnz(f.x, f.target)
    case OpAlu(o) => Alu(o, f.x, f.y, f.z)
    case OpSend => Send(f.x, f.y, f.z)
    case OpEmit => Emit(f.x, f.y, f.z)
    case OpHash => Hash(f.x, f.y, f.z)
    case OpVerifyMl => VerifyMl(f.x, f.y, f.z)
    case OpVerifySlh => VerifySlh(f.x, f.y, f.z)
    case OpMerkleVerify => MerkleVerify(f.x, f.y, f.z)
    case OpAddr => Addr(f.x, f.y, f.z)
  }

  lemma BuildInverts(i: Instr)
    ensures Build(OpCodeOf(i), FieldsOf(i)) == i
  {
  }

  function Encode(i: Instr): (e: seq<byte>)
    ensures e != []
  {
    [OpByte(OpCodeOf(i))] + FieldsOf(i).Bytes()
  }

  /** The instruction set as documented: every instruction's bytes, its opcode and then its operands
      in order, numbers big-endian. */
  function Documented(i: Instr): seq<byte> {
    match i
    case Halt => [0]
    case Nop => [1]
    case Mov(d, a) => [2, d, a]
    case Ldi(d, imm) => [3, d] + ToBE(imm, 8)
    case Ldc(d, idx) => [4, d] + ToBE(idx, 2)
    case Alu(op, d, a, b) =>
      var first: byte := match op
        case Add => 16 case Sub => 17 case Mul => 18 case Div => 19 case Rem => 20
        case AddW => 24 case SubW => 25 case MulW => 26 case MulHi => 27
        case And => 32 case Or => 33 case Xor => 34 case Shl => 36 case Shr => 37
        case Eq => 40 case LtU => 41 case GtU => 42;
      [first, d, a, b]
    case Wide(op, dlo, dhi, alo, ahi, blo, bhi) =>
      [if op.DivW? then 28 else 29, dlo, dhi, alo, ahi, blo, bhi]
    case Not(d, a) => [35, d, a]
    case Push(a) => [48, a]
    case Pop(d) => [49, d]
    case MLoad(d, a) => [56, d, a]
    case MStore(a, b) => [57, a, b]
    case Jmp(t) => [64] + ToBE(t, 4)
    case Jz(a, t) => [65, a] + ToBE(t, 4)
    case Jnz(a, t) => [66, a] + ToBE(t, 4)
    case Call(t) => [67] + ToBE(t, 4)
    case Ret => [68]
    case SLoad(d, a) => [80, d, a]
    case SStore(a, b) => [81, a, b]
    case Send(a, b, c) => [96, a, b, c]
    case Emit(a, b, c) => [97, a, b, c]
    case Hash(a, b, c) => [112, a, b, c]
    case VerifyMl(a, b, c) => [113, a, b, c]
    case VerifySlh(a, b, c) => [114, a, b, c]
    case MerkleVerify(a, b, c) => [115, a, b, c]
    case Addr(a, b, c) => [118, a, b, c]
  }

  /** The encoder, by opcode table and operand layout, writes the documented bytes. */
  lemma EncodesAsDocumented(i: Instr)
    ensures Encode(i) == Documented(i)
  {
    hide ToBE;
  }

  function ReadReg(code: seq<byte>, at: nat): Result<Reg, DecodeError> {
    if at >= |code| then Err(Truncated)
    else if code[at] >= NUM_REGS then Err(BadRegister(code[at]))
    else Ok(code[at])
  }

  function ReadU16(code: seq<byte>, at: nat): Result<u16, DecodeError> {
    if at + 2 > |code| then Err(Truncated) else Ok(U16At(code[at..at + 2]))
  }

  function ReadU32(code: seq<byte>, at: nat): Result<u32, DecodeError> {
    if at + 4 > |code| then Err(Truncated) else Ok(U32At(code[at..at + 4]))
  }

  function ReadU64(code: seq<byte>, at: nat): Result<u64, DecodeError> {
    if at + 8 > |code| then Err(Truncated) else Ok(U64At(code[at..at + 8]))
  }

  function Read3(code: seq<byte>, at: nat): Result<(Reg, Reg, Reg), DecodeError> {
    var x :- ReadReg(code, at);
    var y :- ReadReg(code, at + 1);
    var z :- ReadReg(code, at + 2);
    Ok((x, y, z))
  }

  /** The operands at `at`, read in order. */
  function ReadFields(code: seq<byte>, layout: Layout, at: nat): (r: Result<Fields, DecodeError>)
    ensures r.Ok? ==> r.value.Shape() == layout
  {
    match layout
    case L0 => Ok(F0)
    case L1 => var x :- ReadReg(code, at); Ok(F1(x))
    case L2 => var x :- ReadReg(code, at); var y :- ReadReg(code, at + 1); Ok(F2(x, y))
    case L3 => var p :- Read3(code, at); Ok(F3(p.0, p.1, p.2))
    case L6 =>
      var p :- Read3(code, at);
      var q :- Read3(code, at + 3);
      Ok(F6(p.0, p.1, p.2, q.0, q.1, q.2))
    case LWord => var x :- ReadReg(code, at); var n :- ReadU64(code, at + 1); Ok(FWord(x, n))
    case LIndex => var x :- ReadReg(code, at); var n :- ReadU16(code, at + 1); Ok(FIndex(x, n))
    case LTarget => var t :- ReadU32(code, at); Ok(FTarget(t))
    case LBranch => var x :- ReadReg(code, at); var t :- ReadU32(code, at + 1); Ok(FBranch(x, t))
  }

  /** The instruction at `pc` and its length, or the first error met reading it. */
  function DecodeAt(code: seq<byte>, pc: nat): (r: Result<(Instr, nat), DecodeError>)
    ensures r.Ok? ==> r.value.1 > 0
  {
    if pc >= |code| then Err(Truncated)
    else
      match FromByte(code[pc])
      case None => Err(UnknownOpcode(code[pc]))
      case Some(op) =>
        var f :- ReadFields(code, LayoutOf(op), pc + 1);
        Ok((Build(op, f), 1 + |f.Bytes()|))
  }

  lemma Read3Back(code: seq<byte>, at: nat, x: Reg, y: Reg, z: Reg)
    requires at + 3 <= |code| && code[at..at + 3] == [x, y, z]
    ensures Read3(code, at) == Ok((x, y, z))
  {
    var s := code[at..at + 3];
    assert code[at] == s[0] && code[at + 1] == s[1] && code[at + 2] == s[2];
  }

  /** A register byte followed by `n` bytes: where each of them stands. */
  lemma RegThenBytes(code: seq<byte>, at: nat, x: Reg, s: seq<byte>)
    requires at + 1 + |s| <= |code| && code[at..at + 1 + |s|] == [x] + s
    ensures ReadReg(code, at) == Ok(x) && code[at + 1..at + 1 + |s|] == s
  {
    var t := code[at..at + 1 + |s|];
    assert code[at] == t[0];
    assert code[at + 1..at + 1 + |s|] == t[1..];
  }

  lemma Read6Back(code: seq<byte>, at: nat, x: Reg, y: Reg, z: Reg, u: Reg, v: Reg, w: Reg)
    requires at + 6 <= |code| && code[at..at + 6] == [x, y, z, u, v, w]
    ensures Read3(code, at) == Ok((x, y, z)) && Read3(code, at + 3) == Ok((u, v, w))
  {
    var s := code[at..at + 6];
    assert code[at] == s[0] && code[at + 1] == s[1] && code[at + 2] == s[2];
    assert code[at + 3] == s[3] && code[at + 4] == s[4] && code[at + 5] == s[5];
  }

  lemma FieldsReadBack(code: seq<byte>, f: Fields, at: nat)
    requires at + |f.Bytes()| <= |code| && code[at..at + |f.Bytes()|] == f.Bytes()
    ensures ReadFields(code, f.Shape(), at) == Ok(f)
  {
    hide Read3, ToBE, FromBE;
    WordSizes();
    match f
    case F0 =>
    case F1(x) =>
      RegThenBytes(code, at, x, []);
    case F2(x, y) =>
      RegThenBytes(code, at, x, [y]);
      RegThenBytes(code, at + 1, y, []);
    case F3(x, y, z) =>
      Read3Back(code, at, x, y, z);
    case F6(x, y, z, u, v, w) =>
      Read6Back(code, at, x, y, z, u, v, w);
    case FWord(x, n) =>
      RegThenBytes(code, at, x, ToBE(n, 8));
      FromToBE(n, 8);
    case FIndex(x, n) =>
      RegThenBytes(code, at, x, ToBE(n, 2));
      FromToBE(n, 2);
    case FBranch(x, t) =>
      RegThenBytes(code, at, x, ToBE(t, 4));
      FromToBE(t, 4);
    case FTarget(t) =>
      FromToBE(t, 4);
  }

  lemma FieldsWereEncoded(code: seq<byte>, layout: Layout, at: nat)
    requires at <= |code| && ReadFields(code, layout, at).Ok?
    ensures var f := ReadFields(code, layout, at).value;
            at + |f.Bytes()| <= |code| && code[at..at + |f.Bytes()|] == f.Bytes()
  {
    hide ToBE, FromBE;
    match layout
    case LWord => ToFromBE(code[at + 1..at + 9]);
    case LIndex => ToFromBE(code[at + 1..at + 3]);
    case LBranch => ToFromBE(code[at + 1..at + 5]);
    case LTarget => ToFromBE(code[at..at + 4]);
    case _ =>
  }

  lemma DecodesItsEncoding(code: seq<byte>, pc: nat, i: Instr)
    requires pc + |Encode(i)| <= |code| && code[pc..pc + |Encode(i)|] == Encode(i)
    ensures DecodeAt(code, pc) == Ok((i, |Encode(i)|))
  {
    hide OpByte, OpCodeOf, FieldsOf, FromByte, Build, LayoutOf, ReadFields;
    var e, f, n := Encode(i), FieldsOf(i), |Encode(i)|;
    OpCodesRoundTrip(OpCodeOf(i), e[0]);
    BuildInverts(i);
    assert code[pc] == code[pc..pc + n][0];
    assert code[pc + 1..pc + n] == code[pc..pc + n][1..] == f.Bytes();
    FieldsReadBack(code, f, pc + 1);
  }

  lemma DecodedWasEncoded(code: seq<byte>, pc: nat)
    requires DecodeAt(code, pc).Ok?
    ensures var (i, n) := DecodeAt(code, pc).value;
            n == |Encode(i)| && pc + n <= |code| && code[pc..pc + n] == Encode(i)
  {
    hide OpByte, OpCodeOf, FieldsOf, FromByte, Build, LayoutOf, ReadFields;
    var (i, n) := DecodeAt(code, pc).value;
    var op := FromByte(code[pc]).value;
    OpCodesRoundTrip(op, code[pc]);
    FieldsWereEncoded(code, LayoutOf(op), pc + 1);
    assert code[pc..pc + n] == [code[pc]] + code[pc + 1..pc + n];
  }

  /** Decoding succeeds at `pc` exactly when an encoding of the result stands there. */
  lemma DecodeExact(code: seq<byte>, pc: nat, i: Instr, n: nat)
    ensures DecodeAt(code, pc) == Ok((i, n)) <==>
            n == |Encode(i)| && pc + n <= |code| && code[pc..pc + n] == Encode(i)
  {
    hide DecodeAt, Encode;
    if n == |Encode(i)| && pc + n <= |code| && code[pc..pc + n] == Encode(i) {
      DecodesItsEncoding(code, pc, i);
    }
    if DecodeAt(code, pc) == Ok((i, n)) {
      DecodedWasEncoded(code, pc);
    }
  }

  /** A decode depends only on the bytes it consumed. */
  lemma DecodeLocal(code: seq<byte>, pc: nat, code': seq<byte>, pc': nat)
    requires DecodeAt(code, pc).Ok?
    requires var n := DecodeAt(code, pc).value.1;
             pc + n <= |code| && pc' + n <= |code'| && code[pc..pc + n] == code'[pc'..pc' + n]
    ensures DecodeAt(code', pc') == DecodeAt(code, pc)
  {
    hide DecodeAt, Encode;
    var (i, n) := DecodeAt(code, pc).value;
    DecodeExact(code, pc, i, n);
    DecodeExact(code', pc', i, n);
  }

  /** The bytes of a whole program. */
  function EncodeAll(program: seq<Instr>): seq<byte> {
    if program == [] then [] else Encode(program[0]) + EncodeAll(program[1..])
  }

  lemma {:induction false} EncodeAllAppend(p: seq<Instr>, q: seq<Instr>)
    ensures EncodeAll(p + q) == EncodeAll(p) + EncodeAll(q)
  {
    if p == [] {
      assert p + q == q;
    } else {
      assert (p + q)[1..] == p[1..] + q;
      EncodeAllAppend(p[1..], q);
    }
  }

  datatype Placed = Placed(at: nat, instr: Instr)

  /** The linear decode of `code` from `pc`, up to the first byte that does not decode. */
  function Listing(code: seq<byte>, pc: nat): seq<Placed>
    decreases |code| - pc
  {
    if pc < |code| && DecodeAt(code, pc).Ok? then
      var (i, n) := DecodeAt(code, pc).value;
      [Placed(pc, i)] + Listing(code, pc + n)
    else []
  }

  /** The offset at which the linear decode stops. */
  function StopOf(code: seq<byte>, pc: nat): nat
    decreases |code| - pc
  {
    if pc < |code| && DecodeAt(code, pc).Ok? then
      StopOf(code, pc + DecodeAt(code, pc).value.1)
    else pc
  }

  predicate FullyDecodes(code: seq<byte>) {
    StopOf(code, 0) == |code|
  }

  function InstrsOf(list: seq<Placed>): seq<Instr> {
    seq(|list|, k requires 0 <= k < |list| => list[k].instr)
  }

  /** Where an encoding stands, the linear decode takes one step over it. */
  lemma ListingStep(code: seq<byte>, pc: nat, i: Instr)
    requires pc + |Encode(i)| <= |code| && code[pc..pc + |Encode(i)|] == Encode(i)
    ensures Listing(code, pc) == [Placed(pc, i)] + Listing(code, pc + |Encode(i)|)
    ensures StopOf(code, pc) == StopOf(code, pc + |Encode(i)|)
  {
    hide DecodeAt, Encode;
    DecodeExact(code, pc, i, |Encode(i)|);
  }

  /** A program laid down after any bytes is read back instruction by instruction, each at its
      own offset. */
  lemma {:induction false} ProgramDecodes(before: seq<byte>, program: seq<Instr>)
    ensures var code := before + EncodeAll(program);
            && StopOf(code, |before|) == |code|
            && InstrsOf(Listing(code, |before|)) == program
    decreases |program|
  {
    hide DecodeAt, Encode;
    var code := before + EncodeAll(program);
    if program != [] {
      var e := Encode(program[0]);
      var before' := before + e;
      assert code == before' + EncodeAll(program[1..]);
      assert code[|before|..|before| + |e|] == e;
      ListingStep(code, |before|, program[0]);
      ProgramDecodes(before', program[1..]);
      assert InstrsOf(Listing(code, |before|)) == [program[0]] + InstrsOf(Listing(code, |before'|));
    }
  }

  /** Each listed instruction sits right after the encodings of those before it. */
  lemma {:induction false} ListingOffsets(code: seq<byte>, pc: nat, k: nat)
    requires k < |Listing(code, pc)|
    ensures Listing(code, pc)[k].at == pc + |EncodeAll(InstrsOf(Listing(code, pc))[..k])|
    decreases k
  {
    hide DecodeAt, Encode;
    if k > 0 {
      var n := DecodeAt(code, pc).value.1;
      var list, rest := Listing(code, pc), Listing(code, pc + n);
      ListingOffsets(code, pc + n, k - 1);
      assert InstrsOf(list)[..k][0] == list[0].instr;
      assert InstrsOf(list)[..k][1..] == InstrsOf(rest)[..k - 1];
      DecodeExact(code, pc, list[0].instr, n);
    }
  }

  /** Conversely the bytes a linear decode consumed are the encoding of what it read. */
  lemma {:induction false} ListingEncodes(code: seq<byte>, pc: nat)
    requires pc <= |code|
    ensures pc <= StopOf(code, pc) <= |code|
    ensures EncodeAll(InstrsOf(Listing(code, pc))) == code[pc..StopOf(code, pc)]
    decreases |code| - pc
  {
    hide DecodeAt, Encode;
    if pc < |code| && DecodeAt(code, pc).Ok? {
      var (i, n) := DecodeAt(code, pc).value;
      DecodeExact(code, pc, i, n);
      ListingEncodes(code, pc + n);
      var list := Listing(code, pc);
      assert InstrsOf(list)[1..] == InstrsOf(Listing(code, pc + n));
      assert code[pc..StopOf(code, pc)] == code[pc..pc + n] + code[pc + n..StopOf(code, pc)];
    }
  }

  /** Two programs with equal bytes are the same program. */
  lemma EncodeAllInjective(p: seq<Instr>, q: seq<Instr>)
    requires EncodeAll(p) == EncodeAll(q)
    ensures p == q
  {
    ProgramDecodes([], p);
    ProgramDecodes([], q);
    assert [] + EncodeAll(p) == [] + EncodeAll(q);
  }

  /** A growable byte vector. */
  class ByteVec {
    var bytes: seq<byte>

    constructor ()
      ensures bytes == []
    {
      bytes := [];
    }

    method Push(b: byte)
      modifies this
      ensures bytes == old(bytes) + [b]
    {
      bytes := bytes + [b];
    }

    method Push3(a: byte, b: byte, c: byte)
      modifies this
      ensures bytes == old(bytes) + [a, b, c]
    {
      Push(a);
      Push(b);
      Push(c);
    }

    method Extend(s: seq<byte>)
      modifies this
      ensures bytes == old(bytes) + s
    {
      bytes := bytes + s;
    }
  }

  method FieldsTo(f: Fields, out: ByteVec)
    modifies out
    ensures out.bytes == old(out.bytes) + f.Bytes()
  {
    hide ToBE;
    match f {
      case F0 =>
      case F1(x) => out.Push(x);
      case F2(x, y) => out.Push(x); out.Push(y);
      case F3(x, y, z) => out.Push3(x, y, z);
      case F6(x, y, z, u, v, w) => out.Push3(x, y, z); out.Push3(u, v, w);
      case FWord(x, n) => out.Push(x); out.Extend(ToBE(n, 8));
      case FIndex(x, n) => out.Push(x); out.Extend(ToBE(n, 2));
      case FTarget(t) => out.Extend(ToBE(t, 4));
      case FBranch(x, t) => out.Push(x); out.Extend(ToBE(t, 4));
    }
  }

  method EncodeTo(i: Instr, out: ByteVec)
    modifies out
    ensures out.bytes == old(out.bytes) + Encode(i)
  {
    hide OpByte, OpCodeOf, FieldsOf;
    out.Push(OpByte(OpCodeOf(i)));
    FieldsTo(FieldsOf(i), out);
  }

  /** A read position in a code slice. */
  class Cursor {
    const code: seq<byte>
    var at: nat

    constructor (code: seq<byte>, at: nat)
      ensures this.code == code && this.at == at
    {
      this.code := code;
      this.at := at;
    }

    method Byte() returns (r: Result<byte, DecodeError>)
      modifies this
      ensures old(at) < |code| ==> r == Ok(code[old(at)]) && at == old(at) + 1
      ensures old(at) >= |code| ==> r == Err(Truncated) && at == old(at)
    {
      if at >= |code| {
        return Err(Truncated);
      }
      r := Ok(code[at]);
      at := at + 1;
    }

    method Reg() returns (r: Result<Reg, DecodeError>)
      modifies this
      ensures r == ReadReg(code, old(at))
      ensures r.Ok? ==> at == old(at) + 1
    {
      var b :- Byte();
      if b >= NUM_REGS {
        return Err(BadRegister(b));
      }
      return Ok(b);
    }

    /** `n` bytes read one at a time, as the fixed-width integer readers do. */
    method Take(n: nat) returns (r: Result<seq<byte>, DecodeError>)
      requires n > 0
      modifies this
      ensures old(at) + n <= |code| ==> r == Ok(code[old(at)..old(at) + n]) && at == old(at) + n
      ensures old(at) + n > |code| ==> r == Err(Truncated)
    {
      var buf: seq<byte> := [];
      while |buf| < n
        invariant |buf| <= n && at == old(at) + |buf|
        invariant |buf| > 0 ==> at <= |code|
        invariant at <= |code| ==> buf == code[old(at)..at]
        decreases n - |buf|
      {
        var b :- Byte();
        buf := buf + [b];
      }
      return Ok(buf);
    }

    method U16() returns (r: Result<u16, DecodeError>)
      modifies this
      ensures r == ReadU16(code, old(at))
      ensures r.Ok? ==> at == old(at) + 2
    {
      var s :- Take(2);
      return Ok(U16At(s));
    }

    method U32() returns (r: Result<u32, DecodeError>)
      modifies this
      ensures r == ReadU32(code, old(at))
      ensures r.Ok? ==> at == old(at) + 4
    {
      var s :- Take(4);
      return Ok(U32At(s));
    }

    method U64() returns (r: Result<u64, DecodeError>)
      modifies this
      ensures r == ReadU64(code, old(at))
      ensures r.Ok? ==> at == old(at) + 8
    {
      var s :- Take(8);
      return Ok(U64At(s));
    }

    method Three() returns (r: Result<(Reg, Reg, Reg), DecodeError>)
      modifies this
      ensures r == Read3(code, old(at))
      ensures r.Ok? ==> at == old(at) + 3
    {
      var x :- Reg();
      var y :- Reg();
      var z :- Reg();
      return Ok((x, y, z));
    }

    method Fields(layout: Layout) returns (r: Result<Fields, DecodeError>)
      modifies this
      ensures r == ReadFields(code, layout, old(at))
      ensures r.Ok? ==> at == old(at) + |r.value.Bytes()|
    {
      match layout {
        case L0 => return Ok(F0);
        case L1 => var x :- Reg(); return Ok(F1(x));
        case L2 => var x :- Reg(); var y :- Reg(); return Ok(F2(x, y));
        case L3 => var p :- Three(); return Ok(F3(p.0, p.1, p.2));
        case L6 =>
          var p :- Three();
          var q :- Three();
          return Ok(F6(p.0, p.1, p.2, q.0, q.1, q.2));
        case LWord => var x :- Reg(); var n :- U64(); return Ok(FWord(x, n));
        case LIndex => var x :- Reg(); var n :- U16(); return Ok(FIndex(x, n));
        case LTarget => var t :- U32(); return Ok(FTarget(t));
        case LBranch => var x :- Reg(); var t :- U32(); return Ok(FBranch(x, t));
      }
    }
  }

  /** The decoder as the source runs it, over a moving cursor; the length is how far it moved. */
  method Decode(code: seq<byte>, pc: nat) returns (r: Result<(Instr, nat), DecodeError>)
    ensures r == DecodeAt(code, pc)
  {
    var c := new Cursor(code, pc);
    var b :- c.Byte();
    var op := FromByte(b);
    if op.None? {
      return Err(UnknownOpcode(b));
    }
    var f :- c.Fields(LayoutOf(op.value));
    return Ok((Build(op.value, f), c.at - pc));
  }

  lemma EncodeAllPrepend(i: Instr, p: seq<Instr>)
    ensures EncodeAll([i] + p) == Encode(i) + EncodeAll(p)
  {
    hide Encode;
    assert ([i] + p)[1..] == p;
  }

  lemma EncodeNothing()
    ensures EncodeAll([]) == []
  {
  }

  /** An instruction of a program stands after the encodings of those before it. */
  lemma FetchAfter(code: seq<byte>, before: seq<Instr>, i: Instr, after: seq<Instr>)
    requires code == EncodeAll(before + [i] + after)
    ensures DecodeAt(code, |EncodeAll(before)|) == Ok((i, |Encode(i)|))
    ensures |EncodeAll(before + [i])| == |EncodeAll(before)| + |Encode(i)| <= |code|
  {
    hide DecodeAt, Encode;
    EncodeAllAppend(before + [i], after);
    EncodeAllAppend(before, [i]);
    assert EncodeAll([i]) == Encode(i) + EncodeAll([]);
    DecodeExact(code, |EncodeAll(before)|, i, |Encode(i)|);
  }

  lemma Grows(p: seq<Instr>, i: Instr)
    ensures |EncodeAll(p + [i])| == |EncodeAll(p)| + |Encode(i)|
  {
    hide Encode;
    EncodeAllAppend(p, [i]);
    assert EncodeAll([i]) == Encode(i) + EncodeAll([]);
  }

  /** Where the `k`-th instruction of a program stands. */
  function OffsetOf(p: seq<Instr>, k: nat): nat
    requires k <= |p|
  {
    |EncodeAll(p[..k])|
  }

  /** How the bytes of a program are listed. */
  lemma ProgramLayout(code: seq<byte>, p: seq<Instr>)
    requires code == EncodeAll(p)
    ensures StopOf(code, 0) == |code| == OffsetOf(p, |p|) && |Listing(code, 0)| == |p|
    ensures forall k | 0 <= k < |p| :: Listing(code, 0)[k] == Placed(OffsetOf(p, k), p[k])
  {
    hide Encode, Listing, StopOf, EncodeAll;
    assert [] + EncodeAll(p) == code && p[..|p|] == p;
    ProgramDecodes([], p);
    var list := Listing(code, 0);
    assert |InstrsOf(list)| == |list|;
    forall k | 0 <= k < |p| ensures list[k] == Placed(OffsetOf(p, k), p[k]) {
      assert list[k].instr == InstrsOf(list)[k];
      ListingOffsets(code, 0, k);
    }
  }

  lemma OffsetStep(p: seq<Instr>, k: nat)
    requires k < |p|
    ensures OffsetOf(p, k + 1) == OffsetOf(p, k) + |Encode(p[k])|
    ensures OffsetOf(p, 0) == 0
  {
    hide Encode, EncodeAll;
    EncodeNothing();
    assert p[..k + 1] == p[..k] + [p[k]];
    Grows(p[..k], p[k]);
  }
}
