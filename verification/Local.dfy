/** The opcodes that touch only the machine: everything but storage, effects and key taint. */
module Local {
  import opened Bytes
  import opened Isa
  import opened Machines
  import opened Meter
  import opened Crypto
  import opened Arithmetic

  /** What an opcode charges beyond its fixed cost, and what it does if the meter allows. A fault
      comes with what was charged before it. */
  datatype LocalStep =
    | LocalFault(charge: nat, fault: Fault)
    | LocalGo(charge: nat, mach: Mach)

  predicate IsLocal(i: Instr) {
    !i.Halt? && !i.SLoad? && !i.SStore? && !i.Send? && !i.Emit? && !i.Hash?
  }

  predicate IsControl(i: Instr) {
    i.Jmp? || i.Jz? || i.Jnz? || i.Call? || i.Ret?
  }

  predicate IsCrypto(i: Instr) {
    i.VerifyMl? || i.VerifySlh? || i.MerkleVerify? || i.Addr?
  }

  function Lift(charge: nat, r: Result<Mach, Fault>): LocalStep {
    match r
    case Ok(m) => LocalGo(charge, m)
    case Err(f) => LocalFault(charge, f)
  }

  /** The offset a jump, call or return would go to, when it does jump. */
  function JumpTarget(m: Mach, i: Instr): Option<u64> {
    if i.Jmp? then Some(i.target)
    else if i.Call? then if |m.stack| >= STACK_LIMIT then None else Some(i.target)
    else if i.Jz? then if m.regs[i.a] == 0 then Some(i.target) else None
    else if i.Jnz? then if m.regs[i.a] != 0 then Some(i.target) else None
    else if i.Ret? then if m.stack == [] then None else Some(m.stack[|m.stack| - 1])
    else None
  }

  function JumpTo(bounds: set<nat>, m: Mach, target: u64): LocalStep {
    if target < TWO32 && target in bounds then LocalGo(0, m.(pc := target))
    else LocalFault(0, BadJump)
  }

  /** Control flow; `m.pc` is already past the instruction. */
  function ControlStep(bounds: set<nat>, m: Mach, i: Instr): LocalStep
    requires IsControl(i)
  {
    match JumpTarget(m, i)
    case None =>
      if i.Call? then LocalFault(0, StackOverflow)
      else if i.Ret? then LocalFault(0, StackUnderflow)
      else LocalGo(0, m)
    case Some(target) =>
      if i.Call? then JumpTo(bounds, m.(stack := m.stack + [m.pc]), target)
      else if i.Ret? then JumpTo(bounds, m.(stack := m.stack[..|m.stack| - 1]), target)
      else JumpTo(bounds, m, target)
  }

  /** Data movement, arithmetic, stack and memory. */
  function DataStep(consts: seq<u64>, m: Mach, i: Instr): Result<Mach, Fault>
    requires IsLocal(i) && !IsControl(i) && !IsCrypto(i)
  {
    match i
    case Nop => Ok(m)
    case Mov(d, a) => Ok(SetReg(m, d, m.regs[a]))
    case Ldi(d, imm) => Ok(SetReg(m, d, imm))
    case Ldc(d, idx) => if idx < |consts| then Ok(SetReg(m, d, consts[idx])) else Err(BadConst)
    case Alu(op, d, a, b) =>
      var v :- AluResult(op, m.regs[a], m.regs[b]);
      Ok(SetReg(m, d, v))
    case Wide(op, dlo, dhi, alo, ahi, blo, bhi) =>
      var p :- WideResult(op, Wide128(m.regs[alo], m.regs[ahi]), Wide128(m.regs[blo], m.regs[bhi]));
      Ok(SetReg(SetReg(m, dlo, p.0), dhi, p.1))
    case Not(d, a) => Ok(SetReg(m, d, TWO64 - 1 - m.regs[a]))
    case Push(a) =>
      if |m.stack| >= STACK_LIMIT then Err(StackOverflow)
      else Ok(m.(stack := m.stack + [m.regs[a]]))
    case Pop(d) =>
      if m.stack == [] then Err(StackUnderflow)
      else
        var top := |m.stack| - 1;
        Ok(SetReg(m.(stack := m.stack[..top]), d, m.stack[top]))
    case MLoad(d, a) =>
      (match LoadWord(m.mem, m.regs[a])
       case None => Err(BadMemory)
       case Some(v) => Ok(SetReg(m, d, v)))
    case MStore(a, b) =>
      (match StoreWord(m.mem, m.regs[a], m.regs[b])
       case None => Err(BadMemory)
       case Some(mem) => Ok(m.(mem := mem)))
  }

  /** The length-scaled price of an opcode, charged before its work. */
  function Variable(p: Prims, m: Mach, i: Instr): nat {
    if i.Hash? then HashVariable(m.regs[i.b])
    else if i.VerifyMl? then MessageVariable(SatSub(m.regs[i.b], p.mlKeyBytes + p.mlSigBytes))
    else if i.VerifySlh? then MessageVariable(SatSub(m.regs[i.b], p.slhKeyBytes + p.slhSigBytes))
    else if i.MerkleVerify? then MerkleVariable(SatSub(m.regs[i.b], MERKLE_HEADER))
    else 0
  }

  function CryptoStep(p: Prims, m: Mach, i: Instr): Result<Mach, Fault>
    requires IsCrypto(i)
  {
    if i.VerifyMl? then Judge(m, i.a, i.b, i.c, s => VerifyMlRegion(p, s))
    else if i.VerifySlh? then Judge(m, i.a, i.b, i.c, s => VerifySlhRegion(p, s))
    else if i.MerkleVerify? then Judge(m, i.a, i.b, i.c, s => MerkleRegion(p, s))
    else Address(p, m, i.a, i.b, i.c)
  }

  function StepLocal(consts: seq<u64>, bounds: set<nat>, p: Prims, m: Mach, i: Instr): LocalStep
    requires IsLocal(i)
  {
    if IsControl(i) then ControlStep(bounds, m, i)
    else if IsCrypto(i) then Lift(Variable(p, m, i), CryptoStep(p, m, i))
    else Lift(0, DataStep(consts, m, i))
  }

  /** A local opcode charges exactly its length-scaled price, whether or not it then faults. */
  lemma LocalCharge(consts: seq<u64>, bounds: set<nat>, p: Prims, m: Mach, i: Instr)
    requires IsLocal(i)
    ensures StepLocal(consts, bounds, p, m, i).charge == Variable(p, m, i)
  {
    hide DataStep, CryptoStep, HashVariable, MessageVariable, MerkleVariable;
  }

  lemma DataKeepsPc(consts: seq<u64>, m: Mach, i: Instr)
    requires IsLocal(i) && !IsControl(i) && !IsCrypto(i)
    ensures match DataStep(consts, m, i)
            case Ok(m') => m'.pc == m.pc
            case Err(f) => f != OutOfMeter && !f.Undecodable? && f != BadJump &&
                           (f == BadConst <==> i.Ldc? && i.idx >= |consts|)
  {
    hide LoadWord, StoreWord, WideResult, LeftShift, RightShift, HighWord, Bitwise, Quotient, Wrap;
    if i.Wide? {
      WideFaults(i.wop, Wide128(m.regs[i.alo], m.regs[i.ahi]), Wide128(m.regs[i.blo], m.regs[i.bhi]));
    }
  }

  lemma WideFaults(op: WideOp, n: nat, v: nat)
    requires n < TWO64 * TWO64 && v < TWO64 * TWO64
    ensures WideResult(op, n, v).Err? ==> WideResult(op, n, v).error == DivByZero
  {
  }

  lemma CryptoKeepsPc(p: Prims, m: Mach, i: Instr)
    requires IsCrypto(i)
    ensures match CryptoStep(p, m, i)
            case Ok(m') => m'.pc == m.pc
            case Err(f) => f == BadMemory || f == BadScheme || f == CryptoFault
  {
    hide Region, WriteAt, ParseClaim, MerkleAccepts;
  }

  /** Where a local opcode leaves the program counter: at the jump target, which is then a
      boundary, or where it was. */
  lemma LocalPc(consts: seq<u64>, bounds: set<nat>, p: Prims, m: Mach, i: Instr)
    requires IsLocal(i) && StepLocal(consts, bounds, p, m, i).LocalGo?
    ensures var pc := StepLocal(consts, bounds, p, m, i).mach.pc;
            match JumpTarget(m, i)
            case Some(t) => pc == t && t in bounds
            case None => pc == m.pc
  {
    hide DataStep, CryptoStep;
    if IsCrypto(i) {
      CryptoKeepsPc(p, m, i);
    } else if !IsControl(i) {
      DataKeepsPc(consts, m, i);
    }
  }

  /** More boundaries change a local opcode only by letting a jump through that faulted. */
  lemma MoreBounds(consts: seq<u64>, bounds: set<nat>, more: set<nat>, p: Prims, m: Mach, i: Instr)
    requires IsLocal(i) && bounds <= more
    ensures StepLocal(consts, bounds, p, m, i) == StepLocal(consts, more, p, m, i) <==>
            !(JumpTarget(m, i).Some? && JumpTarget(m, i).value in more - bounds && JumpTarget(m, i).value < TWO32)
    ensures JumpTarget(m, i).Some? && JumpTarget(m, i).value !in bounds ==>
              StepLocal(consts, bounds, p, m, i) == LocalFault(0, BadJump)
  {
    hide DataStep, CryptoStep;
  }

  /** Which local opcodes raise the faults a verified container rules out. */
  lemma LocalFaults(consts: seq<u64>, bounds: set<nat>, p: Prims, m: Mach, i: Instr)
    requires IsLocal(i) && StepLocal(consts, bounds, p, m, i).LocalFault?
    ensures var f := StepLocal(consts, bounds, p, m, i).fault;
            && f != OutOfMeter && !f.Undecodable?
            && (f == BadConst <==> i.Ldc? && i.idx >= |consts|)
            && (f == BadJump <==> JumpTarget(m, i).Some? &&
                                  !(JumpTarget(m, i).value < TWO32 && JumpTarget(m, i).value in bounds))
  {
    hide DataStep, CryptoStep;
    if IsCrypto(i) {
      CryptoKeepsPc(p, m, i);
    } else if !IsControl(i) {
      DataKeepsPc(consts, m, i);
    }
  }
}
