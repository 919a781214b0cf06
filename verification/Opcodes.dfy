/** What every opcode does to a run, opcode by opcode, in registers, bytes and meter. Each law is about
    one turn of the loop and says all of it: how it goes on, or the fault it ends in. */
module Opcodes {
  import opened Bytes
  import opened Isa
  import opened Sweep
  import opened Meter
  import opened Machines
  import opened Local
  import opened Arithmetic
  import opened Semantics

  /** The instruction of `n` bytes at the program counter is `i`, and the meter covers its fixed cost. */
  predicate Runs(w: World, limit: nat, s: Config, i: Instr, n: nat) {
    Fetched(w, s.c) == Ok((i, n)) && s.c.m.pc + n < TWO32 && s.used + CostOf(i) <= limit
  }

  /** The machine with the program counter past an instruction of `n` bytes. */
  function After(s: Config, n: nat): Mach
    requires s.c.m.pc + n < TWO32
  {
    s.c.m.(pc := s.c.m.pc + n)
  }

  /** The run goes on with machine `m`, having paid for `i` and nothing more. */
  function Goes(s: Config, i: Instr, m: Mach): Tick {
    More(s.(c := s.c.(m := m), used := s.used + CostOf(i)))
  }

  function WithReg(m: Mach, d: Reg, v: u64): Mach {
    Mach(m.regs[d := v], m.pc, m.stack, m.mem)
  }

  /** The bytes at `ptr`, if they are all in memory. */
  predicate InMemory(ptr: u64, len: u64) {
    ptr as int + len as int <= 65536
  }

  function BytesAt(m: Mach, ptr: u64, len: u64): (r: seq<byte>)
    requires InMemory(ptr, len)
    ensures |r| == len
  {
    m.mem[ptr..ptr as int + len as int]
  }

  function WithBytes(m: Mach, ptr: u64, bytes: seq<byte>): Mach
    requires |bytes| < TWO64 && InMemory(ptr, |bytes|)
  {
    Mach(m.regs, m.pc, m.stack, m.mem[..ptr] + bytes + m.mem[ptr as int + |bytes|..])
  }

  lemma RegionIs(m: Mach, ptr: u64, len: u64)
    ensures Region(m.mem, ptr, len) == if InMemory(ptr, len) then Some(BytesAt(m, ptr, len)) else None
  {
  }

  lemma WriteIs(m: Mach, ptr: u64, bytes: seq<byte>)
    requires |bytes| < TWO64
    ensures WriteAt(m.mem, ptr, bytes) == if InMemory(ptr, |bytes|) then Some(WithBytes(m, ptr, bytes).mem) else None
  {
  }

  /** A turn of an opcode that touches only the machine. */
  lemma LocalTurn(w: World, limit: nat, s: Config, i: Instr, n: nat)
    requires Runs(w, limit, s, i, n) && IsLocal(i)
    ensures Next(w, limit, s) ==
            match StepLocal(w.consts, Boundaries(w.code), w.prims, After(s, n), i)
            case LocalFault(charge, f) => Crash(if s.used + CostOf(i) + charge > limit then OutOfMeter else f)
            case LocalGo(charge, m) =>
              if s.used + CostOf(i) + charge > limit then Crash(OutOfMeter)
              else More(s.(c := s.c.(m := m), used := s.used + CostOf(i) + charge))
  {
    hide DecodeAt, StepLocal, CostOf, Starts, KeyAt;
  }

  // ---- Data and arithmetic ----

  lemma NopTurn(w: World, limit: nat, s: Config, n: nat)
    requires Runs(w, limit, s, Nop, n)
    ensures Next(w, limit, s) == Goes(s, Nop, After(s, n))
  {
    hide DecodeAt, Starts, Next;
    LocalTurn(w, limit, s, Nop, n);
  }

  lemma MovTurn(w: World, limit: nat, s: Config, n: nat, d: Reg, a: Reg)
    requires Runs(w, limit, s, Mov(d, a), n)
    ensures Next(w, limit, s) == Goes(s, Mov(d, a), WithReg(After(s, n), d, s.c.m.regs[a]))
  {
    hide DecodeAt, Starts, Next;
    LocalTurn(w, limit, s, Mov(d, a), n);
  }

  lemma LdiTurn(w: World, limit: nat, s: Config, n: nat, d: Reg, imm: u64)
    requires Runs(w, limit, s, Ldi(d, imm), n)
    ensures Next(w, limit, s) == Goes(s, Ldi(d, imm), WithReg(After(s, n), d, imm))
  {
    hide DecodeAt, Starts, Next;
    LocalTurn(w, limit, s, Ldi(d, imm), n);
  }

  lemma LdcTurn(w: World, limit: nat, s: Config, n: nat, d: Reg, idx: u16)
    requires Runs(w, limit, s, Ldc(d, idx), n)
    ensures Next(w, limit, s) == if idx < |w.consts| then Goes(s, Ldc(d, idx), WithReg(After(s, n), d, w.consts[idx]))
                                 else Crash(BadConst)
  {
    hide DecodeAt, Starts, Next;
    LocalTurn(w, limit, s, Ldc(d, idx), n);
  }

  lemma NotTurn(w: World, limit: nat, s: Config, n: nat, d: Reg, a: Reg, r: u64)
    requires Runs(w, limit, s, Not(d, a), n) && r as int + s.c.m.regs[a] as int == 0xFFFF_FFFF_FFFF_FFFF
    ensures Next(w, limit, s) == Goes(s, Not(d, a), WithReg(After(s, n), d, r))
  {
    hide DecodeAt, Starts, Next;
    LocalTurn(w, limit, s, Not(d, a), n);
  }

  /** A three-register opcode writes the result its meaning determines, and faults only as it should. */
  lemma AluTurn(w: World, limit: nat, s: Config, n: nat, op: AluOp, d: Reg, a: Reg, b: Reg) returns (r: u64)
    requires Runs(w, limit, s, Alu(op, d, a, b), n)
    ensures var x, y := s.c.m.regs[a], s.c.m.regs[b];
            match AluFault(op, x, y)
            case Some(f) => Next(w, limit, s) == Crash(f)
            case None =>
              AluMeans(op, x, y, r) && Next(w, limit, s) == Goes(s, Alu(op, d, a, b), WithReg(After(s, n), d, r))
  {
    hide DecodeAt, Starts, Next, AluMeans, AluFault, AluResult;
    var x, y := s.c.m.regs[a], s.c.m.regs[b];
    LocalTurn(w, limit, s, Alu(op, d, a, b), n);
    AluIsMeant(op, x, y);
    r := if AluResult(op, x, y).Ok? then AluResult(op, x, y).value else 0;
  }

  /** The 128-bit divisions: of two numbers in register pairs, low word first, the quotient or the
      remainder in a pair. */
  lemma WideTurn(w: World, limit: nat, s: Config, n: nat, i: Instr) returns (r: nat)
    requires i.Wide? && Runs(w, limit, s, i, n)
    ensures r < TWO64 * TWO64
    ensures var regs := s.c.m.regs;
            var x := regs[i.ahi] as int * TWO64 + regs[i.alo] as int;
            var y := regs[i.bhi] as int * TWO64 + regs[i.blo] as int;
            if y == 0 then Next(w, limit, s) == Crash(DivByZero)
            else
              && (i.wop.DivW? ==> y * r <= x < y * r + y)
              && (i.wop.RemW? ==> r < y && y * (x / y) + r == x)
              && Next(w, limit, s) ==
                 Goes(s, i, WithReg(WithReg(After(s, n), i.dlo, r % TWO64), i.dhi, r / TWO64))
  {
    hide DecodeAt, Starts, Next, WideResult;
    var regs := s.c.m.regs;
    var x, y := Wide128(regs[i.alo], regs[i.ahi]), Wide128(regs[i.blo], regs[i.bhi]);
    LocalTurn(w, limit, s, i, n);
    r := WideIs(i.wop, x, y);
  }

  lemma WideIs(op: WideOp, x: nat, y: nat) returns (r: nat)
    requires x < TWO64 * TWO64 && y < TWO64 * TWO64
    ensures r < TWO64 * TWO64
    ensures y == 0 ==> WideResult(op, x, y) == Err(DivByZero)
    ensures y > 0 ==>
              && (op.DivW? ==> y * r <= x < y * r + y)
              && (op.RemW? ==> r < y && y * (x / y) + r == x)
              && r / TWO64 < TWO64 && WideResult(op, x, y) == Ok((r % TWO64, r / TWO64))
  {
    if y == 0 {
      return 0;
    }
    QuotientBound(x, y);
    Divided(x, y);
    r := if op.DivW? then x / y else x % y;
    HighDigit(r, TWO64);
  }

  lemma PushTurn(w: World, limit: nat, s: Config, n: nat, a: Reg)
    requires Runs(w, limit, s, Push(a), n)
    ensures Next(w, limit, s) ==
            if |s.c.m.stack| >= 1024 then Crash(StackOverflow)
            else Goes(s, Push(a), After(s, n).(stack := s.c.m.stack + [s.c.m.regs[a]]))
  {
    hide DecodeAt, Starts, Next;
    LocalTurn(w, limit, s, Push(a), n);
  }

  lemma PopTurn(w: World, limit: nat, s: Config, n: nat, d: Reg, below: Stack, top: u64)
    requires Runs(w, limit, s, Pop(d), n)
    ensures s.c.m.stack == [] ==> Next(w, limit, s) == Crash(StackUnderflow)
    ensures s.c.m.stack == below + [top] ==>
              Next(w, limit, s) == Goes(s, Pop(d), WithReg(After(s, n).(stack := below), d, top))
  {
    hide DecodeAt, Starts, Next;
    LocalTurn(w, limit, s, Pop(d), n);
    if s.c.m.stack == below + [top] {
      assert s.c.m.stack[..|s.c.m.stack| - 1] == below;
    }
  }

  lemma MLoadTurn(w: World, limit: nat, s: Config, n: nat, d: Reg, a: Reg, v: u64)
    requires Runs(w, limit, s, MLoad(d, a), n)
    ensures var ptr := s.c.m.regs[a];
            && (!InMemory(ptr, 8) ==> Next(w, limit, s) == Crash(BadMemory))
            && (InMemory(ptr, 8) && BytesAt(s.c.m, ptr, 8) == ToBE(v, 8) ==>
                  Next(w, limit, s) == Goes(s, MLoad(d, a), WithReg(After(s, n), d, v)))
  {
    hide DecodeAt, Starts, Next, ToBE, FromBE;
    LocalTurn(w, limit, s, MLoad(d, a), n);
    RegionIs(s.c.m, s.c.m.regs[a], 8);
    WordSizes();
    FromToBE(v, 8);
  }

  lemma MStoreTurn(w: World, limit: nat, s: Config, n: nat, a: Reg, b: Reg)
    requires Runs(w, limit, s, MStore(a, b), n)
    ensures var ptr := s.c.m.regs[a];
            Next(w, limit, s) ==
            if InMemory(ptr, 8) then Goes(s, MStore(a, b), WithBytes(After(s, n), ptr, ToBE(s.c.m.regs[b], 8)))
            else Crash(BadMemory)
  {
    hide DecodeAt, Starts, Next, ToBE;
    LocalTurn(w, limit, s, MStore(a, b), n);
    WriteIs(After(s, n), s.c.m.regs[a], ToBE(s.c.m.regs[b], 8));
  }

  // ---- Control flow ----

  /** A jump to a boundary goes there with machine `m`; any other faults. */
  function Jumps(w: World, s: Config, i: Instr, m: Mach, target: u64): Tick {
    if target < TWO32 && target in Boundaries(w.code) then Goes(s, i, m.(pc := target)) else Crash(BadJump)
  }

  lemma JmpTurn(w: World, limit: nat, s: Config, n: nat, target: u32)
    requires Runs(w, limit, s, Jmp(target), n)
    ensures Next(w, limit, s) == Jumps(w, s, Jmp(target), s.c.m, target)
  {
    hide DecodeAt, Starts, Next;
    LocalTurn(w, limit, s, Jmp(target), n);
  }

  /** `Jz` jumps exactly when the register is zero. */
  lemma JzTurn(w: World, limit: nat, s: Config, n: nat, a: Reg, target: u32)
    requires Runs(w, limit, s, Jz(a, target), n)
    ensures n == 6
    ensures Next(w, limit, s) ==
            if s.c.m.regs[a] == 0 then Jumps(w, s, Jz(a, target), s.c.m, target)
            else Goes(s, Jz(a, target), After(s, 6))
  {
    hide DecodeAt, Starts, Next, Encode;
    BranchBytes(w, s, Jz(a, target), n);
    LocalTurn(w, limit, s, Jz(a, target), n);
  }

  /** `Jnz` jumps exactly when it is not. */
  lemma JnzTurn(w: World, limit: nat, s: Config, n: nat, a: Reg, target: u32)
    requires Runs(w, limit, s, Jnz(a, target), n)
    ensures n == 6
    ensures Next(w, limit, s) ==
            if s.c.m.regs[a] != 0 then Jumps(w, s, Jnz(a, target), s.c.m, target)
            else Goes(s, Jnz(a, target), After(s, 6))
  {
    hide DecodeAt, Starts, Next, Encode;
    BranchBytes(w, s, Jnz(a, target), n);
    LocalTurn(w, limit, s, Jnz(a, target), n);
  }

  lemma BranchBytes(w: World, s: Config, i: Instr, n: nat)
    requires Fetched(w, s.c) == Ok((i, n)) && (i.Jz? || i.Jnz? || i.Call? || i.Ret?)
    ensures n == if i.Ret? then 1 else if i.Call? then 5 else 6
  {
    hide DecodeAt, Encode;
    DecodeExact(w.code, s.c.m.pc, i, n);
    EncodesAsDocumented(i);
  }

  /** `Call` leaves the offset of the instruction after it on the stack. */
  lemma CallTurn(w: World, limit: nat, s: Config, n: nat, target: u32)
    requires Runs(w, limit, s, Call(target), n)
    ensures n == 5
    ensures Next(w, limit, s) ==
            if |s.c.m.stack| >= 1024 then Crash(StackOverflow)
            else Jumps(w, s, Call(target), s.c.m.(stack := s.c.m.stack + [s.c.m.pc + 5]), target)
  {
    hide DecodeAt, Starts, Next, Encode;
    BranchBytes(w, s, Call(target), n);
    LocalTurn(w, limit, s, Call(target), n);
  }

  /** `Ret` takes the top word off the stack and jumps to it. */
  lemma RetTurn(w: World, limit: nat, s: Config, n: nat, below: Stack, top: u64)
    requires Runs(w, limit, s, Ret, n)
    ensures s.c.m.stack == [] ==> Next(w, limit, s) == Crash(StackUnderflow)
    ensures s.c.m.stack == below + [top] ==> Next(w, limit, s) == Jumps(w, s, Ret, s.c.m.(stack := below), top)
  {
    hide DecodeAt, Starts, Next;
    LocalTurn(w, limit, s, Ret, n);
    if s.c.m.stack == below + [top] {
      assert s.c.m.stack[..|s.c.m.stack| - 1] == below;
    }
  }

  /** A return from a call, whatever ran in between, goes on right after the call with the stack as it
      was before: if the call went through at `s` and a later `Ret` at `r` finds the stack the call
      left, the next state stands past the call. */
  lemma CallThenRet(w: World, limit: nat, s: Config, n: nat, target: u32, r: Config, k: nat)
    requires Runs(w, limit, s, Call(target), n) && Next(w, limit, s).More?
    requires Runs(w, limit, r, Ret, k) && r.c.m.stack == Next(w, limit, s).s.c.m.stack
    ensures Next(w, limit, r).More? <==> s.c.m.pc + 5 in Boundaries(w.code)
    ensures Next(w, limit, r).More? ==>
              Next(w, limit, r).s.c.m.pc == s.c.m.pc + 5 && Next(w, limit, r).s.c.m.stack == s.c.m.stack
  {
    hide DecodeAt, Starts, Next, CostOf;
    CallTurn(w, limit, s, n, target);
    RetTurn(w, limit, r, k, s.c.m.stack, s.c.m.pc + 5);
  }

  lemma HaltTurn(w: World, limit: nat, s: Config, n: nat)
    requires Runs(w, limit, s, Halt, n)
    ensures Next(w, limit, s) == Done(s.(c := s.c.(m := After(s, n))))
  {
    hide DecodeAt, Starts;
  }
}
