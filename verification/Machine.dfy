/** Registers, program counter, bounded stack and scratch memory. */
module Machines {
  import opened Bytes
  import opened Isa

  const STACK_LIMIT := 1024
  const MEM_BYTES := 65536
  const WORD_BYTES := 8

  datatype Fault =
    | OutOfMeter | Overflow | DivByZero | StackOverflow | StackUnderflow
    | BadMemory | BadJump | BadConst | UnknownSelector | BadScheme
    | EffectsTooLarge | UndeclaredSlot | CryptoFault | Malformed
    | Undecodable(error: DecodeError)

  type RegFile = r: seq<u64> | |r| == NUM_REGS witness seq(NUM_REGS, i => 0)
  type Memory = m: seq<byte> | |m| == MEM_BYTES witness seq(MEM_BYTES, i => 0)
  type Stack = s: seq<u64> | |s| <= STACK_LIMIT

  /** The value of a machine. */
  datatype Mach = Mach(regs: RegFile, pc: u32, stack: Stack, mem: Memory)

  /** A zeroed machine about to run at `pc`. */
  function FreshMach(pc: u32): Mach {
    Mach(seq(NUM_REGS, i => 0), pc, [], seq(MEM_BYTES, i => 0))
  }

  function SetReg(m: Mach, r: Reg, v: u64): Mach {
    m.(regs := m.regs[r := v])
  }

  function Region(mem: Memory, offset: u64, len: u64): (r: Option<seq<byte>>)
    ensures r.Some? ==> |r.value| == len
  {
    if offset + len <= MEM_BYTES then Some(mem[offset..offset + len]) else None
  }

  function WriteAt(mem: Memory, offset: u64, bytes: seq<byte>): Option<Memory> {
    if offset + |bytes| <= MEM_BYTES then
      Some(mem[..offset] + bytes + mem[offset + |bytes|..])
    else None
  }

  function LoadWord(mem: Memory, offset: u64): Option<u64> {
    match Region(mem, offset, WORD_BYTES)
    case None => None
    case Some(s) => Some(U64At(s))
  }

  function StoreWord(mem: Memory, offset: u64, v: u64): Option<Memory> {
    WriteAt(mem, offset, ToBE(v, WORD_BYTES))
  }

  /** What was written is read back, and every other byte keeps its value. */
  lemma WriteThenRead(mem: Memory, offset: u64, bytes: seq<byte>)
    requires |bytes| < TWO64 && WriteAt(mem, offset, bytes).Some?
    ensures var mem' := WriteAt(mem, offset, bytes).value;
            && Region(mem', offset, |bytes|) == Some(bytes)
            && forall k | 0 <= k < MEM_BYTES && !(offset <= k < offset + |bytes|) :: mem'[k] == mem[k]
  {
    assert WriteAt(mem, offset, bytes).value[offset..offset + |bytes|] == bytes;
  }

  lemma StoreThenLoad(mem: Memory, offset: u64, v: u64)
    ensures match StoreWord(mem, offset, v)
            case Some(mem') => LoadWord(mem', offset) == Some(v)
            case None => LoadWord(mem, offset) == None
  {
    hide ToBE, FromBE;
    WordSizes();
    FromToBE(v, WORD_BYTES);
    if StoreWord(mem, offset, v).Some? {
      WriteThenRead(mem, offset, ToBE(v, WORD_BYTES));
    }
  }

  /** The machine object; `Value` is its abstract value. */
  class Machine {
    const regs: array<u64>
    var pc: u32
    var stack: seq<u64>
    const mem: array<byte>

    ghost function Repr(): set<object> {
      {this, regs, mem}
    }

    ghost predicate Valid()
      reads this
    {
      && regs.Length == NUM_REGS && mem.Length == MEM_BYTES && regs as object != mem
      && |stack| <= STACK_LIMIT
    }

    ghost function Value(): Mach
      reads this, regs, mem
      requires Valid()
    {
      Mach(regs[..], pc, stack, mem[..])
    }

    constructor ()
      ensures Valid() && fresh(Repr()) && Value() == FreshMach(0)
    {
      regs := new u64[NUM_REGS](i => 0);
      mem := new byte[MEM_BYTES](i => 0);
      pc := 0;
      stack := [];
      new;
      assert regs[..] == FreshMach(0).regs;
      assert mem[..] == FreshMach(0).mem;
    }

    function Reg(r: Reg): (v: u64)
      reads this, regs, mem
      requires Valid()
      ensures v == Value().regs[r]
    {
      regs[r]
    }

    method Set(r: Reg, v: u64)
      requires Valid()
      modifies regs
      ensures Valid() && Value() == SetReg(old(Value()), r, v)
    {
      regs[r] := v;
    }

    method Jump(target: u32)
      requires Valid()
      modifies this`pc
      ensures Valid() && Value() == old(Value()).(pc := target)
    {
      pc := target;
    }

    method PushWord(v: u64) returns (ok: bool)
      requires Valid()
      modifies this`stack
      ensures Valid() && ok == (old(|stack|) < STACK_LIMIT)
      ensures Value() == if ok then old(Value()).(stack := old(stack) + [v]) else old(Value())
    {
      if |stack| >= STACK_LIMIT {
        return false;
      }
      stack := stack + [v];
      return true;
    }

    method PopWord() returns (r: Option<u64>)
      requires Valid()
      modifies this`stack
      ensures Valid()
      ensures old(stack) == [] ==> r == None && Value() == old(Value())
      ensures old(stack) != [] ==>
                && r == Some(old(stack)[old(|stack|) - 1])
                && Value() == old(Value()).(stack := old(stack)[..old(|stack|) - 1])
    {
      if stack == [] {
        return None;
      }
      r := Some(stack[|stack| - 1]);
      stack := stack[..|stack| - 1];
    }

    method MemRegion(offset: u64, len: u64) returns (r: Option<seq<byte>>)
      requires Valid()
      ensures r == Region(Value().mem, offset, len)
    {
      if offset + len > MEM_BYTES {
        return None;
      }
      return Some(mem[offset..offset + len]);
    }

    method MemLoad(offset: u64) returns (r: Option<u64>)
      requires Valid()
      ensures r == LoadWord(Value().mem, offset)
    {
      var s := MemRegion(offset, WORD_BYTES);
      if s.None? {
        return None;
      }
      return Some(U64At(s.value));
    }

    method MemWrite(offset: u64, bytes: seq<byte>) returns (ok: bool)
      requires Valid()
      modifies mem
      ensures Valid() && ok == WriteAt(old(Value().mem), offset, bytes).Some?
      ensures Value() == if ok then
                           old(Value()).(mem := WriteAt(old(Value().mem), offset, bytes).value)
                         else old(Value())
    {
      if offset + |bytes| > MEM_BYTES {
        return false;
      }
      forall k | 0 <= k < |bytes| {
        mem[offset + k] := bytes[k];
      }
      assert mem[..] == old(mem[..offset]) + bytes + old(mem[offset + |bytes|..]);
      return true;
    }

    method MemStore(offset: u64, v: u64) returns (ok: bool)
      requires Valid()
      modifies mem
      ensures Valid() && ok == StoreWord(old(Value().mem), offset, v).Some?
      ensures Value() == if ok then
                           old(Value()).(mem := StoreWord(old(Value().mem), offset, v).value)
                         else old(Value())
    {
      ok := MemWrite(offset, ToBE(v, WORD_BYTES));
    }
  }
}
