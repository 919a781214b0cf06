/** The opcodes that change only the machine, as methods on the machine object. */
module MachineOps {
  import opened Bytes
  import opened Isa
  import opened Machines
  import opened Crypto
  import opened Arithmetic
  import opened Local

  /** What a method on a machine was to do, and whether it did it. */
  ghost predicate Did(want: Result<Mach, Fault>, r: Option<Fault>, after: Mach) {
    match want
    case Ok(m) => r == None && after == m
    case Err(f) => r == Some(f)
  }

  method RunWide(m: Machine, op: WideOp, dlo: Reg, dhi: Reg, n: nat, v: nat) returns (r: Option<Fault>)
    requires m.Valid() && n < TWO64 * TWO64 && v < TWO64 * TWO64
    modifies m.regs
    ensures m.Valid()
    ensures match WideResult(op, n, v)
            case Err(f) => r == Some(f)
            case Ok(p) => r == None && m.Value() == SetReg(SetReg(old(m.Value()), dlo, p.0), dhi, p.1)
  {
    hide WideResult;
    var q := WideResult(op, n, v);
    if q.Err? {
      return Some(q.error);
    }
    m.Set(dlo, q.value.0);
    m.Set(dhi, q.value.1);
    return None;
  }

  method RunStack(m: Machine, i: Instr) returns (r: Option<Fault>)
    requires m.Valid() && (i.Push? || i.Pop?)
    modifies m.Repr()
    ensures m.Valid() && Did(DataStep([], old(m.Value()), i), r, m.Value())
  {
    if i.Push? {
      var ok := m.PushWord(m.Reg(i.a));
      return if ok then None else Some(StackOverflow);
    }
    var v := m.PopWord();
    if v.None? {
      return Some(StackUnderflow);
    }
    m.Set(i.d, v.value);
    return None;
  }

  method RunMemory(m: Machine, i: Instr) returns (r: Option<Fault>)
    requires m.Valid() && (i.MLoad? || i.MStore?)
    modifies m.Repr()
    ensures m.Valid() && Did(DataStep([], old(m.Value()), i), r, m.Value())
  {
    hide LoadWord, StoreWord;
    if i.MLoad? {
      var v := m.MemLoad(m.Reg(i.a));
      if v.None? {
        return Some(BadMemory);
      }
      m.Set(i.d, v.value);
      return None;
    }
    var ok := m.MemStore(m.Reg(i.a), m.Reg(i.b));
    return if ok then None else Some(BadMemory);
  }

  /** Data movement and arithmetic on registers. */
  method RunRegs(m: Machine, consts: seq<u64>, i: Instr) returns (r: Option<Fault>)
    requires m.Valid() && (i.Mov? || i.Ldi? || i.Ldc? || i.Alu? || i.Not?)
    modifies m.Repr()
    ensures m.Valid() && Did(DataStep(consts, old(m.Value()), i), r, m.Value())
  {
    hide AluResult;
    r := None;
    if i.Mov? {
      m.Set(i.d, m.Reg(i.a));
    } else if i.Ldi? {
      m.Set(i.d, i.imm);
    } else if i.Ldc? {
      if i.idx >= |consts| {
        return Some(BadConst);
      }
      m.Set(i.d, consts[i.idx]);
    } else if i.Alu? {
      var v := AluResult(i.op, m.Reg(i.a), m.Reg(i.b));
      if v.Err? {
        return Some(v.error);
      }
      m.Set(i.d, v.value);
    } else {
      m.Set(i.d, TWO64 - 1 - m.Reg(i.a));
    }
  }

  /** Any opcode that is neither control flow nor cryptography. */
  method RunData(m: Machine, consts: seq<u64>, i: Instr) returns (r: Option<Fault>)
    requires m.Valid() && IsLocal(i) && !IsControl(i) && !IsCrypto(i)
    modifies m.Repr()
    ensures m.Valid() && Did(DataStep(consts, old(m.Value()), i), r, m.Value())
  {
    hide AluResult, WideResult, LoadWord, StoreWord, Wide128;
    if i.Nop? {
      return None;
    } else if i.Push? || i.Pop? {
      r := RunStack(m, i);
    } else if i.MLoad? || i.MStore? {
      r := RunMemory(m, i);
    } else if i.Wide? {
      r := RunWide(m, i.wop, i.dlo, i.dhi,
                   Wide128(m.Reg(i.alo), m.Reg(i.ahi)), Wide128(m.Reg(i.blo), m.Reg(i.bhi)));
    } else {
      r := RunRegs(m, consts, i);
    }
  }

  /** The region a verify opcode names, judged. */
  method JudgeRegion(m: Machine, p: Prims, i: Instr, region: seq<byte>) returns (r: Result<bool, Fault>)
    requires i.VerifyMl? || i.VerifySlh? || i.MerkleVerify?
    ensures i.VerifyMl? ==> r == VerifyMlRegion(p, region)
    ensures i.VerifySlh? ==> r == VerifySlhRegion(p, region)
    ensures i.MerkleVerify? ==> r == MerkleRegion(p, region)
  {
    if i.VerifyMl? {
      r := VerifyMlRegion(p, region);
    } else if i.VerifySlh? {
      r := VerifySlhRegion(p, region);
    } else {
      r := MerkleVerifyRegion(p, region);
    }
  }

  /** The crypto opcodes other than `Hash`, behind the firewall that turns a panic into a fault. */
  method RunCrypto(m: Machine, p: Prims, i: Instr) returns (r: Option<Fault>)
    requires m.Valid() && IsCrypto(i)
    modifies m.Repr()
    ensures m.Valid() && Did(CryptoStep(p, old(m.Value()), i), r, m.Value())
  {
    hide VerifyMlRegion, VerifySlhRegion, MerkleRegion, Region;
    if i.Addr? {
      r := RunAddress(m, p, i);
      return;
    }
    var region := m.MemRegion(m.Reg(i.a), m.Reg(i.b));
    if region.None? {
      return Some(BadMemory);
    }
    var ok := JudgeRegion(m, p, i, region.value);
    if ok.Err? {
      return Some(ok.error);
    }
    m.Set(i.c, Flag(ok.value));
    return None;
  }

  method RunAddress(m: Machine, p: Prims, i: Instr) returns (r: Option<Fault>)
    requires m.Valid() && i.Addr?
    modifies m.Repr()
    ensures m.Valid() && Did(Address(p, old(m.Value()), i.a, i.b, i.c), r, m.Value())
  {
    hide Region, WriteAt;
    var scheme := m.Reg(i.b);
    var n := AddressKeyBytes(p, scheme);
    if n.None? {
      return Some(BadScheme);
    }
    var pk := m.MemRegion(m.Reg(i.a), n.value);
    if pk.None? {
      return Some(BadMemory);
    }
    var tag: seq<byte> := [if scheme == SCHEME_ML_DSA then 1 else 2];
    var ok := m.MemWrite(m.Reg(i.c), p.sha3(tag + pk.value));
    return if ok then None else Some(BadMemory);
  }

  /** The hash opcode's work on memory. */
  method RunHash(m: Machine, p: Prims, a: Reg, b: Reg, out: Reg) returns (r: Option<Fault>)
    requires m.Valid()
    modifies m.Repr()
    ensures m.Valid() && Did(HashInto(p, old(m.Value()), a, b, out), r, m.Value())
  {
    hide Region, WriteAt;
    var preimage := m.MemRegion(m.Reg(a), m.Reg(b));
    if preimage.None? {
      return Some(BadMemory);
    }
    var ok := m.MemWrite(m.Reg(out), p.sha3(preimage.value));
    return if ok then None else Some(BadMemory);
  }
}
