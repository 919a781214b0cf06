/** The price schedule. */
module Meter {
  import opened Bytes
  import opened Isa

  const DISPATCH := 4
  const EFFECT_BYTE := 2
  const EVENT_BYTE := 100
  const EFFECTS_BYTES_CAP := 0x10_0000
  const EFFECT_RECORD_OVERHEAD := 32
  const KECCAK_RATE := 136
  const HASH_BLOCK := 40
  const MERKLE_LEVEL := 50
  const KEYED_SLOT_METER := 227_000
  const METER_PER_MICRO := 79
  const KEYED_READ_MICROS := 12
  const KEYED_READ_METER := METER_PER_MICRO * KEYED_READ_MICROS
  const EVENT_RECORD_METER := 6_250
  const FREE_EVENT_RECORDS := 4
  const ASSET_MINT_SELECTOR: seq<byte> := [77, 73, 78, 84]
  const ASSET_MINT_DATA_BYTES := 40
  const FREE_DIRTY_SLOTS := 8
  const CODE_SCAN_PER_BYTE := METER_PER_MICRO / 8
  const VERIFY_MESSAGE_BLOCK := 40

  /** Saturating 64-bit multiplication. */
  function SatMul(a: nat, b: nat): nat {
    if a * b >= TWO64 then TWO64 - 1 else a * b
  }

  function KeccakBlocks(len: u64): nat {
    len / KECCAK_RATE + 1
  }

  function HashVariable(len: u64): nat {
    SatMul(KeccakBlocks(len), HASH_BLOCK)
  }

  function MessageVariable(tail: u64): nat {
    SatMul(KeccakBlocks(tail), VERIFY_MESSAGE_BLOCK)
  }

  function MerkleVariable(pathBytes: u64): nat {
    SatMul(pathBytes / 32, MERKLE_LEVEL)
  }

  function Cost(op: OpCode): nat {
    match op
    case OpHalt => 0
    case OpNop | OpMov | OpLdi | OpLdc | OpNot => 1
    case OpAlu(a) =>
      (match a
       case Add | Sub | AddW | SubW => 2
       case Mul | MulW | MulHi => 3
       case Div | Rem => 4
       case And | Or | Xor | Shl | Shr | Eq | LtU | GtU => 1)
    case OpWide(_) => 8
    case OpPush | OpPop => 2
    case OpMLoad | OpMStore => 3
    case OpJmp | OpJz | OpJnz | OpRet => 2
    case OpCall => 3
    case OpSLoad => 100
    case OpSStore => 500
    case OpSend | OpEmit | OpHash => 200
    case OpVerifyMl => 60_000
    case OpVerifySlh => 340_000
    case OpMerkleVerify => 512
    case OpAddr => 4_000
  }

  function CostOf(i: Instr): nat {
    Cost(OpCodeOf(i))
  }

  /** Only `Halt` is free, so every instruction a run continues past uses meter. */
  lemma OnlyHaltIsFree(i: Instr)
    ensures CostOf(i) >= 1 <==> i != Halt
  {
  }

  /** A hashed region or a message pays forty for every started block of 136 bytes, and for one more when
      it ends on a block. */
  lemma BlockPrices(len: u64, blocks: nat)
    requires 136 * (blocks - 1) <= len < 136 * blocks
    ensures HashVariable(len) == 40 * blocks && MessageVariable(len) == 40 * blocks
  {
    assert len / 136 == blocks - 1;
  }

  /** A path pays fifty for every level, up to the largest word. */
  lemma LevelPrices(len: u64, levels: nat)
    requires 32 * levels <= len < 32 * levels + 32
    ensures MerkleVariable(len) == if 50 * levels <= 0xFFFF_FFFF_FFFF_FFFF then 50 * levels else 0xFFFF_FFFF_FFFF_FFFF
  {
    assert len / 32 == levels;
  }

  /** The price list. */
  lemma PriceList(i: Instr)
    ensures CostOf(i) ==
            if i.Halt? then 0
            else if i.Nop? || i.Mov? || i.Ldi? || i.Ldc? || i.Not? then 1
            else if i.Alu? then
              if i.op in {Add, Sub, AddW, SubW} then 2
              else if i.op in {Mul, MulW, MulHi} then 3
              else if i.op in {Div, Rem} then 4
              else 1
            else if i.Wide? then 8
            else if i.MLoad? || i.MStore? || i.Call? then 3
            else if i.Push? || i.Pop? || i.Jmp? || i.Jz? || i.Jnz? || i.Ret? then 2
            else if i.SLoad? then 100
            else if i.SStore? then 500
            else if i.Send? || i.Emit? || i.Hash? then 200
            else if i.VerifyMl? then 60_000
            else if i.VerifySlh? then 340_000
            else if i.MerkleVerify? then 512
            else 4_000
  {
  }
}
