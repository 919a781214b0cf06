/** Abort stubs: how a rejected call leaves its reason in a register, and the rewriting that makes
    a stub halt instead of dividing by zero. */
module Abort {
  import opened Bytes
  import opened Isa
  import opened Sweep
  import opened Machines

  const ABORT_MARK := 0x5154
  const ABORT_REG: Reg := 0
  const ZERO_REG: Reg := 1
  const DIV_BYTES := 4

  datatype Rule =
    | Unknown | Guard | Limits | Denies | Invariant | TooEarly | OrderExpired | SignatureInvalid
    | SignerNotAuthorised | OrderMalformed | QuorumDuplicate | QuorumNotMember | ArithmeticOverflow
    | ValueOutOfRange | BalanceTooLow | AssetTooLow | UnexpectedPayment | PaymentMismatch
    | AlreadyInitialised | DeployParams | NameInvalid | GuardianSetInvalid | LegacyRule
    | OutOfMeterRule | UnknownEntry | MemoryOutOfRange | EffectsTooLargeRule | UndeclaredState
    | UnsupportedScheme | ContractFault | CryptoFaultRule | InsufficientFunds | NoContract
    | ValueExceedsBalance | TransferRejected | DeployRejected | BlockStateLimit | DivisionByZero
    | MintCeiling | AssetStopped | GenesisCall

  /** The rule's code on the wire. */
  function Code(rule: Rule): u16 {
    match rule
    case Unknown => 0
    case Guard => 1
    case Limits => 2
    case Denies => 3
    case Invariant => 4
    case TooEarly => 5
    case OrderExpired => 6
    case SignatureInvalid => 7
    case SignerNotAuthorised => 8
    case OrderMalformed => 9
    case QuorumDuplicate => 10
    case QuorumNotMember => 11
    case ArithmeticOverflow => 12
    case ValueOutOfRange => 13
    case BalanceTooLow => 14
    case AssetTooLow => 15
    case UnexpectedPayment => 16
    case PaymentMismatch => 17
    case AlreadyInitialised => 18
    case DeployParams => 19
    case NameInvalid => 20
    case GuardianSetInvalid => 21
    case LegacyRule => 22
    case OutOfMeterRule => 64
    case UnknownEntry => 65
    case MemoryOutOfRange => 66
    case EffectsTooLargeRule => 67
    case UndeclaredState => 68
    case UnsupportedScheme => 69
    case ContractFault => 70
    case CryptoFaultRule => 71
    case InsufficientFunds => 72
    case NoContract => 73
    case ValueExceedsBalance => 74
    case TransferRejected => 75
    case DeployRejected => 76
    case BlockStateLimit => 77
    case DivisionByZero => 78
    case MintCeiling => 79
    case AssetStopped => 80
    case GenesisCall => 81
  }

  /** The rule with a given code; `Unknown` when there is none. */
  function FromCode(code: u16): Rule {
    match code
    case 0 => Unknown
    case 1 => Guard
    case 2 => Limits
    case 3 => Denies
    case 4 => Invariant
    case 5 => TooEarly
    case 6 => OrderExpired
    case 7 => SignatureInvalid
    case 8 => SignerNotAuthorised
    case 9 => OrderMalformed
    case 10 => QuorumDuplicate
    case 11 => QuorumNotMember
    case 12 => ArithmeticOverflow
    case 13 => ValueOutOfRange
    case 14 => BalanceTooLow
    case 15 => AssetTooLow
    case 16 => UnexpectedPayment
    case 17 => PaymentMismatch
    case 18 => AlreadyInitialised
    case 19 => DeployParams
    case 20 => NameInvalid
    case 21 => GuardianSetInvalid
    case 22 => LegacyRule
    case 64 => OutOfMeterRule
    case 65 => UnknownEntry
    case 66 => MemoryOutOfRange
    case 67 => EffectsTooLargeRule
    case 68 => UndeclaredState
    case 69 => UnsupportedScheme
    case 70 => ContractFault
    case 71 => CryptoFaultRule
    case 72 => InsufficientFunds
    case 73 => NoContract
    case 74 => ValueExceedsBalance
    case 75 => TransferRejected
    case 76 => DeployRejected
    case 77 => BlockStateLimit
    case 78 => DivisionByZero
    case 79 => MintCeiling
    case 80 => AssetStopped
    case 81 => GenesisCall
    case _ => Unknown
  }

  lemma CodeRoundTrips(rule: Rule)
    ensures FromCode(Code(rule)) == rule
  {
  }

  /** A code no rule has reads as `Unknown`. */
  lemma FromCodeExact(code: u16)
    ensures Code(FromCode(code)) == code || FromCode(code) == Unknown
  {
  }

  /** A reason packed in one word: the mark, the rule's code and the source line. */
  function AbortCode(rule: Rule, line: u32): u64 {
    ABORT_MARK * TWO48 + Code(rule) * TWO32 + line
  }

  predicate Tagged(word: u64) {
    word / TWO48 == ABORT_MARK
  }

  function SplitCode(word: u64): Option<(Rule, u32)> {
    if !Tagged(word) then None
    else Some((FromCode(word / TWO32 % TWO16), word % TWO32))
  }

  /** The packed reason is unpacked again. */
  lemma SplitsAbortCode(rule: Rule, line: u32)
    ensures SplitCode(AbortCode(rule, line)) == Some((rule, line))
  {
    hide FromCode, Code;
    CodeRoundTrips(rule);
    var word := AbortCode(rule, line);
    assert word / TWO48 == ABORT_MARK;
    assert word / TWO32 == ABORT_MARK * TWO16 + Code(rule);
  }

  function AbortStub(word: u64): seq<Instr> {
    [Ldi(ABORT_REG, word), Ldi(ZERO_REG, 0), Alu(Div, ABORT_REG, ABORT_REG, ZERO_REG)]
  }

  function ReasonIn(regs: RegFile): Option<(Rule, u32)> {
    if regs[ABORT_REG] == 0 then Some((LegacyRule, 0)) else SplitCode(regs[ABORT_REG])
  }

  // ---- Which divisions are patched ----

  predicate IsTaggedStub(a: Instr, b: Instr, c: Instr) {
    && a.Ldi? && a.d == ABORT_REG && Tagged(a.imm)
    && b == Ldi(ZERO_REG, 0)
    && c == Alu(Div, ABORT_REG, ABORT_REG, ZERO_REG)
  }

  predicate IsLegacyStub(b: Instr, c: Instr) {
    b == Ldi(ABORT_REG, 0) && c == Alu(Div, ABORT_REG, ABORT_REG, ABORT_REG)
  }

  predicate IsStub(a: Instr, b: Instr, c: Instr) {
    IsTaggedStub(a, b, c) || IsLegacyStub(b, c)
  }

  predicate StubAt(list: seq<Placed>, k: nat) {
    k + 2 < |list| && IsStub(list[k].instr, list[k + 1].instr, list[k + 2].instr)
  }

  /** The offsets of the divisions that end the first `n` windows that are stubs. */
  function SitesBelow(list: seq<Placed>, n: nat): set<nat> {
    set k | 0 <= k < n && StubAt(list, k) :: list[k + 2].at
  }

  function Sites(code: seq<byte>): set<nat> {
    SitesBelow(Listing(code, 0), |Listing(code, 0)|)
  }

  /** Inside a patched division, past its first byte. */
  predicate Inside(sites: set<nat>, x: int) {
    (x >= 1 && x - 1 in sites) || (x >= 2 && x - 2 in sites) || (x >= 3 && x - 3 in sites)
  }

  function PatchedByte(code: seq<byte>, sites: set<nat>, x: nat): byte
    requires x < |code|
  {
    if x in sites then OpByte(OpHalt) else if Inside(sites, x) then OpByte(OpNop) else code[x]
  }

  function Patched(code: seq<byte>, sites: set<nat>): (out: seq<byte>)
    ensures |out| == |code|
  {
    seq(|code|, x requires 0 <= x < |code| => PatchedByte(code, sites, x))
  }

  function HaltingStubs(code: seq<byte>): Option<seq<byte>> {
    if !FullyDecodes(code) || Sites(code) == {} then None else Some(Patched(code, Sites(code)))
  }

  // ---- Sites are listed divisions, and listed instructions do not overlap ----

  lemma {:induction false} ListedApart(code: seq<byte>, j: nat, k: nat)
    requires j < k < |Listing(code, 0)|
    ensures var a := Listing(code, 0)[j].at;
            DecodeAt(code, a).Ok? && a + DecodeAt(code, a).value.1 <= Listing(code, 0)[k].at
    decreases k
  {
    hide DecodeAt, Listing;
    ListingAhead(code, 0, j);
    ListingAhead(code, 0, k - 1);
    if j < k - 1 {
      ListedApart(code, j, k - 1);
    }
  }

  lemma DivIsFourBytes(a: Reg, b: Reg, d: Reg)
    ensures |Encode(Alu(Div, d, a, b))| == DIV_BYTES
  {
  }

  /** A site is the offset of a listed four-byte division that ends a stub. */
  lemma SiteIsDiv(code: seq<byte>, s: nat) returns (k: nat)
    requires s in Sites(code)
    ensures StubAt(Listing(code, 0), k) && Listing(code, 0)[k + 2].at == s
    ensures s + DIV_BYTES <= |code| && DecodeAt(code, s) == Ok((Listing(code, 0)[k + 2].instr, DIV_BYTES))
  {
    hide DecodeAt, Listing, Encode;
    var list := Listing(code, 0);
    k :| 0 <= k < |list| && StubAt(list, k) && list[k + 2].at == s;
    ListingAhead(code, 0, k + 2);
    var i := list[k + 2].instr;
    DivIsFourBytes(i.a, i.b, i.d);
    DecodeExact(code, s, i, DecodeAt(code, s).value.1);
  }

  /** Bytes of a listed instruction that is no site are left alone. */
  lemma OutsideSites(code: seq<byte>, j: nat, x: nat)
    requires j < |Listing(code, 0)| && Listing(code, 0)[j].at !in Sites(code)
    requires DecodeAt(code, Listing(code, 0)[j].at).Ok?
    requires Listing(code, 0)[j].at <= x < Listing(code, 0)[j].at + DecodeAt(code, Listing(code, 0)[j].at).value.1
    ensures x !in Sites(code) && !Inside(Sites(code), x)
  {
    hide DecodeAt, Listing, Sites;
    if s: nat :| s in Sites(code) && s <= x < s + DIV_BYTES {
      var k := SiteIsDiv(code, s);
      if j < k + 2 {
        ListedApart(code, j, k + 2);
      } else if k + 2 < j {
        ListedApart(code, k + 2, j);
      }
      assert false;
    }
  }

  /** Sites are at least a division apart. */
  lemma InsideIsNoSite(code: seq<byte>, s: nat, x: nat)
    requires s in Sites(code) && s < x < s + DIV_BYTES
    ensures x !in Sites(code) && Inside(Sites(code), x)
  {
    hide DecodeAt, Listing, Sites;
    if x in Sites(code) {
      var j := SiteIsDiv(code, s);
      var k := SiteIsDiv(code, x);
      if j < k {
        ListedApart(code, j + 2, k + 2);
      } else if k < j {
        ListedApart(code, k + 2, j + 2);
      }
      assert false;
    }
  }

  // ---- What the patched code decodes to ----

  lemma PatchedElsewhere(code: seq<byte>, j: nat)
    requires j < |Listing(code, 0)| && Listing(code, 0)[j].at !in Sites(code)
    ensures var p := Listing(code, 0)[j].at;
            DecodeAt(code, p).Ok? && DecodeAt(Patched(code, Sites(code)), p) == DecodeAt(code, p)
  {
    hide DecodeAt, Listing, Encode, Sites;
    ListingAhead(code, 0, j);
    var p, out := Listing(code, 0)[j].at, Patched(code, Sites(code));
    var (i, n) := DecodeAt(code, p).value;
    DecodeExact(code, p, i, n);
    forall x | p <= x < p + n ensures out[x] == code[x] {
      OutsideSites(code, j, x);
    }
    assert out[p..p + n] == code[p..p + n];
    DecodeLocal(code, p, out, p);
  }

  lemma HaltAndNopBytes()
    ensures Encode(Halt) == [OpByte(OpHalt)] && Encode(Nop) == [OpByte(OpNop)]
  {
  }

  lemma PatchedSite(code: seq<byte>, s: nat)
    requires s in Sites(code)
    ensures s + DIV_BYTES <= |code|
    ensures var out := Patched(code, Sites(code));
            && DecodeAt(out, s) == Ok((Halt, 1))
            && forall x | s < x < s + DIV_BYTES :: DecodeAt(out, x) == Ok((Nop, 1))
  {
    hide DecodeAt, Listing, Sites, Inside, Encode, OpByte;
    var k := SiteIsDiv(code, s);
    var out := Patched(code, Sites(code));
    HaltAndNopBytes();
    assert out[s..s + 1] == [out[s]];
    DecodeExact(out, s, Halt, 1);
    forall x | s < x < s + DIV_BYTES ensures DecodeAt(out, x) == Ok((Nop, 1)) {
      InsideIsNoSite(code, s, x);
      assert out[x..x + 1] == [out[x]];
      DecodeExact(out, x, Nop, 1);
    }
  }

  /** A listing with each site's division replaced by a halt and three no-ops. */
  function Expanded(list: seq<Placed>, sites: set<nat>): seq<Placed> {
    if list == [] then []
    else
      var p := list[0];
      (if p.at in sites then
         [Placed(p.at, Halt), Placed(p.at + 1, Nop), Placed(p.at + 2, Nop), Placed(p.at + 3, Nop)]
       else [p])
      + Expanded(list[1..], sites)
  }

  lemma {:induction false} ListingTail(code: seq<byte>, pc: nat, j: nat)
    requires j < |Listing(code, pc)|
    ensures DecodeAt(code, Listing(code, pc)[j].at).Ok?
    ensures Listing(code, pc)[j..] == Listing(code, Listing(code, pc)[j].at)
    ensures Listing(code, pc)[j + 1..]
            == Listing(code, Listing(code, pc)[j].at + DecodeAt(code, Listing(code, pc)[j].at).value.1)
    decreases j
  {
    hide DecodeAt;
    if j > 0 {
      var rest := Listing(code, pc + DecodeAt(code, pc).value.1);
      ListingTail(code, pc + DecodeAt(code, pc).value.1, j - 1);
      assert Listing(code, pc)[j..] == rest[j - 1..];
      assert Listing(code, pc)[j + 1..] == rest[j..];
    } else {
      assert Listing(code, pc)[0..] == Listing(code, pc);
    }
  }

  /** Four one-byte instructions in a row. */
  lemma FourOneByte(out: seq<byte>, s: nat)
    requires s + 4 <= |out| && DecodeAt(out, s) == Ok((Halt, 1))
    requires forall x | s < x < s + 4 :: DecodeAt(out, x) == Ok((Nop, 1))
    ensures Listing(out, s) ==
            [Placed(s, Halt), Placed(s + 1, Nop), Placed(s + 2, Nop), Placed(s + 3, Nop)] + Listing(out, s + 4)
    ensures StopOf(out, s) == StopOf(out, s + 4)
  {
    hide DecodeAt;
    assert Listing(out, s + 3) == [Placed(s + 3, Nop)] + Listing(out, s + 4);
    assert Listing(out, s + 2) == [Placed(s + 2, Nop)] + Listing(out, s + 3);
    assert Listing(out, s + 1) == [Placed(s + 1, Nop)] + Listing(out, s + 2);
    assert StopOf(out, s + 2) == StopOf(out, s + 3);
    assert StopOf(out, s + 1) == StopOf(out, s + 2);
  }

  lemma {:induction false} PatchedTail(code: seq<byte>, j: nat)
    requires FullyDecodes(code) && j < |Listing(code, 0)|
    ensures var out, p := Patched(code, Sites(code)), Listing(code, 0)[j].at;
            && Listing(out, p) == Expanded(Listing(code, 0)[j..], Sites(code))
            && StopOf(out, p) == |code|
    decreases |Listing(code, 0)| - j
  {
    hide DecodeAt, Listing, StopOf, Sites, Encode;
    var list, out := Listing(code, 0), Patched(code, Sites(code));
    var p := list[j].at;
    ListingAhead(code, 0, j);
    ListingTail(code, 0, j);
    var n := DecodeAt(code, p).value.1;
    assert list[j..][1..] == list[j + 1..];
    if j + 1 < |list| {
      assert list[j + 1].at == p + n;
      PatchedTail(code, j + 1);
    } else {
      LastListed(code);
    }
    if p in Sites(code) {
      PatchedSite(code, p);
      var k := SiteIsDiv(code, p);
      FourOneByte(out, p);
    } else {
      PatchedElsewhere(code, j);
      OneListed(out, p);
    }
  }

  lemma OneListed(code: seq<byte>, pc: nat)
    requires pc < |code| && DecodeAt(code, pc).Ok?
    ensures Listing(code, pc) == [Placed(pc, DecodeAt(code, pc).value.0)] + Listing(code, pc + DecodeAt(code, pc).value.1)
    ensures StopOf(code, pc) == StopOf(code, pc + DecodeAt(code, pc).value.1)
  {
    hide DecodeAt;
  }

  /** The end of the code lists nothing, whatever the bytes; and the last instruction reaches it. */
  lemma LastListed(code: seq<byte>)
    requires FullyDecodes(code) && Listing(code, 0) != []
    ensures forall out: seq<byte> | |out| == |code| :: Listing(out, |code|) == [] && StopOf(out, |code|) == |code|
    ensures var list := Listing(code, 0);
            var p := list[|list| - 1].at;
            DecodeAt(code, p).Ok? && p + DecodeAt(code, p).value.1 == |code|
  {
    hide DecodeAt, Encode;
    LastReaches(code, 0);
  }

  lemma {:induction false} LastReaches(code: seq<byte>, pc: nat)
    requires pc <= |code| && StopOf(code, pc) == |code| && Listing(code, pc) != []
    ensures var list := Listing(code, pc);
            var p := list[|list| - 1].at;
            DecodeAt(code, p).Ok? && p + DecodeAt(code, p).value.1 == |code|
    decreases |code| - pc
  {
    hide DecodeAt, Encode;
    var (i, n) := DecodeAt(code, pc).value;
    DecodeExact(code, pc, i, n);
    if Listing(code, pc + n) != [] {
      LastReaches(code, pc + n);
    } else {
      StopDoesNotDecode(code, pc + n);
    }
  }

  /** Rewriting keeps the length and every instruction but the matched divisions, each of which
      becomes a halt and three no-ops; the result still decodes fully. */
  lemma PatchedDecodes(code: seq<byte>)
    requires HaltingStubs(code).Some?
    ensures var out := HaltingStubs(code).value;
            && |out| == |code|
            && Listing(out, 0) == Expanded(Listing(code, 0), Sites(code))
            && FullyDecodes(out)
  {
    hide DecodeAt, Listing, StopOf;
    var list := Listing(code, 0);
    assert list[0..] == list;
    FirstListed(code);
    PatchedTail(code, 0);
  }

  lemma FirstListed(code: seq<byte>)
    requires Listing(code, 0) != []
    ensures Listing(code, 0)[0].at == 0
  {
    hide DecodeAt;
  }

  lemma ListedAtAppend(a: seq<Placed>, b: seq<Placed>, x: nat)
    ensures ListedAt(a + b, x) <==> ListedAt(a, x) || ListedAt(b, x)
  {
    if j :| 0 <= j < |a| && a[j].at == x {
      assert (a + b)[j].at == x;
    }
    if j :| 0 <= j < |b| && b[j].at == x {
      assert (a + b)[|a| + j].at == x;
    }
  }

  lemma {:induction false} ExpandedOffsets(list: seq<Placed>, sites: set<nat>, x: nat)
    ensures ListedAt(Expanded(list, sites), x) <==>
            ListedAt(list, x) ||
            exists s | s in sites && ListedAt(list, s) :: s < x < s + DIV_BYTES
    decreases |list|
  {
    hide ListedAt;
    if list != [] {
      var p, rest := list[0], list[1..];
      var four := [Placed(p.at, Halt), Placed(p.at + 1, Nop), Placed(p.at + 2, Nop), Placed(p.at + 3, Nop)];
      var head := if p.at in sites then four else [p];
      ExpandedOffsets(rest, sites, x);
      ListedAtAppend(head, Expanded(rest, sites), x);
      assert list == [p] + rest;
      HeadOffsets(p, x);
      forall s: nat
        ensures ListedAt(list, s) <==> s == p.at || ListedAt(rest, s)
      {
        ListedAtAppend([p], rest, s);
        HeadOffsets(p, s);
      }
    } else {
      NothingListed();
    }
  }

  lemma HeadOffsets(p: Placed, x: nat)
    ensures ListedAt([p], x) <==> x == p.at
    ensures ListedAt([Placed(p.at, Halt), Placed(p.at + 1, Nop), Placed(p.at + 2, Nop), Placed(p.at + 3, Nop)], x)
            <==> p.at <= x < p.at + DIV_BYTES
  {
    assert [p][0] == p;
    var four := [Placed(p.at, Halt), Placed(p.at + 1, Nop), Placed(p.at + 2, Nop), Placed(p.at + 3, Nop)];
    if p.at <= x < p.at + DIV_BYTES {
      assert four[x - p.at].at == x;
    }
  }

  /** The jump targets of the patched code: those of the original, and the insides of the patched
      divisions. */
  lemma PatchedBoundaries(code: seq<byte>, x: nat)
    requires HaltingStubs(code).Some?
    ensures x in Boundaries(HaltingStubs(code).value) <==>
            x in Boundaries(code) || (x < TWO32 && Inside(Sites(code), x))
  {
    hide DecodeAt, Listing, StopOf, Starts, Expanded, Sites;
    var out, list := HaltingStubs(code).value, Listing(code, 0);
    PatchedDecodes(code);
    StartsAreListed(code, 0, x);
    StartsAreListed(out, 0, x);
    ExpandedOffsets(list, Sites(code), x);
    if Inside(Sites(code), x) {
      var s := if x - 1 in Sites(code) then x - 1 else if x >= 2 && x - 2 in Sites(code) then x - 2 else x - 3;
      var k := SiteIsDiv(code, s);
      assert ListedAt(list, s);
    }
  }

  // ---- Which programs are rewritten, and to what bytes ----

  /** The `k`-th instruction of a program ends a stub: a tagged word is loaded, a zero is loaded, and the
      one divided by the other; or, behind any instruction, a zero is loaded and divided by itself. */
  predicate EndsStub(p: seq<Instr>, k: nat) {
    && 2 <= k < |p|
    && (if p[k] == Alu(Div, 0, 0, 1) then
          p[k - 1] == Ldi(1, 0) && p[k - 2].Ldi? && p[k - 2].d == 0 && p[k - 2].imm / 0x1_0000_0000_0000 == 0x5154
        else p[k] == Alu(Div, 0, 0, 0) && p[k - 1] == Ldi(0, 0))
  }

  lemma StubsEnd(p: seq<Instr>, code: seq<byte>, k: nat)
    requires code == EncodeAll(p)
    ensures |Listing(code, 0)| == |p| && (StubAt(Listing(code, 0), k) <==> EndsStub(p, k + 2))
  {
    hide Listing, StopOf, EncodeAll;
    ProgramLayout(code, p);
  }

  lemma EndIsSite(p: seq<Instr>, code: seq<byte>, k: nat)
    requires code == EncodeAll(p) && k < |p|
    ensures |Listing(code, 0)| == |p| && Listing(code, 0)[k] == Placed(OffsetOf(p, k), p[k])
    ensures OffsetOf(p, k) in Sites(code) <==> EndsStub(p, k)
  {
    hide Listing, StopOf, EncodeAll, DecodeAt, EndsStub, Sites;
    ProgramLayout(code, p);
    var at := OffsetOf(p, k);
    if EndsStub(p, k) {
      assert k >= 2 by { EndsLate(p, k); }
      StubsEnd(p, code, k - 2);
      SiteOfStub(code, k - 2);
    }
    if at in Sites(code) {
      var j := SiteIsDiv(code, at);
      StubsEnd(p, code, j);
      if k < j + 2 {
        ListedApart(code, k, j + 2);
      } else if j + 2 < k {
        ListedApart(code, j + 2, k);
      }
    }
  }

  lemma EndsLate(p: seq<Instr>, k: nat)
    requires EndsStub(p, k)
    ensures 2 <= k < |p| && |Encode(p[k])| == 4
  {
    DivIsFourBytes(p[k].a, p[k].b, p[k].d);
  }

  lemma SiteOfStub(code: seq<byte>, k: nat)
    requires StubAt(Listing(code, 0), k)
    ensures Listing(code, 0)[k + 2].at in Sites(code)
  {
    hide Listing, IsStub;
  }

  /** A program is rewritten exactly when one of its instructions ends a stub. */
  lemma RewrittenWhen(p: seq<Instr>)
    ensures HaltingStubs(EncodeAll(p)).Some? <==> exists k: nat :: EndsStub(p, k)
  {
    hide Listing, StopOf, EncodeAll, EndsStub, Patched;
    var code := EncodeAll(p);
    ProgramLayout(code, p);
    if k: nat :| EndsStub(p, k) {
      EndsLate(p, k);
      StubsEnd(p, code, k - 2);
      SiteOfStub(code, k - 2);
    }
    if Sites(code) != {} {
      var s :| s in Sites(code);
      var j := SiteIsDiv(code, s);
      StubsEnd(p, code, j);
    }
  }

  /** And then byte by byte: an instruction that ends a stub becomes a zero and three ones, and every
      other keeps its bytes. */
  lemma RewrittenBytes(p: seq<Instr>, k: nat, j: nat)
    requires HaltingStubs(EncodeAll(p)).Some? && k < |p| && j < |Encode(p[k])|
    ensures var out := HaltingStubs(EncodeAll(p)).value;
            && |out| == |EncodeAll(p)| && OffsetOf(p, k) + j < |out|
            && out[OffsetOf(p, k) + j] ==
               if EndsStub(p, k) then (if j == 0 then 0 else 1) else Encode(p[k])[j]
  {
    hide Listing, StopOf, EncodeAll, EndsStub, Sites, DecodeAt, Encode, OffsetOf;
    var code, at := EncodeAll(p), OffsetOf(p, k);
    EndIsSite(p, code, k);
    ListingAhead(code, 0, k);
    DecodeExact(code, at, p[k], DecodeAt(code, at).value.1);
    assert code[at..at + |Encode(p[k])|][j] == code[at + j];
    if EndsStub(p, k) {
      EndsLate(p, k);
      if j > 0 {
        InsideIsNoSite(code, at, at + j);
      }
    } else {
      OutsideSites(code, k, at + j);
    }
  }

  /** Only whole programs are rewritten: code that does not decode to its end is not. */
  lemma RewrittenIsProgram(code: seq<byte>)
    requires HaltingStubs(code).Some?
    ensures code == EncodeAll(InstrsOf(Listing(code, 0)))
  {
    hide Listing, Sites, Patched, EncodeAll;
    ListingEncodes(code, 0);
    assert code[0..|code|] == code;
  }

  /** Bytes from `at` on. */
  predicate Reads(s: seq<byte>, at: nat, bytes: seq<byte>) {
    at + |bytes| <= |s| && s[at..at + |bytes|] == bytes
  }

  lemma StubHaltsAt(p: seq<Instr>, k: nat)
    requires EndsStub(p, k)
    ensures HaltingStubs(EncodeAll(p)).Some?
    ensures Reads(HaltingStubs(EncodeAll(p)).value, OffsetOf(p, k), [0, 1, 1, 1])
  {
    hide EncodeAll, EndsStub, HaltingStubs, Encode, OffsetOf;
    RewrittenWhen(p);
    EndsLate(p, k);
    forall j | 0 <= j < 4
      ensures var out := HaltingStubs(EncodeAll(p)).value;
              OffsetOf(p, k) + j < |out| && out[OffsetOf(p, k) + j] == [0, 1, 1, 1][j]
    {
      RewrittenBytes(p, k, j);
    }
    RewrittenBytes(p, k, 3);
  }

  /** A stub compiled for a rule and a line is found wherever it stands in a program, the end included:
      its division, twenty bytes in, becomes a halt and three no-ops. */
  lemma CompiledStubHalts(p: seq<Instr>, q: seq<Instr>, rule: Rule, line: u32)
    ensures var program := p + AbortStub(AbortCode(rule, line)) + q;
            && HaltingStubs(EncodeAll(program)).Some?
            && Reads(HaltingStubs(EncodeAll(program)).value, |EncodeAll(p)| + 20, [0, 1, 1, 1])
  {
    hide EncodeAll, HaltingStubs, Encode, Code;
    var stub := AbortStub(AbortCode(rule, line));
    var program, k := p + stub + q, |p|;
    assert program[k] == stub[0] && program[k + 1] == stub[1] && program[k + 2] == stub[2];
    assert AbortCode(rule, line) / 0x1_0000_0000_0000 == 0x5154;
    StubHaltsAt(program, k + 2);
    assert program[..k] == p;
    OffsetStep(program, k);
    OffsetStep(program, k + 1);
    LoadIsTenBytes(stub[0]);
    LoadIsTenBytes(stub[1]);
  }

  /** The legacy pair is found behind any instruction. */
  lemma LegacyStubHalts(p: seq<Instr>, i: Instr, q: seq<Instr>)
    ensures var program := p + [i] + [Ldi(0, 0), Alu(Div, 0, 0, 0)] + q;
            && HaltingStubs(EncodeAll(program)).Some?
            && Reads(HaltingStubs(EncodeAll(program)).value, |EncodeAll(p + [i])| + 10, [0, 1, 1, 1])
  {
    hide EncodeAll, HaltingStubs, Encode;
    var program, k := p + [i] + [Ldi(0, 0), Alu(Div, 0, 0, 0)] + q, |p| + 1;
    assert program[k] == Ldi(0, 0) && program[k + 1] == Alu(Div, 0, 0, 0);
    StubHaltsAt(program, k + 1);
    assert program[..k] == p + [i];
    OffsetStep(program, k);
    LoadIsTenBytes(program[k]);
  }

  lemma LoadIsTenBytes(i: Instr)
    requires i.Ldi?
    ensures |Encode(i)| == 10
  {
    hide ToBE;
  }

  /** The stub a compiler emits, instruction by instruction. */
  lemma StubIs(rule: Rule, line: u32)
    ensures AbortStub(AbortCode(rule, line)) ==
            [Ldi(0, 0x5154_0000_0000_0000 + Code(rule) * 0x1_0000_0000 + line), Ldi(1, 0), Alu(Div, 0, 0, 1)]
  {
    hide Code;
  }

  /** The wire codes: 0 to 22 for what a contract states, from 64 on for the machine and the ledger. */
  lemma CodesAre(rule: Rule)
    ensures Code(rule) ==
            if rule.Unknown? then 0 else if rule.Guard? then 1 else if rule.Limits? then 2 else
            if rule.Denies? then 3 else if rule.Invariant? then 4 else if rule.TooEarly? then 5 else
            if rule.OrderExpired? then 6 else if rule.SignatureInvalid? then 7 else
            if rule.SignerNotAuthorised? then 8 else if rule.OrderMalformed? then 9 else
            if rule.QuorumDuplicate? then 10 else if rule.QuorumNotMember? then 11 else
            if rule.ArithmeticOverflow? then 12 else if rule.ValueOutOfRange? then 13 else
            if rule.BalanceTooLow? then 14 else if rule.AssetTooLow? then 15 else
            if rule.UnexpectedPayment? then 16 else if rule.PaymentMismatch? then 17 else
            if rule.AlreadyInitialised? then 18 else if rule.DeployParams? then 19 else
            if rule.NameInvalid? then 20 else if rule.GuardianSetInvalid? then 21 else
            if rule.LegacyRule? then 22 else if rule.OutOfMeterRule? then 64 else
            if rule.UnknownEntry? then 65 else if rule.MemoryOutOfRange? then 66 else
            if rule.EffectsTooLargeRule? then 67 else if rule.UndeclaredState? then 68 else
            if rule.UnsupportedScheme? then 69 else if rule.ContractFault? then 70 else
            if rule.CryptoFaultRule? then 71 else if rule.InsufficientFunds? then 72 else
            if rule.NoContract? then 73 else if rule.ValueExceedsBalance? then 74 else
            if rule.TransferRejected? then 75 else if rule.DeployRejected? then 76 else
            if rule.BlockStateLimit? then 77 else if rule.DivisionByZero? then 78 else
            if rule.MintCeiling? then 79 else if rule.AssetStopped? then 80 else 81
  {
  }

  // ---- The rewriting as the source runs it ----

  lemma OneMoreSite(code: seq<byte>, sites: set<nat>, at: nat, x: nat)
    requires sites <= Sites(code) && at in Sites(code) && x < |code|
    ensures PatchedByte(code, sites + {at}, x) ==
            if x == at then OpByte(OpHalt)
            else if at < x < at + DIV_BYTES then OpByte(OpNop)
            else PatchedByte(code, sites, x)
  {
    hide Sites, OpByte;
    if at < x < at + DIV_BYTES {
      InsideIsNoSite(code, at, x);
    }
  }

  lemma SitesGrow(list: seq<Placed>, n: nat)
    ensures SitesBelow(list, n + 1) ==
            if StubAt(list, n) then SitesBelow(list, n) + {list[n + 2].at} else SitesBelow(list, n)
    ensures n + 2 >= |list| ==> SitesBelow(list, n) == SitesBelow(list, |list|)
  {
    hide IsStub;
    assert forall k | n <= k :: n + 2 >= |list| ==> !StubAt(list, k);
  }

  /** A halt and as many no-ops as fill `len` bytes. */
  method PatchOf(len: nat) returns (patch: seq<byte>)
    requires len >= 1
    ensures |patch| == len && patch[0] == OpByte(OpHalt)
    ensures forall k | 1 <= k < len :: patch[k] == OpByte(OpNop)
  {
    hide OpByte;
    patch := [OpByte(OpHalt)];
    while |patch| < len
      invariant 1 <= |patch| <= len && patch[0] == OpByte(OpHalt)
      invariant forall k | 1 <= k < |patch| :: patch[k] == OpByte(OpNop)
    {
      patch := patch + [OpByte(OpNop)];
    }
  }

  method PatchSite(code: seq<byte>, ghost sites: set<nat>, out: array<byte>, third: Placed)
    requires out.Length == |code| && out[..] == Patched(code, sites)
    requires sites <= Sites(code) && third.at in Sites(code)
    requires third.at + DIV_BYTES <= |code| && |Encode(third.instr)| == DIV_BYTES
    modifies out
    ensures out[..] == Patched(code, sites + {third.at})
  {
    hide Sites, Encode, PatchedByte, OpByte;
    var at := third.at;
    var patch := PatchOf(|Encode(third.instr)|);
    forall k | 0 <= k < |patch| {
      out[at + k] := patch[k];
    }
    forall x | 0 <= x < |code| ensures out[x] == PatchedByte(code, sites + {at}, x) {
      OneMoreSite(code, sites, at, x);
      assert old(out[..])[x] == PatchedByte(code, sites, x);
    }
    assert out[..] == Patched(code, sites + {at});
  }

  method ListCode(code: seq<byte>) returns (r: Option<seq<Placed>>)
    ensures r == if FullyDecodes(code) then Some(Listing(code, 0)) else None
  {
    hide DecodeAt, Encode;
    var list, pc := [], 0;
    while pc < |code|
      invariant 0 <= pc <= |code|
      invariant list + Listing(code, pc) == Listing(code, 0) && StopOf(code, pc) == StopOf(code, 0)
      decreases |code| - pc
    {
      var d := Decode(code, pc);
      if d.Err? {
        return None;
      }
      DecodeExact(code, pc, d.value.0, d.value.1);
      list := list + [Placed(pc, d.value.0)];
      pc := pc + d.value.1;
    }
    assert list + [] == list;
    return Some(list);
  }

  /** The loop over windows of three, patching in place. */
  method PatchAll(code: seq<byte>, list: seq<Placed>, out: array<byte>) returns (found: bool)
    requires list == Listing(code, 0) && out[..] == code
    modifies out
    ensures out[..] == Patched(code, Sites(code)) && found == (Sites(code) != {})
  {
    hide Listing, StopOf, IsStub, PatchedByte, Patched;
    NothingPatched(code);
    found := false;
    var k := 0;
    while k + 2 < |list|
      invariant 0 <= k && out.Length == |code|
      invariant SitesBelow(list, k) <= Sites(code)
      invariant out[..] == Patched(code, SitesBelow(list, k))
      invariant found == (SitesBelow(list, k) != {})
    {
      SitesGrow(list, k);
      if IsStub(list[k].instr, list[k + 1].instr, list[k + 2].instr) {
        StubIsSite(code, k);
        PatchSite(code, SitesBelow(list, k), out, list[k + 2]);
        found := true;
      }
      k := k + 1;
    }
    SitesGrow(list, k);
  }

  method Rewrite(code: seq<byte>) returns (r: Option<seq<byte>>)
    ensures r == HaltingStubs(code)
  {
    hide Listing, StopOf, Patched, Sites;
    var list := ListCode(code);
    if list.None? {
      return None;
    }
    var out := new byte[|code|](x requires 0 <= x < |code| => code[x]);
    assert out[..] == code;
    var found := PatchAll(code, list.value, out);
    return if found then Some(out[..]) else None;
  }

  lemma NothingPatched(code: seq<byte>)
    ensures forall list :: Patched(code, SitesBelow(list, 0)) == code
  {
  }

  lemma StubIsSite(code: seq<byte>, k: nat)
    requires StubAt(Listing(code, 0), k)
    ensures var third := Listing(code, 0)[k + 2];
            third.at in Sites(code) && third.at + DIV_BYTES <= |code| && |Encode(third.instr)| == DIV_BYTES
  {
    hide DecodeAt, Listing, Encode;
    var third := Listing(code, 0)[k + 2];
    assert third.at in Sites(code);
    var k' := SiteIsDiv(code, third.at);
    DivIsFourBytes(third.instr.a, third.instr.b, third.instr.d);
  }
}
