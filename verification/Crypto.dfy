/** The cryptographic opcodes. The primitives themselves are parameters. */
module Crypto {
  import opened Bytes
  import opened Isa
  import opened Machines

  /** What a signature primitive answers; one that panics is caught and becomes a fault. */
  datatype Verdict = Accepts | Rejects | Panics

  /** The primitives of the external crypto crate and the sizes it fixes. */
  datatype Prims = Prims(
    sha3: seq<byte> -> Key,
    mlKeyBytes: u32,
    mlSigBytes: u32,
    slhKeyBytes: u32,
    slhSigBytes: u32,
    mlDegenerate: seq<byte> -> Verdict,
    mlVerify: (seq<byte>, seq<byte>, seq<byte>) -> Verdict,
    slhVerify: (seq<byte>, seq<byte>, seq<byte>) -> Verdict)

  const SCHEME_ML_DSA := 1
  const SCHEME_SLH_DSA := 2
  const MERKLE_HEADER := 72
  const MERKLE_LEAF_TAG: byte := 0x00
  const MERKLE_NODE_TAG: byte := 0x01

  function SatSub(a: u64, b: nat): u64 {
    if a < b then 0 else a - b
  }

  function LeafInput(leaf: Key): seq<byte> {
    [MERKLE_LEAF_TAG] + leaf
  }

  function NodeInput(left: Key, right: Key): seq<byte> {
    [MERKLE_NODE_TAG] + left + right
  }

  /** Bit `level` of an index. */
  function Bit(index: nat, level: nat): nat {
    Shifted(index, level) % 2
  }

  /** The two hashed in order: a node whose index bit is 0 is a left child. */
  function Pair(index: nat, level: nat, node: Key, sibling: Key): seq<byte> {
    if Bit(index, level) == 0 then NodeInput(node, sibling) else NodeInput(sibling, node)
  }

  /** The node reached from `leaf` by folding in `path`, lowest sibling first. */
  function Climb(sha3: seq<byte> -> Key, leaf: Key, index: nat, path: seq<Key>): Key
    decreases |path|
  {
    if path == [] then sha3(LeafInput(leaf))
    else
      var top := |path| - 1;
      sha3(Pair(index, top, Climb(sha3, leaf, index, path[..top]), path[top]))
  }

  /** A flat path cut into 32-byte siblings. */
  function Siblings(bytes: seq<byte>): (path: seq<Key>)
    requires |bytes| % KEY_BYTES == 0
    ensures |path| * KEY_BYTES == |bytes|
    decreases |bytes|
  {
    if bytes == [] then []
    else Siblings(bytes[..|bytes| - KEY_BYTES]) + [bytes[|bytes| - KEY_BYTES..]]
  }

  datatype Claim = Claim(root: Key, index: u64, leaf: Key, path: seq<byte>)

  function ParseClaim(region: seq<byte>): Option<Claim> {
    if |region| < MERKLE_HEADER || (|region| - MERKLE_HEADER) % KEY_BYTES != 0 then None
    else
      Some(Claim(region[..32], U64At(region[32..40]), region[40..72], region[72..]))
  }

  /** Whether the opcode writes 1 for the claim. */
  predicate MerkleAccepts(sha3: seq<byte> -> Key, claim: Claim) {
    && |claim.path| % KEY_BYTES == 0
    && var path := Siblings(claim.path);
       && 1 <= |path| <= 64
       && claim.index < Pow2(|path|)
       && Climb(sha3, claim.leaf, claim.index, path) == claim.root
  }

  function VerifyMlRegion(p: Prims, region: seq<byte>): Result<bool, Fault> {
    var pk, sig := p.mlKeyBytes, p.mlSigBytes;
    if |region| < pk + sig then Err(BadMemory)
    else
      match p.mlDegenerate(region[..pk])
      case Panics => Err(CryptoFault)
      case Accepts => Ok(false)
      case Rejects =>
        match p.mlVerify(region[..pk], region[pk + sig..], region[pk..pk + sig])
        case Panics => Err(CryptoFault)
        case v => Ok(v == Accepts)
  }

  function VerifySlhRegion(p: Prims, region: seq<byte>): Result<bool, Fault> {
    var pk, sig := p.slhKeyBytes, p.slhSigBytes;
    if |region| < pk + sig then Err(BadMemory)
    else
      match p.slhVerify(region[..pk], region[pk + sig..], region[pk..pk + sig])
      case Panics => Err(CryptoFault)
      case v => Ok(v == Accepts)
  }

  function MerkleRegion(p: Prims, region: seq<byte>): Result<bool, Fault> {
    match ParseClaim(region)
    case None => Err(BadMemory)
    case Some(claim) => Ok(MerkleAccepts(p.sha3, claim))
  }

  /** A verify opcode: the region at `m[a]` of length `m[b]` is judged and `c` gets the answer. */
  function Judge(m: Mach, a: Reg, b: Reg, c: Reg, judge: seq<byte> -> Result<bool, Fault>): Result<Mach, Fault> {
    match Region(m.mem, m.regs[a], m.regs[b])
    case None => Err(BadMemory)
    case Some(region) =>
      var ok :- judge(region);
      Ok(SetReg(m, c, Flag(ok)))
  }

  function AddressKeyBytes(p: Prims, scheme: u64): Option<u64> {
    if scheme == SCHEME_ML_DSA then Some(p.mlKeyBytes)
    else if scheme == SCHEME_SLH_DSA then Some(p.slhKeyBytes)
    else None
  }

  function Address(p: Prims, m: Mach, a: Reg, b: Reg, c: Reg): Result<Mach, Fault> {
    match AddressKeyBytes(p, m.regs[b])
    case None => Err(BadScheme)
    case Some(n) =>
      match Region(m.mem, m.regs[a], n)
      case None => Err(BadMemory)
      case Some(pk) =>
        match WriteAt(m.mem, m.regs[c], p.sha3([if m.regs[b] == SCHEME_ML_DSA then 1 else 2] + pk))
        case None => Err(BadMemory)
        case Some(mem) => Ok(m.(mem := mem))
  }

  /** The hash opcode's effect on memory. */
  function HashInto(p: Prims, m: Mach, a: Reg, b: Reg, c: Reg): Result<Mach, Fault> {
    match Region(m.mem, m.regs[a], m.regs[b])
    case None => Err(BadMemory)
    case Some(preimage) =>
      match WriteAt(m.mem, m.regs[c], p.sha3(preimage))
      case None => Err(BadMemory)
      case Some(mem) => Ok(m.(mem := mem))
  }

  /** The sibling at place `k` of a flat path, and the flat prefix below it. */
  lemma {:induction false} SiblingsPrefix(bytes: seq<byte>, k: nat)
    requires |bytes| % KEY_BYTES == 0 && (k + 1) * KEY_BYTES <= |bytes|
    ensures var path := Siblings(bytes);
            && path[..k] == Siblings(bytes[..k * KEY_BYTES])
            && path[k] == bytes[k * KEY_BYTES..(k + 1) * KEY_BYTES]
    decreases |bytes|
  {
    var cut := |bytes| - KEY_BYTES;
    var path, below := Siblings(bytes), Siblings(bytes[..cut]);
    assert |below| * KEY_BYTES == cut;
    if k < |below| {
      SiblingsPrefix(bytes[..cut], k);
      assert path[..k] == below[..k];
      assert bytes[..cut][..k * KEY_BYTES] == bytes[..k * KEY_BYTES];
      assert bytes[..cut][k * KEY_BYTES..(k + 1) * KEY_BYTES] == bytes[k * KEY_BYTES..(k + 1) * KEY_BYTES];
    } else {
      assert k == |below|;
      assert path[..k] == below;
    }
  }

  /** The opcode's loop over the path. */
  method ClimbPath(p: Prims, leaf: Key, index: u64, path: seq<byte>) returns (node: Key)
    requires |path| % KEY_BYTES == 0
    ensures node == Climb(p.sha3, leaf, index, Siblings(path))
  {
    hide Bit, Siblings;
    var depth := |path| / KEY_BYTES;
    ghost var siblings := Siblings(path);
    node := p.sha3(LeafInput(leaf));
    var level := 0;
    while level < depth
      invariant 0 <= level <= depth == |siblings|
      invariant node == Climb(p.sha3, leaf, index, siblings[..level])
    {
      var sibling: Key := path[level * KEY_BYTES..(level + 1) * KEY_BYTES];
      SiblingsPrefix(path, level);
      ghost var below := siblings[..level + 1];
      assert below[..level] == siblings[..level] && below[level] == sibling;
      var onLeft := Bit(index, level) == 0;
      node := p.sha3(if onLeft then NodeInput(node, sibling) else NodeInput(sibling, node));
      level := level + 1;
    }
    assert siblings[..depth] == siblings;
  }

  /** The opcode on a region already copied out of memory. */
  method MerkleVerifyRegion(p: Prims, region: seq<byte>) returns (r: Result<bool, Fault>)
    ensures r == MerkleRegion(p, region)
  {
    hide Pow2, Shifted, ToBE, FromBE, Siblings, Climb;
    if |region| < MERKLE_HEADER || (|region| - MERKLE_HEADER) % KEY_BYTES != 0 {
      return Err(BadMemory);
    }
    var root: Key, index, leaf: Key := region[..32], U64At(region[32..40]), region[40..72];
    var path := region[MERKLE_HEADER..];
    var depth := |path| / KEY_BYTES;
    IndexShift(index, depth);
    if path == [] || (depth < 64 && Shifted(index, depth) != 0) || depth > 64 {
      return Ok(false);
    }
    var node := ClimbPath(p, leaf, index, path);
    return Ok(node == root);
  }

  lemma IndexShift(index: u64, depth: nat)
    ensures Shifted(index, depth) == 0 <==> index < Pow2(depth)
    ensures depth >= 64 ==> index < Pow2(depth)
  {
    hide Pow2;
    ShiftedOut(index, depth);
    Pow2Of64();
    if depth >= 64 {
      Pow2Monotone(64, depth);
    }
  }
}
