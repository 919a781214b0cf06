/** What a Merkle claim proves about the tree whose root it names. */
module Merkle {
  import opened Bytes
  import opened Isa
  import opened Machines
  import opened Crypto
  import opened Local

  datatype Tree = Leaf(key: Key) | Node(left: Tree, right: Tree)

  predicate Perfect(t: Tree, depth: nat) {
    match t
    case Leaf(_) => depth == 0
    case Node(l, r) => depth > 0 && Perfect(l, depth - 1) && Perfect(r, depth - 1)
  }

  function Leaves(t: Tree): seq<Key> {
    match t
    case Leaf(k) => [k]
    case Node(l, r) => Leaves(l) + Leaves(r)
  }

  function Root(sha3: seq<byte> -> Key, t: Tree): Key
    decreases t, 1
  {
    sha3(RootInput(sha3, t))
  }

  /** What is hashed to give the root: a leaf behind a zero byte, or two roots behind a one. */
  function RootInput(sha3: seq<byte> -> Key, t: Tree): seq<byte>
    decreases t, 0
  {
    match t
    case Leaf(k) => [0] + k
    case Node(l, r) => [1] + Root(sha3, l) + Root(sha3, r)
  }

  /** The root of a list of leaves, as whoever built the tree computed it: of one leaf, the digest of a
      zero byte and the leaf; of more, the digest of a one and the roots of the two halves. */
  function RootOf(sha3: seq<byte> -> Key, leaves: seq<Key>): Key
    requires leaves != []
    decreases |leaves|
  {
    if |leaves| == 1 then sha3([0] + leaves[0])
    else sha3([1] + RootOf(sha3, leaves[..|leaves| / 2]) + RootOf(sha3, leaves[|leaves| / 2..]))
  }

  lemma {:induction false} RootIsRootOf(sha3: seq<byte> -> Key, t: Tree, depth: nat)
    requires Perfect(t, depth)
    ensures |Leaves(t)| == Pow2(depth) && Root(sha3, t) == RootOf(sha3, Leaves(t))
    decreases depth
  {
    LeavesCount(t, depth);
    if t.Node? {
      LeavesCount(t.left, depth - 1);
      LeavesCount(t.right, depth - 1);
      RootIsRootOf(sha3, t.left, depth - 1);
      RootIsRootOf(sha3, t.right, depth - 1);
      var leaves, half := Leaves(t), Pow2(depth - 1);
      assert leaves[..half] == Leaves(t.left) && leaves[half..] == Leaves(t.right);
      assert |leaves| / 2 == half && |leaves| != 1;
    }
  }

  /** Every list of 2^depth leaves has its tree, so the results below are about every such list. */
  function TreeOf(leaves: seq<Key>): Tree
    requires leaves != []
    decreases |leaves|
  {
    if |leaves| == 1 then Leaf(leaves[0])
    else Node(TreeOf(leaves[..|leaves| / 2]), TreeOf(leaves[|leaves| / 2..]))
  }

  lemma {:induction false} TreeOfLeaves(leaves: seq<Key>, depth: nat)
    requires |leaves| == Pow2(depth)
    ensures Perfect(TreeOf(leaves), depth) && Leaves(TreeOf(leaves)) == leaves
    decreases depth
  {
    if depth > 0 {
      var half := |leaves| / 2;
      assert |leaves| == 2 * Pow2(depth - 1);
      TreeOfLeaves(leaves[..half], depth - 1);
      TreeOfLeaves(leaves[half..], depth - 1);
      assert leaves == leaves[..half] + leaves[half..];
    }
  }

  /** The leaf reached by taking the bits of `index` from bit `depth - 1` down. */
  function LeafAt(t: Tree, depth: nat, index: nat): Key
    requires Perfect(t, depth)
    decreases depth
  {
    if t.Leaf? then t.key
    else LeafAt(if Bit(index, depth - 1) == 0 then t.left else t.right, depth - 1, index)
  }

  /** The true authentication path, lowest sibling first. */
  function AuthPath(sha3: seq<byte> -> Key, t: Tree, depth: nat, index: nat): (path: seq<Key>)
    requires Perfect(t, depth)
    ensures |path| == depth
    decreases depth
  {
    if t.Leaf? then []
    else if Bit(index, depth - 1) == 0 then
      AuthPath(sha3, t.left, depth - 1, index) + [Root(sha3, t.right)]
    else
      AuthPath(sha3, t.right, depth - 1, index) + [Root(sha3, t.left)]
  }

  lemma {:induction false} LeavesCount(t: Tree, depth: nat)
    requires Perfect(t, depth)
    ensures |Leaves(t)| == Pow2(depth)
  {
    if t.Node? {
      LeavesCount(t.left, depth - 1);
      LeavesCount(t.right, depth - 1);
    }
  }

  /** Taking 2^m off an index leaves its lower bits alone. */
  lemma {:induction false} BitBelow(index: nat, m: nat, level: nat)
    requires Pow2(m) <= index && level < m
    ensures Bit(index - Pow2(m), level) == Bit(index, level)
    decreases level
  {
    if level > 0 {
      BitBelow(index / 2, m - 1, level - 1);
    }
  }

  /** The top bit of an in-range index says which half of the leaves it falls in. */
  lemma {:induction false} TopBit(index: nat, depth: nat)
    requires depth > 0 && index < Pow2(depth)
    ensures Bit(index, depth - 1) == 0 <==> index < Pow2(depth - 1)
    decreases depth
  {
    if depth > 1 {
      TopBit(index / 2, depth - 1);
    }
  }

  lemma {:induction false} LeafAtIgnoresHighBits(t: Tree, depth: nat, index: nat, other: nat)
    requires Perfect(t, depth)
    requires forall level | 0 <= level < depth :: Bit(index, level) == Bit(other, level)
    ensures LeafAt(t, depth, index) == LeafAt(t, depth, other)
    decreases depth
  {
    hide Bit;
    if t.Node? {
      LeafAtIgnoresHighBits(if Bit(index, depth - 1) == 0 then t.left else t.right, depth - 1, index, other);
    }
  }

  /** Reading an index by its bits is reading the leaves from left to right. */
  lemma {:induction false} LeafAtIsLeaf(t: Tree, depth: nat, index: nat)
    requires Perfect(t, depth) && index < Pow2(depth)
    ensures |Leaves(t)| == Pow2(depth) && LeafAt(t, depth, index) == Leaves(t)[index]
    decreases depth
  {
    hide Bit;
    LeavesCount(t, depth);
    if t.Node? {
      LeavesCount(t.left, depth - 1);
      TopBit(index, depth);
      var half := Pow2(depth - 1);
      if index < half {
        LeafAtIsLeaf(t.left, depth - 1, index);
      } else {
        forall level | 0 <= level < depth - 1
          ensures Bit(index, level) == Bit(index - half, level)
        {
          BitBelow(index, depth - 1, level);
        }
        LeafAtIgnoresHighBits(t.right, depth - 1, index, index - half);
        LeafAtIsLeaf(t.right, depth - 1, index - half);
      }
    }
  }

  /** Completeness: the true path leads from the true leaf to the root. */
  lemma {:induction false} TruePathClimbs(sha3: seq<byte> -> Key, t: Tree, depth: nat, index: nat)
    requires Perfect(t, depth)
    ensures Climb(sha3, LeafAt(t, depth, index), index, AuthPath(sha3, t, depth, index)) == Root(sha3, t)
    decreases depth
  {
    hide Bit;
    if t.Node? {
      var left := Bit(index, depth - 1) == 0;
      var child := if left then t.left else t.right;
      TruePathClimbs(sha3, child, depth - 1, index);
      var path := AuthPath(sha3, t, depth, index);
      assert path[..depth - 1] == AuthPath(sha3, child, depth - 1, index);
    }
  }

  /** Everything hashed to build the tree. */
  function TreeInputs(sha3: seq<byte> -> Key, t: Tree): set<seq<byte>> {
    {RootInput(sha3, t)} + if t.Leaf? then {} else TreeInputs(sha3, t.left) + TreeInputs(sha3, t.right)
  }

  /** What the climb hashes last. */
  function ClimbInput(sha3: seq<byte> -> Key, leaf: Key, index: nat, path: seq<Key>): seq<byte> {
    if path == [] then LeafInput(leaf)
    else
      var top := |path| - 1;
      Pair(index, top, Climb(sha3, leaf, index, path[..top]), path[top])
  }

  /** Everything the opcode hashes while it climbs. */
  function ClimbInputs(sha3: seq<byte> -> Key, leaf: Key, index: nat, path: seq<Key>): set<seq<byte>>
    decreases |path|
  {
    {ClimbInput(sha3, leaf, index, path)} +
    if path == [] then {} else ClimbInputs(sha3, leaf, index, path[..|path| - 1])
  }

  datatype Judgement =
    | TrueClaim
    | Collision(ofTree: seq<byte>, ofClimb: seq<byte>)

  lemma NodeInputInjective(a: Key, b: Key, c: Key, d: Key)
    requires NodeInput(a, b) == NodeInput(c, d)
    ensures a == c && b == d
  {
    assert a == NodeInput(a, b)[1..33] && c == NodeInput(c, d)[1..33];
    assert b == NodeInput(a, b)[33..] && d == NodeInput(c, d)[33..];
  }

  lemma LeafInputInjective(a: Key, b: Key)
    requires LeafInput(a) == LeafInput(b)
    ensures a == b
  {
    assert a == LeafInput(a)[1..] && b == LeafInput(b)[1..];
  }

  /** Soundness by reduction: a climb that ends at the root of `t`, whatever its length, is the
      true one or shows two distinct inputs, one hashed for the tree and one by the climb, with
      one digest. */
  lemma {:induction false} Judged(sha3: seq<byte> -> Key, t: Tree, depth: nat, leaf: Key, index: nat, path: seq<Key>)
    returns (v: Judgement)
    requires Perfect(t, depth) && Climb(sha3, leaf, index, path) == Root(sha3, t)
    ensures v.TrueClaim? ==>
              |path| == depth && leaf == LeafAt(t, depth, index) && path == AuthPath(sha3, t, depth, index)
    ensures v.Collision? ==>
              && v.ofTree != v.ofClimb && sha3(v.ofTree) == sha3(v.ofClimb)
              && v.ofTree in TreeInputs(sha3, t)
              && v.ofClimb in ClimbInputs(sha3, leaf, index, path)
    decreases t
  {
    hide Bit;
    var x, y := RootInput(sha3, t), ClimbInput(sha3, leaf, index, path);
    if x != y {
      return Collision(x, y);
    }
    assert x[0] == y[0];
    if t.Leaf? {
      LeafInputInjective(t.key, leaf);
      return TrueClaim;
    }
    var top := |path| - 1;
    var below := Climb(sha3, leaf, index, path[..top]);
    var left := Bit(index, top) == 0;
    var child := if left then t.left else t.right;
    if left {
      NodeInputInjective(Root(sha3, t.left), Root(sha3, t.right), below, path[top]);
    } else {
      NodeInputInjective(Root(sha3, t.left), Root(sha3, t.right), path[top], below);
    }
    v := Judged(sha3, child, depth - 1, leaf, index, path[..top]);
    if v.TrueClaim? {
      assert top == depth - 1;
      assert path == path[..top] + [path[top]];
    }
  }

  /** A path laid out flat. */
  function Flat(path: seq<Key>): (s: seq<byte>)
    ensures |s| == |path| * KEY_BYTES
  {
    if path == [] then [] else Flat(path[..|path| - 1]) + path[|path| - 1]
  }

  lemma {:induction false} SiblingsOfFlat(path: seq<Key>)
    ensures Siblings(Flat(path)) == path
  {
    if path != [] {
      var top := |path| - 1;
      var s := Flat(path);
      assert s[..|s| - KEY_BYTES] == Flat(path[..top]);
      assert s[|s| - KEY_BYTES..] == path[top];
      SiblingsOfFlat(path[..top]);
    }
  }

  function ClaimBytes(root: Key, index: u64, leaf: Key, path: seq<Key>): seq<byte> {
    root + ToBE(index, 8) + leaf + Flat(path)
  }

  lemma ClaimParses(root: Key, index: u64, leaf: Key, path: seq<Key>)
    ensures ParseClaim(ClaimBytes(root, index, leaf, path)) == Some(Claim(root, index, leaf, Flat(path)))
  {
    hide ToBE, FromBE;
    WordSizes();
    FromToBE(index, 8);
    var s := ClaimBytes(root, index, leaf, path);
    assert s[..32] == root && s[32..40] == ToBE(index, 8) && s[40..72] == leaf && s[72..] == Flat(path);
  }

  /** Every leaf of every perfect tree of depth 1 to 64 verifies with its own path. */
  lemma TrueClaimAccepted(p: Prims, t: Tree, depth: nat, index: u64)
    requires Perfect(t, depth) && 1 <= depth <= 64 && index < Pow2(depth)
    ensures |Leaves(t)| == Pow2(depth)
    ensures MerkleRegion(p, ClaimBytes(Root(p.sha3, t), index, Leaves(t)[index],
                                       AuthPath(p.sha3, t, depth, index))) == Ok(true)
  {
    hide Pow2, Bit, ClaimBytes, ParseClaim, Flat, Siblings, AuthPath, Climb, LeafAt;
    LeafAtIsLeaf(t, depth, index);
    var path := AuthPath(p.sha3, t, depth, index);
    ClaimParses(Root(p.sha3, t), index, Leaves(t)[index], path);
    SiblingsOfFlat(path);
    TruePathClimbs(p.sha3, t, depth, index);
  }

  /** An accepted claim about the root of a perfect tree states its true depth, an index inside
      it, the leaf at that index and the true path, or yields an explicit collision. */
  lemma AcceptedClaimIsTrue(p: Prims, t: Tree, depth: nat, claim: Claim) returns (v: Judgement)
    requires Perfect(t, depth) && |claim.path| % KEY_BYTES == 0
    requires MerkleAccepts(p.sha3, claim) && claim.root == Root(p.sha3, t)
    ensures v.TrueClaim? ==>
              && |claim.path| == depth * KEY_BYTES
              && claim.index < Pow2(depth) == |Leaves(t)|
              && claim.leaf == Leaves(t)[claim.index]
              && Siblings(claim.path) == AuthPath(p.sha3, t, depth, claim.index)
    ensures v.Collision? ==>
              && v.ofTree != v.ofClimb && p.sha3(v.ofTree) == p.sha3(v.ofClimb)
              && v.ofTree in TreeInputs(p.sha3, t)
              && v.ofClimb in ClimbInputs(p.sha3, claim.leaf, claim.index, Siblings(claim.path))
  {
    hide Pow2, Bit;
    v := Judged(p.sha3, t, depth, claim.leaf, claim.index, Siblings(claim.path));
    if v.TrueClaim? {
      LeafAtIsLeaf(t, depth, claim.index);
    }
  }

  // ---- The opcode ----

  /** The tree a list of 2^depth leaves makes has the list's root. */
  lemma RootOfTree(sha3: seq<byte> -> Key, leaves: seq<Key>, depth: nat)
    requires |leaves| == Pow2(depth)
    ensures Perfect(TreeOf(leaves), depth) && Leaves(TreeOf(leaves)) == leaves
    ensures Root(sha3, TreeOf(leaves)) == RootOf(sha3, leaves)
  {
    hide Pow2, RootOf, Root, TreeOf;
    TreeOfLeaves(leaves, depth);
    RootIsRootOf(sha3, TreeOf(leaves), depth);
  }

  /** The opcode writes 1 for a true claim laid out in memory, at every index of every list of two to
      2^64 leaves: the root, the index, the leaf there and its path. */
  lemma OpcodeAcceptsTrueClaims(p: Prims, m: Mach, a: Reg, b: Reg, c: Reg, leaves: seq<Key>, depth: nat, index: u64)
    requires |leaves| == Pow2(depth) && 1 <= depth <= 64 && index < |leaves|
    requires Perfect(TreeOf(leaves), depth)
    requires Region(m.mem, m.regs[a], m.regs[b]) ==
             Some(RootOf(p.sha3, leaves) + ToBE(index, 8) + leaves[index]
                  + Flat(AuthPath(p.sha3, TreeOf(leaves), depth, index)))
    ensures CryptoStep(p, m, MerkleVerify(a, b, c)) == Ok(SetReg(m, c, 1))
  {
    hide Perfect, Pow2, Root, RootOf, TreeOf, AuthPath, Region, MerkleRegion, ToBE, Leaves, Flat;
    RootOfTree(p.sha3, leaves, depth);
    TrueClaimAccepted(p, TreeOf(leaves), depth, index);
  }

  /** Whenever the opcode writes 1 against the root of a list of 2^depth leaves, what it read is the
      truth about that list, or a collision between the tree's hashing and its own is at hand. */
  lemma OpcodeAcceptsOnlyTruth(p: Prims, m: Mach, a: Reg, b: Reg, c: Reg, leaves: seq<Key>, depth: nat)
    returns (claim: Claim, v: Judgement)
    requires |leaves| == Pow2(depth) && Perfect(TreeOf(leaves), depth)
    requires var r := CryptoStep(p, m, MerkleVerify(a, b, c)); r.Ok? && r.value.regs[c] == 1
    requires Region(m.mem, m.regs[a], m.regs[b]).Some? && |Region(m.mem, m.regs[a], m.regs[b]).value| >= 32
    requires Region(m.mem, m.regs[a], m.regs[b]).value[..32] == RootOf(p.sha3, leaves)
    ensures var region := Region(m.mem, m.regs[a], m.regs[b]).value;
            && |region| >= 72 && (|region| - 72) % 32 == 0
            && region == claim.root + ToBE(claim.index, 8) + claim.leaf + claim.path
    ensures v.TrueClaim? ==>
              && 1 <= depth <= 64
              && |claim.path| == depth * KEY_BYTES
              && claim.index < |leaves|
              && claim.leaf == leaves[claim.index]
              && claim.path == Flat(AuthPath(p.sha3, TreeOf(leaves), depth, claim.index))
    ensures v.Collision? ==>
              && v.ofTree != v.ofClimb && p.sha3(v.ofTree) == p.sha3(v.ofClimb)
              && v.ofTree in TreeInputs(p.sha3, TreeOf(leaves))
              && |claim.path| % KEY_BYTES == 0
              && v.ofClimb in ClimbInputs(p.sha3, claim.leaf, claim.index, Siblings(claim.path))
  {
    hide Perfect, Pow2, Root, RootOf, TreeOf, AuthPath, Region, Siblings, ClimbInputs, TreeInputs, Climb, ToBE, Flat;
    var region := Region(m.mem, m.regs[a], m.regs[b]).value;
    claim := ParseClaim(region).value;
    ParsedClaim(region);
    RootOfTree(p.sha3, leaves, depth);
    v := AcceptedClaimIsTrue(p, TreeOf(leaves), depth, claim);
    if v.TrueClaim? {
      FlatOfSiblings(claim.path);
    }
  }

  lemma ParsedClaim(region: seq<byte>)
    requires ParseClaim(region).Some?
    ensures var claim := ParseClaim(region).value;
            region == claim.root + ToBE(claim.index, 8) + claim.leaf + claim.path
  {
    hide ToBE, FromBE;
    ToFromBE(region[32..40]);
  }

  lemma {:induction false} FlatOfSiblings(bytes: seq<byte>)
    requires |bytes| % KEY_BYTES == 0
    ensures Flat(Siblings(bytes)) == bytes
    decreases |bytes|
  {
    if bytes != [] {
      var cut := |bytes| - KEY_BYTES;
      FlatOfSiblings(bytes[..cut]);
      var path := Siblings(bytes);
      assert path[..|path| - 1] == Siblings(bytes[..cut]);
      assert bytes == bytes[..cut] + bytes[cut..];
    }
  }

  /** The opcode refuses, whatever the hashes, a claim with no path, with more than 64 levels, or with
      an index past the leaves its path length allows; and reports a region of any other shape. */
  lemma OpcodeRefuses(p: Prims, m: Mach, a: Reg, b: Reg, c: Reg)
    requires Region(m.mem, m.regs[a], m.regs[b]).Some?
    ensures var region, r := Region(m.mem, m.regs[a], m.regs[b]).value, CryptoStep(p, m, MerkleVerify(a, b, c));
            && (r == Err(BadMemory) <==> |region| < 72 || (|region| - 72) % 32 != 0)
            && (|region| >= 72 && (|region| - 72) % 32 == 0 ==>
                  var depth := (|region| - 72) / 32;
                  && r.Ok? && (r.value == SetReg(m, c, 0) || r.value == SetReg(m, c, 1))
                  && (depth == 0 || depth > 64 || U64At(region[32..40]) >= Pow2(depth) ==>
                        r == Ok(SetReg(m, c, 0))))
  {
    hide Pow2, Climb, FromBE;
  }
}
