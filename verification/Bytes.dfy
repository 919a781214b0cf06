/** Machine words, storage keys and the big-endian byte encoding every other module uses. */
module Bytes {
  const TWO16: int := 0x1_0000
  const TWO32: int := 0x1_0000_0000
  const TWO48: int := 0x1_0000_0000_0000
  const TWO64: int := 0x1_0000_0000_0000_0000

  type byte = x: int | 0 <= x < 256
  type u16 = x: int | 0 <= x < TWO16
  type u32 = x: int | 0 <= x < TWO32
  type u64 = x: int | 0 <= x < TWO64

  const KEY_BYTES := 32

  /** A storage key, and equally a 32-byte digest. */
  type Key = k: seq<byte> | |k| == KEY_BYTES witness seq(KEY_BYTES, i => 0)

  datatype Option<+T> = None | Some(value: T)

  datatype Result<+R, +E> = Ok(value: R) | Err(error: E) {
    predicate IsFailure() {
      Err?
    }

    function PropagateFailure<U>(): Result<U, E>
      requires Err?
    {
      Err(error)
    }

    function Extract(): R
      requires Ok?
    {
      value
    }
  }

  /** A truth value as a machine word. */
  function Flag(b: bool): u64 {
    if b then 1 else 0
  }

  function Pow2(n: nat): (r: nat)
    ensures r > 0
  {
    if n == 0 then 1 else 2 * Pow2(n - 1)
  }

  function Pow256(n: nat): (r: nat)
    ensures r > 0
  {
    if n == 0 then 1 else 256 * Pow256(n - 1)
  }

  lemma {:induction false} Pow2Monotone(a: nat, b: nat)
    requires a <= b
    ensures Pow2(a) <= Pow2(b)
    decreases b
  {
    if a < b {
      Pow2Monotone(a, b - 1);
    }
  }

  lemma {:induction false} Pow2Add(a: nat, b: nat)
    ensures Pow2(a + b) == Pow2(a) * Pow2(b)
  {
    if a > 0 {
      Pow2Add(a - 1, b);
      assert Pow2(a) * Pow2(b) == 2 * (Pow2(a - 1) * Pow2(b));
    }
  }

  lemma Pow2Of8()
    ensures Pow2(8) == 256
  {
  }

  lemma Pow2Of64()
    ensures Pow2(64) == TWO64
  {
    hide Pow2;
    Pow2Of8();
    Pow2Add(8, 8);
    Pow2Add(16, 16);
    Pow2Add(32, 32);
  }

  /** The right shift of `x` by `n` bits. */
  function Shifted(x: nat, n: nat): nat
    decreases n
  {
    if n == 0 then x else Shifted(x / 2, n - 1)
  }

  lemma {:induction false} ShiftedOut(x: nat, n: nat)
    ensures Shifted(x, n) == 0 <==> x < Pow2(n)
    decreases n
  {
    if n > 0 {
      ShiftedOut(x / 2, n - 1);
    }
  }

  /** The low `n` base-256 digits of `v`, most significant first. */
  function ToBE(v: nat, n: nat): (s: seq<byte>)
    ensures |s| == n
  {
    if n == 0 then [] else ToBE(v / 256, n - 1) + [v % 256]
  }

  function FromBE(s: seq<byte>): (v: nat)
    ensures v < Pow256(|s|)
  {
    if s == [] then 0 else FromBE(s[..|s| - 1]) * 256 + s[|s| - 1]
  }

  /** Byte `j` of `n` holds the bits from 8 * (n - 1 - j) up: the most significant byte comes first. */
  lemma {:induction false} BigEndian(v: nat, n: nat, j: nat)
    requires j < n
    ensures ToBE(v, n)[j] == Shifted(v, 8 * (n - 1 - j)) % 256
    decreases n
  {
    if j < n - 1 {
      BigEndian(v / 256, n - 1, j);
      ShiftByte(v, 8 * (n - 2 - j));
    }
  }

  lemma ShiftByte(v: nat, n: nat)
    ensures Shifted(v / 256, n) == Shifted(v, n + 8)
  {
    assert Shifted(v, n + 8) == Shifted(v / 2 / 2 / 2 / 2, n + 4) by {
      assert Shifted(v, n + 8) == Shifted(v / 2, n + 7);
      assert Shifted(v / 2, n + 7) == Shifted(v / 2 / 2, n + 6);
      assert Shifted(v / 2 / 2, n + 6) == Shifted(v / 2 / 2 / 2, n + 5);
    }
    var h := v / 16;
    assert Shifted(h, n + 4) == Shifted(h / 2 / 2 / 2 / 2, n) by {
      assert Shifted(h, n + 4) == Shifted(h / 2, n + 3);
      assert Shifted(h / 2, n + 3) == Shifted(h / 2 / 2, n + 2);
      assert Shifted(h / 2 / 2, n + 2) == Shifted(h / 2 / 2 / 2, n + 1);
    }
  }

  lemma {:induction false} FromToBE(v: nat, n: nat)
    requires v < Pow256(n)
    ensures FromBE(ToBE(v, n)) == v
  {
    if n > 0 {
      FromToBE(v / 256, n - 1);
      var s := ToBE(v, n);
      assert s[..|s| - 1] == ToBE(v / 256, n - 1);
    }
  }

  lemma {:induction false} ToFromBE(s: seq<byte>)
    ensures ToBE(FromBE(s), |s|) == s
  {
    if s != [] {
      ToFromBE(s[..|s| - 1]);
      assert FromBE(s) / 256 == FromBE(s[..|s| - 1]);
      assert s == s[..|s| - 1] + [s[|s| - 1]];
    }
  }

  lemma WordSizes()
    ensures Pow256(2) == TWO16 && Pow256(4) == TWO32 && Pow256(8) == TWO64
  {
  }

  function U16At(s: seq<byte>): u16
    requires |s| == 2
  {
    WordSizes();
    FromBE(s)
  }

  function U32At(s: seq<byte>): u32
    requires |s| == 4
  {
    WordSizes();
    FromBE(s)
  }

  function U64At(s: seq<byte>): u64
    requires |s| == 8
  {
    WordSizes();
    FromBE(s)
  }

  /** A 32-byte key holding one declared slot number in its last eight bytes. */
  function ScalarKey(slot: u64): Key {
    seq(24, i => 0) + ToBE(slot, 8)
  }

  /** The key of a slot is the slot as a 32-byte big-endian number. */
  lemma ScalarKeyIsNumber(slot: u64)
    ensures FromBE(ScalarKey(slot)) == slot && ToBE(slot, 32) == ScalarKey(slot)
  {
    hide ToBE, FromBE;
    WordSizes();
    LeadingZeros(slot, 8, 24);
    assert Pow256(32) >= Pow256(8) by { Pow256Grows(8, 24); }
    FromToBE(slot, 32);
  }

  lemma {:induction false} Pow256Grows(n: nat, z: nat)
    ensures Pow256(n + z) >= Pow256(n)
  {
    if z > 0 {
      Pow256Grows(n, z - 1);
    }
  }

  lemma {:induction false} LeadingZeros(v: nat, n: nat, z: nat)
    requires v < Pow256(n)
    ensures ToBE(v, n + z) == seq(z, i => 0) + ToBE(v, n)
    decreases n
  {
    if n == 0 {
      AllZeros(z);
    } else {
      LeadingZeros(v / 256, n - 1, z);
      assert ToBE(v, n + z) == ToBE(v / 256, n - 1 + z) + [v % 256];
    }
  }

  lemma {:induction false} AllZeros(z: nat)
    ensures ToBE(0, z) == seq(z, i => 0)
  {
    if z > 0 {
      AllZeros(z - 1);
    }
  }

  lemma ScalarKeyInjective(a: u64, b: u64)
    requires ScalarKey(a) == ScalarKey(b)
    ensures a == b
  {
    WordSizes();
    assert ToBE(a, 8) == ScalarKey(a)[24..];
    assert ToBE(b, 8) == ScalarKey(b)[24..];
    FromToBE(a, 8);
    FromToBE(b, 8);
  }
}
