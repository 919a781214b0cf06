/** The linear sweep that fixes which offsets a program may jump to. */
module Sweep {
  import opened Bytes
  import opened Isa

  /** The offsets below 2^32 at which the linear decode from `pc` finds an instruction. */
  function Starts(code: seq<byte>, pc: nat): set<nat>
    decreases |code| - pc
  {
    if pc < |code| && pc < TWO32 && DecodeAt(code, pc).Ok? then
      {pc} + Starts(code, pc + DecodeAt(code, pc).value.1)
    else {}
  }

  function Boundaries(code: seq<byte>): set<nat> {
    Starts(code, 0)
  }

  lemma {:induction false} StartsDecode(code: seq<byte>, pc: nat, b: nat)
    requires b in Starts(code, pc)
    ensures pc <= b < |code| && b < TWO32 && DecodeAt(code, b).Ok?
    decreases |code| - pc
  {
    hide DecodeAt;
    if b != pc {
      StartsDecode(code, pc + DecodeAt(code, pc).value.1, b);
    }
  }

  /** Past a boundary lies the next boundary, or the place where the sweep stops. */
  lemma {:induction false} StartsStep(code: seq<byte>, pc: nat, b: nat)
    requires b in Starts(code, pc)
    ensures DecodeAt(code, b).Ok?
    ensures var next := b + DecodeAt(code, b).value.1;
            next < TWO32 ==> next in Starts(code, pc) || next == StopOf(code, pc)
    decreases |code| - pc
  {
    hide DecodeAt;
    if b != pc {
      StartsStep(code, pc + DecodeAt(code, pc).value.1, b);
    }
  }

  /** Swept instructions do not overlap. */
  lemma {:induction false} StartsApart(code: seq<byte>, pc: nat, a: nat, b: nat)
    requires a in Starts(code, pc) && b in Starts(code, pc) && a < b
    ensures DecodeAt(code, a).Ok? && a + DecodeAt(code, a).value.1 <= b
    decreases |code| - pc
  {
    hide DecodeAt;
    var next := pc + DecodeAt(code, pc).value.1;
    if a == pc {
      StartsDecode(code, next, b);
    } else {
      StartsDecode(code, next, a);
      StartsApart(code, next, a, b);
    }
  }

  lemma {:induction false} StopDoesNotDecode(code: seq<byte>, pc: nat)
    requires pc <= |code|
    ensures pc <= StopOf(code, pc) <= |code|
    ensures StopOf(code, pc) < |code| ==> DecodeAt(code, StopOf(code, pc)).Err?
    decreases |code| - pc
  {
    hide DecodeAt, Encode;
    if pc < |code| && DecodeAt(code, pc).Ok? {
      var (i, n) := DecodeAt(code, pc).value;
      DecodeExact(code, pc, i, n);
      StopDoesNotDecode(code, pc + n);
    }
  }

  lemma {:induction false} ListingAhead(code: seq<byte>, pc: nat, k: nat)
    requires k < |Listing(code, pc)|
    ensures var p := Listing(code, pc)[k];
            && pc + k <= p.at < |code|
            && DecodeAt(code, p.at).Ok? && DecodeAt(code, p.at).value.0 == p.instr
    ensures k + 1 < |Listing(code, pc)| ==>
              Listing(code, pc)[k + 1].at
              == Listing(code, pc)[k].at + DecodeAt(code, Listing(code, pc)[k].at).value.1
    decreases k
  {
    hide DecodeAt;
    if k > 0 {
      ListingAhead(code, pc + DecodeAt(code, pc).value.1, k - 1);
    }
  }

  /** Some listed instruction stands at `x`. */
  ghost predicate ListedAt(list: seq<Placed>, x: nat) {
    exists j | 0 <= j < |list| :: list[j].at == x
  }

  lemma ListedAtPrepend(p: Placed, rest: seq<Placed>, x: nat)
    ensures ListedAt([p] + rest, x) <==> p.at == x || ListedAt(rest, x)
  {
    var list := [p] + rest;
    assert list[0] == p && forall j | 0 <= j < |rest| :: rest[j] == list[j + 1];
    if ListedAt(list, x) && p.at != x {
      var j :| 0 <= j < |list| && list[j].at == x;
      assert rest[j - 1].at == x;
    }
    if ListedAt(rest, x) {
      var j :| 0 <= j < |rest| && rest[j].at == x;
      assert list[j + 1].at == x;
    }
  }

  /** One step of the sweep and of the listing. */
  lemma SweepStep(code: seq<byte>, pc: nat)
    requires pc < |code| && DecodeAt(code, pc).Ok?
    ensures var (i, n) := DecodeAt(code, pc).value;
            && Listing(code, pc) == [Placed(pc, i)] + Listing(code, pc + n)
            && Starts(code, pc) == if pc < TWO32 then {pc} + Starts(code, pc + n) else {}
  {
    hide DecodeAt;
  }

  lemma ListedAhead(code: seq<byte>, pc: nat, b: nat)
    requires ListedAt(Listing(code, pc), b)
    ensures pc <= b < |code|
  {
    hide DecodeAt, Listing;
    var k :| 0 <= k < |Listing(code, pc)| && Listing(code, pc)[k].at == b;
    ListingAhead(code, pc, k);
  }

  /** The boundaries below 2^32 are the offsets of the listing. */
  lemma {:induction false} StartsAreListed(code: seq<byte>, pc: nat, b: nat)
    ensures b in Starts(code, pc) <==> b < TWO32 && ListedAt(Listing(code, pc), b)
    decreases |code| - pc
  {
    hide DecodeAt, ListedAt;
    if pc < |code| && DecodeAt(code, pc).Ok? {
      var (i, n) := DecodeAt(code, pc).value;
      SweepStep(code, pc);
      StartsAreListed(code, pc + n, b);
      ListedAtPrepend(Placed(pc, i), Listing(code, pc + n), b);
      if ListedAt(Listing(code, pc), b) {
        ListedAhead(code, pc, b);
      }
    } else {
      NothingListed();
    }
  }

  lemma NothingListed()
    ensures forall x :: !ListedAt([], x)
  {
  }

  /** The sweep loop of the interpreter's constructor. */
  method SweepBoundaries(code: seq<byte>) returns (found: set<nat>)
    ensures found == Boundaries(code)
  {
    hide DecodeAt, Encode;
    found := {};
    var pc := 0;
    while pc < |code|
      invariant 0 <= pc <= |code|
      invariant Boundaries(code) == found + Starts(code, pc)
      decreases |code| - pc
    {
      if pc >= TWO32 {
        return;
      }
      var r := Decode(code, pc);
      if r.Err? {
        return;
      }
      DecodeExact(code, pc, r.value.0, r.value.1);
      found := found + {pc};
      pc := pc + r.value.1;
    }
  }
}
