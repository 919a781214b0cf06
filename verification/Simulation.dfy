/** What rewriting abort stubs does to runs. */
module Simulation {
  import opened Bytes
  import opened Isa
  import opened Sweep
  import opened Meter
  import opened Machines
  import opened Crypto
  import opened Local
  import opened Semantics
  import opened Metering
  import opened Deploy
  import opened Safety
  import opened Abort

  /** The same world running the rewritten code. */
  function Rewritten(w: World): World
    requires HaltingStubs(w.code).Some?
  {
    w.(code := HaltingStubs(w.code).value)
  }

  /** The next instruction would jump past the first byte of a patched division. */
  predicate JumpsInside(w: World, c: Ctl) {
    && Fetched(w, c).Ok?
    && IsLocal(Fetched(w, c).value.0)
    && var target := JumpTarget(c.m, Fetched(w, c).value.0);
       target.Some? && target.value < TWO32 && Inside(Sites(w.code), target.value)
  }

  lemma InsideIsNoBoundary(code: seq<byte>, x: nat)
    requires Inside(Sites(code), x)
    ensures x !in Boundaries(code)
  {
    hide DecodeAt, Listing, Sites, Starts;
    StartsAreListed(code, 0, x);
    var s := if x - 1 in Sites(code) then x - 1 else if x >= 2 && x - 2 in Sites(code) then x - 2 else x - 3;
    var k := SiteIsDiv(code, s);
    if j :| 0 <= j < |Listing(code, 0)| && Listing(code, 0)[j].at == x {
      if j < k + 2 {
        ListedApart(code, j, k + 2);
      } else if k + 2 < j {
        ListedApart(code, k + 2, j);
      }
      assert false;
    }
  }

  lemma BoundariesGrow(code: seq<byte>)
    requires HaltingStubs(code).Some?
    ensures var more := Boundaries(HaltingStubs(code).value);
            && Boundaries(code) <= more
            && forall x: nat | x < TWO32 :: x in more - Boundaries(code) <==> Inside(Sites(code), x)
  {
    hide Starts, Sites, HaltingStubs, Inside;
    forall x: nat ensures x in Boundaries(HaltingStubs(code).value) <==>
                          x in Boundaries(code) || (x < TWO32 && Inside(Sites(code), x))
    {
      PatchedBoundaries(code, x);
    }
    forall x: nat | Inside(Sites(code), x) ensures x !in Boundaries(code) {
      InsideIsNoBoundary(code, x);
    }
  }

  /** One instruction in the two worlds: the same, unless it jumps inside a patched division, which
      faults in the original and goes through in the rewritten code. */
  lemma MoveRewritten(w: World, c: Ctl, i: Instr, v: u64)
    requires HaltingStubs(w.code).Some?
    ensures var inside := IsLocal(i) && JumpTarget(c.m, i).Some? && JumpTarget(c.m, i).value < TWO32
                          && Inside(Sites(w.code), JumpTarget(c.m, i).value);
            && (!inside ==> Trans(Rewritten(w), c, i, v) == Trans(w, c, i, v))
            && (inside ==> Trans(w, c, i, v) == Fail(0, BadJump) && Trans(Rewritten(w), c, i, v).Go? &&
                           Trans(Rewritten(w), c, i, v).charge == 0)
  {
    hide StepLocal, Starts, Sites, HaltingStubs, SendMove, EmitMove, HashInto, KeyAt, PaysLeaf,
      PaysFresh, BaseOf, JumpTarget, Inside;
    BoundariesGrow(w.code);
    if IsLocal(i) {
      var more := Boundaries(Rewritten(w).code);
      MoreBounds(w.consts, Boundaries(w.code), more, w.prims, c.m, i);
      JumpGoes(w.consts, more, w.prims, c.m, i);
    }
  }

  lemma JumpGoes(consts: seq<u64>, bounds: set<nat>, p: Prims, m: Mach, i: Instr)
    requires IsLocal(i)
    ensures JumpTarget(m, i).Some? && JumpTarget(m, i).value < TWO32 && JumpTarget(m, i).value in bounds ==>
              StepLocal(consts, bounds, p, m, i).LocalGo? && StepLocal(consts, bounds, p, m, i).charge == 0
  {
    hide DataStep, CryptoStep;
  }

  /** Away from the sites both worlds fetch the same instruction. */
  lemma FetchRewritten(w: World, c: Ctl)
    requires HaltingStubs(w.code).Some? && OnSweep(w.code, c.m.pc) && c.m.pc !in Sites(w.code)
    ensures Fetched(Rewritten(w), c) == Fetched(w, c)
  {
    hide DecodeAt, Listing, Sites, Starts, StopOf;
    if c.m.pc in Boundaries(w.code) {
      StartsAreListed(w.code, 0, c.m.pc);
      var j :| 0 <= j < |Listing(w.code, 0)| && Listing(w.code, 0)[j].at == c.m.pc;
      PatchedElsewhere(w.code, j);
    } else {
      StopIsEnd(w.code);
      StopIsEnd(Rewritten(w).code);
    }
  }

  /** One turn away from the sites: the same in both worlds exactly when it does not end in a jump
      inside a patched division. */
  lemma StepRewritten(w: World, limit: nat, s: Config)
    requires HaltingStubs(w.code).Some? && OnSweep(w.code, s.c.m.pc) && s.c.m.pc !in Sites(w.code)
    ensures Next(Rewritten(w), limit, s) != Next(w, limit, s) <==>
            JumpsInside(w, s.c) && Next(w, limit, s) == Crash(BadJump)
            && s.c.m.pc + Fetched(w, s.c).value.1 < TWO32
    ensures JumpsInside(w, s.c) ==> Next(w, limit, s) == Crash(BadJump) || Next(w, limit, s) == Crash(OutOfMeter)
  {
    hide DecodeAt, Trans, Starts, Sites, StopOf, CostOf, HaltingStubs, Inside, JumpTarget, OnSweep;
    FetchRewritten(w, s.c);
    match Fetched(w, s.c)
    case Err(_) =>
    case Ok((i, n)) =>
      RowRewritten(w, s.c, i);
      if s.c.m.pc + n < TWO32 {
        var c1 := Advance(s.c, s.c.m.pc + n);
        MoveRewritten(w, c1, i, Seen(w, s));
        TargetIgnoresPc(s.c.m, c1.m.pc, i);
      }
  }

  lemma RowRewritten(w: World, c: Ctl, i: Instr)
    requires HaltingStubs(w.code).Some?
    ensures RowOf(Rewritten(w), c, i) == RowOf(w, c, i)
  {
    hide KeyAt, HaltingStubs;
  }

  lemma TargetIgnoresPc(m: Mach, pc: u32, i: Instr)
    ensures JumpTarget(m.(pc := pc), i) == JumpTarget(m, i)
  {
  }

  /** Lock step: up to the first patched division it reaches, a run of the original is a run of the
      rewritten code, state for state. */
  lemma {:induction false} LockStep(w: World, limit: nat, t: seq<Config>)
    requires HaltingStubs(w.code).Some? && IsRun(w, limit, t) && OnSweep(w.code, t[0].c.m.pc)
    requires forall k | 0 <= k < |t| - 1 :: t[k].c.m.pc !in Sites(w.code)
    ensures IsRun(Rewritten(w), limit, t) && OnSweep(w.code, Last(t).c.m.pc)
    decreases |t|
  {
    hide Next, OnSweep, Sites, HaltingStubs, JumpsInside;
    if |t| > 1 {
      var before := t[..|t| - 1];
      LockStep(w, limit, before);
      assert Next(w, limit, t[|t| - 2]) == More(t[|t| - 1]);
      StepRewritten(w, limit, Last(before));
      StepPc(w, limit, Last(before));
      ExtendRun(Rewritten(w), limit, before, Last(t));
      assert t == before + [Last(t)];
    }
  }

  /** At a patched division the rewritten code halts with everything but the program counter as it
      is, having charged nothing. */
  lemma SiteHalts(w: World, limit: nat, s: Config)
    requires HaltingStubs(w.code).Some? && s.c.m.pc in Sites(w.code) && s.used <= limit
    ensures Run(Rewritten(w), limit, s) ==
            if s.c.m.pc + 1 < TWO32 then Halts(s.(c := Advance(s.c, s.c.m.pc + 1))) else Faults(BadJump)
  {
    hide DecodeAt, Sites, Listing, StopOf, Trans;
    PatchedSite(w.code, s.c.m.pc);
    OnlyHaltIsFree(Halt);
    if s.c.m.pc + 1 < TWO32 {
      OnlyHaltStops(Rewritten(w), Advance(s.c, s.c.m.pc + 1), Halt, 0);
    }
  }

  /** A division of `d` by the register `b`, as the source takes it: the meter first, then the
      program counter, then the divisor. */
  function Divides(limit: nat, s: Config, d: Reg, b: Reg): Tick {
    var c := Advance(s.c, if s.c.m.pc + DIV_BYTES < TWO32 then s.c.m.pc + DIV_BYTES else 0);
    if s.used + 4 > limit then Crash(OutOfMeter)
    else if s.c.m.pc + DIV_BYTES >= TWO32 then Crash(BadJump)
    else if s.c.m.regs[b] == 0 then Crash(DivByZero)
    else More(s.(c := c.(m := SetReg(c.m, d, s.c.m.regs[d] / s.c.m.regs[b])), used := s.used + 4))
  }

  /** The register a patched division divides by in the original. */
  function Divisor(w: World, c: Ctl): Reg {
    if Fetched(w, c).Ok? && Fetched(w, c).value.0.Alu? then Fetched(w, c).value.0.b else ZERO_REG
  }

  /** What the original does at a patched division: with the meter covering it, it faults with a
      division by zero if the divisor is zero, and otherwise divides and goes on. */
  lemma OriginalDivides(w: World, limit: nat, s: Config)
    requires s.c.m.pc in Sites(w.code)
    ensures Next(w, limit, s) == Divides(limit, s, ABORT_REG, Divisor(w, s.c))
    ensures Divisor(w, s.c) == ZERO_REG || Divisor(w, s.c) == ABORT_REG
  {
    hide DecodeAt, Sites, Listing, StopOf, Starts, Encode;
    var k := SiteIsDiv(w.code, s.c.m.pc);
  }

  /** The first state of a run that stands at a patched division, if any. */
  function FirstSite(w: World, t: seq<Config>): (k: nat)
    ensures k <= |t|
    ensures forall j | 0 <= j < k :: t[j].c.m.pc !in Sites(w.code)
    ensures k < |t| ==> t[k].c.m.pc in Sites(w.code)
  {
    if t == [] || t[0].c.m.pc in Sites(w.code) then 0
    else
      var k := FirstSite(w, t[1..]);
      assert forall j | 1 <= j < k + 1 :: t[j] == t[1..][j - 1];
      k + 1
  }

  /** How the original goes on from the `k`-th state of its trace, at a patched division: it divides
      and has a next state, or that is its last and its fault is the division's. */
  predicate DividesAt(w: World, limit: nat, s: Config, k: nat)
    requires k < |Trace(w, limit, s)|
  {
    var t := Trace(w, limit, s);
    match Divides(limit, t[k], ABORT_REG, Divisor(w, t[k].c))
    case Crash(f) => k + 1 == |t| && Run(w, limit, s) == Faults(f)
    case More(next) => k + 1 < |t| && t[k + 1] == next
    case Done(_) => false
  }

  /** The run of the rewritten code against the original's: in lock step with it up to the first
      patched division it reaches, where the one halts unchanged and the other divides; or, when it
      reaches none, the same throughout but for a last jump inside a patched division. */
  predicate Simulates(w: World, limit: nat, s: Config)
    requires HaltingStubs(w.code).Some?
  {
    var t := Trace(w, limit, s);
    var k := FirstSite(w, t);
    if k < |t| then
      && IsRun(Rewritten(w), limit, t[..k + 1])
      && (Run(Rewritten(w), limit, s) ==
          if t[k].c.m.pc + 1 < TWO32 then Halts(t[k].(c := Advance(t[k].c, t[k].c.m.pc + 1)))
          else Faults(BadJump))
      && DividesAt(w, limit, s, k)
    else
      && IsRun(Rewritten(w), limit, t)
      && (Run(Rewritten(w), limit, s) == Run(w, limit, s) ||
          (Run(w, limit, s) == Faults(BadJump) && JumpsInside(w, Last(t).c)))
  }

  /** Stub rewriting is a simulation. If the original run reaches a patched division, the rewritten
      one runs in lock step up to the first such state and halts there unchanged, where the original
      faults with a division by zero, or divides by a divisor that is not zero and goes on. If it
      never does, both give the same result, unless the original ends with a bad jump inside a
      patched division. */
  lemma StubSimulation(w: World, limit: nat, s: Config)
    requires HaltingStubs(w.code).Some? && OnSweep(w.code, s.c.m.pc) && s.used <= limit
    ensures Simulates(w, limit, s)
  {
    hide Next, OnSweep, Sites, HaltingStubs, JumpsInside, DividesAt, Run, Trace;
    var w', t := Rewritten(w), Trace(w, limit, s);
    TraceIsRun(w, limit, s);
    var k := FirstSite(w, t);
    if k < |t| {
      var u := t[..k + 1];
      LockStep(w, limit, u);
      RunIsTracePrefix(w', limit, u);
      UsedStaysWithin(w, limit, u);
      SiteHalts(w, limit, Last(u));
      TraceDividesAt(w, limit, s, k);
    } else {
      LockStep(w, limit, t);
      RunIsTracePrefix(w', limit, t);
      StepRewritten(w, limit, Last(t));
      RunOfLast(w, limit, Last(t));
      if Next(w', limit, Last(t)) == Next(w, limit, Last(t)) {
        RunOfLast(w', limit, Last(t));
      }
    }
  }

  lemma TraceDividesAt(w: World, limit: nat, s: Config, k: nat)
    requires k < |Trace(w, limit, s)| && Trace(w, limit, s)[k].c.m.pc in Sites(w.code)
    ensures DividesAt(w, limit, s, k)
  {
    hide Next, Sites, Run, Trace, Divisor;
    var t := Trace(w, limit, s);
    TraceIsRun(w, limit, s);
    OriginalDivides(w, limit, t[k]);
    if k + 1 < |t| {
      assert Next(w, limit, t[k]) == More(t[k + 1]);
    } else {
      RunOfLast(w, limit, t[k]);
    }
  }

  lemma {:induction false} UsedStaysWithin(w: World, limit: nat, t: seq<Config>)
    requires IsRun(w, limit, t) && t[0].used <= limit
    ensures Last(t).used <= limit
    decreases |t|
  {
    hide Next;
    if |t| > 1 {
      assert Next(w, limit, t[|t| - 2]) == More(t[|t| - 1]);
      NextMeter(w, limit, t[|t| - 2]);
    }
  }

  lemma RunOfLast(w: World, limit: nat, s: Config)
    requires !Next(w, limit, s).More?
    ensures Run(w, limit, s) == match Next(w, limit, s)
                                case Crash(f) => Faults(f)
                                case Done(f) => Halts(f)
                                case More(_) => Faults(OutOfMeter)
  {
    hide Next;
  }

  /** An original run that halts is kept, outcome and all, exactly when it touches no patched
      division: past one it has used more than the rewritten run, which halts there. */
  lemma UntouchedHaltsAlike(w: World, limit: nat, s: Config)
    requires HaltingStubs(w.code).Some? && OnSweep(w.code, s.c.m.pc) && s.used <= limit
    ensures Run(w, limit, s).Halts? ==>
              (Run(Rewritten(w), limit, s) == Run(w, limit, s) <==>
               FirstSite(w, Trace(w, limit, s)) == |Trace(w, limit, s)|)
  {
    hide OnSweep, Sites, HaltingStubs, JumpsInside, Run, Trace, Next, Divisor;
    StubSimulation(w, limit, s);
    var t := Trace(w, limit, s);
    var k := FirstSite(w, t);
    if Run(w, limit, s).Halts? && k < |t| {
      TraceIsRun(w, limit, s);
      RunOfPrefix(w, limit, t, k + 1);
      ExactThreshold(w, limit, limit, t[k + 1]);
    }
  }

  lemma RunOfPrefix(w: World, limit: nat, t: seq<Config>, k: nat)
    requires IsRun(w, limit, t) && k < |t|
    ensures Run(w, limit, t[k]) == Run(w, limit, t[0])
  {
    hide Next, Run, Trace;
    RunIsTracePrefix(w, limit, t[..k + 1]);
  }

  // ---- Code whose halting runs are all kept ----

  /** What can be checked of the code alone: nothing returns, and no static target is a patched
      division, so a patched division is reached only through its stub. */
  ghost predicate Tame(code: seq<byte>) {
    forall j | 0 <= j < |Listing(code, 0)| ::
      var i := Listing(code, 0)[j].instr;
      !i.Ret? && (StaticTarget(i).Some? ==> StaticTarget(i).value !in Sites(code))
  }

  /** At a patched division the original is about to divide by zero. */
  predicate ZeroAtSite(w: World, c: Ctl) {
    c.m.pc in Sites(w.code) ==> c.m.regs[Divisor(w, c)] == 0
  }

  /** The last instruction before a patched division zeroes its divisor. */
  lemma BeforeSite(w: World, c: Ctl, k: nat)
    requires StubAt(Listing(w.code, 0), k) && c.m.pc == Listing(w.code, 0)[k + 2].at
    ensures Listing(w.code, 0)[k + 1].instr == Ldi(Divisor(w, c), 0)
  {
    hide DecodeAt, Listing;
    ListingAhead(w.code, 0, k + 2);
  }

  /** Where a local step leaves the program counter: at a jump target, or past the instruction. */
  lemma MoveTarget(w: World, c: Ctl, i: Instr, v: u64)
    requires Trans(w, c, i, v).Go?
    ensures Trans(w, c, i, v).c.m.pc == c.m.pc
            || (IsLocal(i) && JumpTarget(c.m, i) == Some(Trans(w, c, i, v).c.m.pc))
  {
    hide StepLocal, Starts, HashVariable, MintTarget, TargetPrice, PaysLeaf, BaseOf, ReadBase,
      WriteBase, MayRead, MayWrite, Region, WriteAt, JumpTarget;
    if IsLocal(i) {
      LocalPc(w.consts, Boundaries(w.code), w.prims, c.m, i);
    }
  }

  lemma TargetIsStatic(m: Mach, i: Instr)
    requires !i.Ret? && JumpTarget(m, i).Some?
    ensures StaticTarget(i) == JumpTarget(m, i)
  {
  }

  /** In tame code a turn arrives at a patched division with its divisor zero. */
  lemma ArrivesAtZero(w: World, limit: nat, s: Config)
    requires Tame(w.code) && s.c.m.pc in Boundaries(w.code) && Next(w, limit, s).More?
    ensures ZeroAtSite(w, Next(w, limit, s).s.c)
  {
    hide Next, Trans, DecodeAt, CostOf, Wants, Listing, Starts, Sites, Divisor, JumpTarget, StaticTarget;
    var i, c1 := NextParts(w, limit, s);
    var s' := Next(w, limit, s).s;
    StartsAreListed(w.code, 0, s.c.m.pc);
    var j :| 0 <= j < |Listing(w.code, 0)| && Listing(w.code, 0)[j].at == s.c.m.pc;
    ListingAhead(w.code, 0, j);
    MoveTarget(w, c1, i, Seen(w, s));
    if s'.c.m.pc in Sites(w.code) {
      if IsLocal(i) && JumpTarget(c1.m, i) == Some(s'.c.m.pc) {
        TargetIsStatic(c1.m, i);
        assert false;
      }
      var k := SiteIsDiv(w.code, s'.c.m.pc);
      JustBefore(w.code, j, k + 2);
      BeforeSite(w, s'.c, k);
      LoadImmediate(w, limit, s, Divisor(w, s'.c), 0);
    }
  }

  /** Two listed instructions that touch are neighbours. */
  lemma JustBefore(code: seq<byte>, j: nat, k: nat)
    requires j < |Listing(code, 0)| && k < |Listing(code, 0)|
    requires var at := Listing(code, 0)[j].at;
             DecodeAt(code, at).Ok? && Listing(code, 0)[k].at == at + DecodeAt(code, at).value.1
    ensures k == j + 1
  {
    hide DecodeAt, Listing;
    ListingAhead(code, 0, j);
    ListingAhead(code, 0, k);
    if k < j {
      ListedApart(code, k, j);
    } else if k > j + 1 {
      ListedApart(code, j, j + 1);
      ListedApart(code, j + 1, k);
    }
  }

  lemma SitesDivideByZero(w: World, limit: nat, t: seq<Config>)
    requires Tame(w.code) && IsRun(w, limit, t) && OnSweep(w.code, t[0].c.m.pc) && ZeroAtSite(w, t[0].c)
    ensures ZeroAtSite(w, Last(t).c)
  {
    hide Next, OnSweep, ZeroAtSite, Tame, Starts;
    if |t| > 1 {
      var before := t[..|t| - 1];
      OnlySweptExecute(w, limit, t);
      assert Next(w, limit, t[|t| - 2]) == More(t[|t| - 1]);
      ArrivesAtZero(w, limit, Last(before));
    }
  }

  /** In tame code, from anywhere but a patched division with a divisor that is not zero, a run that
      meets a patched division faults there; so every halting run is kept, outcome and all. */
  lemma TameRunsAreKept(w: World, limit: nat, s: Config)
    requires HaltingStubs(w.code).Some? && OnSweep(w.code, s.c.m.pc) && s.used <= limit
    requires Tame(w.code) && ZeroAtSite(w, s.c)
    ensures Run(w, limit, s).Halts? ==> Run(Rewritten(w), limit, s) == Run(w, limit, s)
    ensures var t := Trace(w, limit, s);
            var k := FirstSite(w, t);
            k < |t| ==> k + 1 == |t| && Run(w, limit, s).Faults?
  {
    hide OnSweep, Sites, HaltingStubs, JumpsInside, Run, Trace, Next, Divisor, Tame;
    StubSimulation(w, limit, s);
    UntouchedHaltsAlike(w, limit, s);
    TraceIsRun(w, limit, s);
    var t := Trace(w, limit, s);
    var k := FirstSite(w, t);
    if k < |t| {
      SitesDivideByZero(w, limit, t[..k + 1]);
    }
  }

  // ---- The reason a stub leaves ----

  /** The reason written into a stub. */
  function StubReason(a: Instr, b: Instr, c: Instr): Option<(Rule, u32)>
    requires IsStub(a, b, c)
  {
    if IsLegacyStub(b, c) then Some((LegacyRule, 0)) else SplitCode(a.imm)
  }

  lemma LoadImmediate(w: World, limit: nat, s: Config, d: Reg, imm: u64)
    requires Fetched(w, s.c).Ok? && Fetched(w, s.c).value.0 == Ldi(d, imm) && Next(w, limit, s).More?
    ensures Next(w, limit, s).s.c.m.regs == s.c.m.regs[d := imm]
  {
    hide DecodeAt, CostOf, Starts;
    var i, c1 := NextParts(w, limit, s);
  }

  /** Three states that stand one after another at the instructions of the stub at `k`. */
  predicate FallsThrough(w: World, t: seq<Config>, k: nat) {
    && |t| == 3 && StubAt(Listing(w.code, 0), k)
    && forall j | 0 <= j < 3 :: t[j].c.m.pc == Listing(w.code, 0)[k + j].at
  }

  /** Falling through a stub leaves its reason in the registers, and a zero to divide by. */
  lemma StubLoads(w: World, limit: nat, t: seq<Config>, k: nat)
    requires IsRun(w, limit, t) && FallsThrough(w, t, k)
    ensures var list := Listing(w.code, 0);
            ReasonIn(t[2].c.m.regs) == StubReason(list[k].instr, list[k + 1].instr, list[k + 2].instr)
    ensures t[2].c.m.regs[Divisor(w, t[2].c)] == 0
  {
    hide Next, DecodeAt, Listing, FromCode;
    var list := Listing(w.code, 0);
    ListingAhead(w.code, 0, k);
    ListingAhead(w.code, 0, k + 1);
    ListingAhead(w.code, 0, k + 2);
    var first, second := list[k].instr, list[k + 1].instr;
    assert Next(w, limit, t[0]) == More(t[1]) && Next(w, limit, t[1]) == More(t[2]);
    LoadImmediate(w, limit, t[1], second.d, second.imm);
    if IsTaggedStub(first, second, list[k + 2].instr) {
      LoadImmediate(w, limit, t[0], first.d, first.imm);
    }
  }

  /** What stubs are for: a run that first meets a patched division by falling through its stub would
      fault with a division by zero, telling the host nothing; rewritten, it halts, and `ReasonIn`
      the registers it halts with is the stub's rule and line. */
  lemma StubLeavesReason(w: World, limit: nat, t: seq<Config>, k: nat)
    requires HaltingStubs(w.code).Some? && IsRun(w, limit, t) && |t| >= 3
    requires OnSweep(w.code, t[0].c.m.pc) && t[0].used <= limit
    requires forall j | 0 <= j < |t| - 1 :: t[j].c.m.pc !in Sites(w.code)
    requires FallsThrough(w, t[|t| - 3..], k)
    requires Last(t).c.m.pc + DIV_BYTES < TWO32
    ensures var r, list := Run(Rewritten(w), limit, t[0]), Listing(w.code, 0);
            && r.Halts?
            && ReasonIn(r.final.c.m.regs) == StubReason(list[k].instr, list[k + 1].instr, list[k + 2].instr)
    ensures Run(w, limit, t[0]) == Faults(if Last(t).used + 4 <= limit then DivByZero else OutOfMeter)
  {
    hide Next, OnSweep, Sites, HaltingStubs, Listing, Run, StubReason, ReasonIn, Divisor, IsStub;
    var tail := t[|t| - 3..];
    StubLoads(w, limit, tail, k);
    SiteOfStub(w.code, k);
    LockStep(w, limit, t);
    UsedStaysWithin(w, limit, t);
    RunIsTracePrefix(Rewritten(w), limit, t);
    SiteHalts(w, limit, Last(t));
    OriginalDivides(w, limit, Last(t));
    RunIsTracePrefix(w, limit, t);
    RunOfLast(w, limit, Last(t));
  }

  /** A compiled stub for a rule and a line is recognised and gives both back. */
  lemma CompiledStubReason(rule: Rule, line: u32)
    ensures var stub := AbortStub(AbortCode(rule, line));
            && IsStub(stub[0], stub[1], stub[2])
            && StubReason(stub[0], stub[1], stub[2]) == Some((rule, line))
  {
    hide Code, FromCode;
    SplitsAbortCode(rule, line);
  }
}
