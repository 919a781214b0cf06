/** Control-flow safety: only swept instructions run, and deployed containers fault in few ways. */
module Safety {
  import opened Bytes
  import opened Isa
  import opened Sweep
  import opened Meter
  import opened Machines
  import opened Local
  import opened Semantics
  import opened Metering
  import opened Containers
  import opened Deploy

  /** An offset execution may stand at: a boundary of the sweep, or the place it stopped. */
  predicate OnSweep(code: seq<byte>, pc: nat) {
    pc in Boundaries(code) || pc == StopOf(code, 0)
  }

  /** An instruction leaves the program counter past itself, or at a boundary. */
  lemma MovePc(w: World, c: Ctl, i: Instr, v: u64)
    requires Trans(w, c, i, v).Go?
    ensures Trans(w, c, i, v).c.m.pc == c.m.pc || Trans(w, c, i, v).c.m.pc in Boundaries(w.code)
  {
    hide StepLocal, Starts, HashVariable, MintTarget, TargetPrice, PaysLeaf, BaseOf, ReadBase,
      WriteBase, MayRead, MayWrite, Region, WriteAt, JumpTarget;
    if IsLocal(i) {
      LocalPc(w.consts, Boundaries(w.code), w.prims, c.m, i);
    }
  }

  lemma StepPc(w: World, limit: nat, s: Config)
    requires OnSweep(w.code, s.c.m.pc) && Next(w, limit, s).More?
    ensures s.c.m.pc in Boundaries(w.code)
    ensures OnSweep(w.code, Next(w, limit, s).s.c.m.pc)
  {
    hide Next, Trans, CostOf, DecodeAt, Wants, Starts, StopOf;
    var i, c1 := NextParts(w, limit, s);
    MovePc(w, c1, i, Seen(w, s));
    StopIsNotStart(w.code, s.c.m.pc);
    StartsStep(w.code, 0, s.c.m.pc);
  }

  lemma StopIsNotStart(code: seq<byte>, pc: nat)
    ensures pc == StopOf(code, 0) ==> DecodeAt(code, pc).Err?
  {
    StopDoesNotDecode(code, 0);
  }

  /** Only swept instructions execute: every state a run reaches stands on the sweep, and every
      instruction it executes is one the sweep lists. */
  lemma {:induction false} OnlySweptExecute(w: World, limit: nat, t: seq<Config>)
    requires IsRun(w, limit, t) && OnSweep(w.code, t[0].c.m.pc)
    ensures forall k | 0 <= k < |t| :: OnSweep(w.code, t[k].c.m.pc)
    ensures forall k | 0 <= k < |t| - 1 :: t[k].c.m.pc in Boundaries(w.code)
    decreases |t|
  {
    hide Next, OnSweep, Starts;
    if |t| > 1 {
      var before := t[..|t| - 1];
      OnlySweptExecute(w, limit, before);
      assert Next(w, limit, t[|t| - 2]) == More(t[|t| - 1]);
      StepPc(w, limit, Last(before));
    }
  }

  lemma ZeroIsOnSweep(code: seq<byte>)
    ensures OnSweep(code, 0)
  {
  }

  /** A program run from offset 0 with no container behind it, as system programs are, executes only
      swept instructions. */
  lemma ProgramIsSwept(w: World, limit: nat, s: Config)
    requires s.c.m.pc == 0
    ensures var t := Trace(w, limit, s);
            && (forall k | 0 <= k < |t| :: OnSweep(w.code, t[k].c.m.pc))
            && (Run(w, limit, s).Halts? ==> Last(t).c.m.pc in Boundaries(w.code))
  {
    hide Next, OnSweep, Starts, StopOf, Run;
    var t := Trace(w, limit, s);
    ZeroIsOnSweep(w.code);
    TraceIsRun(w, limit, s);
    OnlySweptExecute(w, limit, t);
    if Run(w, limit, s).Halts? {
      HaltsOnStart(w, limit, s);
    }
  }

  lemma HaltsOnStart(w: World, limit: nat, s: Config)
    requires Run(w, limit, s).Halts? && OnSweep(w.code, Last(Trace(w, limit, s)).c.m.pc)
    ensures Last(Trace(w, limit, s)).c.m.pc in Boundaries(w.code)
  {
    hide Next, Starts, StopOf, DecodeAt;
    TraceIsRun(w, limit, s);
    var last := Last(Trace(w, limit, s));
    HaltState(w, limit, last);
    StopIsNotStart(w.code, last.c.m.pc);
  }

  /** What a fault in the run of a deployed container can be. */
  predicate ExpectedFault(w: World, c: Ctl, f: Fault) {
    && f != BadConst
    && (f == BadJump ==> Fetched(w, c).Ok? && Fetched(w, c).value.0.Ret?)
    && (f.Undecodable? ==> f.error == Truncated && c.m.pc == |w.code|)
  }

  /** No run of a deployed container faults with a missing constant; only `Ret` can jump badly; and
      decoding fails only by running off the end. */
  lemma VerifiedRunsSafely(w: World, limit: nat, t: seq<Config>, c: Container)
    requires Deployable(c) && w.code == c.code && w.consts == c.consts
    requires IsRun(w, limit, t) && OnSweep(w.code, t[0].c.m.pc)
    requires Next(w, limit, Last(t)).Crash?
    ensures ExpectedFault(w, Last(t).c, Next(w, limit, Last(t)).fault)
  {
    hide Next, Starts, StopOf, Deployable, ExpectedFault, OnSweep;
    OnlySweptExecute(w, limit, t);
    CrashIsExpected(w, limit, Last(t), c);
  }

  lemma CrashIsExpected(w: World, limit: nat, s: Config, c: Container)
    requires Deployable(c) && w.code == c.code && w.consts == c.consts
    requires OnSweep(w.code, s.c.m.pc) && Next(w, limit, s).Crash?
    ensures ExpectedFault(w, s.c, Next(w, limit, s).fault)
  {
    hide Trans, CostOf, DecodeAt, Encode, Wants, Starts, StopOf, InstrFits;
    StopIsEnd(w.code);
    match Fetched(w, s.c)
    case Err(e) =>
    case Ok((i, n)) =>
      DecodeExact(w.code, s.c.m.pc, i, n);
      var c1 := Advance(s.c, s.c.m.pc + n);
      if Trans(w, c1, i, Seen(w, s)).Fail? {
        MoveFaults(w, c1, i, Seen(w, s));
        FitsMeans(c, i, c1.m);
      }
  }

  lemma StopIsEnd(code: seq<byte>)
    ensures DecodeAt(code, |code|) == Err(Truncated)
  {
  }

  lemma FitsMeans(c: Container, i: Instr, m: Mach)
    requires InstrFits(c, i)
    ensures i.Ldc? ==> i.idx < |c.consts|
    ensures JumpTarget(m, i).Some? && !i.Ret? ==>
              JumpTarget(m, i).value < TWO32 && JumpTarget(m, i).value in Boundaries(c.code)
  {
  }

  /** An opened entry starts on the sweep, so the two results above apply to every run of every
      entry. */
  lemma OpenedIsOnSweep(c: Container, selector: Selector, limit: u64)
    requires OpenEntry(c, selector, limit).Ok?
    ensures OnSweep(c.code, OpenEntry(c, selector, limit).value.offset)
  {
    hide Starts, StopOf, Matching, ManifestOf;
  }
}
