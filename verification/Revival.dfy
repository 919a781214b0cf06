/** Two programs whose rewritten form runs otherwise, one for each exception in the simulation theorem:
    one faults and its rewritten form halts, the other halts and its rewritten form halts sooner. */
module Revival {
  import opened Bytes
  import opened Isa
  import opened Sweep
  import opened Machines
  import opened Semantics
  import opened Abort
  import opened Simulation

  const JUMPER: seq<Instr> := [Jmp(26), Ldi(0, 0), Ldi(0, 0), Alu(Div, 0, 0, 0), Halt]

  lemma JumperLengths()
    ensures |Encode(Jmp(26))| == 5 && |Encode(Ldi(0, 0))| == 10
    ensures |Encode(Alu(Div, 0, 0, 0))| == 4 && |Encode(Halt)| == 1
  {
    hide ToBE;
  }

  /** Where the instructions of a program of five stand. */
  lemma Offsets(p: seq<Instr>)
    requires |p| == 5
    ensures OffsetOf(p, 0) == 0 && OffsetOf(p, 1) == |Encode(p[0])|
    ensures OffsetOf(p, 2) == OffsetOf(p, 1) + |Encode(p[1])| && OffsetOf(p, 3) == OffsetOf(p, 2) + |Encode(p[2])|
    ensures OffsetOf(p, 4) == OffsetOf(p, 3) + |Encode(p[3])| && OffsetOf(p, 5) == OffsetOf(p, 4) + |Encode(p[4])|
  {
    hide Encode, OffsetOf;
    OffsetStep(p, 0);
    OffsetStep(p, 1);
    OffsetStep(p, 2);
    OffsetStep(p, 3);
    OffsetStep(p, 4);
  }

  lemma JumperLayout(code: seq<byte>)
    requires code == EncodeAll(JUMPER)
    ensures FullyDecodes(code) && |code| == 30
    ensures Listing(code, 0) == [Placed(0, Jmp(26)), Placed(5, Ldi(0, 0)), Placed(15, Ldi(0, 0)),
                                 Placed(25, Alu(Div, 0, 0, 0)), Placed(29, Halt)]
  {
    hide Encode, Listing, StopOf, OffsetOf;
    JumperLengths();
    ProgramLayout(code, JUMPER);
    Offsets(JUMPER);
  }

  lemma JumperSites(code: seq<byte>)
    requires code == EncodeAll(JUMPER)
    ensures HaltingStubs(code).Some? && 25 in Sites(code) && 29 !in Sites(code)
  {
    hide Listing, StopOf, EncodeAll;
    JumperLayout(code);
    var list := Listing(code, 0);
    assert StubAt(list, 1) && list[3].at == 25;
    assert 25 in Sites(code);
    assert !StubAt(list, 2);
  }

  lemma StepsOverNop(w: World, limit: nat, s: Config)
    requires Fetched(w, s.c) == Ok((Nop, 1)) && s.used + 1 <= limit && s.c.m.pc + 1 < TWO32
    ensures Next(w, limit, s) == More(s.(c := Advance(s.c, s.c.m.pc + 1), used := s.used + 1))
  {
    hide DecodeAt, Starts;
  }

  lemma StopsAtHalt(w: World, limit: nat, s: Config)
    requires Fetched(w, s.c) == Ok((Halt, 1)) && s.used <= limit && s.c.m.pc + 1 < TWO32
    ensures Next(w, limit, s) == Done(s.(c := Advance(s.c, s.c.m.pc + 1)))
  {
    hide DecodeAt, Starts;
  }

  /** From inside the patched division the rewritten program slides to its last instruction. */
  lemma SlidesToHalt(w: World, limit: nat, s: Config)
    requires w.code == EncodeAll(JUMPER) && HaltingStubs(w.code).Some?
    requires s.c.m.pc == 26 && s.used + 3 <= limit
    ensures Run(Rewritten(w), limit, s).Halts?
  {
    hide Next, DecodeAt, Listing, StopOf, EncodeAll, Sites, HaltingStubs;
    var w' := Rewritten(w);
    JumperLayout(w.code);
    JumperSites(w.code);
    RewrittenSite(w, 25);
    RewrittenElsewhere(w, 4);
    DecodesHalt(w.code);
    StepsOverNop(w', limit, s);
    var s1 := Next(w', limit, s).s;
    StepsOverNop(w', limit, s1);
    var s2 := Next(w', limit, s1).s;
    StepsOverNop(w', limit, s2);
    var s3 := Next(w', limit, s2).s;
    StopsAtHalt(w', limit, s3);
    assert Run(w', limit, s3).Halts?;
    assert Run(w', limit, s2).Halts?;
    assert Run(w', limit, s1).Halts?;
  }

  lemma RewrittenSite(w: World, at: nat)
    requires HaltingStubs(w.code).Some? && at in Sites(w.code)
    ensures forall x | at < x < at + DIV_BYTES :: DecodeAt(Rewritten(w).code, x) == Ok((Nop, 1))
  {
    hide DecodeAt, Sites;
    PatchedSite(w.code, at);
  }

  lemma RewrittenElsewhere(w: World, j: nat)
    requires HaltingStubs(w.code).Some? && j < |Listing(w.code, 0)| && Listing(w.code, 0)[j].at !in Sites(w.code)
    ensures DecodeAt(Rewritten(w).code, Listing(w.code, 0)[j].at) == DecodeAt(w.code, Listing(w.code, 0)[j].at)
  {
    hide DecodeAt, Sites, Listing;
    PatchedElsewhere(w.code, j);
  }

  lemma DecodesHalt(code: seq<byte>)
    requires code == EncodeAll(JUMPER)
    ensures DecodeAt(code, 29) == Ok((Halt, 1))
  {
    hide DecodeAt, Encode, Listing, EncodeAll;
    JumperLayout(code);
    JumperLengths();
    ListingAhead(code, 0, 4);
    DecodeExact(code, 29, Halt, DecodeAt(code, 29).value.1);
  }

  lemma DecodesJump(code: seq<byte>)
    requires code == EncodeAll(JUMPER)
    ensures DecodeAt(code, 0) == Ok((Jmp(26), 5))
  {
    hide DecodeAt, Encode, Listing, EncodeAll;
    JumperLayout(code);
    JumperLengths();
    ListingAhead(code, 0, 0);
    DecodeExact(code, 0, Jmp(26), DecodeAt(code, 0).value.1);
  }

  /** Rewriting does not keep every fault: this program, which jumps into the division of its own
      stub, faults with a bad jump, and its rewritten form halts. */
  lemma RewritingRevivesAFault(w: World, limit: nat, s: Config)
    requires w.code == EncodeAll(JUMPER) && s.c.m.pc == 0 && s.used + 5 <= limit
    ensures HaltingStubs(w.code).Some?
    ensures Run(w, limit, s) == Faults(BadJump)
    ensures Run(Rewritten(w), limit, s).Halts?
  {
    hide Next, DecodeAt, Listing, StopOf, EncodeAll, Sites, HaltingStubs, Starts;
    JumperSites(w.code);
    JumperLayout(w.code);
    DecodesJump(w.code);
    assert Inside(Sites(w.code), 26);
    InsideIsNoBoundary(w.code, 26);
    BoundariesGrow(w.code);
    FirstDecodes(w);
    JumpStep(w, limit, s);
    JumpStep(Rewritten(w), limit, s);
    SlidesToHalt(w, limit, Next(Rewritten(w), limit, s).s);
  }

  lemma FirstDecodes(w: World)
    requires w.code == EncodeAll(JUMPER) && HaltingStubs(w.code).Some?
    ensures DecodeAt(Rewritten(w).code, 0) == DecodeAt(w.code, 0)
  {
    hide DecodeAt, Listing, StopOf, EncodeAll, Sites, HaltingStubs;
    JumperLayout(w.code);
    if 0 in Sites(w.code) {
      var k := SiteIsDiv(w.code, 0);
      ListedApart(w.code, k, k + 2);
      assert false;
    }
    RewrittenElsewhere(w, 0);
  }

  lemma JumpStep(w: World, limit: nat, s: Config)
    requires Fetched(w, s.c) == Ok((Jmp(26), 5)) && s.c.m.pc == 0 && s.used + 2 <= limit
    ensures 26 in Boundaries(w.code) ==>
              Next(w, limit, s).More? && Next(w, limit, s).s.c.m.pc == 26 && Next(w, limit, s).s.used == s.used + 2
    ensures 26 !in Boundaries(w.code) ==> Next(w, limit, s) == Crash(BadJump)
  {
    hide DecodeAt, Starts;
  }

  // ---- A division that does not divide by zero ----

  const DIVIDER: seq<Instr> := [Ldi(0, 1), Jmp(25), Ldi(0, 0), Alu(Div, 0, 0, 0), Halt]

  lemma DividerLayout(code: seq<byte>)
    requires code == EncodeAll(DIVIDER)
    ensures FullyDecodes(code) && |code| == 30
    ensures Listing(code, 0) == [Placed(0, Ldi(0, 1)), Placed(10, Jmp(25)), Placed(15, Ldi(0, 0)),
                                 Placed(25, Alu(Div, 0, 0, 0)), Placed(29, Halt)]
  {
    hide Encode, Listing, StopOf, OffsetOf;
    DividerLengths();
    ProgramLayout(code, DIVIDER);
    Offsets(DIVIDER);
  }

  lemma DividerLengths()
    ensures |Encode(Ldi(0, 1))| == 10 && |Encode(Jmp(25))| == 5 && |Encode(Ldi(0, 0))| == 10
    ensures |Encode(Alu(Div, 0, 0, 0))| == 4 && |Encode(Halt)| == 1
  {
    hide ToBE;
  }

  lemma DividerCode(code: seq<byte>)
    requires code == EncodeAll(DIVIDER)
    ensures HaltingStubs(code).Some? && Sites(code) == {25} && 25 in Boundaries(code) && 0 in Boundaries(code)
    ensures DecodeAt(code, 0) == Ok((Ldi(0, 1), 10)) && DecodeAt(code, 10) == Ok((Jmp(25), 5))
    ensures DecodeAt(code, 25) == Ok((Alu(Div, 0, 0, 0), 4)) && DecodeAt(code, 29) == Ok((Halt, 1))
  {
    hide DecodeAt, Encode, Listing, StopOf, EncodeAll, Starts;
    DividerLayout(code);
    DividerLengths();
    var list := Listing(code, 0);
    assert StubAt(list, 1) && !StubAt(list, 0) && !StubAt(list, 2);
    assert 25 in Sites(code) && forall x | x in Sites(code) :: x == 25;
    StartsAreListed(code, 0, 25);
    StartsAreListed(code, 0, 0);
    assert list[3].at == 25 && list[0].at == 0;
    forall k | k == 0 || k == 1 || k == 3 || k == 4
      ensures DecodeAt(code, list[k].at) == Ok((list[k].instr, |Encode(list[k].instr)|))
    {
      ListingAhead(code, 0, k);
      DecodeExact(code, list[k].at, list[k].instr, DecodeAt(code, list[k].at).value.1);
    }
    assert list[1].at == 10 && list[4].at == 29;
  }

  lemma LoadsOne(w: World, limit: nat, s: Config)
    requires Fetched(w, s.c) == Ok((Ldi(0, 1), 10)) && s.c.m.pc == 0 && s.used + 1 <= limit
    ensures Next(w, limit, s).More?
    ensures var s' := Next(w, limit, s).s;
            s'.c.m.pc == 10 && s'.used == s.used + 1 && s'.c.m.regs[0] == 1
  {
    hide DecodeAt, Starts;
  }

  lemma JumpsToSite(w: World, limit: nat, s: Config)
    requires Fetched(w, s.c) == Ok((Jmp(25), 5)) && s.c.m.pc == 10 && s.used + 2 <= limit && 25 in Boundaries(w.code)
    ensures Next(w, limit, s).More?
    ensures var s' := Next(w, limit, s).s;
            s'.c.m.pc == 25 && s'.used == s.used + 2 && s'.c.m.regs == s.c.m.regs
  {
    hide DecodeAt, Starts;
  }

  /** Rewriting does not keep every halting run: this program jumps to the division of its own stub
      with a divisor of one, divides and halts; its rewritten form halts at the division, and so with
      another result. */
  lemma RewritingStopsARun(w: World, limit: nat, s: Config)
    requires w.code == EncodeAll(DIVIDER) && s.c.m.pc == 0 && s.used + 7 <= limit
    ensures HaltingStubs(w.code).Some?
    ensures Run(w, limit, s).Halts? && Run(Rewritten(w), limit, s).Halts?
    ensures Run(Rewritten(w), limit, s) != Run(w, limit, s)
  {
    hide Next, DecodeAt, EncodeAll, HaltingStubs, Starts, Sites, StopOf, Run, Trace;
    DividerCode(w.code);
    LoadsOne(w, limit, s);
    var s1 := Next(w, limit, s).s;
    JumpsToSite(w, limit, s1);
    var s2 := Next(w, limit, s1).s;
    OriginalDivides(w, limit, s2);
    var s3 := Next(w, limit, s2).s;
    StopsAtHalt(w, limit, s3);
    ExtendRun(w, limit, [s], s1);
    ExtendRun(w, limit, [s] + [s1], s2);
    ExtendRun(w, limit, [s] + [s1] + [s2], s3);
    var t := [s] + [s1] + [s2] + [s3];
    RunIsTracePrefix(w, limit, t);
    RunOfLast(w, limit, s3);
    assert t <= Trace(w, limit, s) && t[2] == s2;
    StubSimulation(w, limit, s);
    UntouchedHaltsAlike(w, limit, s);
  }
}
