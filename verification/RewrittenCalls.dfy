/** What rewriting abort stubs does to containers and to whole calls. */
module RewrittenCalls {
  import opened Bytes
  import opened Isa
  import opened Sweep
  import opened Machines
  import opened Crypto
  import opened Local
  import opened Semantics
  import opened Containers
  import opened Deploy
  import opened Safety
  import opened Calls
  import opened Abort
  import opened Simulation

  function WithStubsHalting(c: Container): Container
    requires HaltingStubs(c.code).Some?
  {
    Container(HaltingStubs(c.code).value, c.consts, c.entries)
  }

  function Rewrite(q: Request): Request
    requires HaltingStubs(q.container.code).Some?
  {
    Request(q.prims, WithStubsHalting(q.container), q.door, q.storage, q.loader, q.data)
  }

  // ---- Containers ----

  /** Every boundary of the rewritten code holds an instruction that fits the container. */
  lemma RewrittenFits(c: Container, b: nat)
    requires Deployable(c) && HaltingStubs(c.code).Some? && b in Boundaries(HaltingStubs(c.code).value)
    ensures var c' := WithStubsHalting(c);
            DecodeAt(c'.code, b).Ok? && InstrFits(c', DecodeAt(c'.code, b).value.0)
  {
    hide DecodeAt, Starts, Listing, StopOf, Sites, FullyDecodes, SizesFit, EntryFits, Inside;
    BoundariesGrow(c.code);
    if b in Sites(c.code) {
      PatchedSite(c.code, b);
    } else if b in Boundaries(c.code) {
      StartsAreListed(c.code, 0, b);
      var j :| 0 <= j < |Listing(c.code, 0)| && Listing(c.code, 0)[j].at == b;
      PatchedElsewhere(c.code, j);
    } else {
      PatchedBoundaries(c.code, b);
      InsideSite(c.code, b);
    }
  }

  lemma InsideSite(code: seq<byte>, x: nat)
    requires Inside(Sites(code), x)
    ensures DecodeAt(Patched(code, Sites(code)), x) == Ok((Nop, 1))
  {
    hide DecodeAt, Sites;
    var s := if x - 1 in Sites(code) then x - 1 else if x >= 2 && x - 2 in Sites(code) then x - 2 else x - 3;
    PatchedSite(code, s);
  }

  /** A deployable container is still deployable once its stubs halt. */
  lemma RewrittenDeploys(c: Container)
    requires Deployable(c) && HaltingStubs(c.code).Some?
    ensures Deployable(WithStubsHalting(c))
  {
    hide DecodeAt, Starts, Listing, StopOf, Sites, InstrFits;
    var c' := WithStubsHalting(c);
    PatchedDecodes(c.code);
    BoundariesGrow(c.code);
    forall b | b in Boundaries(c'.code)
      ensures DecodeAt(c'.code, b).Ok? && InstrFits(c', DecodeAt(c'.code, b).value.0)
    {
      RewrittenFits(c, b);
    }
  }

  // ---- Opening ----

  /** No entry starts inside a patched division. */
  ghost predicate StartsOutside(c: Container) {
    forall e | e in c.entries :: !Inside(Sites(c.code), e.offset)
  }

  lemma DeployableStartsOutside(c: Container)
    requires Deployable(c)
    ensures StartsOutside(c)
  {
    hide DecodeAt, Starts, Sites, FullyDecodes, InstrFits, Inside;
    forall e | e in c.entries ensures !Inside(Sites(c.code), e.offset) {
      var j :| 0 <= j < |c.entries| && c.entries[j] == e;
      assert EntryFits(c, c.entries[j]);
      if Inside(Sites(c.code), e.offset) {
        InsideIsNoBoundary(c.code, e.offset);
        assert false;
      }
    }
  }

  lemma {:induction false} MatchingAreEntries(entries: seq<Entry>, selector: Selector)
    ensures forall e | e in Matching(entries, selector) :: e in entries
    decreases |entries|
  {
    if entries != [] {
      MatchingAreEntries(entries[1..], selector);
    }
  }

  lemma EntryKept(c: Container, selector: Selector, limit: u64)
    requires HaltingStubs(c.code).Some? && StartsOutside(c)
    ensures OpenEntry(WithStubsHalting(c), selector, limit) == OpenEntry(c, selector, limit)
  {
    hide Starts, Sites, HaltingStubs, ManifestOf, Matching, Inside;
    var found := Matching(c.entries, selector);
    MatchingAreEntries(c.entries, selector);
    SameLength(c.code);
    if found != [] {
      assert found[0] in c.entries;
      PatchedBoundaries(c.code, found[0].offset);
    }
  }

  lemma SameLength(code: seq<byte>)
    requires HaltingStubs(code).Some?
    ensures |HaltingStubs(code).value| == |code|
  {
    hide Sites;
  }

  /** Rewriting changes neither what opens nor what opening costs. */
  lemma OpeningKept(p: Prims, c: Container, door: Door, limit: u64)
    requires HaltingStubs(c.code).Some? && StartsOutside(c)
    ensures Opening(p, WithStubsHalting(c), door, limit) == Opening(p, c, door, limit)
  {
    hide OpenEntry, HaltingStubs, WithStubsHalting, StartsOutside, SelectorOf;
    EntryKept(c, Asked(p, door), limit);
  }

  // ---- Calls ----

  /** A call into the rewritten container opens as the original does and simulates its run. */
  lemma CallSimulates(q: Request, limit: u64)
    requires HaltingStubs(q.container.code).Some? && StartsOutside(q.container)
    ensures Open(Rewrite(q), limit) == Open(q, limit)
    ensures Open(q, limit).Err? ==> RunCall(Rewrite(q), limit) == RunCall(q, limit)
    ensures Open(q, limit).Ok? ==>
              var w, s := CallWorld(q, Open(q, limit).value), CallStart(q, Open(q, limit).value);
              RunCall(Rewrite(q), limit) == Run(Rewritten(w), limit, s) && Simulates(w, limit, s)
  {
    hide HaltingStubs, Opening, Run, Simulates, OnSweep, StartsOutside, WithData;
    OpeningKept(q.prims, q.container, q.door, limit);
    var r := Open(q, limit);
    if r.Ok? {
      OpenStarts(q, limit);
      StubSimulation(CallWorld(q, r.value), limit, CallStart(q, r.value));
    }
  }

  lemma OpenStarts(q: Request, limit: u64)
    requires Open(q, limit).Ok?
    ensures var o := Open(q, limit).value;
            && OnSweep(q.container.code, o.offset) && o.used <= limit
            && CallStart(q, o).c.m.pc == o.offset
            && exists e :: e in q.container.entries && e.offset == o.offset
  {
    hide Starts, StopOf, Matching, ManifestOf, SelectorOf;
    var selector := Asked(q.prims, q.door);
    OpenedIsOnSweep(q.container, selector, limit);
    MatchingAreEntries(q.container.entries, selector);
    var found := Matching(q.container.entries, selector);
    assert found[0] in q.container.entries;
  }

  /** The run of the call meets a patched division. */
  ghost predicate MeetsSite(q: Request, limit: u64) {
    var r := Open(q, limit);
    r.Ok? &&
    var t := Trace(CallWorld(q, r.value), limit, CallStart(q, r.value));
    FirstSite(CallWorld(q, r.value), t) < |t|
  }

  /** A halting call gives the same result on the rewritten container exactly when it meets no patched
      division. */
  lemma HaltingCallKept(q: Request, limit: u64)
    requires HaltingStubs(q.container.code).Some? && StartsOutside(q.container) && RunCall(q, limit).Halts?
    ensures RunCall(Rewrite(q), limit) == RunCall(q, limit) <==> !MeetsSite(q, limit)
  {
    hide HaltingStubs, Opening, Run, Simulates, OnSweep, StartsOutside, WithData, Trace, FirstSite;
    CallSimulates(q, limit);
    OpenStarts(q, limit);
    var o := Open(q, limit).value;
    UntouchedHaltsAlike(CallWorld(q, o), limit, CallStart(q, o));
  }

  /** No entry starts at a patched division. */
  ghost predicate StartsElsewhere(c: Container) {
    forall e | e in c.entries :: e.offset !in Sites(c.code)
  }

  /** In the tame code of a deployable container nothing jumps inside a patched division. */
  lemma NoJumpInside(w: World, c: Ctl, k: Container)
    requires Deployable(k) && w.code == k.code && Tame(k.code) && OnSweep(k.code, c.m.pc)
    ensures !JumpsInside(w, c)
  {
    hide DecodeAt, Starts, StopOf, Sites, FullyDecodes, Inside, SizesFit, EntryFits, Listing, JumpTarget, StaticTarget;
    StopIsNotStart(w.code, c.m.pc);
    if JumpsInside(w, c) {
      var i := Fetched(w, c).value.0;
      StartsAreListed(w.code, 0, c.m.pc);
      var j :| 0 <= j < |Listing(w.code, 0)| && Listing(w.code, 0)[j].at == c.m.pc;
      ListingAhead(w.code, 0, j);
      TargetIsStatic(c.m, i);
      InsideIsNoBoundary(w.code, JumpTarget(c.m, i).value);
      assert false;
    }
  }

  /** What can be checked before any call: in a deployable container whose code is tame and whose
      entries start elsewhere, rewriting keeps the result of every call, but for calls that fall
      through a stub: those fault with a division by zero, or for want of meter for it, and halt once
      rewritten. */
  lemma TameCallsKept(q: Request, limit: u64)
    requires Deployable(q.container) && HaltingStubs(q.container.code).Some?
    requires Tame(q.container.code) && StartsElsewhere(q.container)
    ensures if MeetsSite(q, limit) then
              && RunCall(Rewrite(q), limit).Halts?
              && (RunCall(q, limit) == Faults(DivByZero) || RunCall(q, limit) == Faults(OutOfMeter))
            else RunCall(Rewrite(q), limit) == RunCall(q, limit)
  {
    hide HaltingStubs, Opening, Run, OnSweep, WithData, Trace, Deployable, Tame, Sites, JumpsInside, Divisor, Next;
    DeployableStartsOutside(q.container);
    CallSimulates(q, limit);
    if Open(q, limit).Ok? {
      OpenStarts(q, limit);
      var o := Open(q, limit).value;
      var w, s := CallWorld(q, o), CallStart(q, o);
      TameRunsAreKept(w, limit, s);
      var t := Trace(w, limit, s);
      TraceIsRun(w, limit, s);
      OnlySweptExecute(w, limit, t);
      var k := FirstSite(w, t);
      if k < |t| {
        ShortCode(q.container, t[k].c.m.pc);
      } else {
        NoJumpInside(w, Last(t).c, q.container);
      }
    }
  }

  lemma ShortCode(c: Container, s: nat)
    requires Deployable(c) && s in Sites(c.code)
    ensures s + DIV_BYTES < TWO32
  {
    hide Sites, FullyDecodes, InstrFits, Starts, DecodeAt;
    PatchedSite(c.code, s);
  }
}
