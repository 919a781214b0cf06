/** The deploy-time verifier and entry dispatch, and that they agree. */
module Deploy {
  import opened Bytes
  import opened Isa
  import opened Sweep
  import opened Meter
  import opened Machines
  import opened Crypto
  import opened Semantics
  import opened Containers

  datatype VerifyError =
    | CodeTooLarge
    | ConstsTooLarge
    | EntriesTooLarge
    | UndecodableCode(pc: nat)
    | ConstIndexOutOfRange(idx: u16)
    | MisalignedTarget(target: u32)
    | EntryOffsetMisaligned(selector: Selector)
    | DuplicateSelector(selector: Selector)
    | AccessListTooLarge(selector: Selector)

  // ---- What the verifier accepts ----

  function StaticTarget(i: Instr): Option<u32> {
    if i.Jmp? || i.Call? || i.Jz? || i.Jnz? then Some(i.target) else None
  }

  predicate InstrFits(c: Container, i: Instr) {
    && (i.Ldc? ==> i.idx < |c.consts|)
    && (StaticTarget(i).Some? ==> StaticTarget(i).value in Boundaries(c.code))
  }

  predicate EntryFits(c: Container, e: Entry) {
    e.offset in Boundaries(c.code) && e.access.Declared() <= MAX_ACCESS_SLOTS
  }

  predicate SizesFit(c: Container) {
    |c.code| <= MAX_CODE_BYTES && |c.consts| <= MAX_CONSTS && |c.entries| <= MAX_ENTRIES
  }

  /** The containers that may be deployed. */
  ghost predicate Deployable(c: Container) {
    && SizesFit(c)
    && FullyDecodes(c.code)
    && (forall b | b in Boundaries(c.code) :: DecodeAt(c.code, b).Ok? && InstrFits(c, DecodeAt(c.code, b).value.0))
    && (forall j | 0 <= j < |c.entries| :: EntryFits(c, c.entries[j]))
    && (forall j, k | 0 <= j < k < |c.entries| :: c.entries[j].selector != c.entries[k].selector)
  }

  // ---- The verifier's first error ----

  /** The first instruction from `pc` that does not decode or names a missing constant. */
  function ScanError(code: seq<byte>, consts: nat, pc: nat): Option<VerifyError>
    decreases |code| - pc
  {
    if pc >= |code| then None
    else
      match DecodeAt(code, pc)
      case Err(_) => Some(UndecodableCode(pc))
      case Ok((i, n)) =>
        if i.Ldc? && i.idx >= consts then Some(ConstIndexOutOfRange(i.idx))
        else ScanError(code, consts, pc + n)
  }

  /** The static jump targets from `pc`, in code order. */
  function Targets(code: seq<byte>, pc: nat): seq<u32>
    decreases |code| - pc
  {
    if pc < |code| && DecodeAt(code, pc).Ok? then
      var (i, n) := DecodeAt(code, pc).value;
      (if StaticTarget(i).Some? then [StaticTarget(i).value] else []) + Targets(code, pc + n)
    else []
  }

  function TargetError(targets: seq<u32>, starts: set<nat>): Option<VerifyError> {
    if targets == [] then None
    else if targets[0] !in starts then Some(MisalignedTarget(targets[0]))
    else TargetError(targets[1..], starts)
  }

  function EntryError(entries: seq<Entry>, starts: set<nat>, seen: set<Selector>): Option<VerifyError> {
    if entries == [] then None
    else
      var e := entries[0];
      if e.selector in seen then Some(DuplicateSelector(e.selector))
      else if e.offset !in starts then Some(EntryOffsetMisaligned(e.selector))
      else if e.access.Declared() > MAX_ACCESS_SLOTS then Some(AccessListTooLarge(e.selector))
      else EntryError(entries[1..], starts, seen + {e.selector})
  }

  function FirstError(c: Container): Option<VerifyError> {
    if |c.code| > MAX_CODE_BYTES then Some(CodeTooLarge)
    else if |c.consts| > MAX_CONSTS then Some(ConstsTooLarge)
    else if |c.entries| > MAX_ENTRIES then Some(EntriesTooLarge)
    else if ScanError(c.code, |c.consts|, 0).Some? then ScanError(c.code, |c.consts|, 0)
    else if TargetError(Targets(c.code, 0), Boundaries(c.code)).Some? then
      TargetError(Targets(c.code, 0), Boundaries(c.code))
    else EntryError(c.entries, Boundaries(c.code), {})
  }

  lemma {:induction false} ScanExact(code: seq<byte>, consts: nat, pc: nat)
    requires pc <= |code| <= TWO32
    ensures ScanError(code, consts, pc).None? <==>
            && StopOf(code, pc) == |code|
            && forall b | b in Starts(code, pc) ::
                 DecodeAt(code, b).Ok? && (DecodeAt(code, b).value.0.Ldc? ==> DecodeAt(code, b).value.0.idx < consts)
    decreases |code| - pc
  {
    hide DecodeAt, Encode;
    if pc < |code| && DecodeAt(code, pc).Ok? {
      var (i, n) := DecodeAt(code, pc).value;
      DecodeExact(code, pc, i, n);
      ScanExact(code, consts, pc + n);
      assert pc in Starts(code, pc);
    }
  }

  lemma {:induction false} TargetsExact(code: seq<byte>, pc: nat, starts: set<nat>)
    requires pc <= |code| <= TWO32
    ensures TargetError(Targets(code, pc), starts).None? <==>
            forall b | b in Starts(code, pc) ::
              DecodeAt(code, b).Ok? && (StaticTarget(DecodeAt(code, b).value.0).Some? ==>
                                          StaticTarget(DecodeAt(code, b).value.0).value in starts)
    decreases |code| - pc
  {
    hide DecodeAt, Encode, StaticTarget;
    if pc < |code| && DecodeAt(code, pc).Ok? {
      var (i, n) := DecodeAt(code, pc).value;
      DecodeExact(code, pc, i, n);
      TargetsExact(code, pc + n, starts);
      var rest := Targets(code, pc + n);
      assert pc in Starts(code, pc);
      if StaticTarget(i).Some? {
        assert Targets(code, pc)[1..] == rest;
      } else {
        assert Targets(code, pc) == rest;
      }
    }
  }

  lemma {:induction false} EntriesExact(entries: seq<Entry>, starts: set<nat>, seen: set<Selector>)
    ensures EntryError(entries, starts, seen).None? <==>
            && (forall j | 0 <= j < |entries| ::
                  && entries[j].selector !in seen && entries[j].offset in starts
                  && entries[j].access.Declared() <= MAX_ACCESS_SLOTS)
            && forall j, k | 0 <= j < k < |entries| :: entries[j].selector != entries[k].selector
    decreases |entries|
  {
    if entries != [] {
      var rest, seen' := entries[1..], seen + {entries[0].selector};
      EntriesExact(rest, starts, seen');
      assert forall j | 0 <= j < |rest| :: rest[j] == entries[j + 1];
      assert forall j | 1 <= j < |entries| :: entries[j] == rest[j - 1];
    }
  }

  /** The verifier finds no error exactly in deployable containers. */
  lemma VerifyExact(c: Container)
    ensures FirstError(c).None? <==> Deployable(c)
  {
    hide DecodeAt, ScanError, Targets, TargetError, EntryError, StaticTarget, Starts, StopOf;
    if SizesFit(c) {
      ScanExact(c.code, |c.consts|, 0);
      TargetsExact(c.code, 0, Boundaries(c.code));
      EntriesExact(c.entries, Boundaries(c.code), {});
    }
  }

  /** The verifier as the source runs it: one sweep collecting starts and targets, then the
      targets, then the entries. */
  method Verify(c: Container) returns (r: Option<VerifyError>)
    ensures r == FirstError(c)
  {
    hide DecodeAt, Encode;
    if |c.code| > MAX_CODE_BYTES {
      return Some(CodeTooLarge);
    }
    if |c.consts| > MAX_CONSTS {
      return Some(ConstsTooLarge);
    }
    if |c.entries| > MAX_ENTRIES {
      return Some(EntriesTooLarge);
    }
    var starts, targets;
    r, starts, targets := ScanCode(c);
    if r.Some? {
      return;
    }
    r := CheckTargets(targets, starts);
    if r.Some? {
      return;
    }
    r := CheckEntries(c.entries, starts);
  }

  lemma ScanStep(code: seq<byte>, consts: nat, pc: nat, i: Instr, n: nat)
    requires pc < |code| && pc < TWO32 && DecodeAt(code, pc) == Ok((i, n))
    ensures n > 0 && pc + n <= |code|
    ensures Starts(code, pc) == {pc} + Starts(code, pc + n)
    ensures Targets(code, pc)
            == (if StaticTarget(i).Some? then [StaticTarget(i).value] else []) + Targets(code, pc + n)
    ensures ScanError(code, consts, pc)
            == if i.Ldc? && i.idx >= consts then Some(ConstIndexOutOfRange(i.idx)) else ScanError(code, consts, pc + n)
  {
    hide DecodeAt, Encode, StaticTarget;
    DecodeExact(code, pc, i, n);
  }

  /** The sweep has reached `pc` without error, having collected `starts` and `targets`. */
  predicate Scanned(code: seq<byte>, consts: nat, pc: nat, starts: set<nat>, targets: seq<u32>) {
    && ScanError(code, consts, 0) == ScanError(code, consts, pc)
    && Boundaries(code) == starts + Starts(code, pc)
    && Targets(code, 0) == targets + Targets(code, pc)
  }

  lemma ScannedStart(code: seq<byte>, consts: nat)
    ensures Scanned(code, consts, 0, {}, [])
  {
    hide DecodeAt;
  }

  lemma ScannedStep(code: seq<byte>, consts: nat, pc: nat, i: Instr, n: nat, starts: set<nat>, targets: seq<u32>)
    requires pc < |code| && pc < TWO32 && DecodeAt(code, pc) == Ok((i, n))
    requires Scanned(code, consts, pc, starts, targets)
    ensures n > 0 && pc + n <= |code|
    ensures if i.Ldc? && i.idx >= consts then ScanError(code, consts, 0) == Some(ConstIndexOutOfRange(i.idx))
            else
              Scanned(code, consts, pc + n, starts + {pc},
                      if StaticTarget(i).Some? then targets + [StaticTarget(i).value] else targets)
  {
    hide DecodeAt, StaticTarget, Starts, Targets, ScanError;
    ScanStep(code, consts, pc, i, n);
    assert (starts + {pc}) + Starts(code, pc + n) == starts + ({pc} + Starts(code, pc + n));
    var here, rest := if StaticTarget(i).Some? then [StaticTarget(i).value] else [], Targets(code, pc + n);
    assert (targets + here) + rest == targets + (here + rest);
  }

  lemma ScannedStops(code: seq<byte>, consts: nat, pc: nat, starts: set<nat>, targets: seq<u32>)
    requires Scanned(code, consts, pc, starts, targets)
    ensures pc < |code| && DecodeAt(code, pc).Err? ==> ScanError(code, consts, 0) == Some(UndecodableCode(pc))
    ensures pc == |code| ==>
              ScanError(code, consts, 0).None? && starts == Boundaries(code) && targets == Targets(code, 0)
  {
    hide DecodeAt;
  }

  /** The sweep loop: boundaries and static targets, unless it meets an error. */
  method ScanCode(c: Container) returns (r: Option<VerifyError>, starts: set<nat>, targets: seq<u32>)
    requires |c.code| <= MAX_CODE_BYTES
    ensures r == ScanError(c.code, |c.consts|, 0)
    ensures r.None? ==> starts == Boundaries(c.code) && targets == Targets(c.code, 0)
  {
    var code, pc := c.code, 0;
    r, starts, targets := None, {}, [];
    hide DecodeAt, StaticTarget, Starts, Targets, ScanError, Scanned;
    ScannedStart(code, |c.consts|);
    while r.None? && pc < |code|
      invariant 0 <= pc <= |code|
      invariant r.Some? ==> r == ScanError(code, |c.consts|, 0)
      invariant r.None? ==> Scanned(code, |c.consts|, pc, starts, targets)
      decreases r.None?, |code| - pc
    {
      var d := Decode(code, pc);
      if d.Err? {
        ScannedStops(code, |c.consts|, pc, starts, targets);
        r := Some(UndecodableCode(pc));
      } else {
        var i, n := d.value.0, d.value.1;
        ScannedStep(code, |c.consts|, pc, i, n, starts, targets);
        starts := starts + {pc};
        if StaticTarget(i).Some? {
          targets := targets + [StaticTarget(i).value];
        }
        if i.Ldc? && i.idx >= |c.consts| {
          r := Some(ConstIndexOutOfRange(i.idx));
        }
        pc := pc + n;
      }
    }
    if r.None? {
      ScannedStops(code, |c.consts|, pc, starts, targets);
    }
  }

  method CheckTargets(targets: seq<u32>, starts: set<nat>) returns (r: Option<VerifyError>)
    ensures r == TargetError(targets, starts)
  {
    var j := 0;
    assert targets[0..] == targets;
    while j < |targets|
      invariant 0 <= j <= |targets|
      invariant TargetError(targets[j..], starts) == TargetError(targets, starts)
    {
      assert targets[j..][1..] == targets[j + 1..];
      if targets[j] !in starts {
        return Some(MisalignedTarget(targets[j]));
      }
      j := j + 1;
    }
    return None;
  }

  method CheckEntries(entries: seq<Entry>, starts: set<nat>) returns (r: Option<VerifyError>)
    ensures r == EntryError(entries, starts, {})
  {
    var seen: set<Selector> := {};
    var j := 0;
    assert entries[0..] == entries;
    while j < |entries|
      invariant 0 <= j <= |entries|
      invariant EntryError(entries[j..], starts, seen) == EntryError(entries, starts, {})
    {
      var e := entries[j];
      assert entries[j..][1..] == entries[j + 1..];
      if e.selector in seen {
        return Some(DuplicateSelector(e.selector));
      }
      seen := seen + {e.selector};
      if e.offset !in starts {
        return Some(EntryOffsetMisaligned(e.selector));
      }
      if e.access.Declared() > MAX_ACCESS_SLOTS {
        return Some(AccessListTooLarge(e.selector));
      }
      j := j + 1;
    }
    return None;
  }

  // ---- What the verifier's verdicts mean, on the listing alone ----

  /** An instruction whose constant exists and whose target, if it is a jump or a call, is listed. */
  ghost predicate Allowed(list: seq<Placed>, consts: nat, i: Instr) {
    && (i.Ldc? ==> i.idx < consts)
    && (i.Jmp? ==> ListedAt(list, i.target))
    && (i.Call? ==> ListedAt(list, i.target))
    && (i.Jz? ==> ListedAt(list, i.target))
    && (i.Jnz? ==> ListedAt(list, i.target))
  }

  ghost predicate EntryAllowed(list: seq<Placed>, e: Entry) {
    var a := e.access;
    ListedAt(list, e.offset) && |a.slotReads| + |a.slotWrites| + |a.keyedReads| + |a.keyedWrites| <= 4096
  }

  lemma BoundariesAreListed(code: seq<byte>, b: nat)
    requires |code| <= 65536
    ensures b in Boundaries(code) <==> ListedAt(Listing(code, 0), b)
  {
    hide Starts, Listing, ListedAt;
    StartsAreListed(code, 0, b);
    if ListedAt(Listing(code, 0), b) {
      ListedAhead(code, 0, b);
    }
  }

  lemma InstrAllowed(c: Container, i: Instr)
    requires |c.code| <= 65536
    ensures InstrFits(c, i) <==> Allowed(Listing(c.code, 0), |c.consts|, i)
  {
    hide Starts, Listing, ListedAt;
    if StaticTarget(i).Some? {
      BoundariesAreListed(c.code, StaticTarget(i).value);
    }
  }

  lemma ListedInstrs(code: seq<byte>, k: nat)
    requires |code| <= 65536 && k < |Listing(code, 0)|
    ensures var p := Listing(code, 0)[k];
            p.at in Boundaries(code) && DecodeAt(code, p.at).Ok? && DecodeAt(code, p.at).value.0 == p.instr
  {
    hide Starts, Listing, DecodeAt;
    ListingAhead(code, 0, k);
    assert ListedAt(Listing(code, 0), Listing(code, 0)[k].at);
    BoundariesAreListed(code, Listing(code, 0)[k].at);
  }

  /** The instruction at a boundary decodes and fits. */
  ghost predicate FitsAt(c: Container, b: nat) {
    DecodeAt(c.code, b).Ok? && InstrFits(c, DecodeAt(c.code, b).value.0)
  }

  lemma FitsWhereListed(c: Container, k: nat)
    requires |c.code| <= 65536 && k < |Listing(c.code, 0)|
    ensures var list := Listing(c.code, 0);
            list[k].at in Boundaries(c.code) && (FitsAt(c, list[k].at) <==> Allowed(list, |c.consts|, list[k].instr))
  {
    hide Starts, Listing, DecodeAt, InstrFits, Allowed;
    ListedInstrs(c.code, k);
    InstrAllowed(c, Listing(c.code, 0)[k].instr);
  }

  lemma BoundaryIsListed(code: seq<byte>, b: nat) returns (k: nat)
    requires |code| <= 65536 && b in Boundaries(code)
    ensures k < |Listing(code, 0)| && Listing(code, 0)[k].at == b
  {
    hide Starts, Listing;
    BoundariesAreListed(code, b);
    k :| 0 <= k < |Listing(code, 0)| && Listing(code, 0)[k].at == b;
  }

  ghost predicate AllFit(c: Container) {
    forall b | b in Boundaries(c.code) :: FitsAt(c, b)
  }

  ghost predicate AllAllowed(list: seq<Placed>, consts: nat) {
    forall k | 0 <= k < |list| :: Allowed(list, consts, list[k].instr)
  }

  lemma AllFitWhenAllowed(c: Container)
    requires |c.code| <= 65536 && AllAllowed(Listing(c.code, 0), |c.consts|)
    ensures AllFit(c)
  {
    hide Starts, Listing, FitsAt, Allowed;
    forall b | b in Boundaries(c.code) ensures FitsAt(c, b) {
      var k := BoundaryIsListed(c.code, b);
      FitsWhereListed(c, k);
    }
  }

  lemma AllAllowedWhenFit(c: Container)
    requires |c.code| <= 65536 && AllFit(c)
    ensures AllAllowed(Listing(c.code, 0), |c.consts|)
  {
    hide Starts, Listing, FitsAt, Allowed;
    var list := Listing(c.code, 0);
    forall k | 0 <= k < |list| ensures Allowed(list, |c.consts|, list[k].instr) {
      FitsWhereListed(c, k);
    }
  }

  lemma CodeAllowed(c: Container)
    requires |c.code| <= 65536
    ensures AllFit(c) <==> AllAllowed(Listing(c.code, 0), |c.consts|)
  {
    hide AllFit, AllAllowed, Listing;
    if AllFit(c) {
      AllAllowedWhenFit(c);
    }
    if AllAllowed(Listing(c.code, 0), |c.consts|) {
      AllFitWhenAllowed(c);
    }
  }

  lemma DeployableParts(c: Container)
    ensures Deployable(c) <==>
            && SizesFit(c) && FullyDecodes(c.code) && AllFit(c)
            && (forall j | 0 <= j < |c.entries| :: EntryFits(c, c.entries[j]))
            && (forall j, k | 0 <= j < k < |c.entries| :: c.entries[j].selector != c.entries[k].selector)
  {
    hide Starts, DecodeAt, InstrFits, EntryFits, StopOf;
  }

  /** Deployable containers: at most 65536 bytes of code, 4096 constants and 256 entries; code that
      decodes to its end, every constant in the pool and every target an instruction; and entries of
      distinct selectors that start at instructions and declare at most 4096 slots and bases. */
  lemma DeployableMeans(c: Container)
    ensures var list := Listing(c.code, 0);
            Deployable(c) <==>
            && |c.code| <= 65536 && |c.consts| <= 4096 && |c.entries| <= 256
            && StopOf(c.code, 0) == |c.code|
            && (forall k | 0 <= k < |list| :: Allowed(list, |c.consts|, list[k].instr))
            && (forall j | 0 <= j < |c.entries| :: EntryAllowed(list, c.entries[j]))
            && (forall j, k | 0 <= j < k < |c.entries| :: c.entries[j].selector != c.entries[k].selector)
  {
    hide Starts, Listing, ListedAt, StopOf, Deployable, Allowed, AllFit;
    DeployableParts(c);
    if |c.code| <= 65536 {
      CodeAllowed(c);
      forall j | 0 <= j < |c.entries|
        ensures EntryFits(c, c.entries[j]) <==> EntryAllowed(Listing(c.code, 0), c.entries[j])
      {
        BoundariesAreListed(c.code, c.entries[j].offset);
      }
    }
  }

  // ---- Which error the verifier reports ----

  lemma {:induction false} ScanFirst(code: seq<byte>, consts: nat, pc: nat) returns (k: nat)
    requires pc <= |code|
    ensures var list := Listing(code, pc);
            match ScanError(code, consts, pc)
            case None => true
            case Some(UndecodableCode(x)) =>
              && x == StopOf(code, pc) < |code|
              && forall j | 0 <= j < |list| :: list[j].instr.Ldc? ==> list[j].instr.idx < consts
            case Some(ConstIndexOutOfRange(idx)) =>
              && k < |list| && list[k].instr.Ldc? && list[k].instr.idx == idx >= consts
              && forall j | 0 <= j < k :: list[j].instr.Ldc? ==> list[j].instr.idx < consts
            case _ => false
    decreases |code| - pc
  {
    hide DecodeAt, Encode, Listing, StopOf, ScanError;
    k := 0;
    ScanUnfolds(code, consts, pc);
    if pc < |code| && DecodeAt(code, pc).Ok? {
      var (i, n) := DecodeAt(code, pc).value;
      DecodeExact(code, pc, i, n);
      k := ScanFirst(code, consts, pc + n);
      var list, rest := Listing(code, pc), Listing(code, pc + n);
      assert forall j | 1 <= j < |list| :: list[j] == rest[j - 1];
      k := if i.Ldc? && i.idx >= consts then 0 else k + 1;
    }
  }

  lemma ScanUnfolds(code: seq<byte>, consts: nat, pc: nat)
    requires pc <= |code|
    ensures if pc < |code| && DecodeAt(code, pc).Ok? then
              var (i, n) := DecodeAt(code, pc).value;
              && Listing(code, pc) == [Placed(pc, i)] + Listing(code, pc + n)
              && StopOf(code, pc) == StopOf(code, pc + n)
              && ScanError(code, consts, pc) ==
                 if i.Ldc? && i.idx >= consts then Some(ConstIndexOutOfRange(i.idx)) else ScanError(code, consts, pc + n)
            else
              && Listing(code, pc) == [] && StopOf(code, pc) == pc
              && ScanError(code, consts, pc) == if pc < |code| then Some(UndecodableCode(pc)) else None
  {
    hide DecodeAt;
  }

  lemma {:induction false} TargetFirst(code: seq<byte>, pc: nat, starts: set<nat>) returns (k: nat)
    requires pc <= |code|
    ensures var list := Listing(code, pc);
            match TargetError(Targets(code, pc), starts)
            case None => true
            case Some(MisalignedTarget(t)) =>
              && k < |list| && StaticTarget(list[k].instr) == Some(t) && t !in starts
              && forall j | 0 <= j < k :: StaticTarget(list[j].instr).Some? ==> StaticTarget(list[j].instr).value in starts
            case _ => false
    decreases |code| - pc
  {
    hide DecodeAt, Encode, StaticTarget, Listing, Targets, TargetError;
    k := 0;
    TargetsUnfold(code, pc, starts);
    if pc < |code| && DecodeAt(code, pc).Ok? {
      var (i, n) := DecodeAt(code, pc).value;
      DecodeExact(code, pc, i, n);
      k := TargetFirst(code, pc + n, starts);
      var list, rest := Listing(code, pc), Listing(code, pc + n);
      assert forall j | 1 <= j < |list| :: list[j] == rest[j - 1];
      k := if StaticTarget(i).Some? && StaticTarget(i).value !in starts then 0 else k + 1;
    }
  }

  lemma TargetsUnfold(code: seq<byte>, pc: nat, starts: set<nat>)
    requires pc <= |code|
    ensures if pc < |code| && DecodeAt(code, pc).Ok? then
              var (i, n) := DecodeAt(code, pc).value;
              && Listing(code, pc) == [Placed(pc, i)] + Listing(code, pc + n)
              && TargetError(Targets(code, pc), starts) ==
                 if StaticTarget(i).Some? && StaticTarget(i).value !in starts then
                   Some(MisalignedTarget(StaticTarget(i).value))
                 else TargetError(Targets(code, pc + n), starts)
            else TargetError(Targets(code, pc), starts) == None
  {
    hide DecodeAt, StaticTarget;
    if pc < |code| && DecodeAt(code, pc).Ok? {
      var (i, n) := DecodeAt(code, pc).value;
      var rest := Targets(code, pc + n);
      if StaticTarget(i).Some? {
        assert Targets(code, pc)[1..] == rest;
      } else {
        assert Targets(code, pc) == rest;
      }
    }
  }

  /** The first entry that fails, after entries that are all in order. */
  ghost predicate FailsFirst(entries: seq<Entry>, starts: set<nat>, seen: set<Selector>, j: nat) {
    && j < |entries|
    && (forall k | 0 <= k < j ::
          entries[k].selector !in seen && entries[k].offset in starts && entries[k].access.Declared() <= 4096)
    && (forall i, k | 0 <= i < k < j :: entries[i].selector != entries[k].selector)
  }

  ghost predicate Repeats(entries: seq<Entry>, seen: set<Selector>, j: nat)
    requires j < |entries|
  {
    entries[j].selector in seen || exists k :: 0 <= k < j && entries[k].selector == entries[j].selector
  }

  lemma {:induction false} EntryFirst(entries: seq<Entry>, starts: set<nat>, seen: set<Selector>) returns (j: nat)
    ensures match EntryError(entries, starts, seen)
            case None => true
            case Some(DuplicateSelector(x)) =>
              FailsFirst(entries, starts, seen, j) && x == entries[j].selector && Repeats(entries, seen, j)
            case Some(EntryOffsetMisaligned(x)) =>
              && FailsFirst(entries, starts, seen, j) && x == entries[j].selector && !Repeats(entries, seen, j)
              && entries[j].offset !in starts
            case Some(AccessListTooLarge(x)) =>
              && FailsFirst(entries, starts, seen, j) && x == entries[j].selector && !Repeats(entries, seen, j)
              && entries[j].offset in starts && entries[j].access.Declared() > 4096
            case _ => false
    decreases |entries|
  {
    j := 0;
    if entries != [] && EntryError(entries, starts, seen).Some? {
      var e, rest := entries[0], entries[1..];
      if e.selector !in seen && e.offset in starts && e.access.Declared() <= MAX_ACCESS_SLOTS {
        j := EntryFirst(rest, starts, seen + {e.selector});
        FailsLater(entries, starts, seen, j);
        j := j + 1;
      }
    }
  }

  lemma FailsLater(entries: seq<Entry>, starts: set<nat>, seen: set<Selector>, j: nat)
    requires entries != [] && FailsFirst(entries[1..], starts, seen + {entries[0].selector}, j)
    requires entries[0].selector !in seen && entries[0].offset in starts && entries[0].access.Declared() <= 4096
    ensures FailsFirst(entries, starts, seen, j + 1)
    ensures Repeats(entries, seen, j + 1) <==> Repeats(entries[1..], seen + {entries[0].selector}, j)
    ensures entries[j + 1] == entries[1..][j]
  {
    var rest := entries[1..];
    assert forall k | 0 <= k < |rest| :: rest[k] == entries[k + 1];
    assert forall k | 1 <= k < |entries| :: entries[k] == rest[k - 1];
    if Repeats(rest, seen + {entries[0].selector}, j) {
      if rest[j].selector == entries[0].selector {
        assert entries[0].selector == entries[j + 1].selector;
      } else if k :| 0 <= k < j && rest[k].selector == rest[j].selector {
        assert entries[k + 1].selector == entries[j + 1].selector;
      }
    }
    if k :| 0 <= k < j + 1 && entries[k].selector == entries[j + 1].selector {
      if k > 0 {
        assert rest[k - 1].selector == rest[j].selector;
      }
    }
  }

  /** The error the verifier reports is the first there is, in its own order: sizes; then the listing, an
      unknown constant or the place where decoding stops; then targets; then entries, each for its
      selector, its offset and its lists. */
  lemma ErrorIsFirst(c: Container) returns (k: nat)
    ensures var list, starts := Listing(c.code, 0), Boundaries(c.code);
            var sizes := |c.code| <= 65536 && |c.consts| <= 4096 && |c.entries| <= 256;
            var consts := forall j | 0 <= j < |list| :: list[j].instr.Ldc? ==> list[j].instr.idx < |c.consts|;
            match FirstError(c)
            case None => Deployable(c)
            case Some(CodeTooLarge) => |c.code| > 65536
            case Some(ConstsTooLarge) => |c.code| <= 65536 && |c.consts| > 4096
            case Some(EntriesTooLarge) => |c.code| <= 65536 && |c.consts| <= 4096 && |c.entries| > 256
            case Some(UndecodableCode(pc)) => sizes && consts && pc == StopOf(c.code, 0) < |c.code|
            case Some(ConstIndexOutOfRange(idx)) =>
              && sizes && k < |list| && list[k].instr.Ldc? && list[k].instr.idx == idx >= |c.consts|
              && forall j | 0 <= j < k :: list[j].instr.Ldc? ==> list[j].instr.idx < |c.consts|
            case Some(MisalignedTarget(t)) =>
              && sizes && StopOf(c.code, 0) == |c.code|
              && k < |list| && StaticTarget(list[k].instr) == Some(t) && t !in starts
              && forall j | 0 <= j < k :: StaticTarget(list[j].instr).Some? ==> StaticTarget(list[j].instr).value in starts
            case Some(DuplicateSelector(x)) =>
              sizes && FailsFirst(c.entries, starts, {}, k) && x == c.entries[k].selector && Repeats(c.entries, {}, k)
            case Some(EntryOffsetMisaligned(x)) =>
              && sizes && FailsFirst(c.entries, starts, {}, k) && x == c.entries[k].selector
              && !Repeats(c.entries, {}, k) && c.entries[k].offset !in starts
            case Some(AccessListTooLarge(x)) =>
              && sizes && FailsFirst(c.entries, starts, {}, k) && x == c.entries[k].selector
              && !Repeats(c.entries, {}, k) && c.entries[k].offset in starts && c.entries[k].access.Declared() > 4096
  {
    hide DecodeAt, ScanError, Targets, TargetError, EntryError, StaticTarget, Starts, StopOf, Listing, FailsFirst,
      Repeats, Deployable;
    VerifyExact(c);
    k := 0;
    if SizesFit(c) {
      var a := ScanFirst(c.code, |c.consts|, 0);
      var b := TargetFirst(c.code, 0, Boundaries(c.code));
      var d := EntryFirst(c.entries, Boundaries(c.code), {});
      ScanExact(c.code, |c.consts|, 0);
      k := if ScanError(c.code, |c.consts|, 0).Some? then a
           else if TargetError(Targets(c.code, 0), Boundaries(c.code)).Some? then b else d;
    }
  }

  // ---- Dispatch ----

  const GENESIS_SIGNATURE: seq<byte> := [64, 103, 101, 110, 101, 115, 105, 115, 40, 41]

  /** The selector of a signature: the leading bytes of its digest. */
  function SelectorOf(p: Prims, signature: seq<byte>): Selector {
    p.sha3(signature)[..SELECTOR_BYTES]
  }

  function EntryOffset(entries: seq<Entry>, selector: Selector): Option<u32> {
    if entries == [] then None
    else if entries[0].selector == selector then Some(entries[0].offset)
    else EntryOffset(entries[1..], selector)
  }

  function Matching(entries: seq<Entry>, selector: Selector): seq<Entry> {
    if entries == [] then []
    else (if entries[0].selector == selector then [entries[0]] else []) + Matching(entries[1..], selector)
  }

  function SlotKeys(slots: seq<u64>): set<Key> {
    set j | 0 <= j < |slots| :: ScalarKey(slots[j])
  }

  function ManifestOf(a: StateAccess): Manifest {
    Manifest(SlotKeys(a.slotReads), SlotKeys(a.slotWrites),
             set x | x in a.keyedReads, set x | x in a.keyedWrites)
  }

  function DispatchPrice(code: seq<byte>): nat {
    DISPATCH + |code| * CODE_SCAN_PER_BYTE
  }

  /** An opened entry, before storage and call data are attached. */
  datatype Opened = Opened(manifest: Manifest, offset: u32, used: nat)

  function OpenEntry(c: Container, selector: Selector, limit: u64): Result<Opened, Fault> {
    if !SizesFit(c) then Err(Malformed)
    else
      var found := Matching(c.entries, selector);
      if found == [] then Err(UnknownSelector)
      else if |found| > 1 then Err(Malformed)
      else if found[0].access.Declared() > MAX_ACCESS_SLOTS then Err(Malformed)
      else if DispatchPrice(c.code) > limit then Err(OutOfMeter)
      else if found[0].offset !in Boundaries(c.code) then Err(Malformed)
      else Ok(Opened(ManifestOf(found[0].access), found[0].offset, DispatchPrice(c.code)))
  }

  function OpenForEntry(p: Prims, c: Container, selector: Selector, limit: u64): Result<Opened, Fault> {
    if selector == SelectorOf(p, GENESIS_SIGNATURE) then Err(UnknownSelector)
    else OpenEntry(c, selector, limit)
  }

  function OpenForGenesis(p: Prims, c: Container, limit: u64): Result<Opened, Fault> {
    OpenEntry(c, SelectorOf(p, GENESIS_SIGNATURE), limit)
  }

  lemma {:induction false} MatchingIsEntry(entries: seq<Entry>, selector: Selector)
    requires forall j, k | 0 <= j < k < |entries| :: entries[j].selector != entries[k].selector
    ensures var found := Matching(entries, selector);
            && |found| <= 1
            && (found == [] <==> EntryOffset(entries, selector).None?)
            && (found == [] <==> forall j | 0 <= j < |entries| :: entries[j].selector != selector)
            && (found != [] ==> found[0] in entries && EntryOffset(entries, selector) == Some(found[0].offset))
    decreases |entries|
  {
    if entries != [] {
      var rest := entries[1..];
      MatchingIsEntry(rest, selector);
      assert forall j | 0 <= j < |rest| :: rest[j] == entries[j + 1];
      assert forall j | 1 <= j < |entries| :: entries[j] == rest[j - 1];
      if entries[0].selector == selector {
        assert Matching(rest, selector) == [];
      }
    }
  }

  /** How many entries hold a selector. */
  lemma {:induction false} MatchingCounts(entries: seq<Entry>, selector: Selector, j: nat, k: nat)
    ensures (forall i | 0 <= i < |entries| :: entries[i].selector != selector) <==> Matching(entries, selector) == []
    ensures j < k < |entries| && entries[j].selector == selector && entries[k].selector == selector ==>
              |Matching(entries, selector)| > 1
    ensures j < |entries| && entries[j].selector == selector
            && (forall i | 0 <= i < |entries| && i != j :: entries[i].selector != selector) ==>
              Matching(entries, selector) == [entries[j]]
    decreases |entries|
  {
    if entries != [] {
      var rest := entries[1..];
      assert forall i | 0 <= i < |rest| :: rest[i] == entries[i + 1];
      assert forall i | 1 <= i < |entries| :: entries[i] == rest[i - 1];
      MatchingCounts(rest, selector, if j > 0 then j - 1 else 0, if k > 0 then k - 1 else 0);
    }
  }

  /** Opening an entry of any container, deployable or not, in the source's order: sizes; the one entry
      that holds the selector; its lists; the meter; its offset. */
  lemma OpeningExact(c: Container, selector: Selector, limit: u64, j: nat, k: nat)
    ensures var r := OpenEntry(c, selector, limit);
            if |c.code| > 65536 || |c.consts| > 4096 || |c.entries| > 256 then r == Err(Malformed)
            else
              && ((forall i | 0 <= i < |c.entries| :: c.entries[i].selector != selector) ==> r == Err(UnknownSelector))
              && (j < k < |c.entries| && c.entries[j].selector == selector && c.entries[k].selector == selector ==>
                    r == Err(Malformed))
              && (j < |c.entries| && c.entries[j].selector == selector
                  && (forall i | 0 <= i < |c.entries| && i != j :: c.entries[i].selector != selector) ==>
                    r == if c.entries[j].access.Declared() > 4096 then Err(Malformed)
                         else if 4 + 9 * |c.code| > limit then Err(OutOfMeter)
                         else if c.entries[j].offset !in Boundaries(c.code) then Err(Malformed)
                         else Ok(Opened(ManifestOf(c.entries[j].access), c.entries[j].offset, 4 + 9 * |c.code|)))
  {
    hide Starts, ManifestOf, Matching;
    MatchingCounts(c.entries, selector, j, k);
  }

  /** The manifest of declared lists: the keys of the slots read and of the slots written, and the bases
      read and written, each from its own list. */
  lemma ManifestMeans(a: StateAccess, slot: u64)
    ensures var m := ManifestOf(a);
            && (ScalarKey(slot) in m.scalarReads <==> slot in a.slotReads)
            && (ScalarKey(slot) in m.scalarWrites <==> slot in a.slotWrites)
            && (slot in m.keyedReads <==> slot in a.keyedReads)
            && (slot in m.keyedWrites <==> slot in a.keyedWrites)
            && (forall k | k in m.scalarReads + m.scalarWrites :: exists x: u64 :: k == ScalarKey(x))
  {
    hide ScalarKey;
    SlotKeyExact(a.slotReads, slot);
    SlotKeyExact(a.slotWrites, slot);
  }

  lemma SlotKeyExact(slots: seq<u64>, slot: u64)
    ensures ScalarKey(slot) in SlotKeys(slots) <==> slot in slots
  {
    hide ScalarKey;
    if ScalarKey(slot) in SlotKeys(slots) {
      var j :| 0 <= j < |slots| && ScalarKey(slots[j]) == ScalarKey(slot);
      ScalarKeyInjective(slots[j], slot);
    }
  }

  /** The deploy check and dispatch agree: in a deployable container a declared selector opens
      exactly when the limit covers dispatch and the code scan, at the offset the container
      declares; any other selector is unknown. Nothing is ever malformed. */
  lemma OpeningAgrees(c: Container, selector: Selector, limit: u64)
    requires Deployable(c)
    ensures var r := OpenEntry(c, selector, limit);
            && (r.Ok? <==> EntryOffset(c.entries, selector).Some? && limit >= 4 + 9 * |c.code|)
            && (r.Ok? ==> r.value.offset == EntryOffset(c.entries, selector).value
                          && r.value.used == 4 + 9 * |c.code|
                          && r.value.offset in Boundaries(c.code))
            && r != Err(Malformed)
            && (r == Err(OutOfMeter) ==> limit < 4 + 9 * |c.code|)
  {
    hide Starts, ManifestOf, SelectorOf, Matching, EntryOffset, Deployable;
    DeployableEntries(c);
    MatchingIsEntry(c.entries, selector);
  }

  lemma DeployableEntries(c: Container)
    requires Deployable(c)
    ensures SizesFit(c)
    ensures forall e | e in c.entries :: e.offset in Boundaries(c.code) && e.access.Declared() <= MAX_ACCESS_SLOTS
    ensures forall j, k | 0 <= j < k < |c.entries| :: c.entries[j].selector != c.entries[k].selector
  {
    hide Starts, FullyDecodes, InstrFits, DecodeAt;
    forall e | e in c.entries ensures EntryFits(c, e) {
      var j :| 0 <= j < |c.entries| && c.entries[j] == e;
    }
  }

  /** The same at the two doors: an entry call opens any declared selector but genesis, and the
      genesis call opens that one alone. */
  lemma DispatchAgrees(p: Prims, c: Container, selector: Selector, limit: u64)
    requires Deployable(c)
    ensures var r := OpenForEntry(p, c, selector, limit);
            var genesis := p.sha3([64, 103, 101, 110, 101, 115, 105, 115, 40, 41])[..4];
            && (r.Ok? <==>
                  && selector != genesis
                  && EntryOffset(c.entries, selector).Some?
                  && limit >= 4 + 9 * |c.code|)
            && (r.Ok? ==> r.value.offset == EntryOffset(c.entries, selector).value
                          && r.value.used == 4 + 9 * |c.code|
                          && r.value.offset in Boundaries(c.code))
            && r != Err(Malformed)
            && (r == Err(OutOfMeter) ==> limit < 4 + 9 * |c.code|)
    ensures var r := OpenForGenesis(p, c, limit);
            var genesis := p.sha3([64, 103, 101, 110, 101, 115, 105, 115, 40, 41])[..4];
            && (r.Ok? <==> EntryOffset(c.entries, genesis).Some? && limit >= 4 + 9 * |c.code|)
            && (r.Ok? ==> r.value.offset == EntryOffset(c.entries, genesis).value)
            && r != Err(Malformed)
  {
    hide Deployable, OpenEntry, Starts, ManifestOf, Matching, EntryOffset;
    OpeningAgrees(c, selector, limit);
    OpeningAgrees(c, SelectorOf(p, GENESIS_SIGNATURE), limit);
  }

  /** A container that may be deployed is bound by its bytes: those of any other container,
      deployable or not, are different, and neither begins the other; so an identifier they share
      is a collision of the two. */
  lemma DeployedIsBound(c: Container, c': Container)
    requires Deployable(c) && c != c'
    ensures CanonicalBytes(c) != CanonicalBytes(c')
    ensures !(CanonicalBytes(c) <= CanonicalBytes(c')) && !(CanonicalBytes(c') <= CanonicalBytes(c))
  {
    hide CanonicalBytes, FullyDecodes, Starts, InstrFits, Short;
    DeployableIsShort(c);
    var s, s' := CanonicalBytes(c), CanonicalBytes(c');
    if s <= s' {
      CanonicalBinds(c, s'[|s|..], c', []);
      assert false;
    }
    if s' <= s {
      CanonicalBinds(c, [], c', s[|s'|..]);
      assert false;
    }
  }

  lemma DeployableIsShort(c: Container)
    requires Deployable(c)
    ensures Short(c)
  {
    hide FullyDecodes, Starts, InstrFits;
    forall e | e in c.entries ensures ShortEntry(e) {
      var j :| 0 <= j < |c.entries| && c.entries[j] == e;
      assert EntryFits(c, c.entries[j]);
    }
  }
}
