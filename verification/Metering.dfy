/** The meter: exact thresholds, termination and what a run's bill is made of. */
module Metering {
  import opened Bytes
  import opened Isa
  import opened Sweep
  import opened Meter
  import opened Machines
  import opened Crypto
  import opened Local
  import opened Semantics

  /** No instruction raises the meter or decode faults itself. */
  lemma MoveFaults(w: World, c: Ctl, i: Instr, v: u64)
    requires Trans(w, c, i, v).Fail?
    ensures var f := Trans(w, c, i, v).fault;
            && f != OutOfMeter && !f.Undecodable?
            && (f == BadConst <==> i.Ldc? && i.idx >= |w.consts|)
            && (f == BadJump <==> IsLocal(i) && JumpTarget(c.m, i).Some? &&
                                  !(JumpTarget(c.m, i).value < TWO32 && JumpTarget(c.m, i).value in Boundaries(w.code)))
  {
    hide StepLocal, Region, WriteAt, MayRead, MayWrite, MintTarget, TargetPrice, PaysLeaf, BaseOf,
      ReadBase, WriteBase, HashVariable, JumpTarget, Boundaries;
    if IsLocal(i) {
      LocalFaults(w.consts, Boundaries(w.code), w.prims, c.m, i);
    }
  }

  /** A turn under another limit: the same, or out of meter. */
  lemma TurnLimit(w: World, limit: nat, other: nat, c: Ctl, used: nat, v: u64)
    ensures var r := Turn(w, limit, c, used, v);
            && (r != BeatFault(OutOfMeter) && other >= limit ==> Turn(w, other, c, used, v) == r)
            && (!r.BeatFault? ==>
                  Turn(w, other, c, used, v) == if other >= r.used then r else BeatFault(OutOfMeter))
  {
    hide DecodeAt, CostOf, Trans;
    match Fetched(w, c)
    case Err(_) =>
    case Ok((i, n)) =>
      OnlyHaltIsFree(i);
      if c.m.pc + n < TWO32 {
        OnlyHaltStops(w, Advance(c, c.m.pc + n), i, v);
      }
  }

  lemma NextLimit(w: World, limit: nat, other: nat, s: Config)
    ensures var r := Next(w, limit, s);
            && (r != Crash(OutOfMeter) && other >= limit ==> Next(w, other, s) == r)
            && (!r.Crash? ==> Next(w, other, s) == if other >= r.s.used then r else Crash(OutOfMeter))
  {
    hide Turn, Wants;
    var k := Wants(w, s.c);
    TurnLimit(w, limit, other, s.c, s.used, if k.Some? then Lookup(w, s, k.value) else 0);
  }

  /** A run that halts having used `u` halts alike under every limit of at least `u` and runs out
      of meter under every smaller one; any other fault than running out stays under larger
      limits. */
  lemma {:induction false} ExactThreshold(w: World, limit: nat, other: nat, s: Config)
    ensures var r := Run(w, limit, s);
            && (r.Halts? ==>
                  && r.final.used >= s.used
                  && Run(w, other, s) == if other >= r.final.used then r else Faults(OutOfMeter))
            && (r != Faults(OutOfMeter) && other >= limit ==> Run(w, other, s) == r)
    decreases limit - s.used
  {
    hide Next;
    NextMeter(w, limit, s);
    NextLimit(w, limit, other, s);
    match Next(w, limit, s)
    case More(s') => ExactThreshold(w, limit, other, s');
    case _ =>
  }

  /** The meter pays for every step, so a run has at most one state per unit left, plus one. */
  lemma {:induction false} StepsAreBounded(w: World, limit: nat, t: seq<Config>)
    requires IsRun(w, limit, t) && t[0].used <= limit
    ensures t[0].used + |t| - 1 <= Last(t).used <= limit
    decreases |t|
  {
    hide Next;
    if |t| > 1 {
      var before := t[..|t| - 1];
      StepsAreBounded(w, limit, before);
      NextMeter(w, limit, Last(before));
      assert Next(w, limit, t[|t| - 2]) == More(t[|t| - 1]);
    }
  }

  // ---- The ledger ----

  function TransferBytes(effects: seq<Effect>): nat {
    if effects == [] then 0
    else
      var e := effects[|effects| - 1];
      TransferBytes(effects[..|effects| - 1]) + if e.Transfer? then |e.to| else 0
  }

  function EventBytes(effects: seq<Effect>): nat {
    if effects == [] then 0
    else
      var e := effects[|effects| - 1];
      EventBytes(effects[..|effects| - 1]) + if e.Event? then |e.data| else 0
  }

  function EventCount(effects: seq<Effect>): nat {
    if effects == [] then 0
    else EventCount(effects[..|effects| - 1]) + if effects[|effects| - 1].Event? then 1 else 0
  }

  /** The ledger accounts a list of effects touches: one per transfer recipient, one per minted
      holder. */
  function DurableTargets(effects: seq<Effect>): set<seq<byte>> {
    if effects == [] then {}
    else
      var e := effects[|effects| - 1];
      DurableTargets(effects[..|effects| - 1]) +
      (match e
       case Transfer(to, _) => {[0] + to}
       case Event(selector, data) =>
         if selector == [77, 73, 78, 84] && |data| >= 40 then {[1] + data[..32]} else {})
  }

  function Past(n: nat, free: nat): nat {
    if n > free then n - free else 0
  }

  /** The part of the bill the recorded effects and authorisations account for. */
  function Bill(c: Ctl): nat {
    2 * TransferBytes(c.effects)
    + 100 * EventBytes(c.effects)
    + 227_000 * Past(|DurableTargets(c.effects)|, 1)
    + 6_250 * Past(EventCount(c.effects), 4)
    + 948 * |c.authR|
  }

  /** The counters agree with what was recorded, and both retained totals are capped. */
  predicate Booked(c: Ctl) {
    && c.effectsBytes == TransferBytes(c.effects) + EventBytes(c.effects) + 32 * |c.effects|
    && c.effectsBytes <= 0x10_0000
    && c.events == EventCount(c.effects)
    && c.targets == DurableTargets(c.effects)
    && c.authW <= c.authR
    && c.keyedBytes == 32 * (|c.authR| + |c.authW|)
    && c.keyedBytes <= 0x10_0000
  }

  /** Whether an instruction pays the leaf price for a storage row. */
  function LeafCharges(c: Ctl, i: Instr, v: u64): nat {
    if i.SStore? && KeyAt(c.m, i.a).Some? && PaysLeaf(c, KeyAt(c.m, i.a).value, c.m.regs[i.b], v) then 1
    else 0
  }

  lemma Recorded(effects: seq<Effect>, e: Effect)
    ensures var all := effects + [e];
            && TransferBytes(all) == TransferBytes(effects) + (if e.Transfer? then |e.to| else 0)
            && EventBytes(all) == EventBytes(effects) + (if e.Event? then |e.data| else 0)
            && EventCount(all) == EventCount(effects) + (if e.Event? then 1 else 0)
            && DurableTargets(all) == DurableTargets(effects) +
                                      (match e
                                       case Transfer(to, _) => {[DURABLE_TRANSFER] + to}
                                       case Event(selector, data) =>
                                         if MintTarget(selector, data).Some? then {MintTarget(selector, data).value}
                                         else {})
  {
    var all := effects + [e];
    assert all[..|all| - 1] == effects && all[|all| - 1] == e;
  }

  lemma SendBooks(c: Ctl, a: Reg, b: Reg, amountReg: Reg)
    requires Booked(c) && SendMove(c, a, b, amountReg).Go?
    ensures var r := SendMove(c, a, b, amountReg);
            Booked(r.c) && r.charge + Bill(c) == Bill(r.c)
  {
    hide Region, TransferBytes, EventBytes, EventCount, DurableTargets;
    var to := Region(c.m.mem, c.m.regs[a], c.m.regs[b]).value;
    Recorded(c.effects, Transfer(to, c.m.regs[amountReg]));
    OneMore(c.targets, [DURABLE_TRANSFER] + to);
  }

  lemma OneMore<T>(s: set<T>, x: T)
    ensures |s + {x}| == if x in s then |s| else |s| + 1
  {
    if x in s {
      assert s + {x} == s;
    }
  }

  lemma EmitBooks(c: Ctl, a: Reg, b: Reg, selReg: Reg)
    requires Booked(c) && EmitMove(c, a, b, selReg).Go?
    ensures var r := EmitMove(c, a, b, selReg);
            Booked(r.c) && r.charge + Bill(c) == Bill(r.c)
  {
    hide Region, ToBE, MintTarget, TransferBytes, EventBytes, EventCount, DurableTargets;
    var data := Region(c.m.mem, c.m.regs[a], c.m.regs[b]).value;
    var selector := ToBE(c.m.regs[selReg], 4);
    Recorded(c.effects, Event(selector, data));
    var mint := MintTarget(selector, data);
    if mint.Some? {
      OneMore(c.targets, mint.value);
    } else {
      assert c.targets + {} == c.targets;
    }
  }

  lemma TaintBooks(w: World, c: Ctl, spent: nat, base: Option<u64>, k: Key)
    requires Booked(c) && TaintMove(w, c, spent, base, k).Go?
    ensures var r := TaintMove(w, c, spent, base, k);
            Booked(r.c) && r.charge + Bill(c) == spent + Bill(r.c)
  {
    hide ReadBase, WriteBase;
    OneMore(c.authR, k);
    OneMore(c.authW, k);
  }

  lemma StoreBooks(w: World, c: Ctl, i: Instr, v: u64)
    requires Booked(c) && i.SStore? && StoreMove(w, c, i.a, i.b, v).Go?
    ensures var r := StoreMove(w, c, i.a, i.b, v);
            Booked(r.c) && r.charge + Bill(c) == 227_000 * LeafCharges(c, i, v) + Bill(r.c)
  {
    hide Region, PaysLeaf, PaysFresh, MayWrite;
  }

  lemma BillIgnoresMachine(c: Ctl)
    ensures forall m :: Bill(c.(m := m)) == Bill(c)
  {
    hide TransferBytes, EventBytes, EventCount, DurableTargets;
  }

  /** Each instruction keeps the books, and its charge beyond the fixed cost is its length-scaled
      price, the leaf price if it pays one, and what it adds to the bill. */
  lemma MoveBooks(w: World, c: Ctl, i: Instr, v: u64)
    requires Booked(c) && Trans(w, c, i, v).Go?
    ensures var r := Trans(w, c, i, v);
            && Booked(r.c)
            && r.charge + Bill(c)
               == Variable(w.prims, c.m, i) + 227_000 * LeafCharges(c, i, v) + Bill(r.c)
  {
    hide StepLocal, SendMove, EmitMove, TaintMove, StoreMove, PaysLeaf, HashVariable,
      MessageVariable, MerkleVariable, MayRead, WriteAt, Bill;
    BillIgnoresMachine(c);
    if i.Send? {
      SendBooks(c, i.a, i.b, i.c);
    } else if i.Emit? {
      EmitBooks(c, i.a, i.b, i.c);
    } else if i.Hash? {
      var m := HashInto(w.prims, c.m, i.a, i.b, i.c).value;
      var preimage := Region(c.m.mem, c.m.regs[i.a], c.m.regs[i.b]).value;
      TaintBooks(w, c.(m := m), HashVariable(c.m.regs[i.b]), BaseOf(preimage), w.prims.sha3(preimage));
    } else if i.SStore? {
      StoreBooks(w, c, i, v);
    } else if IsLocal(i) {
      LocalCharge(w.consts, Boundaries(w.code), w.prims, c.m, i);
    }
  }

  // ---- Whole runs ----

  /** The fixed and length-scaled prices of the instructions a run so far has executed. */
  function RunPrice(w: World, t: seq<Config>): nat
    requires t != []
  {
    if |t| == 1 then 0
    else
      var before := t[..|t| - 1];
      RunPrice(w, before) + StepPrice(w, Last(before).c)
  }

  function StepPrice(w: World, c: Ctl): nat {
    match Fetched(w, c)
    case Err(_) => 0
    case Ok((i, _)) => CostOf(i) + Variable(w.prims, c.m, i)
  }

  /** How many times a run so far has paid the leaf price for a storage row. */
  function RunLeaves(w: World, t: seq<Config>): nat
    requires t != []
  {
    if |t| == 1 then 0
    else
      var before := t[..|t| - 1];
      RunLeaves(w, before) + StepLeaf(w, Last(before))
  }

  function StepLeaf(w: World, s: Config): nat {
    match Fetched(w, s.c)
    case Err(_) => 0
    case Ok((i, _)) => LeafCharges(s.c, i, Seen(w, s))
  }

  lemma StepBooks(w: World, limit: nat, s: Config)
    requires Booked(s.c) && Next(w, limit, s).More?
    ensures var s' := Next(w, limit, s).s;
            && Booked(s'.c)
            && s'.used + Bill(s.c)
               == s.used + StepPrice(w, s.c) + 227_000 * StepLeaf(w, s) + Bill(s'.c)
  {
    hide Trans, CostOf, Bill, Next, PaysLeaf, DecodeAt, HashVariable, MessageVariable, MerkleVariable;
    var i, c1 := NextParts(w, limit, s);
    MoveBooks(w, c1, i, Seen(w, s));
    BillIgnoresMachine(s.c);
    assert LeafCharges(s.c, i, Seen(w, s)) == LeafCharges(c1, i, Seen(w, s)) by {
      PaysLeafIgnoresMachine(s.c, c1.m);
    }
  }

  lemma PaysLeafIgnoresMachine(c: Ctl, m: Mach)
    ensures forall k, val, prior :: PaysLeaf(c, k, val, prior) == PaysLeaf(c.(m := m), k, val, prior)
  {
  }

  /** The exact ledger: at every reachable state the meter is the dispatch charge, the fixed and
      length-scaled prices of what was executed, one leaf price per paying store, and what the
      recorded effects and the read authorisations are billed; and the counters are what was
      recorded. */
  lemma {:induction false} ExactLedger(w: World, limit: nat, t: seq<Config>)
    requires IsRun(w, limit, t) && Booked(t[0].c)
    ensures Booked(Last(t).c)
    ensures Last(t).used + Bill(t[0].c)
            == t[0].used + RunPrice(w, t) + 227_000 * RunLeaves(w, t) + Bill(Last(t).c)
    decreases |t|
  {
    hide Next, Booked, Bill, StepPrice, StepLeaf;
    if |t| > 1 {
      var before := t[..|t| - 1];
      ExactLedger(w, limit, before);
      assert Next(w, limit, t[|t| - 2]) == More(t[|t| - 1]);
      StepBooks(w, limit, Last(before));
    }
  }

  /** A state with nothing recorded yet is booked and owes nothing. */
  lemma FreshBooks(m: Mach)
    ensures Booked(FreshCtl(m)) && Bill(FreshCtl(m)) == 0
  {
  }

  /** The ledger of an outcome: all of it can be read off the halting state. */
  lemma OutcomeLedger(w: World, limit: nat, s: Config)
    requires Run(w, limit, s).Halts? && s.c == FreshCtl(s.c.m)
    ensures var f, t := Run(w, limit, s).final, Trace(w, limit, s);
            && f.used == s.used + RunPrice(w, t) + 227_000 * RunLeaves(w, t) + Bill(f.c)
            && Booked(f.c)
  {
    hide Next, Booked, Bill, RunPrice, RunLeaves;
    var t := Trace(w, limit, s);
    TraceIsRun(w, limit, s);
    FreshBooks(s.c.m);
    ExactLedger(w, limit, t);
    HaltState(w, limit, Last(t));
    BillIgnoresMachine(Last(t).c);
    BookedIgnoresMachine(Last(t).c);
  }

  lemma BookedIgnoresMachine(c: Ctl)
    requires Booked(c)
    ensures forall m :: Booked(c.(m := m))
  {
  }

  /** Every row fetched from the loader was paid for by the instruction that read it. */
  lemma {:induction false} FetchesArePaid(w: World, limit: nat, t: seq<Config>)
    requires IsRun(w, limit, t)
    ensures 100 * |Last(t).loaded| + t[0].used <= Last(t).used + 100 * |t[0].loaded|
    decreases |t|
  {
    hide Next;
    if |t| > 1 {
      var before := t[..|t| - 1];
      FetchesArePaid(w, limit, before);
      assert Next(w, limit, t[|t| - 2]) == More(t[|t| - 1]);
      StepFetches(w, limit, Last(before));
    }
  }

  lemma WantsCosts(w: World, c: Ctl)
    requires Wants(w, c).Some?
    ensures CostOf(Fetched(w, c).value.0) >= 100
  {
    hide DecodeAt, KeyAt, MayRead, MayWrite;
  }

  lemma StepFetches(w: World, limit: nat, s: Config)
    requires Next(w, limit, s).More?
    ensures var s' := Next(w, limit, s).s;
            100 * |s'.loaded| + s.used <= s'.used + 100 * |s.loaded|
  {
    hide Next, Trans, DecodeAt, Written, Lookup, Wants, CostOf;
    var i, c1 := NextParts(w, limit, s);
    var k := Wants(w, s.c);
    if k.Some? {
      WantsCosts(w, s.c);
      if Cache(w, s, k.value) != s.loaded {
        assert Cache(w, s, k.value).Keys == s.loaded.Keys + {k.value};
      }
    }
  }
}
