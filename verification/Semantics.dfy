/** What the interpreter computes: one instruction, one loop turn, a whole run. */
module Semantics {
  import opened Bytes
  import opened Isa
  import opened Sweep
  import opened Meter
  import opened Machines
  import opened Crypto
  import opened Local

  /** The state an entry declared it would touch. */
  datatype Manifest = Manifest(
    scalarReads: set<Key>, scalarWrites: set<Key>, keyedReads: set<u64>, keyedWrites: set<u64>)

  datatype Effect =
    | Transfer(to: seq<byte>, amount: u64)
    | Event(selector: seq<byte>, data: seq<byte>)

  const DURABLE_TRANSFER: byte := 0
  const DURABLE_MINT: byte := 1

  /** What a run cannot change. */
  datatype World = World(
    code: seq<byte>,
    consts: seq<u64>,
    prims: Prims,
    manifest: Option<Manifest>,
    loader: Option<Key -> u64>)

  /** Everything a run changes except the meter and the storage values. */
  datatype Ctl = Ctl(
    m: Mach,
    dirty: set<Key>,
    effects: seq<Effect>,
    effectsBytes: nat,
    keyedBytes: nat,
    targets: set<seq<byte>>,
    events: nat,
    authR: set<Key>,
    authW: set<Key>,
    charged: set<Key>)

  function FreshCtl(m: Mach): Ctl {
    Ctl(m, {}, [], 0, 0, {}, 0, {}, {}, {})
  }

  /** One instruction: what it charges beyond its fixed cost and what it then does. A fault comes
      with what was charged before it. The value of the storage row it reads is an argument. */
  datatype Move =
    | Fail(charge: nat, fault: Fault)
    | Stop
    | Go(charge: nat, c: Ctl, write: Option<(Key, u64)>)

  predicate MayRead(w: World, c: Ctl, k: Key) {
    w.manifest.Some? ==>
      k in w.manifest.value.scalarReads || k in w.manifest.value.scalarWrites || k in c.authR
  }

  predicate MayWrite(w: World, c: Ctl, k: Key) {
    w.manifest.Some? ==> k in w.manifest.value.scalarWrites || k in c.authW
  }

  function KeyAt(m: Mach, a: Reg): Option<Key> {
    match Region(m.mem, m.regs[a], KEY_BYTES)
    case None => None
    case Some(k) => Some(k)
  }

  function LoadMove(w: World, c: Ctl, d: Reg, a: Reg, v: u64): Move {
    match KeyAt(c.m, a)
    case None => Fail(0, BadMemory)
    case Some(k) =>
      if !MayRead(w, c, k) then Fail(0, UndeclaredSlot)
      else Go(0, c.(m := SetReg(c.m, d, v)), None)
  }

  /** Whether a store pays the leaf price, given the value already there. */
  predicate PaysLeaf(c: Ctl, k: Key, val: u64, prior: u64) {
    if PaysFresh(c, k, val, prior) then true
    else k !in c.dirty && |c.dirty| + 1 > FREE_DIRTY_SLOTS && k !in c.charged
  }

  /** The store turns a zero row non-zero that has not been charged for that before, and the row is
      keyed or the free slots are used up. */
  predicate PaysFresh(c: Ctl, k: Key, val: u64, prior: u64) {
    && val != 0 && prior == 0 && k !in c.charged
    && (k in c.authW || |c.dirty| >= FREE_DIRTY_SLOTS)
  }

  function StoreMove(w: World, c: Ctl, a: Reg, b: Reg, prior: u64): Move {
    match KeyAt(c.m, a)
    case None => Fail(0, BadMemory)
    case Some(k) =>
      if !MayWrite(w, c, k) then Fail(0, UndeclaredSlot)
      else
        var val := c.m.regs[b];
        var charged := if PaysFresh(c, k, val, prior) then c.charged + {k} else c.charged;
        Go(if PaysLeaf(c, k, val, prior) then KEYED_SLOT_METER else 0,
           c.(charged := charged, dirty := c.dirty + {k}),
           Some((k, val)))
  }

  /** The price of a durable target: every new one after the first pays for a leaf. */
  function TargetPrice(targets: set<seq<byte>>, target: seq<byte>): nat {
    if target !in targets && |targets| >= 1 then KEYED_SLOT_METER else 0
  }

  function SendMove(c: Ctl, a: Reg, b: Reg, amountReg: Reg): Move {
    match Region(c.m.mem, c.m.regs[a], c.m.regs[b])
    case None => Fail(0, BadMemory)
    case Some(to) =>
      var bytes := |to| * EFFECT_BYTE;
      var retained := c.effectsBytes + |to| + EFFECT_RECORD_OVERHEAD;
      if retained > EFFECTS_BYTES_CAP then Fail(bytes, EffectsTooLarge)
      else
        var target := [DURABLE_TRANSFER] + to;
        Go(bytes + TargetPrice(c.targets, target),
           c.(effectsBytes := retained,
              targets := c.targets + {target},
              effects := c.effects + [Transfer(to, c.m.regs[amountReg])]),
           None)
  }

  /** The account leaf an event creates, when it is an asset mint. */
  function MintTarget(selector: seq<byte>, data: seq<byte>): Option<seq<byte>> {
    if selector == ASSET_MINT_SELECTOR && |data| >= ASSET_MINT_DATA_BYTES then
      Some([DURABLE_MINT] + data[..32])
    else None
  }

  function EmitMove(c: Ctl, a: Reg, b: Reg, selReg: Reg): Move {
    if c.m.regs[selReg] >= TWO32 then Fail(0, Malformed)
    else
      var selector := ToBE(c.m.regs[selReg], 4);
      match Region(c.m.mem, c.m.regs[a], c.m.regs[b])
      case None => Fail(0, BadMemory)
      case Some(data) =>
        var bytes := |data| * EFFECT_BYTE;
        var retained := c.effectsBytes + |data| + EFFECT_RECORD_OVERHEAD;
        if retained > EFFECTS_BYTES_CAP then Fail(bytes, EffectsTooLarge)
        else
          var durable := |data| * (EVENT_BYTE - EFFECT_BYTE);
          var mint := MintTarget(selector, data);
          var leaf := if mint.Some? then TargetPrice(c.targets, mint.value) else 0;
          var record := if c.events + 1 > FREE_EVENT_RECORDS then EVENT_RECORD_METER else 0;
          Go(bytes + durable + leaf + record,
             c.(effectsBytes := retained,
                targets := if mint.Some? then c.targets + {mint.value} else c.targets,
                events := c.events + 1,
                effects := c.effects + [Event(selector, data)]),
             None)
  }

  /** The keyed base at the head of a hash preimage. */
  function BaseOf(preimage: seq<byte>): Option<u64> {
    if |preimage| >= 8 then Some(U64At(preimage[..8])) else None
  }

  predicate WriteBase(w: World, base: Option<u64>) {
    w.manifest.Some? && base.Some? && base.value in w.manifest.value.keyedWrites
  }

  predicate ReadBase(w: World, base: Option<u64>) {
    WriteBase(w, base) ||
    (w.manifest.Some? && base.Some? && base.value in w.manifest.value.keyedReads)
  }

  /** Authorising the digest `k` of a preimage headed by `base`; `spent` is already charged. */
  function TaintMove(w: World, c: Ctl, spent: nat, base: Option<u64>, k: Key): Move {
    if !ReadBase(w, base) then Go(spent, c, None)
    else
      var newW := WriteBase(w, base) && k !in c.authW;
      var newR := k !in c.authR;
      var entries := (if newW then 1 else 0) + (if newR then 1 else 0);
      var price := if k in c.authW || k in c.authR then 0 else KEYED_READ_METER;
      var retained := c.keyedBytes + KEY_BYTES * entries;
      if retained > EFFECTS_BYTES_CAP then Fail(spent + price, EffectsTooLarge)
      else
        Go(spent + price,
           c.(keyedBytes := retained,
              authW := if WriteBase(w, base) then c.authW + {k} else c.authW,
              authR := c.authR + {k}),
           None)
  }

  function HashMove(w: World, c: Ctl, a: Reg, b: Reg, out: Reg): Move {
    var spent := HashVariable(c.m.regs[b]);
    match HashInto(w.prims, c.m, a, b, out)
    case Err(f) => Fail(spent, f)
    case Ok(m) =>
      var preimage := Region(c.m.mem, c.m.regs[a], c.m.regs[b]).value;
      TaintMove(w, c.(m := m), spent, BaseOf(preimage), w.prims.sha3(preimage))
  }

  function LiftLocal(c: Ctl, r: LocalStep): Move {
    match r
    case LocalFault(charge, f) => Fail(charge, f)
    case LocalGo(charge, m) => Go(charge, c.(m := m), None)
  }

  /** One instruction, with `c.m.pc` already past it and `v` the value of the row it reads. */
  function Trans(w: World, c: Ctl, i: Instr, v: u64): Move {
    if i.Halt? then Stop
    else if i.SLoad? then LoadMove(w, c, i.d, i.a, v)
    else if i.SStore? then StoreMove(w, c, i.a, i.b, v)
    else if i.Send? then SendMove(c, i.a, i.b, i.c)
    else if i.Emit? then EmitMove(c, i.a, i.b, i.c)
    else if i.Hash? then HashMove(w, c, i.a, i.b, i.c)
    else LiftLocal(c, StepLocal(w.consts, Boundaries(w.code), w.prims, c.m, i))
  }

  lemma OnlyHaltStops(w: World, c: Ctl, i: Instr, v: u64)
    ensures Trans(w, c, i, v).Stop? <==> i.Halt?
  {
    hide StepLocal, Region, MayRead, MayWrite, MintTarget, TargetPrice, HashInto, PaysLeaf;
  }

  function Fetched(w: World, c: Ctl): Result<(Instr, nat), DecodeError> {
    DecodeAt(w.code, c.m.pc)
  }

  function Advance(c: Ctl, pc: u32): Ctl {
    c.(m := c.m.(pc := pc))
  }

  datatype Beat =
    | BeatFault(fault: Fault)
    | BeatHalt(c: Ctl, used: nat)
    | BeatGo(c: Ctl, used: nat, write: Option<(Key, u64)>)

  /** One turn of the run loop, apart from storage. */
  function Turn(w: World, limit: nat, c: Ctl, used: nat, v: u64): Beat {
    match Fetched(w, c)
    case Err(e) => BeatFault(Undecodable(e))
    case Ok((i, n)) =>
      var spent := used + CostOf(i);
      if spent > limit then BeatFault(OutOfMeter)
      else if c.m.pc + n >= TWO32 then BeatFault(BadJump)
      else
        match Trans(w, Advance(c, c.m.pc + n), i, v)
        case Stop => BeatHalt(Advance(c, c.m.pc + n), spent)
        case Fail(charge, f) => BeatFault(if spent + charge > limit then OutOfMeter else f)
        case Go(charge, c', write) =>
          if spent + charge > limit then BeatFault(OutOfMeter)
          else BeatGo(c', spent + charge, write)
  }

  /** The storage row an instruction looks up, if it gets that far. */
  function RowOf(w: World, c: Ctl, i: Instr): Option<Key> {
    if i.SLoad? && KeyAt(c.m, i.a).Some? && MayRead(w, c, KeyAt(c.m, i.a).value) then KeyAt(c.m, i.a)
    else if i.SStore? && KeyAt(c.m, i.a).Some? && MayWrite(w, c, KeyAt(c.m, i.a).value) then KeyAt(c.m, i.a)
    else None
  }

  /** The storage row the next turn looks up. */
  function Wants(w: World, c: Ctl): Option<Key> {
    match Fetched(w, c)
    case Err(_) => None
    case Ok((i, _)) => RowOf(w, c, i)
  }

  /** A whole interpreter state: written values over values fetched from the loader. */
  datatype Config = Config(c: Ctl, used: nat, storage: map<Key, u64>, loaded: map<Key, u64>)

  function Lookup(w: World, s: Config, k: Key): u64 {
    if k in s.storage then s.storage[k]
    else if k in s.loaded then s.loaded[k]
    else if w.loader.Some? then w.loader.value(k)
    else 0
  }

  function Cache(w: World, s: Config, k: Key): map<Key, u64> {
    if k !in s.storage && k !in s.loaded && w.loader.Some? then s.loaded[k := w.loader.value(k)]
    else s.loaded
  }

  function Written(storage: map<Key, u64>, write: Option<(Key, u64)>): map<Key, u64> {
    if write.Some? then storage[write.value.0 := write.value.1] else storage
  }

  /** What one turn does to a whole state. */
  datatype Tick =
    | Crash(fault: Fault)
    | Done(s: Config)
    | More(s: Config)

  function Next(w: World, limit: nat, s: Config): Tick {
    var k := Wants(w, s.c);
    var v := if k.Some? then Lookup(w, s, k.value) else 0;
    var loaded := if k.Some? then Cache(w, s, k.value) else s.loaded;
    match Turn(w, limit, s.c, s.used, v)
    case BeatFault(f) => Crash(f)
    case BeatHalt(c, used) => Done(Config(c, used, s.storage, loaded))
    case BeatGo(c, used, write) => More(Config(c, used, Written(s.storage, write), loaded))
  }

  /** Every continued turn uses meter and stays within the limit. */
  lemma TurnMeter(w: World, limit: nat, c: Ctl, used: nat, v: u64)
    ensures Turn(w, limit, c, used, v).BeatGo? ==> used < Turn(w, limit, c, used, v).used <= limit
    ensures Turn(w, limit, c, used, v).BeatHalt? ==> Turn(w, limit, c, used, v).used == used <= limit
  {
    hide DecodeAt, CostOf, Trans;
    match Fetched(w, c)
    case Err(_) =>
    case Ok((i, n)) =>
      OnlyHaltIsFree(i);
      if c.m.pc + n < TWO32 {
        OnlyHaltStops(w, Advance(c, c.m.pc + n), i, v);
      }
  }

  lemma NextMeter(w: World, limit: nat, s: Config)
    ensures Next(w, limit, s).More? ==> s.used < Next(w, limit, s).s.used <= limit
    ensures Next(w, limit, s).Done? ==> Next(w, limit, s).s.used == s.used <= limit
  {
    hide Turn, Wants;
    var k := Wants(w, s.c);
    TurnMeter(w, limit, s.c, s.used, if k.Some? then Lookup(w, s, k.value) else 0);
  }

  /** The faults of a loop turn before its instruction runs. */
  lemma NextStopsEarly(w: World, limit: nat, s: Config)
    ensures match Fetched(w, s.c)
            case Err(e) => Next(w, limit, s) == Crash(Undecodable(e))
            case Ok((i, n)) =>
              && (s.used + CostOf(i) > limit ==> Next(w, limit, s) == Crash(OutOfMeter))
              && (s.used + CostOf(i) <= limit && s.c.m.pc + n >= TWO32 ==> Next(w, limit, s) == Crash(BadJump))
  {
    hide DecodeAt, CostOf, Trans, Wants;
  }

  datatype RunResult =
    | Halts(final: Config)
    | Faults(fault: Fault)

  /** The whole run; the meter left bounds it. */
  function Run(w: World, limit: nat, s: Config): RunResult
    decreases limit - s.used
  {
    NextMeter(w, limit, s);
    match Next(w, limit, s)
    case Crash(f) => Faults(f)
    case Done(final) => Halts(final)
    case More(s') => Run(w, limit, s')
  }

  /** The states a run passes through, first to last. */
  function Trace(w: World, limit: nat, s: Config): (t: seq<Config>)
    ensures t != [] && t[0] == s
    decreases limit - s.used
  {
    NextMeter(w, limit, s);
    match Next(w, limit, s)
    case More(s') => [s] + Trace(w, limit, s')
    case _ => [s]
  }

  function Last(t: seq<Config>): Config
    requires t != []
  {
    t[|t| - 1]
  }

  /** `t` is a run so far: each state is the next after the one before it. */
  predicate IsRun(w: World, limit: nat, t: seq<Config>) {
    && t != []
    && forall k | 0 <= k < |t| - 1 :: Next(w, limit, t[k]) == More(t[k + 1])
  }

  lemma ExtendRun(w: World, limit: nat, t: seq<Config>, s: Config)
    requires IsRun(w, limit, t) && Next(w, limit, Last(t)) == More(s)
    ensures IsRun(w, limit, t + [s])
  {
    hide Next;
    var u := t + [s];
    forall k | 0 <= k < |u| - 1 ensures Next(w, limit, u[k]) == More(u[k + 1]) {
      if k < |t| - 1 {
        assert u[k] == t[k] && u[k + 1] == t[k + 1];
      }
    }
  }

  lemma {:induction false} TraceIsRun(w: World, limit: nat, s: Config)
    ensures var t := Trace(w, limit, s);
            && IsRun(w, limit, t)
            && !Next(w, limit, Last(t)).More?
            && Run(w, limit, s) == Run(w, limit, Last(t))
    decreases limit - s.used
  {
    hide Next;
    NextMeter(w, limit, s);
    match Next(w, limit, s)
    case More(s') => TraceIsRun(w, limit, s');
    case _ =>
  }

  /** Any run so far is the beginning of the trace. */
  lemma {:induction false} RunIsTracePrefix(w: World, limit: nat, t: seq<Config>)
    requires IsRun(w, limit, t)
    ensures t <= Trace(w, limit, t[0])
    ensures Run(w, limit, t[0]) == Run(w, limit, Last(t))
    decreases |t|
  {
    hide Next;
    if |t| > 1 {
      NextMeter(w, limit, t[0]);
      assert Next(w, limit, t[0]) == More(t[1]);
      RunIsTracePrefix(w, limit, t[1..]);
    }
  }

  /** A run that cannot continue is the whole trace. */
  lemma {:induction false} TraceEndsHere(w: World, limit: nat, t: seq<Config>)
    requires IsRun(w, limit, t) && !Next(w, limit, Last(t)).More?
    ensures Trace(w, limit, t[0]) == t
    decreases |t|
  {
    hide Next;
    NextMeter(w, limit, t[0]);
    if |t| > 1 {
      assert Next(w, limit, t[0]) == More(t[1]);
      TraceEndsHere(w, limit, t[1..]);
      assert t == [t[0]] + t[1..];
    }
  }

  /** A continued turn, taken apart. */
  lemma TurnParts(w: World, limit: nat, c: Ctl, used: nat, v: u64) returns (i: Instr, c1: Ctl)
    requires Turn(w, limit, c, used, v).BeatGo?
    ensures Fetched(w, c).Ok? && i == Fetched(w, c).value.0
    ensures c.m.pc + Fetched(w, c).value.1 < TWO32 && c1 == Advance(c, c.m.pc + Fetched(w, c).value.1)
    ensures var r := Turn(w, limit, c, used, v);
            && Trans(w, c1, i, v).Go?
            && r.c == Trans(w, c1, i, v).c && r.write == Trans(w, c1, i, v).write
            && r.used == used + CostOf(i) + Trans(w, c1, i, v).charge
  {
    hide DecodeAt, CostOf, Trans;
    i := Fetched(w, c).value.0;
    c1 := Advance(c, c.m.pc + Fetched(w, c).value.1);
  }

  /** The value the next turn reads, or 0 when it reads none. */
  function Seen(w: World, s: Config): u64 {
    var k := Wants(w, s.c);
    if k.Some? then Lookup(w, s, k.value) else 0
  }

  /** A continued step, taken apart. */
  lemma NextParts(w: World, limit: nat, s: Config) returns (i: Instr, c1: Ctl)
    requires Next(w, limit, s).More?
    ensures Fetched(w, s.c).Ok? && i == Fetched(w, s.c).value.0 && i != Halt
    ensures c1 == s.c.(m := s.c.m.(pc := c1.m.pc))
    ensures c1.m.pc == s.c.m.pc + Fetched(w, s.c).value.1
    ensures var move, s' := Trans(w, c1, i, Seen(w, s)), Next(w, limit, s).s;
            && move.Go?
            && s'.c == move.c
            && s'.used == s.used + CostOf(i) + move.charge
            && s'.storage == Written(s.storage, move.write)
            && s'.loaded == (if Wants(w, s.c).Some? then Cache(w, s, Wants(w, s.c).value) else s.loaded)
  {
    hide Turn, Trans, Wants, CostOf, DecodeAt;
    i, c1 := TurnParts(w, limit, s.c, s.used, Seen(w, s));
    OnlyHaltStops(w, c1, i, Seen(w, s));
  }

  /** A halting step only moves the program counter. */
  lemma HaltState(w: World, limit: nat, s: Config)
    requires Next(w, limit, s).Done?
    ensures var f := Next(w, limit, s).s;
            f == s.(c := s.c.(m := s.c.m.(pc := f.c.m.pc)))
    ensures Fetched(w, s.c).Ok? && Fetched(w, s.c).value.0 == Halt
  {
    hide Trans, CostOf, DecodeAt;
    var (i, n) := Fetched(w, s.c).value;
    OnlyHaltIsFree(i);
    OnlyHaltStops(w, Advance(s.c, s.c.m.pc + n), i, Seen(w, s));
  }

  /** A halting run ends in the last state of its trace, with the program counter past `Halt`. */
  lemma OutcomeIsLast(w: World, limit: nat, s: Config)
    requires Run(w, limit, s).Halts?
    ensures var f, t := Run(w, limit, s).final, Trace(w, limit, s);
            && IsRun(w, limit, t)
            && f == Last(t).(c := Last(t).c.(m := Last(t).c.m.(pc := f.c.m.pc)))
  {
    hide Next;
    TraceIsRun(w, limit, s);
    HaltState(w, limit, Last(Trace(w, limit, s)));
  }
}
