/** The interpreter object, whose methods are proved to compute the semantics. */
module Interp {
  import opened Bytes
  import opened Isa
  import opened Sweep
  import opened Meter
  import opened Machines
  import opened Crypto
  import opened Local
  import opened Semantics
  import opened Containers
  import opened Deploy
  import opened MachineOps
  import opened Metering

  /** What a clean halt surfaces. */
  datatype Outcome = Outcome(
    regs: RegFile,
    meterUsed: nat,
    storage: map<Key, u64>,
    dirty: set<Key>,
    fetched: nat,
    effects: seq<Effect>)

  /** How a step ends when it does not fault. */
  datatype Flow = Falls | Halting | JumpsTo(target: u32)

  function Landed(s: Config, flow: Flow): Config {
    if flow.JumpsTo? then s.(c := s.c.(m := s.c.m.(pc := flow.target))) else s
  }

  /** `after` and `r` are what `move` asks of `before`, given the meter limit. */
  ghost predicate Obeys(before: Config, limit: nat, move: Move, loaded: map<Key, u64>,
                        r: Result<Flow, Fault>, after: Config)
  {
    match move
    case Stop => r == Ok(Halting) && after == before
    case Fail(charge, f) => r == Err(if before.used + charge > limit then OutOfMeter else f)
    case Go(charge, c, write) =>
      if before.used + charge > limit then r == Err(OutOfMeter)
      else
        && r.Ok? && !r.value.Halting?
        && Landed(after, r.value) == Config(c, before.used + charge, Written(before.storage, write), loaded)
  }

  class Interpreter {
    const code: seq<byte>
    const consts: seq<u64>
    const prims: Prims
    const meterLimit: u64
    const machine: Machine
    var meterUsed: nat
    var storage: map<Key, u64>
    var loader: Option<Key -> u64>
    var loaded: map<Key, u64>
    var dirty: set<Key>
    var effects: seq<Effect>
    var effectsBytes: nat
    var keyedBytes: nat
    var durableTargets: set<seq<byte>>
    var eventRecords: nat
    var manifest: Option<Manifest>
    const bounds: set<nat>
    var authorizedReads: set<Key>
    var authorizedWrites: set<Key>
    var freshCharged: set<Key>

    ghost function Repr(): set<object> {
      {this} + machine.Repr()
    }

    ghost predicate Valid()
      reads this, machine
    {
      machine.Valid() && bounds == Boundaries(code)
    }

    /** What the run cannot change. */
    ghost function World(): World
      reads this
    {
      Semantics.World(code, consts, prims, manifest, loader)
    }

    ghost function Control(): Ctl
      reads this, machine, machine.regs, machine.mem
      requires Valid()
    {
      Ctl(machine.Value(), dirty, effects, effectsBytes, keyedBytes, durableTargets, eventRecords,
          authorizedReads, authorizedWrites, freshCharged)
    }

    /** The abstract state. */
    ghost function State(): Config
      reads this, machine, machine.regs, machine.mem
      requires Valid()
    {
      Config(Control(), meterUsed, storage, loaded)
    }

    constructor (code: seq<byte>, consts: seq<u64>, prims: Prims, meterLimit: u64, bounds: set<nat>)
      requires bounds == Boundaries(code)
      ensures Valid() && fresh(Repr())
      ensures this.meterLimit == meterLimit
      ensures World() == Semantics.World(code, consts, prims, None, None)
      ensures State() == Config(FreshCtl(FreshMach(0)), 0, map[], map[])
    {
      this.code, this.consts, this.prims, this.meterLimit := code, consts, prims, meterLimit;
      this.bounds := bounds;
      machine := new Machine();
      meterUsed, storage, loaded := 0, map[], map[];
      loader, manifest := None, None;
      dirty, freshCharged := {}, {};
      effects, effectsBytes, keyedBytes := [], 0, 0;
      durableTargets, eventRecords := {}, 0;
      authorizedReads, authorizedWrites := {}, {};
    }

    /** Opening an entry; a program of its own starts with `new`. */
    static method Open(prims: Prims, c: Container, selector: Selector, meterLimit: u64)
      returns (r: Result<Interpreter, Fault>)
      ensures match OpenEntry(c, selector, meterLimit)
              case Err(f) => r == Err(f)
              case Ok(o) =>
                && r.Ok? && r.value.Valid() && fresh(r.value.Repr())
                && r.value.meterLimit == meterLimit
                && r.value.World() == Semantics.World(c.code, c.consts, prims, Some(o.manifest), None)
                && r.value.State() == Config(FreshCtl(FreshMach(o.offset)), o.used, map[], map[])
    {
      hide Matching, Starts, ManifestOf;
      if |c.code| > MAX_CODE_BYTES || |c.consts| > MAX_CONSTS || |c.entries| > MAX_ENTRIES {
        return Err(Malformed);
      }
      var found := Matching(c.entries, selector);
      if found == [] {
        return Err(UnknownSelector);
      }
      if |found| > 1 || found[0].access.Declared() > MAX_ACCESS_SLOTS {
        return Err(Malformed);
      }
      var dispatch := DispatchPrice(c.code);
      if dispatch > meterLimit {
        return Err(OutOfMeter);
      }
      var bounds := SweepBoundaries(c.code);
      if found[0].offset !in bounds {
        return Err(Malformed);
      }
      var interp := new Interpreter(c.code, c.consts, prims, meterLimit, bounds);
      interp.machine.Jump(found[0].offset);
      interp.meterUsed := dispatch;
      interp.manifest := Some(ManifestOf(found[0].access));
      return Ok(interp);
    }

    /** `for_entry`: any entry but genesis. */
    static method OpenFor(prims: Prims, c: Container, selector: Selector, meterLimit: u64)
      returns (r: Result<Interpreter, Fault>)
      ensures match OpenForEntry(prims, c, selector, meterLimit)
              case Err(f) => r == Err(f)
              case Ok(o) =>
                && r.Ok? && r.value.Valid() && fresh(r.value.Repr())
                && r.value.meterLimit == meterLimit
                && r.value.World() == Semantics.World(c.code, c.consts, prims, Some(o.manifest), None)
                && r.value.State() == Config(FreshCtl(FreshMach(o.offset)), o.used, map[], map[])
    {
      hide OpenEntry, SelectorOf;
      if selector == SelectorOf(prims, GENESIS_SIGNATURE) {
        return Err(UnknownSelector);
      }
      r := Open(prims, c, selector, meterLimit);
    }

    /** `for_genesis`: the genesis entry alone. */
    static method OpenGenesis(prims: Prims, c: Container, meterLimit: u64)
      returns (r: Result<Interpreter, Fault>)
      ensures match OpenForGenesis(prims, c, meterLimit)
              case Err(f) => r == Err(f)
              case Ok(o) =>
                && r.Ok? && r.value.Valid() && fresh(r.value.Repr())
                && r.value.meterLimit == meterLimit
                && r.value.World() == Semantics.World(c.code, c.consts, prims, Some(o.manifest), None)
                && r.value.State() == Config(FreshCtl(FreshMach(o.offset)), o.used, map[], map[])
    {
      hide OpenEntry, SelectorOf;
      r := Open(prims, c, SelectorOf(prims, GENESIS_SIGNATURE), meterLimit);
    }

    method WithStorage(values: map<Key, u64>)
      requires Valid()
      modifies this`storage
      ensures Valid() && World() == old(World()) && State() == old(State()).(storage := values)
    {
      storage := values;
    }

    method WithLoader(f: Key -> u64)
      requires Valid()
      modifies this`loader
      ensures Valid() && World() == old(World()).(loader := Some(f)) && State() == old(State())
    {
      loader := Some(f);
    }

    /** Call data is copied to the start of memory, as much of it as fits. */
    method WithMemory(data: seq<byte>)
      requires Valid()
      modifies machine.mem
      ensures Valid() && World() == old(World())
      ensures var n := if |data| < MEM_BYTES then |data| else MEM_BYTES;
              State() == old(State()).(c := old(Control()).(m :=
                old(machine.Value()).(mem := data[..n] + old(machine.Value()).mem[n..])))
    {
      var n := if |data| < MEM_BYTES then |data| else MEM_BYTES;
      ghost var mem := machine.Value().mem;
      var ok := machine.MemWrite(0, data[..n]);
      assert mem[..0] + data[..n] + mem[n..] == data[..n] + mem[n..];
    }

    method Charge(amount: nat) returns (r: Option<Fault>)
      modifies this`meterUsed
      ensures old(meterUsed) + amount > meterLimit ==> r == Some(OutOfMeter) && meterUsed == old(meterUsed)
      ensures old(meterUsed) + amount <= meterLimit ==> r == None && meterUsed == old(meterUsed) + amount
    {
      if meterUsed + amount > meterLimit {
        return Some(OutOfMeter);
      }
      meterUsed := meterUsed + amount;
      return None;
    }

    /** Charge the bytes of an effect and account for the memory it retains. */
    method ChargeEffect(bytes: nat) returns (r: Option<Fault>)
      modifies this`meterUsed, this`effectsBytes
      ensures var price := bytes * EFFECT_BYTE;
              var retained := old(effectsBytes) + bytes + EFFECT_RECORD_OVERHEAD;
              if old(meterUsed) + price > meterLimit then r == Some(OutOfMeter)
              else if retained > EFFECTS_BYTES_CAP then r == Some(EffectsTooLarge)
              else r == None && meterUsed == old(meterUsed) + price && effectsBytes == retained
    {
      r := Charge(bytes * EFFECT_BYTE);
      if r.Some? {
        return;
      }
      var retained := effectsBytes + (bytes + EFFECT_RECORD_OVERHEAD);
      if retained > EFFECTS_BYTES_CAP {
        return Some(EffectsTooLarge);
      }
      effectsBytes := retained;
    }

    method ChargeDurableTarget(target: seq<byte>) returns (r: Option<Fault>)
      modifies this`meterUsed, this`durableTargets
      ensures var price := TargetPrice(old(durableTargets), target);
              if old(meterUsed) + price > meterLimit && price > 0 then r == Some(OutOfMeter)
              else r == None && meterUsed == old(meterUsed) + price
                   && durableTargets == old(durableTargets) + {target}
    {
      OneMore(durableTargets, target);
      var inserted := target !in durableTargets;
      durableTargets := durableTargets + {target};
      if inserted && |durableTargets| > 1 {
        r := Charge(KEYED_SLOT_METER);
        return;
      }
      return None;
    }

    method RetainKeyed(entries: nat) returns (r: Option<Fault>)
      modifies this`keyedBytes
      ensures var retained := old(keyedBytes) + KEY_BYTES * entries;
              if retained > EFFECTS_BYTES_CAP then r == Some(EffectsTooLarge) && keyedBytes == old(keyedBytes)
              else r == None && keyedBytes == retained
    {
      var retained := keyedBytes + KEY_BYTES * entries;
      if retained > EFFECTS_BYTES_CAP {
        return Some(EffectsTooLarge);
      }
      keyedBytes := retained;
      return None;
    }

    method ReadKey(a: Reg) returns (r: Option<Key>)
      requires Valid()
      ensures r == KeyAt(Control().m, a)
    {
      var region := machine.MemRegion(machine.Reg(a), KEY_BYTES);
      return if region.Some? then Some(region.value) else None;
    }

    /** The value of a row: written, else cached, else fetched and cached. */
    method LookupRow(k: Key) returns (v: u64)
      requires Valid()
      modifies this`loaded
      ensures v == Lookup(old(World()), old(State()), k)
      ensures loaded == Cache(old(World()), old(State()), k)
    {
      if k in storage {
        return storage[k];
      }
      if k in loaded {
        return loaded[k];
      }
      if loader.None? {
        return 0;
      }
      v := loader.value(k);
      loaded := loaded[k := v];
    }

    method StepLoad(i: Instr) returns (r: Result<Flow, Fault>)
      requires Valid() && i.SLoad? && meterUsed <= meterLimit
      modifies Repr()
      ensures Valid() && World() == old(World())
      ensures var w, s := old(World()), old(State());
              var k := RowOf(w, s.c, i);
              Obeys(s, meterLimit,
                    Trans(w, s.c, i, if k.Some? then Lookup(w, s, k.value) else 0),
                    if k.Some? then Cache(w, s, k.value) else s.loaded,
                    r, State())
    {
      hide Lookup, Cache, Region;
      var key := ReadKey(i.a);
      if key.None? {
        return Err(BadMemory);
      }
      var k := key.value;
      if manifest.Some? {
        if k !in manifest.value.scalarReads && k !in manifest.value.scalarWrites && k !in authorizedReads {
          return Err(UndeclaredSlot);
        }
      }
      var v := LookupRow(k);
      machine.Set(i.d, v);
      return Ok(Falls);
    }

    method InsertDirty(k: Key) returns (inserted: bool)
      modifies this`dirty
      ensures inserted == (k !in old(dirty)) && dirty == old(dirty) + {k}
      ensures |dirty| == old(|dirty|) + if inserted then 1 else 0
    {
      OneMore(dirty, k);
      inserted := k !in dirty;
      dirty := dirty + {k};
    }

    /** The leaf price and the dirty set, for a permitted store over a row holding `prior`. */
    method MarkDirty(k: Key, val: u64, prior: u64) returns (r: Option<Fault>)
      requires Valid()
      modifies this`meterUsed, this`dirty, this`freshCharged
      ensures var c := old(Control());
              var price := if PaysLeaf(c, k, val, prior) then KEYED_SLOT_METER else 0;
              if old(meterUsed) + price > meterLimit && price > 0 then r == Some(OutOfMeter)
              else r == None && meterUsed == old(meterUsed) + price
                   && dirty == old(dirty) + {k}
                   && freshCharged == old(freshCharged) + if PaysFresh(c, k, val, prior) then {k} else {}
    {
      var creates := val != 0 && prior == 0 && k !in freshCharged;
      var keyed := k in authorizedWrites;
      if creates && (keyed || |dirty| >= FREE_DIRTY_SLOTS) {
        freshCharged := freshCharged + {k};
        r := Charge(KEYED_SLOT_METER);
        if r.Some? {
          return;
        }
      } else {
        var inserted := InsertDirty(k);
        if inserted && |dirty| > FREE_DIRTY_SLOTS && k !in freshCharged {
          r := Charge(KEYED_SLOT_METER);
          if r.Some? {
            return;
          }
        }
      }
      dirty := dirty + {k};
      return None;
    }

    /** A permitted store of `val` to row `k`. */
    method PutRow(k: Key, val: u64) returns (r: Option<Fault>)
      requires Valid()
      modifies this`loaded, this`meterUsed, this`dirty, this`freshCharged, this`storage
      ensures var s := old(State());
              var prior := Lookup(old(World()), s, k);
              var price := if PaysLeaf(s.c, k, val, prior) then KEYED_SLOT_METER else 0;
              if s.used + price > meterLimit && price > 0 then r == Some(OutOfMeter)
              else (
                && r == None && Valid()
                && State() == Config(
                     s.c.(dirty := s.c.dirty + {k},
                          charged := if PaysFresh(s.c, k, val, prior) then s.c.charged + {k} else s.c.charged),
                     s.used + price, s.storage[k := val], Cache(old(World()), s, k)))
    {
      hide Lookup, Cache, PaysLeaf, PaysFresh;
      var prior := LookupRow(k);
      assert Control() == old(Control());
      r := MarkDirty(k, val, prior);
      if r.None? {
        storage := storage[k := val];
      }
    }

    method StepStore(i: Instr) returns (r: Result<Flow, Fault>)
      requires Valid() && i.SStore? && meterUsed <= meterLimit
      modifies Repr()
      ensures Valid() && World() == old(World())
      ensures var w, s := old(World()), old(State());
              var k := RowOf(w, s.c, i);
              Obeys(s, meterLimit,
                    Trans(w, s.c, i, if k.Some? then Lookup(w, s, k.value) else 0),
                    if k.Some? then Cache(w, s, k.value) else s.loaded,
                    r, State())
    {
      hide Lookup, Cache, Region, PaysLeaf, PaysFresh, Trans, RowOf, StoreMove, KeyAt;
      StoreCases(World(), Control(), i);
      var key := ReadKey(i.a);
      if key.None? {
        return Err(BadMemory);
      }
      var k := key.value;
      if manifest.Some? {
        if k !in manifest.value.scalarWrites && k !in authorizedWrites {
          return Err(UndeclaredSlot);
        }
      }
      var f := PutRow(k, machine.Reg(i.b));
      return if f.None? then Ok(Falls) else Err(f.value);
    }

    method StepSend(i: Instr) returns (r: Result<Flow, Fault>)
      requires Valid() && i.Send? && meterUsed <= meterLimit
      modifies Repr()
      ensures Valid() && World() == old(World())
      ensures Obeys(old(State()), meterLimit, SendMove(old(Control()), i.a, i.b, i.c), old(loaded), r, State())
    {
      hide Region, TargetPrice;
      var amount := machine.Reg(i.c);
      var to := machine.MemRegion(machine.Reg(i.a), machine.Reg(i.b));
      if to.None? {
        return Err(BadMemory);
      }
      var f := ChargeEffect(|to.value|);
      if f.Some? {
        return Err(f.value);
      }
      f := ChargeDurableTarget([DURABLE_TRANSFER] + to.value);
      if f.Some? {
        return Err(f.value);
      }
      effects := effects + [Transfer(to.value, amount)];
      return Ok(Falls);
    }

    /** The mint leaf and the record price of an event. */
    method ChargeRecord(selector: seq<byte>, data: seq<byte>) returns (r: Option<Fault>)
      requires meterUsed <= meterLimit
      modifies this`meterUsed, this`durableTargets, this`eventRecords
      ensures var mint := MintTarget(selector, data);
              var leaf := if mint.Some? then TargetPrice(old(durableTargets), mint.value) else 0;
              var record := if old(eventRecords) + 1 > FREE_EVENT_RECORDS then EVENT_RECORD_METER else 0;
              if old(meterUsed) + leaf + record > meterLimit then r == Some(OutOfMeter)
              else r == None && meterUsed == old(meterUsed) + leaf + record
                   && eventRecords == old(eventRecords) + 1
                   && durableTargets == if mint.Some? then old(durableTargets) + {mint.value} else old(durableTargets)
    {
      hide TargetPrice;
      if selector == ASSET_MINT_SELECTOR && |data| >= ASSET_MINT_DATA_BYTES {
        r := ChargeDurableTarget([DURABLE_MINT] + data[..32]);
        if r.Some? {
          return;
        }
      }
      eventRecords := eventRecords + 1;
      if eventRecords > FREE_EVENT_RECORDS {
        r := Charge(EVENT_RECORD_METER);
        return;
      }
      return None;
    }

    /** Everything an event is charged: its retained bytes, its durable bytes and its record. */
    method ChargeEvent(selector: seq<byte>, data: seq<byte>) returns (r: Option<Fault>)
      requires meterUsed <= meterLimit
      modifies this`meterUsed, this`effectsBytes, this`durableTargets, this`eventRecords
      ensures var mint := MintTarget(selector, data);
              var leaf := if mint.Some? then TargetPrice(old(durableTargets), mint.value) else 0;
              var record := if old(eventRecords) + 1 > FREE_EVENT_RECORDS then EVENT_RECORD_METER else 0;
              var bytes := |data| * EFFECT_BYTE;
              var price := bytes + |data| * (EVENT_BYTE - EFFECT_BYTE) + leaf + record;
              var retained := old(effectsBytes) + |data| + EFFECT_RECORD_OVERHEAD;
              if retained > EFFECTS_BYTES_CAP then
                r == Some(if old(meterUsed) + bytes > meterLimit then OutOfMeter else EffectsTooLarge)
              else if old(meterUsed) + price > meterLimit then r == Some(OutOfMeter)
              else r == None && meterUsed == old(meterUsed) + price
                   && effectsBytes == retained
                   && eventRecords == old(eventRecords) + 1
                   && durableTargets == if mint.Some? then old(durableTargets) + {mint.value} else old(durableTargets)
    {
      hide TargetPrice, MintTarget;
      r := ChargeEffect(|data|);
      if r.Some? {
        return;
      }
      r := Charge(|data| * (EVENT_BYTE - EFFECT_BYTE));
      if r.Some? {
        return;
      }
      r := ChargeRecord(selector, data);
    }

    method StepEmit(i: Instr) returns (r: Result<Flow, Fault>)
      requires Valid() && i.Emit? && meterUsed <= meterLimit
      modifies Repr()
      ensures Valid() && World() == old(World())
      ensures Obeys(old(State()), meterLimit, EmitMove(old(Control()), i.a, i.b, i.c), old(loaded), r, State())
    {
      hide Region, TargetPrice, MintTarget, ToBE;
      if machine.Reg(i.c) >= TWO32 {
        return Err(Malformed);
      }
      var selector := ToBE(machine.Reg(i.c), 4);
      var data := machine.MemRegion(machine.Reg(i.a), machine.Reg(i.b));
      if data.None? {
        return Err(BadMemory);
      }
      var f := ChargeEvent(selector, data.value);
      if f.Some? {
        return Err(f.value);
      }
      effects := effects + [Event(selector, data.value)];
      return Ok(Falls);
    }

    /** Authorise `key` for reading, and for writing when `isWrite`, at its price and within the
        cap on retained keys. */
    method Authorise(key: Key, isWrite: bool) returns (r: Option<Fault>)
      requires meterUsed <= meterLimit
      modifies this`meterUsed, this`keyedBytes, this`authorizedReads, this`authorizedWrites
      ensures var already := key in old(authorizedWrites) || key in old(authorizedReads);
              var price := if already then 0 else KEYED_READ_METER;
              var entries := (if isWrite && key !in old(authorizedWrites) then 1 else 0)
                             + (if key !in old(authorizedReads) then 1 else 0);
              var retained := old(keyedBytes) + KEY_BYTES * entries;
              if old(meterUsed) + price > meterLimit then r == Some(OutOfMeter)
              else if retained > EFFECTS_BYTES_CAP then r == Some(EffectsTooLarge)
              else (
                && r == None && meterUsed == old(meterUsed) + price && keyedBytes == retained
                && authorizedWrites == (if isWrite then old(authorizedWrites) + {key} else old(authorizedWrites))
                && authorizedReads == old(authorizedReads) + {key})
    {
      var already := key in authorizedWrites || key in authorizedReads;
      var entries := (if isWrite && key !in authorizedWrites then 1 else 0)
                     + (if key !in authorizedReads then 1 else 0);
      if !already {
        r := Charge(KEYED_READ_METER);
        if r.Some? {
          return;
        }
      }
      r := RetainKeyed(entries);
      if r.Some? {
        return;
      }
      if isWrite {
        authorizedWrites := authorizedWrites + {key};
      }
      authorizedReads := authorizedReads + {key};
    }

    /** Authorise the digest now at `out` when the preimage was headed by a declared base. */
    method TaintKeyedFromHash(base: Option<u64>, out: u64) returns (r: Option<Fault>)
      requires Valid() && Region(Control().m.mem, out, KEY_BYTES).Some?
      requires meterUsed <= meterLimit
      modifies this`meterUsed, this`keyedBytes, this`authorizedReads, this`authorizedWrites
      ensures Valid() && World() == old(World())
      ensures var s := old(State());
              var k := Region(s.c.m.mem, out, KEY_BYTES).value;
              Obeys(s, meterLimit, TaintMove(old(World()), s.c, 0, base, k), s.loaded,
                    if r.None? then Ok(Falls) else Err(r.value), State())
    {
      hide Region;
      if base.None? || manifest.None? {
        return None;
      }
      var isWrite := base.value in manifest.value.keyedWrites;
      var isRead := isWrite || base.value in manifest.value.keyedReads;
      if !isWrite && !isRead {
        return None;
      }
      var region := machine.MemRegion(out, KEY_BYTES);
      var key: Key := region.value;
      r := Authorise(key, isWrite);
    }

    /** The keyed base at the head of a preimage, read before the digest can overwrite it. */
    method BaseAt(ptr: u64, len: u64) returns (base: Option<u64>)
      requires Valid()
      ensures var preimage := Region(Control().m.mem, ptr, len);
              preimage.Some? ==> base == BaseOf(preimage.value)
    {
      hide FromBE;
      if len < 8 {
        return None;
      }
      var head := machine.MemRegion(ptr, 8);
      if head.None? {
        return None;
      }
      HeadOfRegion(machine.Value().mem, ptr, len);
      return Some(U64At(head.value));
    }

    method StepHash(i: Instr) returns (r: Result<Flow, Fault>)
      requires Valid() && i.Hash? && meterUsed <= meterLimit
      modifies Repr()
      ensures Valid() && World() == old(World())
      ensures Obeys(old(State()), meterLimit, HashMove(old(World()), old(Control()), i.a, i.b, i.c),
                    old(loaded), r, State())
    {
      hide HashVariable, TaintMove, BaseOf, Region, WriteAt;
      var preimagePtr, len, out := machine.Reg(i.a), machine.Reg(i.b), machine.Reg(i.c);
      ghost var w, c, mem := World(), Control(), machine.Value().mem;
      var base := BaseAt(preimagePtr, len);
      var spent := HashVariable(len);
      HashStartsWithItsPrice(w, c, i.a, i.b, i.c);
      var f := Charge(spent);
      if f.Some? {
        return Err(f.value);
      }
      f := RunHash(machine, prims, i.a, i.b, i.c);
      if f.Some? {
        return Err(f.value);
      }
      ghost var digest := prims.sha3(Region(mem, preimagePtr, len).value);
      WriteThenRead(mem, out, digest);
      TaintAfterPrice(w, Control(), spent, base, digest);
      f := TaintKeyedFromHash(base, out);
      return if f.None? then Ok(Falls) else Err(f.value);
    }

    method StepControl(i: Instr) returns (r: Result<Flow, Fault>)
      requires Valid() && IsControl(i) && meterUsed <= meterLimit
      modifies Repr()
      ensures Valid() && World() == old(World())
      ensures Obeys(old(State()), meterLimit,
                    LiftLocal(old(Control()), ControlStep(Boundaries(code), old(Control()).m, i)),
                    old(loaded), r, State())
    {
      hide Starts;
      if i.Jmp? {
        return if i.target in bounds then Ok(JumpsTo(i.target)) else Err(BadJump);
      } else if i.Jz? || i.Jnz? {
        if (machine.Reg(i.a) == 0) == i.Jz? {
          return if i.target in bounds then Ok(JumpsTo(i.target)) else Err(BadJump);
        }
        return Ok(Falls);
      } else if i.Call? {
        var ok := machine.PushWord(machine.pc);
        if !ok {
          return Err(StackOverflow);
        }
        return if i.target in bounds then Ok(JumpsTo(i.target)) else Err(BadJump);
      } else {
        var ret := machine.PopWord();
        if ret.None? {
          return Err(StackUnderflow);
        }
        if ret.value >= TWO32 {
          return Err(BadJump);
        }
        return if ret.value in bounds then Ok(JumpsTo(ret.value)) else Err(BadJump);
      }
    }

    method StepMachine(i: Instr) returns (r: Result<Flow, Fault>)
      requires Valid() && IsLocal(i) && !IsControl(i) && meterUsed <= meterLimit
      modifies Repr()
      ensures Valid() && World() == old(World())
      ensures Obeys(old(State()), meterLimit,
                    LiftLocal(old(Control()), StepLocal(consts, Boundaries(code), prims, old(Control()).m, i)),
                    old(loaded), r, State())
    {
      hide Starts, DataStep, CryptoStep, HashVariable, MessageVariable, MerkleVariable;
      var f;
      if IsCrypto(i) {
        f := Charge(MachineVariable(i));
        if f.Some? {
          return Err(f.value);
        }
        f := RunCrypto(machine, prims, i);
      } else {
        f := RunData(machine, consts, i);
      }
      return if f.None? then Ok(Falls) else Err(f.value);
    }

    /** The length-scaled price of a crypto opcode. */
    function MachineVariable(i: Instr): (n: nat)
      reads this, machine, machine.regs, machine.mem
      requires Valid()
      ensures n == Variable(prims, Control().m, i)
    {
      if i.Hash? then HashVariable(machine.Reg(i.b))
      else if i.VerifyMl? then MessageVariable(SatSub(machine.Reg(i.b), prims.mlKeyBytes + prims.mlSigBytes))
      else if i.VerifySlh? then MessageVariable(SatSub(machine.Reg(i.b), prims.slhKeyBytes + prims.slhSigBytes))
      else if i.MerkleVerify? then MerkleVariable(SatSub(machine.Reg(i.b), MERKLE_HEADER))
      else 0
    }

    method Step(i: Instr) returns (r: Result<Flow, Fault>)
      requires Valid() && meterUsed <= meterLimit
      modifies Repr()
      ensures Valid() && World() == old(World())
      ensures var w, s := old(World()), old(State());
              var k := RowOf(w, s.c, i);
              Obeys(s, meterLimit,
                    Trans(w, s.c, i, if k.Some? then Lookup(w, s, k.value) else 0),
                    if k.Some? then Cache(w, s, k.value) else s.loaded,
                    r, State())
    {
      hide Obeys, LoadMove, StoreMove, SendMove, EmitMove, HashMove, StepLocal, ControlStep, KeyAt, Lookup, Cache;
      if i.Halt? {
        HaltObeys(State(), meterLimit);
        return Ok(Halting);
      } else if i.SLoad? {
        r := StepLoad(i);
      } else if i.SStore? {
        r := StepStore(i);
      } else if i.Send? {
        r := StepSend(i);
      } else if i.Emit? {
        r := StepEmit(i);
      } else if i.Hash? {
        r := StepHash(i);
      } else if IsControl(i) {
        ControlIsLocal(consts, Boundaries(code), prims, machine.Value(), i);
        r := StepControl(i);
      } else {
        r := StepMachine(i);
      }
    }

    /** The whole run: decode, charge, step, until a halt or a fault. */
    method Execute() returns (r: Result<Outcome, Fault>)
      requires Valid()
      modifies Repr()
      ensures match Run(old(World()), meterLimit, old(State()))
              case Halts(final) =>
                r == Ok(Outcome(final.c.m.regs, final.used, final.storage, final.c.dirty, |final.loaded|,
                                final.c.effects))
              case Faults(f) => r == Err(f)
    {
      hide Obeys, DecodeAt, CostOf, RowOf, Trans, Starts, Lookup, Cache, Next;
      ghost var w, start := World(), State();
      while true
        invariant Valid() && World() == w
        invariant Run(w, meterLimit, State()) == Run(w, meterLimit, start)
        decreases meterLimit - meterUsed
      {
        ghost var s := State();
        NextMeter(w, meterLimit, s);
        NextStopsEarly(w, meterLimit, s);
        var pc := machine.pc;
        var d := Decode(code, pc);
        if d.Err? {
          return Err(Undecodable(d.error));
        }
        var i, len := d.value.0, d.value.1;
        var f := Charge(CostOf(i));
        if f.Some? {
          return Err(OutOfMeter);
        }
        if pc + len >= TWO32 {
          return Err(BadJump);
        }
        machine.Jump(pc + len);
        ghost var s1 := State();
        ghost var k := RowOf(w, s1.c, i);
        ghost var move := Trans(w, s1.c, i, if k.Some? then Lookup(w, s1, k.value) else 0);
        ghost var loaded1 := if k.Some? then Cache(w, s1, k.value) else s1.loaded;
        NextIs(w, meterLimit, s, i, s1);
        var flow := Step(i);
        TickIs(s1, meterLimit, move, loaded1, flow, State());
        if flow.Err? {
          return Err(flow.error);
        }
        if flow.value.Halting? {
          return Ok(Outcome(machine.regs[..], meterUsed, storage, dirty, |loaded|, effects));
        }
        if flow.value.JumpsTo? {
          machine.Jump(flow.value.target);
        }
      }
    }
  }

  /** The three ways a store can go. */
  lemma StoreCases(w: World, c: Ctl, i: Instr)
    requires i.SStore?
    ensures match KeyAt(c.m, i.a)
            case None => RowOf(w, c, i) == None && forall v :: Trans(w, c, i, v) == Fail(0, BadMemory)
            case Some(k) =>
              if !MayWrite(w, c, k) then
                RowOf(w, c, i) == None && forall v :: Trans(w, c, i, v) == Fail(0, UndeclaredSlot)
              else
                && RowOf(w, c, i) == Some(k)
                && forall v :: Trans(w, c, i, v) ==
                     Go(if PaysLeaf(c, k, c.m.regs[i.b], v) then KEYED_SLOT_METER else 0,
                        c.(charged := if PaysFresh(c, k, c.m.regs[i.b], v) then c.charged + {k} else c.charged,
                           dirty := c.dirty + {k}),
                        Some((k, c.m.regs[i.b])))
  {
    hide PaysLeaf, PaysFresh, Region;
  }

  lemma HeadOfRegion(mem: Memory, ptr: u64, len: u64)
    requires len >= 8
    ensures Region(mem, ptr, len).Some? ==>
              Region(mem, ptr, 8).Some? && Region(mem, ptr, len).value[..8] == Region(mem, ptr, 8).value
  {
  }

  lemma HaltObeys(s: Config, limit: nat)
    ensures Obeys(s, limit, Stop, s.loaded, Ok(Halting), s)
  {
  }

  lemma ControlIsLocal(consts: seq<u64>, bounds: set<nat>, p: Prims, m: Mach, i: Instr)
    requires IsControl(i)
    ensures IsLocal(i) && StepLocal(consts, bounds, p, m, i) == ControlStep(bounds, m, i)
  {
  }

  /** A hash that cannot pay its price runs out of meter whatever it would do next. */
  lemma HashStartsWithItsPrice(w: World, c: Ctl, a: Reg, b: Reg, out: Reg)
    ensures HashMove(w, c, a, b, out).Fail? || HashMove(w, c, a, b, out).Go?
    ensures HashMove(w, c, a, b, out).charge >= HashVariable(c.m.regs[b])
  {
    hide HashVariable, HashInto, BaseOf, ReadBase, WriteBase;
  }

  /** Charging a price first adds it to whatever is charged later. */
  lemma TaintAfterPrice(w: World, c: Ctl, spent: nat, base: Option<u64>, k: Key)
    ensures TaintMove(w, c, spent, base, k) ==
            match TaintMove(w, c, 0, base, k)
            case Fail(charge, f) => Fail(spent + charge, f)
            case Go(charge, c', write) => Go(spent + charge, c', write)
            case Stop => Stop
  {
    hide ReadBase, WriteBase;
  }

  /** The loop turn in terms of the instruction it decoded. */
  lemma NextIs(w: World, limit: nat, s: Config, i: Instr, s1: Config)
    requires Fetched(w, s.c).Ok? && Fetched(w, s.c).value.0 == i
    requires s.c.m.pc + Fetched(w, s.c).value.1 < TWO32 && s.used + CostOf(i) <= limit
    requires s1 == s.(c := Advance(s.c, s.c.m.pc + Fetched(w, s.c).value.1), used := s.used + CostOf(i))
    ensures var k := RowOf(w, s1.c, i);
            var v := if k.Some? then Lookup(w, s1, k.value) else 0;
            var loaded := if k.Some? then Cache(w, s1, k.value) else s1.loaded;
            && Next(w, limit, s) == TickOf(s1, limit, Trans(w, s1.c, i, v), loaded)
            && (Trans(w, s1.c, i, v).Stop? ==> loaded == s1.loaded)
  {
    hide DecodeAt, CostOf, Trans, Region;
    OnlyHaltStops(w, s1.c, i, if RowOf(w, s1.c, i).Some? then Lookup(w, s1, RowOf(w, s1.c, i).value) else 0);
    assert RowOf(w, s1.c, i) == RowOf(w, s.c, i) == Wants(w, s.c);
  }

  /** A loop turn once the instruction's move is known. */
  function TickOf(s1: Config, limit: nat, move: Move, loaded: map<Key, u64>): Tick {
    match move
    case Stop => Done(s1.(loaded := loaded))
    case Fail(charge, f) => Crash(if s1.used + charge > limit then OutOfMeter else f)
    case Go(charge, c, write) =>
      if s1.used + charge > limit then Crash(OutOfMeter)
      else More(Config(c, s1.used + charge, Written(s1.storage, write), loaded))
  }

  lemma TickIs(s1: Config, limit: nat, move: Move, loaded: map<Key, u64>, r: Result<Flow, Fault>, after: Config)
    requires Obeys(s1, limit, move, loaded, r, after)
    requires move.Stop? ==> loaded == s1.loaded
    ensures match TickOf(s1, limit, move, loaded)
            case Crash(f) => r == Err(f)
            case Done(final) => r == Ok(Halting) && after == final
            case More(s') => r.Ok? && !r.value.Halting? && Landed(after, r.value) == s'
  {
  }
}
