/** Storage: the lazily loaded layer, write confinement, and what state creation costs. */
module Storage {
  import opened Bytes
  import opened Isa
  import opened Meter
  import opened Machines
  import opened Crypto
  import opened Semantics

  // ---- The view a run has of the store ----

  function Loaded(w: World, k: Key): u64 {
    if w.loader.Some? then w.loader.value(k) else 0
  }

  /** The store as the run sees it: its own writes over the loader. */
  function View(w: World, s: Config, k: Key): u64 {
    if k in s.storage then s.storage[k] else Loaded(w, k)
  }

  /** The cache holds only what the loader answers. */
  predicate CacheAgrees(w: World, s: Config) {
    forall k | k in s.loaded :: w.loader.Some? && s.loaded[k] == w.loader.value(k)
  }

  lemma LookupIsView(w: World, s: Config, k: Key)
    requires CacheAgrees(w, s)
    ensures Lookup(w, s, k) == View(w, s, k)
  {
  }

  /** Only a store writes, and it writes the row it looked up and marks it dirty. */
  lemma WritesAreWanted(w: World, c: Ctl, c1: Ctl, v: u64)
    requires Fetched(w, c).Ok? && c1 == c.(m := c.m.(pc := c1.m.pc))
    requires Trans(w, c1, Fetched(w, c).value.0, v).Go?
    ensures var i, r := Fetched(w, c).value.0, Trans(w, c1, Fetched(w, c).value.0, v);
            && (r.write.Some? <==> i.SStore?)
            && (i.SStore? ==>
                  && Wants(w, c) == Some(r.write.value.0)
                  && r.c.dirty == c.dirty + {r.write.value.0}
                  && r.write.value.1 == c.m.regs[i.b]
                  && MayWrite(w, c, r.write.value.0))
            && (!i.SStore? ==> r.c.dirty == c.dirty && r.c.charged == c.charged)
            && (i.SLoad? ==>
                  && Wants(w, c).Some?
                  && r.c == c1.(m := SetReg(c1.m, i.d, v)))
  {
    hide DecodeAt, HashVariable, MintTarget, TargetPrice, PaysLeaf, BaseOf, ReadBase, WriteBase, HashInto;
  }

  /** One step on the view: a store changes exactly the row it names, a load reads the view, and
      nothing else changes it; what was fetched stays out of the written layer. */
  lemma StepView(w: World, limit: nat, s: Config)
    requires CacheAgrees(w, s) && Next(w, limit, s).More?
    ensures var s', i := Next(w, limit, s).s, Fetched(w, s.c).value.0;
            && Fetched(w, s.c).Ok?
            && CacheAgrees(w, s')
            && (i.SStore? ==>
                  var k := Wants(w, s.c);
                  && k.Some?
                  && s'.storage == s.storage[k.value := s.c.m.regs[i.b]]
                  && s'.c.dirty == s.c.dirty + {k.value}
                  && forall k' :: View(w, s', k') == if k' == k.value then s.c.m.regs[i.b] else View(w, s, k'))
            && (!i.SStore? ==> s'.storage == s.storage && s'.c.dirty == s.c.dirty)
            && (i.SLoad? ==>
                  && Wants(w, s.c).Some?
                  && s'.c.m.regs == s.c.m.regs[i.d := View(w, s, Wants(w, s.c).value)])
  {
    hide Next, Trans, DecodeAt, CostOf, Wants;
    var i, c1 := NextParts(w, limit, s);
    WritesAreWanted(w, s.c, c1, Seen(w, s));
    if Wants(w, s.c).Some? {
      LookupIsView(w, s, Wants(w, s.c).value);
    }
  }

  /** Over a whole run the cache agrees with the loader, reads never enter the written layer, and
      the written layer differs from its start only on dirty rows. */
  lemma {:induction false} LazyStorage(w: World, limit: nat, t: seq<Config>)
    requires IsRun(w, limit, t) && CacheAgrees(w, t[0]) && t[0].c.dirty == {}
    ensures CacheAgrees(w, Last(t))
    ensures Last(t).storage.Keys == t[0].storage.Keys + Last(t).c.dirty
    ensures forall k | k in t[0].storage && k !in Last(t).c.dirty :: Last(t).storage[k] == t[0].storage[k]
    decreases |t|
  {
    hide Next, View, CacheAgrees;
    if |t| > 1 {
      var before := t[..|t| - 1];
      LazyStorage(w, limit, before);
      assert Next(w, limit, t[|t| - 2]) == More(t[|t| - 1]);
      StepView(w, limit, Last(before));
    }
  }

  // ---- The plain machine ----

  /** The reference machine: one total store, no cache and no written layer. */
  datatype Plain = Plain(c: Ctl, used: nat, store: Key -> u64)

  datatype PlainResult =
    | PlainHalts(c: Ctl, used: nat, store: Key -> u64)
    | PlainFaults(fault: Fault)

  function PlainSeen(w: World, p: Plain): u64 {
    var k := Wants(w, p.c);
    if k.Some? then p.store(k.value) else 0
  }

  function Put(store: Key -> u64, write: Option<(Key, u64)>): Key -> u64 {
    if write.Some? then (k: Key) => if k == write.value.0 then write.value.1 else store(k) else store
  }

  function PlainRun(w: World, limit: nat, p: Plain): PlainResult
    decreases limit - p.used
  {
    TurnMeter(w, limit, p.c, p.used, PlainSeen(w, p));
    match Turn(w, limit, p.c, p.used, PlainSeen(w, p))
    case BeatFault(f) => PlainFaults(f)
    case BeatHalt(c, used) => PlainHalts(c, used, p.store)
    case BeatGo(c, used, write) => PlainRun(w, limit, Plain(c, used, Put(p.store, write)))
  }

  ghost predicate Refines(w: World, s: Config, p: Plain) {
    && s.c == p.c && s.used == p.used && CacheAgrees(w, s)
    && forall k :: View(w, s, k) == p.store(k)
  }

  /** The lazy interpreter computes what the plain machine computes, row for row. */
  lemma {:induction false} LazyRefinesPlain(w: World, limit: nat, s: Config, p: Plain)
    requires Refines(w, s, p)
    ensures match Run(w, limit, s)
            case Faults(f) => PlainRun(w, limit, p) == PlainFaults(f)
            case Halts(final) =>
              && PlainRun(w, limit, p).PlainHalts?
              && var r := PlainRun(w, limit, p);
                 Refines(w, final, Plain(r.c, r.used, r.store))
    decreases limit - s.used
  {
    hide Turn, Wants;
    var k := Wants(w, s.c);
    NextMeter(w, limit, s);
    if k.Some? {
      LookupIsView(w, s, k.value);
    }
    match Turn(w, limit, s.c, s.used, Seen(w, s))
    case BeatGo(c, used, write) =>
      LazyRefinesPlain(w, limit, Next(w, limit, s).s, Plain(c, used, Put(p.store, write)));
    case _ =>
  }
}
