/** What the opcodes that reach past the machine do: storage, effects, hashing and signatures, in rows,
    bytes and meter. Each law is about one turn of the loop and says all of it. */
module Services {
  import opened Bytes
  import opened Isa
  import opened Sweep
  import opened Meter
  import opened Machines
  import opened Crypto
  import opened Local
  import opened Semantics
  import opened Confinement
  import opened Opcodes

  // ---- Storage ----

  /** The value of a row: as written, else as fetched before, else as the loader has it. */
  function Held(w: World, s: Config, k: Key): u64 {
    if k in s.storage then s.storage[k]
    else if k in s.loaded then s.loaded[k]
    else if w.loader.Some? then w.loader.value(k)
    else 0
  }

  /** What has been fetched once the row has been read. */
  function Fetching(w: World, s: Config, k: Key): map<Key, u64> {
    if k in s.storage || k in s.loaded || w.loader.None? then s.loaded
    else s.loaded[k := w.loader.value(k)]
  }

  predicate Readable(w: World, s: Config, k: Key) {
    w.manifest.None? || k in w.manifest.value.scalarReads || k in w.manifest.value.scalarWrites || k in s.c.authR
  }

  predicate Writable(w: World, s: Config, k: Key) {
    w.manifest.None? || k in w.manifest.value.scalarWrites || k in s.c.authW
  }

  lemma KeyIs(m: Mach, a: Reg)
    ensures KeyAt(m, a) == if InMemory(m.regs[a], 32) then Some(BytesAt(m, m.regs[a], 32)) else None
  {
  }

  /** A permitted load goes through, and writes the row's value to its register. */
  lemma LoadTurn(w: World, limit: nat, s: Config, n: nat, d: Reg, a: Reg)
    requires Runs(w, limit, s, SLoad(d, a), n)
    ensures var ptr := s.c.m.regs[a];
            if !InMemory(ptr, 32) then Next(w, limit, s) == Crash(BadMemory)
            else
              var k: Key := BytesAt(s.c.m, ptr, 32);
              if !Readable(w, s, k) then Next(w, limit, s) == Crash(UndeclaredSlot)
              else
                Next(w, limit, s) ==
                More(Config(s.c.(m := WithReg(After(s, n), d, Held(w, s, k))), s.used + 100,
                            s.storage, Fetching(w, s, k)))
  {
    hide DecodeAt, Starts, KeyAt;
    KeyIs(s.c.m, a);
    KeyIs(After(s, n), a);
  }

  /** The leaf price of a store: for a row turned from zero and not charged before, when it is keyed or
      eight rows are dirty; and for any other row first dirtied past eight. */
  function LeafPrice(s: Config, k: Key, val: u64, prior: u64): nat {
    if val != 0 && prior == 0 && k !in s.c.charged && (k in s.c.authW || |s.c.dirty| >= 8) then 227_000
    else if k !in s.c.dirty && |s.c.dirty| >= 8 && k !in s.c.charged then 227_000
    else 0
  }

  /** The rows charged for being turned from zero, after a store. */
  function ChargedBy(s: Config, k: Key, val: u64, prior: u64): set<Key> {
    if val != 0 && prior == 0 && (k in s.c.authW || |s.c.dirty| >= 8) then s.c.charged + {k} else s.c.charged
  }

  /** A permitted store that the meter covers goes through, and its row holds the register's value. */
  lemma StoreTurn(w: World, limit: nat, s: Config, n: nat, a: Reg, b: Reg)
    requires Runs(w, limit, s, SStore(a, b), n)
    ensures var ptr, val := s.c.m.regs[a], s.c.m.regs[b];
            if !InMemory(ptr, 32) then Next(w, limit, s) == Crash(BadMemory)
            else
              var k: Key := BytesAt(s.c.m, ptr, 32);
              if !Writable(w, s, k) then Next(w, limit, s) == Crash(UndeclaredSlot)
              else
                var used := s.used + 500 + LeafPrice(s, k, val, Held(w, s, k));
                if used > limit then Next(w, limit, s) == Crash(OutOfMeter)
                else
                  Next(w, limit, s) ==
                  More(Config(s.c.(m := After(s, n), dirty := s.c.dirty + {k},
                                   charged := ChargedBy(s, k, val, Held(w, s, k))),
                              used, s.storage[k := val], Fetching(w, s, k)))
  {
    hide DecodeAt, Starts, KeyAt, StoreMove, ChargedBy, LeafPrice;
    KeyIs(s.c.m, a);
    var prior := if Wants(w, s.c).Some? then Held(w, s, Wants(w, s.c).value) else 0;
    StoreIs(w, s, After(s, n), a, b, prior);
  }

  lemma StoreIs(w: World, s: Config, m: Mach, a: Reg, b: Reg, prior: u64)
    requires m.regs == s.c.m.regs && m.mem == s.c.m.mem
    ensures var move, ptr, val := StoreMove(w, s.c.(m := m), a, b, prior), s.c.m.regs[a], s.c.m.regs[b];
            if !InMemory(ptr, 32) then move == Fail(0, BadMemory)
            else
              var k: Key := BytesAt(s.c.m, ptr, 32);
              if !Writable(w, s, k) then move == Fail(0, UndeclaredSlot)
              else
                move == Go(LeafPrice(s, k, val, prior),
                           s.c.(m := m, dirty := s.c.dirty + {k}, charged := ChargedBy(s, k, val, prior)),
                           Some((k, val)))
  {
    hide KeyAt, PaysLeaf, PaysFresh, LeafPrice, ChargedBy;
    KeyIs(m, a);
    if InMemory(s.c.m.regs[a], 32) {
      LeafPriceIs(s, m, BytesAt(s.c.m, s.c.m.regs[a], 32), s.c.m.regs[b], prior);
    }
  }

  lemma LeafPriceIs(s: Config, m: Mach, k: Key, val: u64, prior: u64)
    ensures var c := s.c.(m := m);
            && (if PaysLeaf(c, k, val, prior) then KEYED_SLOT_METER else 0) == LeafPrice(s, k, val, prior)
            && (if PaysFresh(c, k, val, prior) then c.charged + {k} else c.charged) == ChargedBy(s, k, val, prior)
  {
    if k in s.c.charged {
      assert s.c.charged + {k} == s.c.charged;
    }
  }

  /** Which loads go through, over a whole run: in bounds and covered by the meter, a load faults as
      undeclared exactly when its key is neither a declared slot nor the digest of a preimage the run
      hashed under a declared base; and otherwise it goes on. */
  lemma LoadAccess(w: World, limit: nat, t: seq<Config>, n: nat, d: Reg, a: Reg)
    requires IsRun(w, limit, t) && t[0].c.authW == {} && t[0].c.authR == {}
    requires Runs(w, limit, Last(t), SLoad(d, a), n) && InMemory(Last(t).c.m.regs[a], 32)
    ensures var s := Last(t);
            var k: Key := BytesAt(s.c.m, s.c.m.regs[a], 32);
            var allowed := w.manifest.Some? ==>
              || k in w.manifest.value.scalarReads + w.manifest.value.scalarWrites
              || ReadDigest(w, RunHashes(w, t), k);
            && (Next(w, limit, s) == Crash(UndeclaredSlot) <==> !allowed)
            && (Next(w, limit, s).More? <==> allowed)
  {
    hide Next, RunHashes, ReadDigest, DecodeAt, CostOf;
    RunAuthorised(w, limit, t);
    LoadTurn(w, limit, Last(t), n, d, a);
  }

  /** The same for stores; one that is permitted can still run out of meter for its leaf. */
  lemma StoreAccess(w: World, limit: nat, t: seq<Config>, n: nat, a: Reg, b: Reg)
    requires IsRun(w, limit, t) && t[0].c.authW == {} && t[0].c.authR == {}
    requires Runs(w, limit, Last(t), SStore(a, b), n) && InMemory(Last(t).c.m.regs[a], 32)
    ensures var s := Last(t);
            var k: Key := BytesAt(s.c.m, s.c.m.regs[a], 32);
            var allowed := w.manifest.Some? ==>
              k in w.manifest.value.scalarWrites || WriteDigest(w, RunHashes(w, t), k);
            && (Next(w, limit, s) == Crash(UndeclaredSlot) <==> !allowed)
            && (allowed ==> Next(w, limit, s).More? || Next(w, limit, s) == Crash(OutOfMeter))
            && (allowed && s.used + 500 + 227_000 <= limit ==> Next(w, limit, s).More?)
  {
    hide Next, RunHashes, WriteDigest, DecodeAt, CostOf;
    RunAuthorised(w, limit, t);
    StoreTurn(w, limit, Last(t), n, a, b);
  }

  // ---- What a run fetches ----

  /** The row the next turn fetches from the loader: the one it looks up, unless it was written. */
  function StepFetch(w: World, s: Config): set<Key> {
    match Wants(w, s.c)
    case None => {}
    case Some(k) => if k in s.storage || w.loader.None? then {} else {k}
  }

  function RunFetch(w: World, t: seq<Config>): set<Key>
    requires t != []
  {
    if |t| == 1 then {}
    else
      var before := t[..|t| - 1];
      RunFetch(w, before) + StepFetch(w, Last(before))
  }

  /** What is surfaced as fetched is exactly the rows the run looked up before writing them. */
  lemma {:induction false} FetchesExactly(w: World, limit: nat, t: seq<Config>)
    requires IsRun(w, limit, t) && t[0].loaded == map[]
    ensures Last(t).loaded.Keys == RunFetch(w, t)
    decreases |t|
  {
    hide Next, StepFetch;
    if |t| > 1 {
      var before := t[..|t| - 1];
      FetchesExactly(w, limit, before);
      assert Next(w, limit, t[|t| - 2]) == More(t[|t| - 1]);
      OneFetch(w, limit, Last(before));
    }
  }

  lemma OneFetch(w: World, limit: nat, s: Config)
    requires Next(w, limit, s).More?
    ensures Next(w, limit, s).s.loaded.Keys == s.loaded.Keys + StepFetch(w, s)
  {
    hide Next, Trans, DecodeAt, CostOf, Wants, Lookup;
    var i, c1 := NextParts(w, limit, s);
  }

  // ---- Effects ----

  /** A turn of an opcode that reads no row, in terms of its move. */
  lemma MoveTurn(w: World, limit: nat, s: Config, i: Instr, n: nat)
    requires Runs(w, limit, s, i, n) && (i.Send? || i.Emit? || i.Hash?)
    ensures Next(w, limit, s) ==
            match Trans(w, s.c.(m := After(s, n)), i, 0)
            case Stop => Crash(BadMemory)
            case Fail(charge, f) => Crash(if s.used + 200 + charge > limit then OutOfMeter else f)
            case Go(charge, c, write) =>
              if s.used + 200 + charge > limit then Crash(OutOfMeter)
              else More(Config(c, s.used + 200 + charge, Written(s.storage, write), s.loaded))
  {
    hide DecodeAt, Starts, SendMove, EmitMove, HashMove;
    OnlyHaltStops(w, s.c.(m := After(s, n)), i, 0);
  }

  /** A transfer records the bytes of the recipient and the amount in the third register. It pays two
      for each byte and a leaf for each new recipient but the first target; the bytes retained by
      effects, 32 for each effect included, are capped. */
  lemma SendTurn(w: World, limit: nat, s: Config, n: nat, a: Reg, b: Reg, c: Reg)
    requires Runs(w, limit, s, Send(a, b, c), n)
    ensures var ptr, len := s.c.m.regs[a], s.c.m.regs[b];
            if !InMemory(ptr, len) then Next(w, limit, s) == Crash(BadMemory)
            else
              var to := BytesAt(s.c.m, ptr, len);
              var bytes := s.used + 200 + 2 * |to|;
              var used := bytes + if [0] + to !in s.c.targets && s.c.targets != {} then 227_000 else 0;
              if bytes > limit then Next(w, limit, s) == Crash(OutOfMeter)
              else if s.c.effectsBytes + |to| + 32 > 0x10_0000 then Next(w, limit, s) == Crash(EffectsTooLarge)
              else if used > limit then Next(w, limit, s) == Crash(OutOfMeter)
              else
                Next(w, limit, s) ==
                More(s.(c := s.c.(m := After(s, n), effectsBytes := s.c.effectsBytes + |to| + 32,
                                  targets := s.c.targets + {[0] + to},
                                  effects := s.c.effects + [Transfer(to, s.c.m.regs[c])]),
                        used := used))
  {
    hide DecodeAt, Starts, Next, Region;
    MoveTurn(w, limit, s, Send(a, b, c), n);
    RegionIs(s.c.m, s.c.m.regs[a], s.c.m.regs[b]);
  }

  /** The account a mint event creates: behind the asset mint selector, the first 32 bytes of data. */
  function Minted(selector: seq<byte>, data: seq<byte>): set<seq<byte>> {
    if selector == [77, 73, 78, 84] && |data| >= 40 then {[1] + data[..32]} else {}
  }

  /** An event records the third register, which must fit four bytes, as its selector, and its data. It
      pays a hundred for each byte, a leaf for each new account it mints to but the first target, and
      a record price from the fifth event on. */
  lemma EmitTurn(w: World, limit: nat, s: Config, n: nat, a: Reg, b: Reg, c: Reg)
    requires Runs(w, limit, s, Emit(a, b, c), n)
    ensures var ptr, len := s.c.m.regs[a], s.c.m.regs[b];
            if s.c.m.regs[c] > 0xFFFF_FFFF then Next(w, limit, s) == Crash(Malformed)
            else if !InMemory(ptr, len) then Next(w, limit, s) == Crash(BadMemory)
            else
              var selector, data := ToBE(s.c.m.regs[c], 4), BytesAt(s.c.m, ptr, len);
              var bytes := s.used + 200 + 2 * |data|;
              var minted := Minted(selector, data);
              var used := s.used + 200 + 100 * |data|
                          + (if minted - s.c.targets != {} && s.c.targets != {} then 227_000 else 0)
                          + (if s.c.events >= 4 then 6_250 else 0);
              if bytes > limit then Next(w, limit, s) == Crash(OutOfMeter)
              else if s.c.effectsBytes + |data| + 32 > 0x10_0000 then Next(w, limit, s) == Crash(EffectsTooLarge)
              else if used > limit then Next(w, limit, s) == Crash(OutOfMeter)
              else
                Next(w, limit, s) ==
                More(s.(c := s.c.(m := After(s, n), effectsBytes := s.c.effectsBytes + |data| + 32,
                                  targets := s.c.targets + minted, events := s.c.events + 1,
                                  effects := s.c.effects + [Event(selector, data)]),
                        used := used))
  {
    hide DecodeAt, Starts, Next, Region, ToBE, EmitMove, Minted;
    MoveTurn(w, limit, s, Emit(a, b, c), n);
    EmitIs(s, After(s, n), a, b, c);
  }

  lemma MintIs(selector: seq<byte>, data: seq<byte>)
    ensures Minted(selector, data) == match MintTarget(selector, data) case None => {} case Some(t) => {t}
  {
  }

  lemma EmitIs(s: Config, m: Mach, a: Reg, b: Reg, c: Reg)
    requires m.regs == s.c.m.regs && m.mem == s.c.m.mem
    ensures var move, ptr, len := EmitMove(s.c.(m := m), a, b, c), s.c.m.regs[a], s.c.m.regs[b];
            if s.c.m.regs[c] > 0xFFFF_FFFF then move == Fail(0, Malformed)
            else if !InMemory(ptr, len) then move == Fail(0, BadMemory)
            else
              var selector, data := ToBE(s.c.m.regs[c], 4), BytesAt(s.c.m, ptr, len);
              var minted := Minted(selector, data);
              if s.c.effectsBytes + |data| + 32 > 0x10_0000 then move == Fail(2 * |data|, EffectsTooLarge)
              else
                move == Go(100 * |data| + (if minted - s.c.targets != {} && s.c.targets != {} then 227_000 else 0)
                             + (if s.c.events >= 4 then 6_250 else 0),
                           s.c.(m := m, effectsBytes := s.c.effectsBytes + |data| + 32,
                                targets := s.c.targets + minted, events := s.c.events + 1,
                                effects := s.c.effects + [Event(selector, data)]),
                           None)
  {
    hide Region, ToBE, Minted, MintTarget;
    RegionIs(m, s.c.m.regs[a], s.c.m.regs[b]);
    if s.c.m.regs[c] < TWO32 && InMemory(s.c.m.regs[a], s.c.m.regs[b]) {
      var selector, data := ToBE(s.c.m.regs[c], 4), BytesAt(s.c.m, s.c.m.regs[a], s.c.m.regs[b]);
      MintIs(selector, data);
      assert s.c.targets + {} == s.c.targets;
    }
  }

  // ---- Hashing and keyed authorisation ----

  /** What hashing a preimage to `k` does to the authorisations and what it pays for them: nothing unless
      the preimage is headed by a declared base; else 948 for a key not authorised before, and 32 bytes
      retained for each set the key joins. */
  ghost predicate Taints(w: World, limit: nat, s: Config, used: nat, m: Mach, p: seq<byte>, k: Key, r: Tick) {
    var writes := w.manifest.Some? && HeadedBy(p, w.manifest.value.keyedWrites);
    var bases := w.manifest.Some? && HeadedBy(p, w.manifest.value.keyedReads + w.manifest.value.keyedWrites);
    if !bases then r == More(s.(c := s.c.(m := m), used := used))
    else
      var authW := if writes then s.c.authW + {k} else s.c.authW;
      var authR := s.c.authR + {k};
      var retained := s.c.keyedBytes + (if writes && k !in s.c.authW then 32 else 0)
                      + (if k !in s.c.authR then 32 else 0);
      var paid := used + if k in s.c.authW || k in s.c.authR then 0 else 948;
      if paid > limit then r == Crash(OutOfMeter)
      else if retained > 0x10_0000 then r == Crash(EffectsTooLarge)
      else r == More(s.(c := s.c.(m := m, authW := authW, authR := authR, keyedBytes := retained), used := paid))
  }

  /** Hashing writes the digest of the region as it was, having paid for its blocks, and authorises the
      digest by the head of that region. */
  lemma HashTurn(w: World, limit: nat, s: Config, n: nat, a: Reg, b: Reg, c: Reg)
    requires Runs(w, limit, s, Hash(a, b, c), n)
    ensures var ptr, len, to := s.c.m.regs[a], s.c.m.regs[b], s.c.m.regs[c];
            var used := s.used + 200 + 40 * (len / 136 + 1);
            if used > limit then Next(w, limit, s) == Crash(OutOfMeter)
            else if !InMemory(ptr, len) || !InMemory(to, 32) then Next(w, limit, s) == Crash(BadMemory)
            else
              var p := BytesAt(s.c.m, ptr, len);
              var k := w.prims.sha3(p);
              Taints(w, limit, s, used, WithBytes(After(s, n), to, k), p, k, Next(w, limit, s))
  {
    hide DecodeAt, Starts, Next, Region, WriteAt, HashVariable, BaseOf, TaintMove, Taints;
    var ptr, len, to := s.c.m.regs[a], s.c.m.regs[b], s.c.m.regs[c];
    MoveTurn(w, limit, s, Hash(a, b, c), n);
    BlockPrices(len, len / 136 + 1);
    RegionIs(s.c.m, ptr, len);
    if InMemory(ptr, len) {
      var p := BytesAt(s.c.m, ptr, len);
      var k := w.prims.sha3(p);
      WriteIs(After(s, n), to, k);
      if InMemory(to, 32) {
        var m := WithBytes(After(s, n), to, k);
        TaintChargesFirst(w, s.c.(m := m), 40 * (len / 136 + 1), BaseOf(p), k);
        if s.used + 200 + 40 * (len / 136 + 1) <= limit {
          TaintIs(w, limit, s, s.used + 200, 40 * (len / 136 + 1), m, p, k);
        }
      }
    }
  }

  lemma TaintChargesFirst(w: World, c: Ctl, spent: nat, base: Option<u64>, k: Key)
    ensures !TaintMove(w, c, spent, base, k).Stop? && TaintMove(w, c, spent, base, k).charge >= spent
  {
  }

  lemma TaintIs(w: World, limit: nat, s: Config, used: nat, spent: nat, m: Mach, p: seq<byte>, k: Key)
    requires used + spent <= limit
    ensures Taints(w, limit, s, used + spent, m, p, k,
                   match TaintMove(w, s.c.(m := m), spent, BaseOf(p), k)
                   case Stop => Crash(BadMemory)
                   case Fail(charge, f) => Crash(if used + charge > limit then OutOfMeter else f)
                   case Go(charge, c, write) =>
                     if used + charge > limit then Crash(OutOfMeter)
                     else More(Config(c, used + charge, Written(s.storage, write), s.loaded)))
  {
    hide BaseOf, HeadedBy, WriteBase, ReadBase;
    BasesAreHeads(w, p);
    WritersAreReaders(w, BaseOf(p));
  }

  lemma WritersAreReaders(w: World, base: Option<u64>)
    ensures WriteBase(w, base) ==> ReadBase(w, base)
  {
  }

  // ---- Signatures and addresses ----

  /** A verify opcode writes one to its third register exactly when the claim is accepted. */
  function Answers(s: Config, used: nat, m: Mach, c: Reg, v: Verdict): Tick {
    match v
    case Panics => Crash(CryptoFault)
    case Accepts => More(s.(c := s.c.(m := WithReg(m, c, 1)), used := used))
    case Rejects => More(s.(c := s.c.(m := WithReg(m, c, 0)), used := used))
  }

  /** The blocks of the message behind a key and a signature. */
  function Blocks(len: u64, header: nat): nat {
    (if len as int > header then len as int - header else 0) / 136 + 1
  }

  lemma CryptoTurn(w: World, limit: nat, s: Config, i: Instr, n: nat)
    requires Runs(w, limit, s, i, n) && IsCrypto(i)
    ensures Next(w, limit, s) ==
            var used := s.used + CostOf(i) + Variable(w.prims, s.c.m, i);
            if used > limit then Crash(OutOfMeter)
            else
              match CryptoStep(w.prims, After(s, n), i)
              case Err(f) => Crash(f)
              case Ok(m) => More(s.(c := s.c.(m := m), used := used))
  {
    hide DecodeAt, Starts, CostOf, CryptoStep, Next, HashVariable, MessageVariable, MerkleVariable;
    LocalTurn(w, limit, s, i, n);
  }

  /** An ML-DSA claim is a key, a signature and a message in a row. It is rejected outright for a
      degenerate key, and otherwise as the primitive judges; its message pays by the block. */
  lemma VerifyMlTurn(w: World, limit: nat, s: Config, n: nat, a: Reg, b: Reg, c: Reg)
    requires Runs(w, limit, s, VerifyMl(a, b, c), n)
    ensures var p, ptr, len := w.prims, s.c.m.regs[a], s.c.m.regs[b];
            var header := p.mlKeyBytes as int + p.mlSigBytes as int;
            var used := s.used + 60_000 + 40 * Blocks(len, header);
            if used > limit then Next(w, limit, s) == Crash(OutOfMeter)
            else if !InMemory(ptr, len) || len as int < header then Next(w, limit, s) == Crash(BadMemory)
            else
              var claim := BytesAt(s.c.m, ptr, len);
              var key, sig, message := claim[..p.mlKeyBytes], claim[p.mlKeyBytes..header], claim[header..];
              Next(w, limit, s) ==
              Answers(s, used, After(s, n), c,
                      match p.mlDegenerate(key)
                      case Accepts => Rejects
                      case Panics => Panics
                      case Rejects => p.mlVerify(key, message, sig))
  {
    hide DecodeAt, Starts, Next, Region, KeccakBlocks, MessageVariable;
    var ptr, len := s.c.m.regs[a], s.c.m.regs[b];
    CryptoTurn(w, limit, s, VerifyMl(a, b, c), n);
    RegionIs(s.c.m, ptr, len);
    var tail := SatSub(len, w.prims.mlKeyBytes as int + w.prims.mlSigBytes as int);
    BlockPrices(tail, tail / 136 + 1);
  }

  /** An SLH-DSA claim is laid out alike and judged by its primitive. */
  lemma VerifySlhTurn(w: World, limit: nat, s: Config, n: nat, a: Reg, b: Reg, c: Reg)
    requires Runs(w, limit, s, VerifySlh(a, b, c), n)
    ensures var p, ptr, len := w.prims, s.c.m.regs[a], s.c.m.regs[b];
            var header := p.slhKeyBytes as int + p.slhSigBytes as int;
            var used := s.used + 340_000 + 40 * Blocks(len, header);
            if used > limit then Next(w, limit, s) == Crash(OutOfMeter)
            else if !InMemory(ptr, len) || len as int < header then Next(w, limit, s) == Crash(BadMemory)
            else
              var claim := BytesAt(s.c.m, ptr, len);
              Next(w, limit, s) ==
              Answers(s, used, After(s, n), c,
                      p.slhVerify(claim[..p.slhKeyBytes], claim[header..], claim[p.slhKeyBytes..header]))
  {
    hide DecodeAt, Starts, Next, Region, KeccakBlocks, MessageVariable;
    var ptr, len := s.c.m.regs[a], s.c.m.regs[b];
    CryptoTurn(w, limit, s, VerifySlh(a, b, c), n);
    RegionIs(s.c.m, ptr, len);
    var tail := SatSub(len, w.prims.slhKeyBytes as int + w.prims.slhSigBytes as int);
    BlockPrices(tail, tail / 136 + 1);
  }

  /** The levels of the path behind the 72 bytes of a claim's root, index and leaf. */
  function Levels(len: u64): nat {
    (if len > 72 then len as int - 72 else 0) / 32
  }

  /** A Merkle claim pays for its levels, a product that saturates, and is judged by the Merkle opcode. */
  lemma MerkleTurn(w: World, limit: nat, s: Config, n: nat, a: Reg, b: Reg, c: Reg)
    requires Runs(w, limit, s, MerkleVerify(a, b, c), n)
    ensures var len := s.c.m.regs[b];
            var path := 50 * Levels(len);
            var used := s.used + 512 + if path <= 0xFFFF_FFFF_FFFF_FFFF then path else 0xFFFF_FFFF_FFFF_FFFF;
            Next(w, limit, s) ==
            if used > limit then Crash(OutOfMeter)
            else
              match CryptoStep(w.prims, After(s, n), MerkleVerify(a, b, c))
              case Err(f) => Crash(f)
              case Ok(m) => More(s.(c := s.c.(m := m), used := used))
  {
    hide DecodeAt, Starts, Next, CryptoStep, MerkleVariable;
    CryptoTurn(w, limit, s, MerkleVerify(a, b, c), n);
    LevelPrices(SatSub(s.c.m.regs[b], 72), Levels(s.c.m.regs[b]));
  }

  /** An address is the digest of the scheme's number and the key. */
  lemma AddrTurn(w: World, limit: nat, s: Config, n: nat, a: Reg, b: Reg, c: Reg)
    requires Runs(w, limit, s, Addr(a, b, c), n)
    ensures var p, ptr, scheme, to := w.prims, s.c.m.regs[a], s.c.m.regs[b], s.c.m.regs[c];
            if scheme != 1 && scheme != 2 then Next(w, limit, s) == Crash(BadScheme)
            else
              var len := if scheme == 1 then p.mlKeyBytes else p.slhKeyBytes;
              if !InMemory(ptr, len) || !InMemory(to, 32) then Next(w, limit, s) == Crash(BadMemory)
              else
                Next(w, limit, s) ==
                Goes(s, Addr(a, b, c), WithBytes(After(s, n), to, p.sha3([scheme] + BytesAt(s.c.m, ptr, len))))
  {
    hide DecodeAt, Starts, Next, Region, WriteAt, CostOf;
    var p, ptr, scheme, to := w.prims, s.c.m.regs[a], s.c.m.regs[b], s.c.m.regs[c];
    CryptoTurn(w, limit, s, Addr(a, b, c), n);
    if scheme == 1 || scheme == 2 {
      var len := if scheme == 1 then p.mlKeyBytes else p.slhKeyBytes;
      RegionIs(s.c.m, ptr, len);
      if InMemory(ptr, len) {
        WriteIs(After(s, n), to, p.sha3([scheme] + BytesAt(s.c.m, ptr, len)));
      }
    }
  }
}
