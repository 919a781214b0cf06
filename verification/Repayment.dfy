/** Two calls for which the leaf price is not one per created row: one pays twice for a row, dirtied
    late, as zero, and then created; one creates a row and pays nothing. */
module Repayment {
  import opened Bytes
  import opened Isa
  import opened Sweep
  import opened Meter
  import opened Machines
  import opened Crypto
  import opened Semantics
  import opened Metering
  import opened Confinement
  import opened Containers
  import opened Deploy
  import opened Calls

  const ROWS := 9
  const SLOTS: seq<u64> := [0, 1, 2, 3, 4, 5, 6, 7, 8]

  /** What is left of the program after `n` rows: it stores zero in each of nine rows, then one in the
      last of them. */
  function Rest(n: nat): seq<Instr>
    decreases ROWS - n
  {
    if n >= ROWS then [Ldi(2, 1), SStore(1, 2), Halt]
    else [Ldi(1, KEY_BYTES * n), SStore(1, 0)] + Rest(n + 1)
  }

  function Done(n: nat): seq<Instr>
    requires n <= ROWS
  {
    if n == 0 then [] else Done(n - 1) + [Ldi(1, KEY_BYTES * (n - 1)), SStore(1, 0)]
  }

  /** The keys of the first `n` slots, one after another. */
  function SlotData(n: nat): (r: seq<byte>)
    requires n <= ROWS
    ensures |r| == KEY_BYTES * n
  {
    if n == 0 then [] else SlotData(n - 1) + ScalarKey(n - 1)
  }

  function FirstRows(n: nat): set<Key>
    requires n <= ROWS
  {
    if n == 0 then {} else FirstRows(n - 1) + {ScalarKey(n - 1)}
  }

  /** A call of an entry at offset 0 that declares the nine slots, with their keys for call data. */
  function CallOf(p: Prims, selector: Selector, program: seq<Instr>): Request {
    Request(p, Container(EncodeAll(program), [], [Entry(selector, 0, StateAccess([], SLOTS, [], []))]),
            ToEntry(selector), map[], None, SlotData(ROWS))
  }

  // ---- The code ----

  lemma RestStep(n: nat)
    requires n < ROWS
    ensures Rest(n) == [Ldi(1, KEY_BYTES * n), SStore(1, 0)] + Rest(n + 1)
    ensures Done(n + 1) == Done(n) + [Ldi(1, KEY_BYTES * n), SStore(1, 0)]
  {
  }

  lemma {:induction false} DoneThenRest(n: nat)
    requires n <= ROWS
    ensures Done(n) + Rest(n) == Rest(0)
  {
    hide Done, Rest;
    if n == 0 {
      assert Done(n) == [] by { DoneNothing(); }
      assert [] + Rest(n) == Rest(n);
    } else {
      DoneThenRest(n - 1);
      RestStep(n - 1);
      var two := [Ldi(1, KEY_BYTES * (n - 1)), SStore(1, 0)];
      assert (Done(n - 1) + two) + Rest(n) == Done(n - 1) + (two + Rest(n));
    }
  }

  lemma DoneNothing()
    ensures Done(0) == []
  {
  }

  lemma {:induction false} RestSize(n: nat)
    requires n <= ROWS
    ensures 0 < |EncodeAll(Rest(n))| <= 200 + 13 * (ROWS - n)
    decreases ROWS - n
  {
    hide Encode, EncodeAll, Rest;
    Sizes();
    if n < ROWS {
      RestSize(n + 1);
      RestStep(n);
      var more := [SStore(1, 0)] + Rest(n + 1);
      assert Rest(n) == [Ldi(1, KEY_BYTES * n)] + more;
      EncodeAllPrepend(Ldi(1, KEY_BYTES * n), more);
      EncodeAllPrepend(SStore(1, 0), Rest(n + 1));
    } else {
      RestEnds(n);
      EncodeAllPrepend(Ldi(2, 1), [SStore(1, 2)] + ([Halt] + []));
      EncodeAllPrepend(SStore(1, 2), [Halt] + []);
      EncodeAllPrepend(Halt, []);
      EncodeNothing();
    }
  }

  lemma RestEnds(n: nat)
    requires n == ROWS
    ensures Rest(n) == [Ldi(2, 1)] + ([SStore(1, 2)] + ([Halt] + []))
  {
  }

  lemma Sizes()
    ensures forall d, imm :: |Encode(Ldi(d, imm))| == 10
    ensures forall a, b :: |Encode(SStore(a, b))| == 3
    ensures |Encode(Halt)| == 1
  {
    hide ToBE;
    WordSizes();
  }

  // ---- The rows ----

  lemma {:induction false} RowAt(n: nat, j: nat)
    requires j < n <= ROWS
    ensures SlotData(n)[KEY_BYTES * j..KEY_BYTES * (j + 1)] == ScalarKey(j)
    decreases n
  {
    hide ScalarKey;
    if j < n - 1 {
      RowAt(n - 1, j);
      assert SlotData(n)[..KEY_BYTES * (n - 1)] == SlotData(n - 1);
      assert SlotData(n)[KEY_BYTES * j..KEY_BYTES * (j + 1)] == SlotData(n - 1)[KEY_BYTES * j..KEY_BYTES * (j + 1)];
    }
  }

  lemma {:induction false} NewRow(n: nat, m: nat)
    requires n <= m < ROWS
    ensures ScalarKey(m) !in FirstRows(n)
  {
    hide ScalarKey;
    if n > 0 {
      NewRow(n - 1, m);
      if ScalarKey(n - 1) == ScalarKey(m) {
        ScalarKeyInjective(n - 1, m);
        assert false;
      }
    }
  }

  lemma {:induction false} RowsCount(n: nat)
    requires n <= ROWS
    ensures |FirstRows(n)| == n
  {
    hide ScalarKey;
    if n > 0 {
      RowsCount(n - 1);
      NewRow(n - 1, n - 1);
    }
  }

  lemma RowsStep(n: nat)
    requires n < ROWS
    ensures FirstRows(n + 1) == FirstRows(n) + {ScalarKey(n)}
  {
    hide ScalarKey;
  }

  // ---- The run ----

  lemma LoadStep(w: World, limit: nat, s: Config, d: Reg, imm: u64, n: nat)
    requires Fetched(w, s.c) == Ok((Ldi(d, imm), n)) && s.used + 1 <= limit && s.c.m.pc + n < TWO32
    ensures Next(w, limit, s) ==
            More(s.(c := s.c.(m := SetReg(s.c.m.(pc := s.c.m.pc + n), d, imm)), used := s.used + 1))
  {
    hide DecodeAt, Starts;
  }

  /** A store that the meter covers, with no loader attached. */
  lemma StoreStep(w: World, limit: nat, s: Config, a: Reg, b: Reg, n: nat, k: Key)
    requires Fetched(w, s.c) == Ok((SStore(a, b), n)) && s.c.m.pc + n < TWO32
    requires KeyAt(s.c.m, a) == Some(k) && MayWrite(w, s.c, k)
    requires w.loader.None? && s.loaded == map[]
    requires s.used + 300_000 <= limit
    ensures Next(w, limit, s).More? && Wants(w, s.c) == Some(k)
    ensures Seen(w, s) == if k in s.storage then s.storage[k] else 0
    ensures var s' := Next(w, limit, s).s;
            && s'.c == s.c.(m := s.c.m.(pc := s.c.m.pc + n), dirty := s.c.dirty + {k},
                            charged := if PaysFresh(s.c, k, s.c.m.regs[b], Seen(w, s)) then s.c.charged + {k}
                                       else s.c.charged)
            && s'.storage == s.storage[k := s.c.m.regs[b]] && s'.loaded == map[]
            && s'.used <= s.used + 300_000
  {
    hide DecodeAt, Starts, Region;
    var c1 := Advance(s.c, s.c.m.pc + n);
    assert KeyAt(c1.m, a) == Some(k);
    PaysLeafIgnoresMachine(s.c, c1.m);
    PaysFreshIgnoresMachine(s.c, c1.m);
  }

  ghost predicate Stage(w: World, program: seq<Instr>) {
    && w.code == EncodeAll(program) && w.loader.None?
    && w.manifest == Some(ManifestOf(StateAccess([], SLOTS, [], [])))
  }

  /** The first `n` rows have been written as zero. */
  ghost predicate Zeroed(s: Config, n: nat)
    requires n <= ROWS
  {
    && s.c.m.pc == |EncodeAll(Done(n))|
    && s.c.m.mem[..KEY_BYTES * ROWS] == SlotData(ROWS)
    && s.c.m.regs[0] == 0
    && (n > 0 ==> s.c.m.regs[1] == KEY_BYTES * (n - 1))
    && s.c.dirty == FirstRows(n) && s.c.charged == {}
    && (forall k | k in s.storage :: s.storage[k] == 0) && s.loaded == map[]
  }

  lemma KeyOfRow(m: Mach, a: Reg, j: nat)
    requires j < ROWS && m.mem[..KEY_BYTES * ROWS] == SlotData(ROWS) && m.regs[a] == KEY_BYTES * j
    ensures KeyAt(m, a) == Some(ScalarKey(j))
  {
    hide ScalarKey, SlotData;
    RowAt(ROWS, j);
    SliceOfPrefix(m.mem, KEY_BYTES * ROWS, KEY_BYTES * j, KEY_BYTES * (j + 1));
  }

  lemma SliceOfPrefix(s: seq<byte>, n: nat, lo: nat, hi: nat)
    requires lo <= hi <= n <= |s|
    ensures s[..n][lo..hi] == s[lo..hi]
  {
  }

  lemma Declared(w: World, program: seq<Instr>, c: Ctl, j: nat)
    requires Stage(w, program) && j < ROWS
    ensures MayWrite(w, c, ScalarKey(j))
  {
    hide ScalarKey, EncodeAll;
    assert SLOTS[j] == j;
    assert ScalarKey(SLOTS[j]) in SlotKeys(SLOTS);
  }

  /** One more row is written as zero, late when it is the ninth. */
  lemma ZeroOne(w: World, limit: nat, t: seq<Config>, n: nat) returns (t': seq<Config>)
    requires Stage(w, Rest(0)) && n < ROWS && IsRun(w, limit, t) && Zeroed(Last(t), n)
    requires Last(t).used + 400_000 <= limit
    ensures IsRun(w, limit, t') && t'[0] == t[0] && Zeroed(Last(t'), n + 1)
    ensures Last(t').used <= Last(t).used + 400_000
    ensures n == 8 ==> ScalarKey(n) in LateRows(w, t')
  {
    hide Next, DecodeAt, EncodeAll, Encode, ScalarKey, MayWrite, SlotData, Stage, Wants, KeyAt, Done, Rest,
      FirstRows, RowLeaves, StepLate, PaysFresh;
    var s, before := Last(t), Done(n);
    var load, store := Ldi(1, KEY_BYTES * n), SStore(1, 0);
    CodeAt(w, n);
    LoadStep(w, limit, s, 1, KEY_BYTES * n, |Encode(load)|);
    var s1 := Next(w, limit, s).s;
    KeyOfRow(s1.c.m, 1, n);
    Declared(w, Rest(0), s1.c, n);
    NewRow(n, n);
    RowsStep(n);
    RowsCount(n);
    StoreStep(w, limit, s1, 1, 0, |Encode(store)|, ScalarKey(n));
    ZeroCreatesNothing(s1.c, ScalarKey(n), Seen(w, s1));
    var s2 := Next(w, limit, s1).s;
    ExtendRun(w, limit, t, s1);
    ExtendRun(w, limit, t + [s1], s2);
    t' := t + [s1] + [s2];
    assert t'[..|t'| - 1] == t + [s1];
    if n == 8 {
      LateWhenNinth(w, s1, ScalarKey(n), |Encode(store)|);
    }
  }

  lemma ZeroCreatesNothing(c: Ctl, k: Key, v: u64)
    ensures !PaysFresh(c, k, 0, v)
  {
  }

  lemma LateWhenNinth(w: World, s: Config, k: Key, n: nat)
    requires Fetched(w, s.c) == Ok((SStore(1, 0), n)) && Wants(w, s.c) == Some(k)
    requires k !in s.c.dirty && |s.c.dirty| >= FREE_DIRTY_SLOTS && s.c.m.regs[0] == 0
    ensures k in StepLate(w, s)
  {
    hide DecodeAt, Wants;
  }

  /** The two instructions for row `n`, where they stand. */
  lemma CodeAt(w: World, n: nat)
    requires Stage(w, Rest(0)) && n < ROWS
    ensures var load, store := Ldi(1, KEY_BYTES * n), SStore(1, 0);
            var pc := |EncodeAll(Done(n))|;
            && DecodeAt(w.code, pc) == Ok((load, |Encode(load)|))
            && DecodeAt(w.code, pc + |Encode(load)|) == Ok((store, |Encode(store)|))
            && |EncodeAll(Done(n + 1))| == pc + |Encode(load)| + |Encode(store)| < TWO32
    ensures w.loader.None?
  {
    hide DecodeAt, EncodeAll, Encode, Done, Rest;
    var before, after := Done(n), Rest(n + 1);
    var load, store := Ldi(1, KEY_BYTES * n), SStore(1, 0);
    DoneThenRest(n);
    RestStep(n);
    RestSize(0);
    assert Rest(0) == before + [load] + ([store] + after);
    assert Rest(0) == (before + [load]) + [store] + after;
    assert Done(n + 1) == before + [load] + [store];
    FetchAfter(w.code, before, load, [store] + after);
    FetchAfter(w.code, before + [load], store, after);
  }

  lemma {:induction false} ZeroAll(w: World, limit: nat, s: Config, n: nat) returns (t: seq<Config>)
    requires Stage(w, Rest(0)) && n <= ROWS && Zeroed(s, 0) && s.used + 400_000 * ROWS <= limit
    ensures IsRun(w, limit, t) && t[0] == s && Zeroed(Last(t), n)
    ensures Last(t).used <= s.used + 400_000 * n
    ensures n == ROWS ==> ScalarKey(8) in LateRows(w, t)
    decreases n
  {
    hide Next, Stage, LateRows, ScalarKey, Zeroed;
    if n == 0 {
      return [s];
    }
    t := ZeroAll(w, limit, s, n - 1);
    t := ZeroOne(w, limit, t, n - 1);
  }

  /** The last three instructions, where they stand. */
  lemma CodeEnds(w: World)
    requires Stage(w, Rest(0))
    ensures var load, store, pc := Ldi(2, 1), SStore(1, 2), |EncodeAll(Done(ROWS))|;
            && DecodeAt(w.code, pc) == Ok((load, |Encode(load)|))
            && DecodeAt(w.code, pc + |Encode(load)|) == Ok((store, |Encode(store)|))
            && DecodeAt(w.code, pc + |Encode(load)| + |Encode(store)|) == Ok((Halt, |Encode(Halt)|))
            && pc + |Encode(load)| + |Encode(store)| + |Encode(Halt)| < TWO32
    ensures w.loader.None?
  {
    hide DecodeAt, EncodeAll, Encode, Done, Rest;
    var n := ROWS;
    var before, load, store := Done(n), Ldi(2, 1), SStore(1, 2);
    DoneThenRest(n);
    RestEnds(n);
    RestSize(0);
    assert Rest(0) == before + [load] + ([store] + ([Halt] + []));
    assert Rest(0) == (before + [load]) + [store] + ([Halt] + []);
    assert Rest(0) == ((before + [load]) + [store]) + [Halt] + [];
    FetchAfter(w.code, before, load, [store] + ([Halt] + []));
    FetchAfter(w.code, before + [load], store, [Halt] + []);
    FetchAfter(w.code, (before + [load]) + [store], Halt, []);
  }

  lemma HaltStep(w: World, limit: nat, s: Config, n: nat)
    requires Fetched(w, s.c) == Ok((Halt, n)) && s.used <= limit && s.c.m.pc + n < TWO32
    ensures Next(w, limit, s).Done?
  {
    hide DecodeAt, Starts;
  }

  lemma OneCreates(c: Ctl, k: Key)
    requires c.charged == {} && |c.dirty| >= FREE_DIRTY_SLOTS
    ensures PaysFresh(c, k, 1, 0)
  {
  }

  /** The ninth row, late already, is created: it has now paid twice. */
  lemma CreateLast(w: World, limit: nat, t: seq<Config>) returns (t': seq<Config>)
    requires Stage(w, Rest(0)) && IsRun(w, limit, t) && Zeroed(Last(t), ROWS) && Last(t).used + 400_000 <= limit
    requires ScalarKey(8) in LateRows(w, t)
    ensures IsRun(w, limit, t') && t'[0] == t[0] && Next(w, limit, Last(t')).Done?
    ensures ScalarKey(8) in LateRows(w, t') && ScalarKey(8) in Last(t').c.charged
  {
    hide Next, DecodeAt, EncodeAll, Encode, ScalarKey, MayWrite, SlotData, Stage, Wants, KeyAt, Done, Rest,
      FirstRows, RowLeaves, StepLate, PaysFresh;
    var s, n := Last(t), ROWS;
    var load, store := Ldi(2, 1), SStore(1, 2);
    CodeEnds(w);
    LoadStep(w, limit, s, 2, 1, |Encode(load)|);
    var s1 := Next(w, limit, s).s;
    KeyOfRow(s1.c.m, 1, n - 1);
    Declared(w, Rest(0), s1.c, n - 1);
    RowsCount(n);
    StoreStep(w, limit, s1, 1, 2, |Encode(store)|, ScalarKey(n - 1));
    OneCreates(s1.c, ScalarKey(n - 1));
    var s2 := Next(w, limit, s1).s;
    HaltStep(w, limit, s2, |Encode(Halt)|);
    ExtendRun(w, limit, t, s1);
    ExtendRun(w, limit, t + [s1], s2);
    t' := t + [s1] + [s2];
    assert t'[..|t'| - 1] == t + [s1] && (t + [s1])[..|t|] == t;
  }

  lemma Opens(p: Prims, selector: Selector, program: seq<Instr>, limit: u64)
    requires selector != SelectorOf(p, GENESIS_SIGNATURE) && limit >= 5_000_000
    requires |EncodeAll(program)| <= 1000 && 0 in Boundaries(EncodeAll(program))
    ensures var q := CallOf(p, selector, program);
            && Open(q, limit).Ok?
            && var o := Open(q, limit).value;
               o.offset == 0 && o.used <= 10_000 && Stage(CallWorld(q, o), program)
  {
    hide EncodeAll, SlotData, ManifestOf, SelectorOf, Starts, Matching;
    MatchesOne(CallOf(p, selector, program).container.entries[0]);
  }

  lemma MatchesOne(e: Entry)
    ensures Matching([e], e.selector) == [e]
  {
    assert Matching([e][1..], e.selector) == [];
  }

  lemma StartsZeroed(q: Request, o: Opened)
    requires q.data == SlotData(ROWS) && q.storage == map[] && o.offset == 0
    ensures Zeroed(CallStart(q, o), 0)
  {
    hide SlotData;
    DoneNothing();
    EncodeNothing();
    assert |SlotData(ROWS)| < MEM_BYTES;
  }

  lemma StartOf(p: Prims, selector: Selector, program: seq<Instr>, o: Opened)
    requires o.offset == 0
    ensures var s := CallStart(CallOf(p, selector, program), o);
            Zeroed(s, 0) && s.used == o.used && s.c == FreshCtl(s.c.m)
  {
    hide Zeroed, SlotData, EncodeAll;
    StartsZeroed(CallOf(p, selector, program), o);
  }

  lemma StartsSwept(program: seq<Instr>, i: Instr, after: seq<Instr>)
    requires program == [i] + after && |Encode(i)| > 0
    ensures 0 in Boundaries(EncodeAll(program))
  {
    hide EncodeAll, DecodeAt, Encode;
    assert program == [] + [i] + after;
    FetchAfter(EncodeAll(program), [], i, after);
    EncodeNothing();
  }

  /** One row pays twice: under any primitives and any selector but genesis, this call halts having
      paid the leaf price twice for its ninth slot. */
  lemma PaysTwice(p: Prims, selector: Selector, limit: u64)
    requires selector != SelectorOf(p, GENESIS_SIGNATURE) && limit >= 5_000_000
    ensures var q := CallOf(p, selector, Rest(0));
            && RunCall(q, limit).Halts?
            && Open(q, limit).Ok?
            && var o := Open(q, limit).value;
               RowLeaves(CallWorld(q, o), Trace(CallWorld(q, o), limit, CallStart(q, o)), ScalarKey(8)) == 2
  {
    hide CallOf, Open, CallWorld, CallStart, Next, Stage, Zeroed, ScalarKey, RowLeaves, LateRows, Trace, Rest,
      EncodeAll, Encode, Starts;
    var q := CallOf(p, selector, Rest(0));
    Sizes();
    RestSize(0);
    RestStep(0);
    assert Rest(0) == [Ldi(1, KEY_BYTES * 0)] + ([SStore(1, 0)] + Rest(1));
    StartsSwept(Rest(0), Ldi(1, KEY_BYTES * 0), [SStore(1, 0)] + Rest(1));
    Opens(p, selector, Rest(0), limit);
    var o := Open(q, limit).value;
    var w, s := CallWorld(q, o), CallStart(q, o);
    StartOf(p, selector, Rest(0), o);
    var t := ZeroAll(w, limit, s, ROWS);
    t := CreateLast(w, limit, t);
    RunIsTracePrefix(w, limit, t);
    TraceEndsHere(w, limit, t);
    LeavesPerRow(w, limit, t, ScalarKey(8));
  }

  // ---- A row created for nothing ----

  const CREATING: seq<Instr> := [Ldi(2, 1), SStore(1, 2), Halt]

  lemma CreatingCode(code: seq<byte>)
    requires code == EncodeAll(CREATING)
    ensures DecodeAt(code, 0) == Ok((Ldi(2, 1), 10)) && DecodeAt(code, 10) == Ok((SStore(1, 2), 3))
    ensures DecodeAt(code, 13) == Ok((Halt, 1)) && |code| <= 1000 && 0 in Boundaries(code)
  {
    hide DecodeAt, EncodeAll, Encode, Starts;
    Sizes();
    EncodeNothing();
    var load, store := Ldi(2, 1), SStore(1, 2);
    assert CREATING == [] + [load] + [store, Halt];
    assert CREATING == ([] + [load]) + [store] + [Halt];
    assert CREATING == ([] + [load] + [store]) + [Halt] + [];
    FetchAfter(code, [], load, [store, Halt]);
    FetchAfter(code, [] + [load], store, [Halt]);
    FetchAfter(code, [] + [load] + [store], Halt, []);
    assert CREATING == [load] + [store, Halt];
    StartsSwept(CREATING, load, [store, Halt]);
  }

  lemma FreeTurn(w: World, s: Config, k: Key, n: nat)
    requires Fetched(w, s.c) == Ok((SStore(1, 2), n)) && Wants(w, s.c) == Some(k)
    requires s.c.m.regs[2] == 1 && Seen(w, s) == 0 && s.c.dirty == {} && s.c.charged == {} && s.c.authW == {}
    ensures k in StepTurns(w, s) && !PaysFresh(s.c, k, 1, 0)
  {
    hide DecodeAt, Wants;
  }

  /** The run: one row is created, and neither charged nor late. */
  lemma CreateFree(w: World, limit: nat, s: Config) returns (t: seq<Config>)
    requires Stage(w, CREATING) && Zeroed(s, 0) && s.used + 400_000 <= limit
    requires s.c == FreshCtl(s.c.m) && s.c.m.regs[1] == 0 && s.storage == map[]
    ensures IsRun(w, limit, t) && t[0] == s && Next(w, limit, Last(t)).Done?
    ensures ScalarKey(0) in Turned(w, t) && Last(t).c.charged == {} && |Last(t).c.dirty| <= 1
  {
    hide Next, DecodeAt, EncodeAll, Encode, ScalarKey, MayWrite, SlotData, Wants, KeyAt, Done, RowLeaves,
      StepTurns, PaysFresh, ManifestOf, Starts;
    CreatingCode(w.code);
    DoneNothing();
    EncodeNothing();
    LoadStep(w, limit, s, 2, 1, 10);
    var s1 := Next(w, limit, s).s;
    KeyOfRow(s1.c.m, 1, 0);
    Declared(w, CREATING, s1.c, 0);
    StoreStep(w, limit, s1, 1, 2, 3, ScalarKey(0));
    FreeTurn(w, s1, ScalarKey(0), 3);
    var s2 := Next(w, limit, s1).s;
    HaltStep(w, limit, s2, 1);
    ExtendRun(w, limit, [s], s1);
    ExtendRun(w, limit, [s] + [s1], s2);
    t := [s] + [s1] + [s2];
    assert t[..|t| - 1] == [s] + [s1];
  }

  /** A created row can pay nothing: under any primitives and any selector but genesis, this call
      stores one over zero in its first slot and halts without paying the leaf price for it. */
  lemma PaysNothing(p: Prims, selector: Selector, limit: u64)
    requires selector != SelectorOf(p, GENESIS_SIGNATURE) && limit >= 5_000_000
    ensures var q := CallOf(p, selector, CREATING);
            && RunCall(q, limit).Halts?
            && Open(q, limit).Ok?
            && var o := Open(q, limit).value;
               var w := CallWorld(q, o);
               var t := Trace(w, limit, CallStart(q, o));
               ScalarKey(0) in Turned(w, t) && RowLeaves(w, t, ScalarKey(0)) == 0 && LateRows(w, t) == {}
  {
    hide CallOf, Open, CallWorld, CallStart, Next, Stage, Zeroed, ScalarKey, RowLeaves, LateRows, Turned, Trace,
      EncodeAll, Encode, Starts;
    var q := CallOf(p, selector, CREATING);
    CreatingCode(EncodeAll(CREATING));
    Opens(p, selector, CREATING, limit);
    var o := Open(q, limit).value;
    var w, s := CallWorld(q, o), CallStart(q, o);
    StartOf(p, selector, CREATING, o);
    StartsClear(p, selector, CREATING, o);
    var t := CreateFree(w, limit, s);
    RunIsTracePrefix(w, limit, t);
    TraceEndsHere(w, limit, t);
    LateRowsComeLate(w, limit, t);
    LeavesPerRow(w, limit, t, ScalarKey(0));
  }

  lemma StartsClear(p: Prims, selector: Selector, program: seq<Instr>, o: Opened)
    ensures var s := CallStart(CallOf(p, selector, program), o);
            s.c.m.regs[1] == 0 && s.storage == map[]
  {
    hide SlotData, EncodeAll;
  }
}
