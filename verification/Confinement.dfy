/** Where a run may write, and what the rows it creates cost. */
module Confinement {
  import opened Bytes
  import opened Isa
  import opened Meter
  import opened Machines
  import opened Local
  import opened Semantics
  import opened Metering
  import opened Storage

  // ---- Which preimages a run hashes ----

  /** The preimage the instruction at `c` hashes into memory. */
  function StepHashes(w: World, c: Ctl): set<seq<byte>> {
    match Fetched(w, c)
    case Err(_) => {}
    case Ok((i, _)) =>
      if i.Hash? && Region(c.m.mem, c.m.regs[i.a], c.m.regs[i.b]).Some? then
        {Region(c.m.mem, c.m.regs[i.a], c.m.regs[i.b]).value}
      else {}
  }

  function RunHashes(w: World, t: seq<Config>): set<seq<byte>>
    requires t != []
  {
    if |t| == 1 then {}
    else
      var before := t[..|t| - 1];
      RunHashes(w, before) + StepHashes(w, Last(before).c)
  }

  /** A preimage of at least eight bytes whose first eight are one of the bases, big-endian. */
  ghost predicate HeadedBy(p: seq<byte>, bases: set<u64>) {
    |p| >= 8 && exists b :: b in bases && p[..8] == ToBE(b, 8)
  }

  /** `k` is the digest of some preimage among `hashed` headed by a declared keyed-write base. */
  ghost predicate WriteDigest(w: World, hashed: set<seq<byte>>, k: Key) {
    w.manifest.Some? &&
    exists p :: p in hashed && HeadedBy(p, w.manifest.value.keyedWrites) && w.prims.sha3(p) == k
  }

  /** The same for a base declared for reading or writing. */
  ghost predicate ReadDigest(w: World, hashed: set<seq<byte>>, k: Key) {
    w.manifest.Some? &&
    exists p :: p in hashed && HeadedBy(p, w.manifest.value.keyedReads + w.manifest.value.keyedWrites)
                && w.prims.sha3(p) == k
  }

  lemma BaseIsHead(p: seq<byte>, bases: set<u64>)
    ensures BaseOf(p).Some? && BaseOf(p).value in bases <==> HeadedBy(p, bases)
  {
    hide ToBE, FromBE;
    if |p| >= 8 {
      WordSizes();
      ToFromBE(p[..8]);
      forall b: u64 | p[..8] == ToBE(b, 8) ensures BaseOf(p) == Some(b) {
        FromToBE(b, 8);
      }
    }
  }

  lemma BasesAreHeads(w: World, p: seq<byte>)
    ensures WriteBase(w, BaseOf(p)) <==> w.manifest.Some? && HeadedBy(p, w.manifest.value.keyedWrites)
    ensures ReadBase(w, BaseOf(p)) <==>
            w.manifest.Some? && HeadedBy(p, w.manifest.value.keyedReads + w.manifest.value.keyedWrites)
  {
    hide BaseOf, HeadedBy;
    if w.manifest.Some? {
      BaseIsHead(p, w.manifest.value.keyedWrites);
      BaseIsHead(p, w.manifest.value.keyedReads + w.manifest.value.keyedWrites);
    }
  }

  /** A preimage has one head. */
  lemma OneHead(p: seq<byte>, bases: set<u64>, others: set<u64>)
    requires HeadedBy(p, bases) && HeadedBy(p, others)
    ensures bases * others != {}
  {
    hide ToBE, FromBE;
    WordSizes();
    var b :| b in bases && p[..8] == ToBE(b, 8);
    var c :| c in others && p[..8] == ToBE(c, 8);
    FromToBE(b, 8);
    FromToBE(c, 8);
    assert b in bases * others;
  }

  /** The run-time authorisations are exactly what the run hashed under a declared base. */
  ghost predicate Authorised(w: World, c: Ctl, hashed: set<seq<byte>>) {
    && (forall k: Key :: k in c.authW <==> WriteDigest(w, hashed, k))
    && (forall k: Key :: k in c.authR <==> ReadDigest(w, hashed, k))
  }

  lemma DigestsAdd(w: World, hashed: set<seq<byte>>, more: set<seq<byte>>, k: Key)
    ensures WriteDigest(w, hashed + more, k) <==> WriteDigest(w, hashed, k) || WriteDigest(w, more, k)
    ensures ReadDigest(w, hashed + more, k) <==> ReadDigest(w, hashed, k) || ReadDigest(w, more, k)
  {
    hide HeadedBy;
  }

  lemma MoreHashes(w: World, hashed: set<seq<byte>>, more: set<seq<byte>>, k: Key)
    requires hashed <= more
    ensures WriteDigest(w, hashed, k) ==> WriteDigest(w, more, k)
    ensures ReadDigest(w, hashed, k) ==> ReadDigest(w, more, k)
  {
    hide HeadedBy;
  }

  lemma DigestOfOne(w: World, p: seq<byte>, k: Key)
    ensures WriteDigest(w, {p}, k) <==> WriteBase(w, BaseOf(p)) && w.prims.sha3(p) == k
    ensures ReadDigest(w, {p}, k) <==> ReadBase(w, BaseOf(p)) && w.prims.sha3(p) == k
  {
    hide HeadedBy, BaseOf, WriteBase, ReadBase;
    BasesAreHeads(w, p);
  }

  lemma DigestOfNone(w: World)
    ensures forall k: Key :: !WriteDigest(w, {}, k) && !ReadDigest(w, {}, k)
  {
  }

  /** Only `Hash` authorises, and exactly the digest of the preimage it read before overwriting. */
  lemma AuthoritiesGrow(w: World, c: Ctl, c1: Ctl, v: u64)
    requires Fetched(w, c).Ok? && c1 == c.(m := c.m.(pc := c1.m.pc))
    requires Trans(w, c1, Fetched(w, c).value.0, v).Go?
    ensures var r := Trans(w, c1, Fetched(w, c).value.0, v).c;
            && (forall k: Key :: k in r.authW <==> k in c.authW || WriteDigest(w, StepHashes(w, c), k))
            && (forall k: Key :: k in r.authR <==> k in c.authR || ReadDigest(w, StepHashes(w, c), k))
  {
    hide DecodeAt, HashVariable, MintTarget, TargetPrice, PaysLeaf, BaseOf, WriteBase,
      MayRead, MayWrite, StepLocal, WriteAt, KeyAt, WriteDigest, ReadDigest;
    var i := Fetched(w, c).value.0;
    DigestOfNone(w);
    if !i.Hash? {
      assert StepHashes(w, c) == {};
    } else {
      var p := Region(c.m.mem, c.m.regs[i.a], c.m.regs[i.b]).value;
      assert StepHashes(w, c) == {p};
      forall k: Key
        ensures WriteDigest(w, {p}, k) <==> WriteBase(w, BaseOf(p)) && w.prims.sha3(p) == k
        ensures ReadDigest(w, {p}, k) <==> ReadBase(w, BaseOf(p)) && w.prims.sha3(p) == k
      {
        DigestOfOne(w, p, k);
      }
    }
  }

  lemma StepAuthorised(w: World, limit: nat, s: Config, hashed: set<seq<byte>>)
    requires Authorised(w, s.c, hashed) && Next(w, limit, s).More?
    ensures Authorised(w, Next(w, limit, s).s.c, hashed + StepHashes(w, s.c))
    ensures s.c.authW <= Next(w, limit, s).s.c.authW
  {
    hide Next, Trans, DecodeAt, CostOf, Wants, WriteDigest, ReadDigest, StepHashes;
    var i, c1 := NextParts(w, limit, s);
    AuthoritiesGrow(w, s.c, c1, Seen(w, s));
    var c', all := Next(w, limit, s).s.c, hashed + StepHashes(w, s.c);
    forall k: Key
      ensures k in c'.authW <==> WriteDigest(w, all, k)
      ensures k in c'.authR <==> ReadDigest(w, all, k)
    {
      DigestsAdd(w, hashed, StepHashes(w, s.c), k);
    }
  }

  lemma NothingAuthorised(w: World, c: Ctl)
    requires c.authW == {} && c.authR == {}
    ensures Authorised(w, c, {})
  {
    DigestOfNone(w);
  }

  /** At every state of a run a key is authorised for writing, or for reading, exactly when the run has
      hashed a preimage headed by a base declared for it whose digest is the key. */
  lemma {:induction false} RunAuthorised(w: World, limit: nat, t: seq<Config>)
    requires IsRun(w, limit, t) && t[0].c.authW == {} && t[0].c.authR == {}
    ensures Authorised(w, Last(t).c, RunHashes(w, t))
    decreases |t|
  {
    hide Next, Authorised, StepHashes;
    if |t| > 1 {
      var before := t[..|t| - 1];
      RunAuthorised(w, limit, before);
      assert Next(w, limit, t[|t| - 2]) == More(t[|t| - 1]);
      StepAuthorised(w, limit, Last(before), RunHashes(w, before));
    } else {
      NothingAuthorised(w, t[0].c);
    }
  }

  /** Every dirty row was written with permission. */
  lemma {:induction false} DirtyIsPermitted(w: World, limit: nat, t: seq<Config>)
    requires IsRun(w, limit, t) && t[0].c.dirty == {} && w.manifest.Some?
    ensures Last(t).c.dirty <= w.manifest.value.scalarWrites + Last(t).c.authW
    decreases |t|
  {
    hide Next;
    if |t| > 1 {
      var before := t[..|t| - 1];
      DirtyIsPermitted(w, limit, before);
      assert Next(w, limit, t[|t| - 2]) == More(t[|t| - 1]);
      StepPermitted(w, limit, Last(before));
    }
  }

  lemma StepPermitted(w: World, limit: nat, s: Config)
    requires Next(w, limit, s).More? && w.manifest.Some?
    ensures var s' := Next(w, limit, s).s;
            && s.c.authW <= s'.c.authW
            && s'.c.dirty <= s.c.dirty + w.manifest.value.scalarWrites + s.c.authW
  {
    hide Next, Trans, DecodeAt, CostOf, Wants, StepHashes;
    var i, c1 := NextParts(w, limit, s);
    AuthoritiesGrow(w, s.c, c1, Seen(w, s));
    WritesAreWanted(w, s.c, c1, Seen(w, s));
  }

  /** Write confinement: in every state an entry run reaches, a row whose value has changed is a
      declared scalar write, or the digest of a preimage the run hashed, of at least eight bytes,
      headed by a declared keyed-write base. */
  lemma WriteConfinement(w: World, limit: nat, t: seq<Config>, k: Key)
    requires IsRun(w, limit, t) && w.manifest.Some? && CacheAgrees(w, t[0])
    requires t[0].c == FreshCtl(t[0].c.m)
    requires View(w, Last(t), k) != View(w, t[0], k)
    ensures k in w.manifest.value.scalarWrites || WriteDigest(w, RunHashes(w, t), k)
  {
    hide Next, RunHashes;
    LazyStorage(w, limit, t);
    DirtyIsPermitted(w, limit, t);
    RunAuthorised(w, limit, t);
  }

  // ---- What creating rows costs ----

  /** The rows that were zero at `s0` and are not at `s`. */
  function Created(w: World, s0: Config, s: Config): set<Key> {
    set k | k in s.c.dirty && View(w, s0, k) == 0 && View(w, s, k) != 0
  }

  /** Rows created for free went in among the first eight dirty rows and are declared scalars. */
  predicate FreeRows(w: World, s0: Config, s: Config, free: set<Key>) {
    && free <= s.c.dirty && |free| <= 8
    && (|s.c.dirty| <= 8 ==> free == s.c.dirty)
    && Created(w, s0, s) <= s.c.charged + free
    && (w.manifest.Some? ==> Created(w, s0, s) <= s.c.charged + w.manifest.value.scalarWrites)
    && s.c.charged <= s.c.dirty
  }

  /** The number of leaf prices paid by stores, between its two bounds. */
  predicate LeavesCounted(c: Ctl, leaves: nat) {
    && Past(|c.dirty|, 8) <= leaves
    && |c.charged| <= leaves <= |c.charged| + Past(|c.dirty|, 8)
  }

  /** The store rule on the counting state alone. */
  lemma StoreCounts(w: World, c: Ctl, a: Reg, b: Reg, v: u64, leaves: nat)
    requires StoreMove(w, c, a, b, v).Go? && c.charged <= c.dirty && LeavesCounted(c, leaves)
    ensures var c', k := StoreMove(w, c, a, b, v).c, KeyAt(c.m, a).value;
            && c'.charged <= c'.dirty
            && LeavesCounted(c', leaves + if PaysLeaf(c, k, c.m.regs[b], v) then 1 else 0)
            && (c.m.regs[b] != 0 && v == 0 ==>
                  k in c'.charged || (k !in c.authW && |c.dirty| < 8))
  {
    hide MayWrite, Region;
    var k := KeyAt(c.m, a).value;
    OneMore(c.dirty, k);
    OneMore(c.charged, k);
  }

  /** Paying a leaf depends only on the counting state. */
  lemma StepCounts(w: World, limit: nat, s: Config, leaves: nat)
    requires Next(w, limit, s).More? && s.c.charged <= s.c.dirty && LeavesCounted(s.c, leaves)
    ensures var s', i := Next(w, limit, s).s, Fetched(w, s.c).value.0;
            && Fetched(w, s.c).Ok?
            && s'.c.charged <= s'.c.dirty
            && s.c.charged <= s'.c.charged
            && LeavesCounted(s'.c, leaves + StepLeaf(w, s))
            && (i.SStore? && Wants(w, s.c).Some? ==> MayWrite(w, s.c, Wants(w, s.c).value))
            && (i.SStore? && Wants(w, s.c).Some? && s.c.m.regs[i.b] != 0 && Seen(w, s) == 0 ==>
                  Wants(w, s.c).value in s'.c.charged ||
                  (Wants(w, s.c).value !in s.c.authW && |s.c.dirty| < 8))
  {
    hide Next, DecodeAt, CostOf, PaysLeaf, LeavesCounted, MayRead, MayWrite, Region, StepLocal,
      SendMove, EmitMove, HashMove;
    var i, c1 := NextParts(w, limit, s);
    WritesAreWanted(w, s.c, c1, Seen(w, s));
    PaysLeafIgnoresMachine(s.c, c1.m);
    if i.SStore? {
      assert KeyAt(s.c.m, i.a) == KeyAt(c1.m, i.a);
      assert LeavesCounted(c1, leaves) by { CountsIgnoreMachine(s.c, c1.m, leaves); }
      StoreCounts(w, c1, i.a, i.b, Seen(w, s), leaves);
    } else {
      CountsIgnoreMore(s.c, Next(w, limit, s).s.c, leaves);
    }
  }

  lemma CountsIgnoreMachine(c: Ctl, m: Mach, leaves: nat)
    ensures LeavesCounted(c.(m := m), leaves) == LeavesCounted(c, leaves)
  {
  }

  lemma CountsIgnoreMore(c: Ctl, c': Ctl, leaves: nat)
    requires c'.dirty == c.dirty && c'.charged == c.charged
    ensures LeavesCounted(c', leaves) == LeavesCounted(c, leaves)
  {
  }

  /** The count of leaf prices along a run. */
  lemma {:induction false} LeavesArePaid(w: World, limit: nat, t: seq<Config>)
    requires IsRun(w, limit, t) && t[0].c.dirty == {} && t[0].c.charged == {}
    ensures Last(t).c.charged <= Last(t).c.dirty && LeavesCounted(Last(t).c, RunLeaves(w, t))
    decreases |t|
  {
    hide Next, StepLeaf;
    if |t| > 1 {
      var before := t[..|t| - 1];
      LeavesArePaid(w, limit, before);
      assert Next(w, limit, t[|t| - 2]) == More(t[|t| - 1]);
      StepCounts(w, limit, Last(before), RunLeaves(w, before));
    }
  }

  lemma StepCreates(w: World, limit: nat, s0: Config, s: Config, free: set<Key>, leaves: nat)
    returns (free': set<Key>)
    requires Next(w, limit, s).More? && CacheAgrees(w, s)
    requires FreeRows(w, s0, s, free) && LeavesCounted(s.c, leaves)
    requires forall k | k !in s.c.dirty :: View(w, s, k) == View(w, s0, k)
    ensures FreeRows(w, s0, Next(w, limit, s).s, free')
    ensures forall k | k !in Next(w, limit, s).s.c.dirty :: View(w, Next(w, limit, s).s, k) == View(w, s0, k)
  {
    hide Next, DecodeAt, View, CacheAgrees, LeavesCounted, StepLeaf, Wants;
    StepView(w, limit, s);
    StepCounts(w, limit, s, leaves);
    var s', i := Next(w, limit, s).s, Fetched(w, s.c).value.0;
    if i.SStore? {
      var k := Wants(w, s.c).value;
      LookupIsView(w, s, k);
      OneMore(s.c.dirty, k);
      free' := if |s'.c.dirty| <= 8 then s'.c.dirty else free;
      forall r | r in Created(w, s0, s') ensures r in s'.c.charged + free' {
        if r != k || View(w, s, k) != 0 {
          assert r in Created(w, s0, s);
        }
      }
      forall r | r in Created(w, s0, s') && w.manifest.Some?
        ensures r in s'.c.charged + w.manifest.value.scalarWrites
      {
        if r != k || View(w, s, k) != 0 {
          assert r in Created(w, s0, s);
        }
      }
      assert FreeRows(w, s0, s', free');
    } else {
      free' := free;
      forall k ensures View(w, s', k) == View(w, s, k) {
        ViewIsStorage(w, s, s', k);
      }
      assert Created(w, s0, s') == Created(w, s0, s);
    }
  }

  lemma ViewIsStorage(w: World, s: Config, s': Config, k: Key)
    requires s'.storage == s.storage
    ensures View(w, s', k) == View(w, s, k)
  {
  }

  lemma {:induction false} CreatedRows(w: World, limit: nat, t: seq<Config>) returns (free: set<Key>)
    requires IsRun(w, limit, t) && CacheAgrees(w, t[0])
    requires t[0].c.dirty == {} && t[0].c.charged == {}
    ensures CacheAgrees(w, Last(t)) && FreeRows(w, t[0], Last(t), free)
    ensures forall k | k !in Last(t).c.dirty :: View(w, Last(t), k) == View(w, t[0], k)
    decreases |t|
  {
    hide Next, View, CacheAgrees, LeavesCounted, RunLeaves;
    if |t| == 1 {
      return {};
    }
    var before := t[..|t| - 1];
    free := CreatedRows(w, limit, before);
    assert Next(w, limit, t[|t| - 2]) == More(t[|t| - 1]);
    LeavesArePaid(w, limit, before);
    StepView(w, limit, Last(before));
    free := StepCreates(w, limit, t[0], Last(before), free, RunLeaves(w, before));
  }

  lemma {:induction false} SubsetSize<T>(a: set<T>, b: set<T>)
    requires a <= b
    ensures |a| <= |b|
    decreases |a|
  {
    if a != {} {
      var x :| x in a;
      SubsetSize(a - {x}, b - {x});
    }
  }

  lemma UnionSize<T>(a: set<T>, b: set<T>)
    ensures |a + b| <= |a| + |b|
  {
    assert a + b == a + (b - a);
    SubsetSize(b - a, b);
  }

  /** All but at most eight of the rows a run leaves created were charged the leaf price, and those are
      declared scalars. */
  lemma CreationIsPaidFor(w: World, limit: nat, t: seq<Config>)
    requires IsRun(w, limit, t) && CacheAgrees(w, t[0])
    requires t[0].c.dirty == {} && t[0].c.charged == {}
    ensures |Created(w, t[0], Last(t))| <= |Last(t).c.charged| + 8
    ensures w.manifest.Some? ==>
              Created(w, t[0], Last(t)) - w.manifest.value.scalarWrites <= Last(t).c.charged
    ensures Last(t).c.charged <= Last(t).c.dirty
    ensures LeavesCounted(Last(t).c, RunLeaves(w, t))
    ensures forall k :: View(w, Last(t), k) != View(w, t[0], k) ==> k in Last(t).c.dirty
  {
    hide View, Next, CacheAgrees;
    var free := CreatedRows(w, limit, t);
    LeavesArePaid(w, limit, t);
    SubsetSize(Created(w, t[0], Last(t)), Last(t).c.charged + free);
    UnionSize(Last(t).c.charged, free);
  }

  // ---- What each row pays ----

  /** The leaf prices the next turn pays for the row at `k`. */
  function StepPays(w: World, s: Config, k: Key): nat {
    if Wants(w, s.c) == Some(k) then StepLeaf(w, s) else 0
  }

  /** How many times a run so far has paid the leaf price for the row at `k`. */
  function RowLeaves(w: World, t: seq<Config>, k: Key): nat
    requires t != []
  {
    if |t| == 1 then 0
    else
      var before := t[..|t| - 1];
      RowLeaves(w, before, k) + StepPays(w, Last(before), k)
  }

  /** The row the next turn dirties late: for the first time, past the free ones, and without being
      charged for turning it. */
  function StepLate(w: World, s: Config): set<Key> {
    match Fetched(w, s.c)
    case Err(_) => {}
    case Ok((i, _)) =>
      match Wants(w, s.c)
      case None => {}
      case Some(k) =>
        if i.SStore? && k !in s.c.dirty && |s.c.dirty| >= 8
           && !PaysFresh(s.c, k, s.c.m.regs[i.b], Seen(w, s)) then {k}
        else {}
  }

  /** The rows a run so far has dirtied late. */
  function LateRows(w: World, t: seq<Config>): set<Key>
    requires t != []
  {
    if |t| == 1 then {}
    else
      var before := t[..|t| - 1];
      LateRows(w, before) + StepLate(w, Last(before))
  }

  /** A store is charged for turning its row, or dirties it late, or pays nothing. */
  lemma StorePays(w: World, c: Ctl, a: Reg, b: Reg, v: u64)
    requires StoreMove(w, c, a, b, v).Go? && c.charged <= c.dirty
    ensures var c', k := StoreMove(w, c, a, b, v).c, KeyAt(c.m, a).value;
            var late := k !in c.dirty && |c.dirty| >= 8 && !PaysFresh(c, k, c.m.regs[b], v);
            && c'.charged == c.charged + (if PaysFresh(c, k, c.m.regs[b], v) then {k} else {})
            && (PaysLeaf(c, k, c.m.regs[b], v) <==> k in c'.charged - c.charged || late)
            && (PaysFresh(c, k, c.m.regs[b], v) ==> k !in c.charged)
  {
    hide MayWrite, Region;
  }

  /** What one turn pays, row by row and in all, and which rows it marks for it. */
  lemma StepPaysFor(w: World, limit: nat, s: Config, k: Key)
    requires Next(w, limit, s).More? && s.c.charged <= s.c.dirty
    ensures var s' := Next(w, limit, s).s;
            && s.c.charged <= s'.c.charged <= s'.c.dirty && s.c.dirty <= s'.c.dirty
            && StepLate(w, s) <= s'.c.dirty - s.c.dirty
            && |StepLate(w, s)| <= 1
            && (StepLate(w, s) != {} ==> |s.c.dirty| >= 8)
            && StepPays(w, s, k) == Flag(k in s'.c.charged - s.c.charged) + Flag(k in StepLate(w, s))
            && StepLeaf(w, s) == |s'.c.charged| - |s.c.charged| + |StepLate(w, s)|
  {
    hide Next, DecodeAt, CostOf, PaysLeaf, PaysFresh, MayRead, MayWrite, Region, StepLocal,
      SendMove, EmitMove, HashMove, Wants;
    var i, c1 := NextParts(w, limit, s);
    WritesAreWanted(w, s.c, c1, Seen(w, s));
    PaysLeafIgnoresMachine(s.c, c1.m);
    PaysFreshIgnoresMachine(s.c, c1.m);
    if i.SStore? {
      var row := Wants(w, s.c).value;
      assert KeyAt(s.c.m, i.a) == KeyAt(c1.m, i.a) == Some(row);
      StorePays(w, c1, i.a, i.b, Seen(w, s));
      OneMore(s.c.charged, row);
    }
  }

  lemma PaysFreshIgnoresMachine(c: Ctl, m: Mach)
    ensures forall k, val, prior :: PaysFresh(c, k, val, prior) == PaysFresh(c.(m := m), k, val, prior)
  {
  }

  /** The leaf prices of a run, exactly: a row pays once if the run charged it for turning non-zero and
      once more if it was dirtied late, and never otherwise; in all, as many as there are charged
      rows and late rows. */
  lemma {:induction false} LeavesPerRow(w: World, limit: nat, t: seq<Config>, k: Key)
    requires IsRun(w, limit, t) && t[0].c.dirty == {} && t[0].c.charged == {}
    ensures RowLeaves(w, t, k) == Flag(k in Last(t).c.charged) + Flag(k in LateRows(w, t))
    ensures RunLeaves(w, t) == |Last(t).c.charged| + |LateRows(w, t)|
    ensures Last(t).c.charged <= Last(t).c.dirty && LateRows(w, t) <= Last(t).c.dirty
    decreases |t|
  {
    hide Next, StepLate, StepPays, StepLeaf;
    if |t| > 1 {
      var before := t[..|t| - 1];
      LeavesPerRow(w, limit, before, k);
      assert Next(w, limit, t[|t| - 2]) == More(t[|t| - 1]);
      StepPaysFor(w, limit, Last(before), k);
      DisjointUnion(LateRows(w, before), StepLate(w, Last(before)));
    }
  }

  lemma DisjointUnion<T>(a: set<T>, b: set<T>)
    requires a !! b
    ensures |a + b| == |a| + |b|
  {
  }

  lemma {:induction false} LateRowsComeLate(w: World, limit: nat, t: seq<Config>)
    requires IsRun(w, limit, t) && t[0].c.dirty == {} && t[0].c.charged == {}
    ensures LateRows(w, t) != {} ==> |Last(t).c.dirty| > 8
    decreases |t|
  {
    hide Next, StepLate;
    if |t| > 1 {
      var before, k := t[..|t| - 1], seq(KEY_BYTES, i => 0);
      LateRowsComeLate(w, limit, before);
      LeavesPerRow(w, limit, before, k);
      assert Next(w, limit, t[|t| - 2]) == More(t[|t| - 1]);
      StepPaysFor(w, limit, Last(before), k);
      if StepLate(w, Last(before)) != {} {
        var row :| row in StepLate(w, Last(before));
        OneMore(Last(before).c.dirty, row);
        SubsetSize(Last(before).c.dirty + {row}, Last(t).c.dirty);
      }
      SubsetSize(Last(before).c.dirty, Last(t).c.dirty);
    }
  }

  // ---- When the price is one per created row ----

  /** The row the next turn creates: it stores a value over zero. */
  function StepTurns(w: World, s: Config): set<Key> {
    match Fetched(w, s.c)
    case Err(_) => {}
    case Ok((i, _)) =>
      match Wants(w, s.c)
      case None => {}
      case Some(k) => if i.SStore? && s.c.m.regs[i.b] != 0 && Seen(w, s) == 0 then {k} else {}
  }

  /** The rows some store of a run so far has created, whether or not it paid. */
  function Turned(w: World, t: seq<Config>): set<Key>
    requires t != []
  {
    if |t| == 1 then {}
    else
      var before := t[..|t| - 1];
      Turned(w, before) + StepTurns(w, Last(before))
  }

  /** The row the next turn creates for nothing: a scalar, while free slots are left, that was not
      charged before. */
  function StepFree(w: World, s: Config): set<Key> {
    set k | k in StepTurns(w, s) && k !in s.c.charged && k !in s.c.authW && |s.c.dirty| < 8
  }

  /** The rows a run so far has created for nothing, at least once. */
  function FreeTurns(w: World, t: seq<Config>): set<Key>
    requires t != []
  {
    if |t| == 1 then {}
    else
      var before := t[..|t| - 1];
      FreeTurns(w, before) + StepFree(w, Last(before))
  }

  /** What creating a row does: it is charged for, unless it was charged before or is free; and it is
      never late. */
  lemma StepTurnsFor(w: World, limit: nat, s: Config)
    requires Next(w, limit, s).More? && s.c.charged <= s.c.dirty
    ensures var s', turns := Next(w, limit, s).s, StepTurns(w, s);
            && turns <= s'.c.dirty && |turns| <= 1
            && s'.c.charged - s.c.charged <= turns
            && turns - s'.c.charged == StepFree(w, s)
            && turns !! StepLate(w, s)
            && (w.manifest.Some? ==> StepFree(w, s) <= w.manifest.value.scalarWrites)
  {
    hide Next, DecodeAt, CostOf, PaysLeaf, MayRead, Region, StepLocal, SendMove, EmitMove, HashMove, Wants;
    var i, c1 := NextParts(w, limit, s);
    WritesAreWanted(w, s.c, c1, Seen(w, s));
    if i.SStore? {
      PaysFreshIgnoresMachine(s.c, c1.m);
      assert KeyAt(s.c.m, i.a) == KeyAt(c1.m, i.a) == Wants(w, s.c);
      StorePays(w, c1, i.a, i.b, Seen(w, s));
    }
  }

  /** Over a run, the charged rows are created ones, created rows are dirty, and a late row that is
      ever created is charged for it. */
  lemma {:induction false} TurnedRows(w: World, limit: nat, t: seq<Config>)
    requires IsRun(w, limit, t) && t[0].c.dirty == {} && t[0].c.charged == {}
    ensures Last(t).c.charged <= Turned(w, t) <= Last(t).c.dirty
    ensures LateRows(w, t) * Turned(w, t) <= Last(t).c.charged
    ensures Turned(w, t) - Last(t).c.charged <= FreeTurns(w, t) <= Turned(w, t)
    decreases |t|
  {
    hide Next, StepLate, StepTurns, StepFree;
    if |t| > 1 {
      var before, k := t[..|t| - 1], seq(KEY_BYTES, i => 0);
      TurnedRows(w, limit, before);
      LeavesPerRow(w, limit, before, k);
      LateRowsComeLate(w, limit, before);
      assert Next(w, limit, t[|t| - 2]) == More(t[|t| - 1]);
      StepPaysFor(w, limit, Last(before), k);
      StepTurnsFor(w, limit, Last(before));
      FreeWhileSlotsLast(w, Last(before));
    }
  }

  lemma FreeWhileSlotsLast(w: World, s: Config)
    ensures StepFree(w, s) != {} ==> |s.c.dirty| < 8
    ensures StepFree(w, s) <= StepTurns(w, s)
  {
  }

  /** The count the documentation promises, one leaf price for each row a run creates and none for any
      other: it holds exactly when no row is late and every created row was charged. A row pays twice
      exactly when it is late and charged, and a created row pays nothing exactly when it was never
      charged. */
  lemma PaidOncePerCreation(w: World, limit: nat, t: seq<Config>)
    requires IsRun(w, limit, t) && t[0].c.dirty == {} && t[0].c.charged == {}
    ensures (forall k: Key :: RowLeaves(w, t, k) == Flag(k in Turned(w, t))) <==>
            LateRows(w, t) == {} && Turned(w, t) == Last(t).c.charged
    ensures forall k: Key :: RowLeaves(w, t, k) == 2 <==> k in Last(t).c.charged * LateRows(w, t)
    ensures forall k: Key :: k in Turned(w, t) && RowLeaves(w, t, k) == 0 <==> k in Turned(w, t) - Last(t).c.charged
    ensures forall k: Key :: k !in Turned(w, t) && RowLeaves(w, t, k) == 1 <==> k in LateRows(w, t) - Turned(w, t)
  {
    hide Next, RowLeaves, LateRows, Turned, FreeTurns;
    TurnedRows(w, limit, t);
    forall k: Key ensures RowLeaves(w, t, k) == Flag(k in Last(t).c.charged) + Flag(k in LateRows(w, t)) {
      LeavesPerRow(w, limit, t, k);
    }
    var unpaid := Turned(w, t) - Last(t).c.charged;
    assert Turned(w, t) == Last(t).c.charged + unpaid;
    if LateRows(w, t) != {} {
      var k :| k in LateRows(w, t);
      assert RowLeaves(w, t, k) != Flag(k in Turned(w, t));
    } else if unpaid != {} {
      var k :| k in unpaid;
      assert RowLeaves(w, t, k) != Flag(k in Turned(w, t));
    }
  }

  /** The `j`-th turn of a run pays for a row exactly when it is the first to create it. */
  ghost predicate PaysOnFirstTurn(w: World, t: seq<Config>, j: nat)
    requires j < |t|
  {
    forall k: Key :: StepPays(w, t[j], k) == Flag(k in StepTurns(w, t[j]) - Turned(w, t[..j + 1]))
  }

  lemma StepPaysOnFirstTurn(w: World, limit: nat, s: Config, turned: set<Key>)
    requires Next(w, limit, s).More? && s.c.charged <= s.c.dirty && turned == s.c.charged
    ensures (forall k: Key :: StepPays(w, s, k) == Flag(k in StepTurns(w, s) - turned)) <==>
            StepLate(w, s) == {} && StepFree(w, s) == {}
  {
    hide Next, StepPays, StepLate, StepTurns;
    var s' := Next(w, limit, s).s;
    StepTurnsFor(w, limit, s);
    forall k: Key
      ensures StepPays(w, s, k) == Flag(k in s'.c.charged - s.c.charged) + Flag(k in StepLate(w, s))
    {
      StepPaysFor(w, limit, s, k);
    }
    if StepLate(w, s) != {} {
      var k :| k in StepLate(w, s);
      assert StepPays(w, s, k) != Flag(k in StepTurns(w, s) - turned);
    } else if StepFree(w, s) != {} {
      var k :| k in StepFree(w, s);
      assert StepPays(w, s, k) != Flag(k in StepTurns(w, s) - turned);
    }
  }

  /** The whole promise, count and moment: every turn of a run pays for a row exactly when it is the
      first to create it, if and only if the run dirties no row late and creates none for nothing. */
  lemma {:induction false} PaidOnFirstCreation(w: World, limit: nat, t: seq<Config>)
    requires IsRun(w, limit, t) && t[0].c.dirty == {} && t[0].c.charged == {}
    ensures (forall j | 0 <= j < |t| - 1 :: PaysOnFirstTurn(w, t, j)) <==>
            LateRows(w, t) == {} && FreeTurns(w, t) == {}
    decreases |t|
  {
    hide Next, StepLate, StepTurns, StepFree, StepPays;
    if |t| > 1 {
      var before, k := t[..|t| - 1], seq(KEY_BYTES, i => 0);
      PaidOnFirstCreation(w, limit, before);
      forall j | 0 <= j < |t| - 2 ensures PaysOnFirstTurn(w, t, j) == PaysOnFirstTurn(w, before, j) {
        assert t[..j + 1] == before[..j + 1];
      }
      assert t[..|t| - 2 + 1] == before;
      if LateRows(w, before) == {} && FreeTurns(w, before) == {} {
        TurnedRows(w, limit, before);
        assert Next(w, limit, t[|t| - 2]) == More(t[|t| - 1]);
        StepPaysOnFirstTurn(w, limit, Last(before), Turned(w, before));
        assert PaysOnFirstTurn(w, t, |t| - 2) <==>
               StepLate(w, Last(before)) == {} && StepFree(w, Last(before)) == {};
      }
    }
  }

  /** At most eight rows are created for nothing, and under a manifest they are declared scalars. */
  lemma {:induction false} FreeTurnsAreFew(w: World, limit: nat, t: seq<Config>)
    requires IsRun(w, limit, t) && t[0].c.dirty == {} && t[0].c.charged == {}
    ensures |FreeTurns(w, t)| <= 8
    ensures w.manifest.Some? ==> FreeTurns(w, t) <= w.manifest.value.scalarWrites
    decreases |t|
  {
    hide Next, StepTurns, StepFree;
    if |t| > 1 {
      var before := t[..|t| - 1];
      var s := Last(before);
      FreeTurnsAreFew(w, limit, before);
      TurnedRows(w, limit, before);
      assert Next(w, limit, t[|t| - 2]) == More(t[|t| - 1]);
      StepTurnsFor(w, limit, s);
      FreeWhileSlotsLast(w, s);
      if StepFree(w, s) != {} {
        SubsetSize(FreeTurns(w, before), s.c.dirty);
        UnionSize(FreeTurns(w, before), StepFree(w, s));
        SubsetSize(StepFree(w, s), StepTurns(w, s));
      }
    }
  }

  /** The promise is kept by an entry that declares no scalar write, as long as it dirties no more rows
      than there are free slots. */
  lemma KeyedRowsPayOnCreation(w: World, limit: nat, t: seq<Config>)
    requires IsRun(w, limit, t) && t[0].c.dirty == {} && t[0].c.charged == {}
    requires w.manifest.Some? && w.manifest.value.scalarWrites == {} && |Last(t).c.dirty| <= 8
    ensures forall j | 0 <= j < |t| - 1 :: PaysOnFirstTurn(w, t, j)
  {
    hide Next, LateRows, FreeTurns, PaysOnFirstTurn;
    LateRowsComeLate(w, limit, t);
    FreeTurnsAreFew(w, limit, t);
    PaidOnFirstCreation(w, limit, t);
  }

  lemma NoWriteDigest(w: World, hashed: set<seq<byte>>)
    requires w.manifest.Some? && w.manifest.value.keyedWrites == {}
    ensures forall k: Key :: !WriteDigest(w, hashed, k)
  {
  }

  /** Under a manifest of at most eight scalar writes and no keyed write no row is late: every row pays
      at most once, and only for being created after the free slots are used up. */
  lemma SmallManifestPaysOnce(w: World, limit: nat, t: seq<Config>, k: Key)
    requires IsRun(w, limit, t) && t[0].c == FreshCtl(t[0].c.m)
    requires w.manifest.Some? && w.manifest.value.keyedWrites == {}
    requires |w.manifest.value.scalarWrites| <= 8
    ensures RowLeaves(w, t, k) == Flag(k in Last(t).c.charged)
  {
    hide Next, RowLeaves, LateRows, RunHashes;
    DirtyIsPermitted(w, limit, t);
    RunAuthorised(w, limit, t);
    NoWriteDigest(w, RunHashes(w, t));
    SubsetSize(Last(t).c.dirty, w.manifest.value.scalarWrites);
    LateRowsComeLate(w, limit, t);
    LeavesPerRow(w, limit, t, k);
  }
}
