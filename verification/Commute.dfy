/** Non-interference: a run depends on the store only through the rows it touches; so entries
    whose footprints do not conflict commute. */
module Commute {
  import opened Bytes
  import opened Isa
  import opened Meter
  import opened Machines
  import opened Crypto
  import opened Local
  import opened Semantics
  import opened Storage
  import opened Confinement
  import opened Containers
  import opened Deploy

  function StepTouches(w: World, c: Ctl): set<Key> {
    match Wants(w, c)
    case None => {}
    case Some(k) => {k}
  }

  /** The storage rows a run so far has looked up, the last state's included. */
  function RunTouches(w: World, t: seq<Config>): set<Key>
    requires t != []
  {
    StepTouches(w, Last(t).c) + if |t| == 1 then {} else RunTouches(w, t[..|t| - 1])
  }

  /** Nothing but the value looked up depends on the loader. */
  lemma LoaderUnread(w: World, loader: Option<Key -> u64>, limit: nat, c: Ctl, used: nat, v: u64)
    ensures var w' := w.(loader := loader);
            && Wants(w', c) == Wants(w, c)
            && Turn(w', limit, c, used, v) == Turn(w, limit, c, used, v)
  {
    hide DecodeAt, CostOf, Region, StepLocal, SendMove, EmitMove, HashInto, PaysLeaf, PaysFresh, BaseOf, SetReg;
    var w' := w.(loader := loader);
    match Fetched(w, c)
    case Err(_) =>
    case Ok((i, n)) =>
      if c.m.pc + n < TWO32 {
        MoveIgnoresLoader(w, loader, Advance(c, c.m.pc + n), i, v);
      }
  }

  lemma MoveIgnoresLoader(w: World, loader: Option<Key -> u64>, c: Ctl, i: Instr, v: u64)
    ensures Trans(w.(loader := loader), c, i, v) == Trans(w, c, i, v)
  {
    hide StepLocal, SendMove, EmitMove, HashInto, PaysLeaf, PaysFresh, BaseOf, KeyAt, Region;
  }

  /** Two states that differ only in what is stored. */
  predicate Alike(a: Config, b: Config) {
    a.c == b.c && a.used == b.used
  }

  predicate SameKind(w: World, w': World) {
    w.loader.Some? == w'.loader.Some?
  }

  /** Steps from alike states with the same value looked up stay alike, and rows seen alike stay
      seen alike; steps from the same state are the same. */
  lemma StepAlike(w: World, w': World, limit: nat, a: Config, b: Config)
    requires w' == w.(loader := w'.loader) && CacheAgrees(w, a) && CacheAgrees(w', b) && Alike(a, b)
    requires Wants(w, a.c).Some? ==> View(w, a, Wants(w, a.c).value) == View(w', b, Wants(w, a.c).value)
    ensures match Next(w, limit, a)
            case Crash(f) => Next(w', limit, b) == Crash(f)
            case Done(a') => Next(w', limit, b).Done? && Alike(a', Next(w', limit, b).s) &&
                             a'.storage == a.storage && Next(w', limit, b).s.storage == b.storage
            case More(a') =>
              && Next(w', limit, b).More?
              && var b' := Next(w', limit, b).s;
                 && Alike(a', b')
                 && CacheAgrees(w, a') && CacheAgrees(w', b')
                 && forall k :: View(w, a, k) == View(w', b, k) ==> View(w, a', k) == View(w', b', k)
    ensures a == b && SameKind(w, w') ==> Next(w', limit, b) == Next(w, limit, a)
  {
    hide Turn, Wants;
    LoaderUnread(w, w'.loader, limit, a.c, a.used, Seen(w, a));
    if Wants(w, a.c).Some? {
      LookupIsView(w, a, Wants(w, a.c).value);
      LookupIsView(w', b, Wants(w, a.c).value);
    }
  }

  /** A run is replayed in lock step from any store that agrees on the rows it touches. */
  lemma {:induction false} Replay(w: World, w': World, limit: nat, t: seq<Config>, b: Config) returns (t': seq<Config>)
    requires IsRun(w, limit, t) && w' == w.(loader := w'.loader)
    requires CacheAgrees(w, t[0]) && CacheAgrees(w', b) && Alike(t[0], b)
    requires forall k | k in RunTouches(w, t) :: View(w, t[0], k) == View(w', b, k)
    ensures IsRun(w', limit, t') && |t'| == |t| && t'[0] == b
    ensures Alike(Last(t), Last(t')) && CacheAgrees(w, Last(t)) && CacheAgrees(w', Last(t'))
    ensures forall k :: View(w, t[0], k) == View(w', b, k) ==> View(w, Last(t), k) == View(w', Last(t'), k)
    ensures t[0] == b && SameKind(w, w') ==> t' == t
    decreases |t|
  {
    hide Next, View, CacheAgrees, Wants;
    if |t| == 1 {
      return [b];
    }
    var before := t[..|t| - 1];
    var before' := Replay(w, w', limit, before, b);
    assert Next(w, limit, t[|t| - 2]) == More(t[|t| - 1]);
    TouchesNow(w, before);
    StepAlike(w, w', limit, Last(before), Last(before'));
    t' := before' + [Next(w', limit, Last(before')).s];
  }

  lemma TouchesNow(w: World, t: seq<Config>)
    requires t != []
    ensures Wants(w, Last(t).c).Some? ==> Wants(w, Last(t).c).value in RunTouches(w, t)
  {
  }

  lemma {:induction false} DirtyIsTouched(w: World, limit: nat, t: seq<Config>)
    requires IsRun(w, limit, t) && t[0].c.dirty == {}
    ensures Last(t).c.dirty <= RunTouches(w, t)
    decreases |t|
  {
    hide Next, Wants, Trans, CostOf, DecodeAt;
    if |t| > 1 {
      var before := t[..|t| - 1];
      DirtyIsTouched(w, limit, before);
      assert Next(w, limit, t[|t| - 2]) == More(t[|t| - 1]);
      var i, c1 := NextParts(w, limit, Last(before));
      WritesAreWanted(w, Last(before).c, c1, Seen(w, Last(before)));
      TouchesNow(w, before);
    }
  }

  /** Two runs end in the same fault, or in alike states that see alike every row that was seen
      alike at their starts, and hold the same values in the rows a host commits. */
  ghost predicate EndAlike(w: World, w': World, a: Config, b: Config, r: RunResult, r': RunResult) {
    match r
    case Faults(f) => r' == Faults(f)
    case Halts(fa) =>
      && r'.Halts?
      && Alike(fa, r'.final)
      && (forall k :: View(w, a, k) == View(w', b, k) ==> View(w, fa, k) == View(w', r'.final, k))
      && (a.c.dirty == {} ==>
            forall k | k in fa.c.dirty ::
              k in fa.storage && k in r'.final.storage && fa.storage[k] == r'.final.storage[k])
  }

  /** Non-interference: from stores that agree on the rows the first run touches, both runs end in
      the same fault, or in the same control state with the same meter and the same values on
      every row that was alike and every row they wrote; and from the same state they end in the
      same state, storage and fetched rows included. */
  lemma NonInterference(w: World, w': World, limit: nat, a: Config, b: Config)
    requires w' == w.(loader := w'.loader) && CacheAgrees(w, a) && CacheAgrees(w', b) && Alike(a, b)
    requires forall k | k in RunTouches(w, Trace(w, limit, a)) :: View(w, a, k) == View(w', b, k)
    ensures |Trace(w', limit, b)| == |Trace(w, limit, a)|
    ensures EndAlike(w, w', a, b, Run(w, limit, a), Run(w', limit, b))
    ensures a == b && SameKind(w, w') ==> Run(w', limit, b) == Run(w, limit, a)
  {
    hide Next, CacheAgrees, Wants, RunTouches, View;
    var t := Trace(w, limit, a);
    TraceIsRun(w, limit, a);
    var t' := Replay(w, w', limit, t, b);
    TouchesNow(w, t);
    StepAlike(w, w', limit, Last(t), Last(t'));
    RunIsTracePrefix(w', limit, t');
    TraceEndsHere(w', limit, t');
    if a.c.dirty == {} {
      SameWrites(w, w', limit, t, t');
    }
    var last, last' := Next(w, limit, Last(t)), Next(w', limit, Last(t'));
    if last.Done? {
      HaltState(w, limit, Last(t));
      forall k ensures View(w, last.s, k) == View(w, Last(t), k) && View(w', last'.s, k) == View(w', Last(t'), k) {
        ViewIsStorage(w, Last(t), last.s, k);
        ViewIsStorage(w', Last(t'), last'.s, k);
      }
    }
  }

  /** Alike runs wrote the same values. */
  lemma SameWrites(w: World, w': World, limit: nat, t: seq<Config>, t': seq<Config>)
    requires IsRun(w, limit, t) && IsRun(w', limit, t') && CacheAgrees(w, t[0]) && CacheAgrees(w', t'[0])
    requires Alike(t[0], t'[0]) && t[0].c.dirty == {} && Alike(Last(t), Last(t'))
    requires forall k | k in RunTouches(w, t) :: View(w, Last(t), k) == View(w', Last(t'), k)
    ensures forall k | k in Last(t).c.dirty ::
              k in Last(t).storage && k in Last(t').storage && Last(t).storage[k] == Last(t').storage[k]
  {
    hide Next, RunTouches, CacheAgrees;
    DirtyIsTouched(w, limit, t);
    LazyStorage(w, limit, t);
    LazyStorage(w', limit, t');
    forall k | k in Last(t).c.dirty
      ensures k in Last(t).storage && k in Last(t').storage && Last(t).storage[k] == Last(t').storage[k]
    {
      assert k in RunTouches(w, t);
      assert k in Last(t).storage.Keys && k in Last(t').storage.Keys;
    }
  }

  // ---- The declared footprint ----

  /** The rows an entry's manifest lets it reach: declared slots, and digests of preimages headed
      by a declared keyed base. */
  ghost predicate Footprint(w: World, k: Key) {
    w.manifest.Some? ==>
      k in w.manifest.value.scalarReads + w.manifest.value.scalarWrites ||
      exists p :: HeadedBy(p, w.manifest.value.keyedReads + w.manifest.value.keyedWrites) && w.prims.sha3(p) == k
  }

  /** A touched row was declared, or is the digest of a preimage the run hashed. */
  lemma {:induction false} TouchedIsDeclared(w: World, limit: nat, t: seq<Config>, k: Key)
    requires IsRun(w, limit, t) && t[0].c.authR == {} && t[0].c.authW == {} && w.manifest.Some?
    requires k in RunTouches(w, t)
    ensures || k in w.manifest.value.scalarReads + w.manifest.value.scalarWrites
            || ReadDigest(w, RunHashes(w, t), k)
    decreases |t|
  {
    hide Next, StepHashes, WriteDigest, ReadDigest, Wants;
    if Wants(w, Last(t).c) == Some(k) {
      RunAuthorised(w, limit, t);
      WantedIsAuthorised(w, Last(t).c, RunHashes(w, t), k);
    } else {
      assert |t| > 1;
      var before := t[..|t| - 1];
      TouchedIsDeclared(w, limit, before, k);
      MoreHashes(w, RunHashes(w, before), RunHashes(w, t), k);
    }
  }

  lemma WritersRead(w: World, hashed: set<seq<byte>>, k: Key)
    ensures WriteDigest(w, hashed, k) ==> ReadDigest(w, hashed, k)
  {
    if WriteDigest(w, hashed, k) {
      var p :| p in hashed && HeadedBy(p, w.manifest.value.keyedWrites) && w.prims.sha3(p) == k;
      assert HeadedBy(p, w.manifest.value.keyedReads + w.manifest.value.keyedWrites);
    }
  }

  lemma WantedIsAuthorised(w: World, c: Ctl, hashed: set<seq<byte>>, k: Key)
    requires Wants(w, c) == Some(k) && Authorised(w, c, hashed) && w.manifest.Some?
    ensures || k in w.manifest.value.scalarReads + w.manifest.value.scalarWrites
            || ReadDigest(w, hashed, k)
  {
    hide DecodeAt, KeyAt, WriteDigest, ReadDigest;
    WritersRead(w, hashed, k);
  }

  /** Non-interference from the manifest alone. */
  lemma FootprintNonInterference(w: World, w': World, limit: nat, a: Config, b: Config)
    requires w' == w.(loader := w'.loader) && CacheAgrees(w, a) && CacheAgrees(w', b) && Alike(a, b)
    requires w.manifest.Some? && a.c.authR == {} && a.c.authW == {}
    requires forall k | Footprint(w, k) :: View(w, a, k) == View(w', b, k)
    ensures EndAlike(w, w', a, b, Run(w, limit, a), Run(w', limit, b))
    ensures a == b && SameKind(w, w') ==> Run(w', limit, b) == Run(w, limit, a)
  {
    hide Next, View, CacheAgrees, RunTouches, RunHashes, HeadedBy;
    var t := Trace(w, limit, a);
    TraceIsRun(w, limit, a);
    forall k | k in RunTouches(w, t) ensures View(w, a, k) == View(w', b, k) {
      TouchedIsDeclared(w, limit, t, k);
      assert Footprint(w, k);
    }
    NonInterference(w, w', limit, a, b);
  }

  // ---- Running entries over one host store ----

  /** The store after a run over it: its dirty rows when it halts, nothing when it faults. */
  function Settle(r: RunResult, store: Key -> u64): Key -> u64 {
    (k: Key) =>
      if r.Halts? && k in r.final.c.dirty && k in r.final.storage then r.final.storage[k] else store(k)
  }

  /** The rows at `keys`, as the store has them. */
  function Preloaded(store: Key -> u64, keys: set<Key>): map<Key, u64> {
    map k | k in keys :: store(k)
  }

  /** A prepared entry: its world but for the loader, its limit and its starting state. It starts
      from fixed storage over the host's rows at `preload`, and reads further rows from the host
      when it is lazy. An entry that does not open is refused. */
  datatype Job =
    | Refused(fault: Fault)
    | Job(w: World, limit: nat, c: Ctl, used: nat, storage: map<Key, u64>, preload: set<Key>, lazy: bool)
  {
    ghost predicate Ready() {
      Job? ==> w.manifest.Some? && c == FreshCtl(c.m)
    }

    function Over(store: Key -> u64): World
      requires Job?
    {
      w.(loader := if lazy then Some(store) else None)
    }

    function Start(store: Key -> u64): Config
      requires Job?
    {
      Config(c, used, Preloaded(store, preload) + storage, map[])
    }

    function Result(store: Key -> u64): RunResult {
      if Refused? then Faults(fault) else Run(Over(store), limit, Start(store))
    }

    function Path(store: Key -> u64): (t: seq<Config>)
      requires Job?
      ensures t != []
    {
      Trace(Over(store), limit, Start(store))
    }

    function Commit(store: Key -> u64): Key -> u64 {
      Settle(Result(store), store)
    }

    function Dirty(store: Key -> u64): set<Key> {
      if Result(store).Halts? then Result(store).final.c.dirty else {}
    }

    /** The rows of the store the job may depend on or write. */
    function Touched(store: Key -> u64): set<Key> {
      if Refused? then {} else RunTouches(Over(store), Path(store)) + preload
    }

    function Hashed(store: Key -> u64): set<seq<byte>> {
      if Refused? then {} else RunHashes(Over(store), Path(store))
    }
  }

  /** The rows a job commits are those it touched; every other row keeps its value; and for a lazy
      job committing is viewing, but for rows its fixed storage hides. */
  lemma CommitIsView(job: Job, store: Key -> u64)
    requires job.Ready()
    ensures job.Dirty(store) <= job.Touched(store)
    ensures job.Result(store).Halts? && job.lazy ==>
              forall k :: k in job.Dirty(store) || k !in job.storage ==>
                            job.Commit(store)(k) == View(job.Over(store), job.Result(store).final, k)
    ensures forall k :: k in job.Dirty(store) ==>
                          k in job.Result(store).final.storage
                          && job.Commit(store)(k) == job.Result(store).final.storage[k]
    ensures forall k :: k !in job.Dirty(store) ==> job.Commit(store)(k) == store(k)
  {
    hide Next, RunTouches;
    if job.Result(store).Halts? {
      var t := job.Path(store);
      OutcomeIsLast(job.Over(store), job.limit, job.Start(store));
      LazyStorage(job.Over(store), job.limit, t);
      DirtyIsTouched(job.Over(store), job.limit, t);
    }
  }

  /** What a job does is the same over any store that agrees on what it touched, down to the last
      field of its outcome. */
  lemma JobReplay(job: Job, store: Key -> u64, other: Key -> u64)
    requires job.Ready()
    requires forall k | k in job.Touched(store) :: store(k) == other(k)
    ensures job.Result(other) == job.Result(store)
  {
    hide Next, RunTouches, Run, Trace;
    if job.Job? {
      assert Preloaded(other, job.preload) == Preloaded(store, job.preload);
      NonInterference(job.Over(store), job.Over(other), job.limit, job.Start(store), job.Start(other));
    }
  }

  /** Neither job writes a row the other touches. */
  predicate Disjoint(a: Job, b: Job, store: Key -> u64) {
    a.Dirty(store) !! b.Touched(store) && b.Dirty(store) !! a.Touched(store)
  }

  /** Jobs that never touch a row the other writes commute: each gives the same result in either
      order, and the store ends the same. */
  lemma DisjointJobsCommute(a: Job, b: Job, store: Key -> u64)
    requires a.Ready() && b.Ready()
    ensures Disjoint(a, b, store) ==>
              && a.Result(b.Commit(store)) == a.Result(store)
              && b.Result(a.Commit(store)) == b.Result(store)
              && forall k :: b.Commit(a.Commit(store))(k) == a.Commit(b.Commit(store))(k)
  {
    hide Next, RunTouches, Job.Touched, Job.Result;
    if Disjoint(a, b, store) {
      CommitIsView(a, store);
      CommitIsView(b, store);
      JobReplay(a, store, b.Commit(store));
      JobReplay(b, store, a.Commit(store));
      forall k ensures b.Commit(a.Commit(store))(k) == a.Commit(b.Commit(store))(k) {
        if k in a.Dirty(store) {
          assert k !in b.Dirty(store);
        }
      }
    }
  }

  // ---- Any number of jobs, in any order ----

  /** The store after running jobs one after another. */
  function InTurn(jobs: seq<Job>, store: Key -> u64): Key -> u64
    decreases |jobs|
  {
    if jobs == [] then store
    else jobs[|jobs| - 1].Commit(InTurn(jobs[..|jobs| - 1], store))
  }

  /** The row at `k` after running every job from the same store, on its own, and then merging their
      dirty rows. */
  function MergedAt(jobs: seq<Job>, store: Key -> u64, k: Key): u64
    decreases |jobs|
  {
    if jobs == [] then store(k)
    else
      var job := jobs[|jobs| - 1];
      if k in job.Dirty(store) then job.Commit(store)(k) else MergedAt(jobs[..|jobs| - 1], store, k)
  }

  /** `order` runs through the first `n` numbers, each once. */
  predicate IsOrder(order: seq<nat>, n: nat) {
    && (forall i | 0 <= i < |order| :: order[i] < n)
    && (forall i, j | 0 <= i < j < |order| :: order[i] != order[j])
    && (forall x: nat | x < n :: x in order)
  }

  function Ordered<T>(xs: seq<T>, order: seq<nat>): (r: seq<T>)
    requires forall i | 0 <= i < |order| :: order[i] < |xs|
    ensures |r| == |order| && forall i | 0 <= i < |order| :: r[i] == xs[order[i]]
  {
    seq(|order|, i requires 0 <= i < |order| => xs[order[i]])
  }

  ghost predicate AllReady(jobs: seq<Job>) {
    forall i | 0 <= i < |jobs| :: jobs[i].Ready()
  }

  predicate AllDisjoint(jobs: seq<Job>, store: Key -> u64) {
    forall i, j | 0 <= i < j < |jobs| :: Disjoint(jobs[i], jobs[j], store)
  }

  /** Merging takes each row from the one job that wrote it, if any. */
  lemma {:induction false} MergeTakes(jobs: seq<Job>, store: Key -> u64, k: Key)
    requires AllReady(jobs) && AllDisjoint(jobs, store)
    ensures (forall i | 0 <= i < |jobs| :: k !in jobs[i].Dirty(store)) ==> MergedAt(jobs, store, k) == store(k)
    ensures forall i | 0 <= i < |jobs| :: k in jobs[i].Dirty(store) ==>
                                            MergedAt(jobs, store, k) == jobs[i].Commit(store)(k)
    decreases |jobs|
  {
    hide Job.Touched, Job.Dirty, Job.Commit;
    if jobs != [] {
      var rest, job := jobs[..|jobs| - 1], jobs[|jobs| - 1];
      MergeTakes(rest, store, k);
      forall i | 0 <= i < |jobs| && k in jobs[i].Dirty(store)
        ensures MergedAt(jobs, store, k) == jobs[i].Commit(store)(k)
      {
        if i < |rest| {
          assert rest[i] == jobs[i] && Disjoint(jobs[i], job, store);
          CommitIsView(job, store);
        }
      }
      assert forall i | 0 <= i < |rest| :: rest[i] == jobs[i];
    }
  }

  /** Jobs run in turn do what each does on its own. */
  lemma {:induction false} InTurnMerges(jobs: seq<Job>, store: Key -> u64, i: nat)
    requires AllReady(jobs) && AllDisjoint(jobs, store) && i <= |jobs|
    ensures forall k :: InTurn(jobs[..i], store)(k) == MergedAt(jobs[..i], store, k)
    ensures i < |jobs| ==> jobs[i].Result(InTurn(jobs[..i], store)) == jobs[i].Result(store)
    decreases i
  {
    hide Job.Touched, Job.Result, Run, Trace;
    if i > 0 {
      var rest, job := jobs[..i - 1], jobs[i - 1];
      InTurnMerges(jobs, store, i - 1);
      assert jobs[..i][..i - 1] == rest;
      CommitIsView(job, store);
    }
    if i < |jobs| {
      forall k | k in jobs[i].Touched(store) ensures InTurn(jobs[..i], store)(k) == store(k) {
        forall j | 0 <= j < i ensures k !in jobs[..i][j].Dirty(store) {
          assert Disjoint(jobs[j], jobs[i], store);
        }
        MergeTakes(jobs[..i], store, k);
      }
      JobReplay(jobs[i], store, InTurn(jobs[..i], store));
    }
  }

  /** Under the schedule `order` every job gives the result it gives on its own, and the store ends
      as if every job had run at once on the first store and their dirty rows had been merged. */
  ghost predicate Serialises(jobs: seq<Job>, order: seq<nat>, store: Key -> u64)
    requires IsOrder(order, |jobs|)
  {
    && (forall i | 0 <= i < |order| ::
          jobs[order[i]].Result(InTurn(Ordered(jobs, order)[..i], store)) == jobs[order[i]].Result(store))
    && (forall k :: InTurn(Ordered(jobs, order), store)(k) == MergedAt(jobs, store, k))
  }

  /** Jobs of which no two touch a row the other writes can run in any order, or all at once. */
  lemma DisjointJobsSerialise(jobs: seq<Job>, order: seq<nat>, store: Key -> u64)
    requires AllReady(jobs) && AllDisjoint(jobs, store) && IsOrder(order, |jobs|)
    ensures Serialises(jobs, order, store)
  {
    hide Disjoint, Job.Result, Job.Dirty, Job.Commit, MergedAt, InTurn;
    var run := Ordered(jobs, order);
    forall i, j | 0 <= i < j < |run| ensures Disjoint(run[i], run[j], store) {
      if order[i] < order[j] {
        assert Disjoint(jobs[order[i]], jobs[order[j]], store);
      } else {
        assert Disjoint(jobs[order[j]], jobs[order[i]], store);
      }
      DisjointSymmetric(run[i], run[j], store);
    }
    forall i | 0 <= i < |order| ensures run[i].Result(InTurn(run[..i], store)) == run[i].Result(store) {
      InTurnMerges(run, store, i);
    }
    assert run[..|run|] == run;
    InTurnMerges(run, store, |run|);
    forall k ensures MergedAt(run, store, k) == MergedAt(jobs, store, k) {
      MergeTakes(run, store, k);
      MergeTakes(jobs, store, k);
      if x: nat :| x < |jobs| && k in jobs[x].Dirty(store) {
        assert x in order;
        var i :| 0 <= i < |order| && order[i] == x;
        assert run[i] == jobs[x];
      }
    }
  }

  lemma DisjointSymmetric(a: Job, b: Job, store: Key -> u64)
    ensures Disjoint(a, b, store) == Disjoint(b, a, store)
  {
  }

  // ---- What the declared manifests decide ----

  /** No declared write of one job meets anything the other declares. */
  predicate Unrelated(a: Manifest, b: Manifest) {
    && a.scalarWrites !! (b.scalarReads + b.scalarWrites)
    && b.scalarWrites !! (a.scalarReads + a.scalarWrites)
    && a.keyedWrites !! (b.keyedReads + b.keyedWrites)
    && b.keyedWrites !! (a.keyedReads + a.keyedWrites)
  }

  /** How two jobs with unrelated manifests could still meet on a row. */
  datatype Meeting =
    | Never
    | SameDigest(byWriter: seq<byte>, byOther: seq<byte>)
    | DigestIsSlot(hashed: seq<byte>, slot: Key)
    | UndeclaredPreload(row: Key)

  /** A row that the writer may write and the other may touch. */
  lemma MeetAt(writer: World, other: World, hw: set<seq<byte>>, ho: set<seq<byte>>, k: Key) returns (m: Meeting)
    requires writer.manifest.Some? && other.manifest.Some? && writer.prims == other.prims
    requires Unrelated(writer.manifest.value, other.manifest.value)
    requires k in writer.manifest.value.scalarWrites || WriteDigest(writer, hw, k)
    requires || k in other.manifest.value.scalarReads + other.manifest.value.scalarWrites
             || ReadDigest(other, ho, k)
    ensures m.SameDigest? ==>
              && m.byWriter in hw && m.byOther in ho && m.byWriter != m.byOther
              && writer.prims.sha3(m.byWriter) == writer.prims.sha3(m.byOther)
    ensures m.DigestIsSlot? ==>
              && m.hashed in hw + ho && writer.prims.sha3(m.hashed) == m.slot
              && m.slot in writer.manifest.value.scalarWrites
                           + other.manifest.value.scalarReads + other.manifest.value.scalarWrites
    ensures m.SameDigest? || m.DigestIsSlot?
  {
    hide HeadedBy;
    var a, b := writer.manifest.value, other.manifest.value;
    if k in a.scalarWrites {
      var p :| p in ho && HeadedBy(p, b.keyedReads + b.keyedWrites) && other.prims.sha3(p) == k;
      return DigestIsSlot(p, k);
    }
    var p :| p in hw && HeadedBy(p, a.keyedWrites) && writer.prims.sha3(p) == k;
    if k in b.scalarReads + b.scalarWrites {
      return DigestIsSlot(p, k);
    }
    var q :| q in ho && HeadedBy(q, b.keyedReads + b.keyedWrites) && other.prims.sha3(q) == k;
    if p == q {
      OneHead(p, a.keyedWrites, b.keyedReads + b.keyedWrites);
      assert false;
    }
    return SameDigest(p, q);
  }

  /** The slots an entry declares, as keys. */
  function Slots(m: Manifest): set<Key> {
    m.scalarReads + m.scalarWrites
  }

  /** Why a job may touch or write a row, by its declared manifest and the hashes it made. */
  lemma JobReasons(job: Job, store: Key -> u64, k: Key)
    requires job.Ready() && job.Job?
    ensures k in job.Dirty(store) ==>
              k in job.w.manifest.value.scalarWrites || WriteDigest(job.w, job.Hashed(store), k)
    ensures k in job.Touched(store) ==>
              || k in Slots(job.w.manifest.value)
              || ReadDigest(job.w, job.Hashed(store), k)
              || k in job.preload
  {
    hide Next, RunTouches, RunHashes;
    var w, t := job.Over(store), job.Path(store);
    TraceIsRun(w, job.limit, job.Start(store));
    if k in RunTouches(w, t) {
      TouchedIsDeclared(w, job.limit, t, k);
    }
    if k in job.Dirty(store) {
      OutcomeIsLast(w, job.limit, job.Start(store));
      DirtyIsPermitted(w, job.limit, t);
      RunAuthorised(w, job.limit, t);
    }
    DigestsIgnoreLoader(job.w, w.loader, job.Hashed(store), k);
  }

  lemma DigestsIgnoreLoader(w: World, loader: Option<Key -> u64>, hashed: set<seq<byte>>, k: Key)
    ensures WriteDigest(w.(loader := loader), hashed, k) == WriteDigest(w, hashed, k)
    ensures ReadDigest(w.(loader := loader), hashed, k) == ReadDigest(w, hashed, k)
  {
    hide HeadedBy;
  }

  /** Jobs over one set of primitives whose manifests do not conflict. */
  ghost predicate JobsUnrelated(a: Job, b: Job)
    requires a.Ready() && b.Ready()
  {
    a.Job? && b.Job? ==>
      a.w.prims == b.w.prims && Unrelated(a.w.manifest.value, b.w.manifest.value)
  }

  /** What a meeting says of two jobs: no row written by one is touched by the other; or preimages
      they hashed collide; or one they hashed has a declared slot for its digest; or one wrote a row
      the host preloaded into the other without its being declared. */
  ghost predicate Shown(m: Meeting, a: Job, b: Job, store: Key -> u64)
    requires a.Ready() && b.Ready()
  {
    if m.Never? then Disjoint(a, b, store)
    else
      && a.Job? && b.Job?
      && (m.SameDigest? ==>
            && m.byWriter != m.byOther && a.w.prims.sha3(m.byWriter) == a.w.prims.sha3(m.byOther)
            && ((m.byWriter in a.Hashed(store) && m.byOther in b.Hashed(store)) ||
                (m.byWriter in b.Hashed(store) && m.byOther in a.Hashed(store))))
      && (m.DigestIsSlot? ==>
            && m.hashed in a.Hashed(store) + b.Hashed(store) && a.w.prims.sha3(m.hashed) == m.slot
            && m.slot in Slots(a.w.manifest.value) + Slots(b.w.manifest.value))
      && (m.UndeclaredPreload? ==>
            || (m.row in a.Dirty(store) && m.row in b.preload - Slots(b.w.manifest.value))
            || (m.row in b.Dirty(store) && m.row in a.preload - Slots(a.w.manifest.value)))
  }

  /** Jobs with unrelated manifests are disjoint, or the meeting that makes them touch is shown. */
  lemma UnrelatedJobsMeet(a: Job, b: Job, store: Key -> u64) returns (m: Meeting)
    requires a.Ready() && b.Ready() && JobsUnrelated(a, b)
    ensures Shown(m, a, b, store)
  {
    hide Next, Job.Hashed, Unrelated, WriteDigest, ReadDigest, Slots, RunTouches, Run, Trace;
    var ab, ba := a.Dirty(store) * b.Touched(store), b.Dirty(store) * a.Touched(store);
    if ab != {} {
      var k :| k in ab;
      m := MeetOn(a, b, store, k);
    } else if ba != {} {
      var k :| k in ba;
      UnrelatedSymmetric(a.w.manifest.value, b.w.manifest.value);
      m := MeetOn(b, a, store, k);
      ShownSymmetric(m, b, a, store);
    } else {
      NoCommonElement(a.Dirty(store), b.Touched(store));
      NoCommonElement(b.Dirty(store), a.Touched(store));
      m := Never;
    }
  }

  lemma ShownSymmetric(m: Meeting, a: Job, b: Job, store: Key -> u64)
    requires a.Ready() && b.Ready() && JobsUnrelated(a, b)
    ensures Shown(m, a, b, store) == Shown(m, b, a, store)
  {
    hide Job.Hashed, Job.Dirty, Job.Touched, Unrelated, Slots;
  }

  /** A row one job writes and another with an unrelated manifest touches. */
  lemma MeetOn(writer: Job, other: Job, store: Key -> u64, k: Key) returns (m: Meeting)
    requires writer.Ready() && other.Ready() && JobsUnrelated(writer, other)
    requires k in writer.Dirty(store) * other.Touched(store)
    ensures !m.Never? && Shown(m, writer, other, store)
  {
    hide Job.Hashed, WriteDigest, ReadDigest, Run, Trace, RunTouches, Unrelated;
    assert writer.Job? && other.Job?;
    JobReasons(writer, store, k);
    JobReasons(other, store, k);
    if k in Slots(other.w.manifest.value) || ReadDigest(other.w, other.Hashed(store), k) {
      m := MeetAt(writer.w, other.w, writer.Hashed(store), other.Hashed(store), k);
    } else {
      m := UndeclaredPreload(k);
    }
  }

  /** Declared manifests are enough to schedule in parallel: jobs with unrelated manifests commute,
      each giving the same result, unless a meeting is shown. */
  lemma UnrelatedJobsCommute(a: Job, b: Job, store: Key -> u64) returns (m: Meeting)
    requires a.Ready() && b.Ready() && JobsUnrelated(a, b)
    ensures Shown(m, a, b, store)
    ensures m.Never? ==>
              && a.Result(b.Commit(store)) == a.Result(store)
              && b.Result(a.Commit(store)) == b.Result(store)
              && forall k :: b.Commit(a.Commit(store))(k) == a.Commit(b.Commit(store))(k)
  {
    hide Disjoint, Job.Result, Job.Commit, Job.Hashed, Job.Dirty, JobsUnrelated;
    m := UnrelatedJobsMeet(a, b, store);
    DisjointJobsCommute(a, b, store);
  }

  /** Two of the jobs meet, or none do. */
  lemma {:induction false} SomeMeeting(jobs: seq<Job>, store: Key -> u64, n: nat)
    returns (m: Meeting, i: nat, j: nat)
    requires AllReady(jobs) && n <= |jobs|
    requires forall x, y | 0 <= x < y < |jobs| :: JobsUnrelated(jobs[x], jobs[y])
    ensures m.Never? ==> AllDisjoint(jobs[..n], store)
    ensures !m.Never? ==> i < j < |jobs| && Shown(m, jobs[i], jobs[j], store)
    decreases n
  {
    hide Disjoint, JobsUnrelated, Job.Hashed, Job.Dirty, Slots;
    m, i, j := Never, 0, 0;
    if n > 0 {
      m, i, j := SomeMeeting(jobs, store, n - 1);
      if !m.Never? {
        return;
      }
      i, j := 0, n - 1;
      assert forall x | 0 <= x < n - 1 :: jobs[..n - 1][x] == jobs[x];
      while i < n - 1
        invariant i <= n - 1
        invariant forall x | 0 <= x < i :: Disjoint(jobs[x], jobs[n - 1], store)
      {
        m := UnrelatedJobsMeet(jobs[i], jobs[n - 1], store);
        if !m.Never? {
          return;
        }
        i := i + 1;
      }
      forall x, y | 0 <= x < y < n ensures Disjoint(jobs[..n][x], jobs[..n][y], store) {
        if y < n - 1 {
          assert Disjoint(jobs[..n - 1][x], jobs[..n - 1][y], store);
        }
      }
      m := Never;
    }
  }

  lemma UnrelatedJobsMeeting(jobs: seq<Job>, store: Key -> u64) returns (m: Meeting, i: nat, j: nat)
    requires AllReady(jobs)
    requires forall x, y | 0 <= x < y < |jobs| :: JobsUnrelated(jobs[x], jobs[y])
    ensures m.Never? ==> AllDisjoint(jobs, store)
    ensures !m.Never? ==> i < j < |jobs| && Shown(m, jobs[i], jobs[j], store)
  {
    hide Disjoint, JobsUnrelated, Shown;
    assert jobs[..|jobs|] == jobs;
    m, i, j := SomeMeeting(jobs, store, |jobs|);
  }

  /** Any number of jobs with pairwise unrelated manifests can be scheduled in any order, or all at
      once, unless two of them meet, which is then shown. */
  lemma UnrelatedJobsSerialise(jobs: seq<Job>, order: seq<nat>, store: Key -> u64)
    returns (m: Meeting, i: nat, j: nat)
    requires AllReady(jobs) && IsOrder(order, |jobs|)
    requires forall x, y | 0 <= x < y < |jobs| :: JobsUnrelated(jobs[x], jobs[y])
    ensures m.Never? ==> Serialises(jobs, order, store)
    ensures !m.Never? ==> i < j < |jobs| && Shown(m, jobs[i], jobs[j], store)
  {
    hide Disjoint, JobsUnrelated, Shown, Serialises;
    m, i, j := UnrelatedJobsMeeting(jobs, store);
    if m.Never? {
      DisjointJobsSerialise(jobs, order, store);
    }
  }

  lemma NoCommonElement<T>(a: set<T>, b: set<T>)
    requires a * b == {}
    ensures a !! b
  {
    assert forall x :: x in a && x in b ==> x in a * b;
  }

  lemma UnrelatedSymmetric(a: Manifest, b: Manifest)
    ensures Unrelated(a, b) == Unrelated(b, a)
  {
  }

  // ---- From declared lists to manifests ----

  predicate Apart(xs: seq<u64>, ys: seq<u64>) {
    forall x | x in xs :: x !in ys
  }

  /** The declared lists of two entries do not conflict: no declared write of one is declared by the
      other. */
  predicate ListsUnrelated(a: StateAccess, b: StateAccess) {
    && Apart(a.slotWrites, b.slotReads) && Apart(a.slotWrites, b.slotWrites) && Apart(b.slotWrites, a.slotReads)
    && Apart(a.keyedWrites, b.keyedReads) && Apart(a.keyedWrites, b.keyedWrites) && Apart(b.keyedWrites, a.keyedReads)
  }

  lemma KeysApart(xs: seq<u64>, ys: seq<u64>)
    ensures SlotKeys(xs) !! SlotKeys(ys) <==> Apart(xs, ys)
  {
    hide ScalarKey;
    if SlotKeys(xs) !! SlotKeys(ys) {
      forall x | x in xs ensures x !in ys {
        SlotKeyExact(xs, x);
        SlotKeyExact(ys, x);
      }
    }
    if Apart(xs, ys) {
      forall k | k in SlotKeys(xs) ensures k !in SlotKeys(ys) {
        var j :| 0 <= j < |xs| && ScalarKey(xs[j]) == k;
        SlotKeyExact(ys, xs[j]);
      }
    }
  }

  lemma BasesApart(xs: seq<u64>, ys: seq<u64>, sx: set<u64>, sy: set<u64>)
    requires (forall x :: x in sx <==> x in xs) && (forall y :: y in sy <==> y in ys)
    ensures sx !! sy <==> Apart(xs, ys)
  {
  }

  lemma MeetsNeither<T>(a: set<T>, b: set<T>, c: set<T>)
    ensures a !! (b + c) <==> a !! b && a !! c
  {
    assert forall x :: x in b + c <==> x in b || x in c;
  }

  /** The node can tell from the declared lists alone whether two entries' manifests conflict. */
  lemma ListsDecide(a: StateAccess, b: StateAccess)
    ensures Unrelated(ManifestOf(a), ManifestOf(b)) <==> ListsUnrelated(a, b)
  {
    hide SlotKeys, Apart;
    var ma, mb := ManifestOf(a), ManifestOf(b);
    KeysApart(a.slotWrites, b.slotReads);
    KeysApart(a.slotWrites, b.slotWrites);
    KeysApart(b.slotWrites, a.slotReads);
    KeysApart(b.slotWrites, a.slotWrites);
    BasesApart(a.keyedWrites, b.keyedReads, ma.keyedWrites, mb.keyedReads);
    BasesApart(a.keyedWrites, b.keyedWrites, ma.keyedWrites, mb.keyedWrites);
    BasesApart(b.keyedWrites, a.keyedReads, mb.keyedWrites, ma.keyedReads);
    BasesApart(b.keyedWrites, a.keyedWrites, mb.keyedWrites, ma.keyedWrites);
    MeetsNeither(ma.scalarWrites, mb.scalarReads, mb.scalarWrites);
    MeetsNeither(mb.scalarWrites, ma.scalarReads, ma.scalarWrites);
    MeetsNeither(ma.keyedWrites, mb.keyedReads, mb.keyedWrites);
    MeetsNeither(mb.keyedWrites, ma.keyedReads, ma.keyedWrites);
    ApartSymmetric(a.slotWrites, b.slotWrites);
    ApartSymmetric(a.keyedWrites, b.keyedWrites);
  }

  lemma ApartSymmetric(xs: seq<u64>, ys: seq<u64>)
    ensures Apart(xs, ys) <==> Apart(ys, xs)
  {
  }
}
