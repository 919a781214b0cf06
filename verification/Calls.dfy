/** Whole entry calls: opening, attaching storage and call data, running; and what the results
    about runs say of them. */
module Calls {
  import opened Bytes
  import opened Sweep
  import opened Machines
  import opened Crypto
  import opened Semantics
  import opened Metering
  import opened Storage
  import opened Confinement
  import opened Commute
  import opened Containers
  import opened Deploy
  import opened Safety
  import opened Interp

  // ---- Opening ----

  /** The two ways into a container. */
  datatype Door = ToEntry(selector: Selector) | ToGenesis

  function Asked(p: Prims, door: Door): Selector {
    if door.ToEntry? then door.selector else SelectorOf(p, GENESIS_SIGNATURE)
  }

  function Opening(p: Prims, c: Container, door: Door, limit: u64): Result<Opened, Fault> {
    if door.ToEntry? then OpenForEntry(p, c, door.selector, limit) else OpenForGenesis(p, c, limit)
  }

  lemma OpeningIs(p: Prims, c: Container, door: Door, limit: u64)
    ensures || Opening(p, c, door, limit) == OpenEntry(c, Asked(p, door), limit)
            || (Asked(p, door) == SelectorOf(p, GENESIS_SIGNATURE)
                && forall l: u64 :: Opening(p, c, door, l) == Err(UnknownSelector))
  {
    hide OpenEntry, SelectorOf;
  }

  lemma OpenLimit(p: Prims, c: Container, door: Door, limit: u64, other: u64)
    ensures var r, r' := Opening(p, c, door, limit), Opening(p, c, door, other);
            && (r.Ok? ==> r.value.used <= limit &&
                          r' == if other >= r.value.used then r else Err(OutOfMeter))
            && (r.Err? && r != Err(OutOfMeter) && other >= limit ==> r' == r)
  {
    hide Matching, Starts, ManifestOf, SelectorOf;
  }

  lemma OpenFaults(p: Prims, c: Container, door: Door, limit: u64)
    ensures match Opening(p, c, door, limit)
            case Err(f) => f == UnknownSelector || f == Malformed || f == OutOfMeter
            case Ok(o) => o.used == DispatchPrice(c.code)
  {
    hide Matching, Starts, ManifestOf, SelectorOf;
  }

  /** What the entry a door leads to declares, if there is such an entry. */
  function Declares(p: Prims, c: Container, door: Door): StateAccess {
    var found := Matching(c.entries, Asked(p, door));
    if found == [] then StateAccess([], [], [], []) else found[0].access
  }

  lemma OpenedManifest(p: Prims, c: Container, door: Door, limit: u64)
    requires Opening(p, c, door, limit).Ok?
    ensures Opening(p, c, door, limit).value.manifest == ManifestOf(Declares(p, c, door))
  {
    hide Matching, Starts, ManifestOf, SelectorOf;
  }

  // ---- Calling ----

  /** Everything a call is given but its meter limit. */
  datatype Request = Request(
    prims: Prims,
    container: Container,
    door: Door,
    storage: map<Key, u64>,
    loader: Option<Key -> u64>,
    data: seq<byte>)

  function WithData(m: Mach, data: seq<byte>): Mach {
    var n := if |data| < MEM_BYTES then |data| else MEM_BYTES;
    m.(mem := data[..n] + m.mem[n..])
  }

  function Open(q: Request, limit: u64): Result<Opened, Fault> {
    Opening(q.prims, q.container, q.door, limit)
  }

  function CallWorld(q: Request, o: Opened): World {
    World(q.container.code, q.container.consts, q.prims, Some(o.manifest), q.loader)
  }

  function CallStart(q: Request, o: Opened): Config {
    Config(FreshCtl(WithData(FreshMach(o.offset), q.data)), o.used, q.storage, map[])
  }

  function RunCall(q: Request, limit: u64): RunResult {
    match Open(q, limit)
    case Err(f) => Faults(f)
    case Ok(o) => Run(CallWorld(q, o), limit, CallStart(q, o))
  }

  /** A call made on the interpreter object. */
  method Perform(q: Request, limit: u64) returns (r: Result<Outcome, Fault>)
    ensures match RunCall(q, limit)
            case Halts(final) =>
              r == Ok(Outcome(final.c.m.regs, final.used, final.storage, final.c.dirty, |final.loaded|, final.c.effects))
            case Faults(f) => r == Err(f)
  {
    hide OpenForEntry, OpenForGenesis, Run;
    var entry;
    if q.door.ToEntry? {
      entry := Interpreter.OpenFor(q.prims, q.container, q.door.selector, limit);
    } else {
      entry := Interpreter.OpenGenesis(q.prims, q.container, limit);
    }
    if entry.Err? {
      return Err(entry.error);
    }
    var interp := entry.value;
    interp.WithStorage(q.storage);
    if q.loader.Some? {
      interp.WithLoader(q.loader.value);
    }
    interp.WithMemory(q.data);
    r := interp.Execute();
  }

  /** The exact meter threshold of a whole call, opening included. */
  lemma CallThreshold(q: Request, limit: u64, other: u64)
    ensures var r := RunCall(q, limit);
            && (r.Halts? ==> RunCall(q, other) == if other >= r.final.used then r else Faults(OutOfMeter))
            && (r.Faults? && r != Faults(OutOfMeter) && other >= limit ==> RunCall(q, other) == r)
  {
    hide Opening, Run;
    OpenLimit(q.prims, q.container, q.door, limit, other);
    match Open(q, limit)
    case Err(_) =>
    case Ok(o) => ExactThreshold(CallWorld(q, o), limit, other, CallStart(q, o));
  }

  /** A run that faults does so at the end of its trace, in a way a deployed container can. */
  predicate FaultsSafely(w: World, limit: u64, s: Config) {
    Run(w, limit, s).Faults? ==> ExpectedFault(w, Last(Trace(w, limit, s)).c, Run(w, limit, s).fault)
  }

  /** No call into a deployed container is refused as malformed, and no run it opens faults with a
      missing constant, with a bad jump but from `Ret`, or with an undecodable instruction but by
      running off the end of the code. */
  lemma CallIsSafe(q: Request, limit: u64)
    requires Deployable(q.container)
    ensures match Open(q, limit)
            case Err(f) => f == UnknownSelector || f == OutOfMeter
            case Ok(o) => FaultsSafely(CallWorld(q, o), limit, CallStart(q, o))
  {
    hide Opening, OpenEntry, Deployable, Next, OnSweep, Run, ExpectedFault, SelectorOf, EntryOffset, Trace;
    OpenFaults(q.prims, q.container, q.door, limit);
    OpeningIs(q.prims, q.container, q.door, limit);
    OpeningAgrees(q.container, Asked(q.prims, q.door), limit);
    var r := Open(q, limit);
    if r.Ok? && RunCall(q, limit).Faults? {
      var w, s := CallWorld(q, r.value), CallStart(q, r.value);
      OpenedIsOnSweep(q.container, Asked(q.prims, q.door), limit);
      TraceIsRun(w, limit, s);
      var t := Trace(w, limit, s);
      CrashedRun(w, limit, t);
      VerifiedRunsSafely(w, limit, t, q.container);
    }
  }

  lemma CrashedRun(w: World, limit: nat, t: seq<Config>)
    requires t != [] && !Next(w, limit, Last(t)).More? && Run(w, limit, Last(t)).Faults?
    ensures Next(w, limit, Last(t)) == Crash(Run(w, limit, Last(t)).fault)
  {
    hide Next;
  }

  /** The bill of a run that halts: what it started with, the prices of what was executed, one leaf
      price per paying store, and what its effects and authorisations owe. */
  predicate Billed(w: World, limit: u64, s: Config) {
    Run(w, limit, s).Halts? ==>
      var f, t := Run(w, limit, s).final, Trace(w, limit, s);
      && Booked(f.c)
      && f.used == s.used + RunPrice(w, t) + 227_000 * RunLeaves(w, t) + Bill(f.c)
  }

  /** The meter ledger of a call: every run it opens starts from the dispatch and code-scan price
      and is billed. */
  lemma CallLedger(q: Request, limit: u64)
    ensures match Open(q, limit)
            case Err(_) => RunCall(q, limit).Faults?
            case Ok(o) =>
              && CallStart(q, o).used == 4 + 9 * |q.container.code|
              && Billed(CallWorld(q, o), limit, CallStart(q, o))
  {
    hide Opening, Run, Booked, Bill, RunPrice, RunLeaves, Trace;
    OpenFaults(q.prims, q.container, q.door, limit);
    var r := Open(q, limit);
    if r.Ok? && RunCall(q, limit).Halts? {
      OutcomeLedger(CallWorld(q, r.value), limit, CallStart(q, r.value));
    }
  }

  /** A run that halts changes the row at a key only if the key is a declared scalar write or the
      digest of a preimage the run hashed under a declared keyed-write base. */
  ghost predicate Confined(w: World, limit: u64, s: Config, k: Key)
    requires w.manifest.Some?
  {
    Run(w, limit, s).Halts? && View(w, Run(w, limit, s).final, k) != View(w, s, k) ==>
      k in w.manifest.value.scalarWrites || WriteDigest(w, RunHashes(w, Trace(w, limit, s)), k)
  }

  /** Write confinement of a call: every run it opens is confined to the manifest of its entry. */
  lemma CallConfinesWrites(q: Request, limit: u64, k: Key)
    ensures match Open(q, limit)
            case Err(_) => RunCall(q, limit).Faults?
            case Ok(o) => Confined(CallWorld(q, o), limit, CallStart(q, o), k)
  {
    hide Opening, Run, RunHashes, Next, WriteDigest;
    var r := Open(q, limit);
    if r.Ok? && RunCall(q, limit).Halts? {
      var w, s := CallWorld(q, r.value), CallStart(q, r.value);
      OutcomeIsLast(w, limit, s);
      var t := Trace(w, limit, s);
      if View(w, RunCall(q, limit).final, k) != View(w, s, k) {
        WriteConfinement(w, limit, t, k);
      }
    }
  }

  // ---- Calls over one host store ----

  /** A call as a host makes it over its store: it attaches fixed storage over the rows it preloads
      from the store, and a loader for the rest when it is lazy. */
  datatype HostCall = HostCall(
    prims: Prims,
    container: Container,
    door: Door,
    data: seq<byte>,
    limit: u64,
    storage: map<Key, u64>,
    preload: set<Key>,
    lazy: bool)
  {
    function Over(store: Key -> u64): Request {
      Request(prims, container, door, Preloaded(store, preload) + storage,
              if lazy then Some(store) else None, data)
    }

    function Result(store: Key -> u64): RunResult {
      RunCall(Over(store), limit)
    }

    /** The store after the call: its dirty rows committed when it halts. */
    function After(store: Key -> u64): Key -> u64 {
      Settle(Result(store), store)
    }

    function Access(): StateAccess {
      Declares(prims, container, door)
    }

    /** The job the call is. */
    function AsJob(): Job {
      match Opening(prims, container, door, limit)
      case Err(f) => Refused(f)
      case Ok(o) =>
        Job(World(container.code, container.consts, prims, Some(o.manifest), None), limit,
            FreshCtl(WithData(FreshMach(o.offset), data)), o.used, storage, preload, lazy)
    }
  }

  /** A call over a host store is a job over that store, whatever it is given, so the results on
      scheduling jobs are about calls. */
  lemma CallIsJob(h: HostCall, store: Key -> u64)
    ensures h.AsJob().Ready()
    ensures h.AsJob().Result(store) == h.Result(store)
    ensures h.AsJob().Commit(store) == h.After(store)
    ensures h.AsJob().Job? ==> h.AsJob().w.prims == h.prims && h.AsJob().w.manifest == Some(ManifestOf(h.Access()))
  {
    hide Opening, Run, WithData, Settle, Declares, ManifestOf, Preloaded;
    if h.AsJob().Job? {
      OpenedManifest(h.prims, h.container, h.door, h.limit);
    }
  }

  /** Calls over one set of primitives to entries whose declared lists do not conflict. */
  ghost predicate CallsUnrelated(a: HostCall, b: HostCall) {
    a.prims == b.prims && ListsUnrelated(a.Access(), b.Access())
  }

  lemma CallsAreUnrelatedJobs(a: HostCall, b: HostCall, store: Key -> u64)
    requires CallsUnrelated(a, b)
    ensures a.AsJob().Ready() && b.AsJob().Ready() && JobsUnrelated(a.AsJob(), b.AsJob())
  {
    hide HostCall.AsJob, HostCall.Access, ListsUnrelated, Unrelated, ManifestOf;
    CallIsJob(a, store);
    CallIsJob(b, store);
    ListsDecide(a.Access(), b.Access());
  }

  /** Calls whose entries declare lists that do not conflict can be run in either order: each gives
      exactly the result it gives on its own, and the store ends the same, unless a meeting is
      shown. */
  lemma CallsCommute(a: HostCall, b: HostCall, store: Key -> u64) returns (m: Meeting)
    requires CallsUnrelated(a, b)
    ensures a.AsJob().Ready() && b.AsJob().Ready() && Shown(m, a.AsJob(), b.AsJob(), store)
    ensures m.Never? ==>
              && a.Result(b.After(store)) == a.Result(store)
              && b.Result(a.After(store)) == b.Result(store)
              && forall k :: b.After(a.After(store))(k) == a.After(b.After(store))(k)
  {
    hide CallsUnrelated, Shown, JobsUnrelated, HostCall.AsJob, HostCall.Result, HostCall.After,
      Job.Result, Job.Commit, Job.Ready;
    CallsAreUnrelatedJobs(a, b, store);
    CallIsJob(a, store);
    CallIsJob(b, store);
    CallIsJob(a, b.After(store));
    CallIsJob(b, a.After(store));
    m := UnrelatedJobsCommute(a.AsJob(), b.AsJob(), store);
  }

  // ---- Schedules of calls ----

  /** The store after making calls one after another. */
  function AfterAll(calls: seq<HostCall>, store: Key -> u64): Key -> u64
    decreases |calls|
  {
    if calls == [] then store
    else calls[|calls| - 1].After(AfterAll(calls[..|calls| - 1], store))
  }

  function AsJobs(calls: seq<HostCall>): (r: seq<Job>)
    ensures |r| == |calls| && forall i | 0 <= i < |calls| :: r[i] == calls[i].AsJob()
  {
    seq(|calls|, i requires 0 <= i < |calls| => calls[i].AsJob())
  }

  lemma {:induction false} AfterAllIsInTurn(calls: seq<HostCall>, store: Key -> u64)
    ensures AfterAll(calls, store) == InTurn(AsJobs(calls), store)
    decreases |calls|
  {
    hide HostCall.AsJob, HostCall.After, Job.Commit;
    if calls != [] {
      var rest := calls[..|calls| - 1];
      AfterAllIsInTurn(rest, store);
      assert AsJobs(calls)[..|calls| - 1] == AsJobs(rest);
      CallIsJob(calls[|calls| - 1], AfterAll(rest, store));
    }
  }

  /** What a schedule promises: every call gives the result it gives alone on the first store; a row
      a call writes alone ends with the value it gives it; and every other row is kept. */
  ghost predicate Parallel(calls: seq<HostCall>, order: seq<nat>, store: Key -> u64)
    requires IsOrder(order, |calls|)
  {
    var run := Ordered(calls, order);
    && (forall i | 0 <= i < |run| :: run[i].Result(AfterAll(run[..i], store)) == run[i].Result(store))
    && (forall i, k | 0 <= i < |calls| && k in calls[i].AsJob().Dirty(store) ::
          AfterAll(run, store)(k) == calls[i].After(store)(k))
    && (forall k | (forall i | 0 <= i < |calls| :: k !in calls[i].AsJob().Dirty(store)) ::
          AfterAll(run, store)(k) == store(k))
  }

  /** Declared lists are enough to schedule any number of calls: if no two conflict, every order gives
      every call the result it gives alone, and the store is the merge of what each call writes
      alone; unless two of the calls meet, which is then shown. */
  lemma CallsParallel(calls: seq<HostCall>, order: seq<nat>, store: Key -> u64)
    returns (m: Meeting, i: nat, j: nat)
    requires IsOrder(order, |calls|)
    requires forall x, y | 0 <= x < y < |calls| :: CallsUnrelated(calls[x], calls[y])
    ensures m.Never? ==> Parallel(calls, order, store)
    ensures !m.Never? ==>
              && i < j < |calls| && calls[i].AsJob().Ready() && calls[j].AsJob().Ready()
              && Shown(m, calls[i].AsJob(), calls[j].AsJob(), store)
  {
    hide CallsUnrelated, JobsUnrelated, Shown, HostCall.AsJob, HostCall.Result, HostCall.After,
      Job.Ready, Job.Dirty, Job.Result, Job.Commit, Disjoint;
    var jobs := AsJobs(calls);
    forall x | 0 <= x < |calls| ensures jobs[x].Ready() {
      CallIsJob(calls[x], store);
    }
    forall x, y | 0 <= x < y < |jobs| ensures JobsUnrelated(jobs[x], jobs[y]) {
      CallsAreUnrelatedJobs(calls[x], calls[y], store);
    }
    m, i, j := UnrelatedJobsMeeting(jobs, store);
    if m.Never? {
      ParallelFromJobs(calls, order, store);
    }
  }

  lemma ParallelFromJobs(calls: seq<HostCall>, order: seq<nat>, store: Key -> u64)
    requires IsOrder(order, |calls|)
    requires AllReady(AsJobs(calls)) && AllDisjoint(AsJobs(calls), store)
    ensures Parallel(calls, order, store)
  {
    hide HostCall.AsJob, HostCall.Result, HostCall.After, Job.Ready, Job.Dirty, Job.Result,
      Job.Commit, Disjoint, MergedAt, InTurn, AfterAll;
    var jobs, run := AsJobs(calls), Ordered(calls, order);
    DisjointJobsSerialise(jobs, order, store);
    assert AsJobs(run) == Ordered(jobs, order);
    forall i | 0 <= i < |run| ensures run[i].Result(AfterAll(run[..i], store)) == run[i].Result(store) {
      AfterAllIsInTurn(run[..i], store);
      assert AsJobs(run[..i]) == Ordered(jobs, order)[..i];
      CallIsJob(run[i], AfterAll(run[..i], store));
      CallIsJob(run[i], store);
    }
    AfterAllIsInTurn(run, store);
    forall k ensures AfterAll(run, store)(k) == MergedAt(jobs, store, k) {
    }
    forall i, k | 0 <= i < |calls| && k in calls[i].AsJob().Dirty(store)
      ensures AfterAll(run, store)(k) == calls[i].After(store)(k)
    {
      MergeTakes(jobs, store, k);
      CallIsJob(calls[i], store);
    }
    forall k | (forall i | 0 <= i < |calls| :: k !in calls[i].AsJob().Dirty(store))
      ensures AfterAll(run, store)(k) == store(k)
    {
      MergeTakes(jobs, store, k);
    }
  }
}
