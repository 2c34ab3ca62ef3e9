/** The memory limit under concurrency: writers on different shards check and charge one shared counter without
    a common lock. Each step below is one access to that counter, made while holding the shard's lock. */
module MemoryBound {
  import opened Machine
  import opened Keyspace
  import opened Accounting
  import opened Engine

  /** Where the holder of a shard's lock is: `need` is what eviction must still free. */
  datatype Phase =
    | Free
    | Evicting(key: string, entry: Entry, oldCost: nat, need: nat)
    | Charged(key: string, entry: Entry, oldCost: nat)

  /** `lost` adds up what writes that evicted their own key have given back twice. */
  datatype System = System(shards: seq<Dict>, counter: nat, writers: seq<Phase>, lost: nat)

  /** `Begin` locks the shard, finds the old entry and reads the counter; `EvictOne` is a round of eviction;
      `GiveUp` is the refusal of a write; `Charge` adds the difference; `Commit` stores the entry and unlocks.
      `Erase` is a deletion, a lazy expiry or a sweep; `Refresh` changes times only. */
  datatype Step =
    | Begin(shard: nat, key: string, entry: Entry)
    | EvictOne(shard: nat, victim: string)
    | GiveUp(shard: nat)
    | Charge(shard: nat)
    | Commit(shard: nat)
    | Erase(shard: nat, victim: string)
    | Refresh(shard: nat, key: string, entry: Entry)

  predicate Enabled(cfg: Config, sys: System, s: Step) {
    && s.shard < |sys.shards| == |sys.writers|
    && var d, w := sys.shards[s.shard], sys.writers[s.shard];
       match s
       case Begin(i, key, _) => w.Free? && cfg.Index(key) == i
       case EvictOne(_, victim) => w.Evicting? && w.need > 0 && victim in d
       case GiveUp(_) => w.Evicting? && w.need > 0 && d == map[]
       case Charge(_) => w.Evicting? && w.need == 0
       case Commit(_) => w.Charged?
       case Erase(_, victim) => w.Free? && victim in d
       case Refresh(_, key, e) => w.Free? && key in d && e.value == d[key].value
  }

  function Take(cfg: Config, sys: System, limit: nat, s: Step): System
    requires Enabled(cfg, sys, s)
  {
    var i, d, w := s.shard, sys.shards[s.shard], sys.writers[s.shard];
    match s
    case Begin(_, key, e) =>
      var before := cfg.OldCost(d, key);
      var need := Shortfall(sys.counter, cfg.Cost(key, e.value), before, limit);
      sys.(writers := sys.writers[i := Evicting(key, e, before, need)])
    case EvictOne(_, v) =>
      var cost := cfg.Cost(v, d[v].value);
      sys.(shards := sys.shards[i := d - {v}], counter := Wrap(sys.counter - cost),
           writers := sys.writers[i := w.(need := if cost < w.need then w.need - cost else 0)])
    case GiveUp(_) => sys.(writers := sys.writers[i := Free])
    case Charge(_) =>
      sys.(counter := Wrap(sys.counter + cfg.Cost(w.key, w.entry.value) - w.oldCost),
           writers := sys.writers[i := Charged(w.key, w.entry, w.oldCost)])
    case Commit(_) =>
      sys.(shards := sys.shards[i := d[w.key := w.entry]], writers := sys.writers[i := Free],
           lost := sys.lost + if w.key in d then 0 else w.oldCost)
    case Erase(_, v) => sys.(shards := sys.shards[i := d - {v}], counter := Wrap(sys.counter - cfg.Cost(v, d[v].value)))
    case Refresh(_, key, e) => sys.(shards := sys.shards[i := d[key := e]])
  }

  /** What a step puts onto the counter. */
  function Change(cfg: Config, sys: System, s: Step): int
    requires Enabled(cfg, sys, s)
  {
    match s
    case EvictOne(i, v) => 0 - cfg.Cost(v, sys.shards[i][v].value)
    case Erase(i, v) => 0 - cfg.Cost(v, sys.shards[i][v].value)
    case Charge(i) => cfg.Cost(sys.writers[i].key, sys.writers[i].entry.value) - sys.writers[i].oldCost
    case _ => 0
  }

  /** The step takes more from the counter than it shows. */
  predicate Underflows(cfg: Config, sys: System, s: Step)
    requires Enabled(cfg, sys, s)
  {
    sys.counter + Change(cfg, sys, s) < 0
  }

  // ---------- sums over the writers ----------

  /** What a writer has charged for but not stored yet. */
  function Ahead(cfg: Config, w: Phase): int {
    if w.Charged? then cfg.Cost(w.key, w.entry.value) - w.oldCost else 0
  }

  /** What a writer may still add to the counter, beyond what its eviction still owes. */
  function Pending(cfg: Config, w: Phase): nat {
    if w.Evicting? && cfg.Cost(w.key, w.entry.value) - w.oldCost - w.need > 0
    then cfg.Cost(w.key, w.entry.value) - w.oldCost - w.need else 0
  }

  function SumAhead(cfg: Config, ws: seq<Phase>): int {
    if ws == [] then 0 else Ahead(cfg, ws[0]) + SumAhead(cfg, ws[1..])
  }

  function SumPending(cfg: Config, ws: seq<Phase>): nat {
    if ws == [] then 0 else Pending(cfg, ws[0]) + SumPending(cfg, ws[1..])
  }

  lemma {:induction false} SumsUpdate(cfg: Config, ws: seq<Phase>, i: nat, w: Phase)
    requires i < |ws|
    ensures SumAhead(cfg, ws[i := w]) == SumAhead(cfg, ws) - Ahead(cfg, ws[i]) + Ahead(cfg, w)
    ensures SumPending(cfg, ws[i := w]) == SumPending(cfg, ws) - Pending(cfg, ws[i]) + Pending(cfg, w)
    decreases |ws|
  {
    if i == 0 {
      assert ws[i := w][1..] == ws[1..];
    } else {
      assert ws[i := w][1..] == ws[1..][i - 1 := w];
      SumsUpdate(cfg, ws[1..], i - 1, w);
    }
  }

  /** Each writer's pending part is at most one entry. */
  predicate AllCheap(cfg: Config, ws: seq<Phase>, most: nat) {
    forall i :: 0 <= i < |ws| && !ws[i].Free? ==> cfg.Cost(ws[i].key, ws[i].entry.value) <= most
  }

  lemma {:induction false} PendingBound(cfg: Config, ws: seq<Phase>, most: nat)
    requires AllCheap(cfg, ws, most)
    ensures SumPending(cfg, ws) <= |ws| * most
    decreases |ws|
  {
    if ws != [] {
      PendingBound(cfg, ws[1..], most);
      assert |ws| * most == |ws[1..]| * most + most;
    }
  }

  /** With one shard free, the others hold at most one entry each. */
  lemma PendingBoundBut(cfg: Config, ws: seq<Phase>, i: nat, most: nat)
    requires AllCheap(cfg, ws, most) && i < |ws| && ws[i].Free?
    ensures SumPending(cfg, ws) <= (|ws| - 1) * most
  {
    var others := ws[..i] + ws[i + 1..];
    PendingBound(cfg, others, most);
    PendingSplit(cfg, ws, i);
  }

  lemma {:induction false} PendingSplit(cfg: Config, ws: seq<Phase>, i: nat)
    requires i < |ws|
    ensures SumPending(cfg, ws) == SumPending(cfg, ws[..i] + ws[i + 1..]) + Pending(cfg, ws[i])
    decreases |ws|
  {
    if i == 0 {
      assert ws[..0] + ws[1..] == ws[1..];
    } else {
      assert (ws[..i] + ws[i + 1..])[1..] == ws[1..][..i - 1] + ws[1..][i..];
      PendingSplit(cfg, ws[1..], i - 1);
    }
  }

  // ---------- the invariant ----------

  predicate CheapStore(cfg: Config, shards: seq<Dict>, most: nat) {
    forall i, k :: 0 <= i < |shards| && k in shards[i] ==> cfg.Cost(k, shards[i][k].value) <= most
  }

  /** A writer remembers the cost of the entry it is going to replace, as long as that is there. */
  predicate Remembers(cfg: Config, d: Dict, w: Phase, most: nat) {
    !w.Free? ==> w.oldCost <= most && (w.key in d ==> w.oldCost == cfg.OldCost(d, w.key))
  }

  ghost predicate AllRemember(cfg: Config, shards: seq<Dict>, ws: seq<Phase>, most: nat) {
    |ws| == |shards| && forall i :: 0 <= i < |shards| ==> Remembers(cfg, shards[i], ws[i], most)
  }

  ghost predicate Consistent(cfg: Config, sys: System, most: nat) {
    && |sys.writers| == |sys.shards| == cfg.numShards && cfg.numShards > 0
    && CheapStore(cfg, sys.shards, most) && AllCheap(cfg, sys.writers, most)
    && AllRemember(cfg, sys.shards, sys.writers, most)
  }

  /** What all entries cost, with the writers that charged before they stored. */
  ghost function Exact(cfg: Config, shards: seq<Dict>, ws: seq<Phase>): int {
    SumTotals(cfg.capacity, shards) + SumAhead(cfg, ws)
  }

  /** What the counter would show if it could go below zero. */
  ghost function Balance(cfg: Config, sys: System): int {
    Exact(cfg, sys.shards, sys.writers) - sys.lost
  }

  /** No more was given back twice than is held. */
  ghost predicate Solvent(cfg: Config, sys: System) {
    sys.lost <= Exact(cfg, sys.shards, sys.writers)
  }

  /** The limit and one entry for every shard but one. */
  function Bound(cfg: Config, limit: nat, most: nat): int {
    limit + (cfg.numShards - 1) * most
  }

  /** The inductive invariant: the counter is the balance, and even with every pending part added it is within
      the bound. */
  ghost predicate Inv(cfg: Config, sys: System, limit: nat, most: nat) {
    && Consistent(cfg, sys, most)
    && sys.counter == Balance(cfg, sys)
    && sys.counter + SumPending(cfg, sys.writers) <= Bound(cfg, limit, most)
  }

  /** Every entry written costs at most `most`. */
  predicate Cheap(cfg: Config, s: Step, most: nat) {
    s.Begin? ==> cfg.Cost(s.key, s.entry.value) <= most
  }

  /** Nothing wraps upwards: the bound stays one entry below 2^64. */
  predicate Roomy(cfg: Config, limit: nat, most: nat) {
    limit > 0 && cfg.numShards > 0 && Bound(cfg, limit, most) + most <= UINT64_MAX
  }

  lemma MostIsWithin(cfg: Config, limit: nat, most: nat)
    requires Roomy(cfg, limit, most)
    ensures limit + most <= UINT64_MAX && limit <= Bound(cfg, limit, most)
  {
    Product(cfg.numShards - 1, most);
  }

  lemma Product(a: nat, b: nat)
    ensures a * b >= 0
  {
  }

  // ---------- one step ----------

  /** What a step does to the balance and to the counter. */
  ghost predicate Moved(cfg: Config, sys: System, next: System, limit: nat, most: nat, delta: int) {
    && Consistent(cfg, next, most) && 0 - most <= delta
    && Balance(cfg, next) == Balance(cfg, sys) + delta && next.counter == Wrap(sys.counter + delta)
    && sys.counter + delta + SumPending(cfg, next.writers) <= Bound(cfg, limit, most)
  }

  lemma BeginMoves(cfg: Config, sys: System, limit: nat, most: nat, i: nat, key: string, e: Entry)
    requires Roomy(cfg, limit, most) && Inv(cfg, sys, limit, most)
    requires Enabled(cfg, sys, Begin(i, key, e)) && cfg.Cost(key, e.value) <= most
    ensures Moved(cfg, sys, Take(cfg, sys, limit, Begin(i, key, e)), limit, most, 0)
  {
    var next := Take(cfg, sys, limit, Begin(i, key, e));
    var before, cost := cfg.OldCost(sys.shards[i], key), cfg.Cost(key, e.value);
    assert before <= most;
    PendingBoundBut(cfg, sys.writers, i, most);
    SumsUpdate(cfg, sys.writers, i, next.writers[i]);
    MostIsWithin(cfg, limit, most);
    ShortfallIsExcess(sys.counter, cost, before, limit);
  }

  lemma RememberLess(cfg: Config, shards: seq<Dict>, ws: seq<Phase>, most: nat, i: nat, v: string, w: Phase)
    requires AllRemember(cfg, shards, ws, most) && i < |shards|
    requires !w.Free? ==> !ws[i].Free? && w.key == ws[i].key && w.oldCost == ws[i].oldCost
    ensures AllRemember(cfg, shards[i := shards[i] - {v}], ws[i := w], most)
  {
    var less, ws' := shards[i := shards[i] - {v}], ws[i := w];
    forall j | 0 <= j < |less| ensures Remembers(cfg, less[j], ws'[j], most) {
      assert Remembers(cfg, shards[j], ws[j], most);
    }
  }

  lemma TotalsLess(cfg: Config, shards: seq<Dict>, i: nat, v: string)
    requires i < |shards| && v in shards[i]
    ensures SumTotals(cfg.capacity, shards[i := shards[i] - {v}]) ==
            SumTotals(cfg.capacity, shards) - cfg.Cost(v, shards[i][v].value)
  {
    TotalWithout(cfg.capacity, shards[i], v);
    SumTotalsUpdate(cfg.capacity, shards, i, shards[i] - {v});
  }

  lemma CheapStoreLess(cfg: Config, shards: seq<Dict>, most: nat, i: nat, v: string)
    requires CheapStore(cfg, shards, most) && i < |shards|
    ensures CheapStore(cfg, shards[i := shards[i] - {v}], most)
  {
  }

  lemma EvictMoves(cfg: Config, sys: System, limit: nat, most: nat, i: nat, v: string)
    requires Inv(cfg, sys, limit, most) && Enabled(cfg, sys, EvictOne(i, v))
    ensures Moved(cfg, sys, Take(cfg, sys, limit, EvictOne(i, v)), limit, most, 0 - cfg.Cost(v, sys.shards[i][v].value))
  {
    var next := Take(cfg, sys, limit, EvictOne(i, v));
    RememberLess(cfg, sys.shards, sys.writers, most, i, v, next.writers[i]);
    CheapStoreLess(cfg, sys.shards, most, i, v);
    TotalsLess(cfg, sys.shards, i, v);
    SumsUpdate(cfg, sys.writers, i, next.writers[i]);
  }

  lemma EraseMoves(cfg: Config, sys: System, limit: nat, most: nat, i: nat, v: string)
    requires Inv(cfg, sys, limit, most) && Enabled(cfg, sys, Erase(i, v))
    ensures Moved(cfg, sys, Take(cfg, sys, limit, Erase(i, v)), limit, most, 0 - cfg.Cost(v, sys.shards[i][v].value))
  {
    RememberLess(cfg, sys.shards, sys.writers, most, i, v, Free);
    assert sys.writers[i := Free] == sys.writers;
    CheapStoreLess(cfg, sys.shards, most, i, v);
    TotalsLess(cfg, sys.shards, i, v);
  }

  lemma ChargeMoves(cfg: Config, sys: System, limit: nat, most: nat, i: nat)
    requires Inv(cfg, sys, limit, most) && Enabled(cfg, sys, Charge(i))
    ensures var w := sys.writers[i];
            Moved(cfg, sys, Take(cfg, sys, limit, Charge(i)), limit, most, cfg.Cost(w.key, w.entry.value) - w.oldCost)
  {
    var next := Take(cfg, sys, limit, Charge(i));
    SumsUpdate(cfg, sys.writers, i, next.writers[i]);
    assert Remembers(cfg, sys.shards[i], sys.writers[i], most);
    assert AllRemember(cfg, next.shards, next.writers, most) by {
      assert forall j :: 0 <= j < |next.writers| ==> Remembers(cfg, sys.shards[j], sys.writers[j], most);
    }
  }

  lemma CommitMoves(cfg: Config, sys: System, limit: nat, most: nat, i: nat)
    requires Roomy(cfg, limit, most) && Inv(cfg, sys, limit, most) && Enabled(cfg, sys, Commit(i))
    ensures Moved(cfg, sys, Take(cfg, sys, limit, Commit(i)), limit, most, 0)
  {
    var next, w := Take(cfg, sys, limit, Commit(i)), sys.writers[i];
    assert Remembers(cfg, sys.shards[i], w, most);
    SumsUpdate(cfg, sys.writers, i, Free);
    TotalPut(cfg.capacity, sys.shards[i], w.key, w.entry);
    SumTotalsUpdate(cfg.capacity, sys.shards, i, next.shards[i]);
    CommitIsConsistent(cfg, sys, limit, most, i);
  }

  lemma CommitIsConsistent(cfg: Config, sys: System, limit: nat, most: nat, i: nat)
    requires Consistent(cfg, sys, most) && Enabled(cfg, sys, Commit(i))
    ensures Consistent(cfg, Take(cfg, sys, limit, Commit(i)), most)
  {
    var next := Take(cfg, sys, limit, Commit(i));
    forall j | 0 <= j < |next.shards| ensures Remembers(cfg, next.shards[j], next.writers[j], most) {
      assert Remembers(cfg, sys.shards[j], sys.writers[j], most);
    }
  }

  lemma GiveUpMoves(cfg: Config, sys: System, limit: nat, most: nat, i: nat)
    requires Roomy(cfg, limit, most) && Inv(cfg, sys, limit, most) && Enabled(cfg, sys, GiveUp(i))
    ensures Moved(cfg, sys, Take(cfg, sys, limit, GiveUp(i)), limit, most, 0)
  {
    SumsUpdate(cfg, sys.writers, i, Free);
  }

  lemma RefreshMoves(cfg: Config, sys: System, limit: nat, most: nat, i: nat, key: string, e: Entry)
    requires Roomy(cfg, limit, most) && Inv(cfg, sys, limit, most) && Enabled(cfg, sys, Refresh(i, key, e))
    ensures Moved(cfg, sys, Take(cfg, sys, limit, Refresh(i, key, e)), limit, most, 0)
  {
    TotalPut(cfg.capacity, sys.shards[i], key, e);
    SumTotalsUpdate(cfg.capacity, sys.shards, i, sys.shards[i][key := e]);
  }

  lemma StepMoves(cfg: Config, sys: System, limit: nat, most: nat, s: Step)
    requires Roomy(cfg, limit, most) && Inv(cfg, sys, limit, most) && Enabled(cfg, sys, s) && Cheap(cfg, s, most)
    ensures Moved(cfg, sys, Take(cfg, sys, limit, s), limit, most, Change(cfg, sys, s))
  {
    match s
    case Begin(i, key, e) => BeginMoves(cfg, sys, limit, most, i, key, e);
    case EvictOne(i, v) => EvictMoves(cfg, sys, limit, most, i, v);
    case GiveUp(i) => GiveUpMoves(cfg, sys, limit, most, i);
    case Charge(i) => ChargeMoves(cfg, sys, limit, most, i);
    case Commit(i) => CommitMoves(cfg, sys, limit, most, i);
    case Erase(i, v) => EraseMoves(cfg, sys, limit, most, i, v);
    case Refresh(i, key, e) => RefreshMoves(cfg, sys, limit, most, i, key, e);
  }

  lemma WrapsBelowZero(x: int)
    requires 0 - WORD <= x <= UINT64_MAX
    ensures Wrap(x) == if x < 0 then x + WORD else x
  {
  }

  /** A step keeps the invariant unless it underflows; then the bound is broken, and more was given back twice than
      is held. */
  lemma StepKeeps(cfg: Config, sys: System, limit: nat, most: nat, s: Step)
    requires Roomy(cfg, limit, most) && Inv(cfg, sys, limit, most) && Enabled(cfg, sys, s) && Cheap(cfg, s, most)
    ensures !Underflows(cfg, sys, s) ==> Inv(cfg, Take(cfg, sys, limit, s), limit, most)
    ensures Underflows(cfg, sys, s) ==> Take(cfg, sys, limit, s).counter > Bound(cfg, limit, most)
    ensures Underflows(cfg, sys, s) <==> !Solvent(cfg, Take(cfg, sys, limit, s))
  {
    StepMoves(cfg, sys, limit, most, s);
    WrapsBelowZero(sys.counter + Change(cfg, sys, s));
  }

  // ---------- runs ----------

  ghost predicate IsRun(cfg: Config, limit: nat, trace: seq<System>, steps: seq<Step>) {
    && |trace| == |steps| + 1
    && forall i :: 0 <= i < |steps| ==>
         Enabled(cfg, trace[i], steps[i]) && trace[i + 1] == Take(cfg, trace[i], limit, steps[i])
  }

  ghost predicate CheapRun(cfg: Config, steps: seq<Step>, most: nat) {
    forall i :: 0 <= i < |steps| ==> Cheap(cfg, steps[i], most)
  }

  function Empty(cfg: Config): System {
    System(seq(cfg.numShards, _ => map[]), 0, seq(cfg.numShards, _ => Free), 0)
  }

  lemma {:induction false} EmptySums(cfg: Config, shards: seq<Dict>, ws: seq<Phase>)
    requires |shards| == |ws| && forall i :: 0 <= i < |ws| ==> shards[i] == map[] && ws[i] == Free
    ensures Exact(cfg, shards, ws) == 0 && SumPending(cfg, ws) == 0
    decreases |ws|
  {
    if ws != [] {
      EmptySums(cfg, shards[1..], ws[1..]);
    }
  }

  lemma EmptyIsFine(cfg: Config, limit: nat, most: nat)
    requires Roomy(cfg, limit, most)
    ensures Inv(cfg, Empty(cfg), limit, most)
  {
    EmptySums(cfg, Empty(cfg).shards, Empty(cfg).writers);
    MostIsWithin(cfg, limit, most);
  }

  /** All interleavings of writers, deleters and the sweeper from an empty store. */
  ghost predicate Starts(cfg: Config, limit: nat, most: nat, trace: seq<System>, steps: seq<Step>) {
    && Roomy(cfg, limit, most) && IsRun(cfg, limit, trace, steps) && trace[0] == Empty(cfg)
    && CheapRun(cfg, steps, most)
  }

  /** No access among the first `n` takes more from the counter than it shows. */
  ghost predicate NoUnderflow(cfg: Config, trace: seq<System>, steps: seq<Step>, n: nat) {
    forall i :: 0 <= i < n && i < |steps| && i < |trace| ==>
      Enabled(cfg, trace[i], steps[i]) && !Underflows(cfg, trace[i], steps[i])
  }

  lemma {:induction false} RunIsBounded(cfg: Config, limit: nat, most: nat, trace: seq<System>, steps: seq<Step>,
                                        n: nat)
    requires Starts(cfg, limit, most, trace, steps) && n < |trace| && NoUnderflow(cfg, trace, steps, n)
    ensures Inv(cfg, trace[n], limit, most)
  {
    if n == 0 {
      EmptyIsFine(cfg, limit, most);
    } else {
      RunIsBounded(cfg, limit, most, trace, steps, n - 1);
      StepKeeps(cfg, trace[n - 1], limit, most, steps[n - 1]);
    }
  }

  lemma {:induction false} BoundedRunIsSolvent(cfg: Config, limit: nat, most: nat, trace: seq<System>,
                                               steps: seq<Step>, n: nat)
    requires Starts(cfg, limit, most, trace, steps) && n < |trace|
    requires forall m :: 0 <= m <= n ==> trace[m].counter <= Bound(cfg, limit, most)
    ensures Inv(cfg, trace[n], limit, most) && NoUnderflow(cfg, trace, steps, n)
  {
    if n == 0 {
      EmptyIsFine(cfg, limit, most);
    } else {
      BoundedRunIsSolvent(cfg, limit, most, trace, steps, n - 1);
      StepKeeps(cfg, trace[n - 1], limit, most, steps[n - 1]);
    }
  }

  /** In every interleaving, the counter stays within the limit and one entry for every shard but one if and only if
      no access takes more from it than it shows: the first that does breaks the bound. */
  lemma BoundHoldsUntilUnderflow(cfg: Config, limit: nat, most: nat, trace: seq<System>, steps: seq<Step>, n: nat)
    requires Starts(cfg, limit, most, trace, steps) && n < |trace|
    ensures (forall m :: 0 <= m <= n ==> trace[m].counter <= Bound(cfg, limit, most)) <==>
            (forall i :: 0 <= i < n ==> !Underflows(cfg, trace[i], steps[i]))
  {
    if forall i :: 0 <= i < n ==> !Underflows(cfg, trace[i], steps[i]) {
      forall m | 0 <= m <= n ensures trace[m].counter <= Bound(cfg, limit, most) {
        RunIsBounded(cfg, limit, most, trace, steps, m);
        InvIsSolvent(cfg, trace[m], limit, most);
      }
    }
    if forall m :: 0 <= m <= n ==> trace[m].counter <= Bound(cfg, limit, most) {
      BoundedRunIsSolvent(cfg, limit, most, trace, steps, n);
    }
  }

  lemma InvIsSolvent(cfg: Config, sys: System, limit: nat, most: nat)
    requires Inv(cfg, sys, limit, most)
    ensures Solvent(cfg, sys) && sys.counter <= Bound(cfg, limit, most)
  {
  }

  lemma SolventStepFits(cfg: Config, limit: nat, most: nat, trace: seq<System>, steps: seq<Step>, n: nat)
    requires Starts(cfg, limit, most, trace, steps) && n < |steps| && NoUnderflow(cfg, trace, steps, n)
    requires Solvent(cfg, trace[n + 1])
    ensures !Underflows(cfg, trace[n], steps[n])
  {
    RunIsBounded(cfg, limit, most, trace, steps, n);
    StepKeeps(cfg, trace[n], limit, most, steps[n]);
  }

  lemma {:induction false} SolventRunNeverUnderflows(cfg: Config, limit: nat, most: nat, trace: seq<System>,
                                                     steps: seq<Step>, n: nat)
    requires Starts(cfg, limit, most, trace, steps) && n < |trace|
    requires forall m :: 0 <= m <= n ==> Solvent(cfg, trace[m])
    ensures NoUnderflow(cfg, trace, steps, n)
  {
    if n > 0 {
      SolventRunNeverUnderflows(cfg, limit, most, trace, steps, n - 1);
      assert Solvent(cfg, trace[n]);
      SolventStepFits(cfg, limit, most, trace, steps, n - 1);
    }
  }

  /** What makes an access underflow: writes that evicted their own key have given back more twice than is held. */
  lemma UnderflowIsInsolvency(cfg: Config, limit: nat, most: nat, trace: seq<System>, steps: seq<Step>, n: nat)
    requires Starts(cfg, limit, most, trace, steps) && n < |trace|
    ensures NoUnderflow(cfg, trace, steps, n) <==> forall m :: 0 <= m <= n ==> Solvent(cfg, trace[m])
  {
    if NoUnderflow(cfg, trace, steps, n) {
      forall m | 0 <= m <= n ensures Solvent(cfg, trace[m]) {
        RunIsBounded(cfg, limit, most, trace, steps, m);
        InvIsSolvent(cfg, trace[m], limit, most);
      }
    }
    if forall m :: 0 <= m <= n ==> Solvent(cfg, trace[m]) {
      SolventRunNeverUnderflows(cfg, limit, most, trace, steps, n);
    }
  }

  /** As long as the bound holds and whenever no writer is at work, the entries really held are within it too,
      but for what was given back twice. */
  lemma MemoryIsBounded(cfg: Config, limit: nat, most: nat, trace: seq<System>, steps: seq<Step>, n: nat)
    requires Starts(cfg, limit, most, trace, steps) && n < |trace|
    requires forall m :: 0 <= m <= n ==> trace[m].counter <= Bound(cfg, limit, most)
    requires forall i :: 0 <= i < |trace[n].writers| ==> trace[n].writers[i].Free?
    ensures SumTotals(cfg.capacity, trace[n].shards) <= Bound(cfg, limit, most) + trace[n].lost
  {
    BoundedRunIsSolvent(cfg, limit, most, trace, steps, n);
    NoneAhead(cfg, trace[n].writers);
  }

  lemma {:induction false} NoneAhead(cfg: Config, ws: seq<Phase>)
    requires forall i :: 0 <= i < |ws| ==> ws[i].Free?
    ensures SumAhead(cfg, ws) == 0
    decreases |ws|
  {
    if ws != [] {
      NoneAhead(cfg, ws[1..]);
    }
  }

  // ---------- runs without self-eviction ----------

  /** No write evicts its own key. */
  predicate Tame(cfg: Config, sys: System, s: Step)
    requires Enabled(cfg, sys, s)
  {
    s.EvictOne? ==> s.victim != sys.writers[s.shard].key
  }

  ghost predicate TameRun(cfg: Config, trace: seq<System>, steps: seq<Step>) {
    forall i :: 0 <= i < |steps| && i < |trace| ==> Enabled(cfg, trace[i], steps[i]) && Tame(cfg, trace[i], steps[i])
  }

  /** The entry a writer is going to replace is still there. */
  predicate Present(cfg: Config, d: Dict, w: Phase) {
    !w.Free? ==> w.oldCost == cfg.OldCost(d, w.key)
  }

  ghost predicate AllPresent(cfg: Config, sys: System) {
    |sys.shards| == |sys.writers| && forall i :: 0 <= i < |sys.shards| ==> Present(cfg, sys.shards[i], sys.writers[i])
  }

  lemma TameKeepsPresent(cfg: Config, sys: System, limit: nat, s: Step)
    requires AllPresent(cfg, sys) && sys.lost == 0 && Enabled(cfg, sys, s) && Tame(cfg, sys, s)
    ensures var next := Take(cfg, sys, limit, s); AllPresent(cfg, next) && next.lost == 0
  {
    var next := Take(cfg, sys, limit, s);
    assert Present(cfg, sys.shards[s.shard], sys.writers[s.shard]);
    forall j | 0 <= j < |next.shards| ensures Present(cfg, next.shards[j], next.writers[j]) {
      assert Present(cfg, sys.shards[j], sys.writers[j]);
    }
  }

  lemma OldCostWithin(cfg: Config, d: Dict, key: string)
    ensures cfg.OldCost(d, key) <= Total(cfg.capacity, d)
  {
    if key in d {
      TotalWithout(cfg.capacity, d, key);
    }
  }

  lemma {:induction false} ExactIsNatural(cfg: Config, shards: seq<Dict>, ws: seq<Phase>)
    requires |shards| == |ws| && forall i :: 0 <= i < |ws| ==> Present(cfg, shards[i], ws[i])
    ensures Exact(cfg, shards, ws) >= 0
    decreases |shards|
  {
    if shards != [] {
      assert forall i :: 0 <= i < |ws[1..]| ==> shards[1..][i] == shards[i + 1] && ws[1..][i] == ws[i + 1];
      ExactIsNatural(cfg, shards[1..], ws[1..]);
      assert Present(cfg, shards[0], ws[0]);
      if !ws[0].Free? {
        OldCostWithin(cfg, shards[0], ws[0].key);
      }
    }
  }

  lemma {:induction false} TameRunIsPresent(cfg: Config, limit: nat, trace: seq<System>, steps: seq<Step>, n: nat)
    requires IsRun(cfg, limit, trace, steps) && trace[0] == Empty(cfg) && TameRun(cfg, trace, steps) && n < |trace|
    ensures AllPresent(cfg, trace[n]) && trace[n].lost == 0
  {
    if n > 0 {
      TameRunIsPresent(cfg, limit, trace, steps, n - 1);
      TameKeepsPresent(cfg, trace[n - 1], limit, steps[n - 1]);
    }
  }

  /** When no write evicts its own key, the counter is exact and within the bound in every state. */
  lemma CounterIsBounded(cfg: Config, limit: nat, most: nat, trace: seq<System>, steps: seq<Step>, n: nat)
    requires Starts(cfg, limit, most, trace, steps) && TameRun(cfg, trace, steps) && n < |trace|
    ensures trace[n].counter == Exact(cfg, trace[n].shards, trace[n].writers) <= Bound(cfg, limit, most)
  {
    forall m | 0 <= m <= n ensures Solvent(cfg, trace[m]) {
      TameRunIsPresent(cfg, limit, trace, steps, m);
      ExactIsNatural(cfg, trace[m].shards, trace[m].writers);
    }
    TameRunIsPresent(cfg, limit, trace, steps, n);
    SolventRunNeverUnderflows(cfg, limit, most, trace, steps, n);
    RunIsBounded(cfg, limit, most, trace, steps, n);
    InvIsSolvent(cfg, trace[n], limit, most);
  }

  // ---------- the bound is reached ----------

  /** After `n` shards have begun and `m` of them charged, all from an empty store. */
  function Racing(cfg: Config, keys: seq<string>, e: Entry, most: nat, n: nat, m: nat): System
    requires |keys| == cfg.numShards && m <= n <= cfg.numShards
  {
    System(seq(cfg.numShards, _ => map[]), m * most,
           seq(cfg.numShards, i requires 0 <= i < cfg.numShards =>
                 if i < m then Charged(keys[i], e, 0) else if i < n then Evicting(keys[i], e, 0, 0) else Free), 0)
  }

  lemma RacingBegins(cfg: Config, keys: seq<string>, e: Entry, most: nat, n: nat)
    requires |keys| == cfg.numShards && n < cfg.numShards && 0 < most <= UINT64_MAX
    requires cfg.Index(keys[n]) == n && cfg.Cost(keys[n], e.value) == most
    ensures Enabled(cfg, Racing(cfg, keys, e, most, n, 0), Begin(n, keys[n], e))
    ensures Take(cfg, Racing(cfg, keys, e, most, n, 0), most, Begin(n, keys[n], e)) ==
            Racing(cfg, keys, e, most, n + 1, 0)
  {
    var sys, next := Racing(cfg, keys, e, most, n, 0), Racing(cfg, keys, e, most, n + 1, 0);
    assert sys.counter == 0;
    assert sys.writers[n := Evicting(keys[n], e, 0, 0)] == next.writers;
  }

  lemma RacingCharges(cfg: Config, keys: seq<string>, e: Entry, most: nat, m: nat)
    requires |keys| == cfg.numShards && m < cfg.numShards && (m + 1) * most <= UINT64_MAX
    requires cfg.Cost(keys[m], e.value) == most
    ensures Enabled(cfg, Racing(cfg, keys, e, most, cfg.numShards, m), Charge(m))
    ensures Take(cfg, Racing(cfg, keys, e, most, cfg.numShards, m), most, Charge(m)) ==
            Racing(cfg, keys, e, most, cfg.numShards, m + 1)
  {
    var sys, next := Racing(cfg, keys, e, most, cfg.numShards, m), Racing(cfg, keys, e, most, cfg.numShards, m + 1);
    assert (m + 1) * most == m * most + most;
    assert sys.writers[m := Charged(keys[m], e, 0)] == next.writers;
  }

  /** The race: every shard's writer checks the empty counter, then every one of them charges. */
  function RaceTrace(cfg: Config, keys: seq<string>, e: Entry, most: nat): seq<System>
    requires |keys| == cfg.numShards
  {
    seq(2 * cfg.numShards + 1, i requires 0 <= i <= 2 * cfg.numShards =>
      if i <= cfg.numShards then Racing(cfg, keys, e, most, i, 0)
      else Racing(cfg, keys, e, most, cfg.numShards, i - cfg.numShards))
  }

  function RaceSteps(cfg: Config, keys: seq<string>, e: Entry): seq<Step>
    requires |keys| == cfg.numShards
  {
    seq(2 * cfg.numShards, i requires 0 <= i < 2 * cfg.numShards =>
      if i < cfg.numShards then Begin(i, keys[i], e) else Charge(i - cfg.numShards))
  }

  lemma RaceStep(cfg: Config, keys: seq<string>, e: Entry, most: nat, i: nat)
    requires Roomy(cfg, most, most) && |keys| == cfg.numShards && i < 2 * cfg.numShards
    requires forall i :: 0 <= i < |keys| ==> cfg.Index(keys[i]) == i && cfg.Cost(keys[i], e.value) == most
    ensures var trace, s := RaceTrace(cfg, keys, e, most), RaceSteps(cfg, keys, e)[i];
            && Enabled(cfg, trace[i], s) && trace[i + 1] == Take(cfg, trace[i], most, s)
            && Tame(cfg, trace[i], s) && Cheap(cfg, s, most)
  {
    if i < cfg.numShards {
      MostIsWithin(cfg, most, most);
      RacingBegins(cfg, keys, e, most, i);
    } else {
      Multiples(i - cfg.numShards + 1, cfg.numShards, most);
      RacingCharges(cfg, keys, e, most, i - cfg.numShards);
    }
  }

  /** For any number of shards the bound is reached: with a limit of one entry, a race ends with one entry
      charged in every shard. */
  lemma BoundIsReached(cfg: Config, keys: seq<string>, e: Entry, most: nat)
    requires Roomy(cfg, most, most) && |keys| == cfg.numShards
    requires forall i :: 0 <= i < |keys| ==> cfg.Index(keys[i]) == i && cfg.Cost(keys[i], e.value) == most
    ensures Starts(cfg, most, most, RaceTrace(cfg, keys, e, most), RaceSteps(cfg, keys, e))
    ensures TameRun(cfg, RaceTrace(cfg, keys, e, most), RaceSteps(cfg, keys, e))
    ensures RaceTrace(cfg, keys, e, most)[2 * cfg.numShards].counter == Bound(cfg, most, most)
  {
    var trace, steps := RaceTrace(cfg, keys, e, most), RaceSteps(cfg, keys, e);
    forall i | 0 <= i < |steps|
      ensures Enabled(cfg, trace[i], steps[i]) && trace[i + 1] == Take(cfg, trace[i], most, steps[i])
      ensures Tame(cfg, trace[i], steps[i]) && Cheap(cfg, steps[i], most)
    {
      RaceStep(cfg, keys, e, most, i);
    }
    assert trace[2 * cfg.numShards] == Racing(cfg, keys, e, most, cfg.numShards, cfg.numShards);
    Multiples(cfg.numShards, cfg.numShards, most);
  }

  lemma Multiples(a: nat, b: nat, most: nat)
    requires a <= b
    ensures a * most <= b * most == most + (b - 1) * most
  {
  }

  // ---------- and can be broken ----------

  /** Only shard `i` is in use. */
  function Only(cfg: Config, i: nat, d: Dict, counter: nat, w: Phase, lost: nat): System
    requires i < cfg.numShards
  {
    System(Empty(cfg).shards[i := d], counter, Empty(cfg).writers[i := w], lost)
  }

  lemma OnlyOne(cfg: Config, i: nat, d: Dict, counter: nat, w: Phase, lost: nat, d': Dict, w': Phase)
    requires i < cfg.numShards
    ensures var sys := Only(cfg, i, d, counter, w, lost);
            && sys.shards[i] == d && sys.writers[i] == w
            && sys.shards[i := d'] == Only(cfg, i, d', counter, w, lost).shards
            && sys.writers[i := w'] == Only(cfg, i, d, counter, w', lost).writers
  {
  }

  lemma OnlyBegins(cfg: Config, i: nat, d: Dict, counter: nat, lost: nat, limit: nat, k: string, e: Entry)
    requires i < cfg.numShards && cfg.Index(k) == i
    ensures var sys, before := Only(cfg, i, d, counter, Free, lost), cfg.OldCost(d, k);
            var need := Shortfall(counter, cfg.Cost(k, e.value), before, limit);
            && Enabled(cfg, sys, Begin(i, k, e))
            && Take(cfg, sys, limit, Begin(i, k, e)) == Only(cfg, i, d, counter, Evicting(k, e, before, need), lost)
  {
    var before := cfg.OldCost(d, k);
    var need := Shortfall(counter, cfg.Cost(k, e.value), before, limit);
    OnlyOne(cfg, i, d, counter, Free, lost, d, Evicting(k, e, before, need));
  }

  lemma OnlyCharges(cfg: Config, i: nat, d: Dict, counter: nat, lost: nat, limit: nat, k: string, e: Entry, before: nat)
    requires i < cfg.numShards && 0 <= counter + cfg.Cost(k, e.value) - before <= UINT64_MAX
    ensures var sum := counter + cfg.Cost(k, e.value) - before;
            var sys := Only(cfg, i, d, counter, Evicting(k, e, before, 0), lost);
            && Enabled(cfg, sys, Charge(i))
            && Take(cfg, sys, limit, Charge(i)) == Only(cfg, i, d, sum, Charged(k, e, before), lost)
  {
    OnlyOne(cfg, i, d, counter, Evicting(k, e, before, 0), lost, d, Charged(k, e, before));
  }

  lemma OnlyCommits(cfg: Config, i: nat, d: Dict, counter: nat, lost: nat, limit: nat, k: string, e: Entry, before: nat)
    requires i < cfg.numShards
    ensures var sys := Only(cfg, i, d, counter, Charged(k, e, before), lost);
            && Enabled(cfg, sys, Commit(i))
            && Take(cfg, sys, limit, Commit(i)) ==
               Only(cfg, i, d[k := e], counter, Free, lost + if k in d then 0 else before)
  {
    OnlyOne(cfg, i, d, counter, Charged(k, e, before), lost, d[k := e], Free);
  }

  /** The only key of the shard is evicted for the write that is going to replace it. */
  lemma OnlyEvicts(cfg: Config, i: nat, k: string, a: Entry, counter: nat, lost: nat, limit: nat, e: Entry, need: nat)
    requires i < cfg.numShards && 0 < need <= cfg.Cost(k, a.value) == counter <= UINT64_MAX
    ensures var sys := Only(cfg, i, map[k := a], counter, Evicting(k, e, counter, need), lost);
            && Enabled(cfg, sys, EvictOne(i, k))
            && Take(cfg, sys, limit, EvictOne(i, k)) == Only(cfg, i, map[], 0, Evicting(k, e, counter, 0), lost)
  {
    OnlyOne(cfg, i, map[k := a], counter, Evicting(k, e, counter, need), lost, map[], Evicting(k, e, counter, 0));
    assert map[k := a] - {k} == map[];
  }

  lemma OnlyErases(cfg: Config, i: nat, k: string, e: Entry, counter: nat, lost: nat, limit: nat)
    requires i < cfg.numShards && counter < cfg.Cost(k, e.value) < WORD
    ensures var sys := Only(cfg, i, map[k := e], counter, Free, lost);
            && Enabled(cfg, sys, Erase(i, k))
            && Take(cfg, sys, limit, Erase(i, k)) ==
               Only(cfg, i, map[], counter - cfg.Cost(k, e.value) + WORD, Free, lost)
  {
    OnlyOne(cfg, i, map[k := e], counter, Free, lost, map[], Free);
    WrapsBelowZero(counter - cfg.Cost(k, e.value));
    assert map[k := e] - {k} == map[];
  }

  lemma OnlyUnderflows(cfg: Config, i: nat, k: string, e: Entry, counter: nat, lost: nat)
    requires i < cfg.numShards && counter < cfg.Cost(k, e.value)
    ensures var sys := Only(cfg, i, map[k := e], counter, Free, lost);
            Enabled(cfg, sys, Erase(i, k)) && Underflows(cfg, sys, Erase(i, k))
  {
    OnlyOne(cfg, i, map[k := e], counter, Free, lost, map[], Free);
  }

  /** A key is stored, overwritten by a value for which it has to be evicted itself, and deleted. */
  function Overwriting(cfg: Config, k: string, a: Entry, b: Entry, limit: nat): seq<System>
    requires cfg.numShards > 0 && cfg.Cost(k, a.value) <= limit < cfg.Cost(k, b.value) < WORD
  {
    var i, c, c' := cfg.Index(k), cfg.Cost(k, a.value), cfg.Cost(k, b.value);
    [Only(cfg, i, map[], 0, Free, 0),
     Only(cfg, i, map[], 0, Evicting(k, a, 0, 0), 0),
     Only(cfg, i, map[], c, Charged(k, a, 0), 0),
     Only(cfg, i, map[k := a], c, Free, 0),
     Only(cfg, i, map[k := a], c, Evicting(k, b, c, c' - limit), 0),
     Only(cfg, i, map[], 0, Evicting(k, b, c, 0), 0),
     Only(cfg, i, map[], c' - c, Charged(k, b, c), 0),
     Only(cfg, i, map[k := b], c' - c, Free, c),
     Only(cfg, i, map[], WORD - c, Free, c)]
  }

  function OverwritingSteps(cfg: Config, k: string, a: Entry, b: Entry): seq<Step> {
    var i := cfg.Index(k);
    [Begin(i, k, a), Charge(i), Commit(i), Begin(i, k, b), EvictOne(i, k), Charge(i), Commit(i), Erase(i, k)]
  }

  lemma OverwritingBegins(cfg: Config, k: string, a: Entry, b: Entry, limit: nat)
    requires cfg.numShards > 0 && cfg.Cost(k, a.value) <= limit < cfg.Cost(k, b.value) < WORD
    ensures var trace, s := Overwriting(cfg, k, a, b, limit), OverwritingSteps(cfg, k, a, b)[0];
            Enabled(cfg, trace[0], s) && trace[1] == Take(cfg, trace[0], limit, s)
  {
    OnlyBegins(cfg, cfg.Index(k), map[], 0, 0, limit, k, a);
    ShortfallIsExcess(0, cfg.Cost(k, a.value), 0, limit);
  }

  lemma OverwritingBeginsAgain(cfg: Config, k: string, a: Entry, b: Entry, limit: nat)
    requires cfg.numShards > 0 && cfg.Cost(k, a.value) <= limit < cfg.Cost(k, b.value)
    requires limit + cfg.Cost(k, a.value) + cfg.Cost(k, b.value) <= UINT64_MAX
    ensures var trace, s := Overwriting(cfg, k, a, b, limit), OverwritingSteps(cfg, k, a, b)[3];
            Enabled(cfg, trace[3], s) && trace[4] == Take(cfg, trace[3], limit, s)
  {
    var c := cfg.Cost(k, a.value);
    OnlyBegins(cfg, cfg.Index(k), map[k := a], c, 0, limit, k, b);
    ShortfallIsExcess(c, cfg.Cost(k, b.value), c, limit);
  }

  lemma OverwritingStores(cfg: Config, k: string, a: Entry, b: Entry, limit: nat, j: nat)
    requires cfg.numShards > 0 && cfg.Cost(k, a.value) <= limit < cfg.Cost(k, b.value) < WORD && 1 <= j < 3
    ensures var trace, s := Overwriting(cfg, k, a, b, limit), OverwritingSteps(cfg, k, a, b)[j];
            Enabled(cfg, trace[j], s) && trace[j + 1] == Take(cfg, trace[j], limit, s)
  {
    if j == 1 {
      OnlyCharges(cfg, cfg.Index(k), map[], 0, 0, limit, k, a, 0);
    } else {
      OnlyCommits(cfg, cfg.Index(k), map[], cfg.Cost(k, a.value), 0, limit, k, a, 0);
    }
  }

  lemma OverwritingGoesOn(cfg: Config, k: string, a: Entry, b: Entry, limit: nat, j: nat)
    requires cfg.numShards > 0 && cfg.Cost(k, a.value) <= limit < cfg.Cost(k, b.value) <= limit + cfg.Cost(k, a.value)
    requires limit + cfg.Cost(k, a.value) + cfg.Cost(k, b.value) <= UINT64_MAX && 4 <= j < 8
    ensures var trace, s := Overwriting(cfg, k, a, b, limit), OverwritingSteps(cfg, k, a, b)[j];
            Enabled(cfg, trace[j], s) && trace[j + 1] == Take(cfg, trace[j], limit, s)
  {
    var i, c, c' := cfg.Index(k), cfg.Cost(k, a.value), cfg.Cost(k, b.value);
    if j == 4 {
      OnlyEvicts(cfg, i, k, a, c, 0, limit, b, c' - limit);
    } else if j == 5 {
      OnlyCharges(cfg, i, map[], 0, 0, limit, k, b, c);
    } else if j == 6 {
      OnlyCommits(cfg, i, map[], c' - c, 0, limit, k, b, c);
    } else {
      OnlyErases(cfg, i, k, b, c' - c, c, limit);
    }
  }

  /** Self-eviction takes the counter below zero: one key stored, overwritten and deleted leaves an empty store
      whose counter stands just below 2^64. */
  lemma BoundIsBroken(cfg: Config, k: string, a: Entry, b: Entry, limit: nat)
    requires cfg.numShards > 0 && cfg.Cost(k, a.value) <= limit < cfg.Cost(k, b.value) <= limit + cfg.Cost(k, a.value)
    requires Roomy(cfg, limit, cfg.Cost(k, b.value))
    requires limit + cfg.Cost(k, a.value) + cfg.Cost(k, b.value) <= UINT64_MAX
    ensures var trace, steps := Overwriting(cfg, k, a, b, limit), OverwritingSteps(cfg, k, a, b);
            var most := cfg.Cost(k, b.value);
            && Starts(cfg, limit, most, trace, steps)
            && trace[8].shards == Empty(cfg).shards && trace[8].counter == WORD - cfg.Cost(k, a.value)
            && trace[8].counter > Bound(cfg, limit, most) && Underflows(cfg, trace[7], steps[7])
  {
    var trace, steps := Overwriting(cfg, k, a, b, limit), OverwritingSteps(cfg, k, a, b);
    forall j | 0 <= j < |steps|
      ensures Enabled(cfg, trace[j], steps[j]) && trace[j + 1] == Take(cfg, trace[j], limit, steps[j])
    {
      if j == 0 {
        OverwritingBegins(cfg, k, a, b, limit);
      } else if j == 3 {
        OverwritingBeginsAgain(cfg, k, a, b, limit);
      } else if j < 3 {
        OverwritingStores(cfg, k, a, b, limit, j);
      } else {
        OverwritingGoesOn(cfg, k, a, b, limit, j);
      }
    }
    OnlyIsEmpty(cfg, cfg.Index(k), 0, 0);
    OnlyIsEmpty(cfg, cfg.Index(k), WORD - cfg.Cost(k, a.value), cfg.Cost(k, a.value));
    OnlyUnderflows(cfg, cfg.Index(k), k, b, cfg.Cost(k, b.value) - cfg.Cost(k, a.value), cfg.Cost(k, a.value));
  }

  lemma OnlyIsEmpty(cfg: Config, i: nat, counter: nat, lost: nat)
    requires i < cfg.numShards
    ensures Only(cfg, i, map[], counter, Free, lost) == Empty(cfg).(counter := counter, lost := lost)
  {
    assert Empty(cfg).shards[i := map[]] == Empty(cfg).shards && Empty(cfg).writers[i := Free] == Empty(cfg).writers;
  }
}
