/** The storage engine as a state machine on values: hash-selected dictionaries that share one memory counter,
    with the telemetry and a ledger of what the telemetry does not count. */
module Engine {
  import opened Machine
  import opened Decimal
  import opened Keyspace
  import opened Accounting

  datatype Stats = Stats(hits: nat, misses: nat, evicted: nat, expired: nat)

  /** Keys that came to be, that were deleted, and that expired uncounted; keys looked up; and the bytes the
      shared counter has lost. */
  datatype Ledger = Ledger(inserted: nat, deleted: nat, silent: nat, lookups: nat, drift: nat)

  datatype State = State(shards: seq<Dict>, usage: nat, limit: nat, stats: Stats, ledger: Ledger)

  function Members(keys: seq<string>): set<string> {
    set k | k in keys
  }

  /** Any hash function, and the capacity of a string as a function of its contents. */
  datatype Config = Config(numShards: nat, hash: string -> nat, capacity: string -> nat) {

    function Index(key: string): (i: nat)
      ensures numShards > 0 ==> i < numShards
    {
      if numShards == 0 then 0 else hash(key) % numShards
    }

    predicate Shaped(s: seq<Dict>) {
      |s| == numShards && numShards > 0
    }

    /** Every key lives in the shard its hash selects, and only there. */
    ghost predicate Placed(s: seq<Dict>) {
      Shaped(s) && forall i, k :: 0 <= i < numShards && k in s[i] ==> Index(k) == i
    }

    function Shard(s: seq<Dict>, key: string): Dict
      requires Shaped(s)
    {
      s[Index(key)]
    }

    function At(s: seq<Dict>, key: string): Option<Entry>
      requires Shaped(s)
    {
      Find(Shard(s, key), key)
    }

    function Cost(key: string, value: string): nat {
      EntryCost(capacity, key, value)
    }

    /** What overwriting `key` gives back. */
    function OldCost(d: Dict, key: string): nat {
      if key in d then Cost(key, d[key].value) else 0
    }

    function Initial(): State
      requires numShards > 0
    {
      State(seq(numShards, _ => map[]), 0, 0, Stats(0, 0, 0, 0), Ledger(0, 0, 0, 0, 0))
    }

    // ---------- primitive changes ----------

    /** Entries leave shard `i` and their cost goes back to the counter. */
    ghost function Remove(st: State, i: nat, gone: set<string>): State
      requires i < |st.shards|
    {
      var d := st.shards[i];
      st.(shards := st.shards[i := d - gone],
          usage := Wrap(st.usage - Freed(d, gone)))
    }

    ghost function Drop(st: State, key: string): State
      requires Shaped(st.shards)
    {
      Remove(st, Index(key), {key})
    }

    /** An entry is replaced by one with the same value. */
    function Touch(st: State, key: string, e: Entry): State
      requires Shaped(st.shards)
    {
      st.(shards := st.shards[Index(key) := Shard(st.shards, key)[key := e]])
    }

    /** An entry is stored and `newCost - oldCost` charged. When the key to overwrite is not there any more,
        its old cost is given back a second time. */
    function Insert(st: State, key: string, e: Entry, oldCost: nat): State
      requires Shaped(st.shards)
    {
      var isNew := key !in Shard(st.shards, key);
      Touch(st, key, e).(usage := Wrap(st.usage + Cost(key, e.value) - oldCost),
                         ledger := st.ledger.(inserted := st.ledger.inserted + (if isNew then 1 else 0),
                                              drift := st.ledger.drift + (if isNew then oldCost else 0)))
    }

    // ---------- commands ----------

    function Lapsed(st: State, key: string, now: nat): bool
      requires Shaped(st.shards)
    {
      key in Shard(st.shards, key) && Dead(Shard(st.shards, key)[key], now)
    }

    /** Lazy deletion, counted as an expiry or not. */
    ghost function Purge(st: State, key: string, now: nat, counted: bool): State
      requires Shaped(st.shards)
    {
      if !Lapsed(st, key, now) then st
      else if counted then Drop(st, key).(stats := st.stats.(expired := st.stats.expired + 1))
      else Drop(st, key).(ledger := st.ledger.(silent := st.ledger.silent + 1))
    }

    /** GET, and one key of EXISTS. */
    ghost function LookUp(st: State, key: string, now: nat): State
      requires Shaped(st.shards)
    {
      var p := Purge(st, key, now, true);
      var l := p.ledger.(lookups := p.ledger.lookups + 1);
      match At(p.shards, key)
      case None => p.(stats := p.stats.(misses := p.stats.misses + 1), ledger := l)
      case Some(e) => Touch(p, key, e.(lastAccess := now)).(stats := p.stats.(hits := p.stats.hits + 1), ledger := l)
    }

    ghost function LookUpAll(st: State, keys: seq<string>, now: nat): (r: State)
      requires Shaped(st.shards)
      ensures Shaped(r.shards)
    {
      if keys == [] then st else LookUp(LookUpAll(st, keys[..|keys| - 1], now), keys[|keys| - 1], now)
    }

    ghost function Delete(st: State, key: string): State
      requires Shaped(st.shards)
    {
      if key in Shard(st.shards, key)
      then Drop(st, key).(ledger := st.ledger.(deleted := st.ledger.deleted + 1))
      else st
    }

    ghost function DeleteAll(st: State, keys: seq<string>): (r: State)
      requires Shaped(st.shards)
      ensures Shaped(r.shards)
    {
      if keys == [] then st else Delete(DeleteAll(st, keys[..|keys| - 1]), keys[|keys| - 1])
    }

    /** EXPIRE, PEXPIRE and PEXPIREAT. */
    ghost function Retime(st: State, key: string, deadline: nat, now: nat): State
      requires Shaped(st.shards)
    {
      var p := Purge(st, key, now, true);
      match At(p.shards, key)
      case None => p
      case Some(e) => Touch(p, key, e.(expireAt := deadline, lastAccess := now))
    }

    ghost function Unexpire(st: State, key: string, now: nat): State
      requires Shaped(st.shards)
    {
      var p := Purge(st, key, now, false);
      match At(p.shards, key)
      case None => p
      case Some(e) => if e.expireAt == 0 then p else Touch(p, key, e.(expireAt := 0, lastAccess := now))
    }

    /** Bytes that storing `value` under `key` must free first. */
    function Need(st: State, key: string, value: string): nat
      requires Shaped(st.shards)
    {
      Shortfall(st.usage, Cost(key, value), OldCost(Shard(st.shards, key), key), st.limit)
    }

    /** Bytes that go with the entries `gone`. */
    ghost function Freed(d: Dict, gone: set<string>): int {
      Total(capacity, d) - Total(capacity, d - gone)
    }

    ghost function Evict(st: State, i: nat, gone: set<string>): State
      requires i < |st.shards|
    {
      Remove(st, i, gone).(stats := st.stats.(evicted := st.stats.evicted + |gone|))
    }

    /** Without one of the entries `gone` the need would not be met. */
    ghost predicate TookLast(d: Dict, gone: set<string>, need: nat) {
      exists v :: v in gone && Freed(d, gone - {v}) < need
    }

    /** What eviction may take for a write: nothing when there is room, else enough, or the whole shard; and it took
        the last of it while the need was not yet met. */
    ghost predicate Evictable(st: State, key: string, value: string, gone: set<string>)
      requires Shaped(st.shards)
    {
      var d, need := Shard(st.shards, key), Need(st, key, value);
      && gone <= d.Keys && (need == 0 ==> gone == {}) && (gone != {} ==> TookLast(d, gone, need))
      && (Freed(d, gone) >= need || gone == d.Keys)
    }

    /** A write succeeds exactly when the whole target shard would cover what it must free. */
    ghost predicate Fits(st: State, key: string, value: string)
      requires Shaped(st.shards)
    {
      Need(st, key, value) <= Total(capacity, Shard(st.shards, key))
    }

    /** The common end of SET, INCR and DECR: room, charge, insert. */
    ghost function Write(st: State, key: string, e: Entry, gone: set<string>): State
      requires Shaped(st.shards)
    {
      var room := Evict(st, Index(key), gone);
      if Fits(st, key, e.value) then Insert(room, key, e, OldCost(Shard(st.shards, key), key)) else room
    }

    /** The entry INCR and DECR write. */
    function SumEntry(e: Option<Entry>, base: int, delta: int, now: nat): Entry {
      Entry(Print(Int64(base + delta)), if Live(e, now) then e.value.expireAt else 0, now)
    }

    ghost function Sum(st: State, key: string, delta: int, now: nat, gone: set<string>): State
      requires Shaped(st.shards)
    {
      match Base(At(st.shards, key), now)
      case None => st
      case Some(n) => Write(Purge(st, key, now, false), key, SumEntry(At(st.shards, key), n, delta, now), gone)
    }

    /** The state after a command; `gone` is what eviction took, for the commands that write. */
    ghost function After(st: State, c: Command, now: nat, gone: set<string>): State
      requires Shaped(st.shards)
    {
      match c
      case Set(k, v) => Write(st, k, Entry(v, 0, now), gone)
      case Get(k) => LookUp(st, k, now)
      case Del(keys) => DeleteAll(st, keys)
      case Exists(keys) => LookUpAll(st, keys, now)
      case Add(k, delta) => Sum(st, k, delta, now, gone)
      case Expire(k, _) => Retime(st, k, c.Deadline(now), now)
      case ExpireAt(k, _) => Retime(st, k, c.Deadline(now), now)
      case Pttl(k) => Purge(st, k, now, false)
      case Persist(k) => Unexpire(st, k, now)
    }

    /** The entry a command writes, and the state in which it asks for room. */
    ghost function Writes(st: State, c: Command, now: nat): Option<(State, Entry)>
      requires Shaped(st.shards)
    {
      match c
      case Set(k, v) => Some((st, Entry(v, 0, now)))
      case Add(k, delta) =>
        (match Base(At(st.shards, k), now)
         case None => None
         case Some(n) => Some((Purge(st, k, now, false), SumEntry(At(st.shards, k), n, delta, now))))
      case _ => None
    }

    /** `gone` is a possible choice of eviction for the command. */
    ghost predicate Possible(st: State, c: Command, now: nat, gone: set<string>)
      requires Shaped(st.shards)
    {
      match Writes(st, c, now)
      case None => gone == {}
      case Some((s, e)) => Evictable(s, c.key, e.value, gone)
    }

    /** The command is refused for lack of memory. */
    ghost predicate Refused(st: State, c: Command, now: nat)
      requires Shaped(st.shards)
    {
      match Writes(st, c, now)
      case None => false
      case Some((s, e)) => !Fits(s, c.key, e.value)
    }

    /** A pass of the sweeper over shard `i`, in which it looked at the entries `seen`. */
    ghost function Sweep(st: State, i: nat, seen: set<string>, now: nat): State
      requires i < |st.shards|
    {
      var dead := set k | k in seen && k in st.shards[i] && Dead(st.shards[i][k], now);
      Remove(st, i, dead).(stats := st.stats.(expired := st.stats.expired + |dead|))
    }

    /** One pass over all shards, in order. */
    ghost function SweepAll(st: State, seen: seq<set<string>>, now: nat): (r: State)
      requires |seen| <= |st.shards|
      ensures |r.shards| == |st.shards|
    {
      if seen == [] then st
      else Sweep(SweepAll(st, seen[..|seen| - 1], now), |seen| - 1, seen[|seen| - 1], now)
    }

    // ---------- the union of the shards ----------

    ghost function AllKeys(s: seq<Dict>): set<string> {
      set i, k | 0 <= i < |s| && k in s[i] :: k
    }

    /** The shards as one map. */
    ghost function Union(s: seq<Dict>): (d: Dict)
      requires Placed(s)
      ensures forall k :: Find(d, k) == At(s, k)
    {
      map k | k in AllKeys(s) :: s[Index(k)][k]
    }
  }
}
