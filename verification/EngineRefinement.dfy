/** The sharded engine refines one timed map: shards, lazy deletion and the memory counter do not show, up to
    the entries evicted for room. */
module EngineRefinement {
  import opened Machine
  import opened Keyspace
  import opened Engine
  import opened EngineLaws

  /** The entry of `k` after a change in the shard of `key`. */
  lemma AtUpdate(cfg: Config, s: seq<Dict>, key: string, d: Dict, k: string)
    requires cfg.Shaped(s)
    ensures var t := s[cfg.Index(key) := d];
            cfg.At(t, k) == if cfg.Index(k) == cfg.Index(key) then Find(d, k) else cfg.At(s, k)
  {
  }

  lemma AtDrop(cfg: Config, st: State, key: string, k: string)
    requires cfg.Shaped(st.shards)
    ensures cfg.At(cfg.Drop(st, key).shards, k) == if k == key then None else cfg.At(st.shards, k)
  {
    AtUpdate(cfg, st.shards, key, cfg.Shard(st.shards, key) - {key}, k);
  }

  lemma AtTouch(cfg: Config, st: State, key: string, e: Entry, k: string)
    requires cfg.Shaped(st.shards)
    ensures cfg.At(cfg.Touch(st, key, e).shards, k) == if k == key then Some(e) else cfg.At(st.shards, k)
  {
    AtUpdate(cfg, st.shards, key, cfg.Shard(st.shards, key)[key := e], k);
  }

  lemma AtPurge(cfg: Config, st: State, key: string, now: nat, counted: bool, k: string)
    requires cfg.Shaped(st.shards)
    ensures cfg.At(cfg.Purge(st, key, now, counted).shards, k) ==
            if k == key && !Live(cfg.At(st.shards, key), now) then None else cfg.At(st.shards, k)
  {
    AtDrop(cfg, st, key, k);
  }

  lemma AtLookUp(cfg: Config, st: State, key: string, now: nat, k: string)
    requires cfg.Shaped(st.shards)
    ensures cfg.At(cfg.LookUp(st, key, now).shards, k) == KeyStep(Get(key), k, cfg.At(st.shards, k), now)
  {
    var p := cfg.Purge(st, key, now, true);
    AtPurge(cfg, st, key, now, true, k);
    AtPurge(cfg, st, key, now, true, key);
    if cfg.At(p.shards, key).Some? {
      AtTouch(cfg, p, key, cfg.At(p.shards, key).value.(lastAccess := now), k);
    }
  }

  lemma {:induction false} AtLookUpAll(cfg: Config, st: State, keys: seq<string>, now: nat, k: string)
    requires cfg.Shaped(st.shards)
    ensures cfg.At(cfg.LookUpAll(st, keys, now).shards, k) == KeyStep(Exists(keys), k, cfg.At(st.shards, k), now)
  {
    if keys != [] {
      var front, key := keys[..|keys| - 1], keys[|keys| - 1];
      AtLookUpAll(cfg, st, front, now, k);
      AtLookUp(cfg, cfg.LookUpAll(st, front, now), key, now, k);
      assert k in Exists(keys).Keys() <==> k in Exists(front).Keys() || k == key;
    }
  }

  lemma {:induction false} AtDeleteAll(cfg: Config, st: State, keys: seq<string>, k: string)
    requires cfg.Shaped(st.shards)
    ensures cfg.At(cfg.DeleteAll(st, keys).shards, k) == if k in keys then None else cfg.At(st.shards, k)
  {
    if keys != [] {
      var front, key := keys[..|keys| - 1], keys[|keys| - 1];
      var s := cfg.DeleteAll(st, front);
      AtDeleteAll(cfg, st, front, k);
      AtDrop(cfg, s, key, k);
      assert k in keys <==> k in front || k == key;
    }
  }

  lemma AtRetime(cfg: Config, st: State, c: Command, now: nat, k: string)
    requires cfg.Shaped(st.shards) && (c.Expire? || c.ExpireAt?)
    ensures cfg.At(cfg.Retime(st, c.key, c.Deadline(now), now).shards, k) ==
            KeyStep(c, k, cfg.At(st.shards, k), now)
  {
    var p := cfg.Purge(st, c.key, now, true);
    AtPurge(cfg, st, c.key, now, true, k);
    AtPurge(cfg, st, c.key, now, true, c.key);
    if cfg.At(p.shards, c.key).Some? {
      AtTouch(cfg, p, c.key, cfg.At(p.shards, c.key).value.(expireAt := c.Deadline(now), lastAccess := now), k);
    }
  }

  lemma AtUnexpire(cfg: Config, st: State, key: string, now: nat, k: string)
    requires cfg.Shaped(st.shards)
    ensures cfg.At(cfg.Unexpire(st, key, now).shards, k) == KeyStep(Persist(key), k, cfg.At(st.shards, k), now)
  {
    var p := cfg.Purge(st, key, now, false);
    AtPurge(cfg, st, key, now, false, k);
    AtPurge(cfg, st, key, now, false, key);
    if cfg.At(p.shards, key).Some? {
      AtTouch(cfg, p, key, cfg.At(p.shards, key).value.(expireAt := 0, lastAccess := now), k);
    }
  }

  /** A successful write: the key holds the entry, the evicted neighbours are gone, all else is unchanged. */
  lemma AtWrite(cfg: Config, st: State, key: string, e: Entry, gone: set<string>, k: string)
    requires cfg.Placed(st.shards) && cfg.Evictable(st, key, e.value, gone) && cfg.Fits(st, key, e.value)
    ensures cfg.At(cfg.Write(st, key, e, gone).shards, k) ==
            if k == key then Some(e) else if k in gone then None else cfg.At(st.shards, k)
  {
    var room := cfg.Evict(st, cfg.Index(key), gone);
    AtUpdate(cfg, st.shards, key, cfg.Shard(st.shards, key) - gone, k);
    AtTouch(cfg, room, key, e, k);
    assert k in gone ==> cfg.Index(k) == cfg.Index(key);
  }

  /** A refused write: the target shard is empty, every other shard is untouched. */
  lemma RefusedWriteEmptiesShard(cfg: Config, st: State, key: string, e: Entry, gone: set<string>)
    requires cfg.Placed(st.shards) && cfg.Evictable(st, key, e.value, gone) && !cfg.Fits(st, key, e.value)
    ensures cfg.Write(st, key, e, gone).shards == st.shards[cfg.Index(key) := map[]]
  {
    var d := cfg.Shard(st.shards, key);
    assert gone == d.Keys;
    assert d - d.Keys == map[];
  }

  /** Key by key, a refused command takes what was evicted and its own key, if that had expired. */
  lemma RefusedAt(cfg: Config, st: State, c: Command, now: nat, gone: set<string>, k: string)
    requires cfg.Placed(st.shards) && cfg.Possible(st, c, now, gone) && cfg.Refused(st, c, now)
    requires c.Add? ==> cfg.Placed(cfg.Purge(st, c.key, now, false).shards)
    ensures cfg.At(cfg.After(st, c, now, gone).shards, k) ==
            if k in gone || (k == c.key && cfg.Lapsed(st, c.key, now)) then None else cfg.At(st.shards, k)
  {
    var (s, e) := cfg.Writes(st, c, now).value;
    var i := cfg.Index(c.key);
    RefusedWriteEmptiesShard(cfg, s, c.key, e, gone);
    AtPurge(cfg, st, c.key, now, false, k);
    assert gone == cfg.Shard(s.shards, c.key).Keys;
    if cfg.Index(k) == i {
      assert cfg.At(cfg.After(st, c, now, gone).shards, k) == None;
    } else {
      assert k !in gone && cfg.At(cfg.After(st, c, now, gone).shards, k) == cfg.At(s.shards, k);
    }
  }

  /** Key by key, a command that is not refused acts on the shards as it acts on one map. */
  lemma CommandAt(cfg: Config, st: State, c: Command, now: nat, gone: set<string>, k: string)
    requires cfg.Placed(st.shards) && cfg.Possible(st, c, now, gone) && !cfg.Refused(st, c, now)
    requires c.Add? ==> cfg.Placed(cfg.Purge(st, c.key, now, false).shards)
    ensures cfg.At(cfg.After(st, c, now, gone).shards, k) ==
            if k in gone && k !in c.Keys() then None else KeyStep(c, k, cfg.At(st.shards, k), now)
  {
    match c
    case Set(key, v) => AtWrite(cfg, st, key, Entry(v, 0, now), gone, k);
    case Get(key) => AtLookUp(cfg, st, key, now, k);
    case Del(keys) => AtDeleteAll(cfg, st, keys, k);
    case Exists(keys) => AtLookUpAll(cfg, st, keys, now, k);
    case Add(key, delta) =>
      var w := cfg.Writes(st, c, now);
      if w.Some? {
        AtWrite(cfg, w.value.0, key, w.value.1, gone, k);
        AtPurge(cfg, st, key, now, false, k);
      }
    case Expire(_, _) => AtRetime(cfg, st, c, now, k);
    case ExpireAt(_, _) => AtRetime(cfg, st, c, now, k);
    case Pttl(key) => AtPurge(cfg, st, key, now, false, k);
    case Persist(key) => AtUnexpire(cfg, st, key, now, k);
  }

  /** One command on the shards is the same command on their union, less the neighbours it evicted. */
  lemma CommandRefines(cfg: Config, st: State, c: Command, now: nat, gone: set<string>)
    requires Sound(cfg, st) && cfg.Possible(st, c, now, gone) && !cfg.Refused(st, c, now)
    ensures cfg.Placed(cfg.After(st, c, now, gone).shards)
    ensures cfg.Union(cfg.After(st, c, now, gone).shards) ==
            Apply(c, cfg.Union(st.shards), now) - (gone - c.Keys())
  {
    CommandKeeps(cfg, st, c, now, gone);
    var a, b := cfg.Union(cfg.After(st, c, now, gone).shards), Apply(c, cfg.Union(st.shards), now);
    forall k: string ensures Find(a, k) == Find(b - (gone - c.Keys()), k) {
      if c.Add? {
        PurgeKeeps(cfg, st, c.key, now, false);
      }
      CommandAt(cfg, st, c, now, gone, k);
      FindApply(c, cfg.Union(st.shards), now, k);
    }
    SameFinds(a, b - (gone - c.Keys()));
  }

  // ---------- answers ----------

  /** EXISTS counts a hit for each listed key that is live, repeats included. */
  lemma {:induction false} ExistsCounts(cfg: Config, st: State, keys: seq<string>, now: nat)
    requires Sound(cfg, st)
    ensures cfg.LookUpAll(st, keys, now).stats.hits ==
            st.stats.hits + CountLive(cfg.Union(st.shards), keys, now)
  {
    if keys != [] {
      var front, key := keys[..|keys| - 1], keys[|keys| - 1];
      var s := cfg.LookUpAll(st, front, now);
      ExistsCounts(cfg, st, front, now);
      LookUpHits(cfg, s, key, now);
      AtLookUpAll(cfg, st, front, now, key);
    }
  }

  lemma LookUpHits(cfg: Config, st: State, key: string, now: nat)
    requires cfg.Shaped(st.shards)
    ensures cfg.LookUp(st, key, now).stats.hits ==
            st.stats.hits + if Live(cfg.At(st.shards, key), now) then 1 else 0
  {
    AtPurge(cfg, st, key, now, true, key);
  }

  lemma OneMoreMember(front: seq<string>, key: string, present: set<string>)
    ensures |Members(front + [key]) * present| ==
            |Members(front) * present| + if key in front || key !in present then 0 else 1
  {
    assert Members(front + [key]) == Members(front) + {key};
    if key in front || key !in present {
      assert Members(front + [key]) * present == Members(front) * present;
    } else {
      assert Members(front + [key]) * present == Members(front) * present + {key};
    }
  }

  lemma DeleteCounts(cfg: Config, st: State, key: string)
    requires cfg.Shaped(st.shards)
    ensures cfg.Delete(st, key).ledger.deleted == st.ledger.deleted + if cfg.At(st.shards, key).Some? then 1 else 0
  {
  }

  /** DEL deletes each distinct listed key that was present, once. */
  lemma {:induction false} DelCounts(cfg: Config, st: State, keys: seq<string>)
    requires Sound(cfg, st)
    ensures cfg.DeleteAll(st, keys).ledger.deleted ==
            st.ledger.deleted + |Members(keys) * cfg.Union(st.shards).Keys|
  {
    var present := cfg.Union(st.shards).Keys;
    if keys == [] {
      assert Members(keys) * present == {};
    } else {
      var front, key := keys[..|keys| - 1], keys[|keys| - 1];
      assert keys == front + [key];
      DelCounts(cfg, st, front);
      DeleteCounts(cfg, cfg.DeleteAll(st, front), key);
      AtDeleteAll(cfg, st, front, key);
      OneMoreMember(front, key, present);
      assert Find(cfg.Union(st.shards), key) == cfg.At(st.shards, key);
    }
  }
}
