/** The storage engine as the server runs it, updated in place. Every method is proved to make exactly the
    transition of module `Engine`; what those transitions keep and mean is proved there about values. */
module Storage {
  import opened Machine
  import opened Decimal
  import opened Keyspace
  import opened Accounting
  import opened Engine
  import opened EngineLaws
  import opened EngineRefinement
  import ClientLaws
  import ShardLaws

  /** The victim was used no later than everything sampled. The scan starts from the largest `uint64_t`. */
  ghost predicate NoNewer(d: Dict, victim: string, sampled: set<string>)
    requires victim in d
  {
    forall k :: k in sampled && k in d ==> d[victim].lastAccess <= d[k].lastAccess || d[k].lastAccess >= UINT64_MAX
  }

  /** Up to five draws, each finding nothing or the first key of a bucket; the victim is the oldest found, or
      any entry when every draw missed. */
  method PickVictim(d: Dict) returns (victim: string, ghost sampled: set<string>)
    requires d != map[]
    ensures victim in d && sampled <= d.Keys && |sampled| <= 5 && NoNewer(d, victim, sampled)
    ensures sampled != {} ==> victim in sampled || forall k :: k in sampled ==> d[k].lastAccess >= UINT64_MAX
  {
    var best: Option<string> := None;
    var oldest := UINT64_MAX;
    sampled := {};
    for i := 0 to 5
      invariant sampled <= d.Keys && |sampled| <= i
      invariant best.Some? ==> best.value in sampled && d[best.value].lastAccess == oldest
      invariant best.None? ==> oldest == UINT64_MAX
      invariant forall k :: k in sampled ==> oldest <= d[k].lastAccess
    {
      if * {
        var k :| k in d;
        sampled := sampled + {k};
        if d[k].lastAccess < oldest {
          oldest, best := d[k].lastAccess, Some(k);
        }
      }
    }
    if best.Some? {
      victim := best.value;
    } else {
      victim :| victim in d;
    }
  }

  /** The rounds of an eviction from `d`: in each the need was not yet met by the entries gone before, and the
      victim, still present, is no newer than anything sampled in that round. */
  ghost predicate Rounds(cfg: Config, d: Dict, victims: seq<string>, samples: seq<set<string>>, needed: nat) {
    && |victims| == |samples|
    && (victims != [] ==>
          var n := |victims| - 1;
          var left := d - Members(victims[..n]);
          && Rounds(cfg, d, victims[..n], samples[..n], needed)
          && victims[n] in left && samples[n] <= left.Keys && |samples[n]| <= 5
          && NoNewer(left, victims[n], samples[n])
          && cfg.Freed(d, Members(victims[..n])) < needed)
  }

  lemma RoundsExtend(cfg: Config, d: Dict, victims: seq<string>, samples: seq<set<string>>, needed: nat,
                     v: string, s: set<string>)
    requires Rounds(cfg, d, victims, samples, needed)
    requires var left := d - Members(victims);
             && v in left && s <= left.Keys && |s| <= 5 && NoNewer(left, v, s)
             && cfg.Freed(d, Members(victims)) < needed
    ensures Rounds(cfg, d, victims + [v], samples + [s], needed)
    ensures Members(victims + [v]) == Members(victims) + {v}
  {
    assert (victims + [v])[..|victims|] == victims;
    assert (samples + [s])[..|samples|] == samples;
  }

  lemma FreedMore(cfg: Config, d: Dict, gone: set<string>, v: string)
    requires v in d - gone
    ensures cfg.Freed(d, gone + {v}) == cfg.Freed(d, gone) + cfg.Cost(v, d[v].value)
    ensures |d - gone - {v}| < |d - gone|
  {
    TotalWithout(cfg.capacity, d - gone, v);
    SizeWithout(d - gone, {v});
    assert d - gone - {v} == d - (gone + {v});
  }

  /** Evicting one more entry. */
  lemma EvictMore(cfg: Config, st: State, i: nat, gone: set<string>, v: string)
    requires i < |st.shards| && v !in gone
    ensures cfg.Evict(cfg.Evict(st, i, gone), i, {v}) == cfg.Evict(st, i, gone + {v})
  {
    var more := st.stats.(evicted := st.stats.evicted + |gone|);
    RemoveMore(cfg, st, i, gone, {v});
    assert cfg.Remove(cfg.Remove(st, i, gone).(stats := more), i, {v})
        == cfg.Remove(cfg.Remove(st, i, gone), i, {v}).(stats := more);
    assert |gone + {v}| == |gone| + 1;
  }

  lemma RemoveMore(cfg: Config, st: State, i: nat, gone: set<string>, more: set<string>)
    requires i < |st.shards|
    ensures cfg.Remove(cfg.Remove(st, i, gone), i, more) == cfg.Remove(st, i, gone + more)
  {
    var d := st.shards[i];
    assert d - gone - more == d - (gone + more);
    assert st.shards[i := d - gone][i := d - (gone + more)] == st.shards[i := d - (gone + more)];
    Rebalance(cfg.Remove(st, i, gone).usage, st.usage, cfg.Freed(d, gone), -cfg.Freed(d - gone, more), 0);
  }

  /** How far an eviction from shard `i` of `st` has come: `cur` is the state now. */
  ghost predicate Evicting(cfg: Config, st: State, i: nat, needed: nat,
                           victims: seq<string>, samples: seq<set<string>>, freed: int, cur: State)
  {
    && i < |st.shards| && Rounds(cfg, st.shards[i], victims, samples, needed)
    && Members(victims) <= st.shards[i].Keys && freed == cfg.Freed(st.shards[i], Members(victims))
    && cur == cfg.Evict(st, i, Members(victims))
  }

  lemma EvictingStep(cfg: Config, st: State, i: nat, needed: nat,
                     victims: seq<string>, samples: seq<set<string>>, freed: int, cur: State, v: string, s: set<string>)
    requires Evicting(cfg, st, i, needed, victims, samples, freed, cur) && freed < needed
    requires var left := cur.shards[i]; v in left && s <= left.Keys && |s| <= 5 && NoNewer(left, v, s)
    ensures Evicting(cfg, st, i, needed, victims + [v], samples + [s], freed + cfg.Cost(v, cur.shards[i][v].value),
                     cfg.Evict(cur, i, {v}))
    ensures |cfg.Evict(cur, i, {v}).shards[i]| < |cur.shards[i]|
  {
    RoundsExtend(cfg, st.shards[i], victims, samples, needed, v, s);
    EvictMore(cfg, st, i, Members(victims), v);
    FreedMore(cfg, st.shards[i], Members(victims), v);
  }

  lemma EvictNothing(cfg: Config, st: State, i: nat)
    requires i < |st.shards| && st.usage <= UINT64_MAX
    ensures cfg.Evict(st, i, Members([])) == st && cfg.Freed(st.shards[i], Members([])) == 0
  {
    assert Members([]) == {};
    assert st.shards[i] - {} == st.shards[i];
  }

  lemma EvictingStarts(cfg: Config, st: State, i: nat, needed: nat)
    requires i < |st.shards| && st.usage <= UINT64_MAX
    ensures Evicting(cfg, st, i, needed, [], [], 0, st)
  {
    EvictNothing(cfg, st, i);
  }

  lemma EvictingEnds(cfg: Config, st: State, i: nat, needed: nat,
                     victims: seq<string>, samples: seq<set<string>>, freed: int, cur: State)
    requires Evicting(cfg, st, i, needed, victims, samples, freed, cur)
    requires freed >= needed || cur.shards[i] == map[]
    ensures freed >= needed || Members(victims) == st.shards[i].Keys
  {
    var d, gone := st.shards[i], Members(victims);
    assert cur.shards[i] == d - gone;
    assert forall k :: k in d && k !in gone ==> k in d - gone;
  }

  /** Eviction stops as soon as the need is met. */
  lemma RoundsStopInTime(cfg: Config, d: Dict, victims: seq<string>, samples: seq<set<string>>, needed: nat)
    requires Rounds(cfg, d, victims, samples, needed) && Members(victims) != {}
    ensures cfg.TookLast(d, Members(victims), needed)
  {
    var n := |victims| - 1;
    assert victims == victims[..n] + [victims[n]];
    assert Members(victims) - {victims[n]} == Members(victims[..n]);
  }

  lemma FreedWithout(cfg: Config, d: Dict, gone: set<string>, v: string)
    requires gone <= d.Keys && v in gone
    ensures cfg.Freed(d, gone - {v}) < cfg.Freed(d, gone)
  {
    FreedMore(cfg, d, gone - {v}, v);
    assert gone - {v} + {v} == gone;
  }

  lemma {:induction false} FreedIsNatural(cfg: Config, d: Dict, gone: set<string>)
    requires gone <= d.Keys
    ensures cfg.Freed(d, gone) >= 0
    decreases gone
  {
    if gone == {} {
      assert d - {} == d;
    } else {
      var v :| v in gone;
      FreedIsNatural(cfg, d, gone - {v});
      FreedWithout(cfg, d, gone, v);
    }
  }

  /** Any entries that do not meet the need can go in some order, each the only one sampled. */
  lemma {:induction false} SomeOrder(cfg: Config, d: Dict, gone: set<string>, needed: nat)
      returns (victims: seq<string>, samples: seq<set<string>>)
    requires gone <= d.Keys && cfg.Freed(d, gone) < needed
    ensures Rounds(cfg, d, victims, samples, needed) && Members(victims) == gone
    decreases gone
  {
    victims, samples := [], [];
    if gone != {} {
      var v :| v in gone;
      FreedWithout(cfg, d, gone, v);
      victims, samples := SomeOrder(cfg, d, gone - {v}, needed);
      RoundsExtend(cfg, d, victims, samples, needed, v, {v});
      victims, samples := victims + [v], samples + [{v}];
    }
  }

  /** The loop can take the entries `gone`: round by round, until the need is met or the shard is empty. */
  ghost predicate Takes(cfg: Config, d: Dict, victims: seq<string>, samples: seq<set<string>>, needed: nat,
                        gone: set<string>)
  {
    && Rounds(cfg, d, victims, samples, needed) && Members(victims) == gone && gone <= d.Keys
    && (cfg.Freed(d, gone) >= needed || gone == d.Keys)
  }

  lemma LastOfOrder(cfg: Config, d: Dict, gone: set<string>, needed: nat)
      returns (victims: seq<string>, samples: seq<set<string>>)
    requires gone <= d.Keys && cfg.TookLast(d, gone, needed)
    ensures Rounds(cfg, d, victims, samples, needed) && Members(victims) == gone
  {
    var v :| v in gone && cfg.Freed(d, gone - {v}) < needed;
    var rest := gone - {v};
    assert gone == rest + {v} && v in d - rest;
    victims, samples := SomeOrder(cfg, d, rest, needed);
    RoundsExtend(cfg, d, victims, samples, needed, v, {v});
    victims, samples := victims + [v], samples + [{v}];
  }

  lemma TakesIsEvictable(cfg: Config, st: State, key: string, value: string, victims: seq<string>,
                         samples: seq<set<string>>, gone: set<string>)
    requires cfg.Shaped(st.shards)
    requires Takes(cfg, cfg.Shard(st.shards, key), victims, samples, cfg.Need(st, key, value), gone)
    ensures cfg.Evictable(st, key, value, gone)
  {
    var d, need := cfg.Shard(st.shards, key), cfg.Need(st, key, value);
    if gone != {} {
      RoundsStopInTime(cfg, d, victims, samples, need);
      var v :| v in gone && cfg.Freed(d, gone - {v}) < need;
      FreedIsNatural(cfg, d, gone - {v});
    }
  }

  /** What a write's transition may evict is exactly what the rounds of the loop can take. */
  lemma EvictionsAreRounds(cfg: Config, st: State, key: string, value: string, gone: set<string>)
    requires cfg.Shaped(st.shards)
    ensures cfg.Evictable(st, key, value, gone) <==>
            exists victims, samples ::
              Takes(cfg, cfg.Shard(st.shards, key), victims, samples, cfg.Need(st, key, value), gone)
  {
    var d, need := cfg.Shard(st.shards, key), cfg.Need(st, key, value);
    if cfg.Evictable(st, key, value, gone) {
      if gone == {} {
        assert Takes(cfg, d, [], [], need, gone);
      } else {
        var victims, samples := LastOfOrder(cfg, d, gone, need);
        assert Takes(cfg, d, victims, samples, need, gone);
      }
    }
    if exists victims, samples :: Takes(cfg, d, victims, samples, need, gone) {
      var victims, samples :| Takes(cfg, d, victims, samples, need, gone);
      TakesIsEvictable(cfg, st, key, value, victims, samples, gone);
    }
  }

  lemma FitsIffFreed(cfg: Config, st: State, key: string, value: string, gone: set<string>)
    requires cfg.Shaped(st.shards) && gone <= cfg.Shard(st.shards, key).Keys
    requires cfg.Freed(cfg.Shard(st.shards, key), gone) >= cfg.Need(st, key, value)
             || gone == cfg.Shard(st.shards, key).Keys
    ensures cfg.Fits(st, key, value) <==> cfg.Freed(cfg.Shard(st.shards, key), gone) >= cfg.Need(st, key, value)
  {
    var d := cfg.Shard(st.shards, key);
    assert d - d.Keys == map[];
  }

  /** What INCR and DECR return. */
  ghost function SumAnswer(cfg: Config, st: State, key: string, delta: int, now: nat): Option<int>
    requires cfg.Shaped(st.shards)
  {
    match Base(cfg.At(st.shards, key), now)
    case None => None
    case Some(n) => if cfg.Refused(st, Command.Add(key, delta), now) then None else Some(Int64(n + delta))
  }

  /** It is the answer of the one map, except that a refusal for lack of memory looks like a bad value. */
  lemma SumAnswerRefines(cfg: Config, st: State, key: string, delta: int, now: nat)
    requires cfg.Placed(st.shards)
    ensures var a := Answer(Command.Add(key, delta), cfg.Union(st.shards), now);
            match SumAnswer(cfg, st, key, delta, now)
            case Some(n) => a == Number(n)
            case None => a == NotANumber || cfg.Refused(st, Command.Add(key, delta), now)
  {
    assert Find(cfg.Union(st.shards), key) == cfg.At(st.shards, key);
  }

  lemma SweepNothing(cfg: Config, st: State, i: nat, now: nat)
    requires i < |st.shards| && st.usage <= UINT64_MAX
    ensures cfg.Sweep(st, i, {}, now) == st
  {
    EvictNothing(cfg, st, i);
    assert st.shards[i] - {} == st.shards[i];
  }

  /** The sweeper looks at one more entry. */
  lemma SweepMore(cfg: Config, st: State, i: nat, seen: set<string>, k: string, now: nat)
    requires i < |st.shards| && k !in seen
    ensures var cur := cfg.Sweep(st, i, seen, now);
            cfg.Sweep(st, i, seen + {k}, now) ==
            if k in st.shards[i] && Dead(st.shards[i][k], now)
            then cfg.Remove(cur, i, {k}).(stats := cur.stats.(expired := cur.stats.expired + 1)) else cur
  {
    var d := st.shards[i];
    var dead := set x | x in seen && x in d && Dead(d[x], now);
    var more := set x | x in seen + {k} && x in d && Dead(d[x], now);
    if k in d && Dead(d[k], now) {
      assert more == dead + {k};
      RemoveMore(cfg, st, i, dead, {k});
    } else {
      assert more == dead;
    }
  }

  /** One more key of EXISTS: the hits count it when it is live. */
  lemma LookUpMore(cfg: Config, st: State, keys: seq<string>, n: nat, now: nat)
    requires cfg.Shaped(st.shards) && n < |keys|
    ensures var cur := cfg.LookUpAll(st, keys[..n], now);
            && cfg.LookUpAll(st, keys[..n + 1], now) == cfg.LookUp(cur, keys[n], now)
            && cfg.LookUp(cur, keys[n], now).stats.hits
               == cur.stats.hits + if Live(cfg.At(cur.shards, keys[n]), now) then 1 else 0
  {
    assert keys[..n + 1][..n] == keys[..n];
    LookUpHits(cfg, cfg.LookUpAll(st, keys[..n], now), keys[n], now);
  }

  /** The first `n` keys of EXISTS are done, `count` of them found live. */
  ghost predicate LookedUp(cfg: Config, st: State, cur: State, keys: seq<string>, n: nat, now: nat, count: int) {
    && cfg.Shaped(st.shards) && n <= |keys|
    && cur == cfg.LookUpAll(st, keys[..n], now) && count == cur.stats.hits - st.stats.hits
  }

  lemma LookedUpMore(cfg: Config, st: State, cur: State, keys: seq<string>, n: nat, now: nat, count: int)
    requires LookedUp(cfg, st, cur, keys, n, now, count) && n < |keys|
    ensures cfg.Shaped(cur.shards)
    ensures var found := if Live(cfg.At(cur.shards, keys[n]), now) then 1 else 0;
            LookedUp(cfg, st, cfg.LookUp(cur, keys[n], now), keys, n + 1, now, count + found)
  {
    LookUpMore(cfg, st, keys, n, now);
  }

  lemma LookUpDone(cfg: Config, st: State, keys: seq<string>, now: nat)
    requires Sound(cfg, st)
    ensures var r := cfg.LookUpAll(st, keys[..|keys|], now);
            && Sound(cfg, r) && r == cfg.After(st, Command.Exists(keys), now, {})
            && Answer(Command.Exists(keys), cfg.Union(st.shards), now) == Number(r.stats.hits - st.stats.hits)
  {
    assert keys[..|keys|] == keys;
    ExistsCounts(cfg, st, keys, now);
    LookUpAllKeeps(cfg, st, keys, now);
  }

  lemma DeleteMore(cfg: Config, st: State, keys: seq<string>, n: nat)
    requires cfg.Shaped(st.shards) && n < |keys|
    ensures var cur := cfg.DeleteAll(st, keys[..n]);
            && cfg.DeleteAll(st, keys[..n + 1]) == cfg.Delete(cur, keys[n])
            && cfg.Delete(cur, keys[n]).ledger.deleted
               == cur.ledger.deleted + if keys[n] in cfg.Shard(cur.shards, keys[n]) then 1 else 0
  {
    assert keys[..n + 1][..n] == keys[..n];
  }

  lemma DeleteDone(cfg: Config, st: State, keys: seq<string>)
    requires Sound(cfg, st)
    ensures var r := cfg.DeleteAll(st, keys[..|keys|]);
            && Sound(cfg, r) && r == cfg.DeleteAll(st, keys)
            && r.ledger.deleted == st.ledger.deleted + |Members(keys) * cfg.Union(st.shards).Keys|
  {
    assert keys[..|keys|] == keys;
    DelCounts(cfg, st, keys);
    DeleteAllKeeps(cfg, st, keys);
  }

  /** INCR and DECR of a whole number: the write that follows is the command. */
  lemma SumTaken(cfg: Config, st: State, key: string, delta: int, now: nat, gone: set<string>)
    requires cfg.Shaped(st.shards) && Base(cfg.At(st.shards, key), now).Some?
    requires var e := cfg.SumEntry(cfg.At(st.shards, key), Base(cfg.At(st.shards, key), now).value, delta, now);
             cfg.Evictable(cfg.Purge(st, key, now, false), key, e.value, gone)
    ensures var n := Base(cfg.At(st.shards, key), now).value;
            var p, e := cfg.Purge(st, key, now, false), cfg.SumEntry(cfg.At(st.shards, key), n, delta, now);
            && cfg.Possible(st, Command.Add(key, delta), now, gone)
            && cfg.After(st, Command.Add(key, delta), now, gone) == cfg.Write(p, key, e, gone)
            && SumAnswer(cfg, st, key, delta, now) ==
               if cfg.Fits(p, key, e.value) then Some(Int64(n + delta)) else None
  {
  }

  lemma SumDone(cfg: Config, st: State, key: string, delta: int, now: nat, gone: set<string>)
    requires Sound(cfg, st) && Base(cfg.At(st.shards, key), now).Some?
    requires var e := cfg.SumEntry(cfg.At(st.shards, key), Base(cfg.At(st.shards, key), now).value, delta, now);
             cfg.Evictable(cfg.Purge(st, key, now, false), key, e.value, gone)
    ensures var n := Base(cfg.At(st.shards, key), now).value;
            var p, e := cfg.Purge(st, key, now, false), cfg.SumEntry(cfg.At(st.shards, key), n, delta, now);
            && cfg.Possible(st, Command.Add(key, delta), now, gone) && Sound(cfg, cfg.Write(p, key, e, gone))
            && cfg.After(st, Command.Add(key, delta), now, gone) == cfg.Write(p, key, e, gone)
            && SumAnswer(cfg, st, key, delta, now) ==
               if cfg.Fits(p, key, e.value) then Some(Int64(n + delta)) else None
  {
    SumTaken(cfg, st, key, delta, now, gone);
    CommandKeeps(cfg, st, Command.Add(key, delta), now, gone);
  }

  /** INCR or DECR led from `a` to `b`, evicting `gone`, and returned `r`: the two's complement sum is returned and
      stored under the deadline that the key had; or nothing is returned, because of a refusal, or because the value
      is no whole number, and then nothing is changed. */
  ghost predicate Summed(cfg: Config, a: State, b: State, key: string, delta: int, now: nat, gone: set<string>,
                         r: Option<int>)
  {
    && Sound(cfg, a) && Sound(cfg, b) && cfg.Possible(a, Command.Add(key, delta), now, gone)
    && b == cfg.After(a, Command.Add(key, delta), now, gone) && r == SumAnswer(cfg, a, key, delta, now)
    && var e := cfg.At(a.shards, key);
       match r
       case None =>
         cfg.Refused(a, Command.Add(key, delta), now) || (ShardLaws.Start(e, now).None? && b == a)
       case Some(n) =>
         && ShardLaws.Start(e, now).Some? && n == ClientLaws.Signed(ShardLaws.Start(e, now).value + delta)
         && cfg.At(b.shards, key) == Some(Entry(Print(n), ShardLaws.Kept(e, now), now))
  }

  lemma SumStores(cfg: Config, a: State, b: State, key: string, delta: int, now: nat, gone: set<string>, val: int)
    requires Sound(cfg, a) && Sound(cfg, b) && cfg.Possible(a, Command.Add(key, delta), now, gone)
    requires b == cfg.After(a, Command.Add(key, delta), now, gone) && !cfg.Refused(a, Command.Add(key, delta), now)
    requires Base(cfg.At(a.shards, key), now).Some? && val == Int64(Base(cfg.At(a.shards, key), now).value + delta)
    requires SumAnswer(cfg, a, key, delta, now) == Some(val)
    ensures Summed(cfg, a, b, key, delta, now, gone, Some(val))
  {
    ShardLaws.SumNumber(cfg.At(a.shards, key), now, delta);
    ShardLaws.SumEntryStored(cfg, a, key, delta, now, gone, val);
  }

  lemma SumWritten(cfg: Config, a: State, b: State, key: string, delta: int, now: nat, gone: set<string>, val: int)
    requires Sound(cfg, a) && Base(cfg.At(a.shards, key), now).Some?
    requires val == Int64(Base(cfg.At(a.shards, key), now).value + delta)
    requires var p := cfg.Purge(a, key, now, false);
             var e := Entry(Print(val), ShardLaws.Kept(cfg.At(a.shards, key), now), now);
             cfg.Evictable(p, key, e.value, gone) && b == cfg.Write(p, key, e, gone)
    ensures Summed(cfg, a, b, key, delta, now, gone, SumAnswer(cfg, a, key, delta, now))
    ensures SumAnswer(cfg, a, key, delta, now) ==
            if cfg.Fits(cfg.Purge(a, key, now, false), key, Print(val)) then Some(val) else None
  {
    SumDone(cfg, a, key, delta, now, gone);
    if cfg.Fits(cfg.Purge(a, key, now, false), key, Print(val)) {
      SumStores(cfg, a, b, key, delta, now, gone, val);
    }
  }

  lemma SumNothing(cfg: Config, st: State, key: string, delta: int, now: nat)
    requires Sound(cfg, st) && Base(cfg.At(st.shards, key), now).None?
    ensures Summed(cfg, st, st, key, delta, now, {}, None)
  {
    ClientLaws.BaseIsWhole(cfg.At(st.shards, key), now);
  }

  /** The sweeper has looked at one entry. */
  ghost function SweptOne(cfg: Config, st: State, i: nat, k: string, now: nat): State
    requires i < |st.shards| && k in st.shards[i]
  {
    if Dead(st.shards[i][k], now)
    then cfg.Remove(st, i, {k}).(stats := st.stats.(expired := st.stats.expired + 1)) else st
  }

  /** How far a sweep of shard `i` of `st` has come: `cur` is the state now, and `rest` is still to be looked at. */
  ghost predicate SweepUnderWay(cfg: Config, st: State, cur: State, i: nat, seen: set<string>, rest: set<string>,
                                now: nat)
  {
    && i < |st.shards| == |cur.shards| && cur == cfg.Sweep(st, i, seen, now)
    && rest <= cur.shards[i].Keys && rest !! seen && seen + rest == st.shards[i].Keys
  }

  lemma SweptLeft(cfg: Config, cur: State, i: nat, k: string, rest: set<string>, now: nat)
    requires i < |cur.shards| && k in rest && rest <= cur.shards[i].Keys
    ensures var next := SweptOne(cfg, cur, i, k, now);
            |next.shards| == |cur.shards| && rest - {k} <= next.shards[i].Keys
  {
  }

  lemma SweepingOn(cfg: Config, st: State, cur: State, i: nat, seen: set<string>, rest: set<string>, k: string,
                   now: nat)
    requires SweepUnderWay(cfg, st, cur, i, seen, rest, now) && k in rest
    ensures SweepUnderWay(cfg, st, SweptOne(cfg, cur, i, k, now), i, seen + {k}, rest - {k}, now)
  {
    SweepMore(cfg, st, i, seen, k, now);
    SweptLeft(cfg, cur, i, k, rest, now);
    assert cur.shards[i][k] == st.shards[i][k];
    assert (seen + {k}) + (rest - {k}) == seen + rest;
  }

  class StorageEngine {
    const cfg: Config

    var shards: seq<Dict>
    var memoryUsage: nat
    var maxMemory: nat
    var hits: nat
    var misses: nat
    var evictedKeys: nat
    var expiredKeys: nat
    ghost var ledger: Ledger

    ghost function St(): State
      reads this
    {
      State(shards, memoryUsage, maxMemory, Stats(hits, misses, evictedKeys, expiredKeys), ledger)
    }

    ghost predicate Valid()
      reads this
    {
      Sound(cfg, St())
    }

    constructor (cfg: Config)
      requires cfg.numShards > 0
      ensures this.cfg == cfg && St() == cfg.Initial()
    {
      this.cfg := cfg;
      shards := seq(cfg.numShards, _ => map[]);
      memoryUsage, maxMemory, hits, misses, evictedKeys, expiredKeys := 0, 0, 0, 0, 0, 0;
      ledger := Ledger(0, 0, 0, 0, 0);
    }

    method SetMaxMemory(bytes: nat)
      modifies this
      ensures St() == old(St()).(limit := bytes)
    {
      maxMemory := bytes;
    }

    /** Erasing one entry and giving its cost back to the shared counter. */
    method Erase(i: nat, key: string)
      requires i < |shards| && key in shards[i]
      modifies this
      ensures St() == cfg.Remove(old(St()), i, {key})
    {
      TotalWithout(cfg.capacity, shards[i], key);
      memoryUsage := Wrap(memoryUsage - cfg.Cost(key, shards[i][key].value));
      shards := shards[i := shards[i] - {key}];
    }

    /** One round: the oldest of a sample goes, and its cost is returned. */
    method EvictOldest(i: nat) returns (cost: nat, ghost victim: string, ghost sampled: set<string>)
      requires i < |shards| && shards[i] != map[]
      modifies this
      ensures victim in old(shards[i]) && cost == cfg.Cost(victim, old(shards[i][victim].value))
      ensures sampled <= old(shards[i]).Keys && |sampled| <= 5 && NoNewer(old(shards[i]), victim, sampled)
      ensures St() == cfg.Evict(old(St()), i, {victim})
    {
      var key;
      key, sampled := PickVictim(shards[i]);
      victim, cost := key, cfg.Cost(key, shards[i][key].value);
      Erase(i, key);
      evictedKeys := evictedKeys + 1;
    }

    /** Frees exactly the cost of the entries removed, in rounds as described by `Rounds`, until the need is
        met or the shard is empty. */
    method EvictFromShard(i: nat, needed: nat)
      returns (freed: nat, ghost victims: seq<string>, ghost samples: seq<set<string>>)
      requires i < |shards| && memoryUsage <= UINT64_MAX
      modifies this
      ensures St() == cfg.Evict(old(St()), i, Members(victims))
      ensures Rounds(cfg, old(shards[i]), victims, samples, needed) && Members(victims) <= old(shards[i]).Keys
      ensures freed == cfg.Freed(old(shards[i]), Members(victims))
      ensures freed >= needed || Members(victims) == old(shards[i]).Keys
    {
      freed, victims, samples := 0, [], [];
      ghost var st := St();
      EvictingStarts(cfg, st, i, needed);
      while freed < needed && shards[i] != map[]
        invariant |shards| == |st.shards| && Evicting(cfg, st, i, needed, victims, samples, freed, St())
        decreases |shards[i]|
      {
        ghost var cur := St();
        var cost;
        ghost var victim, sampled;
        cost, victim, sampled := EvictOldest(i);
        EvictingStep(cfg, st, i, needed, victims, samples, freed, cur, victim, sampled);
        freed := freed + cost;
        victims, samples := victims + [victim], samples + [sampled];
      }
      EvictingEnds(cfg, st, i, needed, victims, samples, freed, St());
    }

    // ---------- writes ----------

    /** Room for a write: eviction runs only when the limit is set and would be exceeded. */
    method MakeRoom(key: string, value: string) returns (ok: bool, ghost gone: set<string>)
      requires Valid()
      modifies this
      ensures cfg.Evictable(old(St()), key, value, gone) && St() == cfg.Evict(old(St()), cfg.Index(key), gone)
      ensures ok <==> cfg.Fits(old(St()), key, value)
    {
      var i := cfg.Index(key);
      var newCost, oldCost := cfg.Cost(key, value), cfg.OldCost(shards[i], key);
      ghost var st := St();
      EvictNothing(cfg, st, i);
      ok, gone := true, Members([]);
      if maxMemory > 0 && Wrap(memoryUsage + newCost) > Wrap(maxMemory + oldCost) {
        var needed := Wrap(Wrap(memoryUsage + newCost) - Wrap(maxMemory + oldCost));
        assert needed == cfg.Need(st, key, value);
        var freed;
        ghost var victims, samples;
        freed, victims, samples := EvictFromShard(i, needed);
        gone := Members(victims);
        ok := freed >= needed;
        if gone != {} {
          RoundsStopInTime(cfg, st.shards[i], victims, samples, needed);
        }
        FitsIffFreed(cfg, st, key, value, gone);
      }
    }

    /** Charging the difference and storing the entry. */
    method Insert(key: string, e: Entry, oldCost: nat)
      requires cfg.Shaped(shards)
      modifies this
      ensures St() == cfg.Insert(old(St()), key, e, oldCost)
    {
      var i := cfg.Index(key);
      var isNew := key !in shards[i];
      ledger := ledger.(inserted := ledger.inserted + (if isNew then 1 else 0),
                        drift := ledger.drift + (if isNew then oldCost else 0));
      memoryUsage := Wrap(memoryUsage + cfg.Cost(key, e.value) - oldCost);
      shards := shards[i := shards[i][key := e]];
    }

    method Write(key: string, e: Entry) returns (ok: bool, ghost gone: set<string>)
      requires Valid()
      modifies this
      ensures cfg.Evictable(old(St()), key, e.value, gone) && St() == cfg.Write(old(St()), key, e, gone)
      ensures ok <==> cfg.Fits(old(St()), key, e.value)
    {
      var oldCost := cfg.OldCost(shards[cfg.Index(key)], key);
      ok, gone := MakeRoom(key, e.value);
      if ok {
        Insert(key, e, oldCost);
      }
    }

    method Set(key: string, value: string, now: nat) returns (ok: bool, ghost gone: set<string>)
      requires Valid()
      modifies this
      ensures Valid() && cfg.Possible(old(St()), Command.Set(key, value), now, gone)
      ensures St() == cfg.After(old(St()), Command.Set(key, value), now, gone)
      ensures ok <==> !cfg.Refused(old(St()), Command.Set(key, value), now)
      ensures ok ==> cfg.At(shards, key) == Some(Entry(value, 0, now))
    {
      ghost var st := St();
      ok, gone := Write(key, Entry(value, 0, now));
      CommandKeeps(cfg, st, Command.Set(key, value), now, gone);
    }

    // ---------- reads ----------

    /** Lazy deletion of a dead entry; `counted` says whether the telemetry sees it. */
    method Purge(key: string, now: nat, counted: bool)
      requires cfg.Shaped(shards)
      modifies this
      ensures St() == cfg.Purge(old(St()), key, now, counted)
    {
      var i := cfg.Index(key);
      if key in shards[i] && Dead(shards[i][key], now) {
        Erase(i, key);
        if counted {
          expiredKeys := expiredKeys + 1;
        } else {
          ledger := ledger.(silent := ledger.silent + 1);
        }
      }
    }

    /** Replacing an entry in place. */
    method Touch(key: string, e: Entry)
      requires cfg.Shaped(shards)
      modifies this
      ensures St() == cfg.Touch(old(St()), key, e)
    {
      var i := cfg.Index(key);
      shards := shards[i := shards[i][key := e]];
    }

    /** GET, and one key of EXISTS. */
    method LookUp(key: string, now: nat) returns (value: Option<string>)
      requires cfg.Shaped(shards)
      modifies this
      ensures St() == cfg.LookUp(old(St()), key, now)
      ensures value == if Live(cfg.At(old(shards), key), now) then Some(cfg.At(old(shards), key).value.value) else None
    {
      var i := cfg.Index(key);
      Purge(key, now, true);
      ledger := ledger.(lookups := ledger.lookups + 1);
      if key in shards[i] {
        value := Some(shards[i][key].value);
        Touch(key, shards[i][key].(lastAccess := now));
        hits := hits + 1;
      } else {
        value := None;
        misses := misses + 1;
      }
    }

    method Get(key: string, now: nat) returns (value: Option<string>)
      requires Valid()
      modifies this
      ensures Valid() && St() == cfg.After(old(St()), Command.Get(key), now, {})
      ensures Text(value) == Answer(Command.Get(key), cfg.Union(old(shards)), now)
      ensures match cfg.At(old(shards), key)
              case None => value == None
              case Some(e) => value == if e.expireAt == 0 || now < e.expireAt then Some(e.value) else None
    {
      ghost var st := St();
      value := LookUp(key, now);
      CommandKeeps(cfg, st, Command.Get(key), now, {});
    }

    method Exists(keys: seq<string>, now: nat) returns (count: nat)
      requires Valid()
      modifies this
      ensures Valid() && St() == cfg.After(old(St()), Command.Exists(keys), now, {})
      ensures Number(count) == Answer(Command.Exists(keys), cfg.Union(old(shards)), now)
    {
      ghost var st := St();
      count := 0;
      for n := 0 to |keys|
        invariant LookedUp(cfg, st, St(), keys, n, now, count)
      {
        LookedUpMore(cfg, st, St(), keys, n, now, count);
        var value := LookUp(keys[n], now);
        if value.Some? {
          count := count + 1;
        }
      }
      LookUpDone(cfg, st, keys, now);
    }

    /** One key of DEL. */
    method Delete(key: string) returns (found: bool)
      requires cfg.Shaped(shards)
      modifies this
      ensures St() == cfg.Delete(old(St()), key)
      ensures found <==> key in cfg.Shard(old(shards), key)
    {
      var i := cfg.Index(key);
      found := key in shards[i];
      if found {
        Erase(i, key);
        ledger := ledger.(deleted := ledger.deleted + 1);
      }
    }

    method Del(keys: seq<string>) returns (deleted: nat)
      requires Valid()
      modifies this
      ensures Valid() && St() == cfg.DeleteAll(old(St()), keys)
      ensures deleted == |Members(keys) * cfg.Union(old(shards)).Keys|
    {
      ghost var st := St();
      deleted := 0;
      for n := 0 to |keys|
        invariant cfg.Shaped(shards) && St() == cfg.DeleteAll(st, keys[..n])
        invariant deleted == ledger.deleted - st.ledger.deleted
      {
        DeleteMore(cfg, st, keys, n);
        var found := Delete(keys[n]);
        if found {
          deleted := deleted + 1;
        }
      }
      DeleteDone(cfg, st, keys);
    }

    // ---------- sums ----------

    /** The number a sum starts from and the expiry it keeps; nothing is changed. */
    method ReadNumber(e: Option<Entry>, now: nat) returns (start: Option<int>, expireAt: nat)
      ensures start == Base(e, now)
      ensures start.Some? ==> expireAt == if Live(e, now) then e.value.expireAt else 0
    {
      start, expireAt := Some(0), 0;
      if e.Some? && !Dead(e.value, now) {
        var scanned := ScanSigned(e.value.value);
        if scanned.None? || scanned.value.length != |e.value.value| {
          return None, 0;
        }
        start, expireAt := Some(scanned.value.value), e.value.expireAt;
      }
    }

    /** A sum past the conversion: a dead entry goes first, uncounted. */
    method WriteSum(key: string, e: Entry, now: nat) returns (ok: bool, ghost gone: set<string>)
      requires Valid()
      modifies this
      ensures var p := cfg.Purge(old(St()), key, now, false);
              && cfg.Evictable(p, key, e.value, gone) && St() == cfg.Write(p, key, e, gone)
              && (ok <==> cfg.Fits(p, key, e.value))
    {
      PurgeKeeps(cfg, St(), key, now, false);
      Purge(key, now, false);
      ok, gone := Write(key, e);
    }

    /** INCR (`delta` 1) and DECR (`delta` -1). A value that is not a whole number stops the command before
        it changes anything; the same empty answer is given when there is no room. */
    method Add(key: string, delta: int, now: nat) returns (r: Option<int>, ghost gone: set<string>)
      requires Valid()
      modifies this
      ensures Valid() && Summed(cfg, old(St()), St(), key, delta, now, gone, r)
    {
      ghost var st := St();
      var start, expireAt := ReadNumber(Find(shards[cfg.Index(key)], key), now);
      r, gone := None, {};
      if start.Some? {
        var val := Int64(start.value + delta);
        var ok;
        ok, gone := WriteSum(key, Entry(Print(val), expireAt, now), now);
        r := if ok then Some(val) else None;
        SumWritten(cfg, st, St(), key, delta, now, gone, val);
      } else {
        SumNothing(cfg, st, key, delta, now);
      }
    }

    // ---------- expiry ----------

    method Retime(key: string, deadline: nat, now: nat) returns (done: bool)
      requires cfg.Shaped(shards)
      modifies this
      ensures St() == cfg.Retime(old(St()), key, deadline, now)
      ensures done <==> Live(cfg.At(old(shards), key), now)
    {
      var i := cfg.Index(key);
      Purge(key, now, true);
      done := key in shards[i];
      if done {
        Touch(key, shards[i][key].(expireAt := deadline, lastAccess := now));
      }
    }

    method Expire(key: string, offset: int, now: nat) returns (done: bool)
      requires Valid()
      modifies this
      ensures Valid() && St() == cfg.After(old(St()), Command.Expire(key, offset), now, {})
      ensures Number(if done then 1 else 0) == Answer(Command.Expire(key, offset), cfg.Union(old(shards)), now)
      ensures done <==> Live(cfg.At(old(shards), key), now)
      ensures done ==>
                var deadline := (now + offset) % 0x1_0000_0000_0000_0000;
                cfg.At(shards, key) == Some(Entry(cfg.At(old(shards), key).value.value, deadline, now))
    {
      ghost var st := St();
      done := Retime(key, Wrap(now + offset), now);
      CommandKeeps(cfg, st, Command.Expire(key, offset), now, {});
      ShardLaws.ExpiryStored(cfg, st, Command.Expire(key, offset), now);
    }

    method ExpireAt(key: string, at: nat, now: nat) returns (done: bool)
      requires Valid()
      modifies this
      ensures Valid() && St() == cfg.After(old(St()), Command.ExpireAt(key, at), now, {})
      ensures Number(if done then 1 else 0) == Answer(Command.ExpireAt(key, at), cfg.Union(old(shards)), now)
      ensures done <==> Live(cfg.At(old(shards), key), now)
      ensures done ==>
                cfg.At(shards, key) == Some(Entry(cfg.At(old(shards), key).value.value, at, now))
    {
      ghost var st := St();
      done := Retime(key, at, now);
      CommandKeeps(cfg, st, Command.ExpireAt(key, at), now, {});
      ShardLaws.ExpiryStored(cfg, st, Command.ExpireAt(key, at), now);
    }

    /** What is left of the time to live of an entry. */
    method TimeLeft(e: Option<Entry>, now: nat) returns (left: int)
      ensures left == if !Live(e, now) then -2
                      else if e.value.expireAt == 0 then -1
                      else Int64(e.value.expireAt - now)
      ensures Live(e, now) && e.value.expireAt > 0 ==> left == ClientLaws.Signed(e.value.expireAt - now)
    {
      if e.None? {
        left := -2;
      } else if e.value.expireAt == 0 {
        left := -1;
      } else if e.value.expireAt <= now {
        left := -2;
      } else {
        left := Int64(e.value.expireAt - now);
        Int64IsSigned(e.value.expireAt - now);
      }
    }

    method Pttl(key: string, now: nat) returns (left: int)
      requires Valid()
      modifies this
      ensures Valid() && St() == cfg.After(old(St()), Command.Pttl(key), now, {})
      ensures Number(left) == Answer(Command.Pttl(key), cfg.Union(old(shards)), now)
      ensures match cfg.At(old(shards), key)
              case None => left == -2
              case Some(e) => left == if e.expireAt == 0 then -1
                                      else if e.expireAt <= now then -2
                                      else ClientLaws.Signed(e.expireAt - now)
    {
      ghost var st := St();
      left := TimeLeft(Find(shards[cfg.Index(key)], key), now);
      Purge(key, now, false);
      CommandKeeps(cfg, st, Command.Pttl(key), now, {});
    }

    method Persist(key: string, now: nat) returns (done: bool)
      requires Valid()
      modifies this
      ensures Valid() && St() == cfg.After(old(St()), Command.Persist(key), now, {})
      ensures Number(if done then 1 else 0) == Answer(Command.Persist(key), cfg.Union(old(shards)), now)
      ensures done <==> Live(cfg.At(old(shards), key), now) && cfg.At(old(shards), key).value.expireAt > 0
      ensures done ==> cfg.At(shards, key) == Some(Entry(cfg.At(old(shards), key).value.value, 0, now))
    {
      ghost var st := St();
      var i := cfg.Index(key);
      Purge(key, now, false);
      done := key in shards[i] && shards[i][key].expireAt != 0;
      if done {
        Touch(key, shards[i][key].(expireAt := 0, lastAccess := now));
      }
      CommandKeeps(cfg, st, Command.Persist(key), now, {});
      ShardLaws.PersistStored(cfg, st, key, now);
    }

    // ---------- the sweeper ----------

    /** One entry that the sweeper looks at. */
    method SweepEntry(i: nat, k: string, now: nat)
      requires i < |shards| && k in shards[i]
      modifies this
      ensures St() == SweptOne(cfg, old(St()), i, k, now)
    {
      if Dead(shards[i][k], now) {
        Erase(i, k);
        expiredKeys := expiredKeys + 1;
      }
    }

    /** One shard of a sweeper pass: at most twenty entries are looked at, in any order, and the dead ones go.
        A shard whose lock is taken is skipped. */
    method SweepShard(i: nat, now: nat) returns (skipped: bool, ghost seen: set<string>)
      requires i < |shards| && memoryUsage <= UINT64_MAX
      modifies this
      ensures |seen| <= 20 && seen <= old(shards)[i].Keys && St() == cfg.Sweep(old(St()), i, seen, now)
      ensures if skipped then seen == {} else |seen| == 20 || seen == old(shards)[i].Keys
    {
      seen, skipped := {}, false;
      ghost var st := St();
      SweepNothing(cfg, st, i, now);
      var locked := *;
      if locked {
        skipped := true;
        return;
      }
      var rest := shards[i].Keys;
      var checked := 0;
      while rest != {} && checked < 20
        invariant SweepUnderWay(cfg, st, St(), i, seen, rest, now) && |seen| == checked <= 20
      {
        var k :| k in rest;
        SweepingOn(cfg, st, St(), i, seen, rest, k, now);
        SweepEntry(i, k, now);
        rest, seen, checked := rest - {k}, seen + {k}, checked + 1;
      }
    }

    /** A pass of the background sweeper over all shards. */
    method SweepPass(now: nat) returns (skipped: seq<bool>, ghost seen: seq<set<string>>)
      requires Valid()
      modifies this
      ensures |seen| == |skipped| == cfg.numShards && forall s :: s in seen ==> |s| <= 20
      ensures Valid() && St() == cfg.SweepAll(old(St()), seen, now)
      ensures forall i :: 0 <= i < |seen| && !skipped[i] ==> |seen[i]| == 20 || seen[i] == old(shards)[i].Keys
    {
      seen, skipped := [], [];
      ghost var st := St();
      for i := 0 to |shards|
        invariant |shards| == cfg.numShards && |seen| == |skipped| == i && Valid()
        invariant (forall s :: s in seen ==> |s| <= 20) && St() == cfg.SweepAll(st, seen, now)
        invariant forall j :: 0 <= j < i && !skipped[j] ==> |seen[j]| == 20 || seen[j] == st.shards[j].Keys
        invariant forall j :: i <= j < |shards| ==> shards[j] == st.shards[j]
      {
        ghost var cur := St();
        var locked, s := SweepShard(i, now);
        SweepKeeps(cfg, cur, i, s, now);
        assert (seen + [s])[..|seen|] == seen;
        seen, skipped := seen + [s], skipped + [locked];
      }
    }
  }
}
