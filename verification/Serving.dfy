/** What dispatching a request does to the sharded engine and to the log, and what the whole life of a server
    does, from its start on a log file to its crash. */
module Serving {
  import opened Machine
  import opened Sequences
  import opened Resp
  import opened Framing
  import opened Keyspace
  import KeyspaceLaws
  import opened Engine
  import opened EngineLaws
  import EngineRefinement
  import EngineRuns
  import ReplayLaws
  import opened Dispatcher
  import opened Recovery

  /** How requests are dispatched: by a replica or not, and as a replayed or replicated command or not. */
  datatype Mode = Mode(readOnly: bool, bypass: bool)

  /** What the engine reports of a command. A sum refused for lack of memory looks like a bad value. */
  ghost function Reported(cfg: Config, st: State, c: Command, now: nat): Option<Reply>
    requires cfg.Placed(st.shards)
  {
    if !cfg.Refused(st, c, now) then Some(Answer(c, cfg.Union(st.shards), now))
    else if c.Set? then None
    else Some(NotANumber)
  }

  /** `gone` is a possible choice of eviction for the request. */
  ghost predicate PossibleFor(cfg: Config, st: State, request: Value, mode: Mode, now: nat, gone: set<string>)
    requires cfg.Shaped(st.shards)
  {
    if !Gated(request, mode.readOnly, mode.bypass) && Decode(request).Perform?
    then cfg.Possible(st, Decode(request).command, now, gone) else gone == {}
  }

  ghost function AfterRequest(cfg: Config, st: State, request: Value, mode: Mode, now: nat, gone: set<string>): State
    requires cfg.Shaped(st.shards)
  {
    if Gated(request, mode.readOnly, mode.bypass) then st
    else
      match Decode(request)
      case Perform(c, _) => cfg.After(st, c, now, gone)
      case Resize(bytes) => st.(limit := bytes)
      case _ => st
  }

  /** The values logged for the request, none or one. */
  ghost function LoggedFor(cfg: Config, st: State, request: Value, mode: Mode, now: nat): seq<Value>
    requires cfg.Placed(st.shards)
  {
    if mode.bypass || Gated(request, mode.readOnly, mode.bypass) || !Decode(request).Perform? then []
    else
      var c := Decode(request).command;
      match Reported(cfg, st, c, now)
      case None => []
      case Some(r) => (match LogEntry(request, c, r, now) case None => [] case Some(v) => [v])
  }

  const READONLY := "READONLY You can't write against a read only replica"

  /** The response; the text of INFO is left open. */
  ghost function ResponseTo(cfg: Config, st: State, request: Value, mode: Mode, now: nat): Option<Value>
    requires cfg.Placed(st.shards)
  {
    if Gated(request, mode.readOnly, mode.bypass) then Some(Error(READONLY))
    else
      match Decode(request)
      case Perform(c, seconds) => Some(Respond(c, seconds, Reported(cfg, st, c, now)))
      case Reject(message) => Some(Error(message))
      case Resize(_) => Some(SimpleString("OK"))
      case Psync(_) => Some(SimpleString("CONTINUE"))
      case Say(text) => Some(text)
      case Quit => Some(SimpleString("OK"))
      case Info => None
  }

  lemma RequestKeeps(cfg: Config, st: State, request: Value, mode: Mode, now: nat, gone: set<string>)
    requires Sound(cfg, st) && PossibleFor(cfg, st, request, mode, now, gone)
    ensures Sound(cfg, AfterRequest(cfg, st, request, mode, now, gone))
  {
    if !Gated(request, mode.readOnly, mode.bypass) && Decode(request).Perform? {
      CommandKeeps(cfg, st, Decode(request).command, now, gone);
    }
  }

  /** Dispatching `request` leads from `a` to `b`. */
  ghost predicate Dispatches(cfg: Config, a: State, b: State, request: Value, mode: Mode, now: nat, gone: set<string>) {
    && Sound(cfg, a) && PossibleFor(cfg, a, request, mode, now, gone)
    && b == AfterRequest(cfg, a, request, mode, now, gone)
  }

  lemma DispatchKeeps(cfg: Config, a: State, b: State, request: Value, mode: Mode, now: nat, gone: set<string>)
    requires Dispatches(cfg, a, b, request, mode, now, gone)
    ensures Sound(cfg, b)
  {
    RequestKeeps(cfg, a, request, mode, now, gone);
  }

  // ---------- the life of a server ----------

  /** One thing at a time: a request is dispatched, past the gate and unlogged if it was taken from a log or a
      stream; or the sweeper looks at some entries of a shard. */
  datatype Work = Ask(value: Value, bypass: bool) | Pass(shard: nat, seen: set<string>)

  ghost predicate Works(cfg: Config, a: State, b: State, w: Work, readOnly: bool, now: nat, gone: set<string>,
                        logged: seq<Value>)
  {
    match w
    case Ask(v, bypass) =>
      && Dispatches(cfg, a, b, v, Mode(readOnly, bypass), now, gone)
      && logged == LoggedFor(cfg, a, v, Mode(readOnly, bypass), now)
    case Pass(i, seen) =>
      Sound(cfg, a) && i < cfg.numShards && gone == {} && b == cfg.Sweep(a, i, seen, now) && logged == []
  }

  lemma WorkKeeps(cfg: Config, a: State, b: State, w: Work, readOnly: bool, now: nat, gone: set<string>,
                  logged: seq<Value>)
    requires Works(cfg, a, b, w, readOnly, now, gone, logged)
    ensures Sound(cfg, b)
  {
    match w
    case Ask(v, bypass) => DispatchKeeps(cfg, a, b, v, Mode(readOnly, bypass), now, gone);
    case Pass(i, seen) => SweepKeeps(cfg, a, i, seen, now);
  }

  /** The works of a server, the states around them, and for each work the clock reading, the evicted keys and
      what it logged. */
  datatype Life = Life(cfg: Config, readOnly: bool, clock: nat -> nat, works: seq<Work>, trace: seq<State>,
                       gones: seq<set<string>>, logs: seq<seq<Value>>)
  {
    ghost predicate Whole() {
      |trace| == |works| + 1 && |gones| == |works| && |logs| == |works|
    }

    ghost function Then(w: Work, gone: set<string>, logged: seq<Value>, next: State): Life {
      this.(works := works + [w], trace := trace + [next], gones := gones + [gone], logs := logs + [logged])
    }
  }

  ghost predicate AllSound(life: Life) {
    forall i :: 0 <= i < |life.trace| ==> Sound(life.cfg, life.trace[i])
  }

  /** The i-th work leads from the i-th state to the next. */
  ghost predicate Linked(life: Life, i: nat)
    requires life.Whole() && i < |life.works|
  {
    Works(life.cfg, life.trace[i], life.trace[i + 1], life.works[i], life.readOnly, life.clock(i), life.gones[i],
          life.logs[i])
  }

  ghost predicate AllLinked(life: Life)
    requires life.Whole()
  {
    forall i :: 0 <= i < |life.works| ==> Linked(life, i)
  }

  ghost predicate IsLife(life: Life) {
    life.Whole() && AllSound(life) && AllLinked(life)
  }

  /** What was logged, in order. */
  ghost function LoggedIn(life: Life): seq<Value> {
    Join(life.logs, |life.logs|)
  }

  // ---------- lives grow ----------

  /** A life of which nothing has happened yet. */
  ghost function Newborn(cfg: Config, readOnly: bool, clock: nat -> nat, st: State): Life {
    Life(cfg, readOnly, clock, [], [st], [], [])
  }

  lemma NewbornIsLife(cfg: Config, readOnly: bool, clock: nat -> nat, st: State)
    requires Sound(cfg, st)
    ensures IsLife(Newborn(cfg, readOnly, clock, st)) && LoggedIn(Newborn(cfg, readOnly, clock, st)) == []
  {
  }

  lemma SoundExtends(life: Life, w: Work, gone: set<string>, logged: seq<Value>, next: State)
    requires AllSound(life) && Sound(life.cfg, next)
    ensures AllSound(life.Then(w, gone, logged, next))
  {
  }

  lemma LinkKept(life: Life, w: Work, gone: set<string>, logged: seq<Value>, next: State, i: nat)
    requires life.Whole() && i < |life.works| && Linked(life, i)
    ensures Linked(life.Then(w, gone, logged, next), i)
  {
  }

  lemma LinkAdded(life: Life, w: Work, gone: set<string>, logged: seq<Value>, next: State, n: nat)
    requires life.Whole() && n == |life.works|
    requires Works(life.cfg, life.trace[n], next, w, life.readOnly, life.clock(n), gone, logged)
    ensures Linked(life.Then(w, gone, logged, next), n)
  {
  }

  lemma LinksExtend(life: Life, w: Work, gone: set<string>, logged: seq<Value>, next: State)
    requires life.Whole() && AllLinked(life)
    requires var n := |life.works|; Works(life.cfg, life.trace[n], next, w, life.readOnly, life.clock(n), gone, logged)
    ensures AllLinked(life.Then(w, gone, logged, next))
  {
    forall i | 0 <= i <= |life.works| ensures Linked(life.Then(w, gone, logged, next), i) {
      if i < |life.works| {
        LinkKept(life, w, gone, logged, next, i);
      } else {
        LinkAdded(life, w, gone, logged, next, i);
      }
    }
  }

  lemma LifeExtends(life: Life, w: Work, gone: set<string>, logged: seq<Value>, next: State)
    requires IsLife(life)
    requires var n := |life.works|; Works(life.cfg, life.trace[n], next, w, life.readOnly, life.clock(n), gone, logged)
    ensures IsLife(life.Then(w, gone, logged, next))
  {
    var n := |life.works|;
    WorkKeeps(life.cfg, life.trace[n], next, w, life.readOnly, life.clock(n), gone, logged);
    SoundExtends(life, w, gone, logged, next);
    LinksExtend(life, w, gone, logged, next);
  }

  lemma LogExtends(life: Life, w: Work, gone: set<string>, logged: seq<Value>, next: State)
    ensures LoggedIn(life.Then(w, gone, logged, next)) == LoggedIn(life) + logged
  {
    JoinKept(life.logs, logged, |life.logs|);
  }

  // ---------- one life after the other ----------

  ghost predicate Continues(b: Life, a: Life) {
    IsLife(a) && IsLife(b) && b.cfg == a.cfg && b.readOnly == a.readOnly && b.trace[0] == a.trace[|a.works|]
  }

  /** A life and what came after it, each by its own clock. */
  ghost function Continued(a: Life, b: Life): Life
    requires Continues(b, a)
  {
    Life(a.cfg, a.readOnly, (i: nat) => if i < |a.works| then a.clock(i) else b.clock(i - |a.works|),
         a.works + b.works, a.trace + b.trace[1..], a.gones + b.gones, a.logs + b.logs)
  }

  /** The i-th work of both is a work of the first, or one of the second. */
  lemma ContinuedAt(a: Life, b: Life, i: nat)
    requires Continues(b, a) && i < |a.works| + |b.works|
    ensures var c, n := Continued(a, b), |a.works|;
            if i < n then
              && c.works[i] == a.works[i] && c.trace[i] == a.trace[i] && c.trace[i + 1] == a.trace[i + 1]
              && c.gones[i] == a.gones[i] && c.logs[i] == a.logs[i] && c.clock(i) == a.clock(i)
            else
              && c.works[i] == b.works[i - n] && c.trace[i] == b.trace[i - n] && c.trace[i + 1] == b.trace[i - n + 1]
              && c.gones[i] == b.gones[i - n] && c.logs[i] == b.logs[i - n] && c.clock(i) == b.clock(i - n)
  {
  }

  lemma ContinuedIsSound(a: Life, b: Life)
    requires Continues(b, a)
    ensures AllSound(Continued(a, b))
  {
    var c, n := Continued(a, b), |a.works|;
    forall i | 0 <= i < |c.trace| ensures Sound(c.cfg, c.trace[i]) {
      if i > n {
        assert c.trace[i] == b.trace[1..][i - n - 1] == b.trace[i - n];
      }
    }
  }

  lemma ContinuedIsLinked(a: Life, b: Life, i: nat)
    requires Continues(b, a) && i < |a.works| + |b.works|
    ensures Linked(Continued(a, b), i)
  {
    ContinuedAt(a, b, i);
    if i < |a.works| {
      assert Linked(a, i);
    } else {
      assert Linked(b, i - |a.works|);
    }
  }

  /** Two lives, the second starting where the first ended, are one, which logs what both log. */
  lemma LivesJoin(a: Life, b: Life)
    requires Continues(b, a)
    ensures IsLife(Continued(a, b)) && LoggedIn(Continued(a, b)) == LoggedIn(a) + LoggedIn(b)
    ensures Continued(a, b).trace[|a.works| + |b.works|] == b.trace[|b.works|]
  {
    ContinuedIsSound(a, b);
    forall i | 0 <= i < |a.works| + |b.works| ensures Linked(Continued(a, b), i) {
      ContinuedIsLinked(a, b, i);
    }
    JoinBoth(a.logs, b.logs, |b.logs|);
  }

  lemma CalmJoin(a: Life, b: Life)
    requires Continues(b, a) && AllCalm(a) && AllCalm(b)
    ensures IsLife(Continued(a, b)) && AllCalm(Continued(a, b))
  {
    LivesJoin(a, b);
    var c, n := Continued(a, b), |a.works|;
    forall i | 0 <= i < |c.works| ensures CalmAt(c, i) {
      ContinuedAt(a, b, i);
      assert if i < n then CalmAt(a, i) else CalmAt(b, i - n);
    }
  }

  /** Requests dispatched one after the other. */
  function Asks(values: seq<Value>, bypass: bool): seq<Work> {
    seq(|values|, i requires 0 <= i < |values| => Ask(values[i], bypass))
  }

  lemma AsksMore(values: seq<Value>, v: Value, bypass: bool)
    ensures Asks(values + [v], bypass) == Asks(values, bypass) + [Ask(v, bypass)]
  {
  }

  /** A pass of the sweeper over the shards, in order, as a life. */
  ghost function Sweeping(cfg: Config, readOnly: bool, st: State, seen: seq<set<string>>, now: nat): Life
    requires |seen| <= |st.shards|
  {
    Life(cfg, readOnly, (_: nat) => now, seq(|seen|, i requires 0 <= i < |seen| => Pass(i, seen[i])),
         seq(|seen| + 1, i requires 0 <= i <= |seen| => cfg.SweepAll(st, seen[..i], now)),
         seq(|seen|, _ => {}), seq(|seen|, _ => []))
  }

  lemma {:induction false} SweepAllKeeps(cfg: Config, st: State, seen: seq<set<string>>, now: nat)
    requires Sound(cfg, st) && |seen| <= cfg.numShards
    ensures Sound(cfg, cfg.SweepAll(st, seen, now))
    decreases |seen|
  {
    if seen != [] {
      var n := |seen| - 1;
      SweepAllKeeps(cfg, st, seen[..n], now);
      SweepKeeps(cfg, cfg.SweepAll(st, seen[..n], now), n, seen[n], now);
    }
  }

  /** It leads from the state before the pass to the state after it, evicts nothing and logs nothing. */
  lemma SweepingIsLife(cfg: Config, readOnly: bool, st: State, seen: seq<set<string>>, now: nat)
    requires Sound(cfg, st) && |seen| <= cfg.numShards
    ensures var life := Sweeping(cfg, readOnly, st, seen, now);
            && IsLife(life) && AllCalm(life) && LoggedIn(life) == []
            && life.trace[0] == st && life.trace[|seen|] == cfg.SweepAll(st, seen, now)
  {
    var life := Sweeping(cfg, readOnly, st, seen, now);
    forall i | 0 <= i <= |seen| ensures Sound(cfg, life.trace[i]) {
      SweepAllKeeps(cfg, st, seen[..i], now);
    }
    forall i | 0 <= i < |seen| ensures Linked(life, i) {
      assert seen[..i + 1][..i] == seen[..i];
    }
    NothingJoined(life.logs, |seen|);
    assert seen[..|seen|] == seen;
  }

  lemma {:induction false} NothingJoined(logs: seq<seq<Value>>, n: nat)
    requires n <= |logs| && forall i :: 0 <= i < |logs| ==> logs[i] == []
    ensures Join(logs, n) == []
  {
    if n > 0 {
      NothingJoined(logs, n - 1);
    }
  }

  // ---------- on one map ----------

  /** The work as a turn of the key space, `gone` being what was evicted; what the gate turns away is nothing. */
  ghost function TurnOf(cfg: Config, st: State, w: Work, readOnly: bool, now: nat, gone: set<string>): Turn
    requires cfg.Shaped(st.shards)
  {
    match w
    case Ask(v, bypass) =>
      if Gated(v, readOnly, bypass) then Swept({}, now)
      else if bypass then Replayed(v, now)
      else if Denies(cfg, st, v, now) then Denied(Decode(v).command.key, now, gone)
      else Asked(v, now, gone)
    case Pass(i, seen) => Swept((set k | k in seen && cfg.Index(k) == i), now)
  }

  /** The request is a write that is refused for lack of memory. */
  ghost predicate Denies(cfg: Config, st: State, v: Value, now: nat)
    requires cfg.Shaped(st.shards)
  {
    && Decode(v).Perform? && (Decode(v).command.Set? || Decode(v).command.Add?)
    && cfg.Refused(st, Decode(v).command, now)
  }

  ghost function TurnAt(life: Life, i: nat): Turn
    requires IsLife(life) && i < |life.works|
  {
    TurnOf(life.cfg, life.trace[i], life.works[i], life.readOnly, life.clock(i), life.gones[i])
  }

  ghost function Turns(life: Life, n: nat): seq<Turn>
    requires IsLife(life) && n <= |life.works|
  {
    seq(n, i requires 0 <= i < n => TurnAt(life, i))
  }

  lemma TurnsLast(life: Life, n: nat)
    requires IsLife(life) && 0 < n <= |life.works|
    ensures Turns(life, n) == Turns(life, n - 1) + [TurnAt(life, n - 1)]
  {
  }

  lemma TurnsPrefix(life: Life, n: nat, m: nat)
    requires IsLife(life) && n <= m <= |life.works|
    ensures Turns(life, m)[..n] == Turns(life, n)
  {
  }

  /** The work evicts nothing and is not refused for lack of memory. */
  ghost predicate Calm(cfg: Config, st: State, w: Work, readOnly: bool, now: nat, gone: set<string>)
    requires cfg.Shaped(st.shards)
  {
    w.Ask? && !Gated(w.value, readOnly, w.bypass) && Decode(w.value).Perform? ==>
      gone == {} && !cfg.Refused(st, Decode(w.value).command, now)
  }

  ghost predicate CalmAt(life: Life, i: nat)
    requires IsLife(life) && i < |life.works|
  {
    Calm(life.cfg, life.trace[i], life.works[i], life.readOnly, life.clock(i), life.gones[i])
  }

  ghost predicate CalmUpTo(life: Life, n: nat)
    requires IsLife(life) && n <= |life.works|
  {
    forall i :: 0 <= i < n ==> CalmAt(life, i)
  }

  ghost predicate AllCalm(life: Life)
    requires IsLife(life)
  {
    CalmUpTo(life, |life.works|)
  }

  /** What is taken from a log evicts nothing and is not refused. */
  ghost predicate CalmReplays(life: Life)
    requires IsLife(life)
  {
    forall i :: 0 <= i < |life.works| && life.works[i].Ask? && life.works[i].bypass ==> CalmAt(life, i)
  }

  /** What a turn leaves of the key space. */
  function AfterTurn(t: Turn, d: Dict): Dict {
    if DeedOf(t) == [] then d else ReplayLaws.Outcome(DeedOf(t)[0], d)
  }

  lemma ServedMore(before: seq<Turn>, t: Turn)
    ensures Served(before + [t]) == AfterTurn(t, Served(before))
    ensures Entries(before + [t]) == Entries(before) + EntryOf(t, Served(before))
  {
    assert Front(before + [t]) == before;
    DeedsLast(before + [t]);
  }

  /** A command that is not refused does to the shards what it does to one map, less what was evicted. */
  lemma CommandServes(cfg: Config, st: State, c: Command, now: nat, gone: set<string>)
    requires Sound(cfg, st) && cfg.Possible(st, c, now, gone) && !cfg.Refused(st, c, now)
    ensures cfg.Placed(cfg.After(st, c, now, gone).shards)
    ensures cfg.Union(cfg.After(st, c, now, gone).shards) ==
            ReplayLaws.Outcome(ReplayLaws.Own(KeyspaceLaws.Do(c, now), gone), cfg.Union(st.shards))
  {
    EngineRefinement.CommandRefines(cfg, st, c, now, gone);
    ReplayLaws.CommandOutcome(c, now, gone, cfg.Union(st.shards));
  }

  lemma SweptOutcome(key: string, now: nat, gone: set<string>, d: Dict, k: string)
    ensures Find(ReplayLaws.Outcome(ReplayLaws.Own(KeyspaceLaws.Sweep({key}, now), gone), d), k) ==
            if k in gone || (k == key && k in d && Dead(d[k], now)) then None else Find(d, k)
  {
    KeyspaceLaws.FindAfter(KeyspaceLaws.Sweep({key}, now), d, k);
  }

  lemma RefusalServesAt(cfg: Config, st: State, c: Command, now: nat, gone: set<string>, k: string)
    requires Sound(cfg, st) && cfg.Possible(st, c, now, gone) && cfg.Refused(st, c, now)
    ensures c.Set? || c.Add?
    ensures var d := cfg.Union(st.shards);
            cfg.At(cfg.After(st, c, now, gone).shards, k) ==
            if k in gone || (k == c.key && k in d && Dead(d[k], now)) then None else Find(d, k)
  {
    PurgeKeeps(cfg, st, c.key, now, false);
    EngineRefinement.RefusedAt(cfg, st, c, now, gone, k);
    assert Find(cfg.Union(st.shards), k) == cfg.At(st.shards, k);
  }

  /** A refused one takes what it evicted, and its own key if that had expired. */
  lemma RefusalServes(cfg: Config, st: State, c: Command, now: nat, gone: set<string>)
    requires Sound(cfg, st) && cfg.Possible(st, c, now, gone) && cfg.Refused(st, c, now)
    ensures cfg.Placed(cfg.After(st, c, now, gone).shards) && (c.Set? || c.Add?)
    ensures cfg.Union(cfg.After(st, c, now, gone).shards) ==
            ReplayLaws.Outcome(ReplayLaws.Own(KeyspaceLaws.Sweep({c.key}, now), gone), cfg.Union(st.shards))
  {
    CommandKeeps(cfg, st, c, now, gone);
    var deed := ReplayLaws.Own(KeyspaceLaws.Sweep({c.key}, now), gone);
    var a, b := cfg.Union(cfg.After(st, c, now, gone).shards), ReplayLaws.Outcome(deed, cfg.Union(st.shards));
    forall k: string ensures Find(a, k) == Find(b, k) {
      RefusalServesAt(cfg, st, c, now, gone, k);
      SweptOutcome(c.key, now, gone, cfg.Union(st.shards), k);
    }
    SameFinds(a, b);
  }

  lemma RedoneAlike(v: Value, now: nat, d: Dict)
    requires Decode(v).Perform?
    ensures ReplayLaws.Outcome(ReplayLaws.Own(KeyspaceLaws.Do(Decode(v).command, now), {}), d) ==
            AfterTurn(Replayed(v, now), d)
  {
  }

  /** A value taken from a log and performed without eviction. */
  lemma ReplayRefines(cfg: Config, st: State, v: Value, now: nat)
    requires Sound(cfg, st) && Decode(v).Perform? && cfg.Possible(st, Decode(v).command, now, {})
    requires !cfg.Refused(st, Decode(v).command, now)
    ensures cfg.Placed(cfg.After(st, Decode(v).command, now, {}).shards)
    ensures cfg.Union(cfg.After(st, Decode(v).command, now, {}).shards) ==
            AfterTurn(Replayed(v, now), cfg.Union(st.shards))
  {
    CommandServes(cfg, st, Decode(v).command, now, {});
    RedoneAlike(v, now, cfg.Union(st.shards));
  }

  /** A client's command, performed or refused. */
  lemma CommandRefines(cfg: Config, st: State, v: Value, now: nat, gone: set<string>)
    requires Sound(cfg, st) && Decode(v).Perform? && cfg.Possible(st, Decode(v).command, now, gone)
    ensures var c, denied := Decode(v).command, Denies(cfg, st, v, now);
            var t := if denied then Denied(Decode(v).command.key, now, gone) else Asked(v, now, gone);
            && cfg.Placed(cfg.After(st, c, now, gone).shards)
            && cfg.Union(cfg.After(st, c, now, gone).shards) == AfterTurn(t, cfg.Union(st.shards))
  {
    var c := Decode(v).command;
    if cfg.Refused(st, c, now) {
      RefusalServes(cfg, st, c, now, gone);
    } else {
      CommandServes(cfg, st, c, now, gone);
    }
  }

  /** Dispatching does to the shards what the turn does to one map, evictions and refusals included. */
  lemma RequestRefines(cfg: Config, a: State, b: State, v: Value, bypass: bool, readOnly: bool, now: nat,
                       gone: set<string>)
    requires Dispatches(cfg, a, b, v, Mode(readOnly, bypass), now, gone) && !Gated(v, readOnly, bypass)
    requires bypass ==> Calm(cfg, a, Ask(v, bypass), readOnly, now, gone)
    ensures cfg.Placed(b.shards)
    ensures cfg.Union(b.shards) == AfterTurn(TurnOf(cfg, a, Ask(v, bypass), readOnly, now, gone), cfg.Union(a.shards))
  {
    if Decode(v).Perform? {
      if bypass {
        ReplayRefines(cfg, a, v, now);
      } else {
        CommandRefines(cfg, a, v, now, gone);
      }
    }
  }

  /** And it logs what the turn logs there. */
  lemma RequestLogs(cfg: Config, st: State, v: Value, readOnly: bool, now: nat, gone: set<string>)
    requires cfg.Placed(st.shards) && !Gated(v, readOnly, false)
    ensures LoggedFor(cfg, st, v, Mode(readOnly, false), now) ==
            EntryOf(TurnOf(cfg, st, Ask(v, false), readOnly, now, gone), cfg.Union(st.shards))
  {
  }

  lemma PassRefines(cfg: Config, st: State, i: nat, seen: set<string>, now: nat)
    requires Sound(cfg, st) && i < cfg.numShards
    ensures cfg.Placed(cfg.Sweep(st, i, seen, now).shards)
    ensures cfg.Union(cfg.Sweep(st, i, seen, now).shards) ==
            KeyspaceLaws.After(KeyspaceLaws.Sweep((set k | k in seen && cfg.Index(k) == i), now), cfg.Union(st.shards))
  {
    EngineRuns.SweepRefines(cfg, st, i, seen, now);
  }

  lemma SweptLeaves(keys: set<string>, now: nat, d: Dict)
    ensures AfterTurn(Swept(keys, now), d) == KeyspaceLaws.After(KeyspaceLaws.Sweep(keys, now), d)
    ensures AfterTurn(Swept({}, now), d) == d
  {
  }

  lemma GatedStays(cfg: Config, a: State, b: State, v: Value, bypass: bool, readOnly: bool, now: nat, gone: set<string>)
    requires Dispatches(cfg, a, b, v, Mode(readOnly, bypass), now, gone) && Gated(v, readOnly, bypass)
    ensures b == a
  {
  }

  /** Each work does to the shards what its turn does to one map. */
  lemma WorkServes(cfg: Config, a: State, b: State, w: Work, readOnly: bool, now: nat, gone: set<string>,
                   logged: seq<Value>)
    requires Works(cfg, a, b, w, readOnly, now, gone, logged)
    requires w.Ask? && w.bypass ==> Calm(cfg, a, w, readOnly, now, gone)
    ensures cfg.Placed(b.shards)
    ensures cfg.Union(b.shards) == AfterTurn(TurnOf(cfg, a, w, readOnly, now, gone), cfg.Union(a.shards))
  {
    match w
    case Ask(v, bypass) =>
      if Gated(v, readOnly, bypass) {
        GatedStays(cfg, a, b, v, bypass, readOnly, now, gone);
        SweptLeaves({}, now, cfg.Union(a.shards));
      } else {
        RequestRefines(cfg, a, b, v, bypass, readOnly, now, gone);
      }
    case Pass(i, seen) =>
      SweptLeaves((set k | k in seen && cfg.Index(k) == i), now, cfg.Union(a.shards));
      PassRefines(cfg, a, i, seen, now);
  }

  /** What the log holds of a work: a value taken from a log was there before. */
  function KeptOf(w: Work, logged: seq<Value>): seq<Value> {
    if w.Ask? && w.bypass then [w.value] else logged
  }

  lemma WorkLogs(cfg: Config, a: State, b: State, w: Work, readOnly: bool, now: nat, gone: set<string>,
                 logged: seq<Value>)
    requires Works(cfg, a, b, w, readOnly, now, gone, logged) && (w.Ask? && w.bypass ==> Recorded(w.value))
    ensures EntryOf(TurnOf(cfg, a, w, readOnly, now, gone), cfg.Union(a.shards)) == KeptOf(w, logged)
  {
    if w.Ask? && !w.bypass && !Gated(w.value, readOnly, false) {
      RequestLogs(cfg, a, w.value, readOnly, now, gone);
    }
  }

  lemma NextServed(life: Life, n: nat)
    requires IsLife(life) && CalmReplays(life) && n < |life.works|
    requires life.cfg.Union(life.trace[n].shards) == Served(Turns(life, n))
    ensures life.cfg.Union(life.trace[n + 1].shards) == Served(Turns(life, n + 1))
  {
    TurnsLast(life, n + 1);
    assert Linked(life, n);
    WorkServes(life.cfg, life.trace[n], life.trace[n + 1], life.works[n], life.readOnly, life.clock(n),
               life.gones[n], life.logs[n]);
    ServedMore(Turns(life, n), TurnAt(life, n));
  }

  /** The server starts empty. */
  ghost predicate FreshLife(life: Life) {
    IsLife(life) && life.cfg.numShards > 0 && life.trace[0] == life.cfg.Initial()
  }

  /** And what it takes from a log evicts nothing. */
  ghost predicate Begun(life: Life) {
    FreshLife(life) && CalmReplays(life)
  }

  lemma NothingServed()
    ensures Served([]) == map[]
  {
  }

  lemma FreshServes(cfg: Config, turns: seq<Turn>)
    requires cfg.numShards > 0 && turns == []
    ensures cfg.Placed(cfg.Initial().shards) && cfg.Union(cfg.Initial().shards) == Served(turns)
  {
    EngineRuns.InitialIsSound(cfg);
    NothingServed();
  }

  /** Such a life does to the shards what its turns do to one map. */
  lemma {:induction false} LifeServes(life: Life, n: nat)
    requires Begun(life) && n <= |life.works|
    ensures life.cfg.Union(life.trace[n].shards) == Served(Turns(life, n))
  {
    if n == 0 {
      FreshServes(life.cfg, Turns(life, 0));
    } else {
      LifeServes(life, n - 1);
      NextServed(life, n - 1);
    }
  }

  /** The values taken from a log among the first `n` works. */
  function ReplayedUpTo(works: seq<Work>, n: nat): seq<Value>
    requires n <= |works|
  {
    if n == 0 then []
    else ReplayedUpTo(works, n - 1) + if works[n - 1].Ask? && works[n - 1].bypass then [works[n - 1].value] else []
  }

  /** No client is served among the first `n` works. */
  predicate NoClients(works: seq<Work>, n: nat)
    requires n <= |works|
  {
    forall i :: 0 <= i < n && works[i].Ask? ==> works[i].bypass
  }

  /** Start-up comes first: the log is replayed before any client is served. */
  predicate BootsFirst(works: seq<Work>) {
    forall i, j :: 0 <= i < j < |works| && works[j].Ask? && works[j].bypass && works[i].Ask? ==> works[i].bypass
  }

  predicate Replayable(w: Work)
    requires w.Ask?
  {
    if w.bypass then Recorded(w.value) else WireSafe(w.value)
  }

  predicate AllReplayable(works: seq<Work>) {
    forall i :: 0 <= i < |works| && works[i].Ask? ==> Replayable(works[i])
  }

  lemma NextEntries(life: Life, n: nat)
    requires Begun(life) && AllReplayable(life.works) && n < |life.works|
    ensures Entries(Turns(life, n + 1)) == Entries(Turns(life, n)) + KeptOf(life.works[n], life.logs[n])
  {
    LifeServes(life, n);
    TurnsLast(life, n + 1);
    assert Linked(life, n);
    WorkLogs(life.cfg, life.trace[n], life.trace[n + 1], life.works[n], life.readOnly, life.clock(n), life.gones[n],
             life.logs[n]);
    ServedMore(Turns(life, n), TurnAt(life, n));
  }

  lemma BypassLogsNothing(life: Life, n: nat)
    requires IsLife(life) && n < |life.works| && life.works[n].Ask? && life.works[n].bypass
    ensures life.logs[n] == []
  {
    assert Linked(life, n);
  }

  lemma PassLogsNothing(life: Life, n: nat)
    requires IsLife(life) && n < |life.works| && life.works[n].Pass?
    ensures life.logs[n] == []
  {
    assert Linked(life, n);
  }

  lemma {:induction false} BootLogsNothing(life: Life, n: nat)
    requires IsLife(life) && n <= |life.works| && NoClients(life.works, n)
    ensures Join(life.logs, n) == []
  {
    if n > 0 {
      BootLogsNothing(life, n - 1);
      if life.works[n - 1].Ask? {
        BypassLogsNothing(life, n - 1);
      } else {
        PassLogsNothing(life, n - 1);
      }
    }
  }

  lemma Shuffle(a: seq<Value>, b: seq<Value>, c: seq<Value>, d: seq<Value>)
    requires b == [] || c == []
    ensures a + b + (c + d) == a + c + (b + d)
  {
  }

  /** One more work adds to what was replayed or to what was logged. */
  lemma NextLogged(life: Life, n: nat)
    requires IsLife(life) && BootsFirst(life.works) && n < |life.works|
    ensures ReplayedUpTo(life.works, n) + Join(life.logs, n) + KeptOf(life.works[n], life.logs[n]) ==
            ReplayedUpTo(life.works, n + 1) + Join(life.logs, n + 1)
  {
    var w := life.works[n];
    if w.Ask? && w.bypass {
      BypassLogsNothing(life, n);
      BootLogsNothing(life, n);
      Shuffle(ReplayedUpTo(life.works, n), Join(life.logs, n), [w.value], []);
    } else {
      Shuffle(ReplayedUpTo(life.works, n), Join(life.logs, n), [], life.logs[n]);
    }
  }

  lemma NextLifeLogs(life: Life, n: nat)
    requires Begun(life) && AllReplayable(life.works) && BootsFirst(life.works) && n < |life.works|
    requires Entries(Turns(life, n)) == ReplayedUpTo(life.works, n) + Join(life.logs, n)
    ensures Entries(Turns(life, n + 1)) == ReplayedUpTo(life.works, n + 1) + Join(life.logs, n + 1)
  {
    NextEntries(life, n);
    NextLogged(life, n);
  }

  lemma NoEntries(life: Life)
    requires IsLife(life)
    ensures Entries(Turns(life, 0)) == [] && Applying(Turns(life, 0)) && ReplayedUpTo(life.works, 0) == []
    ensures ReplayedUpTo(life.works, 0) + Join(life.logs, 0) == []
  {
    assert Turns(life, 0) == [];
  }

  /** The log of a life: what was replayed at its start, and then what it logged. */
  lemma {:induction false} LifeLogs(life: Life, n: nat)
    requires Begun(life) && AllReplayable(life.works) && BootsFirst(life.works) && n <= |life.works|
    ensures Entries(Turns(life, n)) == ReplayedUpTo(life.works, n) + Join(life.logs, n)
  {
    if n == 0 {
      NoEntries(life);
    } else {
      var m := n - 1;
      LifeLogs(life, m);
      NextLifeLogs(life, m);
      assert m + 1 == n;
    }
  }

  // ---------- servers without a memory limit ----------

  predicate NoLimitSet(works: seq<Work>) {
    forall i :: 0 <= i < |works| && works[i].Ask? && Decode(works[i].value).Resize? ==>
      Decode(works[i].value).bytes == 0
  }

  lemma RequestKeepsNoLimit(cfg: Config, a: State, b: State, v: Value, mode: Mode, now: nat, gone: set<string>)
    requires Dispatches(cfg, a, b, v, mode, now, gone) && a.limit == 0
    requires Decode(v).Resize? ==> Decode(v).bytes == 0
    ensures b.limit == 0
  {
    if !Gated(v, mode.readOnly, mode.bypass) && Decode(v).Perform? {
      EngineRuns.StepKeepsLimit(cfg, a, EngineRuns.Execute(Decode(v).command, now, gone));
    }
  }

  lemma WorkIsCalm(cfg: Config, a: State, b: State, w: Work, readOnly: bool, now: nat, gone: set<string>,
                   logged: seq<Value>)
    requires Works(cfg, a, b, w, readOnly, now, gone, logged) && a.limit == 0
    ensures Calm(cfg, a, w, readOnly, now, gone)
  {
    if w.Ask? && !Gated(w.value, readOnly, w.bypass) && Decode(w.value).Perform? {
      EngineRuns.UnlimitedIsRoomy(cfg, a, Decode(w.value).command, now, gone);
    }
  }

  lemma NextLimit(life: Life, n: nat)
    requires IsLife(life) && NoLimitSet(life.works) && n < |life.works| && life.trace[n].limit == 0
    ensures life.trace[n + 1].limit == 0
  {
    assert Linked(life, n);
    if life.works[n].Ask? {
      RequestKeepsNoLimit(life.cfg, life.trace[n], life.trace[n + 1], life.works[n].value,
                          Mode(life.readOnly, life.works[n].bypass), life.clock(n), life.gones[n]);
    }
  }

  lemma {:induction false} LimitStaysUnset(life: Life, n: nat)
    requires IsLife(life) && life.trace[0].limit == 0 && NoLimitSet(life.works) && n <= |life.works|
    ensures life.trace[n].limit == 0
  {
    if n > 0 {
      LimitStaysUnset(life, n - 1);
      NextLimit(life, n - 1);
    }
  }

  lemma UnlimitedAt(life: Life, i: nat)
    requires IsLife(life) && i < |life.works| && life.trace[i].limit == 0
    ensures CalmAt(life, i)
  {
    assert Linked(life, i);
    WorkIsCalm(life.cfg, life.trace[i], life.trace[i + 1], life.works[i], life.readOnly, life.clock(i), life.gones[i],
               life.logs[i]);
  }

  /** A server whose memory limit is never set evicts nothing and refuses nothing. */
  lemma UnlimitedIsCalm(life: Life)
    requires IsLife(life) && life.trace[0].limit == 0 && NoLimitSet(life.works)
    ensures AllCalm(life)
  {
    forall i | 0 <= i < |life.works| ensures CalmAt(life, i) {
      LimitStaysUnset(life, i);
      UnlimitedAt(life, i);
    }
  }

  /** While a log is replayed no client has set a limit yet. */
  lemma BootStepIsUnlimited(life: Life, n: nat)
    requires IsLife(life) && AllReplayable(life.works) && n < |life.works| && life.trace[n].limit == 0
    requires life.works[n].Ask? ==> life.works[n].bypass
    ensures life.trace[n + 1].limit == 0
  {
    assert Linked(life, n);
    if life.works[n].Ask? {
      RequestKeepsNoLimit(life.cfg, life.trace[n], life.trace[n + 1], life.works[n].value,
                          Mode(life.readOnly, true), life.clock(n), life.gones[n]);
    }
  }

  lemma {:induction false} BootIsUnlimited(life: Life, n: nat)
    requires FreshLife(life) && AllReplayable(life.works) && n <= |life.works| && NoClients(life.works, n)
    ensures life.trace[n].limit == 0
  {
    if n > 0 {
      var m := n - 1;
      BootIsUnlimited(life, m);
      BootStepIsUnlimited(life, m);
    }
  }

  lemma BootIsCalm(life: Life, n: nat)
    requires FreshLife(life) && AllReplayable(life.works) && n <= |life.works| && NoClients(life.works, n)
    ensures CalmUpTo(life, n)
  {
    forall i | 0 <= i < n ensures CalmAt(life, i) {
      BootIsUnlimited(life, i);
      UnlimitedAt(life, i);
    }
  }

  lemma CalmIsBegun(life: Life)
    requires FreshLife(life) && AllCalm(life)
    ensures Begun(life)
  {
    forall i | 0 <= i < |life.works| && life.works[i].Ask? && life.works[i].bypass ensures CalmAt(life, i) {
    }
  }

  /** So start-up evicts nothing: the limit is not in the log. */
  lemma StartEvictsNothing(life: Life)
    requires FreshLife(life) && AllReplayable(life.works) && BootsFirst(life.works)
    ensures Begun(life)
  {
    forall i | 0 <= i < |life.works| && life.works[i].Ask? && life.works[i].bypass ensures CalmAt(life, i) {
      assert NoClients(life.works, i);
      BootIsUnlimited(life, i);
      UnlimitedAt(life, i);
    }
  }

  lemma CalmTurn(life: Life, i: nat)
    requires IsLife(life) && i < |life.works| && CalmAt(life, i)
    ensures EvictsNothing(TurnAt(life, i)) && !TurnAt(life, i).Denied?
  {
    assert Linked(life, i);
  }

  /** From a server that evicts nothing nothing can come back. */
  lemma CalmBringsNothingBack(life: Life, b: seq<ReplayLaws.Deed>, since: nat)
    requires IsLife(life) && AllCalm(life)
    ensures ReplayLaws.NothingComesBack(DeedsOf(AllTurns(life)), b, since)
  {
    forall i | 0 <= i < |life.works| ensures EvictsNothing(AllTurns(life)[i]) {
      assert CalmAt(life, i);
      CalmTurn(life, i);
    }
    QuietDeeds(AllTurns(life));
    ReplayLaws.NothingLostNothingBack(DeedsOf(AllTurns(life)), b, since);
  }

  // ---------- followers ----------

  lemma TurnIsSane(life: Life, i: nat)
    requires IsLife(life) && i < |life.works| && (life.works[i].Ask? ==> Replayable(life.works[i]))
    ensures Sane(TurnAt(life, i))
  {
  }

  lemma TurnsReceived(life: Life, n: nat)
    requires IsLife(life) && AllReplayable(life.works) && n <= |life.works|
    ensures Received(Turns(life, n))
  {
    forall i | 0 <= i < n ensures Sane(Turns(life, n)[i]) {
      TurnIsSane(life, i);
    }
  }

  /** The clock of a server never goes back. */
  ghost predicate Ticks(clock: nat -> nat) {
    forall i: nat, j: nat :: i <= j ==> clock(i) <= clock(j)
  }

  lemma TurnTime(life: Life, i: nat)
    requires IsLife(life) && i < |life.works|
    ensures DeedOf(TurnAt(life, i)) != [] ==> DeedOf(TurnAt(life, i))[0].Act().now == life.clock(i)
  {
  }

  lemma OrderedMore(a: seq<ReplayLaws.Deed>, deeds: seq<ReplayLaws.Deed>, now: nat)
    requires ReplayLaws.Ordered(a) && ReplayLaws.Latest(a) <= now && |deeds| <= 1
    requires deeds != [] ==> deeds[0].Act().now == now
    ensures ReplayLaws.Ordered(a + deeds) && ReplayLaws.Latest(a + deeds) <= now
  {
    if deeds == [] {
      assert a + deeds == a;
    } else {
      assert Front(a + deeds) == a && Last(a + deeds) == deeds[0];
    }
  }

  lemma DeedsMore(before: seq<Turn>, t: Turn)
    ensures DeedsOf(before + [t]) == DeedsOf(before) + DeedOf(t)
  {
    assert Front(before + [t]) == before;
  }

  lemma {:induction false} TurnsOrdered(life: Life, n: nat)
    requires IsLife(life) && Ticks(life.clock) && n <= |life.works|
    ensures ReplayLaws.Ordered(DeedsOf(Turns(life, n)))
    ensures ReplayLaws.Latest(DeedsOf(Turns(life, n))) <= life.clock(n)
  {
    if n > 0 {
      var now := life.clock(n - 1);
      TurnsOrdered(life, n - 1);
      TurnsLast(life, n);
      TurnTime(life, n - 1);
      var t := TurnAt(life, n - 1);
      DeedsMore(Turns(life, n - 1), t);
      OrderedMore(DeedsOf(Turns(life, n - 1)), DeedOf(t), now);
      assert now <= life.clock(n);
    }
  }

  /** The server logs nothing of its own: it is a replica, or serves no clients yet. */
  predicate LogsNothing(life: Life, n: nat)
    requires n <= |life.works|
  {
    life.readOnly || NoClients(life.works, n)
  }

  /** The read-only gate covers all that logs. */
  lemma ReadOnlyLogsNothing(cfg: Config, st: State, v: Value, bypass: bool, now: nat)
    requires cfg.Placed(st.shards)
    ensures LoggedFor(cfg, st, v, Mode(true, bypass), now) == []
  {
    if !bypass && Decode(v).Perform? && Reported(cfg, st, Decode(v).command, now).Some? {
      var r := Reported(cfg, st, Decode(v).command, now).value;
      if LogEntry(v, Decode(v).command, r, now).Some? {
        GateCoversLog(v, r, now);
      }
    }
  }

  lemma FollowerLogsNothing(life: Life, n: nat, i: nat)
    requires IsLife(life) && i < n <= |life.works| && LogsNothing(life, n)
    ensures life.logs[i] == []
  {
    assert Linked(life, i);
    if life.works[i].Ask? && !life.works[i].bypass {
      ReadOnlyLogsNothing(life.cfg, life.trace[i], life.works[i].value, false, life.clock(i));
    }
  }

  lemma ApplyingMore(before: seq<Turn>, t: Turn)
    requires Applying(before) && EvictsNothing(t) && (t.Asked? ==> Entries(before + [t]) == Entries(before))
    ensures Applying(before + [t])
  {
    assert Front(before + [t]) == before;
    ServedMore(before, t);
    if t.Asked? {
      assert |Entries(before)| == |Entries(before)| + |EntryOf(t, Served(before))|;
    }
  }

  lemma NextFollowerEntries(life: Life, n: nat)
    requires Begun(life) && AllReplayable(life.works) && n < |life.works| && LogsNothing(life, n + 1)
    ensures Entries(Turns(life, n + 1)) == Entries(Turns(life, n)) + KeptOf(life.works[n], [])
  {
    NextEntries(life, n);
    FollowerLogsNothing(life, n + 1, n);
  }

  lemma AskedKeepsNothing(life: Life, n: nat)
    requires IsLife(life) && n < |life.works| && TurnAt(life, n).Asked?
    ensures KeptOf(life.works[n], []) == []
  {
  }

  lemma NextFollower(life: Life, n: nat)
    requires Begun(life) && AllReplayable(life.works) && n < |life.works| && LogsNothing(life, n + 1)
    requires Applying(Turns(life, n)) && CalmAt(life, n)
    ensures Applying(Turns(life, n + 1))
    ensures Entries(Turns(life, n + 1)) == Entries(Turns(life, n)) + KeptOf(life.works[n], [])
  {
    var before, t := Turns(life, n), TurnAt(life, n);
    NextFollowerEntries(life, n);
    assert Turns(life, n + 1) == before + [t] by { TurnsLast(life, n + 1); }
    assert EvictsNothing(t) by { CalmTurn(life, n); }
    if t.Asked? {
      AskedKeepsNothing(life, n);
      assert Entries(before) + [] == Entries(before);
    }
    ApplyingMore(before, t);
  }

  /** The log of a follower that evicts nothing is exactly what it has replayed. */
  lemma {:induction false} FollowerEntries(life: Life, n: nat)
    requires Begun(life) && AllReplayable(life.works) && n <= |life.works| && LogsNothing(life, n) && CalmUpTo(life, n)
    ensures Entries(Turns(life, n)) == ReplayedUpTo(life.works, n) && Applying(Turns(life, n))
  {
    if n == 0 {
      NoEntries(life);
    } else {
      FollowerEntries(life, n - 1);
      NextFollower(life, n - 1);
    }
  }

  // ---------- from life to life ----------

  /** A server that was started on the log file and then served its clients. */
  ghost predicate Lived(life: Life, file: string) {
    && FreshLife(life) && BootsFirst(life.works) && ClientsReceived(life.works)
    && ReplayedUpTo(life.works, |life.works|) == Frames(file).commands
  }

  predicate ClientsReceived(works: seq<Work>) {
    forall i :: 0 <= i < |works| && works[i].Ask? && !works[i].bypass ==> WireSafe(works[i].value)
  }

  ghost function FileAfter(file: string, life: Life): string {
    file + SerializeAll(LoggedIn(life))
  }

  lemma {:induction false} ReplayedAreRecorded(works: seq<Work>, n: nat, i: nat)
    requires n <= |works| && AllRecorded(ReplayedUpTo(works, n)) && i < n && works[i].Ask? && works[i].bypass
    ensures Recorded(works[i].value)
    decreases n
  {
    var front := ReplayedUpTo(works, n - 1);
    if i == n - 1 {
      assert ReplayedUpTo(works, n)[|front|] == works[i].value;
    } else {
      assert front == ReplayedUpTo(works, n)[..|front|];
      ReplayedAreRecorded(works, n - 1, i);
    }
  }

  lemma LivedIsReplayable(life: Life, values: seq<Value>)
    requires AllRecorded(values) && Lived(life, SerializeAll(values))
    ensures AllReplayable(life.works) && ReplayedUpTo(life.works, |life.works|) == values && Begun(life)
  {
    RecordedIsWireSafe(values);
    LogParsesBack(values);
    forall i | 0 <= i < |life.works| && life.works[i].Ask? ensures Replayable(life.works[i]) {
      if life.works[i].bypass {
        ReplayedAreRecorded(life.works, |life.works|, i);
      }
    }
    StartEvictsNothing(life);
  }

  ghost function AllTurns(life: Life): seq<Turn>
    requires IsLife(life)
  {
    Turns(life, |life.works|)
  }

  /** The file after a life is the log of all its turns, those of its start included. */
  lemma LifeKeepsFile(life: Life, values: seq<Value>)
    requires AllRecorded(values) && Lived(life, SerializeAll(values))
    ensures FileAfter(SerializeAll(values), life) == LogFile(AllTurns(life))
    ensures Received(AllTurns(life)) && AllRecorded(Entries(AllTurns(life)))
  {
    LivedIsReplayable(life, values);
    LifeLogs(life, |life.works|);
    SerializeAllAppend(values, LoggedIn(life));
    TurnsReceived(life, |life.works|);
    EntriesAreRecorded(AllTurns(life));
  }

  lemma {:induction false} ReplayedFirst(a: seq<Work>, b: seq<Work>, n: nat)
    requires n <= |a|
    ensures ReplayedUpTo(a + b, n) == ReplayedUpTo(a, n)
  {
    if n > 0 {
      ReplayedFirst(a, b, n - 1);
    }
  }

  lemma {:induction false} ReplayedBoth(a: seq<Work>, b: seq<Work>, n: nat)
    requires n <= |b|
    ensures ReplayedUpTo(a + b, |a| + n) == ReplayedUpTo(a, |a|) + ReplayedUpTo(b, n)
  {
    if n == 0 {
      ReplayedFirst(a, b, |a|);
      assert ReplayedUpTo(a, |a|) + [] == ReplayedUpTo(a, |a|);
    } else {
      ReplayedBoth(a, b, n - 1);
      var last := if b[n - 1].Ask? && b[n - 1].bypass then [b[n - 1].value] else [];
      assert ReplayedUpTo(a, |a|) + ReplayedUpTo(b, n - 1) + last ==
             ReplayedUpTo(a, |a|) + (ReplayedUpTo(b, n - 1) + last);
    }
  }

  lemma {:induction false} AsksReplayed(values: seq<Value>, n: nat)
    requires n <= |values|
    ensures ReplayedUpTo(Asks(values, true), n) == values[..n]
  {
    if n > 0 {
      AsksReplayed(values, n - 1);
      assert values[..n] == values[..n - 1] + [values[n - 1]];
    }
  }

  /** Nothing is taken from a log. */
  predicate NoReplays(works: seq<Work>) {
    forall i :: 0 <= i < |works| && works[i].Ask? ==> !works[i].bypass
  }

  lemma {:induction false} NothingReplayed(works: seq<Work>, n: nat)
    requires NoReplays(works) && n <= |works|
    ensures ReplayedUpTo(works, n) == []
  {
    if n > 0 {
      NothingReplayed(works, n - 1);
    }
  }

  lemma FreshJoin(a: Life, b: Life)
    requires FreshLife(a) && Continues(b, a)
    ensures FreshLife(Continued(a, b))
  {
    LivesJoin(a, b);
  }

  lemma BootGoesFirst(a: seq<Work>, b: seq<Work>)
    requires BootsFirst(a) && NoReplays(b)
    ensures BootsFirst(a + b)
  {
    var both := a + b;
    assert forall j :: |a| <= j < |both| ==> both[j] == b[j - |a|];
    forall i, j | 0 <= i < j < |both| && both[j].Ask? && both[j].bypass && both[i].Ask? ensures both[i].bypass {
    }
  }

  lemma ClientsGoOn(a: seq<Work>, b: seq<Work>)
    requires ClientsReceived(a) && ClientsReceived(b)
    ensures ClientsReceived(a + b)
  {
  }

  lemma ReplayedGoOn(a: seq<Work>, b: seq<Work>)
    ensures ReplayedUpTo(a + b, |a + b|) == ReplayedUpTo(a, |a|) + ReplayedUpTo(b, |b|)
  {
    ReplayedBoth(a, b, |b|);
  }

  /** Clients come after the start. */
  lemma WorksGoOn(a: seq<Work>, b: seq<Work>)
    requires BootsFirst(a) && ClientsReceived(a) && NoReplays(b) && ClientsReceived(b)
    ensures BootsFirst(a + b) && ClientsReceived(a + b) && ReplayedUpTo(a + b, |a + b|) == ReplayedUpTo(a, |a|)
  {
    BootGoesFirst(a, b);
    ClientsGoOn(a, b);
    ReplayedGoOn(a, b);
    NothingReplayed(b, |b|);
  }

  lemma FileGrows(file: string, logged: seq<Value>, more: seq<Value>)
    ensures file + SerializeAll(logged + more) == file + SerializeAll(logged) + SerializeAll(more)
  {
    SerializeAllAppend(logged, more);
    assert file + (SerializeAll(logged) + SerializeAll(more)) == file + SerializeAll(logged) + SerializeAll(more);
  }

  /** A server that goes on, with clients and sweeps, after it was started on a file. */
  lemma LivedOn(life: Life, more: Life, file: string)
    requires Lived(life, file) && Continues(more, life)
    requires NoReplays(more.works) && ClientsReceived(more.works)
    ensures Lived(Continued(life, more), file)
    ensures FileAfter(file, Continued(life, more)) == FileAfter(file, life) + SerializeAll(LoggedIn(more))
  {
    FreshJoin(life, more);
    WorksGoOn(life.works, more.works);
    LivesJoin(life, more);
    FileGrows(file, LoggedIn(life), LoggedIn(more));
  }

  lemma AsksReplayable(a: seq<Work>, b: seq<Work>, values: seq<Value>)
    requires AllReplayable(a) && b == Asks(values, true) && AllRecorded(values)
    ensures AllReplayable(a + b)
  {
    forall i | 0 <= i < |a + b| && (a + b)[i].Ask? ensures Replayable((a + b)[i]) {
      if i >= |a| {
        assert (a + b)[i] == Ask(values[i - |a|], true) && Recorded(values[i - |a|]);
      }
    }
  }

  lemma ReplaysGoOn(a: seq<Work>, b: seq<Work>, values: seq<Value>)
    requires AllReplayable(a) && b == Asks(values, true) && AllRecorded(values)
    ensures AllReplayable(a + b) && ReplayedUpTo(a + b, |a + b|) == ReplayedUpTo(a, |a|) + values
  {
    ReplayedGoOn(a, b);
    AsksReplayed(values, |values|);
    AsksReplayable(a, b, values);
    assert values[..|values|] == values;
  }

  /** The log file after the lives of a server, each started on the file that the one before left. */
  ghost function FileOf(lives: seq<Life>): string {
    if lives == [] then "" else FileAfter(FileOf(Front(lives)), Last(lives))
  }

  ghost predicate IsHistory(lives: seq<Life>) {
    lives != [] ==> IsHistory(Front(lives)) && Lived(Last(lives), FileOf(Front(lives)))
  }

  /** Over any number of lives the file stays a whole log, and is the log of the last life's turns. */
  lemma {:induction false} HistoryKeepsFile(lives: seq<Life>) returns (values: seq<Value>)
    requires IsHistory(lives)
    ensures AllRecorded(values) && FileOf(lives) == SerializeAll(values)
    ensures lives != [] ==> values == Entries(AllTurns(Last(lives))) && Received(AllTurns(Last(lives)))
    decreases |lives|
  {
    if lives == [] {
      values := [];
    } else {
      var before := HistoryKeepsFile(Front(lives));
      LifeKeepsFile(Last(lives), before);
      values := Entries(AllTurns(Last(lives)));
    }
  }

  /** The first `m` works of the next life are its start: the file is replayed, no client served. */
  ghost predicate Starts(next: Life, m: nat, file: string) {
    && IsLife(next) && m <= |next.works| && NoClients(next.works, m)
    && ReplayedUpTo(next.works, m) == Frames(file).commands
  }

  lemma StartTrails(next: Life, m: nat, values: seq<Value>, turns: seq<Turn>)
    requires AllRecorded(values) && Lived(next, SerializeAll(values)) && Starts(next, m, SerializeAll(values))
    requires Entries(turns) == values
    ensures Trails(Turns(next, m), turns) && Entries(Turns(next, m)) == values
  {
    LivedIsReplayable(next, values);
    BootIsCalm(next, m);
    FollowerEntries(next, m);
    RecordedIsWireSafe(values);
    LogParsesBack(values);
  }

  /** However many lives a server has had, with whatever shards and hash in each: once it has started again, its
      shards show what they showed before the crash, if no command parts the two lives and nothing evicted comes
      back. */
  lemma EveryRestartRecovers(lives: seq<Life>, next: Life, m: nat, since: nat, to: nat)
    requires IsHistory(lives) && lives != [] && Lived(next, FileOf(lives)) && Starts(next, m, FileOf(lives))
    requires var turns, qs := AllTurns(Last(lives)), Turns(next, m);
             Harmless(turns, qs, since) && BothDone(turns, qs, since) <= to
    ensures var life := Last(lives);
            Visible(next.cfg.Union(next.trace[m].shards), to) ==
            Visible(life.cfg.Union(life.trace[|life.works|].shards), to)
  {
    var life := Last(lives);
    var values := HistoryKeepsFile(lives);
    var before := HistoryKeepsFile(Front(lives));
    LivedIsReplayable(life, before);
    LivedIsReplayable(next, values);
    StartTrails(next, m, values, AllTurns(life));
    FileReadsBack(AllTurns(life));
    RestartRecovers(AllTurns(life), Turns(next, m), since, to);
    LifeServes(life, |life.works|);
    LifeServes(next, m);
  }

  /** By a clock that does not go back and is never behind, the last life alone tells whether that is so. */
  lemma RestartByClock(lives: seq<Life>, next: Life, m: nat, since: nat)
    requires IsHistory(lives) && lives != [] && Lived(next, FileOf(lives)) && Starts(next, m, FileOf(lives))
    requires Ticks(next.clock)
    requires var t := ReplayLaws.LogTimes(DeedsOf(AllTurns(Last(lives))));
             var u := ReplayLaws.LogTimes(DeedsOf(Turns(next, m)));
             forall i :: 0 <= i < |t| && i < |u| ==> Max(since, t[i]) <= u[i]
    ensures var turns, qs := AllTurns(Last(lives)), Turns(next, m);
            Harmless(turns, qs, since) <==>
            && ReplayLaws.HazardFree(DeedsOf(turns), ReplayLaws.LogTimes(DeedsOf(qs)))
            && ReplayLaws.NothingComesBack(DeedsOf(turns), DeedsOf(qs), since)
  {
    var values := HistoryKeepsFile(lives);
    StartTrails(next, m, values, AllTurns(Last(lives)));
    TurnsOrdered(next, m);
    HarmlessIsHazardFree(AllTurns(Last(lives)), Turns(next, m), since);
  }
}
