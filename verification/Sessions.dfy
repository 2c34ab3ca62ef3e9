/** What clients are told over the whole life of a server: every response is the one that the history of the works
    before it calls for. */
module Sessions {
  import opened Machine
  import opened Sequences
  import opened Decimal
  import opened Resp
  import opened Keyspace
  import KeyspaceLaws
  import ReplayLaws
  import opened ClientLaws
  import opened History
  import opened Engine
  import opened EngineLaws
  import EngineRefinement
  import opened Dispatcher
  import opened Requests
  import opened Recovery
  import opened Serving

  /** What the first `n` works of a life make of key `k`, by the book. */
  ghost function Remembered(life: Life, n: nat, k: string): Held
    requires IsLife(life) && n <= |life.works|
  {
    Recalled(DeedsOf(Turns(life, n)), k)
  }

  /** The clock goes forward, and what is taken from a log evicts nothing. */
  ghost predicate Steady(life: Life) {
    Begun(life) && Ticks(life.clock)
  }

  /** What is visible in the shards is what is remembered. */
  lemma LifeRemembers(life: Life, n: nat, k: string)
    requires Steady(life) && n <= |life.works|
    ensures See(life.cfg.At(life.trace[n].shards, k), life.clock(n)) == Remembered(life, n, k).Shown(life.clock(n))
  {
    LifeServes(life, n);
    TurnsOrdered(life, n);
    Remembers(DeedsOf(Turns(life, n)), k, life.clock(n));
    assert Find(life.cfg.Union(life.trace[n].shards), k) == life.cfg.At(life.trace[n].shards, k);
  }

  /** Every command on one key that is not refused is answered as the history calls for. */
  lemma LifeAnswers(life: Life, n: nat, c: Command)
    requires Steady(life) && n <= |life.works| && !c.Del? && !c.Exists?
    requires !life.cfg.Refused(life.trace[n], c, life.clock(n))
    ensures Reported(life.cfg, life.trace[n], c, life.clock(n)) ==
            Some(Replies(c, Remembered(life, n, c.key), life.clock(n)))
  {
    LifeServes(life, n);
    TurnsOrdered(life, n);
    AnswersAreRecalled(c, DeedsOf(Turns(life, n)), life.clock(n));
  }

  /** EXISTS is answered so as well. */
  lemma LifeCounts(life: Life, n: nat, keys: seq<string>)
    requires Steady(life) && n <= |life.works|
    ensures Reported(life.cfg, life.trace[n], Exists(keys), life.clock(n)) ==
            Some(Number(|Present(keys, DeedsOf(Turns(life, n)), life.clock(n))|))
  {
    LifeServes(life, n);
    TurnsOrdered(life, n);
    ExistsIsRecalled(keys, DeedsOf(Turns(life, n)), life.clock(n));
  }

  // ---------- responses ----------

  lemma RequestResponds(cfg: Config, st: State, request: Value, c: Command, seconds: bool, mode: Mode, now: nat)
    requires cfg.Placed(st.shards) && AsksFor(request, c, seconds)
    requires mode.readOnly && !mode.bypass ==> !Changes(c)
    ensures ResponseTo(cfg, st, request, mode, now) == Some(Respond(c, seconds, Reported(cfg, st, c, now)))
    ensures !Gated(request, mode.readOnly, mode.bypass) && Decode(request) == Perform(c, seconds)
  {
    AskedDecodes(request, c, seconds);
    GateIsExact(request, c, seconds, mode.readOnly, mode.bypass);
  }

  /** GET k is responded with the value that the key holds, or with null. */
  lemma GetResponds(life: Life, n: nat, request: Value, k: string, bypass: bool)
    requires Steady(life) && n <= |life.works| && AsksFor(request, Get(k), false)
    ensures var h, now := Remembered(life, n, k), life.clock(n);
            ResponseTo(life.cfg, life.trace[n], request, Mode(life.readOnly, bypass), now) ==
            Some(if h.There(now) then BulkString(h.value) else Null)
  {
    RequestResponds(life.cfg, life.trace[n], request, Get(k), false, Mode(life.readOnly, bypass), life.clock(n));
    LifeAnswers(life, n, Get(k));
  }

  /** The response says how long what is held still lives: in milliseconds, or in whole seconds, rounded down. */
  predicate TimeTold(h: Held, now: nat, seconds: bool, response: Value) {
    && response.Integer?
    && if !h.There(now) then response.number == -2
       else if h.deadline == 0 then response.number == -1
       else LeftTold(h.deadline - now, seconds, response.number)
  }

  /** Milliseconds that do not fit 64 bits wrap around. */
  predicate LeftTold(left: int, seconds: bool, n: int) {
    && (left <= INT64_MAX && !seconds ==> n == left)
    && (left <= INT64_MAX && seconds ==> 1000 * n <= left < 1000 * n + 1000)
    && (INT64_MAX < left <= UINT64_MAX ==> n == left - 0x1_0000_0000_0000_0000)
  }

  lemma LeftIsTold(left: int, seconds: bool)
    requires 0 < left
    ensures var n := Signed(left); LeftTold(left, seconds, if seconds && n >= 0 then n / 1000 else n)
  {
  }

  lemma TimeIsTold(k: string, h: Held, now: nat, seconds: bool)
    ensures TimeTold(h, now, seconds, Respond(Pttl(k), seconds, Some(Replies(Pttl(k), h, now))))
  {
    if h.There(now) && h.deadline > 0 {
      LeftIsTold(h.deadline - now, seconds);
    }
  }

  lemma TtlIs(life: Life, n: nat, request: Value, k: string, seconds: bool, bypass: bool, r: Reply)
    requires Steady(life) && n <= |life.works| && AsksFor(request, Pttl(k), seconds)
    requires r == Replies(Pttl(k), Remembered(life, n, k), life.clock(n))
    ensures ResponseTo(life.cfg, life.trace[n], request, Mode(life.readOnly, bypass), life.clock(n)) ==
            Some(Respond(Pttl(k), seconds, Some(r)))
  {
    RequestResponds(life.cfg, life.trace[n], request, Pttl(k), seconds, Mode(life.readOnly, bypass), life.clock(n));
    LifeAnswers(life, n, Pttl(k));
  }

  /** PTTL and TTL tell how long the key still lives. */
  lemma TtlResponds(life: Life, n: nat, request: Value, k: string, seconds: bool, bypass: bool)
    requires Steady(life) && n <= |life.works| && AsksFor(request, Pttl(k), seconds)
    ensures var response := ResponseTo(life.cfg, life.trace[n], request, Mode(life.readOnly, bypass), life.clock(n));
            response.Some? && TimeTold(Remembered(life, n, k), life.clock(n), seconds, response.value)
  {
    var r := Replies(Pttl(k), Remembered(life, n, k), life.clock(n));
    TtlIs(life, n, request, k, seconds, bypass, r);
    TimeIsTold(k, Remembered(life, n, k), life.clock(n), seconds);
  }

  /** The response to INCR or DECR of what is held. */
  function SumToldOf(h: Held, delta: int, now: nat): Value {
    var start := if h.There(now) then WholeNumber(h.value) else Some(0);
    if start.None? then Error("ERR value is not an integer or out of range") else Integer(Signed(start.value + delta))
  }

  lemma SumIsTold(k: string, h: Held, delta: int, now: nat)
    ensures Respond(Add(k, delta), false, Some(Replies(Add(k, delta), h, now))) == SumToldOf(h, delta, now)
  {
  }

  /** INCR and DECR respond with the sum, or that the value is no number. */
  lemma SumResponds(life: Life, n: nat, request: Value, k: string, delta: int, bypass: bool)
    requires Steady(life) && n <= |life.works| && AsksFor(request, Add(k, delta), false)
    requires (life.readOnly ==> bypass) && !life.cfg.Refused(life.trace[n], Add(k, delta), life.clock(n))
    ensures ResponseTo(life.cfg, life.trace[n], request, Mode(life.readOnly, bypass), life.clock(n)) ==
            Some(SumToldOf(Remembered(life, n, k), delta, life.clock(n)))
  {
    var c := Add(k, delta);
    RequestResponds(life.cfg, life.trace[n], request, c, false, Mode(life.readOnly, bypass), life.clock(n));
    LifeAnswers(life, n, c);
    SumIsTold(k, Remembered(life, n, k), delta, life.clock(n));
  }

  // ---------- from one work to a later one ----------

  /** The command that the i-th work performs on the key, if it does. */
  ghost predicate Performs(life: Life, i: nat, k: string)
    requires i < |life.works|
  {
    && life.works[i].Ask? && !Gated(life.works[i].value, life.readOnly, life.works[i].bypass)
    && Decode(life.works[i].value).Perform? && k in Decode(life.works[i].value).command.Keys()
  }

  /** The i-th work does not write or delete the key, nor evict it. */
  ghost predicate SparesKey(life: Life, i: nat, k: string)
    requires i < |life.works| <= |life.gones|
  {
    && k !in life.gones[i]
    && (Performs(life, i, k) ==>
          var c := Decode(life.works[i].value).command; !c.Set? && !c.Add? && !c.Del?)
  }

  /** Nor does it change the deadline. */
  ghost predicate LeavesKey(life: Life, i: nat, k: string)
    requires i < |life.works| <= |life.gones|
  {
    && SparesKey(life, i, k)
    && (Performs(life, i, k) ==>
          var c := Decode(life.works[i].value).command; c.Get? || c.Exists? || c.Pttl?)
  }

  lemma RememberedMore(life: Life, i: nat, k: string)
    requires IsLife(life) && i < |life.works|
    ensures var deeds := DeedOf(TurnAt(life, i));
            if deeds == [] then Remembered(life, i + 1, k) == Remembered(life, i, k)
            else Remembered(life, i + 1, k) == Recalled(DeedsOf(Turns(life, i)) + [deeds[0]], k)
  {
    var deeds := DeedOf(TurnAt(life, i));
    TurnsLast(life, i + 1);
    DeedsMore(Turns(life, i), TurnAt(life, i));
    if deeds == [] {
      assert DeedsOf(Turns(life, i)) + [] == DeedsOf(Turns(life, i));
    } else {
      assert deeds == [deeds[0]];
    }
  }

  lemma SparedDeed(life: Life, i: nat, k: string)
    requires IsLife(life) && i < |life.works| && SparesKey(life, i, k) && DeedOf(TurnAt(life, i)) != []
    ensures Spares(DeedOf(TurnAt(life, i))[0], k)
    ensures LeavesKey(life, i, k) ==> LeavesAlone(DeedOf(TurnAt(life, i))[0], k)
  {
    assert Linked(life, i);
  }

  ghost predicate SparedFrom(life: Life, i: nat, j: nat, k: string)
    requires j <= |life.works| <= |life.gones|
  {
    forall m :: i <= m < j ==> SparesKey(life, m, k)
  }

  ghost predicate LeftFrom(life: Life, i: nat, j: nat, k: string)
    requires j <= |life.works| <= |life.gones|
  {
    forall m :: i <= m < j ==> LeavesKey(life, m, k)
  }

  lemma NextStays(life: Life, i: nat, k: string)
    requires IsLife(life) && i < |life.works| && SparesKey(life, i, k)
    ensures var h, next := Remembered(life, i, k), Remembered(life, i + 1, k);
            && (next.Held? ==> h.Held? && next.value == h.value) && (LeavesKey(life, i, k) ==> next == h)
  {
    RememberedMore(life, i, k);
    if DeedOf(TurnAt(life, i)) != [] {
      SparedDeed(life, i, k);
      RecalledMore(DeedsOf(Turns(life, i)), DeedOf(TurnAt(life, i))[0], k);
    }
  }

  /** Over any works that spare a key its value stays. */
  lemma {:induction false} ValueIsKept(life: Life, i: nat, j: nat, k: string)
    requires IsLife(life) && i <= j <= |life.works| && SparedFrom(life, i, j, k)
    ensures var h, last := Remembered(life, i, k), Remembered(life, j, k);
            last.Held? ==> h.Held? && last.value == h.value
    decreases j - i
  {
    if i < j {
      ValueIsKept(life, i, j - 1, k);
      NextStays(life, j - 1, k);
    }
  }

  /** Over any works that leave it alone its deadline stays as well. */
  lemma {:induction false} HeldIsKept(life: Life, i: nat, j: nat, k: string)
    requires IsLife(life) && i <= j <= |life.works| && LeftFrom(life, i, j, k)
    ensures Remembered(life, j, k) == Remembered(life, i, k)
    decreases j - i
  {
    if i < j {
      HeldIsKept(life, i, j - 1, k);
      assert LeavesKey(life, j - 1, k);
      NextStays(life, j - 1, k);
    }
  }

  /** The i-th work is a SET that is performed. */
  ghost predicate SetsKey(life: Life, i: nat, k: string, v: string)
    requires IsLife(life) && i < |life.works|
  {
    && life.works[i].Ask? && AsksFor(life.works[i].value, Set(k, v), false)
    && (life.readOnly ==> life.works[i].bypass) && !life.cfg.Refused(life.trace[i], Set(k, v), life.clock(i))
  }

  /** The i-th work performs the command on one map. */
  ghost predicate DoesTurn(life: Life, i: nat, c: Command)
    requires IsLife(life) && i < |life.works|
  {
    var deeds := DeedOf(TurnAt(life, i));
    && deeds != [] && deeds[0].Act() == KeyspaceLaws.Do(c, life.clock(i))
    && (deeds[0].Own? ==> deeds[0].gone == life.gones[i])
  }

  lemma WorkDoes(life: Life, i: nat, c: Command)
    requires IsLife(life) && i < |life.works| && life.works[i].Ask? && AsksFor(life.works[i].value, c, false)
    requires (life.readOnly ==> life.works[i].bypass) && !life.cfg.Refused(life.trace[i], c, life.clock(i))
    ensures DoesTurn(life, i, c)
  {
    var w := life.works[i];
    RequestResponds(life.cfg, life.trace[i], w.value, c, false, Mode(life.readOnly, w.bypass), life.clock(i));
  }

  lemma SetIsRemembered(life: Life, i: nat, k: string, v: string)
    requires IsLife(life) && i < |life.works| && SetsKey(life, i, k, v)
    ensures Remembered(life, i + 1, k) == Held(v, 0)
  {
    WorkDoes(life, i, Set(k, v));
    RememberedMore(life, i, k);
    SetIsHeld(DeedsOf(Turns(life, i)), DeedOf(TurnAt(life, i))[0], k, v);
  }

  /** What was SET is got: however many works come in between, as long as none of them writes, deletes or evicts the
      key, GET is responded with that very value until the deadline last set, and for good if none was set. */
  lemma SetThenGet(life: Life, i: nat, j: nat, k: string, v: string, get: Value, bypass: bool)
    requires Steady(life) && i < j <= |life.works| && SetsKey(life, i, k, v) && AsksFor(get, Get(k), false)
    requires SparedFrom(life, i + 1, j, k)
    ensures var h, now := Remembered(life, j, k), life.clock(j);
            var response := ResponseTo(life.cfg, life.trace[j], get, Mode(life.readOnly, bypass), now);
            && response == Some(if h.There(now) then BulkString(v) else Null)
            && (LeftFrom(life, i + 1, j, k) ==> response == Some(BulkString(v)))
  {
    SetIsRemembered(life, i, k, v);
    ValueIsKept(life, i + 1, j, k);
    if LeftFrom(life, i + 1, j, k) {
      HeldIsKept(life, i + 1, j, k);
    }
    GetResponds(life, j, get, k, bypass);
  }

  /** The i-th work is an EXPIRE, PEXPIRE, PEXPIREAT or PERSIST that is performed. */
  ghost predicate TimesKey(life: Life, i: nat, c: Command)
    requires i < |life.works|
  {
    && (c.Expire? || c.ExpireAt? || c.Persist?)
    && life.works[i].Ask? && AsksFor(life.works[i].value, c, false) && (life.readOnly ==> life.works[i].bypass)
  }

  /** The deadline that an expiry command sets. */
  function DeadlineOf(c: Command, now: nat): nat
    requires c.Expire? || c.ExpireAt? || c.Persist?
  {
    if c.Persist? then 0 else NewDeadline(c, now)
  }

  lemma ExpiryIsRemembered(life: Life, i: nat, c: Command)
    requires IsLife(life) && i < |life.works| && TimesKey(life, i, c)
    requires Remembered(life, i, c.key).There(life.clock(i))
    ensures Remembered(life, i + 1, c.key) == Held(Remembered(life, i, c.key).value, DeadlineOf(c, life.clock(i)))
  {
    WorkDoes(life, i, c);
    RememberedMore(life, i, c.key);
    ExpiryIsHeld(DeedsOf(Turns(life, i)), DeedOf(TurnAt(life, i))[0], c, c.key);
  }

  lemma DeadlineStays(life: Life, i: nat, j: nat, c: Command)
    requires Steady(life) && i < j <= |life.works| && TimesKey(life, i, c)
    requires Remembered(life, i, c.key).There(life.clock(i))
    requires LeftFrom(life, i + 1, j, c.key)
    ensures Remembered(life, j, c.key) == Held(Remembered(life, i, c.key).value, DeadlineOf(c, life.clock(i)))
  {
    ExpiryIsRemembered(life, i, c);
    HeldIsKept(life, i + 1, j, c.key);
  }

  /** A deadline counts: from the work that sets it on, as long as the key is left alone, GET is responded with the
      value before the deadline and with null from then on. */
  lemma ExpireThenGet(life: Life, i: nat, j: nat, c: Command, get: Value, bypass: bool)
    requires Steady(life) && i < j <= |life.works| && TimesKey(life, i, c)
    requires Remembered(life, i, c.key).There(life.clock(i)) && AsksFor(get, Get(c.key), false)
    requires LeftFrom(life, i + 1, j, c.key)
    ensures ResponseTo(life.cfg, life.trace[j], get, Mode(life.readOnly, bypass), life.clock(j)) ==
            Some(if Lasts(DeadlineOf(c, life.clock(i)), life.clock(j))
                 then BulkString(Remembered(life, i, c.key).value) else Null)
  {
    DeadlineStays(life, i, j, c);
    GetResponds(life, j, get, c.key, bypass);
  }

  /** And PTTL and TTL tell the time until then. */
  lemma ExpireThenTtl(life: Life, i: nat, j: nat, c: Command, ttl: Value, seconds: bool, bypass: bool)
    requires Steady(life) && i < j <= |life.works| && TimesKey(life, i, c)
    requires Remembered(life, i, c.key).There(life.clock(i)) && AsksFor(ttl, Pttl(c.key), seconds)
    requires LeftFrom(life, i + 1, j, c.key)
    ensures var left := ResponseTo(life.cfg, life.trace[j], ttl, Mode(life.readOnly, bypass), life.clock(j));
            var h := Held(Remembered(life, i, c.key).value, DeadlineOf(c, life.clock(i)));
            left.Some? && TimeTold(h, life.clock(j), seconds, left.value)
  {
    DeadlineStays(life, i, j, c);
    TtlResponds(life, j, ttl, c.key, seconds, bypass);
  }

  lemma SumIsRemembered(life: Life, i: nat, k: string, delta: int)
    requires IsLife(life) && i < |life.works| && life.works[i].Ask?
    requires AsksFor(life.works[i].value, Add(k, delta), false) && (life.readOnly ==> life.works[i].bypass)
    requires !life.cfg.Refused(life.trace[i], Add(k, delta), life.clock(i))
    ensures Remembered(life, i + 1, k) == Told(Add(k, delta), k, Remembered(life, i, k), life.clock(i))
  {
    WorkDoes(life, i, Add(k, delta));
    RememberedMore(life, i, k);
    RecalledMore(DeedsOf(Turns(life, i)), DeedOf(TurnAt(life, i))[0], k);
  }

  lemma SumIsHeld(h: Held, k: string, delta: int, now: nat, n: int)
    requires SumToldOf(h, delta, now) == Integer(n)
    ensures Told(Add(k, delta), k, h, now) == Held(Print(n), if h.There(now) then h.deadline else 0)
  {
  }

  /** The number that INCR or DECR responded with is what GET is responded with later, as long as the key is left
      alone and until the deadline that it had. */
  lemma SumThenGet(life: Life, i: nat, j: nat, k: string, delta: int, n: int, get: Value, bypass: bool)
    requires Steady(life) && i < j <= |life.works| && AsksFor(get, Get(k), false)
    requires life.works[i].Ask? && AsksFor(life.works[i].value, Add(k, delta), false)
    requires life.readOnly ==> life.works[i].bypass
    requires !life.cfg.Refused(life.trace[i], Add(k, delta), life.clock(i))
    requires ResponseTo(life.cfg, life.trace[i], life.works[i].value, Mode(life.readOnly, life.works[i].bypass),
                        life.clock(i)) == Some(Integer(n))
    requires LeftFrom(life, i + 1, j, k)
    ensures var h := Remembered(life, i, k);
            var deadline := if h.There(life.clock(i)) then h.deadline else 0;
            ResponseTo(life.cfg, life.trace[j], get, Mode(life.readOnly, bypass), life.clock(j)) ==
            Some(if Lasts(deadline, life.clock(j)) then BulkString(Print(n)) else Null)
  {
    SumResponds(life, i, life.works[i].value, k, delta, life.works[i].bypass);
    SumIsRemembered(life, i, k, delta);
    SumIsHeld(Remembered(life, i, k), k, delta, life.clock(i), n);
    HeldIsKept(life, i + 1, j, k);
    GetResponds(life, j, get, k, bypass);
  }

  lemma DelIsRemembered(life: Life, i: nat, keys: seq<string>, k: string)
    requires IsLife(life) && i < |life.works| && k in keys
    requires life.works[i].Ask? && AsksFor(life.works[i].value, Del(keys), false)
    requires life.readOnly ==> life.works[i].bypass
    ensures Remembered(life, i + 1, k) == Nothing
  {
    WorkDoes(life, i, Del(keys));
    RememberedMore(life, i, k);
    RecalledMore(DeedsOf(Turns(life, i)), DeedOf(TurnAt(life, i))[0], k);
  }

  /** What was deleted is gone: after a DEL, as long as nothing writes the key, GET is responded with null. */
  lemma DelThenGet(life: Life, i: nat, j: nat, keys: seq<string>, k: string, get: Value, bypass: bool)
    requires Steady(life) && i < j <= |life.works| && AsksFor(get, Get(k), false) && k in keys
    requires life.works[i].Ask? && AsksFor(life.works[i].value, Del(keys), false)
    requires (life.readOnly ==> life.works[i].bypass) && SparedFrom(life, i + 1, j, k)
    ensures ResponseTo(life.cfg, life.trace[j], get, Mode(life.readOnly, bypass), life.clock(j)) == Some(Null)
  {
    DelIsRemembered(life, i, keys, k);
    ValueIsKept(life, i + 1, j, k);
    GetResponds(life, j, get, k, bypass);
  }
}
