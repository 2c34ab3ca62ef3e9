/** What a key holds, told from the history of a server alone: there are no dead entries, no shards and no sweeps in it,
    only what was last done to the key. */
module History {
  import opened Machine
  import opened Sequences
  import opened Decimal
  import opened Keyspace
  import opened KeyspaceLaws
  import opened ReplayLaws
  import opened ClientLaws

  /** A deadline of 0 is none. */
  datatype Held = Nothing | Held(value: string, deadline: nat) {
    predicate There(t: nat) {
      Held? && Lasts(deadline, t)
    }

    function Shown(t: nat): Option<Seen> {
      if There(t) then Some(Seen(value, deadline)) else None
    }
  }

  /** What key `k` holds after a command, by the book. */
  function Told(c: Command, k: string, h: Held, now: nat): Held {
    if k !in c.Keys() || c.Get? || c.Exists? || c.Pttl? then h
    else if c.Set? then Held(c.value, 0)
    else if c.Del? then Nothing
    else if c.Add? then
      if !h.There(now) then Held(Print(Signed(c.delta)), 0)
      else if WholeNumber(h.value).None? then h
      else Held(Print(Signed(WholeNumber(h.value).value + c.delta)), h.deadline)
    else if !h.There(now) then Nothing
    else Held(h.value, if c.Persist? then 0 else NewDeadline(c, now))
  }

  /** What is remembered of key `k` after a history that starts from an empty server. */
  function Recalled(deeds: seq<Deed>, k: string): Held {
    if deeds == [] then Nothing
    else
      var deed, h := Last(deeds), Recalled(Front(deeds), k);
      if k in deed.Lost() then Nothing
      else if deed.Act().Sweep? then h
      else Told(deed.Act().command, k, h, deed.Act().now)
  }

  // ---------- the server remembers ----------

  lemma SameLater(e: Option<Entry>, h: Held, since: nat, t: nat)
    requires since <= t && See(e, since) == h.Shown(since)
    ensures See(e, t) == h.Shown(t)
  {
  }

  /** What INCR and DECR leave, in plain arithmetic. */
  lemma SumStep(k: string, delta: int, e: Option<Entry>, now: nat)
    ensures KeyStep(Add(k, delta), k, e, now) ==
            if !Live(e, now) then Some(Entry(Print(Signed(delta)), 0, now))
            else if WholeNumber(e.value.value).None? then e
            else Some(Entry(Print(Signed(WholeNumber(e.value.value).value + delta)), e.value.expireAt, now))
  {
    BaseIsWhole(e, now);
    if Base(e, now).Some? {
      Int64IsSigned(Base(e, now).value + delta);
    }
  }

  lemma SumTold(k: string, delta: int, e: Option<Entry>, h: Held, now: nat, t: nat)
    requires now <= t && See(e, now) == h.Shown(now)
    ensures See(KeyStep(Add(k, delta), k, e, now), t) == Told(Add(k, delta), k, h, now).Shown(t)
  {
    SumStep(k, delta, e, now);
    SameLater(e, h, now, t);
  }

  /** A command does to an entry what it does by the book, from its time on. */
  lemma CommandTold(c: Command, k: string, e: Option<Entry>, h: Held, now: nat, t: nat)
    requires now <= t && See(e, now) == h.Shown(now)
    ensures See(KeyStep(c, k, e, now), t) == Told(c, k, h, now).Shown(t)
  {
    if c.Add? && k in c.Keys() {
      SumTold(k, c.delta, e, h, now, t);
    } else if c.Expire? {
      WrapIsModulo(now + c.offset);
    }
  }

  lemma EventTold(ev: Event, k: string, e: Option<Entry>, h: Held, t: nat)
    requires ev.now <= t && See(e, ev.now) == h.Shown(ev.now)
    ensures See(KeyEvent(ev, k, e), t) == (if ev.Sweep? then h else Told(ev.command, k, h, ev.now)).Shown(t)
  {
    SameLater(e, h, ev.now, t);
    if ev.Do? {
      CommandTold(ev.command, k, e, h, ev.now, t);
    }
  }

  /** Whatever was done, swept, evicted and redone: as long as the clock goes forward, what is visible of a key is
      what the history tells. */
  lemma {:induction false} Remembers(deeds: seq<Deed>, k: string, t: nat)
    requires Ordered(deeds) && Latest(deeds) <= t
    ensures See(Find(Contents(deeds), k), t) == Recalled(deeds, k).Shown(t)
    decreases |deeds|
  {
    if deeds != [] {
      var deed, d := Last(deeds), Contents(Front(deeds));
      Remembers(Front(deeds), k, deed.Act().now);
      FindAfter(deed.Act(), d, k);
      EventTold(deed.Act(), k, Find(d, k), Recalled(Front(deeds), k), t);
    }
  }

  // ---------- answers ----------

  /** What a command on one key answers, by the book. */
  function Replies(c: Command, h: Held, t: nat): Reply
    requires !c.Del? && !c.Exists?
  {
    match c
    case Set(_, _) => Stored
    case Get(_) => Text(if h.There(t) then Some(h.value) else None)
    case Add(_, delta) =>
      if !h.There(t) then Number(Signed(delta))
      else if WholeNumber(h.value).None? then NotANumber
      else Number(Signed(WholeNumber(h.value).value + delta))
    case Pttl(_) =>
      Number(if !h.There(t) then -2 else if h.deadline == 0 then -1 else Signed(h.deadline - t))
    case Persist(_) => Number(if h.There(t) && h.deadline > 0 then 1 else 0)
    case _ => Number(if h.There(t) then 1 else 0)
  }

  lemma SeenReplies(c: Command, d: Dict, h: Held, t: nat)
    requires !c.Del? && !c.Exists? && See(Find(d, c.key), t) == h.Shown(t)
    ensures Answer(c, d, t) == Replies(c, h, t)
  {
    SeenAt(d, t, c.key);
    match c
    case Set(k, v) => SetShows(k, v, d, t, t);
    case Get(k) => GetAnswers(k, d, t);
    case Add(k, delta) => SumAnswers(k, delta, d, t);
    case Pttl(k) => PttlAnswers(k, d, t);
    case Persist(k) => PersistShows(k, d, t, t);
    case _ => ExpireShows(c, d, t, t);
  }

  /** Every answer is the one the history tells. */
  lemma AnswersAreRecalled(c: Command, deeds: seq<Deed>, t: nat)
    requires Ordered(deeds) && Latest(deeds) <= t && !c.Del? && !c.Exists?
    ensures Answer(c, Contents(deeds), t) == Replies(c, Recalled(deeds, c.key), t)
  {
    Remembers(deeds, c.key, t);
    SeenReplies(c, Contents(deeds), Recalled(deeds, c.key), t);
  }

  /** The positions at which a key is listed that is there. */
  function Present(keys: seq<string>, deeds: seq<Deed>, t: nat): set<int> {
    set i | 0 <= i < |keys| && Recalled(deeds, keys[i]).There(t)
  }

  /** EXISTS counts them. */
  lemma ExistsIsRecalled(keys: seq<string>, deeds: seq<Deed>, t: nat)
    requires Ordered(deeds) && Latest(deeds) <= t
    ensures Answer(Exists(keys), Contents(deeds), t) == Number(|Present(keys, deeds, t)|)
  {
    ExistsAnswers(keys, Contents(deeds), t);
    forall i | 0 <= i < |keys| ensures keys[i] in Visible(Contents(deeds), t) <==> Recalled(deeds, keys[i]).There(t) {
      Remembers(deeds, keys[i], t);
    }
    assert Hits(keys, Visible(Contents(deeds), t)) == Present(keys, deeds, t);
  }

  // ---------- what was written stays ----------

  /** The deed does not write or delete the key, nor evict it. */
  predicate Spares(deed: Deed, k: string) {
    && k !in deed.Lost()
    && (deed.Act().Do? && k in deed.Act().command.Keys() ==>
          !deed.Act().command.Set? && !deed.Act().command.Add? && !deed.Act().command.Del?)
  }

  /** Nor does it change its deadline. */
  predicate LeavesAlone(deed: Deed, k: string) {
    && Spares(deed, k)
    && (deed.Act().Do? && k in deed.Act().command.Keys() ==>
          deed.Act().command.Get? || deed.Act().command.Exists? || deed.Act().command.Pttl?)
  }

  predicate AllSpare(deeds: seq<Deed>, k: string) {
    forall i :: 0 <= i < |deeds| ==> Spares(deeds[i], k)
  }

  predicate AllLeaveAlone(deeds: seq<Deed>, k: string) {
    forall i :: 0 <= i < |deeds| ==> LeavesAlone(deeds[i], k)
  }

  lemma RecalledMore(deeds: seq<Deed>, deed: Deed, k: string)
    ensures Recalled(deeds + [deed], k) ==
            if k in deed.Lost() then Nothing
            else if deed.Act().Sweep? then Recalled(deeds, k)
            else Told(deed.Act().command, k, Recalled(deeds, k), deed.Act().now)
  {
    assert Front(deeds + [deed]) == deeds;
  }

  lemma LastMore(deeds: seq<Deed>, more: seq<Deed>)
    requires more != []
    ensures deeds + more == deeds + Front(more) + [Last(more)]
  {
  }

  /** A value that is not overwritten stays the same, as long as there is one. */
  lemma {:induction false} ValueStays(deeds: seq<Deed>, more: seq<Deed>, k: string)
    requires AllSpare(more, k) && Recalled(deeds, k).Held?
    ensures Recalled(deeds + more, k).Held? ==> Recalled(deeds + more, k).value == Recalled(deeds, k).value
    decreases |more|
  {
    if more == [] {
      assert deeds + more == deeds;
    } else {
      ValueStays(deeds, Front(more), k);
      LastMore(deeds, more);
      RecalledMore(deeds + Front(more), Last(more), k);
    }
  }

  /** A key that is left alone holds what it held. */
  lemma {:induction false} HeldStays(deeds: seq<Deed>, more: seq<Deed>, k: string)
    requires AllLeaveAlone(more, k)
    ensures Recalled(deeds + more, k) == Recalled(deeds, k)
    decreases |more|
  {
    if more == [] {
      assert deeds + more == deeds;
    } else {
      HeldStays(deeds, Front(more), k);
      LastMore(deeds, more);
      RecalledMore(deeds + Front(more), Last(more), k);
    }
  }

  lemma SetIsHeld(before: seq<Deed>, deed: Deed, k: string, v: string)
    requires deed.Act().Do? && deed.Act().command == Set(k, v)
    ensures Recalled(before + [deed], k) == Held(v, 0)
  {
    RecalledMore(before, deed, k);
  }

  /** What was SET is got: if after a SET the key is not written, deleted or evicted, GET answers that value, for good
      or until the deadline last set; for good, if no deadline was set. */
  lemma SetIsGot(before: seq<Deed>, deed: Deed, more: seq<Deed>, k: string, v: string, t: nat)
    requires deed.Act().Do? && deed.Act().command == Set(k, v) && AllSpare(more, k)
    requires var all := before + [deed] + more; Ordered(all) && Latest(all) <= t
    ensures var all := before + [deed] + more;
            && Answer(Get(k), Contents(all), t) == Text(if Recalled(all, k).There(t) then Some(v) else None)
            && (AllLeaveAlone(more, k) ==> Answer(Get(k), Contents(all), t) == Text(Some(v)))
            && (AllLeaveAlone(more, k) ==> Answer(Pttl(k), Contents(all), t) == Number(-1))
  {
    var all := before + [deed] + more;
    SetIsHeld(before, deed, k, v);
    ValueStays(before + [deed], more, k);
    AnswersAreRecalled(Get(k), all, t);
    AnswersAreRecalled(Pttl(k), all, t);
    if AllLeaveAlone(more, k) {
      HeldStays(before + [deed], more, k);
    }
  }

  lemma ExpiryIsHeld(before: seq<Deed>, deed: Deed, c: Command, k: string)
    requires deed.Act().Do? && deed.Act().command == c && (c.Expire? || c.ExpireAt? || c.Persist?) && c.key == k
    requires Recalled(before, k).There(deed.Act().now)
    ensures Recalled(before + [deed], k) ==
            Held(Recalled(before, k).value, if c.Persist? then 0 else NewDeadline(c, deed.Act().now))
  {
    RecalledMore(before, deed, k);
    assert deed.Lost() == {} || k !in deed.Lost();
  }

  lemma HeldAnswers(deeds: seq<Deed>, k: string, v: string, deadline: nat, t: nat)
    requires Ordered(deeds) && Latest(deeds) <= t && Recalled(deeds, k) == Held(v, deadline)
    ensures Answer(Get(k), Contents(deeds), t) == Text(if Lasts(deadline, t) then Some(v) else None)
    ensures Answer(Pttl(k), Contents(deeds), t) ==
            Number(if !Lasts(deadline, t) then -2 else if deadline == 0 then -1 else Signed(deadline - t))
    ensures Answer(Persist(k), Contents(deeds), t) == Number(if Lasts(deadline, t) && deadline > 0 then 1 else 0)
  {
    AnswersAreRecalled(Get(k), deeds, t);
    AnswersAreRecalled(Pttl(k), deeds, t);
    AnswersAreRecalled(Persist(k), deeds, t);
  }

  /** The deadline last set, or taken away by PERSIST, is the one that counts: GET, PTTL and PERSIST go by it. */
  lemma DeadlineCounts(before: seq<Deed>, deed: Deed, c: Command, more: seq<Deed>, k: string, t: nat)
    requires deed.Act().Do? && deed.Act().command == c && (c.Expire? || c.ExpireAt? || c.Persist?) && c.key == k
    requires Recalled(before, k).There(deed.Act().now) && AllLeaveAlone(more, k)
    requires var all := before + [deed] + more; Ordered(all) && Latest(all) <= t
    ensures var all, v := before + [deed] + more, Recalled(before, k).value;
            var deadline := if c.Persist? then 0 else NewDeadline(c, deed.Act().now);
            && Answer(Get(k), Contents(all), t) == Text(if Lasts(deadline, t) then Some(v) else None)
            && Answer(Pttl(k), Contents(all), t) ==
               Number(if !Lasts(deadline, t) then -2 else if deadline == 0 then -1 else Signed(deadline - t))
            && Answer(Persist(k), Contents(all), t) == Number(if Lasts(deadline, t) && deadline > 0 then 1 else 0)
  {
    var deadline := if c.Persist? then 0 else NewDeadline(c, deed.Act().now);
    ExpiryIsHeld(before, deed, c, k);
    HeldStays(before + [deed], more, k);
    HeldAnswers(before + [deed] + more, k, Recalled(before, k).value, deadline, t);
  }
}
