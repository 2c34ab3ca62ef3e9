/** From requests to bytes on disk and back: what a restart or a replica rebuilds from the log of a run. */
module Recovery {
  import opened Sequences
  import opened Resp
  import opened Framing
  import opened Keyspace
  import opened KeyspaceLaws
  import opened ReplayLaws
  import opened Dispatcher

  /** What a server lives through: a client's request, with what was evicted for it; a write to a key that was refused
      for lack of memory, after it had evicted all it could; a value taken from a log; a pass of the sweeper. */
  datatype Turn =
    | Asked(value: Value, now: nat, gone: set<string>)
    | Denied(key: string, now: nat, gone: set<string>)
    | Replayed(value: Value, now: nat)
    | Swept(keys: set<string>, now: nat)

  /** What a turn does to the key space. */
  function DeedOf(t: Turn): (deeds: seq<Deed>)
    ensures |deeds| <= 1
  {
    match t
    case Asked(v, now, gone) => if Decode(v).Perform? then [Own(Do(Decode(v).command, now), gone)] else []
    case Denied(key, now, gone) => [Own(Sweep({key}, now), gone)]
    case Replayed(v, now) => if Decode(v).Perform? then [Redo(Decode(v).command, now)] else []
    case Swept(keys, now) => [Own(Sweep(keys, now))]
  }

  function DeedsOf(turns: seq<Turn>): seq<Deed> {
    if turns == [] then [] else DeedsOf(Front(turns)) + DeedOf(Last(turns))
  }

  /** The key space after a run from an empty server. */
  function Served(turns: seq<Turn>): Dict {
    Contents(DeedsOf(turns))
  }

  /** What the log holds of a turn, the key space before it being `d`. */
  function EntryOf(t: Turn, d: Dict): (vs: seq<Value>)
    ensures |vs| <= 1
  {
    if t.Swept? || t.Denied? || !Decode(t.value).Perform? then []
    else if t.Replayed? then [t.value]
    else
      var c := Decode(t.value).command;
      match LogEntry(t.value, c, Answer(c, d, t.now), t.now)
      case None => []
      case Some(v) => [v]
  }

  /** The values in the log of a run, in order; what was replayed was there before. */
  function Entries(turns: seq<Turn>): seq<Value> {
    if turns == [] then [] else Entries(Front(turns)) + EntryOf(Last(turns), Served(Front(turns)))
  }

  /** The log file of that run. */
  function LogFile(turns: seq<Turn>): string {
    SerializeAll(Entries(turns))
  }

  /** A value as servers write it into their logs. */
  predicate Recorded(v: Value) {
    WireSafe(v) && Decode(v).Perform? && Loggable(Decode(v).command)
  }

  predicate AllRecorded(values: seq<Value>) {
    forall i :: 0 <= i < |values| ==> Recorded(values[i])
  }

  /** Requests came through the parser, and replayed values out of a log. */
  predicate Sane(t: Turn) {
    (t.Asked? ==> WireSafe(t.value)) && (t.Replayed? ==> Recorded(t.value))
  }

  predicate Received(turns: seq<Turn>) {
    forall i :: 0 <= i < |turns| ==> Sane(turns[i])
  }

  // ---------- the log stands for the run ----------

  lemma DeedsLast(turns: seq<Turn>)
    requires turns != []
    ensures DeedOf(Last(turns)) == [] ==> DeedsOf(turns) == DeedsOf(Front(turns))
    ensures DeedOf(Last(turns)) != [] ==>
              && DeedsOf(turns) != [] && Front(DeedsOf(turns)) == DeedsOf(Front(turns))
              && Last(DeedsOf(turns)) == DeedOf(Last(turns))[0]
  {
  }

  predicate StandsFor(values: seq<Value>, commands: seq<Command>) {
    && |values| == |commands|
    && forall i :: 0 <= i < |values| ==> Decode(values[i]).Perform? && Decode(values[i]).command == commands[i]
  }

  lemma EntryStands(t: Turn, d: Dict)
    requires DeedOf(t) != []
    ensures match Kept(DeedOf(t)[0], d)
            case None => EntryOf(t, d) == []
            case Some(l) =>
              |EntryOf(t, d)| == 1 && Decode(EntryOf(t, d)[0]).Perform? && Decode(EntryOf(t, d)[0]).command == l
  {
    if t.Asked? {
      var c := Decode(t.value).command;
      if LogEntry(t.value, c, Answer(c, d, t.now), t.now).Some? {
        LogEntryDecodes(t.value, Answer(c, d, t.now), t.now);
      }
    }
  }

  /** The logged values decode to the commands the run is to be replayed with. */
  lemma {:induction false} EntriesStandForLog(turns: seq<Turn>)
    ensures StandsFor(Entries(turns), LogOf(DeedsOf(turns)))
    decreases |turns|
  {
    if turns != [] {
      EntriesStandForLog(Front(turns));
      DeedsLast(turns);
      if DeedOf(Last(turns)) != [] {
        EntryStands(Last(turns), Served(Front(turns)));
      }
    }
  }

  lemma EntryIsRecorded(t: Turn, d: Dict)
    requires Sane(t)
    ensures AllRecorded(EntryOf(t, d))
  {
    if t.Asked? && EntryOf(t, d) != [] {
      var r := Answer(Decode(t.value).command, d, t.now);
      LogEntryIsWireSafe(t.value, r, t.now);
      LogEntryDecodes(t.value, r, t.now);
    }
  }

  lemma RecordedMore(values: seq<Value>, more: seq<Value>)
    requires AllRecorded(values) && AllRecorded(more)
    ensures AllRecorded(values + more)
  {
  }

  lemma ReceivedLast(turns: seq<Turn>)
    requires turns != [] && Received(turns)
    ensures Received(Front(turns)) && Sane(Last(turns))
  {
  }

  /** Whatever bytes its request came as, what is logged can be read back and replayed. */
  lemma {:induction false} EntriesAreRecorded(turns: seq<Turn>)
    requires Received(turns)
    ensures AllRecorded(Entries(turns))
    decreases |turns|
  {
    if turns != [] {
      ReceivedLast(turns);
      EntriesAreRecorded(Front(turns));
      EntryIsRecorded(Last(turns), Served(Front(turns)));
      RecordedMore(Entries(Front(turns)), EntryOf(Last(turns), Served(Front(turns))));
    }
  }

  lemma RecordedIsWireSafe(values: seq<Value>)
    requires AllRecorded(values)
    ensures AllWireSafe(values)
  {
    forall i | 0 <= i < |values| ensures WireSafe(values[i]) {
      assert Recorded(values[i]);
    }
  }

  lemma {:induction false} DeedsAreProper(turns: seq<Turn>)
    requires Received(turns)
    ensures Proper(DeedsOf(turns))
    decreases |turns|
  {
    if turns != [] {
      ReceivedLast(turns);
      DeedsAreProper(Front(turns));
    }
  }

  /** The log file is read back whole. */
  lemma FileReadsBack(turns: seq<Turn>)
    requires Received(turns)
    ensures Frames(LogFile(turns)) == Framed(Entries(turns), "")
  {
    EntriesAreRecorded(turns);
    RecordedIsWireSafe(Entries(turns));
    LogParsesBack(Entries(turns));
  }

  // ---------- following ----------

  predicate EvictsNothing(t: Turn) {
    DeedOf(t) != [] ==> DeedOf(t)[0].Lost() == {}
  }

  lemma {:induction false} QuietDeeds(turns: seq<Turn>)
    requires forall i :: 0 <= i < |turns| ==> EvictsNothing(turns[i])
    ensures forall i :: 0 <= i < |DeedsOf(turns)| ==> DeedsOf(turns)[i].Lost() == {}
    decreases |turns|
  {
    if turns != [] {
      QuietDeeds(Front(turns));
      assert EvictsNothing(Last(turns));
    }
  }

  /** A run that logs nothing of its own and evicts nothing. */
  predicate Applying(turns: seq<Turn>) {
    turns != [] ==>
      && Applying(Front(turns)) && EvictsNothing(Last(turns))
      && (Last(turns).Asked? ==> EntryOf(Last(turns), Served(Front(turns))) == [])
  }

  lemma {:induction false} ApplyingOnlyRedoes(turns: seq<Turn>)
    requires Applying(turns)
    ensures OnlyRedoes(DeedsOf(turns))
    decreases |turns|
  {
    if turns != [] {
      ApplyingOnlyRedoes(Front(turns));
      DeedsLast(turns);
      if DeedOf(Last(turns)) != [] {
        EntryStands(Last(turns), Served(Front(turns)));
      }
    }
  }

  /** Run `qs` replays the log of `turns`, as far as it has come, by whatever clock. */
  predicate Trails(qs: seq<Turn>, turns: seq<Turn>) {
    Applying(qs) && Entries(qs) <= Entries(turns)
  }

  lemma StandsPrefix(values: seq<Value>, a: seq<Command>, more: seq<Value>, b: seq<Command>)
    requires StandsFor(values, a) && StandsFor(more, b) && values <= more
    ensures a <= b
  {
    assert forall i :: 0 <= i < |values| ==> a[i] == Decode(values[i]).command == b[i];
  }

  lemma TrailsFollows(qs: seq<Turn>, turns: seq<Turn>)
    requires Trails(qs, turns)
    ensures Follows(DeedsOf(qs), DeedsOf(turns))
    ensures Entries(qs) == Entries(turns) ==> Repeats(DeedsOf(qs), DeedsOf(turns))
  {
    EntriesStandForLog(qs);
    EntriesStandForLog(turns);
    StandsPrefix(Entries(qs), LogOf(DeedsOf(qs)), Entries(turns), LogOf(DeedsOf(turns)));
    ApplyingOnlyRedoes(qs);
  }

  /** No command parts the two runs: each INCR, DECR, PERSIST and PEXPIREAT that left something behind has found its
      key live in both or in neither. And nothing that was evicted comes back. */
  ghost predicate Harmless(turns: seq<Turn>, qs: seq<Turn>, since: nat) {
    Undisturbed(DeedsOf(turns), DeedsOf(qs), since)
  }

  /** When the clock of the replay is never behind, the partings are for the original alone to tell. */
  lemma HarmlessIsHazardFree(turns: seq<Turn>, qs: seq<Turn>, since: nat)
    requires Received(turns) && Trails(qs, turns) && NotBehind(DeedsOf(qs), DeedsOf(turns), since)
    ensures Harmless(turns, qs, since) <==>
            && HazardFree(DeedsOf(turns), LogTimes(DeedsOf(qs)))
            && NothingComesBack(DeedsOf(turns), DeedsOf(qs), since)
  {
    TrailsFollows(qs, turns);
    DeedsAreProper(turns);
    if NothingComesBack(DeedsOf(turns), DeedsOf(qs), since) {
      PartingsAreHazards(DeedsOf(turns), DeedsOf(qs), since);
    }
  }

  /** From bytes: exactly the logged values are read, and a server that has replayed them all shows what the
      original shows, at every time from both clocks on. */
  lemma RestartRecovers(turns: seq<Turn>, qs: seq<Turn>, since: nat, to: nat)
    requires Received(turns) && Trails(qs, turns) && Entries(qs) == Frames(LogFile(turns)).commands
    requires Harmless(turns, qs, since) && BothDone(turns, qs, since) <= to
    ensures Frames(LogFile(turns)) == Framed(Entries(turns), "")
    ensures Visible(Served(turns), to) == Visible(Served(qs), to)
  {
    FileReadsBack(turns);
    TrailsFollows(qs, turns);
    DeedsAreProper(turns);
    FollowerAgrees(DeedsOf(turns), DeedsOf(qs), since, to);
  }

  // ---------- prefixes ----------

  lemma {:induction false} DeedsOfPrefix(turns: seq<Turn>, n: nat)
    requires n <= |turns|
    ensures DeedsOf(turns[..n]) <= DeedsOf(turns)
    decreases |turns|
  {
    if n == |turns| {
      assert turns[..n] == turns;
    } else {
      DeedsOfPrefix(Front(turns), n);
      assert Front(turns)[..n] == turns[..n];
    }
  }

  lemma PrefixIsHarmless(turns: seq<Turn>, qs: seq<Turn>, n: nat, m: nat, since: nat)
    requires Harmless(turns, qs, since) && n <= |turns| && m <= |qs|
    ensures Harmless(turns[..n], qs[..m], since)
  {
    DeedsOfPrefix(turns, n);
    DeedsOfPrefix(qs, m);
    var a, b := DeedsOf(turns), DeedsOf(qs);
    assert DeedsOf(turns[..n]) == a[..|DeedsOf(turns[..n])|] && DeedsOf(qs[..m]) == b[..|DeedsOf(qs[..m])|];
    PrefixNeverParts(a, b, since, |DeedsOf(turns[..n])|, |DeedsOf(qs[..m])|);
    PrefixComesBack(a, b, since, DeedsOf(turns[..n]), DeedsOf(qs[..m]));
  }

  /** A run that ends with a logged turn was never later than its log. */
  lemma LatestIsLogged(turns: seq<Turn>)
    requires turns != [] && EntryOf(Last(turns), Served(Front(turns))) != []
    ensures LogTimes(DeedsOf(turns)) != [] && Last(LogTimes(DeedsOf(turns))) == Latest(DeedsOf(turns))
  {
    DeedsLast(turns);
    EntryStands(Last(turns), Served(Front(turns)));
  }

  lemma EntriesGrow(turns: seq<Turn>, k: nat)
    requires k < |turns|
    ensures Entries(turns[..k]) <= Entries(turns[..k + 1]) && |Entries(turns[..k + 1])| <= |Entries(turns[..k])| + 1
  {
    assert Front(turns[..k + 1]) == turns[..k];
  }

  lemma GrownByLast(turns: seq<Turn>, n: nat)
    requires 0 < n <= |turns| && |Entries(turns[..n - 1])| < |Entries(turns[..n])|
    ensures EntryOf(Last(turns[..n]), Served(Front(turns[..n]))) != []
  {
    assert Front(turns[..n]) == turns[..n - 1];
  }

  /** Every prefix of the log is the log of a prefix of the run, which ends with the last value of that log. */
  lemma PrefixOfLog(turns: seq<Turn>, m: nat) returns (n: nat)
    requires m <= |Entries(turns)|
    ensures n <= |turns| && Entries(turns[..n]) == Entries(turns)[..m]
    ensures n > 0 ==> EntryOf(Last(turns[..n]), Served(Front(turns[..n]))) != []
  {
    forall k | 0 <= k < |turns|
      ensures Entries(turns[..k]) <= Entries(turns[..k + 1]) && |Entries(turns[..k + 1])| <= |Entries(turns[..k])| + 1
    {
      EntriesGrow(turns, k);
    }
    assert turns[..|turns|] == turns;
    n := PrefixWasReached(Entries, turns, m);
    if n > 0 {
      GrownByLast(turns, n);
    }
  }

  lemma {:induction false} LogTimesPast(deeds: seq<Deed>)
    ensures forall i :: 0 <= i < |LogTimes(deeds)| ==> LogTimes(deeds)[i] <= Latest(deeds)
    decreases |deeds|
  {
    if deeds != [] {
      LogTimesPast(Front(deeds));
    }
  }

  /** A run that ends with its last logged value is not later than what has replayed it that far by a clock that is
      not behind. */
  lemma FollowerIsLater(turns: seq<Turn>, front: seq<Turn>, qs: seq<Turn>)
    requires NotBehind(DeedsOf(qs), DeedsOf(turns), 0) && Entries(qs) == Entries(front)
    requires LogTimes(DeedsOf(front)) <= LogTimes(DeedsOf(turns))
    requires front != [] ==> EntryOf(Last(front), Served(Front(front))) != []
    ensures Latest(DeedsOf(front)) <= Latest(DeedsOf(qs))
  {
    if front != [] {
      LatestIsLogged(front);
      EntriesStandForLog(front);
      EntriesStandForLog(qs);
      LogTimesPast(DeedsOf(qs));
      var i := |LogTimes(DeedsOf(front))| - 1;
      assert LogTimes(DeedsOf(turns))[i] <= LogTimes(DeedsOf(qs))[i];
    }
  }

  /** The two key spaces look the same at every time from `from` on. */
  ghost predicate LookAlike(a: Dict, b: Dict, from: nat) {
    forall to :: from <= to ==> Visible(a, to) == Visible(b, to)
  }

  /** From which time on what `qs` shows is compared with what `turns` shows. */
  function BothDone(turns: seq<Turn>, qs: seq<Turn>, since: nat): nat {
    Horizon(DeedsOf(turns), DeedsOf(qs), since)
  }

  lemma FollowerShows(turns: seq<Turn>, qs: seq<Turn>, since: nat)
    requires Received(turns) && Trails(qs, turns) && Harmless(turns, qs, since) && Entries(qs) == Entries(turns)
    ensures LookAlike(Served(turns), Served(qs), BothDone(turns, qs, since))
  {
    FileReadsBack(turns);
    forall to | BothDone(turns, qs, since) <= to ensures Visible(Served(turns), to) == Visible(Served(qs), to) {
      RestartRecovers(turns, qs, since, to);
    }
  }

  lemma ReceivedPrefix(turns: seq<Turn>, n: nat)
    requires Received(turns) && n <= |turns|
    ensures Received(turns[..n])
  {
  }

  lemma PrefixTimes(turns: seq<Turn>, n: nat)
    requires n <= |turns|
    ensures LogTimes(DeedsOf(turns[..n])) <= LogTimes(DeedsOf(turns))
  {
    DeedsOfPrefix(turns, n);
    PrefixLogTimes(DeedsOf(turns), DeedsOf(turns[..n]));
  }

  lemma DoneByOwnClock(turns: seq<Turn>, qs: seq<Turn>, n: nat, since: nat)
    requires NotBehind(DeedsOf(qs), DeedsOf(turns), 0) && n <= |turns| && Entries(qs) == Entries(turns[..n])
    requires n > 0 ==> EntryOf(Last(turns[..n]), Served(Front(turns[..n]))) != []
    ensures BothDone(turns[..n], qs, since) == Max(since, Latest(DeedsOf(qs)))
  {
    PrefixTimes(turns, n);
    FollowerIsLater(turns, turns[..n], qs);
  }

  /** A server that has replayed some prefix of a log shows the key space of the moment up to which the log holds
      that prefix, at every time from both clocks on; its own clock alone, if that is never behind. */
  lemma PrefixRecovers(turns: seq<Turn>, qs: seq<Turn>, since: nat) returns (n: nat)
    requires Received(turns) && Trails(qs, turns) && Harmless(turns, qs, since)
    ensures n <= |turns| && Entries(turns[..n]) == Entries(qs)
    ensures LookAlike(Served(turns[..n]), Served(qs), BothDone(turns[..n], qs, since))
    ensures NotBehind(DeedsOf(qs), DeedsOf(turns), 0) ==>
              BothDone(turns[..n], qs, since) == Max(since, Latest(DeedsOf(qs)))
  {
    n := PrefixOfLog(turns, |Entries(qs)|);
    ReceivedPrefix(turns, n);
    assert qs[..|qs|] == qs;
    PrefixIsHarmless(turns, qs, n, |qs|, since);
    FollowerShows(turns[..n], qs, since);
    if NotBehind(DeedsOf(qs), DeedsOf(turns), 0) {
      DoneByOwnClock(turns, qs, n, since);
    }
  }

  /** A log cut at any byte: a restart on it shows the key space of an earlier moment of the run, the one up to
      which the cut log holds whole commands. */
  lemma TornLogRecovers(turns: seq<Turn>, cut: nat, qs: seq<Turn>, since: nat) returns (n: nat)
    requires Received(turns) && cut <= |LogFile(turns)| && Entries(qs) == Frames(LogFile(turns)[..cut]).commands
    requires Trails(qs, turns) && Harmless(turns, qs, since)
    ensures n <= |turns| && LongestPrefix(Entries(turns), cut, Frames(LogFile(turns)[..cut]))
    ensures Entries(turns[..n]) == Entries(qs)
    ensures LookAlike(Served(turns[..n]), Served(qs), BothDone(turns[..n], qs, since))
    ensures NotBehind(DeedsOf(qs), DeedsOf(turns), 0) ==>
              BothDone(turns[..n], qs, since) == Max(since, Latest(DeedsOf(qs)))
  {
    EntriesAreRecorded(turns);
    RecordedIsWireSafe(Entries(turns));
    TornLog(Entries(turns), cut);
    n := PrefixRecovers(turns, qs, since);
  }

  // ---------- exactly when ----------

  /** A start-up at time `now` that dispatches the values it read. */
  function Restart(values: seq<Value>, now: nat): seq<Turn> {
    seq(|values|, i requires 0 <= i < |values| => Replayed(values[i], now))
  }

  /** A crash after the run is recovered by a restart at time `now`. */
  ghost predicate Recovered(turns: seq<Turn>, now: nat) {
    Visible(Served(Restart(Frames(LogFile(turns)).commands, now)), now) == Visible(Served(turns), now)
  }

  lemma RestartLast(values: seq<Value>, now: nat)
    requires values != []
    ensures Front(Restart(values, now)) == Restart(Front(values), now)
    ensures Last(Restart(values, now)) == Replayed(Last(values), now)
  {
  }

  lemma StandsForLast(values: seq<Value>, commands: seq<Command>)
    requires StandsFor(values, commands) && values != []
    ensures StandsFor(Front(values), Front(commands))
    ensures forall now :: DeedOf(Replayed(Last(values), now)) == [Redo(Last(commands), now)]
  {
  }

  lemma {:induction false} RestartRedoes(values: seq<Value>, commands: seq<Command>, now: nat)
    requires StandsFor(values, commands)
    ensures DeedsOf(Restart(values, now)) == Redos(commands, Repeat(now, |commands|))
    decreases |values|
  {
    if values != [] {
      RestartLast(values, now);
      StandsForLast(values, commands);
      RestartRedoes(Front(values), Front(commands), now);
      RepeatedRedos(commands, now);
    }
  }

  lemma RepeatedRedos(commands: seq<Command>, now: nat)
    requires commands != []
    ensures Redos(commands, Repeat(now, |commands|)) ==
            Redos(Front(commands), Repeat(now, |Front(commands)|)) + [Redo(Last(commands), now)]
  {
  }

  lemma RecoveredIsRecovers(turns: seq<Turn>, now: nat)
    requires Received(turns)
    ensures Recovered(turns, now) <==> Recovers(DeedsOf(turns), now)
  {
    FileReadsBack(turns);
    EntriesStandForLog(turns);
    RestartRedoes(Entries(turns), LogOf(DeedsOf(turns)), now);
  }

  lemma DeedsGrow(turns: seq<Turn>, k: nat)
    requires k < |turns|
    ensures DeedsOf(turns[..k]) <= DeedsOf(turns[..k + 1]) && |DeedsOf(turns[..k + 1])| <= |DeedsOf(turns[..k])| + 1
  {
    assert Front(turns[..k + 1]) == turns[..k];
  }

  /** Every prefix of the deeds is the deeds of a prefix of the run. */
  lemma PrefixOfDeeds(turns: seq<Turn>, m: nat) returns (n: nat)
    requires m <= |DeedsOf(turns)|
    ensures n <= |turns| && DeedsOf(turns[..n]) == DeedsOf(turns)[..m]
  {
    forall k | 0 <= k < |turns|
      ensures DeedsOf(turns[..k]) <= DeedsOf(turns[..k + 1]) && |DeedsOf(turns[..k + 1])| <= |DeedsOf(turns[..k])| + 1
    {
      DeedsGrow(turns, k);
    }
    assert turns[..|turns|] == turns;
    n := PrefixWasReached(DeedsOf, turns, m);
  }

  /** At every moment of both runs at which their logs are the same they show the same. */
  ghost predicate StayInStep(turns: seq<Turn>, qs: seq<Turn>, since: nat) {
    forall n, m :: 0 <= n <= |turns| && 0 <= m <= |qs| && |Entries(turns[..n])| == |Entries(qs[..m])| ==>
      Agree(DeedsOf(turns[..n]), DeedsOf(qs[..m]), since)
  }

  lemma MomentOfDeeds(turns: seq<Turn>, n: nat)
    requires n <= |turns|
    ensures var p := |DeedsOf(turns[..n])|;
            && p <= |DeedsOf(turns)| && DeedsOf(turns[..n]) == DeedsOf(turns)[..p]
            && |LogOf(DeedsOf(turns)[..p])| == |Entries(turns[..n])|
  {
    DeedsOfPrefix(turns, n);
    EntriesStandForLog(turns[..n]);
  }

  lemma MomentOfTurns(turns: seq<Turn>, p: nat) returns (n: nat)
    requires p <= |DeedsOf(turns)|
    ensures n <= |turns| && DeedsOf(turns[..n]) == DeedsOf(turns)[..p]
    ensures |LogOf(DeedsOf(turns)[..p])| == |Entries(turns[..n])|
  {
    n := PrefixOfDeeds(turns, p);
    EntriesStandForLog(turns[..n]);
  }

  lemma StepByDeeds(turns: seq<Turn>, qs: seq<Turn>, since: nat)
    ensures StayInStep(turns, qs, since) <==> InStep(DeedsOf(turns), DeedsOf(qs), since)
  {
    var a, b := DeedsOf(turns), DeedsOf(qs);
    if InStep(a, b, since) {
      forall n, m | 0 <= n <= |turns| && 0 <= m <= |qs| && |Entries(turns[..n])| == |Entries(qs[..m])|
        ensures Agree(DeedsOf(turns[..n]), DeedsOf(qs[..m]), since)
      {
        MomentOfDeeds(turns, n);
        MomentOfDeeds(qs, m);
      }
    }
    if StayInStep(turns, qs, since) {
      forall p, q | 0 <= p <= |a| && 0 <= q <= |b| && |LogOf(a[..p])| == |LogOf(b[..q])|
        ensures Agree(a[..p], b[..q], since)
      {
        var n := MomentOfTurns(turns, p);
        var m := MomentOfTurns(qs, q);
      }
    }
  }

  /** A server that replays another's log, by whatever clock, is in step with it at every moment if and only if no
      command parts them and nothing evicted comes back. */
  lemma ReplayingIsExact(turns: seq<Turn>, qs: seq<Turn>, since: nat)
    requires Received(turns) && Trails(qs, turns)
    ensures StayInStep(turns, qs, since) <==> Harmless(turns, qs, since)
  {
    TrailsFollows(qs, turns);
    DeedsAreProper(turns);
    StepByDeeds(turns, qs, since);
    FollowingIsExact(DeedsOf(turns), DeedsOf(qs), since);
  }

  /** Every crash point of the run is recovered. */
  ghost predicate AlwaysRecovered(turns: seq<Turn>, now: nat) {
    forall n :: 0 <= n <= |turns| ==> Recovered(turns[..n], now)
  }

  lemma CrashPointIsPrefix(turns: seq<Turn>, n: nat, now: nat)
    requires Received(turns) && n <= |turns|
    ensures var m := |DeedsOf(turns[..n])|;
            m <= |DeedsOf(turns)| && (Recovered(turns[..n], now) <==> Recovers(DeedsOf(turns)[..m], now))
  {
    DeedsOfPrefix(turns, n);
    ReceivedPrefix(turns, n);
    RecoveredIsRecovers(turns[..n], now);
    assert DeedsOf(turns)[..|DeedsOf(turns[..n])|] == DeedsOf(turns[..n]);
  }

  lemma PrefixIsCrashPoint(turns: seq<Turn>, m: nat, now: nat) returns (n: nat)
    requires Received(turns) && m <= |DeedsOf(turns)|
    ensures n <= |turns| && (Recovered(turns[..n], now) <==> Recovers(DeedsOf(turns)[..m], now))
  {
    n := PrefixOfDeeds(turns, m);
    CrashPointIsPrefix(turns, n, now);
  }

  /** The crash points of a run are the prefixes of its deeds. */
  lemma CrashPoints(turns: seq<Turn>, now: nat)
    requires Received(turns)
    ensures AlwaysRecovered(turns, now) <==>
            forall m :: 0 <= m <= |DeedsOf(turns)| ==> Recovers(DeedsOf(turns)[..m], now)
  {
    if AlwaysRecovered(turns, now) {
      forall m | 0 <= m <= |DeedsOf(turns)| ensures Recovers(DeedsOf(turns)[..m], now) {
        var n := PrefixIsCrashPoint(turns, m, now);
      }
    } else {
      var n :| 0 <= n <= |turns| && !Recovered(turns[..n], now);
      CrashPointIsPrefix(turns, n, now);
    }
  }

  /** Whatever a server lived through, every crash point is recovered from the bytes of its log by a restart at
      time `now` if and only if the run holds no hazard for that time and evicted nothing that would still be live. */
  lemma RecoveryIsExact(turns: seq<Turn>, now: nat)
    requires Received(turns) && ClockWithin(DeedsOf(turns), now)
    ensures AlwaysRecovered(turns, now) <==>
            HazardFree(DeedsOf(turns), Repeat(now, |LogOf(DeedsOf(turns))|)) && LossFree(DeedsOf(turns), now)
  {
    CrashPoints(turns, now);
    DeedsAreProper(turns);
    ReplayIsExact(DeedsOf(turns), now);
  }
}
