/** Replication end to end: what a replica shows while it applies its primary's stream. */
module Convergence {
  import opened Sequences
  import opened Resp
  import opened Framing
  import opened Keyspace
  import opened ReplayLaws
  import opened Recovery
  import opened Replication
  import opened Dispatcher
  import opened Serving
  import Requests
  import Wire
  import opened Machine
  import opened Engine

  /** The connection is in its stream and every earlier one ended between two frames. */
  ghost predicate Tracks(net: Net, log: string) {
    Inv(net) && net.primary == log && net.conn.Streaming? && Closed(net.segments[..|net.segments| - 1])
  }

  /** What such a replica has applied is a prefix of what its primary has logged, and all of it once everything
      is delivered. */
  lemma AppliedIsPrefix(turns: seq<Turn>, net: Net)
    requires Received(turns) && Tracks(net, LogFile(turns))
    ensures net.applied <= Entries(turns)
    ensures net.replica == net.primary ==> net.applied == Entries(turns)
  {
    var cut := |net.replica|;
    ConnectionIsExact(net);
    assert LogFile(turns)[..cut] == net.replica;
    EntriesAreRecorded(turns);
    RecordedIsWireSafe(Entries(turns));
    TornLog(Entries(turns), cut);
    FileReadsBack(turns);
  }

  /** At any moment of the stream, however far it has come, the replica shows the key space its primary had after
      some number of turns, from both clocks on, if no command it has applied parts them and nothing the primary
      evicted comes back. Its own clients and sweeper may come in between. */
  lemma ReplicaShowsAnEarlierPrimary(turns: seq<Turn>, net: Net, qs: seq<Turn>, since: nat) returns (n: nat)
    requires Received(turns) && Tracks(net, LogFile(turns)) && Entries(qs) == net.applied
    requires Applying(qs) && Harmless(turns, qs, since)
    ensures n <= |turns| && Entries(turns[..n]) == net.applied
    ensures LookAlike(Served(turns[..n]), Served(qs), BothDone(turns[..n], qs, since))
    ensures NotBehind(DeedsOf(qs), DeedsOf(turns), 0) ==>
              BothDone(turns[..n], qs, since) == Max(since, Latest(DeedsOf(qs)))
  {
    AppliedIsPrefix(turns, net);
    n := PrefixRecovers(turns, qs, since);
  }

  /** Once everything is delivered, it shows what the primary shows. */
  lemma ReplicaShowsThePrimary(turns: seq<Turn>, net: Net, qs: seq<Turn>, since: nat, to: nat)
    requires Received(turns) && Tracks(net, LogFile(turns)) && Entries(qs) == net.applied
    requires Applying(qs) && Harmless(turns, qs, since)
    requires net.replica == net.primary && BothDone(turns, qs, since) <= to
    ensures Visible(Served(turns), to) == Visible(Served(qs), to)
  {
    AppliedIsPrefix(turns, net);
    FileReadsBack(turns);
    RestartRecovers(turns, qs, since, to);
  }

  /** A replica is in step with its primary, at every moment of both, if and only if no command parts them and
      nothing the primary evicted comes back. */
  lemma ReplicaIsExact(turns: seq<Turn>, net: Net, qs: seq<Turn>, since: nat)
    requires Received(turns) && Tracks(net, LogFile(turns)) && Entries(qs) == net.applied && Applying(qs)
    ensures StayInStep(turns, qs, since) <==> Harmless(turns, qs, since)
  {
    AppliedIsPrefix(turns, net);
    ReplayingIsExact(turns, qs, since);
  }

  // ---------- the handshake ----------

  lemma PsyncIsAnswered(cfg: Config, st: State, request: Value, offset: nat, mode: Mode, now: nat)
    requires cfg.Placed(st.shards) && Decode(request) == Psync(offset)
    ensures ResponseTo(cfg, st, request, mode, now) == Some(SimpleString("CONTINUE"))
  {
    Requests.DecodesIffTold(request, Psync(offset));
    Requests.ReadsPass(request, "PSYNC");
  }

  lemma ContinueBytes()
    ensures Serialize(SimpleString("CONTINUE")) == CONTINUE + CRLF == "+CONTINUE\r\n"
  {
    Wire.SimpleStringForm("CONTINUE", "");
    assert "+" + "CONTINUE" == "+CONTINUE";
  }

  /** What a connecting replica sends is understood by the primary, and what the primary responds is what the
      replica waits for: the bytes on the link of the transition system. */
  lemma ReplyIsTheLink(cfg: Config, st: State, net: Net, mode: Mode, now: nat) returns (request: Value)
    requires cfg.Placed(st.shards) && net.conn.Down? && |net.replica| <= UINT64_MAX
    ensures var sent := PsyncBytes(Take(net, Connect).pos); Parse(sent) == Done(request, |sent|)
    ensures Decode(request) == Psync(|net.replica|)
    ensures ResponseTo(cfg, st, request, mode, now) == Some(SimpleString("CONTINUE"))
    ensures Serialize(SimpleString("CONTINUE")) == Take(net, Connect).link
  {
    PsyncIsUnderstood(|net.replica|);
    request := Parse(PsyncBytes(|net.replica|)).value;
    assert ResponseTo(cfg, st, request, mode, now) == Some(SimpleString("CONTINUE")) by {
      PsyncIsAnswered(cfg, st, request, |net.replica|, mode, now);
    }
    ContinueBytes();
  }

  // ---------- on the engines ----------

  /** The life of a replica that evicts nothing: what it has applied is what the connection gave it. */
  ghost predicate Replicates(life: Life, net: Net) {
    && FreshLife(life) && AllCalm(life) && life.readOnly && AllReplayable(life.works)
    && ReplayedUpTo(life.works, |life.works|) == net.applied
  }

  /** Its shards hold what its turns leave on one map, and its log what it has applied. */
  lemma ReplicaServes(replica: Life, net: Net)
    requires Replicates(replica, net)
    ensures Applying(AllTurns(replica)) && Entries(AllTurns(replica)) == net.applied
    ensures replica.cfg.Union(replica.trace[|replica.works|].shards) == Served(AllTurns(replica))
  {
    CalmIsBegun(replica);
    FollowerEntries(replica, |replica.works|);
    LifeServes(replica, |replica.works|);
  }

  lemma PrimaryServes(primary: Life, values: seq<Value>, n: nat)
    requires AllRecorded(values) && Lived(primary, SerializeAll(values)) && n <= |primary.works|
    ensures primary.cfg.Union(primary.trace[n].shards) == Served(Turns(primary, n))
  {
    LivedIsReplayable(primary, values);
    LifeServes(primary, n);
  }

  /** A replica goes on: what the connection gives it next is applied. */
  lemma ReplicaLivesOn(replica: Life, more: Life, net: Net, next: Net, commands: seq<Value>)
    requires Replicates(replica, net) && Continues(more, replica) && AllCalm(more)
    requires more.works == Asks(commands, true) && AllRecorded(commands) && next.applied == net.applied + commands
    ensures Replicates(Continued(replica, more), next)
  {
    FreshJoin(replica, more);
    CalmJoin(replica, more);
    ReplaysGoOn(replica.works, more.works, commands);
  }

  /** A primary in any of its lives and a replica of it, each with its own shards, hash, clock, sweeper and
      clients: at any moment of the stream the replica's shards show what the primary's showed after some number
      of works, if no command the replica has applied parts them and nothing the primary evicted comes back. */
  lemma ReplicaEngineShowsAnEarlierPrimary(primary: Life, values: seq<Value>, replica: Life, net: Net, since: nat)
      returns (n: nat)
    requires AllRecorded(values) && Lived(primary, SerializeAll(values))
    requires Tracks(net, FileAfter(SerializeAll(values), primary)) && Replicates(replica, net)
    requires Harmless(AllTurns(primary), AllTurns(replica), since)
    ensures n <= |primary.works|
    ensures LookAlike(primary.cfg.Union(primary.trace[n].shards),
                      replica.cfg.Union(replica.trace[|replica.works|].shards),
                      BothDone(Turns(primary, n), AllTurns(replica), since))
    ensures NotBehind(DeedsOf(AllTurns(replica)), DeedsOf(AllTurns(primary)), 0) ==>
              BothDone(Turns(primary, n), AllTurns(replica), since) == Max(since, Latest(DeedsOf(AllTurns(replica))))
  {
    LifeKeepsFile(primary, values);
    ReplicaServes(replica, net);
    n := ReplicaShowsAnEarlierPrimary(AllTurns(primary), net, AllTurns(replica), since);
    TurnsPrefix(primary, n, |primary.works|);
    PrimaryServes(primary, values, n);
  }

  /** Once everything is delivered, they show what the primary's shards show. */
  lemma ReplicaEngineShowsThePrimary(primary: Life, values: seq<Value>, replica: Life, net: Net, since: nat, to: nat)
    requires AllRecorded(values) && Lived(primary, SerializeAll(values))
    requires Tracks(net, FileAfter(SerializeAll(values), primary)) && Replicates(replica, net)
    requires Harmless(AllTurns(primary), AllTurns(replica), since)
    requires net.replica == net.primary && BothDone(AllTurns(primary), AllTurns(replica), since) <= to
    ensures Visible(primary.cfg.Union(primary.trace[|primary.works|].shards), to) ==
            Visible(replica.cfg.Union(replica.trace[|replica.works|].shards), to)
  {
    LifeKeepsFile(primary, values);
    ReplicaServes(replica, net);
    ReplicaShowsThePrimary(AllTurns(primary), net, AllTurns(replica), since, to);
    PrimaryServes(primary, values, |primary.works|);
  }
}
