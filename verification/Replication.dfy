/** PSYNC replication as a transition system: the primary streams its log from the replica's own log length;
    reads and writes cut the stream anywhere, connections are lost at any moment and made again. */
module Replication {
  import opened Machine
  import opened Decimal
  import opened Resp
  import opened Framing
  import opened Keyspace
  import opened Dispatcher

  const CONTINUE: string := "+CONTINUE"
  const CHUNK: nat := 4096

  /** The replica's end of a connection: looking for the reply to PSYNC, or applying the stream with the bytes
      of an incomplete frame in its buffer. */
  datatype Conn = Down | Handshake(got: string) | Streaming(buffer: string)

  /** `pos` is how far the primary has read its log for this connection and `link` what it wrote that the
      replica has not read. `segments` are the parts of the replica's log by connection, and `applied` the
      commands the replica has dispatched since it started. */
  datatype Net = Net(primary: string, pos: nat, link: string,
                     replica: string, conn: Conn, segments: seq<string>, applied: seq<Value>)

  datatype Step =
    | Append(bytes: string)
    | Connect
    | Send(count: nat)
    | Receive(count: nat)
    | Disconnect
    | Client(request: Value, reply: Reply, now: nat)
    | Restart

  predicate Enabled(net: Net, s: Step) {
    match s
    case Append(_) => true
    case Connect => net.conn.Down?
    case Send(n) => !net.conn.Down? && 0 < n <= CHUNK && net.pos + n <= |net.primary|
    case Receive(n) => !net.conn.Down? && 0 < n <= CHUNK && n <= |net.link|
    case Disconnect => !net.conn.Down?
    case Client(_, _, _) => true
    case Restart => true
  }

  /** What a client's request makes the replica log. */
  function ReplicaLogs(request: Value, reply: Reply, now: nat): string {
    if Gated(request, true, false) || !Decode(request).Perform? then ""
    else
      match LogEntry(request, Decode(request).command, reply, now)
      case None => ""
      case Some(v) => Serialize(v)
  }

  function Extend(segments: seq<string>, data: string): seq<string> {
    if segments == [] then [data] else segments[..|segments| - 1] + [segments[|segments| - 1] + data]
  }

  /** Stream bytes reach the replica: logged raw, then the whole frames applied. */
  function Absorb(net: Net, buffer: string, data: string): Net {
    var f := Frames(buffer + data);
    net.(replica := net.replica + data, conn := Streaming(f.residue), segments := Extend(net.segments, data),
         applied := net.applied + f.commands)
  }

  /** The replica reads `data`. */
  function Reads(net: Net, data: string): Net
    requires !net.conn.Down?
  {
    match net.conn
    case Streaming(buffer) => Absorb(net, buffer, data)
    case Handshake(got) =>
      match FindCrlf(got + data)
      case None => net.(conn := Handshake(got + data))
      case Some(e) =>
        if (got + data)[..e] == CONTINUE then Absorb(net, "", (got + data)[e + 2..])
        else net.(conn := Down, link := "")
  }

  function Take(net: Net, s: Step): Net
    requires Enabled(net, s)
  {
    match s
    case Append(bytes) => net.(primary := net.primary + bytes)
    case Connect =>
      net.(pos := |net.replica|, link := CONTINUE + CRLF, conn := Handshake(""), segments := net.segments + [""])
    case Send(n) => net.(link := net.link + net.primary[net.pos..net.pos + n], pos := net.pos + n)
    case Receive(n) => Reads(net.(link := net.link[n..]), net.link[..n])
    case Disconnect => net.(conn := Down, link := "")
    case Client(request, reply, now) => net.(replica := net.replica + ReplicaLogs(request, reply, now))
    case Restart =>
      net.(conn := Down, link := "", segments := [net.replica], applied := Frames(net.replica).commands)
  }

  /** The commands of each segment on its own, in order: every connection starts with an empty buffer. */
  function AppliedOf(segments: seq<string>): seq<Value> {
    if segments == [] then []
    else AppliedOf(segments[..|segments| - 1]) + Frames(segments[|segments| - 1]).commands
  }

  function Joined(segments: seq<string>): string {
    if segments == [] then "" else Joined(segments[..|segments| - 1]) + segments[|segments| - 1]
  }

  /** What the replica has of the stream, read and unread, is what the primary has sent of its log. */
  ghost predicate Aligned(net: Net) {
    match net.conn
    case Down => net.link == ""
    case Handshake(got) =>
      && |net.replica| <= net.pos <= |net.primary| && FindCrlf(got).None?
      && got + net.link == CONTINUE + CRLF + net.primary[|net.replica|..net.pos]
      && net.segments != [] && Last(net.segments) == ""
    case Streaming(buffer) =>
      && net.pos <= |net.primary| && net.replica + net.link == net.primary[..net.pos]
      && net.segments != [] && buffer == Frames(Last(net.segments)).residue
  }

  ghost predicate Inv(net: Net) {
    && net.replica <= net.primary && net.replica == Joined(net.segments)
    && net.applied == AppliedOf(net.segments) && Aligned(net)
  }

  // ---------- the steps keep it ----------

  function Last(segments: seq<string>): string {
    if segments == [] then "" else segments[|segments| - 1]
  }

  lemma ExtendJoins(segments: seq<string>, data: string)
    ensures Last(Extend(segments, data)) == Last(segments) + data
    ensures Joined(Extend(segments, data)) == Joined(segments) + data
  {
    if segments != [] {
      assert Extend(segments, data)[..|segments| - 1] == segments[..|segments| - 1];
    }
  }

  lemma Regroup<T>(a: seq<T>, b: seq<T>, c: seq<T>)
    ensures a + b + c == a + (b + c)
  {
  }

  /** The commands of a longer segment are those of the segment and those its residue completes. */
  lemma ExtendApplies(segments: seq<string>, data: string)
    requires segments != []
    ensures var f := Frames(Frames(Last(segments)).residue + data);
            && AppliedOf(Extend(segments, data)) == AppliedOf(segments) + f.commands
            && Frames(Last(segments) + data).residue == f.residue
  {
    var n := |segments| - 1;
    var before, now := Frames(Last(segments)), Frames(Frames(Last(segments)).residue + data);
    FramesAppend(Last(segments), data);
    assert Frames(Last(segments) + data).commands == before.commands + now.commands;
    assert Extend(segments, data)[..n] == segments[..n];
    Regroup(AppliedOf(segments[..n]), before.commands, now.commands);
  }

  /** Absorbing bytes keeps the account of commands: the buffer is the residue of the current segment. */
  lemma AbsorbKeeps(net: Net, buffer: string, data: string)
    requires net.segments != [] && net.replica == Joined(net.segments) && net.applied == AppliedOf(net.segments)
    requires buffer == Frames(Last(net.segments)).residue
    ensures var r := Absorb(net, buffer, data);
            && r.segments != [] && r.replica == Joined(r.segments) && r.applied == AppliedOf(r.segments)
            && r.conn.buffer == Frames(Last(r.segments)).residue
  {
    ExtendJoins(net.segments, data);
    ExtendApplies(net.segments, data);
  }

  lemma ContinueLine(tail: string)
    ensures FindCrlf(CONTINUE + CRLF + tail) == Some(9)
  {
    assert FindCrlf(CONTINUE).None? by { assert forall j: nat :: !CrlfAt(CONTINUE, j); }
    LineEnds(CONTINUE, tail);
  }

  lemma DropLine(tail: string)
    ensures (CONTINUE + CRLF + tail)[..9] == CONTINUE && (CONTINUE + CRLF + tail)[11..] == tail
  {
  }

  /** However the reply and the stream behind it were cut, the reply is found whole and the rest is the stream. */
  lemma HandshakeSplit(got: string, link: string, tail: string)
    requires FindCrlf(got).Some? && got + link == CONTINUE + CRLF + tail
    ensures FindCrlf(got) == Some(9) && got[..9] == CONTINUE && got[11..] + link == tail
  {
    SameFirstCrlf(got, link);
    ContinueLine(tail);
    DropLine(tail);
    assert (got + link)[..9] == got[..9] && (got + link)[11..] == got[11..] + link;
  }

  lemma StreamKeeps(net: Net, data: string)
    requires net.conn.Streaming? && net.pos <= |net.primary| && net.replica + data + net.link == net.primary[..net.pos]
    requires net.replica == Joined(net.segments) && net.applied == AppliedOf(net.segments)
    requires net.segments != [] && net.conn.buffer == Frames(Last(net.segments)).residue
    ensures Inv(Reads(net, data))
  {
    AbsorbKeeps(net, net.conn.buffer, data);
    var r := Reads(net, data);
    assert r.replica == net.primary[..net.pos][..|r.replica|];
  }

  /** A read during the handshake never misjudges the reply: the stream is taken from the right byte. */
  lemma HandshakeKeeps(net: Net, data: string)
    requires net.conn.Handshake? && net.replica <= net.primary && |net.replica| <= net.pos <= |net.primary|
    requires net.replica == Joined(net.segments) && net.applied == AppliedOf(net.segments)
    requires net.conn.got + data + net.link == CONTINUE + CRLF + net.primary[|net.replica|..net.pos]
    requires net.segments != [] && Last(net.segments) == ""
    ensures Inv(Reads(net, data))
  {
    var got, tail := net.conn.got + data, net.primary[|net.replica|..net.pos];
    if FindCrlf(got).Some? {
      HandshakeSplit(got, net.link, tail);
      var rest := got[11..];
      assert net.primary[..net.pos] == net.replica + tail;
      Regroup(net.replica, rest, net.link);
      assert Frames("") == Framed([], "");
      StreamKeeps(net.(conn := Streaming("")), rest);
    }
  }

  /** The read-only gate keeps clients of the replica out of its log. */
  lemma ClientsDoNotLog(request: Value, reply: Reply, now: nat)
    ensures ReplicaLogs(request, reply, now) == ""
  {
    if Decode(request).Perform? && LogEntry(request, Decode(request).command, reply, now).Some? {
      GateCoversLog(request, reply, now);
    }
  }

  lemma ReceiveKeeps(net: Net, n: nat)
    requires Inv(net) && Enabled(net, Receive(n))
    ensures Inv(Take(net, Receive(n)))
  {
    var data, rest := net.link[..n], net.link[n..];
    assert data + rest == net.link;
    if net.conn.Handshake? {
      Regroup(net.conn.got, data, rest);
      HandshakeKeeps(net.(link := rest), data);
    } else {
      Regroup(net.replica, data, rest);
      StreamKeeps(net.(link := rest), data);
    }
  }

  lemma SendKeeps(net: Net, n: nat)
    requires Inv(net) && Enabled(net, Send(n))
    ensures Inv(Take(net, Send(n)))
  {
    var sent := net.primary[net.pos..net.pos + n];
    assert net.primary[..net.pos + n] == net.primary[..net.pos] + sent;
    if net.conn.Handshake? {
      var tail := net.primary[|net.replica|..net.pos];
      assert net.primary[|net.replica|..net.pos + n] == tail + sent;
      Regroup(net.conn.got, net.link, sent);
      Regroup(CONTINUE + CRLF, tail, sent);
    } else {
      Regroup(net.replica, net.link, sent);
    }
  }

  lemma StepKeeps(net: Net, s: Step)
    requires Inv(net) && Enabled(net, s)
    ensures Inv(Take(net, s))
  {
    match s
    case Append(bytes) => AppendKeeps(net, bytes);
    case Connect => ConnectKeeps(net);
    case Send(n) => SendKeeps(net, n);
    case Receive(n) => ReceiveKeeps(net, n);
    case Disconnect =>
    case Client(request, reply, now) =>
      ClientsDoNotLog(request, reply, now);
      assert net.replica + "" == net.replica;
    case Restart =>
      assert [net.replica][..0] == [];
      assert Joined([net.replica]) == net.replica;
      assert AppliedOf([net.replica]) == Frames(net.replica).commands;
  }

  lemma AppendKeeps(net: Net, bytes: string)
    requires Inv(net)
    ensures Inv(Take(net, Append(bytes)))
  {
    var grown := net.primary + bytes;
    assert grown[..|net.replica|] == net.primary[..|net.replica|];
    if !net.conn.Down? {
      assert grown[..net.pos] == net.primary[..net.pos];
      if net.conn.Handshake? {
        assert grown[|net.replica|..net.pos] == net.primary[|net.replica|..net.pos];
      }
    }
  }

  lemma ConnectKeeps(net: Net)
    requires Inv(net) && net.conn.Down?
    ensures Inv(Take(net, Connect))
  {
    var segments := net.segments + [""];
    assert segments[..|net.segments|] == net.segments;
    assert Frames("") == Framed([], "");
    assert net.applied + [] == net.applied && net.replica + "" == net.replica;
    assert net.primary[|net.replica|..|net.replica|] == "";
  }

  // ---------- runs ----------

  /** The steps lead from `a` to `b`. */
  ghost predicate Reaches(a: Net, steps: seq<Step>, b: Net)
    decreases |steps|
  {
    if steps == [] then a == b else Enabled(a, steps[0]) && Reaches(Take(a, steps[0]), steps[1..], b)
  }

  /** A fresh replica that has never connected. */
  function Fresh(primary: string): Net {
    Net(primary, 0, "", "", Down, [], [])
  }

  lemma {:induction false} StepsKeep(a: Net, steps: seq<Step>, b: Net)
    requires Inv(a) && Reaches(a, steps, b)
    ensures Inv(b)
    decreases |steps|
  {
    if steps != [] {
      StepKeeps(a, steps[0]);
      StepsKeep(Take(a, steps[0]), steps[1..], b);
    }
  }

  /** In every reachable state, however the stream was cut and however often the connection was lost, the
      replica's log is a prefix of the primary's; with what is unread and in flight it is what was sent; and
      the commands applied are those of each connection's own bytes. */
  lemma EveryStateIsAligned(primary: string, steps: seq<Step>, net: Net)
    requires Reaches(Fresh(primary), steps, net)
    ensures Inv(net)
  {
    StepsKeep(Fresh(primary), steps, net);
  }

  /** Once everything was sent and read, the logs are equal. */
  lemma FullDelivery(net: Net)
    requires Inv(net) && net.conn.Streaming? && net.pos == |net.primary| && net.link == ""
    ensures net.replica == net.primary
  {
    assert net.replica + "" == net.replica && net.primary[..net.pos] == net.primary;
  }

  // ---------- convergence ----------

  /** Every connection so far, the last included, ended between two frames. */
  predicate Closed(segments: seq<string>) {
    forall i :: 0 <= i < |segments| ==> Frames(segments[i]).residue == ""
  }

  /** With every earlier connection closed, the segments frame like the whole. */
  lemma {:induction false} ClosedFrames(segments: seq<string>)
    requires segments != [] && Closed(segments[..|segments| - 1])
    ensures AppliedOf(segments) == Frames(Joined(segments)).commands
    ensures Frames(Last(segments)).residue == Frames(Joined(segments)).residue
    decreases |segments|
  {
    var front, last := segments[..|segments| - 1], Last(segments);
    if front == [] {
      assert Joined(segments) == last && AppliedOf(segments) == Frames(last).commands;
    } else {
      assert Closed(front[..|front| - 1]);
      ClosedFrames(front);
      assert Last(front) == front[|front| - 1];
      FramesAppend(Joined(front), last);
      assert "" + last == last;
    }
  }

  /** From a frame boundary on, throughout a connection, what was applied is exactly the whole frames of the
      replica's log and its buffer is exactly what is left of it. */
  lemma ConnectionIsExact(net: Net)
    requires Inv(net) && net.conn.Streaming? && Closed(net.segments[..|net.segments| - 1])
    ensures Framed(net.applied, net.conn.buffer) == Frames(net.replica)
  {
    ClosedFrames(net.segments);
  }

  function Lost(segments: seq<string>): nat {
    if segments == [] then 0 else Lost(segments[..|segments| - 1]) + |Frames(Last(segments)).residue|
  }

  /** The commands applied and the bytes of frames left incomplete never take more than the log. */
  lemma {:induction false} AppliedLength(segments: seq<string>)
    requires |Joined(segments)| <= INT64_MAX
    ensures |SerializeAll(AppliedOf(segments))| + Lost(segments) <= |Joined(segments)|
    decreases |segments|
  {
    if segments != [] {
      var front, last := segments[..|segments| - 1], Last(segments);
      AppliedLength(front);
      FramesLength(last);
      SerializeAllAppend(AppliedOf(front), Frames(last).commands);
    }
  }

  lemma {:induction false} NothingLostIsClosed(segments: seq<string>)
    requires Lost(segments) == 0
    ensures Closed(segments)
    decreases |segments|
  {
    if segments != [] {
      var n := |segments| - 1;
      NothingLostIsClosed(segments[..n]);
      assert forall i :: 0 <= i < n ==> segments[i] == segments[..n][i];
    }
  }

  /** A replica that holds a whole log of `values` has applied exactly those values if and only if every one of
      its connections ended between two frames. */
  lemma ConvergesExactlyWhenClosed(net: Net, values: seq<Value>)
    requires Inv(net) && AllWireSafe(values) && net.replica == SerializeAll(values) && |net.replica| <= INT64_MAX
    ensures net.applied == values <==> Closed(net.segments)
  {
    LogParsesBack(values);
    if Closed(net.segments) {
      if net.segments == [] {
        assert SerializeAll(values) == "" && Frames("") == Framed([], "");
      } else {
        assert Closed(net.segments[..|net.segments| - 1]);
        ClosedFrames(net.segments);
      }
    }
    if net.applied == values {
      AppliedLength(net.segments);
      NothingLostIsClosed(net.segments);
    }
  }

  // ---------- a connection lost inside a frame ----------

  lemma {:induction false} ReachesOn(a: Net, steps: seq<Step>, b: Net, more: seq<Step>, c: Net)
    requires Reaches(a, steps, b) && Reaches(b, more, c)
    ensures Reaches(a, steps + more, c)
    decreases |steps|
  {
    if steps == [] {
      assert steps + more == more;
    } else {
      assert (steps + more)[1..] == steps[1..] + more;
      ReachesOn(Take(a, steps[0]), steps[1..], b, more, c);
    }
  }

  lemma TwoSteps(a: Net, s: Step, t: Step)
    requires Enabled(a, s) && Enabled(Take(a, s), t)
    ensures Reaches(a, [s, t], Take(Take(a, s), t))
  {
    assert [s, t][1..] == [t] && [t][1..] == [];
  }

  lemma ReplyIsRead(net: Net)
    requires net.conn == Handshake("") && net.link == CONTINUE + CRLF && net.segments != []
    ensures Enabled(net, Receive(11)) && Take(net, Receive(11)) == Absorb(net.(link := ""), "", "")
  {
    ContinueLine("");
    DropLine("");
    var line := CONTINUE + CRLF;
    assert line + "" == line && "" + line == line && net.link[..11] == line && net.link[11..] == "";
  }

  lemma AbsorbNothing(net: Net)
    requires net.segments != []
    ensures Absorb(net, "", "") == net.(conn := Streaming(""))
  {
    assert Frames("") == Framed([], "");
    var n := |net.segments| - 1;
    assert net.segments[n] + "" == net.segments[n];
    assert Extend(net.segments, "") == net.segments;
    assert net.replica + "" == net.replica && net.applied + [] == net.applied;
  }

  /** A connection is made and the reply read before any stream byte. */
  lemma Connects(net: Net)
    requires net.conn.Down?
    ensures Reaches(net, [Connect, Receive(11)],
                    net.(pos := |net.replica|, link := "", conn := Streaming(""), segments := net.segments + [""]))
  {
    var mid := Take(net, Connect);
    ReplyIsRead(mid);
    AbsorbNothing(mid.(link := ""));
    TwoSteps(net, Connect, Receive(11));
  }

  /** Some bytes are sent and read in one piece. */
  lemma Transfers(net: Net, n: nat)
    requires net.conn.Streaming? && net.link == "" && 0 < n <= CHUNK && net.pos + n <= |net.primary|
    ensures Reaches(net, [Send(n), Receive(n)],
                    Absorb(net.(pos := net.pos + n), net.conn.buffer, net.primary[net.pos..net.pos + n]))
  {
    var data := net.primary[net.pos..net.pos + n];
    var mid := net.(pos := net.pos + n, link := data);
    assert Take(net, Send(n)) == mid by { assert "" + data == data; }
    assert Take(mid, Receive(n)) == Absorb(mid.(link := ""), net.conn.buffer, data) by {
      assert data[..n] == data && data[n..] == "";
    }
    TwoSteps(net, Send(n), Receive(n));
  }

  lemma ExtendTwice(segments: seq<string>, a: string, b: string)
    ensures Extend(Extend(segments, a), b) == Extend(segments, a + b)
  {
    if segments != [] {
      var n := |segments| - 1;
      assert Extend(segments, a)[..n] == segments[..n];
      assert segments[n] + a + b == segments[n] + (a + b);
    }
  }

  /** Reading two pieces is reading them in one. */
  lemma AbsorbTwice(net: Net, buffer: string, a: string, b: string)
    ensures var once := Absorb(net, buffer, a);
            Absorb(once, once.conn.buffer, b) == Absorb(net, buffer, a + b)
  {
    var f := Frames(buffer + a);
    FramesAppend(buffer + a, b);
    assert buffer + a + b == buffer + (a + b);
    Regroup(net.applied, f.commands, Frames(f.residue + b).commands);
    assert net.replica + a + b == net.replica + (a + b);
    ExtendTwice(net.segments, a, b);
  }

  lemma RestIsBoth(s: string, i: nat, j: nat)
    requires i <= j <= |s|
    ensures s[i..j] + s[j..] == s[i..]
  {
  }

  /** All that is left of the log is sent and read, in as many pieces as it takes. */
  lemma {:induction false} TransfersAll(net: Net) returns (steps: seq<Step>)
    requires net.conn.Streaming? && net.link == "" && net.pos < |net.primary|
    ensures Reaches(net, steps, Absorb(net.(pos := |net.primary|), net.conn.buffer, net.primary[net.pos..]))
    decreases |net.primary| - net.pos
  {
    var left := |net.primary| - net.pos;
    if left <= CHUNK {
      Transfers(net, left);
      assert net.primary[net.pos..net.pos + left] == net.primary[net.pos..];
      steps := [Send(left), Receive(left)];
    } else {
      var next := net.pos + CHUNK;
      var data := net.primary[net.pos..next];
      var mid := Absorb(net.(pos := next), net.conn.buffer, data);
      Transfers(net, CHUNK);
      var more := TransfersAll(mid);
      RestIsBoth(net.primary, net.pos, next);
      AbsorbTwice(net.(pos := |net.primary|), net.conn.buffer, data, net.primary[next..]);
      steps := [Send(CHUNK), Receive(CHUNK)] + more;
      ReachesOn(net, [Send(CHUNK), Receive(CHUNK)], mid, more,
                Absorb(mid.(pos := |net.primary|), mid.conn.buffer, net.primary[next..]));
    }
  }

  lemma OneStep(a: Net, s: Step)
    requires Enabled(a, s)
    ensures Reaches(a, [s], Take(a, s))
  {
    assert [s][1..] == [];
  }

  lemma StarIsNoFrame()
    ensures Frames("*") == Framed([], "*")
  {
    assert FindCrlf("*").None?;
  }

  lemma FirstByte(bytes: string)
    requires bytes != "" && bytes[0] == '*'
    ensures Reaches(Net(bytes, 0, "", "", Streaming(""), [""], []), [Send(1), Receive(1)],
                    Net(bytes, 1, "", "*", Streaming("*"), ["*"], []))
  {
    StarIsNoFrame();
    assert bytes[0..1] == "*" && "" + "*" == "*" && Extend([""], "*") == ["*"];
    Transfers(Net(bytes, 0, "", "", Streaming(""), [""], []), 1);
  }

  /** One byte of the log is replicated and the connection lost. */
  lemma FirstConnection(bytes: string) returns (steps: seq<Step>)
    requires bytes != "" && bytes[0] == '*'
    ensures Reaches(Fresh(bytes), steps, Net(bytes, 1, "", "*", Down, ["*"], []))
  {
    var a, b := Net(bytes, 0, "", "", Streaming(""), [""], []), Net(bytes, 1, "", "*", Streaming("*"), ["*"], []);
    assert [] + [""] == [""];
    Connects(Fresh(bytes));
    FirstByte(bytes);
    OneStep(b, Disconnect);
    ReachesOn(Fresh(bytes), [Connect, Receive(11)], a, [Send(1), Receive(1)], b);
    steps := [Connect, Receive(11)] + [Send(1), Receive(1)];
    ReachesOn(Fresh(bytes), steps, b, [Disconnect], Take(b, Disconnect));
    steps := steps + [Disconnect];
  }

  /** A second connection delivers the rest. */
  lemma SecondConnection(bytes: string) returns (steps: seq<Step>)
    requires 1 < |bytes| && bytes[0] == '*'
    ensures Reaches(Net(bytes, 1, "", "*", Down, ["*"], []), steps,
                    Absorb(Net(bytes, |bytes|, "", "*", Streaming(""), ["*", ""], []), "", bytes[1..]))
  {
    var a := Net(bytes, 1, "", "*", Down, ["*"], []);
    var b := Net(bytes, 1, "", "*", Streaming(""), ["*", ""], []);
    assert ["*"] + [""] == ["*", ""];
    Connects(a);
    var more := TransfersAll(b);
    steps := [Connect, Receive(11)] + more;
    ReachesOn(a, [Connect, Receive(11)], b, more, Absorb(b.(pos := |bytes|), "", bytes[1..]));
  }

  /** A connection lost inside a frame: a run at whose end the logs are equal and everything was delivered, and
      yet the replica has not applied what its log holds. */
  lemma TornConnectionDiverges(v: Value) returns (steps: seq<Step>, net: Net)
    requires v.Array? && WireSafe(v) && |Serialize(v)| <= INT64_MAX
    ensures Reaches(Fresh(Serialize(v)), steps, net)
    ensures net.replica == net.primary == Serialize(v) && net.conn.Streaming? && net.link == ""
    ensures net.applied != [v] == Frames(net.replica).commands
  {
    var bytes := Serialize(v);
    assert bytes[0] == '*' && 1 < |bytes|;
    var first := FirstConnection(bytes);
    var second := SecondConnection(bytes);
    net := Absorb(Net(bytes, |bytes|, "", "*", Streaming(""), ["*", ""], []), "", bytes[1..]);
    steps := first + second;
    ReachesOn(Fresh(bytes), first, Net(bytes, 1, "", "*", Down, ["*"], []), second, net);
    EveryStateIsAligned(bytes, steps, net);
    assert "*" + bytes[1..] == bytes;
    SingleLog(v);
    StarIsNoFrame();
    assert Extend(["*", ""], bytes[1..])[0] == "*";
    assert !Closed(net.segments);
    ConvergesExactlyWhenClosed(net, [v]);
  }

  lemma SingleLog(v: Value)
    requires WireSafe(v)
    ensures SerializeAll([v]) == Serialize(v) && Frames(Serialize(v)) == Framed([v], "") && AllWireSafe([v])
  {
    assert SerializeAll([v]) == Serialize(v) + "" == Serialize(v);
    LogParsesBack([v]);
  }

  // ---------- the handshake ----------

  /** The request a replica writes to ask for the stream from `offset` on. */
  function PsyncBytes(offset: nat): string {
    "*2\r\n$5\r\nPSYNC\r\n$" + Print(|Print(offset)|) + "\r\n" + Print(offset) + "\r\n"
  }

  lemma TwoItems(a: Value, b: Value)
    ensures SerializeAll([a, b]) == Serialize(a) + Serialize(b)
  {
    assert [a, b][1..] == [b] && [b][1..] == [];
    assert SerializeAll([b]) == Serialize(b) + "" == Serialize(b);
  }

  lemma PsyncIsSerialized(offset: nat)
    ensures PsyncBytes(offset) == Serialize(Array([BulkString("PSYNC"), BulkString(Print(offset))]))
  {
    var word, number := BulkString("PSYNC"), BulkString(Print(offset));
    assert Print(2) == "2" && Print(5) == "5";
    TwoItems(word, number);
    assert Serialize(word) == "$5\r\nPSYNC\r\n";
    assert "*2\r\n$5\r\nPSYNC\r\n$" == "*2\r\n" + "$5\r\nPSYNC\r\n" + "$";
  }

  lemma PsyncDecodes(offset: nat)
    requires offset <= UINT64_MAX
    ensures Decode(Array([BulkString("PSYNC"), BulkString(Print(offset))])) == Psync(offset)
  {
    ScanPrintedNat(offset, "", UINT64_MAX);
    assert PrintNat(offset) + "" == PrintNat(offset);
    assert ToUpper("PSYNC") == "PSYNC";
  }

  lemma PsyncIsWireSafe(offset: nat)
    requires offset <= UINT64_MAX
    ensures WireSafe(Array([BulkString("PSYNC"), BulkString(Print(offset))]))
  {
    PrintIsShort(offset);
    var items := [BulkString("PSYNC"), BulkString(Print(offset))];
    assert WireSafe(items[0]) && WireSafe(items[1]);
  }

  /** The primary reads that request as PSYNC with that very offset. */
  lemma PsyncIsUnderstood(offset: nat)
    requires offset <= UINT64_MAX
    ensures Parse(PsyncBytes(offset)).Done? && Parse(PsyncBytes(offset)).size == |PsyncBytes(offset)|
    ensures Decode(Parse(PsyncBytes(offset)).value) == Psync(offset)
  {
    var v := Array([BulkString("PSYNC"), BulkString(Print(offset))]);
    PsyncIsSerialized(offset);
    PsyncIsWireSafe(offset);
    RoundTrip(v, "");
    assert Serialize(v) + "" == Serialize(v);
    PsyncDecodes(offset);
  }
}
