/** The append-parse-erase loop over a byte stream: which commands it yields and what it leaves unread. */
module Framing {
  import opened Machine
  import opened Decimal
  import opened Resp

  datatype Framed = Framed(commands: seq<Value>, residue: string)

  /** All whole frames at the front of `s`, in order, and the bytes after them. */
  function Frames(s: string): (f: Framed)
    ensures |f.residue| <= |s|
    decreases |s|
  {
    match Parse(s)
    case Done(v, n) =>
      var f := Frames(s[n..]);
      Framed([v] + f.commands, f.residue)
    case _ => Framed([], s)
  }

  /** `first`, then the frames found once `more` follows its residue. */
  function Then(first: Framed, more: string): Framed {
    var f := Frames(first.residue + more);
    Framed(first.commands + f.commands, f.residue)
  }

  /** A frame at the front of a stream is there whatever follows, and takes the same bytes. */
  lemma FrameAhead(a: string, b: string)
    requires Parse(a).Done?
    ensures Parse(a + b) == Parse(a) && (a + b)[Parse(a).size..] == a[Parse(a).size..] + b
  {
    var n := Parse(a).size;
    assert (a + b)[..n] == a[..n];
    ParseLocal(a, a + b);
  }

  lemma FramesCons(s: string, v: Value, rest: string, f: Framed)
    requires Parse(s).Done? && Parse(s).value == v && s[Parse(s).size..] == rest && Frames(rest) == f
    ensures Frames(s) == Framed([v] + f.commands, f.residue)
  {
  }

  lemma Regroup(v: Value, a: seq<Value>, b: seq<Value>)
    ensures [v] + (a + b) == [v] + a + b
  {
  }

  /** Splitting a stream anywhere and carrying the residue over changes nothing. */
  lemma {:induction false} FramesAppend(a: string, b: string)
    ensures Frames(a + b) == Then(Frames(a), b)
    decreases |a|
  {
    if Parse(a).Done? {
      var v, rest := Parse(a).value, a[Parse(a).size..];
      FrameAhead(a, b);
      FramesAppend(rest, b);
      FramesCons(a + b, v, rest + b, Then(Frames(rest), b));
      Regroup(v, Frames(rest).commands, Frames(Frames(rest).residue + b).commands);
    } else {
      assert Frames(a) == Framed([], a);
      assert [] + Frames(a + b).commands == Frames(a + b).commands;
    }
  }

  /** The residue holds no further whole frame. */
  lemma {:induction false} ResidueIsStuck(s: string)
    ensures Frames(Frames(s).residue) == Framed([], Frames(s).residue)
    decreases |s|
  {
    match Parse(s)
    case Done(v, n) => ResidueIsStuck(s[n..]);
    case _ =>
  }

  function Flatten(chunks: seq<string>): string {
    if chunks == [] then "" else chunks[0] + Flatten(chunks[1..])
  }

  /** What a connection that starts with `buffer` yields when the stream arrives in the given reads. */
  function Feed(buffer: string, chunks: seq<string>): Framed
    decreases |chunks|
  {
    if chunks == [] then Framed([], buffer)
    else
      var f := Frames(buffer + chunks[0]);
      var g := Feed(f.residue, chunks[1..]);
      Framed(f.commands + g.commands, g.residue)
  }

  /** However a stream is cut into reads, the commands and the final residue are those of the whole stream. */
  lemma {:induction false} ChunkIndependence(buffer: string, chunks: seq<string>)
    requires Frames(buffer) == Framed([], buffer)
    ensures Feed(buffer, chunks) == Frames(buffer + Flatten(chunks))
    decreases |chunks|
  {
    if chunks == [] {
      assert buffer + Flatten(chunks) == buffer;
    } else {
      var front, back := buffer + chunks[0], Flatten(chunks[1..]);
      calc {
        Feed(buffer, chunks);
      ==  { ResidueIsStuck(front); ChunkIndependence(Frames(front).residue, chunks[1..]); }
        Then(Frames(front), back);
      ==  { FramesAppend(front, back); }
        Frames(front + back);
      ==  { assert front + back == buffer + Flatten(chunks); }
        Frames(buffer + Flatten(chunks));
      }
    }
  }

  // ---------- logs ----------

  predicate AllWireSafe(values: seq<Value>) {
    forall i :: 0 <= i < |values| ==> WireSafe(values[i])
  }

  /** A log of printed values parses back to exactly those values, with nothing left. */
  lemma {:induction false} LogParsesBack(values: seq<Value>)
    requires AllWireSafe(values)
    ensures Frames(SerializeAll(values)) == Framed(values, "")
  {
    if values == [] {
      assert SerializeAll(values) == "";
    } else {
      var first, others := Serialize(values[0]), SerializeAll(values[1..]);
      LogParsesBack(values[1..]);
      RoundTrip(values[0], others);
      assert (first + others)[|first|..] == others;
      FramesCons(first + others, values[0], others, Framed(values[1..], ""));
      assert [values[0]] + values[1..] == values;
    }
  }

  /** A cut inside a value leaves no whole frame. */
  lemma CutInside(v: Value, rest: string, cut: nat)
    requires WireSafe(v) && cut < |Serialize(v)|
    ensures Frames((Serialize(v) + rest)[..cut]) == Framed([], (Serialize(v) + rest)[..cut])
  {
    var log := Serialize(v) + rest;
    RoundTrip(v, rest);
    if Parse(log[..cut]).Done? {
      assert log[..Parse(log[..cut]).size] == log[..cut][..Parse(log[..cut]).size];
      ParseLocal(log[..cut], log);
      assert false;
    }
  }

  /** A cut past a value leaves that value and what the cut leaves of the rest. */
  lemma CutPast(v: Value, rest: string, cut: nat)
    requires WireSafe(v) && |Serialize(v)| <= cut <= |Serialize(v) + rest|
    ensures var n := |Serialize(v)|;
            && (Serialize(v) + rest)[..cut] == Serialize(v) + rest[..cut - n]
            && Frames((Serialize(v) + rest)[..cut]) ==
               Framed([v] + Frames(rest[..cut - n]).commands, Frames(rest[..cut - n]).residue)
  {
    var first, others := Serialize(v), rest[..cut - |Serialize(v)|];
    RoundTrip(v, others);
    assert (Serialize(v) + rest)[..cut] == first + others;
    assert (first + others)[|first|..] == others;
  }

  /** The longest prefix of whole values within the first `cut` bytes of a log: the next value, if there is
      one, ends after the cut, and the residue is what lies between the last whole value and the cut. */
  predicate LongestPrefix(values: seq<Value>, cut: nat, f: Framed) {
    var m := |f.commands|;
    && m <= |values| && f.commands == values[..m] && cut <= |SerializeAll(values)|
    && SerializeAll(values)[..cut] == SerializeAll(f.commands) + f.residue
    && (m < |values| ==> cut < |SerializeAll(values[..m + 1])|)
  }

  lemma TakePrinted(values: seq<Value>, m: nat)
    requires 1 <= m <= |values|
    ensures SerializeAll(values[..m]) == Serialize(values[0]) + SerializeAll(values[1..][..m - 1])
    ensures values[..m] == [values[0]] + values[1..][..m - 1]
  {
    assert values[..m][1..] == values[1..][..m - 1];
  }

  lemma LongestPrefixCons(values: seq<Value>, cut: nat, f: Framed)
    requires values != [] && |Serialize(values[0])| <= cut
    requires LongestPrefix(values[1..], cut - |Serialize(values[0])|, f)
    ensures LongestPrefix(values, cut, Framed([values[0]] + f.commands, f.residue))
  {
    var first, others, m := Serialize(values[0]), SerializeAll(values[1..]), |f.commands|;
    TakePrinted(values, m + 1);
    assert (first + others)[..cut] == first + others[..cut - |first|];
    if m + 1 < |values| {
      TakePrinted(values, m + 2);
    }
  }

  lemma LongestPrefixNone(values: seq<Value>, cut: nat)
    requires values != [] && cut < |Serialize(values[0])|
    ensures LongestPrefix(values, cut, Framed([], SerializeAll(values)[..cut]))
  {
    TakePrinted(values, 1);
    var empty: seq<Value> := [];
    assert values[..0] == empty && values[1..][..0] == empty && SerializeAll(empty) == "";
    assert "" + SerializeAll(values)[..cut] == SerializeAll(values)[..cut];
  }

  lemma TornInside(values: seq<Value>, cut: nat)
    requires values != [] && WireSafe(values[0]) && cut < |Serialize(values[0])|
    ensures LongestPrefix(values, cut, Frames(SerializeAll(values)[..cut]))
  {
    CutInside(values[0], SerializeAll(values[1..]), cut);
    LongestPrefixNone(values, cut);
  }

  lemma TornPast(values: seq<Value>, cut: nat, f: Framed)
    requires values != [] && WireSafe(values[0]) && |Serialize(values[0])| <= cut <= |SerializeAll(values)|
    requires f == Frames(SerializeAll(values[1..])[..cut - |Serialize(values[0])|])
    requires LongestPrefix(values[1..], cut - |Serialize(values[0])|, f)
    ensures LongestPrefix(values, cut, Frames(SerializeAll(values)[..cut]))
  {
    CutPast(values[0], SerializeAll(values[1..]), cut);
    LongestPrefixCons(values, cut, f);
  }

  lemma TornNothing(cut: nat)
    requires cut <= |SerializeAll([])|
    ensures LongestPrefix([], cut, Frames(SerializeAll([])[..cut]))
  {
    assert SerializeAll([])[..cut] == "" && Frames("") == Framed([], "");
  }

  lemma PrintedLength(values: seq<Value>)
    requires values != []
    ensures |SerializeAll(values)| == |Serialize(values[0])| + |SerializeAll(values[1..])|
  {
  }

  /** Cut at any byte, a log yields exactly the longest prefix of whole values. */
  lemma {:induction false} TornLog(values: seq<Value>, cut: nat)
    requires AllWireSafe(values) && cut <= |SerializeAll(values)|
    ensures LongestPrefix(values, cut, Frames(SerializeAll(values)[..cut]))
    decreases |values|
  {
    if values == [] {
      TornNothing(cut);
    } else if cut < |Serialize(values[0])| {
      TornInside(values, cut);
    } else {
      var rest, left := values[1..], cut - |Serialize(values[0])|;
      PrintedLength(values);
      TornLog(rest, left);
      TornPast(values, cut, Frames(SerializeAll(rest)[..left]));
    }
  }

  /** No frame starts with a byte other than the five type bytes, nor with two stars. */
  lemma NoFrameStarts(s: string)
    requires s != ""
    requires s[0] !in {'+', '-', ':', '$', '*'} || (|s| > 1 && s[0] == '*' && s[1] == '*')
    ensures Parse(s) == Pending
  {
    var r := FindCrlf(s);
    if r.Some? && s[0] == '*' {
      assert r.value > 1 by { assert !CrlfAt(s, 0) && !CrlfAt(s, 1); }
      assert s[1..r.value][0] == '*';
    }
  }

  // ---------- appending to a torn log ----------

  predicate AllArrays(values: seq<Value>) {
    forall i :: 0 <= i < |values| ==> values[i].Array?
  }

  /** A torn tail is not removed before later appends: after a log torn one byte into a command, whatever came
      before it, nothing appended later is ever read. */
  lemma TornTailHidesLaterAppends(log: string, values: seq<Value>)
    requires Frames(log).residue == "" && values != [] && values[0].Array?
    ensures Frames(log + ("*" + SerializeAll(values))) == Framed(Frames(log).commands, "*" + SerializeAll(values))
  {
    var tail := "*" + SerializeAll(values);
    assert Serialize(values[0])[0] == '*';
    NoFrameStarts(tail);
    FramesAppend(log, tail);
    assert "" + tail == tail && Frames(log).commands + [] == Frames(log).commands;
  }

  /** After a log that ends between two frames, everything appended later is read, and nothing is left. */
  lemma LaterAppendsSurvive(log: string, values: seq<Value>)
    requires AllWireSafe(values) && Frames(log).residue == ""
    ensures Frames(log + SerializeAll(values)) == Framed(Frames(log).commands + values, "")
  {
    FramesAppend(log, SerializeAll(values));
    LogParsesBack(values);
    assert "" + SerializeAll(values) == SerializeAll(values);
  }

  /** Whatever commands are appended to the log, all of them are read back behind what it held. */
  ghost predicate AppendsSurvive(log: string) {
    forall values :: AllWireSafe(values) && AllArrays(values) && values != [] ==>
      Frames(log + SerializeAll(values)) == Framed(Frames(log).commands + values, "")
  }

  lemma SameFirstCrlf(s: string, more: string)
    requires FindCrlf(s).Some?
    ensures FindCrlf(s + more) == FindCrlf(s)
  {
    assert forall j: nat :: j + 1 < |s| ==> (CrlfAt(s, j) <==> CrlfAt(s + more, j));
  }

  /** The count in the first line of an array. */
  lemma HeaderCount(s: string)
    requires Parse(s).Done? && Parse(s).value.Array?
    ensures FindCrlf(s).Some? && FindCrlf(s).value > 0 && s[0] == '*'
    ensures var n := ScanSigned(s[1..FindCrlf(s).value]); n.Some? && n.value.value == |Parse(s).value.items|
  {
  }

  lemma CrlfPast(r: string, rest: string, e: nat)
    requires FindCrlf(r).None? && rest != "" && rest[0] == '*' && CrlfAt(r + rest, e)
    ensures e > |r|
  {
    assert !CrlfAt(r, e);
    assert (r + rest)[|r|] == '*';
  }

  /** An open line runs on into the star of the next command. */
  lemma OpenLine(r: string, rest: string, e: nat)
    requires FindCrlf(r).None? && r != "" && rest != "" && rest[0] == '*' && CrlfAt(r + rest, e)
    ensures e > |r| && ScanSigned((r + rest)[1..e]) == ScanSigned(r[1..])
  {
    CrlfPast(r, rest, e);
    var more := rest[..e - |r|];
    assert (r + rest)[1..e] == r[1..] + more;
    ScanBefore(r[1..], more);
  }

  /** Bytes in front of a command that make an array of it and what follows fix the number of its items. */
  lemma TornCount(r: string, u: string, v: string)
    requires r != "" && u != "" && v != "" && u[0] == v[0] == '*'
    requires Parse(r + u).Done? && Parse(r + u).value.Array? && Parse(r + v).Done? && Parse(r + v).value.Array?
    ensures |Parse(r + u).value.items| == |Parse(r + v).value.items|
  {
    HeaderCount(r + u);
    HeaderCount(r + v);
    if FindCrlf(r).Some? {
      var e := FindCrlf(r).value;
      SameFirstCrlf(r, u);
      SameFirstCrlf(r, v);
      assert (r + u)[1..e] == r[1..e] == (r + v)[1..e];
    } else {
      OpenLine(r, u, FindCrlf(r + u).value);
      OpenLine(r, v, FindCrlf(r + v).value);
    }
  }

  /** A command read back behind a torn log is the frame that the residue and the command make. */
  lemma ReadBehind(log: string, v: Value)
    requires AppendsSurvive(log) && WireSafe(v) && v.Array?
    ensures Parse(Frames(log).residue + Serialize(v)).Done? && Parse(Frames(log).residue + Serialize(v)).value == v
  {
    var f, s := Frames(log), Serialize(v);
    assert SerializeAll([v]) == s + "" == s;
    assert AllWireSafe([v]) && AllArrays([v]);
    assert Frames(log + SerializeAll([v])) == Framed(f.commands + [v], "");
    FramesAppend(log, s);
    var g := Frames(f.residue + s);
    assert g.commands == (f.commands + g.commands)[|f.commands|..] == (f.commands + [v])[|f.commands|..] == [v];
  }

  /** Everything appended to a log later is read back if and only if the log ends between two frames. */
  lemma AppendsSurviveExactlyAfterWholeFrames(log: string)
    ensures AppendsSurvive(log) <==> Frames(log).residue == ""
  {
    if Frames(log).residue == "" {
      forall values | AllWireSafe(values) && AllArrays(values) && values != []
        ensures Frames(log + SerializeAll(values)) == Framed(Frames(log).commands + values, "")
      {
        LaterAppendsSurvive(log, values);
      }
    } else if AppendsSurvive(log) {
      var k := BulkString("k");
      var two, three := Array([BulkString("PERSIST"), k]), Array([BulkString("SET"), k, k]);
      ReadBehind(log, two);
      ReadBehind(log, three);
      TornCount(Frames(log).residue, Serialize(two), Serialize(three));
    }
  }

  // ---------- lengths ----------

  /** The printed commands and the residue never take more bytes than the stream they came from. */
  lemma {:induction false} FramesLength(s: string)
    requires |s| <= INT64_MAX
    ensures AllWireSafe(Frames(s).commands)
    ensures |SerializeAll(Frames(s).commands)| + |Frames(s).residue| <= |s|
    decreases |s|
  {
    match Parse(s)
    case Done(v, n) =>
      ParsedIsWireSafe(s);
      FramesLength(s[n..]);
      assert ([v] + Frames(s[n..]).commands)[1..] == Frames(s[n..]).commands;
    case _ =>
  }
}
