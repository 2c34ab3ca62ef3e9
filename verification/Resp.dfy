/** RESP values, their printed form, and the frame at the front of a byte string.
    A `char` stands for one byte. */
module Resp {
  import opened Machine
  import opened Decimal

  datatype Value =
    | SimpleString(text: string)
    | Error(text: string)
    | Integer(number: int)
    | BulkString(text: string)
    | Array(items: seq<Value>)
    | Null

  const CRLF: string := "\r\n"

  /** The field `string_value`, which is empty for the types that do not use it. */
  function StringValue(v: Value): string {
    match v
    case SimpleString(s) => s
    case Error(s) => s
    case BulkString(s) => s
    case _ => ""
  }

  // ---------- printing ----------

  function Serialize(v: Value): string
    decreases v, 0
  {
    match v
    case SimpleString(s) => "+" + s + CRLF
    case Error(s) => "-" + s + CRLF
    case Integer(n) => ":" + Print(n) + CRLF
    case BulkString(s) => "$" + Print(|s|) + CRLF + s + CRLF
    case Array(items) => "*" + Print(|items|) + CRLF + SerializeAll(items)
    case Null => "$-1" + CRLF
  }

  /** Concatenation of the printed items; also the contents of a log holding them. */
  function SerializeAll(items: seq<Value>): string
    decreases items, 1
  {
    if items == [] then "" else Serialize(items[0]) + SerializeAll(items[1..])
  }

  /** Printing distributes over concatenation. */
  lemma {:induction false} SerializeAllAppend(a: seq<Value>, b: seq<Value>)
    ensures SerializeAll(a + b) == SerializeAll(a) + SerializeAll(b)
  {
    if a == [] {
      assert a + b == b;
    } else {
      assert (a + b)[0] == a[0] && (a + b)[1..] == a[1..] + b;
      SerializeAllAppend(a[1..], b);
    }
  }

  /** The values that survive a round trip: the printed line forms hold no CRLF, integers are `int64_t`,
      and every length fits the `int64_t` it is declared with. */
  predicate WireSafe(v: Value) {
    match v
    case SimpleString(s) => |s| <= INT64_MAX && FindCrlf(s).None?
    case Error(s) => |s| <= INT64_MAX && FindCrlf(s).None?
    case Integer(n) => INT64_MIN <= n <= INT64_MAX
    case BulkString(s) => |s| <= INT64_MAX
    case Array(items) => |items| <= INT64_MAX && forall i :: 0 <= i < |items| ==> WireSafe(items[i])
    case Null => true
  }

  // ---------- parsing ----------

  predicate CrlfAt(s: string, i: nat) {
    i + 1 < |s| && s[i] == '\r' && s[i + 1] == '\n'
  }

  /** Position of the first CRLF. */
  function FindCrlf(s: string): (r: Option<nat>)
    ensures r.Some? ==> CrlfAt(s, r.value) && forall j: nat :: j < r.value ==> !CrlfAt(s, j)
    ensures r.None? ==> forall j: nat :: !CrlfAt(s, j)
  {
    if |s| < 2 then None
    else if CrlfAt(s, 0) then Some(0)
    else
      var r := FindCrlf(s[1..]);
      assert forall j: nat :: j > 0 ==> (CrlfAt(s, j) <==> CrlfAt(s[1..], j - 1));
      match r
      case None => None
      case Some(i) => Some(i + 1)
  }

  /** `Done` carries the number of bytes the frame takes. `Pending` is the source's empty optional, for an
      incomplete and for a malformed front alike. `OutOfDomain` marks a declared length or count below -1,
      on which this model makes no claim. */
  datatype Result = Done(value: Value, size: nat) | Pending | OutOfDomain {
    /** The same outcome, with `n` more bytes in front of the frame's rest. */
    function After(n: nat): Result {
      if Done? then Done(value, n + size) else this
    }
  }

  /** The frame at the front of `s`. */
  function Parse(s: string): (r: Result)
    ensures r.Done? ==> 0 < r.size <= |s|
    decreases |s|, 0
  {
    match FindCrlf(s)
    case None => Pending
    case Some(e) => if e == 0 then Pending else ParseBody(s[0], s[1..e], s[e + 2..]).After(e + 2)
  }

  /** The frame whose first line is `prefix` followed by `content`; `rest` is what follows that line. */
  function ParseBody(prefix: char, content: string, rest: string): (r: Result)
    ensures r.Done? ==> r.size <= |rest|
    decreases |rest|, 2
  {
    if prefix == '+' then Done(SimpleString(content), 0)
    else if prefix == '-' then Done(Error(content), 0)
    else if prefix !in {':', '$', '*'} then Pending
    else
      match ScanSigned(content)
      case None => Pending
      case Some(n) =>
        if prefix == ':' then Done(Integer(n.value), 0)
        else if n.value == -1 then Done(Null, 0)
        else if n.value < -1 then OutOfDomain
        else if prefix == '*' then ParseItems(rest, n.value)
        else if n.value + 2 > |rest| then Pending
        else Done(BulkString(rest[..n.value]), n.value + 2)
  }

  /** `count` frames in a row, as one array. */
  function ParseItems(s: string, count: nat): (r: Result)
    ensures r.Done? ==> r.size <= |s| && r.value.Array? && |r.value.items| == count
    decreases |s|, 1
  {
    if count == 0 then Done(Array([]), 0)
    else
      var first := Parse(s);
      if !first.Done? then first
      else
        var others := ParseItems(s[first.size..], count - 1);
        if !others.Done? then others
        else Done(Array([first.value] + others.value.items), first.size + others.size)
  }

  // ---------- a frame depends on its own bytes only ----------

  lemma SlicesAgree(s: string, t: string, n: nat, k: nat)
    requires k <= n <= |s| && n <= |t| && t[..n] == s[..n]
    ensures t[..k] == s[..k] && t[k..][..n - k] == s[k..][..n - k]
  {
    assert t[..k] == t[..n][..k] && s[..k] == s[..n][..k];
    assert t[k..][..n - k] == t[..n][k..] && s[k..][..n - k] == s[..n][k..];
  }

  /** A string that carries the same frame's bytes at its front parses to the same frame, whatever follows.
      With `t` longer this is stability under extension, with `t` shorter it is stability under truncation. */
  lemma {:induction false} ParseLocal(s: string, t: string)
    requires Parse(s).Done? && Parse(s).size <= |t| && t[..Parse(s).size] == s[..Parse(s).size]
    ensures Parse(t) == Parse(s)
    decreases |s|, 0
  {
    var n, e := Parse(s).size, FindCrlf(s).value;
    assert forall j: nat :: j < n ==> t[j] == t[..n][j] && s[j] == s[..n][j];
    assert forall j: nat :: j <= e ==> (CrlfAt(t, j) <==> CrlfAt(s, j));
    assert FindCrlf(t) == Some(e);
    assert t[1..e] == s[1..e];
    var m := n - (e + 2);
    assert t[e + 2..][..m] == t[..n][e + 2..] == s[..n][e + 2..] == s[e + 2..][..m];
    ParseBodyLocal(s[0], s[1..e], s[e + 2..], t[e + 2..]);
  }

  lemma {:induction false} ParseBodyLocal(prefix: char, content: string, s: string, t: string)
    requires ParseBody(prefix, content, s).Done?
    requires var n := ParseBody(prefix, content, s).size; n <= |t| && t[..n] == s[..n]
    ensures ParseBody(prefix, content, t) == ParseBody(prefix, content, s)
    decreases |s|, 2
  {
    if prefix in {'$', '*'} && ScanSigned(content).value.value >= 0 {
      var k := ScanSigned(content).value.value;
      if prefix == '*' {
        ParseItemsLocal(s, t, k);
      } else {
        assert t[..k] == t[..k + 2][..k] == s[..k + 2][..k] == s[..k];
      }
    }
  }

  lemma {:induction false} ParseItemsLocal(s: string, t: string, count: nat)
    requires ParseItems(s, count).Done?
    requires var n := ParseItems(s, count).size; n <= |t| && t[..n] == s[..n]
    ensures ParseItems(t, count) == ParseItems(s, count)
    decreases |s|, 1
  {
    if count > 0 {
      var n, k := ParseItems(s, count).size, Parse(s).size;
      SlicesAgree(s, t, n, k);
      ParseLocal(s, t);
      ParseItemsLocal(s[k..], t[k..], count - 1);
    }
  }

  // ---------- round trip ----------

  /** A line that holds no CRLF ends at the CRLF printed after it. */
  lemma LineEnds(line: string, rest: string)
    requires FindCrlf(line).None?
    ensures FindCrlf(line + CRLF + rest) == Some(|line|)
  {
    var s := line + CRLF + rest;
    assert CrlfAt(s, |line|);
    forall j: nat | j < |line| ensures !CrlfAt(s, j) {
      assert s[j] == line[j];
      assert !CrlfAt(line, j);
    }
  }

  /** What the first line of a printed frame parses to. */
  lemma ParseFirstLine(prefix: char, content: string, rest: string)
    requires FindCrlf([prefix] + content).None?
    ensures Parse([prefix] + content + CRLF + rest) == ParseBody(prefix, content, rest).After(|content| + 3)
  {
    var s := [prefix] + content + CRLF + rest;
    LineEnds([prefix] + content, rest);
    assert s[1..|content| + 1] == content;
    assert s[|content| + 3..] == rest;
  }

  lemma NoCrlf(prefix: char, s: string)
    requires prefix != '\r' && FindCrlf(s).None?
    ensures FindCrlf([prefix] + s).None?
  {
    assert ([prefix] + s)[1..] == s;
    assert forall j: nat :: j > 0 ==> (CrlfAt([prefix] + s, j) <==> CrlfAt(s, j - 1));
  }

  lemma PrintHasNoCrlf(n: int)
    ensures FindCrlf(Print(n)).None?
  {
    assert forall i :: 0 <= i < |Print(n)| ==> Print(n)[i] == '-' || IsDigit(Print(n)[i]);
    assert forall i: nat :: !CrlfAt(Print(n), i);
  }

  /** Parsing a printed number line hands the number to the frame's rest. */
  lemma ParseNumberLine(prefix: char, n: int, rest: string)
    requires prefix in {':', '$', '*'} && INT64_MIN <= n <= INT64_MAX
    ensures Parse([prefix] + Print(n) + CRLF + rest) ==
            ParseBody(prefix, Print(n), rest).After(|Print(n)| + 3)
    ensures ScanSigned(Print(n)) == Some(Scanned(n, |Print(n)|))
  {
    PrintHasNoCrlf(n);
    NoCrlf(prefix, Print(n));
    ParseFirstLine(prefix, Print(n), rest);
    ScanPrinted(n, "");
    assert Print(n) + "" == Print(n);
  }

  lemma RoundTripLine(v: Value, rest: string)
    requires (v.SimpleString? || v.Error?) && WireSafe(v)
    ensures Parse(Serialize(v) + rest) == Done(v, |Serialize(v)|)
  {
    var prefix := if v.SimpleString? then '+' else '-';
    NoCrlf(prefix, v.text);
    ParseFirstLine(prefix, v.text, rest);
    assert Serialize(v) + rest == [prefix] + v.text + CRLF + rest;
  }

  lemma RoundTripNumber(v: Value, rest: string)
    requires (v.Integer? || v.Null?) && WireSafe(v)
    ensures Parse(Serialize(v) + rest) == Done(v, |Serialize(v)|)
  {
    assert Print(-1) == "-1";
    var prefix, n := if v.Null? then '$' else ':', if v.Null? then -1 else v.number;
    ParseNumberLine(prefix, n, rest);
    assert Serialize(v) + rest == [prefix] + Print(n) + CRLF + rest;
  }

  lemma Associate(a: string, b: string, c: string)
    ensures a + b + c == a + (b + c)
  {
  }

  lemma LineThen(prefix: char, line: string, body: string, rest: string)
    ensures [prefix] + line + CRLF + body + rest == [prefix] + line + CRLF + (body + rest)
  {
  }

  lemma RoundTripBulk(s: string, rest: string)
    requires |s| <= INT64_MAX
    ensures var v := BulkString(s); Parse(Serialize(v) + rest) == Done(v, |Serialize(v)|)
  {
    var body := s + CRLF;
    ParseNumberLine('$', |s|, body + rest);
    assert (body + rest)[..|s|] == s;
    LineThen('$', Print(|s|), body, rest);
    assert Serialize(BulkString(s)) == ['$'] + Print(|s|) + CRLF + body;
  }

  /** Printing then parsing returns the value and consumes exactly the printed bytes, whatever follows. */
  lemma {:induction false} RoundTrip(v: Value, rest: string)
    requires WireSafe(v)
    ensures Parse(Serialize(v) + rest) == Done(v, |Serialize(v)|)
    decreases v, 0
  {
    match v
    case SimpleString(_) => RoundTripLine(v, rest);
    case Error(_) => RoundTripLine(v, rest);
    case Integer(_) => RoundTripNumber(v, rest);
    case Null => RoundTripNumber(v, rest);
    case BulkString(s) => RoundTripBulk(s, rest);
    case Array(items) =>
      RoundTripItems(items, rest);
      RoundTripArray(items, rest);
  }

  lemma RoundTripArray(items: seq<Value>, rest: string)
    requires |items| <= INT64_MAX
    requires ParseItems(SerializeAll(items) + rest, |items|) == Done(Array(items), |SerializeAll(items)|)
    ensures var v := Array(items); Parse(Serialize(v) + rest) == Done(v, |Serialize(v)|)
  {
    ParseNumberLine('*', |items|, SerializeAll(items) + rest);
    LineThen('*', Print(|items|), SerializeAll(items), rest);
  }

  /** One item in front of items that parse. */
  lemma RoundTripCons(v: Value, tail: seq<Value>, rest: string)
    requires var others := SerializeAll(tail) + rest;
             && Parse(Serialize(v) + others) == Done(v, |Serialize(v)|)
             && ParseItems(others, |tail|) == Done(Array(tail), |SerializeAll(tail)|)
    ensures var items := [v] + tail;
            ParseItems(SerializeAll(items) + rest, |items|) == Done(Array(items), |SerializeAll(items)|)
  {
    var first, others := Serialize(v), SerializeAll(tail) + rest;
    assert ([v] + tail)[1..] == tail;
    Associate(first, SerializeAll(tail), rest);
    assert (first + others)[|first|..] == others;
  }

  lemma {:induction false} RoundTripItems(items: seq<Value>, rest: string)
    requires forall i :: 0 <= i < |items| ==> WireSafe(items[i])
    ensures ParseItems(SerializeAll(items) + rest, |items|) == Done(Array(items), |SerializeAll(items)|)
    decreases items, 1
  {
    if items != [] {
      var v, tail := items[0], items[1..];
      assert items == [v] + tail;
      RoundTrip(v, SerializeAll(tail) + rest);
      RoundTripItems(tail, rest);
      RoundTripCons(v, tail, rest);
    }
  }

  // ---------- what is accepted can be printed back, in no more bytes ----------

  /** Every accepted value is in the round-trip domain, and its printed form is never longer than the
      bytes it was read from. A received string never exceeds `std::string::max_size`. */
  lemma {:induction false} ParsedIsWireSafe(s: string)
    requires |s| <= INT64_MAX && Parse(s).Done?
    ensures WireSafe(Parse(s).value) && |Serialize(Parse(s).value)| <= Parse(s).size
    decreases |s|, 0
  {
    var e := FindCrlf(s).value;
    var content := s[1..e];
    forall j: nat ensures !CrlfAt(content, j) {
      assert j < e ==> !CrlfAt(s, j + 1) || j + 1 == e;
    }
    ParsedBodyIsWireSafe(s[0], content, s[e + 2..]);
  }

  lemma {:induction false} ParsedBodyIsWireSafe(prefix: char, content: string, rest: string)
    requires |content| <= INT64_MAX && |rest| <= INT64_MAX
    requires FindCrlf(content).None? && ParseBody(prefix, content, rest).Done?
    ensures var r := ParseBody(prefix, content, rest);
            WireSafe(r.value) && |Serialize(r.value)| <= |content| + 3 + r.size
    decreases |rest|, 2
  {
    if prefix == '*' && ScanSigned(content).value.value >= 0 {
      ScannedBounds(content);
      ParsedItemsAreWireSafe(rest, ScanSigned(content).value.value);
    } else {
      ParsedScalarIsWireSafe(prefix, content, rest);
    }
  }

  lemma ParsedScalarIsWireSafe(prefix: char, content: string, rest: string)
    requires |content| <= INT64_MAX && |rest| <= INT64_MAX
    requires FindCrlf(content).None? && ParseBody(prefix, content, rest).Done?
    requires prefix == '*' ==> ScanSigned(content).value.value < 0
    ensures var r := ParseBody(prefix, content, rest);
            WireSafe(r.value) && |Serialize(r.value)| <= |content| + 3 + r.size
  {
    if prefix in {':', '$', '*'} {
      ScannedBounds(content);
      assert Print(-1) == "-1";
    }
  }

  lemma {:induction false} ParsedItemsAreWireSafe(s: string, count: nat)
    requires |s| <= INT64_MAX && ParseItems(s, count).Done?
    ensures var r := ParseItems(s, count);
            && |SerializeAll(r.value.items)| <= r.size
            && forall i :: 0 <= i < count ==> WireSafe(r.value.items[i])
    decreases |s|, 1
  {
    if count > 0 {
      var first := Parse(s);
      ParsedIsWireSafe(s);
      ParsedItemsAreWireSafe(s[first.size..], count - 1);
      var items := ParseItems(s, count).value.items;
      assert items[1..] == ParseItems(s[first.size..], count - 1).value.items;
      assert forall i :: 0 < i < count ==> items[i] == items[1..][i - 1];
    }
  }
}
