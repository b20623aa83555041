/** The text frames sent to clients (writeEvent in api/broadcaster.go), the
    rewrite applied to replayed frames (add in api/event_buffer.go), and a reader
    for event streams after the HTML Living Standard, sections 9.2.5 and 9.2.6. */
module Frames {
  import opened Model

  const TX_ROW := "tx-row"
  const EVENT := "event: "

  /** A Submitted event adds a row; any later state replaces the row named by the transaction. */
  function EventType(e: Event): string {
    if e.state == SUBMITTED then TX_ROW else e.txID
  }

  function Data(row: string): string {
    "\ndata: " + row + "\n\n"
  }

  function Frame(eType: string, row: string): string {
    EVENT + eType + Data(row)
  }

  /** What writeEvent writes for e when its rendered table row is `row`. */
  function WriteEvent(e: Event, row: string): (frame: string)
    ensures frame != ""
  {
    Frame(EventType(e), row)
  }

  /** bytes.Replace(s, pat, by, 1) for a non-empty `pat`. */
  function ReplaceFirst(s: string, pat: string, sub: string): string
    requires pat != ""
  {
    if pat <= s then sub + s[|pat|..]
    else if s == "" then ""
    else [s[0]] + ReplaceFirst(s[1..], pat, sub)
  }

  /** What `add` stores for an event whose live frame is `data`. */
  function Replayed(e: Event, data: string): (r: string)
    ensures data != "" ==> r != ""
  {
    ReplaceFirst(data, EVENT + e.txID, EVENT + TX_ROW)
  }

  predicate OccursAt(s: string, p: string, k: nat) {
    k <= |s| && p <= s[k..]
  }

  ghost predicate Occurs(s: string, p: string) {
    exists k: nat :: OccursAt(s, p, k)
  }

  lemma ReplaceSkips(s: string, pat: string, sub: string)
    requires pat != "" && s != "" && !OccursAt(s, pat, 0)
    ensures ReplaceFirst(s, pat, sub) == [s[0]] + ReplaceFirst(s[1..], pat, sub)
  {
    assert s[0..] == s;
  }

  /** ReplaceFirst replaces the earliest occurrence and nothing else. */
  lemma {:induction false} ReplaceEarliest(s: string, pat: string, sub: string, k: nat)
    requires pat != "" && OccursAt(s, pat, k)
    requires forall j: nat :: j < k ==> !OccursAt(s, pat, j)
    ensures ReplaceFirst(s, pat, sub) == s[..k] + sub + s[k + |pat|..]
  {
    if k == 0 {
      assert s[0..] == s && s[..0] == "";
    } else {
      ReplaceSkips(s, pat, sub);
      EarliestLater(s, pat, k);
      ReplaceEarliest(s[1..], pat, sub, k - 1);
      SliceAfterFirst(s, sub, k, k + |pat|);
    }
  }

  /** Dropping the first character moves occurrences down by one. */
  lemma OccursLater(s: string, pat: string, j: nat)
    requires s != ""
    ensures OccursAt(s[1..], pat, j) == OccursAt(s, pat, j + 1)
  {
    if j < |s| { assert s[1..][j..] == s[j + 1..]; }
  }

  lemma EarliestLater(s: string, pat: string, k: nat)
    requires s != "" && k > 0 && OccursAt(s, pat, k) && forall j: nat :: j < k ==> !OccursAt(s, pat, j)
    ensures OccursAt(s[1..], pat, k - 1) && forall j: nat :: j < k - 1 ==> !OccursAt(s[1..], pat, j)
  {
    OccursLater(s, pat, k - 1);
    forall j: nat | j < k - 1 ensures !OccursAt(s[1..], pat, j) { OccursLater(s, pat, j); }
  }

  lemma AbsentLater(s: string, pat: string)
    requires s != "" && !Occurs(s, pat)
    ensures !Occurs(s[1..], pat)
  {
    forall j: nat ensures !OccursAt(s[1..], pat, j) { OccursLater(s, pat, j); }
  }

  lemma SliceAfterFirst(s: string, sub: string, k: nat, m: nat)
    requires 0 < k <= m <= |s|
    ensures [s[0]] + (s[1..][..k - 1] + sub + s[1..][m - 1..]) == s[..k] + sub + s[m..]
  {
  }

  /** Without an occurrence nothing changes. */
  lemma {:induction false} ReplaceAbsent(s: string, pat: string, sub: string)
    requires pat != "" && !Occurs(s, pat)
    ensures ReplaceFirst(s, pat, sub) == s
  {
    assert !OccursAt(s, pat, 0) && s[0..] == s;
    if s != "" {
      ReplaceSkips(s, pat, sub);
      AbsentLater(s, pat);
      ReplaceAbsent(s[1..], pat, sub);
    }
  }

  // ---------------------------------------------------------------------------
  // The reader of event streams

  datatype Message = Message(eType: string, data: string)

  predicate IsBreak(c: char) { c == '\n' || c == '\r' }

  predicate OneLine(s: string) {
    forall i :: 0 <= i < |s| ==> !IsBreak(s[i])
  }

  /** The position of the first line break, or |s|. */
  function LineEnd(s: string): (n: nat)
    ensures n <= |s| && OneLine(s[..n])
    ensures n < |s| ==> IsBreak(s[n])
  {
    if s == "" || IsBreak(s[0]) then 0 else 1 + LineEnd(s[1..])
  }

  /** The position of the first colon, or |s|. */
  function ColonAt(s: string): (n: nat)
    ensures n <= |s| && (n < |s| ==> s[n] == ':')
  {
    if s == "" || s[0] == ':' then 0 else 1 + ColonAt(s[1..])
  }

  /** The value after a colon, less one leading space. */
  function FieldValue(s: string): string {
    if s != "" && s[0] == ' ' then s[1..] else s
  }

  /** The data and event type buffers after one non-empty line. */
  function ReadField(line: string, data: string, eType: string): (string, string) {
    var n := ColonAt(line);
    var name := line[..n];
    var value := if n < |line| then FieldValue(line[n + 1..]) else "";
    if name == "event" then (data, value)
    else if name == "data" then (data + value + "\n", eType)
    else (data, eType)
  }

  /** The event dispatched at an empty line, if there is data. */
  function Dispatch(data: string, eType: string): seq<Message> {
    if data == "" then []
    else
      var trimmed := if data[|data| - 1] == '\n' then data[..|data| - 1] else data;
      [Message(if eType == "" then "message" else eType, trimmed)]
  }

  /** What follows the first line and its break: CRLF, LF or CR. */
  function Rest(s: string): (r: string)
    requires LineEnd(s) < |s|
    ensures |r| < |s| - LineEnd(s)
  {
    var n := LineEnd(s);
    if s[n] == '\r' && n + 1 < |s| && s[n + 1] == '\n' then s[n + 2..] else s[n + 1..]
  }

  /** Interprets a stream from given buffers; an event without its final empty line is discarded. */
  function Interpret(s: string, data: string, eType: string): seq<Message>
    decreases |s|
  {
    var n := LineEnd(s);
    if n == |s| then []
    else if n > 0 then
      var (data', eType') := ReadField(s[..n], data, eType);
      Interpret(Rest(s), data', eType')
    else Dispatch(data, eType) + Interpret(Rest(s), "", "")
  }

  /** Reads a whole decoded stream, ignoring one leading byte order mark. */
  function Parse(s: string): seq<Message> {
    if s != "" && s[0] == '\U{FEFF}' then Interpret(s[1..], "", "") else Interpret(s, "", "")
  }

  lemma {:induction false} LineEndAt(line: string, rest: string)
    requires OneLine(line)
    ensures LineEnd(line + "\n" + rest) == |line|
  {
    if line == "" {
      assert (line + "\n" + rest)[0] == '\n';
    } else {
      assert (line + "\n" + rest)[1..] == line[1..] + "\n" + rest;
      LineEndAt(line[1..], rest);
    }
  }

  lemma InterpretLine(line: string, rest: string, data: string, eType: string)
    requires OneLine(line) && line != ""
    ensures var (d, t) := ReadField(line, data, eType);
            Interpret(line + "\n" + rest, data, eType) == Interpret(rest, d, t)
  {
    var s := line + "\n" + rest;
    LineEndAt(line, rest);
    assert s[..|line|] == line && s[|line| + 1..] == rest && s[|line|] == '\n';
  }

  /** LF, CRLF and CR end a line alike, and a leading byte order mark is not read. */
  lemma LineEnds(line: string, rest: string, data: string, eType: string)
    requires OneLine(line)
    ensures Interpret(line + ("\r\n" + rest), data, eType) == Interpret(line + ("\n" + rest), data, eType)
    ensures rest == "" || rest[0] != '\n' ==>
      Interpret(line + ("\r" + rest), data, eType) == Interpret(line + ("\n" + rest), data, eType)
    ensures Parse("\U{FEFF}" + rest) == Interpret(rest, "", "")
  {
    EndsAt(line, "\n" + rest, rest);
    EndsAt(line, "\r\n" + rest, rest);
    if rest == "" || rest[0] != '\n' { EndsAt(line, "\r" + rest, rest); }
    assert ("\U{FEFF}" + rest)[1..] == rest;
  }

  lemma EndsAt(line: string, tail: string, rest: string)
    requires OneLine(line) && tail != "" && IsBreak(tail[0])
    requires rest == if tail[0] == '\r' && |tail| > 1 && tail[1] == '\n' then tail[2..] else tail[1..]
    ensures var s := line + tail; LineEnd(s) == |line| < |s| && s[..|line|] == line && Rest(s) == rest
  {
    var s := line + tail;
    LineEndBefore(line, tail);
    assert s[|line| + 1..] == tail[1..] && (|tail| > 1 ==> s[|line| + 2..] == tail[2..]);
  }

  lemma {:induction false} ColonAfter(name: string, rest: string)
    requires ':' !in name
    ensures ColonAt(name + ":" + rest) == |name|
  {
    if name == "" {
      assert (name + ":" + rest)[0] == ':';
    } else {
      assert (name + ":" + rest)[1..] == name[1..] + ":" + rest;
      ColonAfter(name[1..], rest);
    }
  }

  lemma ReadEventField(v: string, data: string, eType: string)
    ensures ReadField(EVENT + v, data, eType) == (data, v)
  {
    var line := EVENT + v;
    assert line == "event" + ":" + (" " + v);
    ColonAfter("event", " " + v);
    assert line[..5] == "event" && line[6..] == " " + v && (" " + v)[1..] == v;
  }

  lemma ReadDataField(v: string, data: string, eType: string)
    ensures ReadField("data: " + v, data, eType) == (data + v + "\n", eType)
  {
    var line := "data: " + v;
    assert line == "data" + ":" + (" " + v);
    ColonAfter("data", " " + v);
    assert line[..4] == "data" && line[5..] == " " + v && (" " + v)[1..] == v;
  }

  lemma EventLine(v: string, rest: string, data: string, eType: string)
    requires OneLine(v)
    ensures Interpret((EVENT + v) + "\n" + rest, data, eType) == Interpret(rest, data, v)
  {
    ReadEventField(v, data, eType);
    InterpretLine(EVENT + v, rest, data, eType);
  }

  lemma DataLine(v: string, rest: string, data: string, eType: string)
    requires OneLine(v)
    ensures Interpret(("data: " + v) + "\n" + rest, data, eType) == Interpret(rest, data + v + "\n", eType)
  {
    ReadDataField(v, data, eType);
    InterpretLine("data: " + v, rest, data, eType);
  }

  lemma ReadBlank(rest: string, row: string, eType: string)
    ensures Interpret("\n" + rest, "" + row + "\n", eType)
         == [Message(if eType == "" then "message" else eType, row)] + Interpret(rest, "", "")
  {
    var s, data := "\n" + rest, "" + row + "\n";
    assert s[0] == '\n' && s[1..] == rest && LineEnd(s) == 0;
    assert data[|data| - 1] == '\n' && data[..|data| - 1] == row;
  }

  lemma FrameLines(eType: string, row: string, rest: string)
    ensures Frame(eType, row) + rest == (EVENT + eType) + "\n" + (("data: " + row) + "\n" + ("\n" + rest))
  {
    assert "\ndata: " == "\n" + "data: " && "\n\n" == "\n" + "\n";
  }

  /** A frame is read as exactly one message and leaves the reader as it found it. */
  lemma FrameRead(eType: string, row: string, rest: string)
    requires OneLine(eType) && OneLine(row)
    ensures Interpret(Frame(eType, row) + rest, "", "")
         == [Message(if eType == "" then "message" else eType, row)] + Interpret(rest, "", "")
  {
    FrameLines(eType, row, rest);
    EventLine(eType, ("data: " + row) + "\n" + ("\n" + rest), "", "");
    DataLine(row, "\n" + rest, "", eType);
    ReadBlank(rest, row, eType);
  }

  lemma FrameStart(eType: string, row: string, rest: string)
    ensures Frame(eType, row) + rest != "" && (Frame(eType, row) + rest)[0] == 'e'
  {
    assert EVENT[0] == 'e';
  }

  predicate SingleLineTypes(ms: seq<Message>) {
    forall i :: 0 <= i < |ms| ==> OneLine(ms[i].eType)
  }

  lemma FieldOneLine(line: string, data: string, eType: string)
    requires OneLine(line) && OneLine(eType)
    ensures OneLine(ReadField(line, data, eType).1)
  {
  }

  /** Every event type the reader reports is a single line. */
  lemma {:induction false} TypesOneLine(s: string, data: string, eType: string)
    requires OneLine(eType)
    ensures SingleLineTypes(Interpret(s, data, eType))
    decreases |s|
  {
    var n := LineEnd(s);
    if 0 < n < |s| {
      FieldOneLine(s[..n], data, eType);
      TypesOneLine(Rest(s), ReadField(s[..n], data, eType).0, ReadField(s[..n], data, eType).1);
    } else if n < |s| {
      TypesOneLine(Rest(s), "", "");
    }
  }

  /** A line adds at most its length less three to the data. */
  lemma FieldBound(line: string, data: string, eType: string)
    ensures var d := ReadField(line, data, eType).0;
      d == data || (|d| <= |data| + |line| - 3 && d != "" && d[|d| - 1] == '\n')
  {
  }

  predicate Shorter(ms: seq<Message>, n: int) {
    forall i :: 0 <= i < |ms| ==> |ms[i].data| < n
  }

  function Max(a: int, b: int): int { if a < b then b else a }

  /** No message is as long as the text it is read from, less the field names. */
  lemma {:induction false} DataBound(s: string, data: string, eType: string)
    requires data == "" || data[|data| - 1] == '\n'
    ensures Shorter(Interpret(s, data, eType), Max(|data|, |data| + |s| - 4))
    decreases |s|
  {
    var n := LineEnd(s);
    if 0 < n < |s| {
      FieldBound(s[..n], data, eType);
      DataBound(Rest(s), ReadField(s[..n], data, eType).0, ReadField(s[..n], data, eType).1);
    } else if n < |s| {
      DataBound(Rest(s), "", "");
      assert Shorter(Dispatch(data, eType), |data|);
    }
  }

  lemma ParseFrame(eType: string, row: string)
    ensures Parse(Frame(eType, row)) == Interpret(Frame(eType, row), "", "")
  {
    FrameStart(eType, row, "");
    assert Frame(eType, row) + "" == Frame(eType, row);
  }

  lemma BrokenParts(eType: string, row: string, p: nat)
    requires p <= |row|
    ensures Frame(eType, row) == (EVENT + eType) + "\n" + (("data: " + row[..p]) + (row[p..] + "\n\n"))
  {
    assert row == row[..p] + row[p..];
    assert "\ndata: " == "\n" + "data: ";
  }

  /** What follows a line end: LF, CR or CRLF. */
  function AfterBreak(tail: string): (rest: string)
    requires |tail| >= 2
    ensures |rest| < |tail|
  {
    if tail[0] == '\r' && tail[1] == '\n' then tail[2..] else tail[1..]
  }

  /** Of a row with a line break in it only the first line is read as data at once. */
  lemma BrokenFrame(eType: string, row: string)
    requires OneLine(eType) && !OneLine(row)
    ensures var p := LineEnd(row);
      p < |row| && Parse(Frame(eType, row)) == Interpret(AfterBreak(row[p..] + "\n\n"), row[..p] + "\n", eType)
  {
    var p := LineEnd(row);
    assert p < |row| by { assert row[..|row|] == row; }
    BrokenParts(eType, row, p);
    BrokenRead(Frame(eType, row), "data: " + row[..p], row[p..] + "\n\n", row[..p], eType);
    ParseFrame(eType, row);
  }

  lemma BrokenRead(frame: string, line: string, tail: string, first: string, eType: string)
    requires frame == (EVENT + eType) + "\n" + (line + tail) && line == "data: " + first
    requires OneLine(eType) && OneLine(first) && |tail| >= 2 && IsBreak(tail[0])
    ensures Interpret(frame, "", "") == Interpret(AfterBreak(tail), first + "\n", eType)
  {
    EventLine(eType, line + tail, "", "");
    BrokenLine(line, tail, first, eType);
  }

  lemma BrokenLine(line: string, tail: string, first: string, eType: string)
    requires line == "data: " + first && OneLine(first) && |tail| >= 2 && IsBreak(tail[0])
    ensures Interpret(line + tail, "", eType) == Interpret(AfterBreak(tail), first + "\n", eType)
  {
    FirstField(line, first, eType);
    InterpretBroken(line, tail, "", eType);
  }

  lemma FirstField(line: string, first: string, eType: string)
    requires line == "data: " + first && OneLine(first)
    ensures ReadField(line, "", eType) == (first + "\n", eType) && OneLine(line) && line != ""
  {
    ReadDataField(first, "", eType);
    assert "" + first + "\n" == first + "\n";
  }

  /** A row with a line break in it is never read back as it was. */
  lemma BrokenRow(eType: string, row: string)
    requires OneLine(eType) && !OneLine(row)
    ensures forall i :: 0 <= i < |Parse(Frame(eType, row))| ==> Parse(Frame(eType, row))[i].data != row
  {
    BrokenFrame(eType, row);
    var p := LineEnd(row);
    DataBound(AfterBreak(row[p..] + "\n\n"), row[..p] + "\n", eType);
  }

  lemma InterpretBroken(line: string, tail: string, data: string, eType: string)
    requires OneLine(line) && line != "" && |tail| >= 2 && IsBreak(tail[0])
    ensures var (d, t) := ReadField(line, data, eType);
      Interpret(line + tail, data, eType) == Interpret(AfterBreak(tail), d, t)
  {
    var s := line + tail;
    LineEndBefore(line, tail);
    assert s[..|line|] == line && s[|line|] == tail[0] && s[|line| + 1] == tail[1];
    assert s[|line| + 1..] == tail[1..] && s[|line| + 2..] == tail[2..];
  }

  lemma {:induction false} LineEndBefore(line: string, tail: string)
    requires OneLine(line) && tail != "" && IsBreak(tail[0])
    ensures LineEnd(line + tail) == |line|
  {
    if line != "" {
      assert (line + tail)[1..] == line[1..] + tail;
      LineEndBefore(line[1..], tail);
    } else {
      assert line + tail == tail;
    }
  }

  /** For any type and row at all, a frame is read back as exactly that message if
      and only if both are single lines and the type is not empty. */
  lemma FrameIff(eType: string, row: string)
    ensures Parse(Frame(eType, row)) == [Message(eType, row)] <==> eType != "" && OneLine(eType) && OneLine(row)
  {
    var meant := Message(eType, row);
    ParseFrame(eType, row);
    assert Frame(eType, row) + "" == Frame(eType, row);
    assert [meant][0] == meant;
    if !OneLine(eType) {
      TypesOneLine(Frame(eType, row), "", "");
    } else if !OneLine(row) {
      BrokenRow(eType, row);
    } else {
      FrameRead(eType, row, "");
      var m := Message(if eType == "" then "message" else eType, row);
      assert [m] + Interpret("", "", "") == [m] && [m][0] == m;
    }
  }

  // ---------------------------------------------------------------------------
  // What the reader can make of line breaks

  function Breaks(s: string): nat {
    if s == "" then 0 else Breaks(s[1..]) + (if IsBreak(s[0]) then 1 else 0)
  }

  lemma {:induction false} BreaksJoin(a: string, b: string)
    ensures Breaks(a + b) == Breaks(a) + Breaks(b)
  {
    if a == "" {
      assert a + b == b;
    } else {
      assert (a + b)[1..] == a[1..] + b;
      BreaksJoin(a[1..], b);
    }
  }

  lemma {:induction false} BreaksZero(s: string)
    ensures OneLine(s) <==> Breaks(s) == 0
  {
    if s != "" {
      BreaksZero(s[1..]);
      assert OneLine(s) <==> !IsBreak(s[0]) && OneLine(s[1..]);
    }
  }

  lemma BreaksAfter(s: string, n: nat)
    requires n < |s| && IsBreak(s[n])
    ensures Breaks(s[n + 1..]) + 1 <= Breaks(s)
    ensures n + 1 < |s| ==> Breaks(s[n + 2..]) + 1 <= Breaks(s)
  {
    var a, b := s[..n + 1], s[n + 1..];
    assert s == a + b && a == s[..n] + [s[n]];
    BreaksJoin(a, b);
    BreaksJoin(s[..n], [s[n]]);
    if n + 1 < |s| { assert b[1..] == s[n + 2..]; }
  }

  lemma RestIs(s: string, n: nat)
    requires n == LineEnd(s) < |s|
    ensures IsBreak(s[n])
    ensures Rest(s) == s[n + 1..] || (n + 1 < |s| && Rest(s) == s[n + 2..])
  {
  }

  lemma BreaksRest(s: string)
    requires LineEnd(s) < |s|
    ensures Breaks(Rest(s)) + 1 <= Breaks(s)
  {
    var n := LineEnd(s);
    RestIs(s, n);
    BreaksAfter(s, n);
  }

  /** A field line adds one line to the data, or none and may change the type. */
  lemma FieldBreaks(line: string, data: string, eType: string)
    requires OneLine(line)
    ensures var (d, t) := ReadField(line, data, eType);
      d == data || (Breaks(d) == Breaks(data) + 1 && d[|d| - 1] == '\n' && t == eType)
  {
    var n := ColonAt(line);
    var value := if n < |line| then FieldValue(line[n + 1..]) else "";
    LineAdded(data, value);
  }

  lemma LineAdded(data: string, value: string)
    requires OneLine(value)
    ensures Breaks(data + value + "\n") == Breaks(data) + 1
  {
    BreaksJoin(data, value);
    BreaksJoin(data + value, "\n");
    BreaksZero(value);
    assert Breaks("\n") == 1;
  }

  /** The lines a message takes: one for each line of its data, the empty one, and one for its type. */
  predicate Affordable(ms: seq<Message>, typed: bool, breaks: int) {
    forall i :: 0 <= i < |ms| ==>
      Breaks(ms[i].data) + 2 + (if typed || ms[i].eType == "message" then 0 else 1) <= breaks
  }

  /** The message of an empty line has the data read so far. */
  lemma DispatchData(data: string, eType: string)
    requires data != "" && data[|data| - 1] == '\n'
    ensures var ms := Dispatch(data, eType);
      |ms| == 1 && ms[0].data + "\n" == data && ms[0].eType == if eType == "" then "message" else eType
  {
  }

  lemma DispatchLines(data: string, eType: string)
    requires data == "" || data[|data| - 1] == '\n'
    ensures Affordable(Dispatch(data, eType), eType != "", Breaks(data) + 1)
  {
    if data != "" {
      DispatchData(data, eType);
      LineAdded(Dispatch(data, eType)[0].data, "");
      assert Dispatch(data, eType)[0].data + "" + "\n" == data;
    }
  }

  lemma AffordMore(ms: seq<Message>, typed: bool, breaks: int, typed': bool, breaks': int)
    requires Affordable(ms, typed, breaks) && breaks + (if typed && !typed' then 1 else 0) <= breaks'
    ensures Affordable(ms, typed', breaks')
  {
  }

  lemma AffordBoth(a: seq<Message>, b: seq<Message>, typed: bool, breaks: int)
    requires Affordable(a, typed, breaks) && Affordable(b, typed, breaks)
    ensures Affordable(a + b, typed, breaks)
  {
  }

  lemma {:induction false} LinesNeeded(s: string, data: string, eType: string)
    requires data == "" || data[|data| - 1] == '\n'
    ensures Affordable(Interpret(s, data, eType), eType != "", Breaks(data) + Breaks(s))
    decreases |s|
  {
    var n := LineEnd(s);
    if n < |s| {
      var typed, breaks, rest := eType != "", Breaks(data) + Breaks(s), Rest(s);
      BreaksRest(s);
      if n > 0 {
        FieldBreaks(s[..n], data, eType);
        var (d, t) := ReadField(s[..n], data, eType);
        LinesNeeded(rest, d, t);
        AffordMore(Interpret(rest, d, t), t != "", Breaks(d) + Breaks(rest), typed, breaks);
      } else {
        LinesNeeded(rest, "", "");
        AffordMore(Interpret(rest, "", ""), false, Breaks("") + Breaks(rest), typed, breaks);
        DispatchLines(data, eType);
        AffordMore(Dispatch(data, eType), typed, Breaks(data) + 1, typed, breaks);
        AffordBoth(Dispatch(data, eType), Interpret(rest, "", ""), typed, breaks);
      }
    }
  }

  /** The next message begins with the data read so far. */
  lemma {:induction false} BeginsWith(s: string, data: string, eType: string)
    requires data != "" && data[|data| - 1] == '\n'
    ensures Interpret(s, data, eType) != [] ==> data <= Interpret(s, data, eType)[0].data + "\n"
    decreases |s|
  {
    var n := LineEnd(s);
    if 0 < n < |s| {
      FieldKeeps(s[..n], data, eType);
      BeginsWith(Rest(s), ReadField(s[..n], data, eType).0, ReadField(s[..n], data, eType).1);
    } else if n < |s| {
      DispatchData(data, eType);
    }
  }

  lemma FieldKeeps(line: string, data: string, eType: string)
    ensures var d := ReadField(line, data, eType).0; d == data || (data <= d && d[|d| - 1] == '\n')
  {
  }

  /** Two texts that agree up to a line break have the same first line. */
  lemma FirstLine(a: string, b: string)
    requires OneLine(a) && a + "\n" <= b + "\n"
    ensures LineEnd(b) == |a| && b[..|a|] == a
    ensures |a| < |b| ==> b[|a|] == '\n'
  {
    WithinText(a, b);
    if |a| < |b| {
      LineEndBefore(a, b[|a|..]);
    } else {
      OneLineEnd(a);
    }
  }

  lemma WithinText(a: string, b: string)
    requires a + "\n" <= b + "\n"
    ensures |a| <= |b| && b[..|a|] == a && b == a + b[|a|..]
    ensures |a| < |b| ==> b[|a|] == '\n'
    ensures |a| == |b| ==> a == b
  {
    var x, y := a + "\n", b + "\n";
    assert y[..|a| + 1] == x && x[..|a|] == a;
    assert y[|a|] == x[|a|];
  }

  lemma {:induction false} OneLineEnd(a: string)
    requires OneLine(a)
    ensures LineEnd(a) == |a|
  {
    if a != "" { OneLineEnd(a[1..]); }
  }

  predicate IsLabel(d: string) {
    d == "data" || d == "data:" || d == "data: "
  }

  lemma FieldValueIs(s: string)
    ensures s == FieldValue(s) || s == " " + FieldValue(s)
  {
  }

  lemma SplitAt(s: string, n: nat)
    requires n < |s|
    ensures s == s[..n] + [s[n]] + s[n + 1..]
  {
  }

  lemma ColonLabel(line: string, n: nat) returns (d: string)
    requires n == ColonAt(line) < |line| && line[..n] == "data"
    ensures IsLabel(d) && line == d + FieldValue(line[n + 1..])
  {
    var value := line[n + 1..];
    SplitAt(line, n);
    assert [line[n]] == ":";
    FieldValueIs(value);
    d := if value == FieldValue(value) then "data" + ":" else "data" + ":" + " ";
    assert "data" + ":" == "data:" && "data" + ":" + " " == "data: ";
    Regroup("data" + ":", " ", FieldValue(value));
  }

  lemma Regroup(a: string, b: string, c: string)
    ensures a + b + c == a + (b + c)
  {
  }

  /** A line that adds data has it after its label. */
  lemma DataField(line: string, data: string, eType: string) returns (d: string, v: string)
    requires ReadField(line, data, eType).0 != data
    ensures IsLabel(d) && line == d + v && ReadField(line, data, eType) == (data + v + "\n", eType)
  {
    var n := ColonAt(line);
    if n == |line| {
      assert line[..n] == line;
      d, v := "data", "";
    } else {
      d := ColonLabel(line, n);
      v := FieldValue(line[n + 1..]);
    }
  }
}
