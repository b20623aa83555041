/** When a client reads back what was meant, for single frames and for whole
    streams, live frames and replayed ones. */
module RoundTrip {
  import opened Model
  import opened Frames

  /** One thing sent to a client: an event with its row, live or out of the replay buffer. */
  datatype Output = Live(e: Event, row: string) | Stored(e: Event, row: string)

  function Text(x: Output): string {
    match x
    case Live(e, row) => WriteEvent(e, row)
    case Stored(e, row) => Replayed(e, WriteEvent(e, row))
  }

  /** The message a browser must see: replayed rows are always added, never swapped. */
  function Meant(x: Output): Message {
    match x
    case Live(e, row) => Message(if e.state == SUBMITTED then "tx-row" else e.txID, row)
    case Stored(_, row) => Message("tx-row", row)
  }

  function TextOf(xs: seq<Output>): string {
    if xs == [] then "" else Text(xs[0]) + TextOf(xs[1..])
  }

  function MeantBy(xs: seq<Output>): seq<Message> {
    if xs == [] then [] else [Meant(xs[0])] + MeantBy(xs[1..])
  }

  /** The exact condition under which a frame says what was meant (see RoundTripIff). */
  ghost predicate Faithful(x: Output) {
    match x
    case Live(e, row) => EventType(e) != "" && OneLine(EventType(e)) && OneLine(row)
    case Stored(e, row) => OneLine(row) && (e.state == SUBMITTED ==> Spared(e.txID, row))
  }

  /** The rewrite leaves the live frame of a Submitted event as it is. */
  ghost predicate Spared(id: string, row: string) {
    id == TX_ROW || !Occurs(Frame(TX_ROW, row), EVENT + id)
  }

  // ---------------------------------------------------------------------------
  // A text struck at one place

  /** The text between positions j and m replaced. */
  function Struck(s: string, j: nat, m: nat, sub: string): string
    requires j <= m <= |s|
  {
    s[..j] + sub + s[m..]
  }

  lemma OneLineJoin(a: string, b: string, c: string)
    requires OneLine(a) && OneLine(b) && OneLine(c)
    ensures OneLine(a + b + c)
  {
  }

  lemma StruckInside(a: string, b: string, c: string, sub: string, j: nat, m: nat)
    requires j <= m <= |b|
    ensures Struck(a + b + c, |a| + j, |a| + m, sub) == a + Struck(b, j, m, sub) + c
  {
    var s := a + b + c;
    assert s[..|a| + j] == a + b[..j] && s[|a| + m..] == b[m..] + c;
  }

  /** Replacing an occurrence by something else changes the text. */
  lemma StruckDiffers(s: string, pat: string, sub: string, j: nat)
    requires OccursAt(s, pat, j) && pat != sub
    ensures Struck(s, j, j + |pat|, sub) != s
  {
    var struck := Struck(s, j, j + |pat|, sub);
    if |pat| == |sub| {
      assert s[j..j + |pat|] == s[j..][..|pat|] == pat;
      assert struck[j..j + |pat|] == sub;
    } else {
      assert |struck| != |s|;
    }
  }

  /** Only the line breaks of the two texts count. */
  lemma StruckBreaks(s: string, pat: string, sub: string, j: nat)
    requires OccursAt(s, pat, j)
    ensures Breaks(Struck(s, j, j + |pat|, sub)) + Breaks(pat) == Breaks(s) + Breaks(sub)
  {
    var a, c := s[..j], s[j + |pat|..];
    assert s == a + pat + c;
    JoinThree(a, pat, c);
    JoinThree(a, sub, c);
  }

  lemma JoinThree(a: string, b: string, c: string)
    ensures Breaks(a + b + c) == Breaks(a) + Breaks(b) + Breaks(c)
  {
    BreaksJoin(a + b, c);
    BreaksJoin(a, b);
  }

  lemma StruckOneLine(s: string, pat: string, sub: string, j: nat)
    requires OccursAt(s, pat, j) && OneLine(pat) && OneLine(sub)
    ensures Breaks(Struck(s, j, j + |pat|, sub)) == Breaks(s)
    ensures OneLine(Struck(s, j, j + |pat|, sub)) == OneLine(s)
  {
    StruckBreaks(s, pat, sub, j);
    BreaksZero(pat);
    BreaksZero(sub);
    BreaksZero(s);
    BreaksZero(Struck(s, j, j + |pat|, sub));
  }

  /** Where an occurrence lies in a text of several lines. */
  lemma InOneLine(s: string, pat: string, j: nat)
    requires OccursAt(s, pat, j) && OneLine(pat) && pat != ""
    ensures forall i :: j <= i < j + |pat| ==> !IsBreak(s[i])
    ensures if j < LineEnd(s) then j + |pat| <= LineEnd(s) else LineEnd(s) < j
  {
    assert forall i :: j <= i < j + |pat| ==> s[i] == pat[i - j];
  }

  /** The first line, when it is struck ... */
  lemma StruckFirst(s: string, end: string, pat: string, sub: string, j: nat)
    requires OccursAt(s, pat, j) && OneLine(pat) && OneLine(sub) && pat != "" && j < LineEnd(s)
    requires end != "" ==> IsBreak(end[0])
    requires LineEnd(s) < |s| || end != ""
    ensures j + |pat| <= LineEnd(s)
    ensures var line := Struck(s[..LineEnd(s)], j, j + |pat|, sub);
      var t := Struck(s, j, j + |pat|, sub) + end; LineEnd(t) == |line| < |t| && t[..|line|] == line
  {
    InOneLine(s, pat, j);
    var p, m := LineEnd(s), j + |pat|;
    var line, t := Struck(s[..p], j, m, sub), Struck(s, j, m, sub) + end;
    OneLineJoin(s[..p][..j], sub, s[..p][m..]);
    StruckSplit(s, end, sub, j, m, p);
    LineEndBefore(line, s[p..] + end);
  }

  lemma StruckSplit(s: string, end: string, sub: string, j: nat, m: nat, p: nat)
    requires j <= m <= p <= |s| && (p < |s| || end != "")
    ensures Struck(s, j, m, sub) + end == Struck(s[..p], j, m, sub) + (s[p..] + end)
    ensures (s[p..] + end)[0] == if p < |s| then s[p] else end[0]
  {
    assert s[m..] == s[..p][m..] + s[p..];
  }

  /** ... and when it is not. */
  lemma StruckLater(s: string, end: string, pat: string, sub: string, j: nat)
    requires OccursAt(s, pat, j) && LineEnd(s) < j
    ensures var p, t := LineEnd(s), Struck(s, j, j + |pat|, sub) + end;
      LineEnd(t) == p && t[..p] == s[..p] && p < |s|
  {
    var p := LineEnd(s);
    var struck := Struck(s, j, j + |pat|, sub);
    assert s == s[..p] + s[p..] && struck + end == s[..p] + (struck[p..] + end);
    assert (struck[p..] + end)[0] == s[p];
    LineEndBefore(s[..p], struck[p..] + end);
  }

  // ---------------------------------------------------------------------------
  // Rows of several lines

  /** If d is a period of w, every character up to one period past w is one of d's. */
  lemma {:induction false} Periodic(d: string, w: string, i: nat)
    requires d != "" && w <= d + w && i < |d + w|
    ensures (d + w)[i] in d
  {
    if i >= |d| {
      Periodic(d, w, i - |d|);
      assert (d + w)[i] == w[i - |d|] == (d + w)[i - |d|];
    }
  }

  /** No line becomes a data line holding what it was by having an id replaced in it. */
  lemma NoSelfQuote(v: string, j: nat, m: nat, sub: string, d: string)
    requires j <= m <= |v| && IsLabel(d) && sub != "" && sub[0] == 'e'
    ensures Struck(v, j, m, sub) != d + v
  {
    var w := v[..j];
    assert Struck(v, j, m, sub)[j] == 'e' && Struck(v, j, m, sub)[..j] == w;
    assert d + v == (d + w) + v[j..];
    if Struck(v, j, m, sub) == d + v {
      assert w <= d + w by { assert (d + v)[..j] == w; }
      Periodic(d, w, j);
    }
  }

  ghost predicate Opens(ms: seq<Message>, data: string) {
    ms != [] && ms[0].data == data
  }

  lemma EndBreaks(s: string)
    ensures Breaks(s + "\n") == Breaks(s) + 1 && Breaks(s + "\n\n") == Breaks(s) + 2
  {
    BreaksJoin(s, "\n");
    BreaksJoin(s, "\n\n");
    assert "\n\n"[1..] == "\n" && "\n"[1..] == "";
  }

  /** A line that adds no data is one too many. */
  lemma SkippedLine(s: string, first: string, t: string, q: string)
    requires OneLine(first) && LineEnd(s) < |s| && Breaks(s) == Breaks(q) + 2
    ensures !Opens(Interpret(Rest(s), first + "\n", t), first + "\n" + q)
  {
    LinesNeeded(Rest(s), first + "\n", t);
    BreaksRest(s);
    EndBreaks(first);
    BreaksZero(first);
    BreaksJoin(first + "\n", q);
  }

  lemma AfterFirst(a: string, v: string, q: string)
    requires a + v + "\n" <= a + q + "\n"
    ensures v + "\n" <= q + "\n"
  {
    var x, y := a + v + "\n", a + q + "\n";
    assert x[|a|..] == v + "\n" && y[|a|..] == q + "\n";
    assert y[..|x|] == x;
    assert y[|a|..][..|v| + 1] == x[|a|..];
  }

  /** A data line adds the next line of q only if it held that line after its label. */
  lemma DataLineAdded(first: string, v: string, q: string, ms: seq<Message>)
    requires OneLine(v) && Opens(ms, first + "\n" + q) && first + "\n" + v + "\n" <= ms[0].data + "\n"
    ensures LineEnd(q) == |v| && q[..|v|] == v
  {
    AfterFirst(first + "\n", v, q);
    FirstLine(v, q);
  }

  lemma OneLineAfter(line: string, tag: string, v: string)
    requires OneLine(line) && line == tag + v
    ensures OneLine(v)
  {
    assert forall i :: 0 <= i < |v| ==> v[i] == line[|tag| + i];
  }

  lemma StruckLine(s: string, q: string, pat: string, sub: string, j: nat, tag: string, v: string)
    requires OccursAt(q, pat, j) && OneLine(pat) && OneLine(sub) && pat != "" && sub != "" && sub[0] == 'e'
    requires s == Struck(q, j, j + |pat|, sub) + "\n\n" && s[..LineEnd(s)] == tag + v && IsLabel(tag)
    ensures LineEnd(q) != |v| || q[..|v|] != v
  {
    InOneLine(q, pat, j);
    if j < LineEnd(q) {
      StruckFirst(q, "\n\n", pat, sub, j);
      NoSelfQuote(q[..LineEnd(q)], j, j + |pat|, sub, tag);
    } else {
      StruckLater(q, "\n\n", pat, sub, j);
      assert |tag + v| > |v|;
    }
  }

  /** Struck past its first line, a row is not read back. */
  lemma StruckTail(first: string, q: string, pat: string, sub: string, j: nat, eType: string, s: string)
    requires OneLine(first) && OneLine(pat) && OneLine(sub) && pat != "" && sub != "" && sub[0] == 'e'
    requires OccursAt(q, pat, j) && s == Struck(q, j, j + |pat|, sub) + "\n\n"
    ensures !Opens(Interpret(s, first + "\n", eType), first + "\n" + q)
  {
    var data := first + "\n";
    StruckOneLine(q, pat, sub, j);
    EndBreaks(Struck(q, j, j + |pat|, sub));
    BreaksZero(s);
    var n := LineEnd(s);
    assert s[..|s|] == s;
    if n == 0 {
      assert data[..|data| - 1] == first;
    } else {
      var (d, t) := ReadField(s[..n], data, eType);
      if d == data {
        SkippedLine(s, first, t, q);
      } else {
        var tag, v := DataField(s[..n], data, eType);
        StruckLine(s, q, pat, sub, j, tag, v);
        OneLineAfter(s[..n], tag, v);
        BeginsWith(Rest(s), d, t);
        var ms := Interpret(Rest(s), d, t);
        if Opens(ms, first + "\n" + q) { DataLineAdded(first, v, q, ms); }
      }
    }
  }

  /** Struck anywhere, a row of several lines is not read back. */
  lemma StruckLines(row: string, pat: string, sub: string, j: nat, eType: string, struck: string, p: nat)
    requires !OneLine(row) && OneLine(pat) && OneLine(sub) && pat != "" && sub != "" && sub[0] == 'e' && pat != sub
    requires OccursAt(row, pat, j) && struck == Struck(row, j, j + |pat|, sub) && p == LineEnd(struck) < |struck|
    ensures !Opens(Interpret(AfterBreak(struck[p..] + "\n\n"), struck[..p] + "\n", eType), row)
  {
    var first, rest := struck[..p], AfterBreak(struck[p..] + "\n\n");
    var ms := Interpret(rest, first + "\n", eType);
    BeginsWith(rest, first + "\n", eType);
    if Opens(ms, row) {
      FirstLine(first, row);
      NotInFirst(row, pat, sub, j);
      PastFirst(row, pat, sub, j, eType, struck, p);
    }
  }

  lemma PastFirst(row: string, pat: string, sub: string, j: nat, eType: string, struck: string, p: nat)
    requires OneLine(pat) && OneLine(sub) && pat != "" && sub != "" && sub[0] == 'e'
    requires OccursAt(row, pat, j) && struck == Struck(row, j, j + |pat|, sub)
    requires p < j && OneLine(row[..p]) && row[p] == '\n' && p < |struck|
    ensures !Opens(Interpret(AfterBreak(struck[p..] + "\n\n"), struck[..p] + "\n", eType), row)
  {
    LaterParts(row, pat, sub, j, struck, p);
    var first, q := row[..p], row[p + 1..];
    StruckTail(first, q, pat, sub, j - p - 1, eType, AfterBreak(struck[p..] + "\n\n"));
    SplitAt(row, p);
    assert [row[p]] == "\n";
  }

  lemma LaterParts(row: string, pat: string, sub: string, j: nat, struck: string, p: nat)
    requires OccursAt(row, pat, j) && struck == Struck(row, j, j + |pat|, sub)
    requires p < j && row[p] == '\n' && p < |struck|
    ensures OccursAt(row[p + 1..], pat, j - p - 1) && struck[..p] == row[..p]
    ensures AfterBreak(struck[p..] + "\n\n") == Struck(row[p + 1..], j - p - 1, j + |pat| - p - 1, sub) + "\n\n"
  {
    assert row[p + 1..][j - p - 1..] == row[j..];
    assert struck[p + 1..] == Struck(row[p + 1..], j - p - 1, j + |pat| - p - 1, sub);
    assert (struck[p..] + "\n\n")[1..] == struck[p + 1..] + "\n\n";
  }

  /** A changed first line shows. */
  lemma NotInFirst(row: string, pat: string, sub: string, j: nat)
    requires !OneLine(row) && OneLine(pat) && OneLine(sub) && pat != "" && pat != sub && OccursAt(row, pat, j)
    requires var struck := Struck(row, j, j + |pat|, sub);
      LineEnd(struck) == LineEnd(row) && struck[..LineEnd(row)] == row[..LineEnd(row)]
    ensures LineEnd(row) < j
  {
    var p, struck := LineEnd(row), Struck(row, j, j + |pat|, sub);
    InOneLine(row, pat, j);
    assert row[..|row|] == row;
    if j < p {
      StruckFirst(row, "", pat, sub, j);
      assert struck + "" == struck;
      assert row[..p][j..] == row[j..p] && row[j..p][..|pat|] == row[j..][..|pat|];
      StruckDiffers(row[..p], pat, sub, j);
    }
  }

  lemma StruckRow(row: string, pat: string, sub: string, j: nat, eType: string, frame: string)
    requires OneLine(pat) && OneLine(sub) && pat != "" && sub != "" && sub[0] == 'e' && pat != sub
    requires OccursAt(row, pat, j) && OneLine(eType) && eType != ""
    requires frame == Frame(eType, Struck(row, j, j + |pat|, sub))
    ensures Parse(frame) != [Message(eType, row)]
  {
    var struck := Struck(row, j, j + |pat|, sub);
    StruckOneLine(row, pat, sub, j);
    assert Opens([Message(eType, row)], row);
    if OneLine(row) {
      FrameIff(eType, struck);
      StruckDiffers(row, pat, sub, j);
      assert Opens([Message(eType, struck)], struck);
    } else {
      BrokenFrame(eType, struck);
      StruckLines(row, pat, sub, j, eType, struck, LineEnd(struck));
    }
  }

  // ---------------------------------------------------------------------------
  // Where the rewrite strikes a Submitted frame

  const HEADER := "event: tx-row\ndata: "

  lemma HeaderForm(row: string)
    ensures Frame(TX_ROW, row) == HEADER + row + "\n\n"
  {
    assert EVENT + TX_ROW + "\ndata: " == HEADER;
  }

  lemma LineForm(row: string)
    ensures Frame(TX_ROW, row) == EVENT + (TX_ROW + "\n" + ("data: " + row + "\n\n"))
  {
    assert "\ndata: " == "\n" + "data: ";
  }

  lemma PrefixWithinLine(p: string, line: string, rest: string)
    requires OneLine(p) && p <= line + "\n" + rest
    ensures p <= line
  {
    assert (line + "\n" + rest)[|line|] == '\n';
  }

  /** "event: " occurs in the header of a Submitted frame only at its start. */
  lemma HeaderOccurrence(rest: string, p: string, k: nat)
    requires EVENT <= p && OccursAt(HEADER + rest, p, k)
    ensures k == 0 || |HEADER| <= k
  {
    var s := HEADER + rest;
    assert p[0] == 'e' && p[1] == 'v';
    assert s[k..][0] == s[k] == 'e' && s[k..][1] == s[k + 1] == 'v';
  }

  /** A one-line id is found at the start of the frame, as a prefix of "tx-row", or inside the row. */
  lemma StrikesAt(id: string, row: string, k: nat)
    requires OneLine(id) && OccursAt(Frame(TX_ROW, row), EVENT + id, k)
    ensures k == 0 ==> id <= TX_ROW
    ensures k > 0 ==> |HEADER| <= k && OccursAt(row, EVENT + id, k - |HEADER|)
  {
    HeaderForm(row);
    LineForm(row);
    var s, pat, rest := Frame(TX_ROW, row), EVENT + id, "data: " + row + "\n\n";
    if k == 0 {
      assert s[0..] == s && s[|EVENT|..] == TX_ROW + "\n" + rest && pat[|EVENT|..] == id;
      PrefixWithinLine(id, TX_ROW, rest);
    } else {
      assert s == HEADER + (row + "\n\n");
      HeaderOccurrence(row + "\n\n", pat, k);
      var j := k - |HEADER|;
      assert s[k..] == (row + "\n\n")[j..];
      InsideRow(row, pat, j);
    }
  }

  lemma InsideRow(row: string, pat: string, j: nat)
    requires OneLine(pat) && pat != "" && OccursAt(row + "\n\n", pat, j)
    ensures OccursAt(row, pat, j)
  {
    var s := row + "\n\n";
    assert forall i :: j <= i < j + |pat| ==> s[i] == pat[i - j];
    assert IsBreak(s[|row|]) && IsBreak(s[|row| + 1]) && !IsBreak(s[j]);
  }

  /** For one-line ids this is the plain condition: no prefix of "tx-row", and not named in the row. */
  lemma OccursIff(id: string, row: string)
    requires OneLine(id)
    ensures Occurs(Frame(TX_ROW, row), EVENT + id) <==> id <= TX_ROW || Occurs(row, EVENT + id)
  {
    var s := Frame(TX_ROW, row);
    if k: nat :| OccursAt(s, EVENT + id, k) { StrikesAt(id, row, k); }
    HeaderForm(row);
    LineForm(row);
    if id <= TX_ROW { assert OccursAt(s, EVENT + id, 0); }
    if j: nat :| OccursAt(row, EVENT + id, j) {
      assert s[|HEADER| + j..] == row[j..] + "\n\n";
      assert OccursAt(s, EVENT + id, |HEADER| + j);
    }
  }

  lemma FirstOccurrence(s: string, p: string, bound: nat) returns (k: nat)
    requires OccursAt(s, p, bound)
    ensures OccursAt(s, p, k) && forall j: nat :: j < k ==> !OccursAt(s, p, j)
  {
    k := bound;
    if j: nat :| j < bound && OccursAt(s, p, j) {
      k := FirstOccurrence(s, p, j);
    }
  }

  /** An id that is a prefix of "tx-row" is replaced at the very start of the frame. */
  lemma ReplayedPrefix(e: Event, row: string)
    requires e.state == SUBMITTED && e.txID <= TX_ROW
    ensures Replayed(e, WriteEvent(e, row)) == Frame(TX_ROW + TX_ROW[|e.txID|..], row)
  {
    var more, data := TX_ROW[|e.txID|..], Data(row);
    assert TX_ROW == e.txID + more;
    Regroup(EVENT, e.txID, more, data);
    Regroup(EVENT, TX_ROW, more, data);
    ReplaceHead(EVENT + e.txID, more + data, EVENT + TX_ROW);
  }

  lemma Regroup(a: string, b: string, c: string, d: string)
    ensures a + (b + c) + d == (a + b) + (c + d)
  {
  }

  lemma ReplaceHead(pat: string, rest: string, sub: string)
    requires pat != ""
    ensures ReplaceFirst(pat + rest, pat, sub) == sub + rest
  {
    assert (pat + rest)[|pat|..] == rest;
  }

  lemma ReplacedAt(s: string, pat: string, sub: string, k: nat)
    requires pat != "" && OccursAt(s, pat, k) && forall i: nat :: i < k ==> !OccursAt(s, pat, i)
    ensures ReplaceFirst(s, pat, sub) == Struck(s, k, k + |pat|, sub)
  {
    ReplaceEarliest(s, pat, sub, k);
  }

  /** An id first found inside the row is replaced there, in the data. */
  lemma ReplacedInside(a: string, row: string, c: string, pat: string, sub: string, j: nat)
    requires pat != "" && OccursAt(row, pat, j)
    requires forall i: nat :: i < |a| + j ==> !OccursAt(a + row + c, pat, i)
    ensures ReplaceFirst(a + row + c, pat, sub) == a + Struck(row, j, j + |pat|, sub) + c
  {
    var s := a + row + c;
    assert s[|a| + j..] == row[j..] + c;
    ReplacedAt(s, pat, sub, |a| + j);
    StruckInside(a, row, c, sub, j, j + |pat|);
  }

  lemma ReplayedInside(e: Event, row: string, j: nat)
    requires e.state == SUBMITTED && OccursAt(row, EVENT + e.txID, j)
    requires forall i: nat :: i < |HEADER| + j ==> !OccursAt(Frame(TX_ROW, row), EVENT + e.txID, i)
    ensures Replayed(e, WriteEvent(e, row)) == Frame(TX_ROW, Struck(row, j, j + |EVENT + e.txID|, EVENT + TX_ROW))
  {
    HeaderForm(row);
    ReplacedInside(HEADER, row, "\n\n", EVENT + e.txID, EVENT + TX_ROW, j);
    HeaderForm(Struck(row, j, j + |EVENT + e.txID|, EVENT + TX_ROW));
  }

  lemma FrameBreaks(eType: string, row: string)
    requires OneLine(eType)
    ensures Breaks(Frame(eType, row)) == Breaks(row) + 3
  {
    FrameLines(eType, row, "");
    assert Frame(eType, row) + "" == Frame(eType, row);
    assert "\n" + "" == "\n";
    ThreeLines(EVENT + eType, "data: ", row, Frame(eType, row));
  }

  lemma ThreeLines(a: string, b: string, row: string, frame: string)
    requires OneLine(a) && OneLine(b) && frame == a + "\n" + ((b + row) + "\n" + "\n")
    ensures Breaks(frame) == Breaks(row) + 3
  {
    EndBreaks(a);
    EndBreaks(b + row);
    EndBreaks((b + row) + "\n");
    BreaksJoin(b, row);
    BreaksZero(a);
    BreaksZero(b);
    BreaksJoin(a + "\n", (b + row) + "\n" + "\n");
  }

  /** An id with a line break in it takes one line end too many out of the frame. */
  lemma StruckAcross(s: string, pat: string, sub: string, k: nat, row: string, eType: string, struck: string)
    requires pat != "" && !OneLine(pat) && OneLine(sub) && sub != "" && sub[0] == 'e' && s != "" && s[0] == 'e'
    requires OccursAt(s, pat, k) && Breaks(s) == Breaks(row) + 3 && eType != "message"
    requires (forall i: nat :: i < k ==> !OccursAt(s, pat, i)) && struck == ReplaceFirst(s, pat, sub)
    ensures Parse(struck) != [Message(eType, row)]
  {
    ReplacedAt(s, pat, sub, k);
    StruckBreaks(s, pat, sub, k);
    BreaksZero(pat);
    BreaksZero(sub);
    assert struck != "" && struck[0] == 'e';
    LinesNeeded(struck, "", "");
    var ms := [Message(eType, row)];
    assert ms[0] == Message(eType, row);
  }

  // ---------------------------------------------------------------------------
  // The exact condition

  /** A frame that the rewrite changes is never read back as the row it was for. */
  lemma StruckFrame(e: Event, row: string, frame: string)
    requires e.state == SUBMITTED && !Spared(e.txID, row) && frame == Replayed(e, WriteEvent(e, row))
    ensures Parse(frame) != [Message(TX_ROW, row)]
  {
    var s, pat := Frame(TX_ROW, row), EVENT + e.txID;
    var b: nat :| OccursAt(s, pat, b);
    var k := FirstOccurrence(s, pat, b);
    if !OneLine(e.txID) {
      StruckWide(e, row, s, k, frame);
    } else {
      StruckNarrow(e, row, k, frame);
    }
  }

  lemma StruckNarrow(e: Event, row: string, k: nat, frame: string)
    requires e.state == SUBMITTED && OneLine(e.txID) && e.txID != TX_ROW && frame == Replayed(e, WriteEvent(e, row))
    requires OccursAt(Frame(TX_ROW, row), EVENT + e.txID, k)
    requires forall i: nat :: i < k ==> !OccursAt(Frame(TX_ROW, row), EVENT + e.txID, i)
    ensures Parse(frame) != [Message(TX_ROW, row)]
  {
    StrikesAt(e.txID, row, k);
    if k == 0 {
      ReplayedPrefix(e, row);
      WrongType(TX_ROW + TX_ROW[|e.txID|..], row, frame);
    } else {
      var j := k - |HEADER|;
      ReplayedInside(e, row, j);
      Pattern(e.txID);
      StruckRow(row, EVENT + e.txID, EVENT + TX_ROW, j, TX_ROW, frame);
    }
  }

  lemma StruckWide(e: Event, row: string, s: string, k: nat, frame: string)
    requires e.state == SUBMITTED && s == Frame(TX_ROW, row) && frame == ReplaceFirst(s, EVENT + e.txID, EVENT + TX_ROW)
    requires !OneLine(e.txID) && OccursAt(s, EVENT + e.txID, k)
    requires forall i: nat :: i < k ==> !OccursAt(s, EVENT + e.txID, i)
    ensures Parse(frame) != [Message(TX_ROW, row)]
  {
    WidePattern(e.txID);
    WideFrame(row);
    StruckAcross(s, EVENT + e.txID, EVENT + TX_ROW, k, row, TX_ROW, frame);
  }

  lemma WideFrame(row: string)
    ensures var s := Frame(TX_ROW, row); s != "" && s[0] == 'e' && Breaks(s) == Breaks(row) + 3
    ensures OneLine(EVENT + TX_ROW) && EVENT + TX_ROW != "" && (EVENT + TX_ROW)[0] == 'e' && TX_ROW != "message"
  {
    FrameBreaks(TX_ROW, row);
    FrameStart(TX_ROW, row, "");
    assert Frame(TX_ROW, row) + "" == Frame(TX_ROW, row);
  }

  lemma WidePattern(id: string)
    requires !OneLine(id)
    ensures !OneLine(EVENT + id) && EVENT + id != ""
  {
    var i :| 0 <= i < |id| && IsBreak(id[i]);
    assert (EVENT + id)[|EVENT| + i] == id[i];
  }

  lemma Pattern(id: string)
    requires OneLine(id) && id != TX_ROW
    ensures OneLine(EVENT + id) && OneLine(EVENT + TX_ROW) && EVENT + id != "" && EVENT + id != EVENT + TX_ROW
    ensures (EVENT + TX_ROW)[0] == 'e'
  {
    assert (EVENT + id)[|EVENT|..] == id && (EVENT + TX_ROW)[|EVENT|..] == TX_ROW;
  }

  lemma WrongType(eType: string, row: string, frame: string)
    requires OneLine(eType) && eType != TX_ROW && eType != "" && frame == Frame(eType, row)
    ensures Parse(frame) != [Message(TX_ROW, row)]
  {
    var wrong := [Message(TX_ROW, row)];
    assert wrong[0] == Message(TX_ROW, row);
    if OneLine(row) {
      FrameIff(eType, row);
      assert [Message(eType, row)][0].eType == eType;
    } else {
      BrokenRow(eType, row);
    }
  }

  lemma SparedFrame(e: Event, row: string)
    requires e.state == SUBMITTED && Spared(e.txID, row)
    ensures Replayed(e, WriteEvent(e, row)) == Frame(TX_ROW, row)
  {
    if e.txID == TX_ROW {
      ReplayedPrefix(e, row);
      assert TX_ROW + TX_ROW[|TX_ROW|..] == TX_ROW;
    } else {
      ReplaceAbsent(Frame(TX_ROW, row), EVENT + e.txID, EVENT + TX_ROW);
    }
  }

  /** A later event's stored frame always adds a row. */
  lemma ReplayedLater(e: Event, row: string)
    requires e.state != SUBMITTED
    ensures Replayed(e, WriteEvent(e, row)) == Frame(TX_ROW, row)
  {
    ReplaceHead(EVENT + e.txID, Data(row), EVENT + TX_ROW);
  }

  /** What is written for a faithful output is the frame of what it means. */
  lemma FaithfulText(x: Output)
    requires Faithful(x)
    ensures var m := Meant(x); Text(x) == Frame(m.eType, m.data) && m.eType != "" && OneLine(m.eType) && OneLine(m.data)
  {
    if x.Stored? {
      if x.e.state == SUBMITTED { SparedFrame(x.e, x.row); } else { ReplayedLater(x.e, x.row); }
    }
  }

  lemma FrameMeant(eType: string, row: string, text: string)
    requires text == Frame(eType, row)
    ensures Parse(text) == [Message(eType, row)] <==> eType != "" && OneLine(eType) && OneLine(row)
  {
    FrameIff(eType, row);
  }

  /** For every event and every row whatsoever, a single frame is read back as
      exactly the message meant if and only if it is Faithful: its type is not empty and,
      like the row, a single line, and the rewrite for replay leaves a Submitted frame alone. */
  lemma RoundTripIff(x: Output)
    ensures Parse(Text(x)) == [Meant(x)] <==> Faithful(x)
  {
    match x
    case Live(e, row) => FrameMeant(EventType(e), row, Text(x));
    case Stored(e, row) =>
      if e.state != SUBMITTED {
        ReplayedLater(e, row);
        FrameMeant(TX_ROW, row, Text(x));
      } else if Spared(e.txID, row) {
        SparedFrame(e, row);
        FrameMeant(TX_ROW, row, Text(x));
      } else {
        StruckFrame(e, row, Text(x));
      }
  }

  lemma PrefixRead(e: Event, row: string, eType: string, frame: string)
    requires e.state == SUBMITTED && e.txID <= TX_ROW && eType == TX_ROW + TX_ROW[|e.txID|..] && OneLine(row)
    requires OneLine(eType) && eType != "" && frame == Replayed(e, WriteEvent(e, row))
    ensures Parse(frame) == [Message(eType, row)]
  {
    ReplayedPrefix(e, row);
    FrameMeant(eType, row, frame);
  }

  /** A Submitted event whose id "tx" begins "tx-row" is read back under another type. */
  lemma PrefixExample(e: Event, row: string)
    requires e.state == SUBMITTED && e.txID == "tx" && OneLine(row)
    ensures Parse(Text(Stored(e, row))) == [Message("tx-row-row", row)]
  {
    assert TX_ROW + TX_ROW[2..] == "tx-row-row" && e.txID <= TX_ROW;
    PrefixRead(e, row, "tx-row-row", Text(Stored(e, row)));
  }

  // ---------------------------------------------------------------------------
  // Streams

  lemma TextStart(x: Output)
    ensures Text(x) != "" && Text(x)[0] == 'e'
  {
    FrameStart(EventType(x.e), x.row, "");
    assert WriteEvent(x.e, x.row) + "" == WriteEvent(x.e, x.row);
    assert (EVENT + TX_ROW)[0] == 'e';
  }

  lemma {:induction false} TextOfAppend(xs: seq<Output>, x: Output)
    ensures TextOf(xs + [x]) == TextOf(xs) + Text(x) && MeantBy(xs + [x]) == MeantBy(xs) + [Meant(x)]
  {
    if xs != [] {
      assert (xs + [x])[1..] == xs[1..] + [x];
      TextOfAppend(xs[1..], x);
    } else {
      assert [x][1..] == [] && [] + [x] == [x];
    }
  }

  /** Faithful frames are read as what they mean, and leave the reader as they found it. */
  lemma {:induction false} InterpretStream(xs: seq<Output>, rest: string)
    requires forall i :: 0 <= i < |xs| ==> Faithful(xs[i])
    ensures Interpret(TextOf(xs) + rest, "", "") == MeantBy(xs) + Interpret(rest, "", "")
  {
    if xs == [] {
      assert "" + rest == rest;
    } else {
      InterpretStream(xs[1..], rest);
      InterpretFirst(xs[0], TextOf(xs[1..]), rest, MeantBy(xs[1..]));
    }
  }

  lemma InterpretFirst(x: Output, text: string, rest: string, ms: seq<Message>)
    requires Faithful(x) && Interpret(text + rest, "", "") == ms + Interpret(rest, "", "")
    ensures Interpret(Text(x) + text + rest, "", "") == [Meant(x)] + ms + Interpret(rest, "", "")
  {
    FaithfulText(x);
    FrameRead(Meant(x).eType, Meant(x).data, text + rest);
    assert Text(x) + text + rest == Text(x) + (text + rest);
    assert [Meant(x)] + ms + Interpret(rest, "", "") == [Meant(x)] + (ms + Interpret(rest, "", ""));
  }

  lemma ParseStream(xs: seq<Output>)
    ensures Parse(TextOf(xs)) == Interpret(TextOf(xs), "", "")
  {
    if xs != [] { TextStart(xs[0]); }
  }

  /** The whole text is read as exactly the messages meant, in order. */
  predicate Understood(xs: seq<Output>) {
    Parse(TextOf(xs)) == MeantBy(xs)
  }

  /** Any concatenation of faithful frames is read back as exactly the messages sent, in order. */
  lemma StreamRoundTrip(xs: seq<Output>)
    requires forall i :: 0 <= i < |xs| ==> Faithful(xs[i])
    ensures Understood(xs)
  {
    ParseStream(xs);
    InterpretStream(xs, "");
    assert TextOf(xs) + "" == TextOf(xs) && Interpret("", "", "") == [];
  }

  /** The first unfaithful frame is misread whatever came before it. */
  lemma FirstUnfaithful(xs: seq<Output>, x: Output)
    requires (forall i :: 0 <= i < |xs| ==> Faithful(xs[i])) && !Faithful(x)
    ensures !Understood(xs + [x])
  {
    var meant, read := MeantBy(xs), Interpret(Text(x), "", "");
    TextOfAppend(xs, x);
    ParseStream(xs + [x]);
    InterpretStream(xs, Text(x));
    RoundTripIff(x);
    TextStart(x);
    assert (meant + read)[|meant|..] == read && (meant + [Meant(x)])[|meant|..] == [Meant(x)];
  }

  /** A reader that looks after every frame always finds exactly what was sent so far. */
  ghost predicate InStep(xs: seq<Output>) {
    Understood(xs) && (xs != [] ==> InStep(xs[..|xs| - 1]))
  }

  /** It does if and only if all the frames are faithful. */
  lemma {:induction false} StreamIff(xs: seq<Output>)
    ensures InStep(xs) <==> forall i :: 0 <= i < |xs| ==> Faithful(xs[i])
  {
    if xs == [] {
      StreamRoundTrip(xs);
    } else {
      var p, x := xs[..|xs| - 1], xs[|xs| - 1];
      assert xs == p + [x];
      StreamIff(p);
      if InStep(p) { if Faithful(x) { StreamRoundTrip(xs); } else { FirstUnfaithful(p, x); } }
    }
  }
}
