/** The duration and the log of a job's rows (getJobDuration, stateFromKind and
    txLogEventsFromTxs in store/pg/store.go). */
module JobLog {
  import opened Model
  import opened Jobs

  // ---------------------------------------------------------------------------
  // Duration

  /** The `begin` of getJobDuration after its loop; 0 is the zero time. */
  function Begin(txs: seq<Tx>): Time {
    if txs == [] then 0
    else
      var begin, t := Begin(txs[..|txs| - 1]), txs[|txs| - 1].createdAt;
      if begin == 0 || t < begin then t else begin
  }

  function End(txs: seq<Tx>): Time {
    if txs == [] then 0
    else
      var end, t := End(txs[..|txs| - 1]), txs[|txs| - 1].createdAt;
      if end == 0 || t > end then t else end
  }

  function Duration(txs: seq<Tx>): int {
    Sub(End(txs), Begin(txs))
  }

  method GetJobDuration(txs: seq<Tx>) returns (d: int)
    ensures d == Duration(txs)
  {
    var begin, end := 0, 0;
    for i := 0 to |txs|
      invariant begin == Begin(txs[..i]) && end == End(txs[..i])
    {
      assert txs[..i + 1][..i] == txs[..i];
      if begin == 0 || txs[i].createdAt < begin {
        begin := txs[i].createdAt;
      }
      if end == 0 || txs[i].createdAt > end {
        end := txs[i].createdAt;
      }
    }
    assert txs[..|txs|] == txs;
    d := Sub(end, begin);
  }

  ghost predicate Stamped(txs: seq<Tx>) {
    forall t <- txs :: t.createdAt != 0
  }

  ghost predicate SomeBefore(txs: seq<Tx>) {
    exists t :: t in txs && t.createdAt < 0
  }

  ghost predicate SomeAfter(txs: seq<Tx>) {
    exists t :: t in txs && t.createdAt > 0
  }

  ghost predicate IsEarliest(txs: seq<Tx>, b: Time) {
    (exists t :: t in txs && t.createdAt == b) && forall t <- txs :: b <= t.createdAt
  }

  ghost predicate IsLatest(txs: seq<Tx>, e: Time) {
    (exists t :: t in txs && t.createdAt == e) && forall t <- txs :: t.createdAt <= e
  }

  /** b and e are the earliest and the latest creation. */
  ghost predicate Span(txs: seq<Tx>, b: Time, e: Time) {
    IsEarliest(txs, b) && IsLatest(txs, e)
  }

  lemma LastOne(txs: seq<Tx>)
    requires txs != []
    ensures forall t :: t in txs <==> t in txs[..|txs| - 1] || t == txs[|txs| - 1]
  {
    assert txs == txs[..|txs| - 1] + [txs[|txs| - 1]];
  }

  /** A zero row makes `begin` start anew, unless it is before the zero time already. */
  lemma {:induction false} BeginIs(txs: seq<Tx>)
    requires txs != []
    ensures SomeBefore(txs) ==> IsEarliest(txs, Begin(txs)) && Begin(txs) < 0
    ensures !SomeBefore(txs) ==> (Begin(txs) == 0 <==> txs[|txs| - 1].createdAt == 0)
    ensures !SomeBefore(txs) && Stamped(txs) ==> IsEarliest(txs, Begin(txs))
    ensures exists t :: t in txs && t.createdAt == Begin(txs)
  {
    var p, x := txs[..|txs| - 1], txs[|txs| - 1];
    LastOne(txs);
    if p != [] { BeginIs(p); }
    assert x in txs;
  }

  lemma {:induction false} EndIs(txs: seq<Tx>)
    requires txs != []
    ensures SomeAfter(txs) ==> IsLatest(txs, End(txs)) && End(txs) > 0
    ensures !SomeAfter(txs) ==> (End(txs) == 0 <==> txs[|txs| - 1].createdAt == 0)
    ensures !SomeAfter(txs) && Stamped(txs) ==> IsLatest(txs, End(txs))
    ensures exists t :: t in txs && t.createdAt == End(txs)
  {
    var p, x := txs[..|txs| - 1], txs[|txs| - 1];
    LastOne(txs);
    if p != [] { EndIs(p); }
    assert x in txs;
  }

  /** getJobDuration measures the whole span exactly when no timestamp is zero, the
      last row's is, or some lie on each side of zero; it is never negative. */
  lemma DurationIff(txs: seq<Tx>)
    requires txs != []
    ensures Span(txs, Begin(txs), End(txs))
       <==> Stamped(txs) || txs[|txs| - 1].createdAt == 0 || (SomeBefore(txs) && SomeAfter(txs))
    ensures Begin(txs) <= End(txs) && Duration(txs) >= 0
  {
    BeginIs(txs);
    EndIs(txs);
    assert txs[|txs| - 1] in txs;
    if z :| z in txs && z.createdAt == 0 {
      assert !SomeBefore(txs) && IsEarliest(txs, Begin(txs)) ==> Begin(txs) == 0;
      assert !SomeAfter(txs) && IsLatest(txs, End(txs)) ==> End(txs) == 0;
    }
  }

  /** Nothing is zero, everything is, or some timestamps lie on each side of it. */
  ghost predicate OrderFree(txs: seq<Tx>) {
    Stamped(txs) || (forall t <- txs :: t.createdAt == 0) || (SomeBefore(txs) && SomeAfter(txs))
  }

  lemma SpanUnique(txs: seq<Tx>, b: Time, e: Time, b': Time, e': Time)
    requires Span(txs, b, e) && Span(txs, b', e')
    ensures b == b' && e == e'
  {
  }

  lemma SameMembers(a: seq<Tx>, b: seq<Tx>)
    requires multiset(a) == multiset(b)
    ensures forall t :: t in a <==> t in b
    ensures |a| == |b|
  {
    assert forall t :: (t in a <==> t in multiset(a)) && (t in b <==> t in multiset(b));
    assert |multiset(a)| == |a| && |multiset(b)| == |b|;
  }

  /** The span a permutation of order-free rows gives is the rows' own. */
  lemma SpanOfAny(txs: seq<Tx>, a: seq<Tx>)
    requires txs != [] && OrderFree(txs) && multiset(a) == multiset(txs)
    ensures Span(txs, Begin(a), End(a))
  {
    SameMembers(a, txs);
    assert a[|a| - 1] in a;
    DurationIff(a);
  }

  lemma SameDuration(txs: seq<Tx>, a: seq<Tx>, b: seq<Tx>)
    requires txs != [] && OrderFree(txs) && multiset(a) == multiset(txs) == multiset(b)
    ensures Duration(a) == Duration(b)
  {
    SpanOfAny(txs, a);
    SpanOfAny(txs, b);
    SpanUnique(txs, Begin(a), End(a), Begin(b), End(b));
  }

  lemma Without(txs: seq<Tx>, x: Tx) returns (rest: seq<Tx>)
    requires x in txs
    ensures multiset(txs) == multiset(rest) + multiset{x}
  {
    var i :| 0 <= i < |txs| && txs[i] == x;
    rest := txs[..i] + txs[i + 1..];
    MultisetWithout(txs, i);
    assert x in multiset(txs);
  }

  lemma Aside(txs: seq<Tx>, x: Tx, y: Tx) returns (rest: seq<Tx>)
    requires x in txs && y in txs && x != y
    ensures multiset(txs) == multiset(rest) + multiset{x} + multiset{y}
  {
    var r := Without(txs, x);
    assert y in multiset(txs) && y in multiset(r);
    rest := Without(r, y);
  }

  /** From zero on: a zero row stretches the span when it comes last, and before the
      latest row it makes all the others forgotten. */
  lemma ZeroFirstOrLast(p: seq<Tx>, m: Tx)
    requires p != [] && p[|p| - 1].createdAt == 0 && m.createdAt > 0
    requires forall t <- p :: 0 <= t.createdAt <= m.createdAt
    ensures Duration([m] + p) > 0 && Duration(p + [m]) == 0
  {
    var a, b := [m] + p, p + [m];
    assert m in a && (forall t <- a :: t in p || t == m) && a[|a| - 1] == p[|p| - 1];
    BeginIs(a);
    EndIs(a);
    assert b[..|p|] == p && m in b && (forall t <- b :: t in p || t == m);
    BeginIs(p);
    EndIs(b);
  }

  /** The mirror image, up to zero. */
  lemma ZeroFirstOrLastBefore(p: seq<Tx>, m: Tx)
    requires p != [] && p[|p| - 1].createdAt == 0 && m.createdAt < 0
    requires forall t <- p :: m.createdAt <= t.createdAt <= 0
    ensures Duration([m] + p) > 0 && Duration(p + [m]) == 0
  {
    var a, b := [m] + p, p + [m];
    assert m in a && (forall t <- a :: t in p || t == m) && a[|a| - 1] == p[|p| - 1];
    BeginIs(a);
    EndIs(a);
    assert b[..|p|] == p && m in b && (forall t <- b :: t in p || t == m);
    EndIs(p);
    BeginIs(b);
  }

  lemma TwoOrders(txs: seq<Tx>, z: Tx, m: Tx) returns (a: seq<Tx>, b: seq<Tx>)
    requires z in txs && m in txs && z.createdAt == 0 && m.createdAt != 0
    requires forall t <- txs :: 0 <= t.createdAt <= m.createdAt || m.createdAt <= t.createdAt <= 0
    ensures multiset(a) == multiset(txs) == multiset(b) && Duration(a) != Duration(b)
  {
    var rest := Aside(txs, z, m);
    var p := rest + [z];
    a, b := [m] + p, p + [m];
    assert multiset(a) == multiset(txs) && multiset(b) == multiset(txs);
    SameMembers(b, txs);
    assert forall t <- p :: t in b;
    if m.createdAt > 0 { ZeroFirstOrLast(p, m); } else { ZeroFirstOrLastBefore(p, m); }
  }

  /** The duration is the same in whatever order the rows come exactly when they are order-free. */
  lemma OrderIff(txs: seq<Tx>)
    requires txs != []
    ensures (forall a, b :: multiset(a) == multiset(txs) && multiset(b) == multiset(txs) ==> Duration(a) == Duration(b))
       <==> OrderFree(txs)
  {
    if OrderFree(txs) {
      forall a, b | multiset(a) == multiset(txs) && multiset(b) == multiset(txs) ensures Duration(a) == Duration(b) {
        SameDuration(txs, a, b);
      }
    } else {
      var z :| z in txs && z.createdAt == 0;
      BeginIs(txs);
      EndIs(txs);
      var e := if SomeAfter(txs) then End(txs) else Begin(txs);
      var m :| m in txs && m.createdAt == e;
      var a, b := TwoOrders(txs, z, m);
    }
  }

  lemma TwoRows(x: Tx, y: Tx)
    ensures var b := x.createdAt;
      Begin([x, y]) == (if b == 0 || y.createdAt < b then y.createdAt else b)
      && End([x, y]) == (if b == 0 || y.createdAt > b then y.createdAt else b)
  {
    assert [x, y][..1] == [x] && [x][..0] == [];
    assert Begin([x]) == x.createdAt && End([x]) == x.createdAt;
  }

  /** The same two rows in two orders. */
  lemma ZeroTimestampMatters()
    ensures exists a, b :: multiset(a) == multiset(b) && Duration(a) == 0 && Duration(b) == 5
  {
    var x, y := Tx("", "x", Run, "0", 0, true, true), Tx("", "y", Proof, "0", 5, true, true);
    TwoRows(x, y);
    TwoRows(y, x);
    assert Duration([x, y]) == 0 && Duration([y, x]) == 5;
    assert multiset([x, y]) == multiset([y, x]);
  }

  // ---------------------------------------------------------------------------
  // Log

  function StateFromKind(k: TxKind): State {
    match k
    case Run => SUBMITTED
    case Proof => PROVING
    case Verification => VERIFYING
    case Other => UNKNOWN
  }

  function LogEvent(t: Tx): TxLogEvent {
    TxLogEvent(StateFromKind(t.kind), "node id", t.author, t.createdAt)
  }

  function LogEvents(txs: seq<Tx>): (log: seq<TxLogEvent>)
    ensures |log| == |txs|
  {
    MapSeq(LogEvent, txs)
  }

  ghost predicate Sorted(log: seq<TxLogEvent>) {
    forall i, j :: 0 <= i < j < |log| ==> log[i].timestamp <= log[j].timestamp
  }

  /** A timestamp-sorted permutation of the mapped rows; equal timestamps may come in any order. */
  ghost predicate IsLogOf(txs: seq<Tx>, log: seq<TxLogEvent>) {
    Sorted(log) && multiset(log) == multiset(LogEvents(txs))
  }

  /** Where an entry of time t goes in a sorted log. */
  function Position(log: seq<TxLogEvent>, t: Time): (j: nat)
    requires Sorted(log)
    ensures j <= |log|
    ensures forall k :: 0 <= k < j ==> log[k].timestamp < t
    ensures forall k :: j <= k < |log| ==> t <= log[k].timestamp
  {
    if log == [] || t <= log[0].timestamp then 0 else 1 + Position(log[1..], t)
  }

  function Inserted(log: seq<TxLogEvent>, e: TxLogEvent): (r: seq<TxLogEvent>)
    requires Sorted(log)
    ensures Sorted(r) && multiset(r) == multiset(log) + multiset{e}
  {
    var j := Position(log, e.timestamp);
    InsertedSorted(log, j, e);
    InsertedRows(log, j, e);
    log[..j] + [e] + log[j..]
  }

  lemma InsertedSorted(log: seq<TxLogEvent>, j: nat, e: TxLogEvent)
    requires Sorted(log) && j <= |log|
    requires forall k :: 0 <= k < j ==> log[k].timestamp < e.timestamp
    requires forall k :: j <= k < |log| ==> e.timestamp <= log[k].timestamp
    ensures Sorted(log[..j] + [e] + log[j..])
  {
    var r := log[..j] + [e] + log[j..];
    forall a, b | 0 <= a < b < |r| ensures r[a].timestamp <= r[b].timestamp {
      assert r[a] == if a < j then log[a] else if a == j then e else log[a - 1];
      assert r[b] == if b < j then log[b] else if b == j then e else log[b - 1];
    }
  }

  lemma InsertedRows(log: seq<TxLogEvent>, j: nat, e: TxLogEvent)
    requires j <= |log|
    ensures multiset(log[..j] + [e] + log[j..]) == multiset(log) + multiset{e}
  {
    assert log == log[..j] + log[j..];
  }

  /** One order slices.SortFunc may give; it is free to permute equal timestamps. */
  function SortedLog(events: seq<TxLogEvent>): (log: seq<TxLogEvent>)
    ensures Sorted(log) && multiset(log) == multiset(events)
  {
    if events == [] then []
    else
      assert events == events[..|events| - 1] + [events[|events| - 1]];
      Inserted(SortedLog(events[..|events| - 1]), events[|events| - 1])
  }

  lemma LogEventsAppend(txs: seq<Tx>, t: Tx)
    ensures LogEvents(txs + [t]) == LogEvents(txs) + [LogEvent(t)]
  {
  }

  method TxLogEventsFromTxs(txs: seq<Tx>) returns (log: seq<TxLogEvent>)
    ensures IsLogOf(txs, log)
  {
    var events := [];
    for i := 0 to |txs|
      invariant events == LogEvents(txs[..i])
    {
      assert txs[..i + 1] == txs[..i] + [txs[i]];
      LogEventsAppend(txs[..i], txs[i]);
      var e := TxLogEvent(StateFromKind(txs[i].kind), "node id", txs[i].author, txs[i].createdAt);
      if e.state == COMPLETE {
        e := e.(idType := "user id");
      }
      events := events + [e];
    }
    assert txs[..|txs|] == txs;
    log := SortedLog(events);
    // the range variable is a copy: nothing in `log` changes
    var verifications := 0;
    for i := 0 to |log| {
      var e := log[i];
      if e.state == VERIFYING {
        verifications := verifications + 1;
        if verifications > 2 {
          e := e.(state := COMPLETE);
        }
      }
    }
  }

  /** Every log entry is some row's, so none is Complete and none shows a "user id":
      the last loop assigns to copies, and stateFromKind never yields Complete. */
  lemma LogNeverComplete(txs: seq<Tx>, log: seq<TxLogEvent>, e: TxLogEvent)
    requires IsLogOf(txs, log) && e in log
    ensures exists t :: t in txs && e == LogEvent(t)
    ensures e.state != COMPLETE && e.idType == "node id"
  {
    assert e in multiset(log);
    var j :| 0 <= j < |txs| && LogEvents(txs)[j] == e;
    assert txs[j] in txs;
  }

  /** A sorted log starts at the earliest creation and ends at the latest. */
  lemma LogEnds(txs: seq<Tx>, log: seq<TxLogEvent>, b: Time, e: Time)
    requires Span(txs, b, e) && IsLogOf(txs, log)
    ensures |log| == |txs| > 0 && log[0].timestamp == b && log[|log| - 1].timestamp == e
  {
    assert |multiset(log)| == |multiset(LogEvents(txs))|;
    var first :| first in txs && first.createdAt == b;
    var last :| last in txs && last.createdAt == e;
    LogHolds(txs, log, first);
    LogHolds(txs, log, last);
    LogFrom(txs, log, 0);
    LogFrom(txs, log, |log| - 1);
  }

  /** The duration of order-free rows is the time from their first log entry to the last, within an int64. */
  lemma LogSpan(txs: seq<Tx>, log: seq<TxLogEvent>)
    requires txs != [] && OrderFree(txs) && IsLogOf(txs, log)
    ensures |log| == |txs|
    ensures var span := log[|log| - 1].timestamp - log[0].timestamp;
      0 <= span && Duration(txs) == if span <= 9223372036854775807 then span else 9223372036854775807
  {
    SpanOfAny(txs, txs);
    LogEnds(txs, log, Begin(txs), End(txs));
    assert Begin(txs) <= End(txs);
  }

  lemma LogHolds(txs: seq<Tx>, log: seq<TxLogEvent>, t: Tx)
    requires t in txs && multiset(log) == multiset(LogEvents(txs))
    ensures exists i :: 0 <= i < |log| && log[i].timestamp == t.createdAt
  {
    var i :| 0 <= i < |txs| && txs[i] == t;
    assert LogEvents(txs)[i] == LogEvent(t);
    assert LogEvent(t) in multiset(log);
  }

  lemma LogFrom(txs: seq<Tx>, log: seq<TxLogEvent>, i: nat)
    requires i < |log| && multiset(log) == multiset(LogEvents(txs))
    ensures exists t :: t in txs && t.createdAt == log[i].timestamp
  {
    assert log[i] in multiset(LogEvents(txs));
    var j :| 0 <= j < |txs| && LogEvents(txs)[j] == log[i];
    assert txs[j] in txs;
  }

  function Stamps(log: seq<TxLogEvent>): seq<Time> {
    MapSeq((e: TxLogEvent) => e.timestamp, log)
  }

  lemma {:induction false} SortedUnique(a: seq<Time>, b: seq<Time>)
    requires forall i, j :: 0 <= i < j < |a| ==> a[i] <= a[j]
    requires forall i, j :: 0 <= i < j < |b| ==> b[i] <= b[j]
    requires multiset(a) == multiset(b)
    ensures a == b
  {
    assert |multiset(a)| == |a| && |multiset(b)| == |b|;
    if a != [] {
      var n := |a| - 1;
      LastIsGreatest(a, b);
      LastIsGreatest(b, a);
      WithoutLast(a, b, n);
      SortedUnique(a[..n], b[..n]);
      assert a == a[..n] + [a[n]];
      assert b == b[..n] + [b[n]];
    }
  }

  lemma WithoutLast(a: seq<Time>, b: seq<Time>, n: nat)
    requires |a| == |b| == n + 1 && a[n] == b[n] && multiset(a) == multiset(b)
    ensures multiset(a[..n]) == multiset(b[..n])
  {
    MultisetWithout(a, n);
    MultisetWithout(b, n);
    assert a[..n] + a[n + 1..] == a[..n] && b[..n] + b[n + 1..] == b[..n];
  }

  lemma LastIsGreatest(a: seq<Time>, b: seq<Time>)
    requires a != [] && b != [] && multiset(a) == multiset(b)
    requires forall i, j :: 0 <= i < j < |b| ==> b[i] <= b[j]
    ensures a[|a| - 1] <= b[|b| - 1]
  {
    assert a[|a| - 1] in multiset(b);
    var i :| 0 <= i < |b| && b[i] == a[|a| - 1];
  }

  lemma SameLog(a: seq<Tx>, b: seq<Tx>, l1: seq<TxLogEvent>, l2: seq<TxLogEvent>)
    requires multiset(a) == multiset(b) && IsLogOf(a, l1) && IsLogOf(b, l2)
    ensures multiset(l1) == multiset(l2) && Stamps(l1) == Stamps(l2)
    ensures |l1| == |l2| && forall i :: 0 <= i < |l1| ==> l1[i].timestamp == l2[i].timestamp
  {
    MapPermutes(LogEvent, a, b);
    MapPermutes((e: TxLogEvent) => e.timestamp, l1, l2);
    SortedUnique(Stamps(l1), Stamps(l2));
    assert forall i :: 0 <= i < |l1| ==> l1[i].timestamp == Stamps(l1)[i];
    assert forall i :: 0 <= i < |l2| ==> l2[i].timestamp == Stamps(l2)[i];
  }
}
