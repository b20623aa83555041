/** The daily statistics aggregator (stats/aggregator.go) over failures,
    restarts and clocks that step, and the rows it leaves in the store. */
module Aggregator {
  import opened Model

  /** Times are Unix seconds; Go's zero time is the start of year 1. */
  const ZERO_TIME := -62135596800

  /** Unix seconds by 24 * 60 * 60, in Go's integer division, which truncates toward zero. */
  function MonotonicDay(t: int): int {
    if t >= 0 then t / 86400 else -((-t) / 86400)
  }

  /** The day of the calendar, counted from 1970-01-01. */
  function CalendarDay(t: int): int {
    t / 86400
  }

  /** The two agree from 1970 on, and before it only at midnight. */
  lemma DaysAgreeIff(t: int)
    ensures MonotonicDay(t) == CalendarDay(t) <==> t >= 0 || t % 86400 == 0
  {
  }

  /** u is a midnight before 1970, and t a later time of the day it begins. */
  predicate AfterMidnight(u: int, t: int) {
    u < 0 && u % 86400 == 0 && u < t < u + 86400
  }

  lemma SameDate(u: int, t: int)
    requires AfterMidnight(u, t)
    ensures CalendarDay(u) == CalendarDay(t)
  {
  }

  /** Going by the truncating day, the one mistake about two times is to take them for
      different days: when the first is a midnight before 1970 and the other later that day. */
  lemma MistakenIff(u: int, t: int)
    requires MonotonicDay(u) < MonotonicDay(t)
    ensures CalendarDay(u) < CalendarDay(t) <==> !AfterMidnight(u, t)
  {
  }

  lemma LaterDay(u: int, t: int)
    ensures u <= t ==> MonotonicDay(u) <= MonotonicDay(t)
    ensures AfterMidnight(u, t) ==> MonotonicDay(u) < MonotonicDay(t)
  {
  }

  /** The store's rows (their created_at), and the aggregator's memory while it is up. */
  datatype Agg = Agg(rows: seq<int>, lastRan: int, up: bool)

  /** What an insert comes to: the store may also commit it and still report an error. */
  datatype Outcome = Stored | Refused | Unacknowledged

  datatype Step =
    | Boot(lookupFails: bool)             // Run is called
    | Tick(now: int, outcome: Outcome)    // the ticker fires
    | Halt                                // done is closed, or the process dies

  /** LatestDailyStats: the greatest created_at, or the zero time when there is no row. */
  function Latest(rows: seq<int>): int {
    if rows == [] then ZERO_TIME
    else
      var m, x := Latest(rows[..|rows| - 1]), rows[|rows| - 1];
      if |rows| == 1 || x > m then x else m
  }

  function Next(a: Agg, x: Step): Option<Agg> {
    match x
    case Boot(fails) =>
      if a.up then None else if fails then Some(a) else Some(a.(up := true, lastRan := Latest(a.rows)))
    case Tick(now, outcome) =>
      if !a.up then None
      else if MonotonicDay(now) > MonotonicDay(a.lastRan) then
        match outcome
        case Stored => Some(a.(rows := a.rows + [now], lastRan := now))
        case Refused => Some(a)
        case Unacknowledged => Some(a.(rows := a.rows + [now]))
      else Some(a)
    case Halt => if a.up then Some(a.(up := false)) else None
  }

  /** From a store with some rows, down, through a whole run. */
  function Exec(rows: seq<int>, run: seq<Step>): Option<Agg> {
    if run == [] then Some(Agg(rows, ZERO_TIME, false))
    else
      var a := Exec(rows, run[..|run| - 1]);
      if a.None? then None else Next(a.value, run[|run| - 1])
  }

  /** Some boot succeeded, and nothing has halted since. */
  ghost predicate Running(run: seq<Step>) {
    exists b :: 0 <= b < |run| && BootedAt(run, b)
  }

  predicate BootedAt(run: seq<Step>, b: nat) {
    b < |run| && run[b] == Boot(false) && forall k :: b < k < |run| ==> !run[k].Halt?
  }

  /** The aggregator is up exactly then, ... */
  lemma {:induction false} UpIff(rows: seq<int>, run: seq<Step>)
    requires Exec(rows, run).Some?
    ensures Exec(rows, run).value.up <==> Running(run)
  {
    if run != [] {
      var p, x := run[..|run| - 1], run[|run| - 1];
      UpIff(rows, p);
      assert run == p + [x];
      if b :| 0 <= b < |p| && BootedAt(p, b) { assert !x.Halt? ==> BootedAt(run, b); }
      if b :| 0 <= b < |run| && BootedAt(run, b) { assert b < |p| ==> BootedAt(p, b); }
      if x == Boot(false) { assert BootedAt(run, |p|); }
    }
  }

  /** ... and ticks only then. */
  lemma {:induction false} TicksWhileRunning(rows: seq<int>, run: seq<Step>, k: nat)
    requires Exec(rows, run).Some? && k < |run| && run[k].Tick?
    ensures Running(run[..k])
  {
    var p := run[..|run| - 1];
    if k < |p| {
      TicksWhileRunning(rows, p, k);
      assert p[..k] == run[..k];
    } else {
      UpIff(rows, p);
    }
  }

  // ---------------------------------------------------------------------------
  // What happened, read off the ticks alone

  /** The latest day seen: in the initial rows, or at a tick that was not refused. */
  function SeenDay(rows: seq<int>, run: seq<Step>): int {
    if run == [] then MonotonicDay(Latest(rows))
    else
      var m, x := SeenDay(rows, run[..|run| - 1]), run[|run| - 1];
      if x.Tick? && x.outcome != Refused && MonotonicDay(x.now) > m then MonotonicDay(x.now) else m
  }

  /** The latest day acknowledged since the last boot, or seen at that boot. */
  function KnownDay(rows: seq<int>, run: seq<Step>): int {
    if run == [] then MonotonicDay(Latest(rows))
    else
      var p, x := run[..|run| - 1], run[|run| - 1];
      var m := KnownDay(rows, p);
      if x.Boot? && !x.lookupFails then SeenDay(rows, p)
      else if x.Tick? && x.outcome == Stored && MonotonicDay(x.now) > m then MonotonicDay(x.now)
      else m
  }

  /** The last step of the run puts a row into the store. */
  predicate Commits(rows: seq<int>, run: seq<Step>) {
    && run != [] && run[|run| - 1].Tick? && run[|run| - 1].outcome != Refused
    && MonotonicDay(run[|run| - 1].now) > KnownDay(rows, run[..|run| - 1])
  }

  /** The ticks that did, in order. */
  function Committed(rows: seq<int>, run: seq<Step>): (ticks: seq<Step>)
    ensures forall x <- ticks :: x.Tick? && x.outcome != Refused
  {
    if run == [] then []
    else Committed(rows, run[..|run| - 1]) + (if Commits(rows, run) then [run[|run| - 1]] else [])
  }

  function Times(ticks: seq<Step>): (ts: seq<int>)
    requires forall x <- ticks :: x.Tick?
    ensures |ts| == |ticks|
  {
    seq(|ticks|, i requires 0 <= i < |ticks| => ticks[i].now)
  }

  lemma TimesAppend(ticks: seq<Step>, x: Step)
    requires x.Tick? && forall y <- ticks :: y.Tick?
    ensures Times(ticks + [x]) == Times(ticks) + [x.now]
  {
  }

  // ---------------------------------------------------------------------------
  // What every run keeps

  lemma {:induction false} LatestIsGreatest(rows: seq<int>)
    ensures forall t <- rows :: t <= Latest(rows)
    ensures if rows == [] then Latest(rows) == ZERO_TIME else Latest(rows) in rows
  {
    if rows != [] {
      var p := rows[..|rows| - 1];
      assert rows == p + [rows[|rows| - 1]];
      LatestIsGreatest(p);
    }
  }

  function Max(a: int, b: int): int { if a < b then b else a }

  /** The day of the latest row goes up with each row of a later day. */
  lemma LatestAppend(rows: seq<int>, t: int)
    requires rows == [] ==> MonotonicDay(t) > MonotonicDay(ZERO_TIME)
    ensures MonotonicDay(Latest(rows + [t])) == Max(MonotonicDay(Latest(rows)), MonotonicDay(t))
  {
    assert (rows + [t])[..|rows|] == rows;
    LaterDay(Latest(rows), t);
    LaterDay(t, Latest(rows));
  }

  /** Memory and store are what the ticks say: first rows, committed ticks, latest day seen, latest day known. */
  ghost predicate Account(rows: seq<int>, ticks: seq<Step>, seen: int, known: int, a: Agg)
    requires forall x <- ticks :: x.Tick?
  {
    && a.rows == rows + Times(ticks)
    && MonotonicDay(Latest(a.rows)) == seen
    && (a.up ==> MonotonicDay(a.lastRan) == known)
    && (a.rows == [] ==> known == MonotonicDay(ZERO_TIME))
    && known <= seen
  }

  ghost predicate Accounted(rows: seq<int>, run: seq<Step>, a: Agg) {
    Account(rows, Committed(rows, run), SeenDay(rows, run), KnownDay(rows, run), a)
  }

  lemma CommitAccount(rows: seq<int>, ticks: seq<Step>, seen: int, known: int, a: Agg, x: Step, day: int)
    requires (forall y <- ticks :: y.Tick?) && Account(rows, ticks, seen, known, a) && Next(a, x).Some?
    requires x.Tick? && x.outcome != Refused && day == MonotonicDay(x.now) > known
    ensures Account(rows, ticks + [x], Max(seen, day), if x.outcome == Stored then day else known, Next(a, x).value)
  {
    LatestAppend(a.rows, x.now);
    TimesAppend(ticks, x);
    assert rows + Times(ticks + [x]) == a.rows + [x.now];
  }

  lemma QuietAccount(rows: seq<int>, ticks: seq<Step>, seen: int, known: int, a: Agg, x: Step)
    requires (forall y <- ticks :: y.Tick?) && Account(rows, ticks, seen, known, a) && Next(a, x).Some?
    requires x.Tick? && x.outcome != Refused ==> MonotonicDay(x.now) <= known
    ensures Account(rows, ticks, seen, if x.Boot? && !x.lookupFails then seen else known, Next(a, x).value)
  {
  }

  lemma OneMore(rows: seq<int>, run: seq<Step>, x: Step)
    ensures SeenDay(rows, run + [x]) ==
      if x.Tick? && x.outcome != Refused then Max(SeenDay(rows, run), MonotonicDay(x.now)) else SeenDay(rows, run)
    ensures KnownDay(rows, run + [x]) ==
      if x.Boot? && !x.lookupFails then SeenDay(rows, run)
      else if x.Tick? && x.outcome == Stored then Max(KnownDay(rows, run), MonotonicDay(x.now))
      else KnownDay(rows, run)
    ensures Committed(rows, run + [x])
      == Committed(rows, run)
         + (if x.Tick? && x.outcome != Refused && MonotonicDay(x.now) > KnownDay(rows, run) then [x] else [])
  {
    assert (run + [x])[..|run|] == run;
  }

  lemma AccountedStep(rows: seq<int>, run: seq<Step>, a: Agg, x: Step)
    requires Accounted(rows, run, a) && Next(a, x).Some?
    ensures Accounted(rows, run + [x], Next(a, x).value)
  {
    OneMore(rows, run, x);
    var ticks, seen, known := Committed(rows, run), SeenDay(rows, run), KnownDay(rows, run);
    if x.Tick? && x.outcome != Refused && MonotonicDay(x.now) > known {
      CommitAccount(rows, ticks, seen, known, a, x, MonotonicDay(x.now));
    } else {
      assert ticks + [] == ticks;
      QuietAccount(rows, ticks, seen, known, a, x);
    }
  }

  lemma {:induction false} AccountedRun(rows: seq<int>, run: seq<Step>)
    requires Exec(rows, run).Some?
    ensures Accounted(rows, run, Exec(rows, run).value)
  {
    if run == [] {
      assert rows + [] == rows;
    } else {
      var p := run[..|run| - 1];
      AccountedRun(rows, p);
      AccountedStep(rows, p, Exec(rows, p).value, run[|run| - 1]);
      assert run == p + [run[|run| - 1]];
    }
  }

  // ---------------------------------------------------------------------------
  // One row per day

  /** Each row from position `first` on is of a later day than all rows before it, by the aggregator's days ... */
  ghost predicate DaysIncrease(first: nat, rows: seq<int>) {
    forall i, j :: 0 <= i < j < |rows| && first <= j ==> MonotonicDay(rows[i]) < MonotonicDay(rows[j])
  }

  /** ... and by the calendar's. */
  ghost predicate DatesIncrease(first: nat, rows: seq<int>) {
    forall i, j :: 0 <= i < j < |rows| && first <= j ==> CalendarDay(rows[i]) < CalendarDay(rows[j])
  }

  /** A committed insert reported as failed, and a later committed one of its day or an earlier one. */
  predicate DaySlip(x: Step, y: Step) {
    x.Tick? && y.Tick? && x.outcome == Unacknowledged && MonotonicDay(y.now) <= MonotonicDay(x.now)
  }

  /** The same by the calendar. */
  predicate DateSlip(x: Step, y: Step) {
    x.Tick? && y.Tick? && x.outcome == Unacknowledged && CalendarDay(y.now) <= CalendarDay(x.now)
  }

  ghost predicate DaySlips(ticks: seq<Step>) {
    exists i, j :: 0 <= i < j < |ticks| && DaySlip(ticks[i], ticks[j])
  }

  ghost predicate DateSlips(ticks: seq<Step>) {
    exists i, j :: 0 <= i < j < |ticks| && DateSlip(ticks[i], ticks[j])
  }

  /** A row was committed later on the day that a midnight before 1970, of an earlier row, began. */
  ghost predicate RepeatsMidnight(first: nat, times: seq<int>) {
    exists i, j :: 0 <= i < j < |times| && first <= j && AfterMidnight(times[i], times[j])
  }

  /** The memory is never behind a first row or an acknowledged insert. */
  ghost predicate Remembers(rows: seq<int>, ticks: seq<Step>, known: int) {
    && (forall i :: 0 <= i < |rows| ==> MonotonicDay(rows[i]) <= known)
    && forall i :: 0 <= i < |ticks| && ticks[i].Tick? && ticks[i].outcome == Stored
         ==> MonotonicDay(ticks[i].now) <= known
  }

  /** ... so whatever is committed later is of a later day. */
  ghost predicate Acknowledged(rows: seq<int>, ticks: seq<Step>)
    requires forall x <- ticks :: x.Tick?
  {
    && (forall i, j :: 0 <= i < |rows| && 0 <= j < |ticks| ==> MonotonicDay(rows[i]) < MonotonicDay(ticks[j].now))
    && forall i, j :: 0 <= i < j < |ticks| && ticks[i].outcome == Stored
         ==> MonotonicDay(ticks[i].now) < MonotonicDay(ticks[j].now)
  }

  lemma NotLater(rows: seq<int>, i: nat)
    requires i < |rows|
    ensures MonotonicDay(rows[i]) <= MonotonicDay(Latest(rows))
  {
    LatestIsGreatest(rows);
    LaterDay(rows[i], Latest(rows));
  }

  lemma NoneLater(rows: seq<int>)
    ensures forall i :: 0 <= i < |rows| ==> MonotonicDay(rows[i]) <= MonotonicDay(Latest(rows))
  {
    forall i | 0 <= i < |rows| ensures MonotonicDay(rows[i]) <= MonotonicDay(Latest(rows)) { NotLater(rows, i); }
  }

  lemma RemembersMore(rows: seq<int>, ticks: seq<Step>, known: int, x: Step, day: int)
    requires (forall y <- ticks :: y.Tick?) && Remembers(rows, ticks, known) && Acknowledged(rows, ticks)
    requires x.Tick? && day == MonotonicDay(x.now) > known
    ensures Remembers(rows, ticks + [x], if x.outcome == Stored then day else known) && Acknowledged(rows, ticks + [x])
  {
  }

  lemma RemembersLater(rows: seq<int>, ticks: seq<Step>, known: int, known': int)
    requires Remembers(rows, ticks, known) && known <= known'
    ensures Remembers(rows, ticks, known')
  {
  }

  lemma {:induction false} MemoryOfRun(rows: seq<int>, run: seq<Step>)
    ensures KnownDay(rows, run) <= SeenDay(rows, run)
    ensures Remembers(rows, Committed(rows, run), KnownDay(rows, run)) && Acknowledged(rows, Committed(rows, run))
  {
    if run == [] {
      NoneLater(rows);
    } else {
      var p, x := run[..|run| - 1], run[|run| - 1];
      assert run == p + [x];
      MemoryOfRun(rows, p);
      OneMore(rows, p, x);
      var ticks, known := Committed(rows, p), KnownDay(rows, p);
      if x.Tick? && x.outcome != Refused && MonotonicDay(x.now) > known {
        RemembersMore(rows, ticks, known, x, MonotonicDay(x.now));
      } else {
        assert ticks + [] == ticks;
        RemembersLater(rows, ticks, known, KnownDay(rows, run));
      }
    }
  }

  /** Only an unacknowledged insert can be met again. */
  lemma EarlierRow(rows: seq<int>, ticks: seq<Step>, i: nat, j: nat)
    requires (forall x <- ticks :: x.Tick? && x.outcome != Refused) && Acknowledged(rows, ticks)
    requires i < j < |rows| + |ticks| && |rows| <= j
    ensures var all := rows + Times(ticks);
      || MonotonicDay(all[i]) < MonotonicDay(all[j])
      || (i >= |rows| && ticks[i - |rows|].outcome == Unacknowledged)
    ensures var all := rows + Times(ticks);
      all[j] == ticks[j - |rows|].now && all[i] == if i < |rows| then rows[i] else ticks[i - |rows|].now
  {
  }

  lemma DaysIncreaseUnless(rows: seq<int>, ticks: seq<Step>)
    requires (forall x <- ticks :: x.Tick? && x.outcome != Refused) && Acknowledged(rows, ticks)
    ensures DaysIncrease(|rows|, rows + Times(ticks)) <==> !DaySlips(ticks)
  {
    var all := rows + Times(ticks);
    if i, j :| 0 <= i < j < |ticks| && DaySlip(ticks[i], ticks[j]) {
      assert all[|rows| + i] == ticks[i].now && all[|rows| + j] == ticks[j].now;
    } else {
      forall i, j | 0 <= i < j < |all| && |rows| <= j ensures MonotonicDay(all[i]) < MonotonicDay(all[j]) {
        EarlierRow(rows, ticks, i, j);
        assert i >= |rows| ==> !DaySlip(ticks[i - |rows|], ticks[j - |rows|]);
      }
    }
  }

  lemma DatesApart(rows: seq<int>, ticks: seq<Step>, i: nat, j: nat)
    requires (forall x <- ticks :: x.Tick? && x.outcome != Refused) && Acknowledged(rows, ticks)
    requires i < j < |rows| + |ticks| && |rows| <= j
    requires var all := rows + Times(ticks);
      !AfterMidnight(all[i], all[j]) && (i >= |rows| ==> !DateSlip(ticks[i - |rows|], ticks[j - |rows|]))
    ensures var all := rows + Times(ticks); CalendarDay(all[i]) < CalendarDay(all[j])
  {
    var all := rows + Times(ticks);
    EarlierRow(rows, ticks, i, j);
    if MonotonicDay(all[i]) < MonotonicDay(all[j]) { MistakenIff(all[i], all[j]); }
  }

  lemma DatesIncreaseUnless(rows: seq<int>, ticks: seq<Step>)
    requires (forall x <- ticks :: x.Tick? && x.outcome != Refused) && Acknowledged(rows, ticks)
    ensures var meets := DateSlips(ticks) || RepeatsMidnight(|rows|, rows + Times(ticks));
      DatesIncrease(|rows|, rows + Times(ticks)) <==> !meets
  {
    var all := rows + Times(ticks);
    if i, j :| 0 <= i < j < |ticks| && DateSlip(ticks[i], ticks[j]) {
      assert all[|rows| + i] == ticks[i].now && all[|rows| + j] == ticks[j].now;
    } else if i, j :| 0 <= i < j < |all| && |rows| <= j && AfterMidnight(all[i], all[j]) {
      SameDate(all[i], all[j]);
    } else {
      forall i, j | 0 <= i < j < |all| && |rows| <= j ensures CalendarDay(all[i]) < CalendarDay(all[j]) {
        assert i >= |rows| ==> !DateSlip(ticks[i - |rows|], ticks[j - |rows|]);
        DatesApart(rows, ticks, i, j);
      }
    }
  }

  /** Over any run, whatever the clock shows and whatever fails: the store holds its first
      rows and the committed ones; the newest is of the latest day seen; and by the
      aggregator's own days each new row is later than all before it exactly when no
      committed insert was taken for a failure and then followed by another not of a later day. */
  lemma DaysIncreaseIff(rows: seq<int>, run: seq<Step>)
    requires Exec(rows, run).Some?
    ensures var a := Exec(rows, run).value;
      && a.rows == rows + Times(Committed(rows, run))
      && MonotonicDay(Latest(a.rows)) == SeenDay(rows, run)
      && (DaysIncrease(|rows|, a.rows) <==> !DaySlips(Committed(rows, run)))
  {
    AccountedRun(rows, run);
    MemoryOfRun(rows, run);
    DaysIncreaseUnless(rows, Committed(rows, run));
  }

  /** The rows are of different calendar days exactly when no such insert is followed by
      another of its date or an earlier one, and no tick was committed later on the day
      that an earlier row's midnight before 1970 began. */
  lemma CalendarIff(rows: seq<int>, run: seq<Step>)
    requires Exec(rows, run).Some?
    ensures var ticks := Committed(rows, run);
      var meets := DateSlips(ticks) || RepeatsMidnight(|rows|, rows + Times(ticks));
      DatesIncrease(|rows|, Exec(rows, run).value.rows) <==> !meets
  {
    AccountedRun(rows, run);
    MemoryOfRun(rows, run);
    DatesIncreaseUnless(rows, Committed(rows, run));
  }

  /** One row per calendar day: from 1970 on, if the store reports every insert as it was. */
  lemma OneRowPerDay(rows: seq<int>, run: seq<Step>)
    requires Exec(rows, run).Some?
    requires forall t <- rows :: t >= 0
    requires forall x <- run :: x.Tick? ==> x.now >= 0 && x.outcome != Unacknowledged
    ensures DatesIncrease(|rows|, Exec(rows, run).value.rows)
  {
    CommittedFrom(rows, run);
    var ticks := Committed(rows, run);
    forall i | 0 <= i < |ticks| ensures ticks[i].now >= 0 && ticks[i].outcome != Unacknowledged {
      assert ticks[i] in run;
    }
    assert forall i :: 0 <= i < |rows| ==> rows[i] in rows;
    NoMidnights(|rows|, rows + Times(ticks));
    CalendarIff(rows, run);
  }

  lemma NoMidnights(first: nat, times: seq<int>)
    requires forall i :: 0 <= i < |times| ==> times[i] >= 0
    ensures !RepeatsMidnight(first, times)
  {
  }

  lemma {:induction false} CommittedFrom(rows: seq<int>, run: seq<Step>)
    ensures forall x <- Committed(rows, run) :: x in run
  {
    if run != [] {
      CommittedFrom(rows, run[..|run| - 1]);
      assert run == run[..|run| - 1] + [run[|run| - 1]];
    }
  }

  /** On an empty store the first tick is committed exactly for times after the start of year 1. */
  lemma FirstTick(now: int)
    ensures Exec([], [Boot(false), Tick(now, Stored)]).Some?
    ensures Exec([], [Boot(false), Tick(now, Stored)]).value.rows == if now > -62135596800 then [now] else []
  {
    ExecMore([], [], Boot(false));
    assert [] + [Boot(false)] == [Boot(false)];
    ExecMore([], [Boot(false)], Tick(now, Stored));
    assert [Boot(false)] + [Tick(now, Stored)] == [Boot(false), Tick(now, Stored)];
  }

  /** A clock set before 1970 puts two rows into one day. */
  lemma TwoRowsInOneDay() returns (run: seq<Step>)
    ensures Exec([], run).Some?
    ensures var rows := Exec([], run).value.rows; |rows| == 2 && CalendarDay(rows[0]) == CalendarDay(rows[1])
  {
    run := TwoTicks(Tick(-86400, Stored), Tick(1 - 86400, Stored));
  }

  /** So does a store that commits a row and reports an error. */
  lemma UnacknowledgedRepeats() returns (run: seq<Step>)
    ensures Exec([], run).Some? && forall x <- run :: x.Tick? ==> x.now >= 0
    ensures var rows := Exec([], run).value.rows; |rows| == 2 && CalendarDay(rows[0]) == CalendarDay(rows[1])
  {
    run := TwoTicks(Tick(0, Unacknowledged), Tick(60, Stored));
  }

  lemma TwoTicks(x: Step, y: Step) returns (run: seq<Step>)
    requires x.Tick? && y.Tick? && x.outcome != Refused && y.outcome == Stored
    requires MonotonicDay(ZERO_TIME) < MonotonicDay(x.now)
    requires MonotonicDay(if x.outcome == Stored then x.now else ZERO_TIME) < MonotonicDay(y.now)
    ensures run == [Boot(false), x, y] && Exec([], run) == Some(Agg([x.now, y.now], y.now, true))
  {
    var r1 := [Boot(false)];
    var r2 := r1 + [x];
    run := r2 + [y];
    assert r1[..0] == [] && r2[..1] == r1 && run[..2] == r2;
    assert Exec([], r1) == Some(Agg([], ZERO_TIME, true));
    assert [] + [x.now] == [x.now];
    assert Next(Agg([], ZERO_TIME, true), x)
        == Some(Agg([x.now], if x.outcome == Stored then x.now else ZERO_TIME, true));
    assert Exec([], r2) == Next(Exec([], r1).value, x);
    assert Exec([], r2) == Some(Agg([x.now], if x.outcome == Stored then x.now else ZERO_TIME, true));
    assert [x.now] + [y.now] == [x.now, y.now];
  }

  /** One firing of the ticker: when, and what an insert would come to. */
  datatype Firing = Firing(now: int, outcome: Outcome)

  function Ticks(fs: seq<Firing>): seq<Step> {
    seq(|fs|, i requires 0 <= i < |fs| => Tick(fs[i].now, fs[i].outcome))
  }

  lemma TicksMore(run: seq<Step>, fs: seq<Firing>, i: nat)
    requires i < |fs|
    ensures run + Ticks(fs[..i + 1]) == run + Ticks(fs[..i]) + [Tick(fs[i].now, fs[i].outcome)]
  {
    assert Ticks(fs[..i + 1]) == Ticks(fs[..i]) + [Tick(fs[i].now, fs[i].outcome)];
  }

  lemma ExecMore(rows: seq<int>, run: seq<Step>, x: Step)
    requires Exec(rows, run).Some?
    ensures Exec(rows, run + [x]) == Next(Exec(rows, run).value, x)
  {
    assert (run + [x])[..|run|] == run;
  }

  /** Run, from its first lookup until it is stopped after the given firings. */
  method Run(rows: seq<int>, ghost before: seq<Step>, ghost rows0: seq<int>, lookupFails: bool, firings: seq<Firing>)
    returns (rows': seq<int>, failed: bool)
    requires Exec(rows0, before).Some? && !Exec(rows0, before).value.up && Exec(rows0, before).value.rows == rows
    ensures failed == lookupFails
    ensures var run := before + [Boot(lookupFails)] + (if failed then [] else Ticks(firings));
      Exec(rows0, run).Some? && Exec(rows0, run).value.rows == rows'
  {
    rows', failed := rows, lookupFails;
    ghost var run := before + [Boot(lookupFails)];
    ExecMore(rows0, before, Boot(lookupFails));
    if lookupFails {
      assert run + [] == run;
      return;
    }
    var lastRan := Latest(rows);
    for i := 0 to |firings|
      invariant run == before + [Boot(lookupFails)] + Ticks(firings[..i])
      invariant Exec(rows0, run) == Some(Agg(rows', lastRan, true))
    {
      var now := firings[i].now;
      ExecMore(rows0, run, Tick(now, firings[i].outcome));
      TicksMore(before + [Boot(lookupFails)], firings, i);
      run := run + [Tick(now, firings[i].outcome)];
      if MonotonicDay(now) > MonotonicDay(lastRan) {
        if firings[i].outcome != Refused {
          rows' := rows' + [now];
        }
        if firings[i].outcome != Stored {
          continue;
        }
        lastRan := now;
      }
    }
    assert firings[..|firings|] == firings;
  }
}
