/** Consequences of delivery: nothing is lost unaccounted, a broadcast ends by
    itself, and a late joiner misses nothing that is still in the replay buffer. */
module Guarantees {
  import opened Model
  import opened Frames
  import opened EventBuffer
  import opened Fanout
  import opened Delivery

  // ---------------------------------------------------------------------------
  // accepted = delivered + dropped

  ghost function Timeouts(run: seq<Step>, h: nat): nat {
    if run == [] then 0 else Timeouts(Drop(run), h) + (if TimesOut(Drop(run), Final(run), h) then 1 else 0)
  }

  function CountFalse(m: seq<bool>): nat {
    if m == [] then 0 else CountFalse(m[..|m| - 1]) + (if m[|m| - 1] then 0 else 1)
  }

  lemma {:induction false} SelectSize<T>(s: seq<T>, m: seq<bool>)
    requires |s| == |m|
    ensures |Select(s, m)| + CountFalse(m) == |s|
  {
    if s != [] { SelectSize(s[..|s| - 1], m[..|m| - 1]); }
  }

  lemma CountAfter(run: seq<Step>, x: Step, h: nat)
    requires TimesOut(run, x, h) ==> Kept(run, h) != [] && Kept(run, h)[|Kept(run, h)| - 1]
    ensures CountFalse(Kept(run + [x], h)) == CountFalse(Kept(run, h)) + (if TimesOut(run, x, h) then 1 else 0)
    ensures Timeouts(run + [x], h) == Timeouts(run, h) + (if TimesOut(run, x, h) then 1 else 0)
  {
    Extended(run, x);
    var m := Kept(run, h);
    if x.Begin? && Wants(run, h, x.e) {
      assert (m + [true])[..|m|] == m;
    } else if TimesOut(run, x, h) {
      assert m[|m| - 1 := false][..|m| - 1] == m[..|m| - 1];
    }
  }

  lemma {:induction false} TimeoutsCounted(run: seq<Step>, h: nat)
    requires Exec(run).Some? && !Exec(run).value.panicked && Keeps(run, h)
    ensures CountFalse(Kept(run, h)) == Timeouts(run, h)
  {
    if run != [] {
      var p, x := Drop(run), Final(run);
      assert run == p + [x];
      TimeoutsCounted(p, h);
      if TimesOut(p, x, h) {
        var s := Exec(p).value;
        Invariant(p, h);
        TimesOutHolds(s, p, x, h);
        TimeoutSettles(s, x, h);
      }
      CountAfter(p, x, h);
    }
  }

  /** Conservation: at rest, every event the client's filter accepted has been
      sent to it or is one of the timed-out retries counted in the run. */
  lemma Conservation(run: seq<Step>, h: nat)
    requires Exec(run).Some? && Exec(run).value.phase.Idle? && !Exec(run).value.panicked
    requires Keeps(run, h) && h < |Filters(run)|
    ensures h < |Exec(run).value.chans|
    ensures |Sent(Exec(run).value, h)| == |Snapshot(run, h)| + |Accepted(run, h)| - Timeouts(run, h)
  {
    DeliveryTheorem(run, h);
    SelectSize(Accepted(run, h), Kept(run, h));
    TimeoutsCounted(run, h);
  }

  // ---------------------------------------------------------------------------
  // Attempts within one broadcast

  predicate About(x: Step, id: nat) {
    match x
    case Skip(i) => i == id
    case Send(i) => i == id
    case Block(i) => i == id
    case RetrySend(i) => i == id
    case RetryTimeout(i) => i == id
    case _ => false
  }

  /** What the latest broadcast did about client id. */
  function Attempts(run: seq<Step>, id: nat): seq<Step> {
    if run == [] || Final(run).Begin? then []
    else Attempts(Drop(run), id) + (if About(Final(run), id) then [Final(run)] else [])
  }

  ghost predicate Waiting(s: Sys, id: nat) {
    match s.phase
    case Idle => false
    case Sending(_, _, todo, blocked) => id in blocked
    case Retrying(_, _, pending, _) => id in pending
  }

  ghost predicate Untouched(s: Sys, id: nat) {
    s.phase.Sending? && id in s.phase.todo
  }

  /** At most two attempts: a retry follows only a first attempt that met a full queue. */
  ghost predicate Settled(a: seq<Step>, id: nat) {
    || a == [] || a == [Skip(id)] || a == [Send(id)]
    || a == [Block(id), RetrySend(id)] || a == [Block(id), RetryTimeout(id)]
  }

  ghost predicate Accounted(s: Sys, a: seq<Step>, id: nat) {
    if Untouched(s, id) then a == [] else if Waiting(s, id) then a == [Block(id)] else Settled(a, id)
  }

  lemma AttemptStep(s: Sys, x: Step, a: seq<Step>, id: nat)
    requires PhaseOk(s) && Next(s, x).Some? && Accounted(s, a, id) && !x.Begin?
    ensures Accounted(Next(s, x).value, a + (if About(x, id) then [x] else []), id)
  {
    assert a + [] == a;
    if x.RetrySend? || x.RetryTimeout? {
      assert s.phase.pending == [s.phase.pending[0]] + s.phase.pending[1..];
    }
  }

  lemma {:induction false} AttemptsTheorem(run: seq<Step>, id: nat)
    requires Exec(run).Some? && !Exec(run).value.panicked
    ensures Accounted(Exec(run).value, Attempts(run, id), id)
  {
    if run != [] {
      var p, x := Drop(run), Final(run);
      Safety(p);
      AttemptsTheorem(p, id);
      if !x.Begin? { AttemptStep(Exec(p).value, x, Attempts(p, id), id); }
    }
  }

  // ---------------------------------------------------------------------------
  // A broadcast needs no client's help to end

  function Work(s: Sys): nat {
    match s.phase
    case Idle => 0
    case Sending(_, _, todo, blocked) => 2 * |todo| + |blocked| + 2
    case Retrying(_, _, pending, _) => |pending| + 1
  }

  /** Every step of the broadcasting goroutine brings the end nearer, and clients taking frames never delays it. */
  lemma WorkShrinks(s: Sys, x: Step)
    requires Next(s, x).Some? && !s.phase.Idle?
    ensures if x.Receive? then Work(Next(s, x).value) == Work(s) else Work(Next(s, x).value) < Work(s)
  {
  }

  /** Until it has ended, the goroutine can take a step whatever the clients do. */
  lemma NeverStuck(run: seq<Step>) returns (x: Step)
    requires Exec(run).Some? && !Exec(run).value.panicked && !Exec(run).value.phase.Idle?
    ensures !x.Receive? && Next(Exec(run).value, x).Some?
  {
    Safety(run);
    var s := Exec(run).value;
    match s.phase
    case Sending(e, _, todo, _) =>
      if todo == {} {
        x := EndSending;
      } else {
        var id :| id in todo;
        x := if !s.clients[id].filter(e) then Skip(id)
             else if HasRoom(s, s.clients[id].ch) then Send(id)
             else Block(id);
      }
    case Retrying(_, _, pending, _) =>
      x := if pending == [] then EndRetrying else RetryTimeout(pending[0]);
  }

  // ---------------------------------------------------------------------------
  // The mutex

  /** A broadcast has begun and not ended. */
  predicate Broadcasting(run: seq<Step>) {
    run != [] && (Final(run).Begin? || (Broadcasting(Drop(run)) && !Final(run).EndRetrying?))
  }

  lemma PhaseStep(s: Sys, x: Step)
    requires Next(s, x).Some?
    ensures Next(s, x).value.phase.Idle? <==> !x.Begin? && (s.phase.Idle? || x.EndRetrying?)
  {
  }

  lemma {:induction false} PhaseIff(run: seq<Step>)
    requires Exec(run).Some?
    ensures Exec(run).value.phase.Idle? <==> !Broadcasting(run)
  {
    if run != [] {
      PhaseIff(Drop(run));
      PhaseStep(Exec(Drop(run)).value, Final(run));
    }
  }

  /** Nobody subscribes, unsubscribes or begins another broadcast before it has ended. */
  lemma {:induction false} Locked(run: seq<Step>, k: nat)
    requires Exec(run).Some? && k < |run| && Broadcasting(run[..k])
    ensures !run[k].Subscribe? && !run[k].Unsubscribe? && !run[k].Begin?
  {
    var p := Drop(run);
    if k < |p| {
      assert p[..k] == run[..k];
      Locked(p, k);
    } else {
      PhaseIff(p);
    }
  }

  // ---------------------------------------------------------------------------
  // Late join

  lemma {:induction false} EmittedHas(r: Ring, k: nat, n: nat)
    requires InBounds(r) && 0 < k <= n <= |r.head| && r.head[Turn(r.headIndex + k, |r.head|)].data != ""
    ensures r.head[Turn(r.headIndex + k, |r.head|)].data in Emitted(r, n)
    decreases n
  {
    if k < n { EmittedHas(r, k, n - 1); }
  }

  lemma ReplayHas(r: Ring, i: nat)
    requires InBounds(r) && i < |r.head| && Occupied(r.head[i])
    ensures r.head[i].data in Replay(r)
  {
    var k := if i > r.headIndex then i - r.headIndex else i + |r.head| - r.headIndex;
    EmittedHas(r, k, |r.head|);
  }

  function Prefills(run: seq<Step>): seq<bool> {
    if run == [] then []
    else Prefills(Drop(run)) + (if Final(run).Subscribe? then [Final(run).prefill] else [])
  }

  lemma {:induction false} PrefillsMatch(run: seq<Step>)
    ensures |Prefills(run)| == |Filters(run)|
  {
    if run != [] { PrefillsMatch(Drop(run)); }
  }

  /** Slot i holds the replay form, and its map entry the state, of the broadcast at position p,
      whose live frame client h's filter accepted. */
  ghost predicate FromLive(run: seq<Step>, h: nat, r: Ring, i: nat, p: nat) {
    && i < |r.head| && p < |run| && run[p].Begin?
    && var e, frame := run[p].e, WriteEvent(run[p].e, run[p].row);
    && Wants(run[..p], h, e)
    && r.head[i] == Slot(e.txID, Replayed(e, frame))
    && (e.txID in r.headMap && r.headMap[e.txID].index == i ==> r.headMap[e.txID].state == e.state)
  }

  /** The ring that client h found when it subscribed. */
  function Found(run: seq<Step>, h: nat): (r: Ring)
    ensures InBounds(r) && |r.head| == BUFFER_SIZE
  {
    if run == [] then New(BUFFER_SIZE)
    else if Final(run).Subscribe? && |Filters(Drop(run))| == h then Head(Drop(run))
    else Found(Drop(run), h)
  }

  /** Slot i, with its transaction and its map entry, is as client h found it, and its frame is in the snapshot. */
  ghost predicate FromSnapshot(run: seq<Step>, h: nat, r: Ring, i: nat) {
    var q := Found(run, h);
    && i < |r.head| == |q.head| && r.head[i] == q.head[i] && r.head[i].data in Snapshot(run, h)
    && var t := r.head[i].txID;
       t in r.headMap && r.headMap[t].index == i ==> t in q.headMap && q.headMap[t] == r.headMap[t]
  }

  ghost predicate Covered(run: seq<Step>, h: nat, r: Ring, i: nat) {
    FromSnapshot(run, h, r, i) || exists p: nat :: FromLive(run, h, r, i, p)
  }

  ghost predicate AcceptsAll(f: Filter) {
    forall e :: f(e)
  }

  ghost predicate LateJoiner(run: seq<Step>, h: nat) {
    Subscribed(run, h) && |Prefills(run)| == |Filters(run)| && Prefills(run)[h] && AcceptsAll(Filters(run)[h])
  }

  lemma CoveredLater(run: seq<Step>, x: Step, h: nat, r: Ring, r': Ring, i: nat)
    requires i < |r.head| == |r'.head| && r.head[i] == r'.head[i] && Covered(run, h, r, i)
    requires r.head[i].txID in r'.headMap && r'.headMap[r.head[i].txID].index == i
      ==> r.head[i].txID in r.headMap && r.headMap[r.head[i].txID] == r'.headMap[r.head[i].txID]
    requires h < |Filters(run)|
    ensures Covered(run + [x], h, r', i)
  {
    Extended(run, x);
    assert Snapshot(run + [x], h) == Snapshot(run, h) && Found(run + [x], h) == Found(run, h);
    if FromSnapshot(run, h, r, i) {
      assert FromSnapshot(run + [x], h, r', i);
    } else {
      var p: nat :| FromLive(run, h, r, i, p);
      assert (run + [x])[..p] == run[..p];
      assert FromLive(run + [x], h, r', i, p);
    }
  }

  lemma CoveredBegin(run: seq<Step>, x: Step, h: nat, i: nat)
    requires x.Begin? && Subscribed(run, h) && Filters(run)[h](x.e) && i < BUFFER_SIZE
    requires Occupied(Head(run).head[i]) ==> Covered(run, h, Head(run), i)
    requires Occupied(Head(run + [x]).head[i])
    ensures Covered(run + [x], h, Head(run + [x]), i)
  {
    Extended(run, x);
    var r, r' := Head(run), Head(run + [x]);
    var frame := WriteEvent(x.e, x.row);
    var y := EntryOf(x.e, frame);
    assert r' == Store(r, y);
    var w := if y.txID in r.headMap then r.headMap[y.txID].index else r.headIndex;
    if i == w && !(y.txID in r.headMap && y.state < r.headMap[y.txID].state) {
      assert (run + [x])[|run|] == x && (run + [x])[..|run|] == run;
      assert FromLive(run + [x], h, r', i, |run|);
    } else {
      CoveredLater(run, x, h, r, r', i);
    }
  }

  lemma {:induction false} AllCovered(run: seq<Step>, h: nat)
    requires LateJoiner(run, h)
    ensures forall i: nat :: i < BUFFER_SIZE && Occupied(Head(run).head[i]) ==> Covered(run, h, Head(run), i)
  {
    var p, x := Drop(run), Final(run);
    assert run == p + [x];
    Extended(p, x);
    PrefillsMatch(p);
    forall i: nat | i < BUFFER_SIZE && Occupied(Head(run).head[i]) ensures Covered(run, h, Head(run), i) {
      if h < |Filters(p)| {
        assert LateJoiner(p, h);
        AllCovered(p, h);
        if x.Begin? { CoveredBegin(p, x, h, i); } else { CoveredLater(p, x, h, Head(p), Head(run), i); }
      } else {
        ReplayHas(Head(p), i);
        assert FromSnapshot(run, h, Head(run), i);
      }
    }
  }

  lemma {:induction false} AcceptedHas(run: seq<Step>, h: nat, p: nat)
    requires p < |run| && run[p].Begin? && Wants(run[..p], h, run[p].e)
    ensures WriteEvent(run[p].e, run[p].row) in Accepted(run, h)
  {
    if p == |run| - 1 {
      assert run[..p] == Drop(run);
    } else {
      assert Drop(run)[..p] == run[..p];
      AcceptedHas(Drop(run), h, p);
    }
  }

  lemma {:induction false} NothingDropped(run: seq<Step>, h: nat)
    requires Timeouts(run, h) == 0
    ensures Select(Accepted(run, h), Kept(run, h)) == Accepted(run, h)
  {
    if run != [] {
      var p, x := Drop(run), Final(run);
      assert run == p + [x];
      NothingDropped(p, h);
      assert Accepted(p, h) + [] == Accepted(p, h);
      if x.Begin? && Wants(p, h, x.e) {
        SelectKeep(Accepted(p, h), Kept(p, h), WriteEvent(x.e, x.row), true);
      }
    }
  }

  /** The subscription at position q of the run asks for everything, replay included, and lasts. */
  ghost predicate JoinsAt(run: seq<Step>, q: nat) {
    && q < |run| && run[q].Subscribe? && run[q].prefill && (forall e :: run[q].filter(e))
    && Unsubscribe(|Filters(run[..q])|) !in run
  }

  lemma {:induction false} JoinerOf(run: seq<Step>, q: nat)
    requires q < |run| && run[q].Subscribe?
    ensures var h := |Filters(run[..q])|;
      && h < |Filters(run)| == |Prefills(run)| && Filters(run)[h] == run[q].filter && Prefills(run)[h] == run[q].prefill
  {
    PrefillsMatch(run);
    PrefillsMatch(Drop(run));
    if q < |run| - 1 {
      JoinerOf(Drop(run), q);
      assert Drop(run)[..q] == run[..q];
    } else {
      assert Drop(run) == run[..q];
    }
  }

  /** Whenever no broadcast is under way, everything the replay buffer holds has
      reached every prefilled client that takes all events and has dropped none: in its
      snapshot, and then slot, transaction and state are still as it found them; or live as
      the very broadcast (transaction, state and row) the slot was last written by. */
  lemma LateJoinTheorem(run: seq<Step>, q: nat, h: nat, i: nat)
    requires Exec(run).Some? && Exec(run).value.phase.Idle? && !Exec(run).value.panicked
    requires JoinsAt(run, q) && h == |Filters(run[..q])| && Keeps(run, h) && Timeouts(run, h) == 0
    requires i < |Exec(run).value.head.head| && Occupied(Exec(run).value.head.head[i])
    ensures var s := Exec(run).value;
      && h < |s.chans| && s.head == Head(run)
      && Snapshot(run, h) == Replay(Found(run, h)) <= Sent(s, h)
      && (FromSnapshot(run, h, s.head, i)
          || exists p: nat :: FromLive(run, h, s.head, i, p) && WriteEvent(run[p].e, run[p].row) in Sent(s, h))
  {
    JoinerOf(run, q);
    Safety(run);
    AllCovered(run, h);
    DeliveryTheorem(run, h);
    NothingDropped(run, h);
    SnapshotFound(run, h);
    if !FromSnapshot(run, h, Head(run), i) {
      var p: nat :| FromLive(run, h, Head(run), i, p);
      AcceptedHas(run, h, p);
    }
  }

  lemma {:induction false} SnapshotFound(run: seq<Step>, h: nat)
    requires h < |Filters(run)| && |Prefills(run)| == |Filters(run)| && Prefills(run)[h]
    ensures Snapshot(run, h) == Replay(Found(run, h))
  {
    PrefillsMatch(Drop(run));
    if h < |Filters(Drop(run))| { SnapshotFound(Drop(run), h); }
  }
}
