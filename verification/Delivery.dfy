/** What each client of the fan-out receives, over every run. */
module Delivery {
  import opened Model
  import opened Frames
  import opened EventBuffer
  import opened Fanout

  ghost function Given(run: seq<Step>, h: nat): seq<string> {
    Snapshot(run, h) + Select(Accepted(run, h), Kept(run, h))
  }

  /** The last accepted event is the one being broadcast, and nothing has been decided about it. */
  ghost predicate Undecided(s: Sys, run: seq<Step>, h: nat) {
    var a, k := Accepted(run, h), Kept(run, h);
    && !s.phase.Idle? && a != [] && a[|a| - 1] == s.phase.data && k[|k| - 1]
  }

  ghost predicate Balanced(s: Sys, run: seq<Step>, h: nat)
    requires h < |s.chans|
  {
    if Owes(s, h) then Undecided(s, run, h) && Sent(s, h) + [s.phase.data] == Given(run, h)
    else Sent(s, h) == Given(run, h)
  }

  /** If channel h is open, it is in the table under the id it was given. */
  predicate Reachable(s: Sys, h: nat)
    requires h < |s.chans|
  {
    !s.chans[h].closed ==> Holds(s, s.chans[h].id, h)
  }

  /** The table sends what is meant for client id to channel h. */
  predicate Holds(s: Sys, id: nat, h: nat) {
    id in s.clients && s.clients[id].ch == h
  }

  lemma JoinLast<T>(a: seq<T>, b: seq<T>, x: T)
    ensures a + (b + [x]) == (a + b) + [x]
  {
  }

  lemma SelectKeep<T>(a: seq<T>, m: seq<bool>, x: T, b: bool)
    requires |a| == |m|
    ensures Select(a + [x], m + [b]) == Select(a, m) + (if b then [x] else [])
  {
    assert (a + [x])[..|a|] == a && (m + [b])[..|m|] == m;
  }

  lemma SelectForget<T>(a: seq<T>, m: seq<bool>)
    requires |a| == |m| > 0 && m[|m| - 1]
    ensures Select(a, m) == Select(a, m[|m| - 1 := false]) + [a[|a| - 1]]
  {
    assert m[|m| - 1 := false][..|m| - 1] == m[..|m| - 1];
  }

  lemma {:induction false} NothingYet(run: seq<Step>, h: nat)
    requires h >= |Filters(run)|
    ensures Accepted(run, h) == []
  {
    if run != [] { NothingYet(Drop(run), h); }
  }

  /** The retry to client h timed out. */
  ghost predicate TimesOut(run: seq<Step>, x: Step, h: nat) {
    Subscribed(run, h) && x == RetryTimeout(IdOf(h))
  }

  /** Requests and timeouts are all that the reference definitions depend on. */
  lemma SameGiven(run: seq<Step>, x: Step, h: nat)
    requires h < |Filters(run)| && !x.Begin? && !TimesOut(run, x, h)
    ensures Accepted(run + [x], h) == Accepted(run, h) && Kept(run + [x], h) == Kept(run, h)
    ensures Snapshot(run + [x], h) == Snapshot(run, h) && Given(run + [x], h) == Given(run, h)
  {
    Extended(run, x);
  }

  /** A step that leaves the client's frames and the broadcast's debt to it alone keeps the balance. */
  lemma BalancedSame(s: Sys, run: seq<Step>, x: Step, s': Sys, h: nat)
    requires h < |s.chans| && h < |s'.chans| && h < |Filters(run)| && Balanced(s, run, h)
    requires !x.Begin? && !TimesOut(run, x, h)
    requires Owes(s', h) == Owes(s, h) && Sent(s', h) == Sent(s, h)
    requires Owes(s, h) ==> !s'.phase.Idle? && s'.phase.data == s.phase.data
    ensures Balanced(s', run + [x], h)
  {
    SameGiven(run, x, h);
  }

  /** A broadcast adds its frame to what is given to those who want it. */
  lemma BeginGiven(run: seq<Step>, x: Step, h: nat)
    requires x.Begin?
    ensures var data := WriteEvent(x.e, x.row);
      if Wants(run, h, x.e) then
        Accepted(run + [x], h) == Accepted(run, h) + [data] && Kept(run + [x], h) == Kept(run, h) + [true]
        && Given(run + [x], h) == Given(run, h) + [data]
      else
        Accepted(run + [x], h) == Accepted(run, h) && Kept(run + [x], h) == Kept(run, h)
        && Given(run + [x], h) == Given(run, h)
  {
    var a, k, data := Accepted(run, h), Kept(run, h), WriteEvent(x.e, x.row);
    Extended(run, x);
    assert Snapshot(run + [x], h) == Snapshot(run, h);
    if Wants(run, h, x.e) {
      SelectKeep(a, k, data, true);
      JoinLast(Snapshot(run, h), Select(a, k), data);
    } else {
      assert a + [] == a;
    }
  }

  lemma BalancedBegin(s: Sys, run: seq<Step>, x: Step, h: nat)
    requires Safe(s, run) && Next(s, x).Some? && x.Begin?
    requires h < |s.chans| && Reachable(s, h) && Balanced(s, run, h)
    ensures Balanced(Next(s, x).value, run + [x], h)
  {
    WantsIsOwed(s, run, x, h);
    BeginGiven(run, x, h);
    assert !Owes(s, h) && Sent(Next(s, x).value, h) == Sent(s, h);
  }

  lemma WantsIsOwed(s: Sys, run: seq<Step>, x: Step, h: nat)
    requires Safe(s, run) && Next(s, x).Some? && x.Begin? && h < |s.chans| && Reachable(s, h)
    ensures Owes(Next(s, x).value, h) <==> Wants(run, h, x.e)
  {
    assert Unsubscribe(h) in run <==> s.chans[h].closed;
  }

  lemma SendPays(s: Sys, x: Step, h: nat)
    requires TableOk(s) && PhaseOk(s) && Next(s, x).Some? && (x.Send? || x.RetrySend?)
    requires h < |s.chans|
    ensures |Next(s, x).value.chans| == |s.chans|
    ensures if Holds(s, x.id, h) then
        Owes(s, h) && !Owes(Next(s, x).value, h) && Sent(Next(s, x).value, h) == Sent(s, h) + [s.phase.data]
      else
        Owes(Next(s, x).value, h) == Owes(s, h) && Sent(Next(s, x).value, h) == Sent(s, h)
    ensures !s.phase.Idle? && !Next(s, x).value.phase.Idle? && Next(s, x).value.phase.data == s.phase.data
  {
    var s' := Next(s, x).value;
    if x.RetrySend? { assert s.phase.pending == [s.phase.pending[0]] + s.phase.pending[1..]; }
    var c := s.clients[x.id].ch;
    assert s' == Put(s, c, s.phase.data).(phase := s'.phase);
    if c == h {
      assert Sent(s', h) == Sent(s, h) + [s.phase.data];
    }
  }

  lemma BalancedSend(s: Sys, run: seq<Step>, x: Step, h: nat)
    requires TableOk(s) && PhaseOk(s) && Next(s, x).Some? && (x.Send? || x.RetrySend?)
    requires h < |s.chans| == |Filters(run)| && Balanced(s, run, h)
    ensures |Next(s, x).value.chans| == |s.chans| && Balanced(Next(s, x).value, run + [x], h)
  {
    SendPays(s, x, h);
    SendSettles(s, run, x, Next(s, x).value, h);
  }

  lemma SendSettles(s: Sys, run: seq<Step>, x: Step, s': Sys, h: nat)
    requires h < |s.chans| == |s'.chans| == |Filters(run)| && Balanced(s, run, h) && (x.Send? || x.RetrySend?)
    requires !s.phase.Idle? && !s'.phase.Idle? && s'.phase.data == s.phase.data
    requires if Owes(s', h) then Owes(s, h) && Sent(s', h) == Sent(s, h)
             else Sent(s', h) == Sent(s, h) + (if Owes(s, h) then [s.phase.data] else [])
    ensures Balanced(s', run + [x], h)
  {
    SameGiven(run, x, h);
    Settles(s, run, x, s', h);
  }

  /** Paying the debt keeps the balance, and so does leaving it alone. */
  lemma Settles(s: Sys, run: seq<Step>, x: Step, s': Sys, h: nat)
    requires h < |s.chans| == |s'.chans| && Balanced(s, run, h) && Given(run + [x], h) == Given(run, h)
    requires Accepted(run + [x], h) == Accepted(run, h) && Kept(run + [x], h) == Kept(run, h)
    requires !s.phase.Idle? && !s'.phase.Idle? && s'.phase.data == s.phase.data
    requires if Owes(s', h) then Owes(s, h) && Sent(s', h) == Sent(s, h)
             else Sent(s', h) == Sent(s, h) + (if Owes(s, h) then [s.phase.data] else [])
    ensures Balanced(s', run + [x], h)
  {
  }

  lemma TimeoutForgets(run: seq<Step>, x: Step, h: nat)
    requires Accepted(run, h) != [] && TimesOut(run, x, h)
    ensures Accepted(run + [x], h) == Accepted(run, h)
    ensures Kept(run + [x], h) == Kept(run, h)[|Kept(run, h)| - 1 := false]
    ensures Snapshot(run + [x], h) == Snapshot(run, h)
  {
    Extended(run, x);
    assert Accepted(run, h) + [] == Accepted(run, h);
  }

  lemma ForgetLast<T>(p: seq<T>, a: seq<T>, m: seq<bool>)
    requires |a| == |m| > 0 && m[|m| - 1]
    ensures p + Select(a, m) == p + Select(a, m[|m| - 1 := false]) + [a[|a| - 1]]
  {
    SelectForget(a, m);
    JoinLast(p, Select(a, m[|m| - 1 := false]), a[|a| - 1]);
  }

  lemma GivenOf(run: seq<Step>, h: nat, p: seq<string>, a: seq<string>, m: seq<bool>)
    requires Snapshot(run, h) == p && Accepted(run, h) == a && Kept(run, h) == m
    ensures |a| == |m| && Given(run, h) == p + Select(a, m)
  {
  }

  /** A timed-out retry takes the last accepted event back out of what is given. */
  lemma TimeoutGiven(run: seq<Step>, x: Step, h: nat)
    requires Accepted(run, h) != [] && Kept(run, h)[|Kept(run, h)| - 1] && TimesOut(run, x, h)
    ensures Given(run, h) == Given(run + [x], h) + [Accepted(run, h)[|Accepted(run, h)| - 1]]
  {
    var p, a, k := Snapshot(run, h), Accepted(run, h), Kept(run, h);
    TimeoutForgets(run, x, h);
    GivenOf(run, h, p, a, k);
    GivenOf(run + [x], h, p, a, k[|k| - 1 := false]);
    ForgetLast(p, a, k);
  }

  lemma TimeoutSettles(s: Sys, x: Step, h: nat)
    requires TableOk(s) && PhaseOk(s) && x.RetryTimeout? && Next(s, x).Some? && h < |s.chans| && Holds(s, x.id, h)
    ensures var s' := Next(s, x).value;
      |s'.chans| == |s.chans| && Owes(s, h) && !Owes(s', h) && Sent(s', h) == Sent(s, h)
  {
    assert s.phase.pending == [s.phase.pending[0]] + s.phase.pending[1..];
  }

  /** In a reachable state the client a timeout concerns is the one the table names. */
  lemma TimesOutHolds(s: Sys, run: seq<Step>, x: Step, h: nat)
    requires Safe(s, run) && h < |s.chans| && Reachable(s, h) && x.RetryTimeout?
    ensures TimesOut(run, x, h) <==> Holds(s, x.id, h)
  {
    assert s.chans[h].id == IdOf(h);
    assert Unsubscribe(h) in run <==> s.chans[h].closed;
  }

  lemma BalancedTimeout(s: Sys, run: seq<Step>, x: Step, h: nat)
    requires TableOk(s) && PhaseOk(s) && x.RetryTimeout? && Next(s, x).Some? && h < |s.chans|
    requires Holds(s, x.id, h) && TimesOut(run, x, h) && Balanced(s, run, h)
    ensures var s' := Next(s, x).value;
      |s'.chans| == |s.chans| && Balanced(s', run + [x], h)
  {
    TimeoutSettles(s, x, h);
    TimeoutGiven(run, x, h);
    var before, after := Sent(s, h), Given(run + [x], h);
    assert before == (before + [s.phase.data])[..|before|];
    assert after == (after + [s.phase.data])[..|after|];
  }

  /** The remaining steps neither send nor settle anything for client h. */
  lemma QuietStep(s: Sys, x: Step, h: nat)
    requires TableOk(s) && PhaseOk(s) && Next(s, x).Some? && !Next(s, x).value.panicked
    requires !Next(s, x).value.stuck && h < |s.chans|
    requires !x.Begin? && !x.Send? && !x.RetrySend? && (x.RetryTimeout? ==> !Holds(s, x.id, h))
    ensures var s' := Next(s, x).value;
      && |s.chans| <= |s'.chans| && Owes(s', h) == Owes(s, h) && Sent(s', h) == Sent(s, h)
      && (Owes(s, h) ==> !s'.phase.Idle? && s'.phase.data == s.phase.data)
  {
    if x.RetryTimeout? { assert s.phase.pending == [s.phase.pending[0]] + s.phase.pending[1..]; }
  }

  lemma BalancedStep(s: Sys, run: seq<Step>, x: Step, h: nat)
    requires Safe(s, run) && h < |s.chans| && Reachable(s, h) && Next(s, x).Some?
    requires !Next(s, x).value.panicked && !Next(s, x).value.stuck
    requires Balanced(s, run, h)
    ensures h < |Next(s, x).value.chans| && Balanced(Next(s, x).value, run + [x], h)
  {
    if x.Begin? {
      BalancedBegin(s, run, x, h);
    } else if x.Send? || x.RetrySend? {
      BalancedSend(s, run, x, h);
    } else {
      BalancedElse(s, run, x, h);
    }
  }

  lemma BalancedElse(s: Sys, run: seq<Step>, x: Step, h: nat)
    requires Safe(s, run) && h < |s.chans| && Reachable(s, h) && Next(s, x).Some?
    requires !Next(s, x).value.panicked && !Next(s, x).value.stuck
    requires !x.Begin? && !x.Send? && !x.RetrySend?
    requires Balanced(s, run, h)
    ensures h < |Next(s, x).value.chans| && Balanced(Next(s, x).value, run + [x], h)
  {
    if x.RetryTimeout? { TimesOutHolds(s, run, x, h); }
    if TimesOut(run, x, h) {
      BalancedTimeout(s, run, x, h);
    } else {
      QuietStep(s, x, h);
      BalancedSame(s, run, x, Next(s, x).value, h);
    }
  }

  lemma BalancedNew(s: Sys, run: seq<Step>, x: Step)
    requires Safe(s, run) && Next(s, x).Some? && x.Subscribe?
    ensures |Next(s, x).value.chans| == |s.chans| + 1 && Balanced(Next(s, x).value, run + [x], |s.chans|)
  {
    Extended(run, x);
    ReplayFits(s.head);
    NothingYet(run, |s.chans|);
  }

  /** A reachable client that stays subscribed stays reachable exactly when the step does not take it out. */
  lemma ReachableStep(s: Sys, run: seq<Step>, x: Step, h: nat)
    requires Safe(s, run) && h < |s.chans| && Reachable(s, h) && Next(s, x).Some? && !Next(s, x).value.panicked
    ensures h < |Next(s, x).value.chans|
    ensures Reachable(Next(s, x).value, h) <==> (Subscribed(run, h) ==> !Takes(run, x, h))
  {
    assert Unsubscribe(h) in run <==> s.chans[h].closed;
    assert s.chans[h].id == IdOf(h);
    ReplayFits(s.head);
    if x.Unsubscribe? { assert s.chans[x.h].id == IdOf(x.h); }
  }

  /** Reachable after every step since its subscription. */
  ghost predicate StaysReachable(run: seq<Step>, h: nat) {
    && Exec(run).Some? && (h < |Exec(run).value.chans| ==> Reachable(Exec(run).value, h))
    && (run != [] ==> StaysReachable(Drop(run), h))
  }

  /** A client stays in the table until it unsubscribes exactly when no step takes it out. */
  lemma {:induction false} ReachableIff(run: seq<Step>, h: nat)
    requires Exec(run).Some? && !Exec(run).value.panicked
    ensures StaysReachable(run, h) <==> Keeps(run, h)
  {
    if run != [] {
      var p, x := Drop(run), Final(run);
      ReachableIff(p, h);
      Safety(p);
      Safety(run);
      var s := Exec(p).value;
      if h < |s.chans| && Reachable(s, h) {
        ReachableStep(s, p, x, h);
      } else if h >= |s.chans| && h < |Exec(run).value.chans| {
        NewReachable(s, x);
      }
    }
  }

  lemma NewReachable(s: Sys, x: Step)
    requires InBounds(s.head) && Next(s, x).Some? && !Next(s, x).value.stuck && x.Subscribe?
    ensures var s' := Next(s, x).value; |s'.chans| == |s.chans| + 1 && Reachable(s', |s.chans|)
  {
  }

  /** Once out of the table a client is sent nothing more, and never gets back in. */
  lemma LostStep(s: Sys, x: Step, h: nat)
    requires TableOk(s) && Next(s, x).Some? && h < |s.chans| && !Holds(s, s.chans[h].id, h)
    ensures var s' := Next(s, x).value;
      h < |s'.chans| && !Holds(s', s'.chans[h].id, h) && Sent(s', h) == Sent(s, h)
  {
    if x.Send? || x.RetrySend? { assert s.clients[x.id].ch != h; }
  }

  lemma {:induction false} NothingMore(run: seq<Step>, more: seq<Step>, h: nat)
    requires Exec(run + more).Some? && Exec(run).Some? && h < |Exec(run).value.chans|
    requires !Holds(Exec(run).value, Exec(run).value.chans[h].id, h)
    ensures var s, s' := Exec(run).value, Exec(run + more).value;
      h < |s'.chans| && !Holds(s', s'.chans[h].id, h) && Sent(s', h) == Sent(s, h)
  {
    if more == [] {
      assert run + more == run;
    } else {
      var m, x := more[..|more| - 1], more[|more| - 1];
      assert Drop(run + more) == run + m && Final(run + more) == x;
      NothingMore(run, m, h);
      Safety(run + m);
      LostStep(Exec(run + m).value, x, h);
    }
  }

  lemma {:induction false} Invariant(run: seq<Step>, h: nat)
    requires Exec(run).Some? && !Exec(run).value.panicked && Keeps(run, h) && h < |Filters(run)|
    ensures var s := Exec(run).value;
      Safe(s, run) && h < |s.chans| && Reachable(s, h) && Balanced(s, run, h)
  {
    Safety(run);
    var p, x := Drop(run), Final(run);
    assert run == p + [x];
    Safety(p);
    var s := Exec(p).value;
    if h < |s.chans| {
      Invariant(p, h);
      ReachableStep(s, p, x, h);
      BalancedStep(s, p, x, h);
    } else {
      NewReachable(s, x);
      BalancedNew(s, p, x);
    }
  }

  /** Delivery: whenever no broadcast is under way, what a client has taken plus
      what is queued for it is its snapshot followed by the accepted events, in
      order and once each, without exactly those on which its retry timed out. */
  lemma DeliveryTheorem(run: seq<Step>, h: nat)
    requires Exec(run).Some? && Exec(run).value.phase.Idle? && !Exec(run).value.panicked
    requires Keeps(run, h) && h < |Filters(run)|
    ensures var s := Exec(run).value;
      h < |s.chans| &&
      s.chans[h].received + s.chans[h].buf == Snapshot(run, h) + Select(Accepted(run, h), Kept(run, h))
  {
    Invariant(run, h);
  }
}
