/** When a client's queue of 105 is full: which attempts a broadcast makes, and what a
    client has to take so as to lose nothing, in numbers read off the run. */
module Capacity {
  import opened Model
  import opened Frames
  import opened EventBuffer
  import opened Fanout
  import opened Delivery
  import opened Guarantees

  /** How many frames client h has taken. */
  function Receives(run: seq<Step>, h: nat): nat {
    if run == [] then 0 else Receives(Drop(run), h) + (if Final(run) == Receive(h) then 1 else 0)
  }

  lemma {:induction false} NoReceives(run: seq<Step>, h: nat)
    requires Exec(run).Some? && |Exec(run).value.chans| <= h
    ensures Receives(run, h) == 0
  {
    if run != [] {
      assert |Exec(Drop(run)).value.chans| <= |Exec(run).value.chans|;
      NoReceives(Drop(run), h);
    }
  }

  lemma {:induction false} ReceivedCount(run: seq<Step>, h: nat)
    requires Exec(run).Some? && h < |Exec(run).value.chans|
    ensures |Exec(run).value.chans[h].received| == Receives(run, h)
  {
    var p, x := Drop(run), Final(run);
    var s := Exec(p).value;
    if h < |s.chans| {
      ReceivedCount(p, h);
      ReceivedStep(s, x, h);
    } else {
      NoReceives(p, h);
    }
  }

  lemma ReceivedStep(s: Sys, x: Step, h: nat)
    requires Next(s, x).Some? && h < |s.chans|
    ensures h < |Next(s, x).value.chans|
    ensures |Next(s, x).value.chans[h].received| == |s.chans[h].received| + (if x == Receive(h) then 1 else 0)
  {
  }

  /** What is waiting in the queue of client h: sent, and not taken. */
  function Waits(run: seq<Step>, h: nat): int
    requires Exec(run).Some? && h < |Exec(run).value.chans|
  {
    |Sent(Exec(run).value, h)| - Receives(run, h)
  }

  /** Which steps the room in a client's queue allows. */
  lemma AttemptNext(s: Sys, id: nat, h: nat)
    requires InBounds(s.head) && !s.stuck && !s.panicked && h < |s.chans| && Holds(s, id, h)
    ensures s.phase.Sending? && id in s.phase.todo ==>
      && (Next(s, Skip(id)).Some? <==> !s.clients[id].filter(s.phase.e))
      && (Next(s, Send(id)).Some? <==> s.clients[id].filter(s.phase.e) && |s.chans[h].buf| < 105)
      && (Next(s, Block(id)).Some? <==> s.clients[id].filter(s.phase.e) && |s.chans[h].buf| >= 105)
    ensures s.phase.Retrying? && s.phase.pending != [] && s.phase.pending[0] == id ==>
      && (Next(s, RetrySend(id)).Some? <==> |s.chans[h].buf| < 105)
      && Next(s, RetryTimeout(id)).Some?
  {
  }

  lemma WaitsHere(run: seq<Step>, h: nat)
    requires Exec(run).Some? && !Exec(run).value.panicked && Keeps(run, h) && Subscribed(run, h)
    ensures var s := Exec(run).value;
      && h < |s.chans| && Holds(s, IdOf(h), h) && s.chans[h].id == IdOf(h)
      && s.clients[IdOf(h)].filter == Filters(run)[h]
      && InBounds(s.head) && !s.stuck && 0 <= Waits(run, h) == |s.chans[h].buf| <= 105
  {
    Invariant(run, h);
    ReceivedCount(run, h);
    OpenHere(Exec(run).value, run, h);
  }

  /** At a client still to be tried, the broadcast skips it exactly if its filter rejects the
      event, and otherwise sends exactly while fewer than 105 frames wait, and finds it blocked
      exactly when 105 do. */
  lemma FirstAttemptIff(run: seq<Step>, h: nat)
    requires Exec(run).Some? && !Exec(run).value.panicked && Keeps(run, h) && Subscribed(run, h)
    requires Exec(run).value.phase.Sending? && IdOf(h) in Exec(run).value.phase.todo
    ensures h < |Exec(run).value.chans|
    ensures var s := Exec(run).value; var takes := Filters(run)[h](s.phase.e);
      && 0 <= Waits(run, h) <= 105
      && (Next(s, Skip(IdOf(h))).Some? <==> !takes)
      && (Next(s, Send(IdOf(h))).Some? <==> takes && Waits(run, h) < 105)
      && (Next(s, Block(IdOf(h))).Some? <==> takes && Waits(run, h) == 105)
  {
    WaitsHere(run, h);
    AttemptNext(Exec(run).value, IdOf(h), h);
  }

  /** A retry can send exactly while fewer than 105 frames wait, and time out at any moment. */
  lemma RetryIff(run: seq<Step>, h: nat)
    requires Exec(run).Some? && !Exec(run).value.panicked && Keeps(run, h) && Subscribed(run, h)
    requires Exec(run).value.phase.Retrying? && Exec(run).value.phase.pending != []
    requires Exec(run).value.phase.pending[0] == IdOf(h)
    ensures h < |Exec(run).value.chans|
    ensures var s := Exec(run).value;
      && (Next(s, RetrySend(IdOf(h))).Some? <==> Waits(run, h) < 105)
      && Next(s, RetryTimeout(IdOf(h))).Some?
  {
    WaitsHere(run, h);
    AttemptNext(Exec(run).value, IdOf(h), h);
  }

  lemma OpenHere(s: Sys, run: seq<Step>, h: nat)
    requires Safe(s, run) && h < |s.chans| && Reachable(s, h) && Subscribed(run, h)
    ensures Holds(s, IdOf(h), h) && s.clients[IdOf(h)].filter == Filters(run)[h] && |s.chans[h].buf| <= QUEUE
  {
    assert Unsubscribe(h) in run <==> s.chans[h].closed;
    assert s.chans[h].id == IdOf(h);
  }

  /** At every moment at most 105 of the frames for client h, found or accepted, are not taken. */
  ghost predicate KeepsUp(run: seq<Step>, h: nat) {
    && |Snapshot(run, h)| + |Accepted(run, h)| <= 105 + Receives(run, h)
    && (run != [] ==> KeepsUp(Drop(run), h))
  }

  /** The current broadcast does not have client h down for a retry. */
  ghost predicate NotBlocked(s: Sys, id: nat) {
    match s.phase
    case Idle => true
    case Sending(_, _, _, blocked) => id !in blocked
    case Retrying(_, _, pending, _) => id !in pending
  }

  lemma {:induction false} SelectShort<T>(s: seq<T>, m: seq<bool>)
    requires |s| == |m|
    ensures |Select(s, m)| <= |s|
  {
    if s != [] { SelectShort(s[..|s| - 1], m[..|m| - 1]); }
  }

  /** A client that is owed a frame has been given one more than it was sent. */
  lemma OwedMore(run: seq<Step>, h: nat)
    requires Exec(run).Some? && !Exec(run).value.panicked && Keeps(run, h) && h < |Filters(run)|
    ensures h < |Exec(run).value.chans|
    ensures Owes(Exec(run).value, h) ==> Waits(run, h) + 1 <= |Snapshot(run, h)| + |Accepted(run, h)| - Receives(run, h)
  {
    Invariant(run, h);
    SelectShort(Accepted(run, h), Kept(run, h));
  }

  /** A client that keeps up is never found blocked. */
  lemma NoBlock(run: seq<Step>, h: nat)
    requires Exec(run).Some? && !Exec(run).value.panicked && Keeps(run, h) && Subscribed(run, h) && KeepsUp(run, h)
    ensures Next(Exec(run).value, Block(IdOf(h))).None?
  {
    var s := Exec(run).value;
    WaitsHere(run, h);
    OwedMore(run, h);
    if Next(s, Block(IdOf(h))).Some? { BlockOwed(s, IdOf(h), h); }
  }

  lemma BlockOwed(s: Sys, id: nat, h: nat)
    requires h < |s.chans| && Holds(s, id, h) && s.chans[h].id == id && Next(s, Block(id)).Some?
    ensures Owes(s, h) && |s.chans[h].buf| >= 105
  {
  }

  lemma NoTimeout(s: Sys, id: nat)
    requires NotBlocked(s, id)
    ensures Next(s, RetryTimeout(id)).None?
  {
  }

  lemma NotBlockedStep(s: Sys, x: Step, id: nat)
    requires Next(s, x).Some? && NotBlocked(s, id) && x != Block(id)
    ensures NotBlocked(Next(s, x).value, id)
  {
  }

  /** So none of its retries times out: it loses nothing. */
  lemma {:induction false} KeptUp(run: seq<Step>, h: nat)
    requires Exec(run).Some? && !Exec(run).value.panicked && Keeps(run, h) && KeepsUp(run, h)
    ensures Timeouts(run, h) == 0
    ensures Subscribed(run, h) ==> NotBlocked(Exec(run).value, IdOf(h))
  {
    if run != [] {
      var p, x := Drop(run), Final(run);
      assert run == p + [x];
      Extended(p, x);
      var s := Exec(p).value;
      KeptUp(p, h);
      if Subscribed(p, h) {
        NoBlock(p, h);
        NotBlockedStep(s, x, IdOf(h));
        NoTimeout(s, IdOf(h));
      } else if Subscribed(run, h) {
        assert x.Subscribe?;
      }
    }
  }

  lemma {:induction false} FewAccepted(run: seq<Step>, h: nat)
    requires Exec(run).Some? && |Accepted(run, h)| <= 5
    ensures KeepsUp(run, h)
  {
    SnapshotShort(run, h);
    if run != [] { FewAccepted(Drop(run), h); }
  }

  lemma {:induction false} SnapshotShort(run: seq<Step>, h: nat)
    ensures |Snapshot(run, h)| <= 100
  {
    if run != [] {
      SnapshotShort(Drop(run), h);
      ReplayFits(Head(Drop(run)));
    }
  }

  /** Whatever the replay it starts with, and even if it takes nothing, a client
      loses none of the first five events it accepts. */
  lemma FirstFive(run: seq<Step>, h: nat)
    requires Exec(run).Some? && !Exec(run).value.panicked && Keeps(run, h) && |Accepted(run, h)| <= 5
    ensures Timeouts(run, h) == 0
  {
    FewAccepted(run, h);
    KeptUp(run, h);
  }
}
