/** The broadcaster object (api/broadcaster.go), proved to take only steps of
    the fan-out's transition system, so that every theorem about runs holds of it. */
module Broadcaster {
  import opened Model
  import opened Frames
  import opened EventBuffer
  import opened Fanout

  /** Steps of one broadcast after its Begin, and of clients meanwhile. */
  predicate WithinBroadcast(x: Step) {
    !x.Subscribe? && !x.Unsubscribe? && !x.Begin?
  }

  /** The run went on with steps of the current broadcast only. */
  ghost predicate Carried(before: seq<Step>, after: seq<Step>) {
    before <= after && forall i :: |before| <= i < |after| ==> WithinBroadcast(after[i])
  }

  class Broadcaster {
    const head: Buffer
    var clients: map<nat, Member>
    var nextID: nat
    /** The channels made so far, with what their clients took from them. */
    var chans: seq<Chan>
    /** A closed channel was closed again: the process is dying. */
    var panicked: bool

    /** The steps taken so far, and where a broadcast in progress stands. */
    ghost var run: seq<Step>
    ghost var phase: Phase

    ghost function State(): Sys
      reads this, head, head.head
    {
      Sys(head.Model(), clients, nextID, chans, phase, false, panicked)
    }

    /** The object's state is the one its run of steps leads to. */
    ghost predicate Valid()
      reads this, head, head.head
    {
      Exec(run) == Some(State())
    }

    ghost predicate Alive()
      reads this, head, head.head
    {
      Valid() && !panicked
    }

    /** NewBroadcaster */
    constructor ()
      ensures Alive() && run == [] && phase == Idle && fresh(head) && fresh(head.head)
    {
      head := new Buffer(BUFFER_SIZE);
      clients, nextID, chans, panicked, run, phase := map[], 0, [], false, [], Idle;
    }

    ghost method Took(x: Step)
      requires Exec(run).Some? && Next(Exec(run).value, x) == Some(State())
      modifies this`run
      ensures Valid() && run == old(run) + [x]
    {
      run := run + [x];
      assert run[..|run| - 1] == old(run);
    }

    /** Puts a frame into an open channel that has room. */
    method SendTo(h: nat, data: string)
      requires h < |chans| && !chans[h].closed && |chans[h].buf| < QUEUE
      modifies this`chans
      ensures chans == old(chans)[h := old(chans[h]).(buf := old(chans[h]).buf + [data])]
    {
      chans := chans[h := chans[h].(buf := chans[h].buf + [data])];
    }

    /** One client takes one frame. */
    method ClientTakes(h: nat)
      requires Alive() && h < |chans| && chans[h].buf != []
      modifies this`chans, this`run
      ensures Alive() && |chans| == |old(chans)| && run == old(run) + [Receive(h)]
    {
      var c := chans[h];
      chans := chans[h := c.(buf := c.buf[1..], received := c.received + [c.buf[0]])];
      Took(Receive(h));
    }

    /** Clients take any number of frames, in any order, at any moment. */
    method ClientsTake()
      requires Alive()
      modifies this`chans, this`run
      ensures Alive() && |chans| == |old(chans)| && old(run) <= run
      ensures forall i :: |old(run)| <= i < |run| ==> run[i].Receive?
    {
      var takes: seq<nat> :| true;
      var i := 0;
      while i < |takes|
        invariant Alive() && |chans| == |old(chans)| && old(run) <= run
        invariant forall i :: |old(run)| <= i < |run| ==> run[i].Receive?
      {
        if takes[i] < |chans| && chans[takes[i]].buf != [] {
          ClientTakes(takes[i]);
        }
        i := i + 1;
      }
    }

    /** What is known of the table at any moment of a run. */
    lemma SafeHere()
      requires Alive()
      ensures TableOk(State()) && PhaseOk(State()) && InBounds(head.Model()) && |head.head[..]| == BUFFER_SIZE
      ensures forall h: nat :: Fanout.Unsubscribe(h) in run <==> h < |chans| && chans[h].closed
    {
      Safety(run);
    }

    /** The frames a new client's channel starts with. */
    method Prefill(prefill: bool) returns (queue: seq<string>)
      requires InBounds(head.Model()) && |head.head[..]| == BUFFER_SIZE
      ensures queue == (if prefill then Replay(head.Model()) else []) && |queue| <= QUEUE
    {
      ReplayFits(head.Model());
      queue := [];
      if prefill {
        var blocked;
        queue, blocked := head.WriteAllToCh([], QUEUE);
        assert !blocked;
      }
    }

    /** Returns the number of the client's channel. */
    method Subscribe(filter: Filter, prefill: bool) returns (h: nat)
      requires Alive() && phase == Idle
      modifies this`clients, this`nextID, this`chans, this`run
      ensures Alive() && run == old(run) + [Fanout.Subscribe(filter, prefill)]
      ensures h == |old(chans)| && |chans| == h + 1
    {
      SafeHere();
      ghost var s := State();
      var id := nextID;
      h := |chans|;
      clients := clients[id := Member(h, filter)];
      nextID := (nextID + 1) % ID_SPACE;
      var queue := Prefill(prefill);
      chans := chans + [Chan(id, queue, false, [])];
      assert State() == DoSubscribe(s, filter, prefill);
      Took(Fanout.Subscribe(filter, prefill));
    }

    /** The closure returned with channel h: calling it a second time panics. */
    method Unsubscribe(h: nat)
      requires Alive() && phase == Idle && h < |chans|
      modifies this`clients, this`chans, this`panicked, this`run
      ensures Valid() && run == old(run) + [Fanout.Unsubscribe(h)]
      ensures panicked <==> Fanout.Unsubscribe(h) in old(run)
    {
      SafeHere();
      clients := clients - {chans[h].id};
      if chans[h].closed {
        panicked := true;
      } else {
        chans := chans[h := chans[h].(closed := true)];
      }
      Took(Fanout.Unsubscribe(h));
    }

    /** The first, non-blocking attempt at client id. */
    method Attempt(id: nat, e: Event, data: string, todo: set<nat>, blocked: seq<nat>) returns (blocked': seq<nat>)
      requires Alive() && phase == Sending(e, data, todo, blocked) && id in todo
      modifies this`chans, this`run, this`phase
      ensures Alive() && phase == Sending(e, data, todo - {id}, blocked')
      ensures Carried(old(run), run) && |run| == |old(run)| + 1
      ensures id in old(clients) && old(clients)[id].ch < |old(chans)| &&
        run == old(run) + [if !old(clients)[id].filter(e) then Skip(id)
                           else if |old(chans)[old(clients)[id].ch].buf| < 105 then Send(id) else Block(id)]
    {
      SafeHere();
      blocked' := blocked;
      var c := clients[id];
      if !c.filter(e) {
        phase := Sending(e, data, todo - {id}, blocked');
        Took(Skip(id));
      } else if |chans[c.ch].buf| < QUEUE {
        SendTo(c.ch, data);
        phase := Sending(e, data, todo - {id}, blocked');
        Took(Send(id));
      } else {
        blocked' := blocked + [id];
        phase := Sending(e, data, todo - {id}, blocked');
        Took(Block(id));
      }
    }

    /** The second attempt. While there is room `timeout` tells whether the timer had fired as
        well and its arm of the select was chosen; while there is none, the timer ends the wait. */
    method Retry(e: Event, data: string, pending: seq<nat>, blocked: seq<nat>, timeout: bool)
      returns (blocked': seq<nat>)
      requires Alive() && phase == Retrying(e, data, pending, blocked) && pending != []
      modifies this`chans, this`run, this`phase
      ensures Alive() && phase == Retrying(e, data, pending[1..], blocked')
      ensures Carried(old(run), run) && |run| == |old(run)| + 1
      ensures pending[0] in old(clients) && old(clients)[pending[0]].ch < |old(chans)| &&
        run == old(run) + [if |old(chans)[old(clients)[pending[0]].ch].buf| < 105 && !timeout
                           then RetrySend(pending[0]) else RetryTimeout(pending[0])]
    {
      SafeHere();
      blocked' := blocked;
      var id := pending[0];
      var c := clients[id];
      if |chans[c.ch].buf| < QUEUE && !timeout {
        SendTo(c.ch, data);
        phase := Retrying(e, data, pending[1..], blocked');
        Took(RetrySend(id));
      } else {
        blocked' := blocked + [id];
        phase := Retrying(e, data, pending[1..], blocked');
        Took(RetryTimeout(id));
      }
    }

    /** Records the event in the replay buffer and turns to the table. */
    method Start(e: Event, row: string, data: string)
      requires Alive() && phase == Idle && data == WriteEvent(e, row)
      modifies this`run, this`phase, head, head.head
      ensures Alive() && phase == Sending(e, data, clients.Keys, []) && run == old(run) + [Begin(e, row)]
    {
      SafeHere();
      head.Add(e, data);
      phase := Sending(e, data, clients.Keys, []);
      Took(Begin(e, row));
    }

    /** Every client of the table once, in any order. */
    method FirstPass(e: Event, data: string) returns (blocked: seq<nat>)
      requires Alive() && phase == Sending(e, data, clients.Keys, [])
      modifies this`chans, this`run, this`phase
      ensures Alive() && phase == Retrying(e, data, blocked, blocked) && Carried(old(run), run)
    {
      var todo := clients.Keys;
      blocked := [];
      while todo != {}
        invariant Alive() && phase == Sending(e, data, todo, blocked) && Carried(old(run), run)
        decreases todo
      {
        ClientsTake();
        var id :| id in todo;
        blocked := Attempt(id, e, data, todo, blocked);
        todo := todo - {id};
      }
      phase := Retrying(e, data, blocked, blocked);
      Took(EndSending);
    }

    /** The clients blocked when the pass starts; those appended meanwhile are not visited. */
    method SecondPass(e: Event, data: string, blocked: seq<nat>)
      requires Alive() && phase == Retrying(e, data, blocked, blocked)
      modifies this`chans, this`run, this`phase
      ensures Alive() && phase == Idle && Carried(old(run), run)
    {
      var pending, blocked' := blocked, blocked;
      while pending != []
        invariant Alive() && phase == Retrying(e, data, pending, blocked') && Carried(old(run), run)
        decreases |pending|
      {
        ClientsTake();
        var timeout := *;
        blocked' := Retry(e, data, pending, blocked', timeout);
        pending := pending[1..];
      }
      phase := Idle;
      Took(EndRetrying);
    }

    /** Both passes over the table, with clients taking frames between any two attempts. */
    method Broadcast(e: Event, row: string)
      requires Alive() && phase == Idle
      modifies this`chans, this`run, this`phase, head, head.head
      ensures Alive() && phase == Idle && Carried(old(run) + [Begin(e, row)], run)
    {
      var data := WriteEvent(e, row);
      Start(e, row, data);
      var blocked := FirstPass(e, data);
      SecondPass(e, data, blocked);
    }
  }
}
