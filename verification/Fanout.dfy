/** The event fan-out (api/broadcaster.go) as a transition system. One
    broadcast is many steps under the client-table mutex; clients take frames
    from their channels in between. */
module Fanout {
  import opened Model
  import opened Frames
  import opened EventBuffer

  const BUFFER_SIZE := 100
  /** The capacity of a client's channel. */
  const QUEUE := BUFFER_SIZE + 5
  const ID_SPACE := 0x1_0000_0000_0000_0000

  type Filter = Event -> bool

  datatype Member = Member(ch: nat, filter: Filter)

  /** A channel with what its client has taken from it; `id` is the client id its unsubscribe closure holds. */
  datatype Chan = Chan(id: nat, buf: seq<string>, closed: bool, received: seq<string>)

  /** Where the goroutine holding the mutex is inside `broadcast`. */
  datatype Phase =
    | Idle
    | Sending(e: Event, data: string, todo: set<nat>, blocked: seq<nat>)
    | Retrying(e: Event, data: string, pending: seq<nat>, blocked: seq<nat>)

  /** Channels are numbered in the order of their creation. */
  datatype Sys = Sys(head: Ring, clients: map<nat, Member>, nextID: nat, chans: seq<Chan>,
                     phase: Phase, stuck: bool, panicked: bool)

  datatype Step =
    | Subscribe(filter: Filter, prefill: bool)
    | Unsubscribe(h: nat)
    | Receive(h: nat)
    | Begin(e: Event, row: string)
    | Skip(id: nat)           // the filter rejects the event
    | Send(id: nat)           // the first attempt finds room
    | Block(id: nat)          // the first attempt finds a full queue
    | EndSending
    | RetrySend(id: nat)
    | RetryTimeout(id: nat)
    | EndRetrying

  function Init(): Sys {
    Sys(New(BUFFER_SIZE), map[], 0, [], Idle, false, false)
  }

  function HasRoom(s: Sys, h: nat): bool
    requires h < |s.chans|
  {
    |s.chans[h].buf| < QUEUE
  }

  /** `ch <- data` on a channel with room; a closed channel panics. */
  function Put(s: Sys, h: nat, data: string): Sys
    requires h < |s.chans|
  {
    if s.chans[h].closed then s.(panicked := true)
    else s.(chans := s.chans[h := s.chans[h].(buf := s.chans[h].buf + [data])])
  }

  function DoSubscribe(s: Sys, filter: Filter, prefill: bool): Sys
    requires InBounds(s.head)
  {
    var sent := if prefill then Replay(s.head) else [];
    if |sent| > QUEUE then s.(stuck := true)
    else s.(clients := s.clients[s.nextID := Member(|s.chans|, filter)],
            nextID := (s.nextID + 1) % ID_SPACE,
            chans := s.chans + [Chan(s.nextID, sent, false, [])])
  }

  function DoUnsubscribe(s: Sys, h: nat): Sys
    requires h < |s.chans|
  {
    var c := s.chans[h];
    var s' := s.(clients := s.clients - {c.id});
    if c.closed then s'.(panicked := true) else s'.(chans := s.chans[h := c.(closed := true)])
  }

  predicate Tabled(s: Sys, id: nat) {
    id in s.clients && s.clients[id].ch < |s.chans|
  }

  /** The state after a step, if the step can be taken. */
  function Next(s: Sys, step: Step): Option<Sys> {
    if s.stuck || s.panicked || !InBounds(s.head) then None
    else match step
      case Subscribe(f, prefill) =>
        if s.phase.Idle? then Some(DoSubscribe(s, f, prefill)) else None
      case Unsubscribe(h) =>
        if s.phase.Idle? && h < |s.chans| then Some(DoUnsubscribe(s, h)) else None
      case Receive(h) =>
        if h < |s.chans| && s.chans[h].buf != [] then
          var c := s.chans[h];
          Some(s.(chans := s.chans[h := c.(buf := c.buf[1..], received := c.received + [c.buf[0]])]))
        else None
      case Begin(e, row) =>
        if s.phase.Idle? then
          var data := WriteEvent(e, row);
          Some(s.(head := Added(s.head, e, data), phase := Sending(e, data, s.clients.Keys, [])))
        else None
      case Skip(id) =>
        if s.phase.Sending? && id in s.phase.todo && Tabled(s, id) && !s.clients[id].filter(s.phase.e) then
          Some(s.(phase := s.phase.(todo := s.phase.todo - {id})))
        else None
      case Send(id) =>
        if s.phase.Sending? && id in s.phase.todo && Tabled(s, id) && s.clients[id].filter(s.phase.e)
           && HasRoom(s, s.clients[id].ch) then
          Some(Put(s, s.clients[id].ch, s.phase.data).(phase := s.phase.(todo := s.phase.todo - {id})))
        else None
      case Block(id) =>
        if s.phase.Sending? && id in s.phase.todo && Tabled(s, id) && s.clients[id].filter(s.phase.e)
           && !HasRoom(s, s.clients[id].ch) then
          Some(s.(phase := s.phase.(todo := s.phase.todo - {id}, blocked := s.phase.blocked + [id])))
        else None
      case EndSending =>
        if s.phase.Sending? && s.phase.todo == {} then
          // the slice is evaluated once: later appends to `blocked` are not visited
          Some(s.(phase := Retrying(s.phase.e, s.phase.data, s.phase.blocked, s.phase.blocked)))
        else None
      case RetrySend(id) =>
        if s.phase.Retrying? && s.phase.pending != [] && id == s.phase.pending[0] && Tabled(s, id)
           && HasRoom(s, s.clients[id].ch) then
          Some(Put(s, s.clients[id].ch, s.phase.data).(phase := s.phase.(pending := s.phase.pending[1..])))
        else None
      case RetryTimeout(id) =>
        if s.phase.Retrying? && s.phase.pending != [] && id == s.phase.pending[0] then
          Some(s.(phase := s.phase.(pending := s.phase.pending[1..], blocked := s.phase.blocked + [id])))
        else None
      case EndRetrying =>
        if s.phase.Retrying? && s.phase.pending == [] then Some(s.(phase := Idle)) else None
  }

  /** The state after a whole run. */
  function Exec(run: seq<Step>): Option<Sys> {
    if run == [] then Some(Init())
    else
      var s := Exec(run[..|run| - 1]);
      if s.None? then None else Next(s.value, run[|run| - 1])
  }

  // ---------------------------------------------------------------------------
  // What was asked of the system, read off the run alone

  function Drop(run: seq<Step>): seq<Step>
    requires run != []
  {
    run[..|run| - 1]
  }

  function Final(run: seq<Step>): Step
    requires run != []
  {
    run[|run| - 1]
  }

  /** The filters of all subscriptions so far; the h-th belongs to channel h. */
  function Filters(run: seq<Step>): seq<Filter> {
    if run == [] then []
    else Filters(Drop(run)) + (if Final(run).Subscribe? then [Final(run).filter] else [])
  }

  /** The client id issued to the h-th subscription: a uint64 counter. */
  function IdOf(h: nat): nat { h % ID_SPACE }

  ghost predicate Subscribed(run: seq<Step>, h: nat) {
    h < |Filters(run)| && Unsubscribe(h) !in run
  }

  ghost predicate Wants(run: seq<Step>, h: nat, e: Event) {
    Subscribed(run, h) && Filters(run)[h](e)
  }

  /** The frames of the events broadcast while client h was subscribed that its filter accepts. */
  ghost function Accepted(run: seq<Step>, h: nat): seq<string> {
    if run == [] then []
    else
      var x := Final(run);
      Accepted(Drop(run), h)
        + (if x.Begin? && Wants(Drop(run), h, x.e) then [WriteEvent(x.e, x.row)] else [])
  }

  /** For each accepted event, whether no retry to client h timed out on it. */
  ghost function Kept(run: seq<Step>, h: nat): (m: seq<bool>)
    ensures |m| == |Accepted(run, h)|
  {
    if run == [] then []
    else
      var x, m := Final(run), Kept(Drop(run), h);
      if x.Begin? && Wants(Drop(run), h, x.e) then m + [true]
      else if Subscribed(Drop(run), h) && x == RetryTimeout(IdOf(h)) && m != [] then m[|m| - 1 := false]
      else m
  }

  /** The elements of s at the positions the mask keeps, in order. */
  function Select<T>(s: seq<T>, mask: seq<bool>): seq<T>
    requires |mask| == |s|
  {
    if s == [] then []
    else Select(s[..|s| - 1], mask[..|s| - 1]) + (if mask[|s| - 1] then [s[|s| - 1]] else [])
  }

  /** The replay buffer as the broadcasts so far leave it. */
  function Head(run: seq<Step>): (r: Ring)
    ensures InBounds(r) && |r.head| == BUFFER_SIZE
  {
    if run == [] then New(BUFFER_SIZE)
    else if Final(run).Begin? then
      Added(Head(Drop(run)), Final(run).e, WriteEvent(Final(run).e, Final(run).row))
    else Head(Drop(run))
  }

  /** The replay sent to client h when it subscribed. */
  function Snapshot(run: seq<Step>, h: nat): seq<string> {
    if run == [] then []
    else if Final(run).Subscribe? && |Filters(Drop(run))| == h then
      if Final(run).prefill then Replay(Head(Drop(run))) else []
    else Snapshot(Drop(run), h)
  }

  /** Everything client h has been sent: taken already, or still queued. */
  function Sent(s: Sys, h: nat): seq<string>
    requires h < |s.chans|
  {
    s.chans[h].received + s.chans[h].buf
  }

  /** The current broadcast still owes client h an attempt. */
  predicate Owes(s: Sys, h: nat)
    requires h < |s.chans|
  {
    var id := s.chans[h].id;
    id in s.clients && s.clients[id].ch == h &&
    match s.phase
    case Idle => false
    case Sending(e, _, todo, blocked) => (id in todo && s.clients[id].filter(e)) || id in blocked
    case Retrying(_, _, pending, _) => id in pending
  }

  // ---------------------------------------------------------------------------
  // The client table

  ghost predicate NoDuplicates(s: seq<nat>) {
    forall i, j :: 0 <= i < j < |s| ==> s[i] != s[j]
  }

  /** Ids still waiting in the current broadcast are distinct clients of the table. */
  ghost predicate PhaseOk(s: Sys) {
    match s.phase
    case Idle => true
    case Sending(_, _, todo, blocked) =>
      && todo <= s.clients.Keys
      && NoDuplicates(blocked)
      && forall id <- blocked :: id in s.clients && id !in todo
    case Retrying(_, _, pending, _) =>
      NoDuplicates(pending) && forall id <- pending :: id in s.clients
  }

  ghost predicate TableOk(s: Sys) {
    forall id <- s.clients ::
      && s.clients[id].ch < |s.chans|
      && !s.chans[s.clients[id].ch].closed
      && s.chans[s.clients[id].ch].id == id
  }

  /** What holds between the table and the run that led to it. */
  ghost predicate Safe(s: Sys, run: seq<Step>) {
    && s.head == Head(run) && !s.stuck && !s.panicked
    && |s.chans| == |Filters(run)|
    && s.nextID == IdOf(|s.chans|)
    && (forall h :: 0 <= h < |s.chans| ==> s.chans[h].id == IdOf(h) && |s.chans[h].buf| <= QUEUE)
    && (forall h: nat :: Unsubscribe(h) in run <==> h < |s.chans| && s.chans[h].closed)
    && TableOk(s) && PhaseOk(s)
    && forall id <- s.clients :: s.clients[id].filter == Filters(run)[s.clients[id].ch]
  }

  lemma ReplayFits(r: Ring)
    requires InBounds(r) && |r.head| == BUFFER_SIZE
    ensures |Replay(r)| <= BUFFER_SIZE
  {
    EmittedGrows(r, BUFFER_SIZE, BUFFER_SIZE);
  }

  ghost predicate DoubleClose(run: seq<Step>, x: Step) {
    x.Unsubscribe? && x in run
  }

  lemma Extended(run: seq<Step>, x: Step)
    ensures Drop(run + [x]) == run && Final(run + [x]) == x
    ensures forall y :: y in run + [x] <==> y in run || y == x
  {
  }

  lemma NextID(n: nat)
    ensures (IdOf(n) + 1) % ID_SPACE == IdOf(n + 1)
  {
  }

  /** Subscribing when the replay fits. */
  function Joined(s: Sys, filter: Filter, sent: seq<string>): Sys {
    s.(clients := s.clients[s.nextID := Member(|s.chans|, filter)],
       nextID := (s.nextID + 1) % ID_SPACE, chans := s.chans + [Chan(s.nextID, sent, false, [])])
  }

  lemma JoinedTable(s: Sys, filter: Filter, sent: seq<string>)
    requires TableOk(s)
    ensures TableOk(Joined(s, filter, sent))
  {
    var s' := Joined(s, filter, sent);
    forall id <- s'.clients
      ensures var ch := s'.clients[id].ch; ch < |s'.chans| && !s'.chans[ch].closed && s'.chans[ch].id == id
    {
      if id != s.nextID { assert s'.clients[id] == s.clients[id]; }
    }
  }

  lemma JoinedFilters(s: Sys, run: seq<Step>, filter: Filter, sent: seq<string>)
    requires TableOk(s) && |s.chans| == |Filters(run)|
    requires forall id <- s.clients :: s.clients[id].filter == Filters(run)[s.clients[id].ch]
    ensures var s', fs := Joined(s, filter, sent), Filters(run) + [filter];
      forall id <- s'.clients :: s'.clients[id].ch < |fs| && s'.clients[id].filter == fs[s'.clients[id].ch]
  {
  }

  lemma SafeSubscribe(s: Sys, run: seq<Step>, x: Step)
    requires Safe(s, run) && Next(s, x).Some? && x.Subscribe?
    ensures Safe(Next(s, x).value, run + [x])
  {
    Extended(run, x);
    ReplayFits(s.head);
    NextID(|s.chans|);
    assert Filters(run + [x]) == Filters(run) + [x.filter];
    var sent := if x.prefill then Replay(s.head) else [];
    assert Next(s, x).value == Joined(s, x.filter, sent);
    JoinedTable(s, x.filter, sent);
    JoinedFilters(s, run, x.filter, sent);
  }

  lemma SafeUnsubscribe(s: Sys, run: seq<Step>, x: Step)
    requires Safe(s, run) && Next(s, x).Some? && x.Unsubscribe?
    ensures Next(s, x).value.panicked <==> x in run
    ensures x !in run ==> Safe(Next(s, x).value, run + [x])
  {
    var s' := Next(s, x).value;
    Extended(run, x);
    assert Filters(run + [x]) == Filters(run);
    if x !in run {
      assert TableOk(s');
    }
  }

  /** Steps that change neither the table nor which channels are open. */
  ghost predicate SameTable(s: Sys, s': Sys) {
    && s'.clients == s.clients && s'.nextID == s.nextID && |s'.chans| == |s.chans|
    && !s'.stuck && !s'.panicked
    && forall h :: 0 <= h < |s.chans| ==>
         s'.chans[h].id == s.chans[h].id && s'.chans[h].closed == s.chans[h].closed && |s'.chans[h].buf| <= QUEUE
  }

  lemma SafeSameTable(s: Sys, run: seq<Step>, x: Step, s': Sys)
    requires Safe(s, run) && SameTable(s, s') && PhaseOk(s')
    requires !x.Subscribe? && !x.Unsubscribe? && s'.head == Head(run + [x])
    ensures Safe(s', run + [x])
  {
    Extended(run, x);
    assert Filters(run + [x]) == Filters(run);
  }

  lemma SafeRetry(s: Sys, run: seq<Step>, x: Step)
    requires Safe(s, run) && Next(s, x).Some? && (x.RetrySend? || x.RetryTimeout?)
    ensures SameTable(s, Next(s, x).value) && PhaseOk(Next(s, x).value)
  {
    var pending := s.phase.pending;
    assert pending == [pending[0]] + pending[1..];
  }

  lemma SafeAttempt(s: Sys, run: seq<Step>, x: Step)
    requires Safe(s, run) && Next(s, x).Some? && (x.Skip? || x.Send? || x.Block?)
    ensures SameTable(s, Next(s, x).value) && PhaseOk(Next(s, x).value)
  {
  }

  lemma SafeStep(s: Sys, run: seq<Step>, x: Step)
    requires Safe(s, run) && Next(s, x).Some?
    ensures Next(s, x).value.panicked <==> DoubleClose(run, x)
    ensures !Next(s, x).value.stuck
    ensures !DoubleClose(run, x) ==> Safe(Next(s, x).value, run + [x])
  {
    var s' := Next(s, x).value;
    Extended(run, x);
    match x
    case Subscribe(_, _) => SafeSubscribe(s, run, x);
    case Unsubscribe(_) => SafeUnsubscribe(s, run, x);
    case Skip(_) => SafeAttempt(s, run, x); SafeSameTable(s, run, x, s');
    case Send(_) => SafeAttempt(s, run, x); SafeSameTable(s, run, x, s');
    case Block(_) => SafeAttempt(s, run, x); SafeSameTable(s, run, x, s');
    case RetrySend(_) => SafeRetry(s, run, x); SafeSameTable(s, run, x, s');
    case RetryTimeout(_) => SafeRetry(s, run, x); SafeSameTable(s, run, x, s');
    case Receive(_) => SafeSameTable(s, run, x, s');
    case Begin(_, _) => SafeSameTable(s, run, x, s');
    case EndSending => SafeSameTable(s, run, x, s');
    case EndRetrying => SafeSameTable(s, run, x, s');
  }

  /** On every interleaving: no subscription blocks while holding the mutex, a
      panic happens exactly when an unsubscribe is called twice, and until then
      every channel in the table is open, distinct, and the one its id was given. */
  lemma {:induction false} Safety(run: seq<Step>)
    requires Exec(run).Some?
    ensures var s := Exec(run).value;
      && !s.stuck
      && (s.panicked <==> run != [] && DoubleClose(Drop(run), Final(run)))
      && (!s.panicked ==> Safe(s, run))
  {
    if run != [] {
      Safety(Drop(run));
      assert run == Drop(run) + [Final(run)];
      SafeStep(Exec(Drop(run)).value, Drop(run), Final(run));
    }
  }

  /** The step takes client h out of the table: a client is subscribed under the same id, and
      replaces it, or another one of that id is unsubscribed, which deletes the entry. */
  predicate Takes(run: seq<Step>, x: Step, h: nat) {
    match x
    case Subscribe(_, _) => IdOf(|Filters(run)|) == IdOf(h)
    case Unsubscribe(g) => g != h && IdOf(g) == IdOf(h)
    case _ => false
  }

  /** No step does while client h is subscribed. */
  ghost predicate Keeps(run: seq<Step>, h: nat) {
    run != [] ==> Keeps(Drop(run), h) && (Subscribed(Drop(run), h) ==> !Takes(Drop(run), Final(run), h))
  }

  /** Up to 2^64 subscriptions none does. */
  lemma {:induction false} FewSubscriptions(run: seq<Step>, h: nat)
    requires Exec(run).Some? && !Exec(run).value.panicked && |Filters(run)| <= 18446744073709551616
    ensures Keeps(run, h)
  {
    SmallModulo();
    Safety(run);
    if run != [] { FewSubscriptions(Drop(run), h); }
  }

  lemma SmallModulo()
    ensures forall i: nat :: i < ID_SPACE ==> i % ID_SPACE == i
    ensures ID_SPACE % ID_SPACE == 0
  {
  }

  /** Client ids are issued once each exactly as long as uint64 lasts. */
  lemma IdsUniqueIff(run: seq<Step>)
    requires Exec(run).Some? && !Exec(run).value.panicked
    ensures var chans := Exec(run).value.chans;
      (forall i, j :: 0 <= i < j < |chans| ==> chans[i].id != chans[j].id) <==> |chans| <= 18446744073709551616
  {
    Safety(run);
    var chans := Exec(run).value.chans;
    assert forall i :: 0 <= i < |chans| ==> chans[i].id == IdOf(i);
    SmallModulo();
    if |chans| > ID_SPACE {
      assert chans[0].id == chans[ID_SPACE].id;
    } else {
      assert forall i :: 0 <= i < |chans| ==> chans[i].id == i;
    }
  }
}
