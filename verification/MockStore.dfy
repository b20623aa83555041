/** The mock store (store/mock/store.go): twenty slots, each taking one invented
    transaction after another through its life, with a log per transaction. */
module MockStore {
  import opened Model

  const PARALLELISM := 20

  /** Everything random or clock-dependent in one call of nextEvent; ids stand for sha512 digests. */
  datatype Draw = Draw(slot: nat, now: Time, finish: bool, id: string, txID: string, proverID: string, tag: string)

  /** Maps and slots, and every event generated so far. */
  datatype Mock = Mock(queue: seq<Event>, infos: map<string, TxInfo>, events: seq<Event>)

  const ZERO_EVENT := Event(UNKNOWN, "", "", "", 0)
  const ZERO_INFO := TxInfo(UNKNOWN, 0, "", "", "", [])

  function Empty(): Mock {
    Mock(seq(PARALLELISM, _ => ZERO_EVENT), map[], [])
  }

  /** A Go map lookup. */
  function InfoOf(m: Mock, txID: string): TxInfo {
    if txID in m.infos then m.infos[txID] else ZERO_INFO
  }

  function NextState(e: Event, d: Draw): State {
    if e.state == SUBMITTED then PROVING
    else if e.state == PROVING then VERIFYING
    else if e.state == VERIFYING then (if d.finish then COMPLETE else VERIFYING)
    else SUBMITTED
  }

  predicate Restarts(e: Event) {
    e.state == UNKNOWN || e.state == COMPLETE
  }

  /** The event slot d.slot holds after the call. */
  function NextSlot(e: Event, d: Draw): Event {
    if Restarts(e) then Event(SUBMITTED, d.txID, d.proverID, d.tag, d.now)
    else e.(state := NextState(e, d), timestamp := d.now)
  }

  /** The transaction record after the call. */
  function NextInfo(info: TxInfo, e: Event, d: Draw): TxInfo
    requires e.state == VERIFYING && d.finish ==> info.log != []
  {
    if Restarts(e) then
      TxInfo(PROVING, 0, d.txID, d.id, d.proverID, [TxLogEvent(SUBMITTED, "user id", d.id, d.now)])
    else
      var id := if e.state == SUBMITTED then e.proverID else d.id;
      var logged := info.(log := info.log + [TxLogEvent(NextState(e, d), "node id", id, d.now)]);
      if e.state == VERIFYING && d.finish then
        logged.(state := COMPLETE, duration := Sub(d.now, info.log[0].timestamp))
      else logged
  }

  predicate InRange(m: Mock, d: Draw) {
    && |m.queue| == PARALLELISM && d.slot < PARALLELISM
    && (m.queue[d.slot].state == VERIFYING ==> InfoOf(m, m.queue[d.slot].txID).log != [])
  }

  /** nextEvent, and the append of its result to `events`. */
  function Tick(m: Mock, d: Draw): (m': Mock)
    requires InRange(m, d)
    ensures |m'.queue| == PARALLELISM
  {
    var e := m.queue[d.slot];
    var e' := NextSlot(e, d);
    Mock(m.queue[d.slot := e'],
         m.infos[e'.txID := NextInfo(InfoOf(m, e'.txID), e, d)],
         m.events + [e'])
  }

  // ---------------------------------------------------------------------------
  // The life of a transaction

  predicate Follows(a: State, b: State) {
    || (a == SUBMITTED && b == PROVING)
    || (a == PROVING && b == VERIFYING)
    || (a == VERIFYING && (b == VERIFYING || b == COMPLETE))
  }

  /** A prefix of Submitted Proving Verifying+ Complete, at least Submitted. */
  predicate Lifecycle(s: seq<State>) {
    && s != [] && s[0] == SUBMITTED
    && forall k :: 0 < k < |s| ==> Follows(s[k - 1], s[k])
  }

  function LogStates(log: seq<TxLogEvent>): (s: seq<State>)
    ensures |s| == |log|
  {
    seq(|log|, i requires 0 <= i < |log| => log[i].state)
  }

  /** Reaching a state, and when. */
  datatype Stage = Stage(state: State, time: Time)

  function Stages(log: seq<TxLogEvent>): (s: seq<Stage>)
    ensures |s| == |log|
  {
    seq(|log|, i requires 0 <= i < |log| => Stage(log[i].state, log[i].timestamp))
  }

  /** The stages of one transaction in an event stream, in order. */
  function StagesIn(events: seq<Event>, txID: string): seq<Stage> {
    if events == [] then []
    else
      var last := events[|events| - 1];
      StagesIn(events[..|events| - 1], txID)
        + (if last.txID == txID then [Stage(last.state, last.timestamp)] else [])
  }

  function LastState(info: TxInfo): State
    requires info.log != []
  {
    info.log[|info.log| - 1].state
  }

  /** The user submits, the slot's prover proves, nodes do the rest. */
  ghost predicate Signed(info: TxInfo) {
    && info.log != [] && info.log[0].idType == "user id" && info.log[0].id == info.userID
    && (forall k :: 0 < k < |info.log| ==> info.log[k].idType == "node id")
    && (|info.log| > 1 ==> info.log[1].id == info.proverID)
  }

  /** A record agrees with the stream, and a finished one with its own log. */
  ghost predicate RecordOk(m: Mock, t: string)
    requires t in m.infos
  {
    var info := m.infos[t];
    && Lifecycle(LogStates(info.log))
    && Stages(info.log) == StagesIn(m.events, t) && Signed(info)
    && info.txID == t
    && (if LastState(info) == COMPLETE then
          info.state == COMPLETE
          && info.duration == Sub(info.log[|info.log| - 1].timestamp, info.log[0].timestamp)
        else info.state == PROVING)
  }

  /** Slot i is working on transaction t, and has got as far as its log. */
  ghost predicate InSlot(m: Mock, t: string, i: nat)
    requires t in m.infos && m.infos[t].log != []
  {
    && i < |m.queue| && m.queue[i].txID == t && m.queue[i].state == LastState(m.infos[t])
    && m.queue[i].proverID == m.infos[t].proverID
  }

  ghost predicate SlotsDistinct(m: Mock) {
    forall i, j | 0 <= i < |m.queue| && 0 <= j < |m.queue| && i != j
      && m.queue[i].state != UNKNOWN && m.queue[j].state != UNKNOWN :: m.queue[i].txID != m.queue[j].txID
  }

  ghost predicate Valid(m: Mock) {
    && |m.queue| == PARALLELISM
    && (forall t <- m.infos :: t != "" && RecordOk(m, t))
    && (forall t :: t !in m.infos ==> StagesIn(m.events, t) == [])
    && (forall i :: 0 <= i < PARALLELISM && m.queue[i].state != UNKNOWN ==>
          m.queue[i].txID in m.infos && InSlot(m, m.queue[i].txID, i))
    && SlotsDistinct(m)
    && (forall t <- m.infos :: LastState(m.infos[t]) != COMPLETE ==> exists i: nat :: InSlot(m, t, i))
  }

  /** A new transaction gets an id never used before. */
  predicate Fresh(m: Mock, d: Draw) {
    d.txID != "" && d.txID !in m.infos
  }

  lemma StagesInAppend(events: seq<Event>, e: Event, t: string)
    ensures StagesIn(events + [e], t)
         == StagesIn(events, t) + (if e.txID == t then [Stage(e.state, e.timestamp)] else [])
  {
    assert (events + [e])[..|events|] == events;
  }

  lemma LogAppend(log: seq<TxLogEvent>, x: TxLogEvent)
    ensures LogStates(log + [x]) == LogStates(log) + [x.state]
    ensures Stages(log + [x]) == Stages(log) + [Stage(x.state, x.timestamp)]
  {
  }

  /** Records of other transactions do not change. */
  lemma OtherRecord(m: Mock, d: Draw, t: string)
    requires InRange(m, d) && t != Tick(m, d).queue[d.slot].txID
    requires t in m.infos ==> RecordOk(m, t)
    ensures t in Tick(m, d).infos <==> t in m.infos
    ensures t in m.infos ==> RecordOk(Tick(m, d), t) && Tick(m, d).infos[t] == m.infos[t]
    ensures StagesIn(Tick(m, d).events, t) == StagesIn(m.events, t)
  {
    StagesInAppend(m.events, Tick(m, d).queue[d.slot], t);
  }

  /** A Verifying slot always has a log to compute its duration from. */
  lemma InRangeAlways(m: Mock, d: Draw)
    requires Valid(m) && d.slot < PARALLELISM
    ensures InRange(m, d)
  {
    assert m.queue[d.slot].state != UNKNOWN ==> InSlot(m, m.queue[d.slot].txID, d.slot);
  }

  lemma ThisRecord(m: Mock, d: Draw)
    requires Valid(m) && InRange(m, d) && (Restarts(m.queue[d.slot]) ==> Fresh(m, d))
    ensures var m', t := Tick(m, d), NextSlot(m.queue[d.slot], d).txID;
      t != "" && t in m'.infos && RecordOk(m', t) && InSlot(m', t, d.slot)
  {
    var e := m.queue[d.slot];
    StagesInAppend(m.events, NextSlot(e, d), NextSlot(e, d).txID);
    if !Restarts(e) {
      assert InSlot(m, e.txID, d.slot) && RecordOk(m, e.txID);
      NextRecord(m, d, e.txID);
    }
  }

  lemma NextRecord(m: Mock, d: Draw, t: string)
    requires InRange(m, d) && !Restarts(m.queue[d.slot])
    requires t in m.infos && RecordOk(m, t) && InSlot(m, t, d.slot)
    ensures var m' := Tick(m, d);
      NextSlot(m.queue[d.slot], d).txID == t && t in m'.infos && RecordOk(m', t) && InSlot(m', t, d.slot)
  {
    var m' := Tick(m, d);
    var e, e' := m.queue[d.slot], m'.queue[d.slot];
    StagesInAppend(m.events, e', t);
    var log := m.infos[t].log;
    var log' := m'.infos[t].log;
    LogAppend(log, log'[|log|]);
    assert LogStates(log)[|log| - 1] == e.state;
    assert Follows(e.state, e'.state);
    OneEntry(log, e.state);
  }

  /** Only the log of a Submitted transaction has a single entry. */
  lemma OneEntry(log: seq<TxLogEvent>, state: State)
    requires Lifecycle(LogStates(log)) && log[|log| - 1].state == state
    ensures |log| == 1 <==> state == SUBMITTED
  {
    var s := LogStates(log);
    assert |s| > 1 ==> Follows(s[|s| - 2], s[|s| - 1]);
  }

  lemma TickSlots(m: Mock, d: Draw)
    requires Valid(m) && InRange(m, d) && (Restarts(m.queue[d.slot]) ==> Fresh(m, d))
    ensures var m' := Tick(m, d);
      && (forall i :: 0 <= i < PARALLELISM && m'.queue[i].state != UNKNOWN ==>
            m'.queue[i].txID in m'.infos && m'.infos[m'.queue[i].txID].log != [] && InSlot(m', m'.queue[i].txID, i))
      && SlotsDistinct(m')
  {
    var m' := Tick(m, d);
    ThisRecord(m, d);
    var t := m'.queue[d.slot].txID;
    forall i | 0 <= i < PARALLELISM && i != d.slot && m'.queue[i].state != UNKNOWN
      ensures m'.queue[i].txID != t && m'.queue[i].txID in m'.infos
        && m'.infos[m'.queue[i].txID].log != [] && InSlot(m', m'.queue[i].txID, i)
    {
      assert m'.queue[i] == m.queue[i] && InSlot(m, m.queue[i].txID, i);
      OtherRecord(m, d, m.queue[i].txID);
    }
  }

  lemma TickValid(m: Mock, d: Draw)
    requires Valid(m) && d.slot < PARALLELISM && (Restarts(m.queue[d.slot]) ==> Fresh(m, d))
    ensures InRange(m, d) && Valid(Tick(m, d))
  {
    InRangeAlways(m, d);
    var m' := Tick(m, d);
    var t := m'.queue[d.slot].txID;
    ThisRecord(m, d);
    TickSlots(m, d);
    forall u ensures u !in m'.infos ==> StagesIn(m'.events, u) == []
             ensures u in m'.infos ==> u != "" && RecordOk(m', u) {
      if u != t { OtherRecord(m, d, u); }
    }
    forall u | u in m'.infos && LastState(m'.infos[u]) != COMPLETE
      ensures exists i: nat :: InSlot(m', u, i)
    {
      if u == t {
        assert InSlot(m', u, d.slot);
      } else {
        OtherRecord(m, d, u);
        var i: nat :| InSlot(m, u, i);
        assert i != d.slot by {
          if i == d.slot { assert m.queue[i].state == LastState(m.infos[u]); StillOpen(m, u, i); }
        }
        assert InSlot(m', u, i);
      }
    }
  }

  /** An unfinished transaction in the chosen slot is the one the call works on. */
  lemma StillOpen(m: Mock, u: string, i: nat)
    requires u in m.infos && RecordOk(m, u) && InSlot(m, u, i) && LastState(m.infos[u]) != COMPLETE
    ensures !Restarts(m.queue[i])
  {
    var s := LogStates(m.infos[u].log);
    var k := |s| - 1;
    assert s[k] == LastState(m.infos[u]);
    assert k > 0 ==> Follows(s[k - 1], s[k]);
  }

  // ---------------------------------------------------------------------------
  // Whole runs

  /** The store after a run of calls; None if one of them would index an empty log. */
  function After(draws: seq<Draw>): (m: Option<Mock>)
    ensures m.Some? ==> |m.value.queue| == 20
  {
    if draws == [] then Some(Empty())
    else
      var m, d := After(draws[..|draws| - 1]), draws[|draws| - 1];
      if m.Some? && InRange(m.value, d) then Some(Tick(m.value, d)) else None
  }

  /** Every draw picks a slot, and each new transaction gets an unused id. */
  ghost predicate Fair(draws: seq<Draw>) {
    if draws == [] then true
    else
      var p, d := draws[..|draws| - 1], draws[|draws| - 1];
      && Fair(p) && d.slot < PARALLELISM
      && (After(p).Some? && Restarts(After(p).value.queue[d.slot]) ==> Fresh(After(p).value, d))
  }

  lemma {:induction false} RunValid(draws: seq<Draw>)
    requires Fair(draws)
    ensures After(draws).Some? && Valid(After(draws).value)
  {
    if draws != [] {
      RunValid(draws[..|draws| - 1]);
      TickValid(After(draws[..|draws| - 1]).value, draws[|draws| - 1]);
    }
  }

  function Repeat(s: State, n: nat): seq<State> { seq(n, _ => s) }

  /** Submitted, Proving, one or more Verifying, Complete. */
  function FullLife(n: nat): seq<State> {
    [SUBMITTED, PROVING] + Repeat(VERIFYING, n) + [COMPLETE]
  }

  lemma {:induction false} LifeSpelled(s: seq<State>) returns (n: nat)
    requires Lifecycle(s)
    ensures n >= 1 && s <= FullLife(n)
    ensures s[|s| - 1] == COMPLETE ==> s == FullLife(n)
    ensures s[|s| - 1] == VERIFYING ==> |s| == n + 2
    ensures s[|s| - 1] <= PROVING ==> n == 1 && |s| == s[|s| - 1]
  {
    if |s| == 1 {
      n := 1;
    } else {
      var p := s[..|s| - 1];
      assert Follows(s[|s| - 2], s[|s| - 1]);
      n := LifeSpelled(p);
      if |s| == 2 {
        n := 1;
      } else if p[|p| - 1] == VERIFYING && s[|s| - 1] == VERIFYING {
        n := n + 1;
      }
    }
  }

  lemma {:induction false} RangeImage(f: seq<string>, ids: set<string>)
    requires forall x <- ids :: x in f
    ensures |ids| <= |f|
  {
    if f == [] {
      assert ids == {};
    } else {
      RangeImage(f[1..], ids - {f[0]});
    }
  }

  function Unfinished(m: Mock): set<string> {
    set t | t in m.infos && (m.infos[t].log == [] || LastState(m.infos[t]) != COMPLETE)
  }

  lemma AtMostParallelism(m: Mock)
    requires Valid(m)
    ensures |Unfinished(m)| <= PARALLELISM
  {
    var ids := seq(PARALLELISM, i requires 0 <= i < PARALLELISM => m.queue[i].txID);
    forall t <- Unfinished(m) ensures t in ids {
      assert RecordOk(m, t);
      var i: nat :| InSlot(m, t, i);
      assert ids[i] == t;
    }
    RangeImage(ids, Unfinished(m));
  }

  /** The record of transaction t is its share of the stream: its log spells a prefix of
      Submitted Proving Verifying+ Complete at the times of its events, signed by user,
      prover and nodes; once finished it took as long as the log says. */
  ghost predicate Lived(m: Mock, t: string) {
    if t !in m.infos then StagesIn(m.events, t) == []
    else
      var info := m.infos[t];
      && Signed(info) && Stages(info.log) == StagesIn(m.events, t)
      && info.state == (if LastState(info) == COMPLETE then COMPLETE else PROVING)
      && (exists n :: n >= 1 && LogStates(info.log) <= FullLife(n))
      && (LastState(info) == COMPLETE ==>
            var took := info.log[|info.log| - 1].timestamp - info.log[0].timestamp;
            info.duration == if took > 9223372036854775807 then 9223372036854775807
                             else if took < -9223372036854775808 then -9223372036854775808 else took)
  }

  /** Slot i is where the log of its transaction is. */
  ghost predicate SlotFollows(m: Mock, i: nat)
    requires i < |m.queue|
  {
    var e := m.queue[i];
    e.state != UNKNOWN ==> e.txID in m.infos && m.infos[e.txID].log != [] && LastState(m.infos[e.txID]) == e.state
  }

  lemma Lives(m: Mock, t: string)
    requires Valid(m)
    ensures Lived(m, t)
  {
    if t in m.infos {
      assert RecordOk(m, t);
      var n := LifeSpelled(LogStates(m.infos[t].log));
    }
  }

  /** On every run with fresh ids: no call fails, every transaction has lived, every
      slot follows its transaction, and no more than twenty are unfinished. */
  lemma LifeTheorem(draws: seq<Draw>, t: string)
    requires Fair(draws)
    ensures After(draws).Some?
    ensures var m := After(draws).value;
      Lived(m, t) && |Unfinished(m)| <= 20 && forall i :: 0 <= i < 20 ==> SlotFollows(m, i)
  {
    RunValid(draws);
    var m := After(draws).value;
    AtMostParallelism(m);
    Lives(m, t);
  }

  // ---------------------------------------------------------------------------
  // The stream never takes a transaction backwards

  ghost predicate Rising(events: seq<Event>) {
    forall i, j :: 0 <= i < j < |events| && events[i].txID == events[j].txID
      ==> events[i].state <= events[j].state
  }

  lemma {:induction false} LifeRises(s: seq<State>, i: nat, j: nat)
    requires Lifecycle(s) && i <= j < |s|
    ensures s[i] <= s[j]
  {
    if i < j {
      LifeRises(s, i, j - 1);
      assert Follows(s[j - 1], s[j]);
    }
  }

  lemma {:induction false} StateAt(events: seq<Event>, i: nat) returns (k: nat)
    requires i < |events|
    ensures k < |StagesIn(events, events[i].txID)|
    ensures StagesIn(events, events[i].txID)[k].state == events[i].state
  {
    var p := events[..|events| - 1];
    if i < |p| { k := StateAt(p, i); } else { k := |StagesIn(p, events[i].txID)|; }
  }

  /** The event of a call is no lower than any earlier one of its transaction. */
  lemma TickRises(m: Mock, d: Draw, i: nat)
    requires Valid(m) && InRange(m, d) && Valid(Tick(m, d)) && Tick(m, d).queue[d.slot].txID in Tick(m, d).infos
    requires i < |m.events| && m.events[i].txID == Tick(m, d).queue[d.slot].txID
    ensures m.events[i].state <= Tick(m, d).queue[d.slot].state
  {
    var m' := Tick(m, d);
    var e := m'.queue[d.slot];
    StagesInAppend(m.events, e, e.txID);
    assert RecordOk(m', e.txID);
    var log := m'.infos[e.txID].log;
    var k := StateAt(m.events, i);
    assert Stages(log)[k].state == m.events[i].state && Stages(log)[|log| - 1].state == e.state;
    LifeRises(LogStates(log), k, |log| - 1);
  }

  lemma NextRises(m: Mock, d: Draw)
    requires Valid(m) && InRange(m, d) && (Restarts(m.queue[d.slot]) ==> Fresh(m, d)) && Rising(m.events)
    ensures Rising(Tick(m, d).events) && NextSlot(m.queue[d.slot], d).txID != ""
  {
    var m' := Tick(m, d);
    ThisRecord(m, d);
    TickValid(m, d);
    forall i | 0 <= i < |m.events| && m.events[i].txID == m'.queue[d.slot].txID
      ensures m.events[i].state <= m'.queue[d.slot].state
    {
      TickRises(m, d, i);
    }
  }

  lemma {:induction false} RunRises(draws: seq<Draw>)
    requires Fair(draws)
    ensures After(draws).Some? && Rising(After(draws).value.events)
    ensures forall e <- After(draws).value.events :: e.txID != ""
  {
    RunValid(draws);
    if draws != [] {
      var p, d := draws[..|draws| - 1], draws[|draws| - 1];
      RunRises(p);
      RunValid(p);
      NextRises(After(p).value, d);
    }
  }

  // ---------------------------------------------------------------------------
  // The store object

  class Store {
    const eventQueue: array<Event>
    var eventMap: map<string, TxInfo>
    var events: seq<Event>
    /** What has been sent on the events channel. */
    var sent: seq<Event>

    ghost function Model(): Mock
      reads this, eventQueue
    {
      Mock(eventQueue[..], eventMap, events)
    }

    constructor ()
      ensures Model() == Empty() && sent == [] && fresh(eventQueue)
    {
      eventQueue := new Event[PARALLELISM](_ => ZERO_EVENT);
      eventMap, events, sent := map[], [], [];
    }

    method NextEvent(d: Draw) returns (e: Event)
      requires InRange(Model(), d)
      modifies this`eventMap, eventQueue
      ensures Model().(events := events + [e]) == Tick(old(Model()), d)
    {
      var i := d.slot;
      var slot := eventQueue[i];
      if slot.state == SUBMITTED {
        eventQueue[i] := slot.(state := PROVING, timestamp := d.now);
        var info := if slot.txID in eventMap then eventMap[slot.txID] else ZERO_INFO;
        info := info.(log := info.log + [TxLogEvent(PROVING, "node id", slot.proverID, d.now)]);
        eventMap := eventMap[slot.txID := info];
      } else if slot.state == PROVING {
        eventQueue[i] := slot.(state := VERIFYING, timestamp := d.now);
        var info := if slot.txID in eventMap then eventMap[slot.txID] else ZERO_INFO;
        info := info.(log := info.log + [TxLogEvent(VERIFYING, "node id", d.id, d.now)]);
        eventMap := eventMap[slot.txID := info];
      } else if slot.state == VERIFYING {
        var state := if d.finish then COMPLETE else VERIFYING;
        eventQueue[i] := slot.(state := state, timestamp := d.now);
        var info := if slot.txID in eventMap then eventMap[slot.txID] else ZERO_INFO;
        if state == COMPLETE {
          info := info.(duration := Sub(d.now, info.log[0].timestamp), state := COMPLETE);
        }
        info := info.(log := info.log + [TxLogEvent(state, "node id", d.id, d.now)]);
        eventMap := eventMap[slot.txID := info];
      } else {
        eventQueue[i] := Event(SUBMITTED, d.txID, d.proverID, d.tag, d.now);
        eventMap := eventMap[d.txID := TxInfo(PROVING, 0, d.txID, d.id, d.proverID,
                                              [TxLogEvent(SUBMITTED, "user id", d.id, d.now)])];
      }
      e := eventQueue[i];
    }

    /** Appends each event before offering it on the channel, until told to stop. */
    method Run(draws: seq<Draw>) returns (calls: nat)
      requires Model() == Empty() && sent == [] && Fair(draws)
      modifies this, eventQueue
      ensures calls <= |draws| && After(draws[..calls]) == Some(Model())
      ensures calls == |draws| || sent != events
      ensures sent == events || (events != [] && sent == events[..|events| - 1])
    {
      calls := 0;
      while calls < |draws|
        invariant calls <= |draws| && After(draws[..calls]) == Some(Model()) && sent == events
      {
        AfterNext(draws, calls);
        var e := NextEvent(draws[calls]);
        events := events + [e];
        calls := calls + 1;
        var done := *;
        if done {
          return;
        }
        sent := sent + [e];
      }
    }
  }

  lemma AfterLast(draws: seq<Draw>)
    requires Fair(draws) && draws != []
    ensures var p, d := draws[..|draws| - 1], draws[|draws| - 1];
      After(p).Some? && InRange(After(p).value, d) && After(draws) == Some(Tick(After(p).value, d))
  {
    RunValid(draws);
  }

  lemma AfterNext(draws: seq<Draw>, k: nat)
    requires Fair(draws) && k < |draws|
    ensures After(draws[..k]).Some?
    ensures var m := After(draws[..k]).value; InRange(m, draws[k]) && After(draws[..k + 1]) == Some(Tick(m, draws[k]))
  {
    FairPrefix(draws, k + 1);
    PrefixParts(draws, k);
    AfterLast(draws[..k + 1]);
  }

  lemma PrefixParts(draws: seq<Draw>, k: nat)
    requires k < |draws|
    ensures var q := draws[..k + 1]; |q| == k + 1 && q[..|q| - 1] == draws[..k] && q[|q| - 1] == draws[k]
  {
  }

  lemma {:induction false} FairPrefix(draws: seq<Draw>, k: nat)
    requires Fair(draws) && k <= |draws|
    ensures Fair(draws[..k])
  {
    if k < |draws| {
      FairPrefix(draws[..|draws| - 1], k);
      assert draws[..|draws| - 1][..k] == draws[..k];
    } else {
      assert draws[..k] == draws;
    }
  }
}
