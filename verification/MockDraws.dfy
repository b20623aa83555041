/** The mock store's stream and records told from the draws alone. */
module MockDraws {
  import opened Model
  import opened MockStore

  /** The latest draw of a slot, or -1. */
  function LastOn(draws: seq<Draw>, slot: nat): (i: int)
    ensures -1 <= i < |draws|
  {
    if draws == [] then -1
    else if draws[|draws| - 1].slot == slot then |draws| - 1
    else LastOn(draws[..|draws| - 1], slot)
  }

  /** Event i starts a transaction if its slot was free, and otherwise takes the slot's one step on. */
  ghost predicate Made(draws: seq<Draw>, events: seq<Event>, i: nat)
    requires i < |draws| == |events|
  {
    var d, last, e := draws[i], LastOn(draws[..i], draws[i].slot), events[i];
    if last < 0 || events[last].state == COMPLETE then
      e == Event(SUBMITTED, d.txID, d.proverID, d.tag, d.now)
    else
      var before := events[last];
      && e.txID == before.txID && e.proverID == before.proverID && e.tag == before.tag && e.timestamp == d.now
      && (before.state == SUBMITTED ==> e.state == PROVING)
      && (before.state == PROVING ==> e.state == VERIFYING)
      && (before.state == VERIFYING ==> e.state == if d.finish then COMPLETE else VERIFYING)
  }

  /** Each slot holds its latest event. */
  ghost predicate Holding(draws: seq<Draw>, m: Mock) {
    && |m.events| == |draws| && |m.queue| == 20
    && forall j :: 0 <= j < 20 ==>
         m.queue[j] == if LastOn(draws, j) < 0 then ZERO_EVENT else m.events[LastOn(draws, j)]
  }

  lemma LastOnAppend(draws: seq<Draw>, d: Draw)
    ensures forall j: nat :: LastOn(draws + [d], j) == if j == d.slot then |draws| else LastOn(draws, j)
  {
    assert (draws + [d])[..|draws|] == draws;
  }

  lemma MadeLater(draws: seq<Draw>, events: seq<Event>, d: Draw, e: Event, i: nat)
    requires i < |draws| == |events| && Made(draws, events, i)
    ensures Made(draws + [d], events + [e], i)
  {
    assert (draws + [d])[..i] == draws[..i];
  }

  ghost predicate AllMade(draws: seq<Draw>, events: seq<Event>) {
    && |events| == |draws|
    && forall i :: 0 <= i < |draws| ==> Made(draws, events, i) && events[i].state != UNKNOWN
  }

  lemma MadeNow(draws: seq<Draw>, m: Mock, d: Draw)
    requires Holding(draws, m) && InRange(m, d) && AllMade(draws, m.events)
    ensures var e := NextSlot(m.queue[d.slot], d);
      Made(draws + [d], m.events + [e], |draws|) && e.state != UNKNOWN
  {
    assert (draws + [d])[..|draws|] == draws;
  }

  lemma HoldingNext(draws: seq<Draw>, m: Mock, d: Draw)
    requires Holding(draws, m) && InRange(m, d)
    ensures Holding(draws + [d], Tick(m, d))
  {
    LastOnAppend(draws, d);
  }

  lemma AllMadeNext(draws: seq<Draw>, m: Mock, d: Draw)
    requires Holding(draws, m) && InRange(m, d) && AllMade(draws, m.events)
    ensures AllMade(draws + [d], m.events + [NextSlot(m.queue[d.slot], d)])
  {
    var e := NextSlot(m.queue[d.slot], d);
    MadeNow(draws, m, d);
    forall i | 0 <= i < |draws| ensures Made(draws + [d], m.events + [e], i) { MadeLater(draws, m.events, d, e, i); }
  }

  lemma StreamNext(draws: seq<Draw>, m: Mock, d: Draw)
    requires Holding(draws, m) && InRange(m, d) && AllMade(draws, m.events)
    ensures Holding(draws + [d], Tick(m, d)) && AllMade(draws + [d], Tick(m, d).events)
  {
    HoldingNext(draws, m, d);
    AllMadeNext(draws, m, d);
  }

  /** Every event is made as its draw and the events before it say. */
  lemma {:induction false} StreamTheorem(draws: seq<Draw>)
    requires Fair(draws)
    ensures After(draws).Some? && Holding(draws, After(draws).value) && AllMade(draws, After(draws).value.events)
  {
    if draws != [] {
      var p, d := draws[..|draws| - 1], draws[|draws| - 1];
      assert draws == p + [d];
      StreamTheorem(p);
      AfterLast(draws);
      StreamNext(p, After(p).value, d);
    }
  }

  /** A draw may follow fair ones exactly if it picks one of the twenty slots and, when that
      is free, brings an id that no event had before. */
  lemma FairIff(draws: seq<Draw>, d: Draw)
    requires Fair(draws)
    ensures After(draws).Some? && |After(draws).value.events| == |draws|
    ensures var events, last := After(draws).value.events, LastOn(draws, d.slot);
      Fair(draws + [d]) <==>
        d.slot < 20 && (last < 0 || events[last].state == COMPLETE ==>
          d.txID != "" && forall e <- events :: e.txID != d.txID)
  {
    StreamTheorem(draws);
    RunValid(draws);
    assert (draws + [d])[..|draws|] == draws;
    var m := After(draws).value;
    KnownIds(m, d.txID);
  }

  /** The transactions with a record are those of the stream. */
  lemma KnownIds(m: Mock, t: string)
    requires Valid(m)
    ensures t in m.infos <==> exists e :: e in m.events && e.txID == t
  {
    StagesOccur(m.events, t);
    if t in m.infos { assert RecordOk(m, t); }
  }

  lemma {:induction false} StagesOccur(events: seq<Event>, t: string)
    ensures StagesIn(events, t) != [] <==> exists e :: e in events && e.txID == t
  {
    if events != [] {
      var p, e := events[..|events| - 1], events[|events| - 1];
      assert events == p + [e];
      StagesOccur(p, t);
      assert e in events;
    }
  }

  /** The draws that made the events of transaction t, in order. */
  function Makers(draws: seq<Draw>, events: seq<Event>, t: string): seq<Draw>
    requires |draws| == |events|
  {
    if draws == [] then []
    else
      var n := |draws| - 1;
      Makers(draws[..n], events[..n], t) + (if events[n].txID == t then [draws[n]] else [])
  }

  /** The k-th entry of a log tells who did what, and when. */
  ghost predicate EntryMade(ms: seq<Draw>, x: TxLogEvent, k: nat)
    requires k < |ms|
  {
    && x.timestamp == ms[k].now
    && x.idType == (if k == 0 then "user id" else "node id")
    && x.id == (if k == 1 then ms[0].proverID else ms[k].id)
    && x.state == (if k == 0 then SUBMITTED else if k == 1 then PROVING else if k == 2 then VERIFYING
                   else if ms[k].finish then COMPLETE else VERIFYING)
  }

  /** A record is what its makers made of it; a finished one took as long as they say, within an int64. */
  ghost predicate RecordMade(ms: seq<Draw>, info: TxInfo) {
    && |info.log| == |ms| > 0
    && info.txID == ms[0].txID && info.userID == ms[0].id && info.proverID == ms[0].proverID
    && (forall k :: 0 <= k < |ms| ==> EntryMade(ms, info.log[k], k))
    && var n := |ms| - 1; var took := ms[n].now - ms[0].now;
       if n >= 3 && ms[n].finish then
         && info.state == COMPLETE
         && info.duration == if took > 9223372036854775807 then 9223372036854775807
                             else if took < -9223372036854775808 then -9223372036854775808 else took
       else info.state == PROVING && info.duration == 0
  }

  lemma MakersAppend(draws: seq<Draw>, events: seq<Event>, d: Draw, e: Event, t: string)
    requires |draws| == |events|
    ensures Makers(draws + [d], events + [e], t) == Makers(draws, events, t) + (if e.txID == t then [d] else [])
  {
    assert (draws + [d])[..|draws|] == draws && (events + [e])[..|events|] == events;
  }

  lemma FirstMade(d: Draw, info: TxInfo, e: Event)
    requires Restarts(e)
    ensures RecordMade([d], NextInfo(info, e, d))
  {
  }

  lemma NextMade(ms: seq<Draw>, info: TxInfo, e: Event, d: Draw)
    requires RecordMade(ms, info) && !Restarts(e) && LastState(info) == e.state && e.proverID == info.proverID
    ensures RecordMade(ms + [d], NextInfo(info, e, d))
  {
    var n, ms', info' := |ms|, ms + [d], NextInfo(info, e, d);
    assert EntryMade(ms, info.log[n - 1], n - 1);
    forall k | 0 <= k < n + 1 ensures EntryMade(ms', info'.log[k], k) {
      if k < n { assert EntryMade(ms, info.log[k], k); }
    }
    assert EntryMade(ms, info.log[0], 0);
  }

  /** Every record is what the draws made of it. */
  lemma {:induction false} RecordTheorem(draws: seq<Draw>, t: string)
    requires Fair(draws)
    ensures After(draws).Some? && |After(draws).value.events| == |draws|
    ensures var m := After(draws).value; var ms := Makers(draws, m.events, t);
      if t in m.infos then RecordMade(ms, m.infos[t]) && m.infos[t].txID == t else ms == []
  {
    StreamTheorem(draws);
    RunValid(draws);
    if draws != [] {
      var p, d := draws[..|draws| - 1], draws[|draws| - 1];
      assert draws == p + [d];
      RecordTheorem(p, t);
      RunValid(p);
      AfterLast(draws);
      RecordStep(p, After(p).value, d, t);
    }
  }

  lemma RecordStep(p: seq<Draw>, m: Mock, d: Draw, t: string)
    requires Valid(m) && InRange(m, d) && (Restarts(m.queue[d.slot]) ==> Fresh(m, d)) && |m.events| == |p|
    requires if t in m.infos then RecordMade(Makers(p, m.events, t), m.infos[t]) else Makers(p, m.events, t) == []
    requires Valid(Tick(m, d))
    ensures var m' := Tick(m, d); |m'.events| == |p| + 1
    ensures var m' := Tick(m, d); var ms := Makers(p + [d], m'.events, t);
      if t in m'.infos then RecordMade(ms, m'.infos[t]) && m'.infos[t].txID == t else ms == []
  {
    var m', e, e' := Tick(m, d), m.queue[d.slot], NextSlot(m.queue[d.slot], d);
    var ms := Makers(p, m.events, t);
    MakersAppend(p, m.events, d, e', t);
    if t in m'.infos { assert RecordOk(m', t); }
    if e'.txID != t {
      OtherRecord(m, d, t);
      assert ms + [] == ms;
    } else if Restarts(e) {
      FirstMade(d, InfoOf(m, t), e);
      assert [] + [d] == [d];
    } else {
      assert InSlot(m, t, d.slot);
      NextMade(ms, m.infos[t], e, d);
    }
  }
}
