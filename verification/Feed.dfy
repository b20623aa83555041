/** Across components: the replay buffer inside the fan-out has the history the
    buffer was proved to have, and fed by the mock store it is never behind. */
module Feed {
  import opened Model
  import opened Frames
  import opened EventBuffer
  import opened BufferHistory
  import Fanout
  import MockStore

  /** The events broadcast in a run, in order. */
  function Broadcasts(run: seq<Fanout.Step>): seq<Event> {
    if run == [] then []
    else Broadcasts(Fanout.Drop(run)) + (if Fanout.Final(run).Begin? then [Fanout.Final(run).e] else [])
  }

  /** The same, as the buffer stores them. */
  function Entries(run: seq<Fanout.Step>): (xs: seq<Entry>)
    ensures |xs| == |Broadcasts(run)|
    ensures forall i :: 0 <= i < |xs| ==>
      xs[i].txID == Broadcasts(run)[i].txID && xs[i].state == Broadcasts(run)[i].state && xs[i].data != ""
  {
    if run == [] then []
    else
      var x := Fanout.Final(run);
      Entries(Fanout.Drop(run)) + (if x.Begin? then [EntryOf(x.e, WriteEvent(x.e, x.row))] else [])
  }

  lemma {:induction false} HeadIsStoreAll(run: seq<Fanout.Step>)
    ensures Fanout.Head(run) == StoreAll(New(Fanout.BUFFER_SIZE), Entries(run))
  {
    if run != [] {
      HeadIsStoreAll(Fanout.Drop(run));
      var xs := Entries(run);
      if Fanout.Final(run).Begin? {
        assert xs[..|xs| - 1] == Entries(Fanout.Drop(run));
      } else {
        assert xs == Entries(Fanout.Drop(run));
      }
    }
  }

  lemma HeadRefines(run: seq<Fanout.Step>)
    requires Fanout.Exec(run).Some? && !Fanout.Exec(run).value.panicked && NoOrphans(100, Entries(run))
    ensures var r := Fanout.Exec(run).value.head;
      Valid(r) && Contents(r) == OrderedAll(100, Entries(run))
  {
    Fanout.Safety(run);
    HeadIsStoreAll(run);
    RunRefines(100, Entries(run));
  }

  lemma EntriesNamed(run: seq<Fanout.Step>)
    requires forall e <- Broadcasts(run) :: e.txID != ""
    ensures Named(Entries(run))
  {
    forall i | 0 <= i < |Entries(run)| ensures Entries(run)[i].txID != "" {
      assert Broadcasts(run)[i] in Broadcasts(run);
    }
  }

  /** In every reachable state of the fan-out whose broadcasts orphan nothing, headMap is a
      bijection onto the occupied slots and the residents are those of the history. */
  lemma HeadHistory(run: seq<Fanout.Step>)
    requires Fanout.Exec(run).Some? && !Fanout.Exec(run).value.panicked && NoOrphans(100, Entries(run))
    ensures var r := Fanout.Exec(run).value.head;
      Valid(r) && Described(100, Entries(run), Contents(r))
  {
    HeadRefines(run);
    History(100, Entries(run));
  }

  ghost predicate RisingEntries(xs: seq<Entry>) {
    forall i, j :: 0 <= i < j < |xs| && xs[i].txID == xs[j].txID ==> xs[i].state <= xs[j].state
  }

  /** x is the latest entry of its transaction in the whole history. */
  ghost predicate Newest(xs: seq<Entry>, x: Entry) {
    exists k :: 0 <= k < |xs| && xs[k] == x && forall j :: k < j < |xs| ==> xs[j].txID != x.txID
  }

  /** If no transaction ever goes backwards, every resident is its newest event,
      even after eviction and re-admission. */
  lemma NewestResident(n: nat, xs: seq<Entry>, j: nat)
    requires n > 0 && RisingEntries(xs) && j < |OrderedAll(n, xs)|
    ensures Newest(xs, OrderedAll(n, xs)[j])
  {
    History(n, xs);
    var x, from := OrderedAll(n, xs)[j], Last(Admissions(n, xs), n)[j];
    assert Explains(xs, from, x);
    var k: nat :| Reached(xs, from, x, k);
    assert forall i :: k < i < |xs| ==> xs[i].txID != x.txID;
  }

  /** ... and no add is ever rejected as stale. */
  lemma NeverStale(n: nat, xs: seq<Entry>, k: nat)
    requires n > 0 && NoOrphans(n, xs) && RisingEntries(xs) && k < |xs|
    ensures var r := StoreAll(New(n), xs[..k]);
      xs[k].txID in r.headMap ==> r.headMap[xs[k].txID].state <= xs[k].state
  {
    var p := xs[..k];
    var r := StoreAll(New(n), p);
    PrefixClean(n, xs, k);
    RunRefines(n, p);
    if xs[k].txID in r.headMap {
      FindResident(r, xs[k].txID);
      var j := Find(Contents(r), xs[k].txID);
      ContentsAt(r, j);
      NewestResident(n, p, j);
      var i :| 0 <= i < |p| && p[i] == Contents(r)[j];
      assert xs[i] == p[i];
    }
  }

  /** The mock store's stream, broadcast up to any point, with clients doing
      whatever they like: the buffer holds the newest event of each resident, and
      would take the stream's next event in. */
  lemma MockFeedTheorem(draws: seq<MockStore.Draw>, run: seq<Fanout.Step>)
    requires MockStore.Fair(draws)
    requires Fanout.Exec(run).Some? && !Fanout.Exec(run).value.panicked
    requires MockStore.After(draws).Some? && Broadcasts(run) <= MockStore.After(draws).value.events
    ensures var r, xs := Fanout.Exec(run).value.head, Entries(run);
      && Valid(r)
      && (forall x <- Contents(r) :: Newest(xs, x))
      && (forall k :: 0 <= k < |xs| ==>
            var q := StoreAll(New(Fanout.BUFFER_SIZE), xs[..k]);
            xs[k].txID in q.headMap ==> q.headMap[xs[k].txID].state <= xs[k].state)
  {
    MockEntries(draws, run);
    NamedNoOrphans(Fanout.BUFFER_SIZE, Entries(run));
    HeadRefines(run);
    var r, xs := Fanout.Exec(run).value.head, Entries(run);
    forall x <- Contents(r) ensures Newest(xs, x) {
      var j :| 0 <= j < |Contents(r)| && Contents(r)[j] == x;
      NewestResident(Fanout.BUFFER_SIZE, xs, j);
    }
    forall k | 0 <= k < |xs|
      ensures var q := StoreAll(New(Fanout.BUFFER_SIZE), xs[..k]);
        xs[k].txID in q.headMap ==> q.headMap[xs[k].txID].state <= xs[k].state
    {
      NeverStale(Fanout.BUFFER_SIZE, xs, k);
    }
  }

  lemma MockEntries(draws: seq<MockStore.Draw>, run: seq<Fanout.Step>)
    requires MockStore.Fair(draws)
    requires MockStore.After(draws).Some? && Broadcasts(run) <= MockStore.After(draws).value.events
    ensures Named(Entries(run)) && RisingEntries(Entries(run))
  {
    MockStore.RunRises(draws);
    var events := MockStore.After(draws).value.events;
    assert forall i :: 0 <= i < |Broadcasts(run)| ==> Broadcasts(run)[i] == events[i];
    assert forall e <- Broadcasts(run) :: e in events;
    EntriesNamed(run);
  }
}
