/** From broadcast to browser: what a client has taken so far is read back as
    exactly the messages meant for it, in order. */
module EndToEnd {
  import opened Model
  import opened Frames
  import opened RoundTrip
  import opened EventBuffer
  import opened Fanout
  import opened Delivery

  // ---------------------------------------------------------------------------
  // What each client is meant to get, read off the run

  /** The slot an entry goes to, unless it is stale. */
  function Target(r: Ring, x: Entry): Option<nat>
    requires InBounds(r)
  {
    if x.txID !in r.headMap then Some(r.headIndex)
    else if x.state < r.headMap[x.txID].state then None
    else Some(r.headMap[x.txID].index)
  }

  /** The broadcast that slot i of the replay buffer was last written by. */
  function Writer(run: seq<Step>, i: nat): (x: Option<Output>)
    ensures x.Some? ==> x.value.Stored?
  {
    if run == [] then None
    else
      var p, s := Drop(run), Final(run);
      if s.Begin? && Target(Head(p), EntryOf(s.e, WriteEvent(s.e, s.row))) == Some(i) then Some(Stored(s.e, s.row))
      else Writer(p, i)
  }

  /** What k turns of a replay send: the resident broadcasts in slot order. */
  function Residents(run: seq<Step>, k: nat): seq<Output>
    requires k <= BUFFER_SIZE
  {
    if k == 0 then []
    else
      var x := Writer(run, Turn(Head(run).headIndex + k, BUFFER_SIZE));
      Residents(run, k - 1) + (if x.Some? then [x.value] else [])
  }

  /** The residents client h found when it subscribed, if it asked for them. */
  function FoundBy(run: seq<Step>, h: nat): seq<Output> {
    if run == [] then []
    else if Final(run).Subscribe? && |Filters(Drop(run))| == h then
      if Final(run).prefill then Residents(Drop(run), BUFFER_SIZE) else []
    else FoundBy(Drop(run), h)
  }

  /** The events broadcast while client h was subscribed that its filter accepts. */
  ghost function AcceptedBy(run: seq<Step>, h: nat): (xs: seq<Output>)
    ensures |xs| == |Accepted(run, h)|
  {
    if run == [] then []
    else
      var x := Final(run);
      AcceptedBy(Drop(run), h) + (if x.Begin? && Wants(Drop(run), h, x.e) then [Live(x.e, x.row)] else [])
  }

  /** First what it found, then what it accepted, except where its retry timed out. */
  ghost function MeantFor(run: seq<Step>, h: nat): seq<Output> {
    FoundBy(run, h) + Select(AcceptedBy(run, h), Kept(run, h))
  }

  // ---------------------------------------------------------------------------
  // ... and what it is sent

  function Texts(xs: seq<Output>): (ts: seq<string>)
    ensures |ts| == |xs|
  {
    seq(|xs|, i requires 0 <= i < |xs| => Text(xs[i]))
  }

  lemma TextsJoin(xs: seq<Output>, ys: seq<Output>)
    ensures Texts(xs + ys) == Texts(xs) + Texts(ys)
  {
  }

  /** The writer of an occupied slot has its transaction, its frame, and its state if the map points there. */
  ghost predicate WrittenBy(r: Ring, i: nat, x: Option<Output>)
    requires i < |r.head|
  {
    var slot := r.head[i];
    if x.None? then !Occupied(slot)
    else
      && x.value.Stored? && slot == Slot(x.value.e.txID, Text(x.value)) && Occupied(slot)
      && (slot.txID in r.headMap && r.headMap[slot.txID].index == i ==> r.headMap[slot.txID].state == x.value.e.state)
  }

  lemma {:induction false} WriterOf(run: seq<Step>, i: nat)
    requires i < BUFFER_SIZE
    ensures WrittenBy(Head(run), i, Writer(run, i))
  {
    if run != [] {
      WriterOf(Drop(run), i);
    }
  }

  lemma {:induction false} ResidentTexts(run: seq<Step>, k: nat)
    requires k <= BUFFER_SIZE
    ensures Texts(Residents(run, k)) == Emitted(Head(run), k)
  {
    if k > 0 {
      ResidentTexts(run, k - 1);
      var i := Turn(Head(run).headIndex + k, BUFFER_SIZE);
      WriterOf(run, i);
      var x := Writer(run, i);
      TextsJoin(Residents(run, k - 1), if x.Some? then [x.value] else []);
    }
  }

  lemma {:induction false} FoundTexts(run: seq<Step>, h: nat)
    ensures Texts(FoundBy(run, h)) == Snapshot(run, h)
  {
    if run != [] {
      FoundTexts(Drop(run), h);
      ResidentTexts(Drop(run), BUFFER_SIZE);
    }
  }

  lemma {:induction false} AcceptedTexts(run: seq<Step>, h: nat)
    ensures Texts(AcceptedBy(run, h)) == Accepted(run, h)
  {
    if run != [] {
      var x := Final(run);
      AcceptedTexts(Drop(run), h);
      TextsJoin(AcceptedBy(Drop(run), h), if x.Begin? && Wants(Drop(run), h, x.e) then [Live(x.e, x.row)] else []);
    }
  }

  lemma {:induction false} SelectTexts(xs: seq<Output>, mask: seq<bool>)
    requires |xs| == |mask|
    ensures Texts(Select(xs, mask)) == Select(Texts(xs), mask)
  {
    if xs != [] {
      var n := |xs| - 1;
      SelectTexts(xs[..n], mask[..n]);
      assert Texts(xs)[..n] == Texts(xs[..n]);
      TextsJoin(Select(xs[..n], mask[..n]), if mask[n] then [xs[n]] else []);
    }
  }

  lemma MeantTexts(run: seq<Step>, h: nat)
    ensures Texts(MeantFor(run, h)) == Given(run, h)
  {
    FoundTexts(run, h);
    AcceptedTexts(run, h);
    SelectTexts(AcceptedBy(run, h), Kept(run, h));
    TextsJoin(FoundBy(run, h), Select(AcceptedBy(run, h), Kept(run, h)));
  }

  // ---------------------------------------------------------------------------
  // Reading it back

  /** The bytes a client has taken. */
  function Concat(frames: seq<string>): string {
    if frames == [] then "" else frames[0] + Concat(frames[1..])
  }

  lemma {:induction false} ConcatTexts(xs: seq<Output>)
    ensures Concat(Texts(xs)) == TextOf(xs)
  {
    if xs != [] {
      assert Texts(xs)[1..] == Texts(xs[1..]);
      ConcatTexts(xs[1..]);
    }
  }

  /** After each frame the bytes say what is meant so far. */
  ghost predicate ReadsAlong(taken: seq<string>, xs: seq<Output>)
    requires |taken| == |xs|
  {
    && Parse(Concat(taken)) == MeantBy(xs)
    && (xs != [] ==> ReadsAlong(taken[..|xs| - 1], xs[..|xs| - 1]))
  }

  lemma {:induction false} ReadsAlongIff(taken: seq<string>, xs: seq<Output>)
    requires taken == Texts(xs)
    ensures ReadsAlong(taken, xs) <==> InStep(xs)
  {
    ConcatTexts(xs);
    if xs != [] {
      assert Texts(xs[..|xs| - 1]) == taken[..|xs| - 1];
      ReadsAlongIff(taken[..|xs| - 1], xs[..|xs| - 1]);
    }
  }

  lemma TextsPrefix(xs: seq<Output>, taken: seq<string>, queued: seq<string>)
    requires Texts(xs) == taken + queued
    ensures |taken| <= |xs| && taken == Texts(xs[..|taken|])
  {
    assert |Texts(xs)| == |taken| + |queued|;
    assert Texts(xs[..|taken|]) == Texts(xs)[..|taken|];
  }

  /** At rest, what a client has taken is the beginning of what is meant for it: the
      residents it found, then the accepted events but for its timeouts. Read after each
      frame, the bytes always say exactly that, if and only if every one of them is faithful. */
  lemma ClientReads(run: seq<Step>, h: nat)
    requires Exec(run).Some? && Exec(run).value.phase.Idle? && !Exec(run).value.panicked
    requires Keeps(run, h) && h < |Filters(run)|
    ensures h < |Exec(run).value.chans|
    ensures var taken := Exec(run).value.chans[h].received;
      && |taken| <= |MeantFor(run, h)| && taken == Texts(MeantFor(run, h)[..|taken|])
      && (ReadsAlong(taken, MeantFor(run, h)[..|taken|])
          <==> forall k :: 0 <= k < |taken| ==> Faithful(MeantFor(run, h)[..|taken|][k]))
  {
    DeliveryTheorem(run, h);
    MeantTexts(run, h);
    var c, xs := Exec(run).value.chans[h], MeantFor(run, h);
    TextsPrefix(xs, c.received, c.buf);
    ReadsAlongIff(c.received, xs[..|c.received|]);
    StreamIff(xs[..|c.received|]);
  }
}
