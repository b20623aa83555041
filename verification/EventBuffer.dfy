/** The replay buffer (api/event_buffer.go): a fixed ring of slots filled in
    place, indexed by transaction, evicting in admission order. */
module EventBuffer {
  import opened Model
  import opened Frames

  /** eventData; an empty `data` is Go's nil slice, an empty slot is Slot("", ""). */
  datatype Slot = Slot(txID: string, data: string)

  datatype Header = Header(state: State, index: nat)

  datatype Ring = Ring(headIndex: nat, head: seq<Slot>, headMap: map<string, Header>)

  /** A resident transaction, as the ring's clients see it. */
  datatype Entry = Entry(txID: string, state: State, data: string)

  const FREE := Slot("", "")

  /** What Go's indexing needs. */
  predicate InBounds(r: Ring) {
    && r.headIndex < |r.head|
    && forall t <- r.headMap :: r.headMap[t].index < |r.head|
  }

  function New(size: nat): Ring {
    Ring(0, seq(size, _ => FREE), map[])
  }

  /** a % n, for slots at most one round ahead (see TurnIsModulo). */
  function Turn(a: nat, n: nat): nat {
    if a < n then a else if a < 2 * n then a - n else 0
  }

  lemma TurnIsModulo(a: nat, n: nat)
    requires a < 2 * n
    ensures Turn(a, n) == a % n
  {
  }

  /** Files an entry under its transaction: lines 35-49 of `add`. */
  function Store(r: Ring, x: Entry): (r': Ring)
    requires InBounds(r)
    ensures InBounds(r') && |r'.head| == |r.head|
  {
    if x.txID !in r.headMap then
      Ring(Turn(r.headIndex + 1, |r.head|),
           r.head[r.headIndex := Slot(x.txID, x.data)],
           (r.headMap - {r.head[r.headIndex].txID})[x.txID := Header(x.state, r.headIndex)])
    else
      var prev := r.headMap[x.txID];
      if x.state < prev.state then r
      else r.(head := r.head[prev.index := Slot(x.txID, x.data)],
              headMap := r.headMap[x.txID := Header(x.state, prev.index)])
  }

  /** `add`: an event and its live frame, stored in replay form. */
  function Added(r: Ring, e: Event, data: string): (r': Ring)
    requires InBounds(r)
    ensures InBounds(r') && |r'.head| == |r.head|
  {
    Store(r, EntryOf(e, data))
  }

  function EntryOf(e: Event, data: string): (x: Entry)
    ensures data != "" ==> x.data != ""
  {
    Entry(e.txID, e.state, Replayed(e, data))
  }

  /** The frames sent by the first k turns of writeAllToCh. */
  function Emitted(r: Ring, k: nat): seq<string>
    requires InBounds(r) && k <= |r.head|
  {
    if k == 0 then []
    else
      var data := r.head[Turn(r.headIndex + k, |r.head|)].data;
      Emitted(r, k - 1) + (if data != "" then [data] else [])
  }

  /** Everything writeAllToCh sends. */
  function Replay(r: Ring): seq<string>
    requires InBounds(r)
  {
    Emitted(r, |r.head|)
  }

  // ---------------------------------------------------------------------------
  // The invariant, and the ordered map the ring stands for

  predicate Occupied(s: Slot) { s.data != "" }

  predicate Full(r: Ring)
    requires InBounds(r)
  {
    Occupied(r.head[r.headIndex])
  }

  /** Slots fill from 0 upwards; free slots are zero values. */
  predicate Packed(r: Ring) {
    && InBounds(r)
    && forall i | 0 <= i < |r.head| ::
         if Full(r) || i < r.headIndex then Occupied(r.head[i]) else r.head[i] == FREE
  }

  /** Every map entry points at the slot of its own transaction. */
  predicate Backed(r: Ring) {
    && InBounds(r)
    && forall t <- r.headMap ::
         r.head[r.headMap[t].index].txID == t && Occupied(r.head[r.headMap[t].index])
  }

  /** Every occupied slot is the one its transaction's map entry points at. */
  predicate Indexed(r: Ring) {
    && InBounds(r)
    && forall i | 0 <= i < |r.head| && Occupied(r.head[i]) ::
         r.head[i].txID in r.headMap && r.headMap[r.head[i].txID].index == i
  }

  /** headMap is a bijection between resident transactions and occupied slots. */
  predicate Valid(r: Ring) {
    Packed(r) && Backed(r) && Indexed(r)
  }

  /** The occupied slots, oldest admission first. */
  function Slots(r: Ring): seq<Slot>
    requires InBounds(r)
  {
    if Full(r) then r.head[r.headIndex..] + r.head[..r.headIndex] else r.head[..r.headIndex]
  }

  function StateOf(r: Ring, txID: string): State {
    if txID in r.headMap then r.headMap[txID].state else UNKNOWN
  }

  /** The ring as an insertion-ordered map, oldest entry first. */
  function Contents(r: Ring): (c: seq<Entry>)
    requires InBounds(r)
    ensures |c| == |Slots(r)|
  {
    var o := Slots(r);
    seq(|o|, i requires 0 <= i < |o| => Entry(o[i].txID, StateOf(r, o[i].txID), o[i].data))
  }

  /** The position of the transaction's entry, or |c|. */
  function Find(c: seq<Entry>, txID: string): (j: nat)
    ensures j <= |c| && (j < |c| ==> c[j].txID == txID)
    ensures forall k :: 0 <= k < j ==> c[k].txID != txID
  {
    if c == [] || c[0].txID == txID then 0 else 1 + Find(c[1..], txID)
  }

  /** The abstract operation on an ordered map of capacity n: update in place
      unless the state is lower, otherwise append and drop the oldest entry of a full map. */
  function OrderedAdd(n: nat, c: seq<Entry>, x: Entry): seq<Entry> {
    var j := Find(c, x.txID);
    if j < |c| then if x.state < c[j].state then c else c[j := x]
    else (if |c| == n && n > 0 then c[1..] else c) + [x]
  }

  // ---------------------------------------------------------------------------
  // Refinement

  /** A fresh event takes a free slot whose zero TxID "" is a resident
      transaction: the `delete` of line 37 then removes a live map entry. */
  predicate Orphans(r: Ring, txID: string)
    requires InBounds(r)
  {
    txID !in r.headMap && !Full(r) && "" in r.headMap
  }

  /** The slot where the j-th oldest entry lives. */
  function SlotOf(r: Ring, j: nat): nat
    requires InBounds(r)
  {
    if !Full(r) then j
    else if r.headIndex + j < |r.head| then r.headIndex + j
    else r.headIndex + j - |r.head|
  }

  /** What slot i holds, as an entry. */
  function SlotEntry(r: Ring, i: nat): Entry
    requires i < |r.head|
  {
    Entry(r.head[i].txID, StateOf(r, r.head[i].txID), r.head[i].data)
  }

  lemma ContentsAt(r: Ring, j: nat)
    requires Valid(r) && j < |Contents(r)|
    ensures SlotOf(r, j) < |r.head| && Occupied(r.head[SlotOf(r, j)])
    ensures Contents(r)[j] == SlotEntry(r, SlotOf(r, j))
    ensures var t := r.head[SlotOf(r, j)].txID; t in r.headMap && r.headMap[t].index == SlotOf(r, j)
  {
    assert Slots(r)[j] == r.head[SlotOf(r, j)];
  }

  /** A slot not written, of a transaction whose map entry is not touched, keeps its entry. */
  lemma SlotKept(r: Ring, r': Ring, i: nat)
    requires i < |r.head| == |r'.head| && r'.head[i] == r.head[i]
    requires var t := r.head[i].txID; t in r.headMap && t in r'.headMap && r'.headMap[t] == r.headMap[t]
    ensures SlotEntry(r', i) == SlotEntry(r, i)
  {
  }

  /** Residents are exactly the transactions of the ordered map, each once. */
  lemma FindResident(r: Ring, txID: string)
    requires Valid(r)
    ensures var j := Find(Contents(r), txID);
      if txID in r.headMap then j < |Contents(r)| && SlotOf(r, j) == r.headMap[txID].index
      else j == |Contents(r)|
  {
    var c := Contents(r);
    var j := Find(c, txID);
    if j < |c| { ContentsAt(r, j); }
    if txID in r.headMap {
      var i := r.headMap[txID].index;
      var k := if !Full(r) then i else if i >= r.headIndex then i - r.headIndex else i + |r.head| - r.headIndex;
      assert SlotOf(r, k) == i;
      ContentsAt(r, k);
    }
  }

  lemma UpdateRefines(r: Ring, x: Entry)
    requires Valid(r) && x.data != "" && x.txID in r.headMap && x.state >= r.headMap[x.txID].state
    ensures Valid(Store(r, x))
    ensures Contents(Store(r, x)) == OrderedAdd(|r.head|, Contents(r), x)
  {
    var r' := Store(r, x);
    var c, c' := Contents(r), Contents(r');
    var j := Find(c, x.txID);
    FindResident(r, x.txID);
    ContentsAt(r, j);
    UpdateValid(r, x);
    assert |c'| == |c|;
    forall k | 0 <= k < |c| ensures c'[k] == c[j := x][k] {
      UpdateAt(r, x, r', j, k);
    }
  }

  lemma UpdateAt(r: Ring, x: Entry, r': Ring, j: nat, k: nat)
    requires Valid(r) && Valid(r') && x.txID in r.headMap && r'.headIndex == r.headIndex && Full(r') == Full(r)
    requires var i := r.headMap[x.txID].index;
      && r'.head == r.head[i := Slot(x.txID, x.data)] && SlotOf(r, j) == i
      && r'.headMap == r.headMap[x.txID := Header(x.state, i)]
    requires j < |Contents(r)| == |Contents(r')| && k < |Contents(r)|
    ensures Contents(r')[k] == if k == j then x else Contents(r)[k]
  {
    ContentsAt(r, k);
    ContentsAt(r', k);
    assert SlotOf(r', k) == SlotOf(r, k);
    if k != j { SlotKept(r, r', SlotOf(r, k)); }
  }

  lemma UpdateValid(r: Ring, x: Entry)
    requires Valid(r) && x.data != "" && x.txID in r.headMap && x.state >= r.headMap[x.txID].state
    ensures var r' := Store(r, x); Valid(r') && Full(r') == Full(r)
  {
    var r' := Store(r, x);
    assert Packed(r');
    assert Backed(r');
    assert Indexed(r');
  }

  lemma AppendRefines(r: Ring, x: Entry)
    requires Valid(r) && x.data != "" && x.txID !in r.headMap && !Full(r) && "" !in r.headMap
    ensures Valid(Store(r, x))
    ensures Contents(Store(r, x)) == OrderedAdd(|r.head|, Contents(r), x)
  {
    FindResident(r, x.txID);
    AppendShape(r, x);
    AppendValid(r, x);
    assert r.headMap - {""} == r.headMap;
    AppendContents(r, x, Store(r, x));
  }

  /** r' is r with x in its first free slot. */
  ghost predicate Appends(r: Ring, x: Entry, r': Ring) {
    && Valid(r) && !Full(r) && Valid(r') && x.txID !in r.headMap
    && r'.head == r.head[r.headIndex := Slot(x.txID, x.data)]
    && r'.headMap == r.headMap[x.txID := Header(x.state, r.headIndex)]
    && if r.headIndex + 1 < |r.head| then !Full(r') && r'.headIndex == r.headIndex + 1
       else Full(r') && r'.headIndex == 0
  }

  lemma AppendContents(r: Ring, x: Entry, r': Ring)
    requires Appends(r, x, r')
    ensures |Contents(r)| < |r.head| && Contents(r') == Contents(r) + [x]
  {
    var c, c' := Contents(r), Contents(r');
    assert |c| == r.headIndex && |c'| == r.headIndex + 1;
    forall k | 0 <= k < |c'| ensures c'[k] == if k < |c| then c[k] else x { AppendAt(r, x, r', k); }
    assert c' == c + [x];
  }

  lemma AppendAt(r: Ring, x: Entry, r': Ring, k: nat)
    requires Appends(r, x, r') && k <= r.headIndex == |Contents(r)| && |Contents(r')| == r.headIndex + 1
    ensures Contents(r')[k] == if k < r.headIndex then Contents(r)[k] else x
  {
    assert SlotOf(r', k) == k;
    ContentsAt(r', k);
    if k < r.headIndex {
      ContentsAt(r, k);
      SlotKept(r, r', k);
    }
  }

  lemma AppendValid(r: Ring, x: Entry)
    requires Valid(r) && x.data != "" && x.txID !in r.headMap && !Full(r) && "" !in r.headMap
    ensures Valid(Store(r, x))
  {
    var r' := Store(r, x);
    AppendShape(r, x);
    assert Packed(r');
    assert Backed(r');
    assert Indexed(r');
  }

  /** After an append the next slot is free, or all are taken. */
  lemma AppendShape(r: Ring, x: Entry)
    requires Valid(r) && x.data != "" && x.txID !in r.headMap && !Full(r) && "" !in r.headMap
    ensures var r' := Store(r, x);
      && r'.headMap.Keys == r.headMap.Keys + {x.txID}
      && if r.headIndex + 1 < |r.head| then !Full(r') && r'.headIndex == r.headIndex + 1
         else Full(r') && r'.headIndex == 0
  {
  }

  lemma EvictRefines(r: Ring, x: Entry)
    requires Valid(r) && x.data != "" && x.txID !in r.headMap && Full(r)
    ensures Valid(Store(r, x))
    ensures Contents(Store(r, x)) == OrderedAdd(|r.head|, Contents(r), x)
  {
    FindResident(r, x.txID);
    EvictValid(r, x);
    EvictContents(r, x, Store(r, x));
  }

  /** r' is r with x in place of its oldest entry. */
  ghost predicate Evicts(r: Ring, x: Entry, r': Ring) {
    && Valid(r) && Full(r) && Valid(r') && Full(r') && x.txID !in r.headMap
    && r'.head == r.head[r.headIndex := Slot(x.txID, x.data)]
    && r'.headIndex == (if r.headIndex + 1 < |r.head| then r.headIndex + 1 else 0)
    && r'.headMap == (r.headMap - {r.head[r.headIndex].txID})[x.txID := Header(x.state, r.headIndex)]
  }

  lemma FullSize(r: Ring)
    requires InBounds(r) && Full(r)
    ensures |Contents(r)| == |r.head|
  {
  }

  lemma EvictContents(r: Ring, x: Entry, r': Ring)
    requires Evicts(r, x, r')
    ensures |Contents(r)| == |r.head| && Contents(r') == Contents(r)[1..] + [x]
  {
    var c, c' := Contents(r), Contents(r');
    FullSize(r);
    FullSize(r');
    forall k | 0 <= k < |c'| ensures c'[k] == if k + 1 < |c| then c[k + 1] else x {
      if k + 1 < |c| { EvictKept(r, x, r', k); } else { EvictNew(r, x, r', k); }
    }
    PushedOut(c, x, c');
  }

  lemma PushedOut(c: seq<Entry>, x: Entry, c': seq<Entry>)
    requires |c| == |c'| > 0 && forall k :: 0 <= k < |c'| ==> c'[k] == if k + 1 < |c| then c[k + 1] else x
    ensures c' == c[1..] + [x]
  {
  }

  lemma SlotMoves(r: Ring, r': Ring, k: nat)
    requires InBounds(r) && InBounds(r') && Full(r) && Full(r') && |r'.head| == |r.head| && k + 1 < |r.head|
    requires r'.headIndex == if r.headIndex + 1 < |r.head| then r.headIndex + 1 else 0
    ensures SlotOf(r', k) == SlotOf(r, k + 1) != r.headIndex
  {
  }

  lemma EvictKept(r: Ring, x: Entry, r': Ring, k: nat)
    requires Evicts(r, x, r') && k + 1 < |r.head| == |Contents(r)| == |Contents(r')|
    ensures Contents(r')[k] == Contents(r)[k + 1]
  {
    SlotMoves(r, r', k);
    ContentsAt(r, k + 1);
    ContentsAt(r', k);
    SlotKept(r, r', SlotOf(r, k + 1));
  }

  lemma EvictNew(r: Ring, x: Entry, r': Ring, k: nat)
    requires Evicts(r, x, r') && k + 1 == |r.head| == |Contents(r')|
    ensures Contents(r')[k] == x
  {
    assert SlotOf(r', k) == r.headIndex;
    ContentsAt(r', k);
  }

  lemma EvictValid(r: Ring, x: Entry)
    requires Valid(r) && x.data != "" && x.txID !in r.headMap && Full(r)
    ensures var r' := Store(r, x); Valid(r') && Full(r')
  {
    var r' := Store(r, x);
    assert Packed(r');
    assert Backed(r');
    assert Indexed(r');
  }

  /** From any state where headMap is a bijection onto the occupied slots, filing an
      entry keeps it one exactly when it orphans nothing, and then it is the
      abstract operation on the ordered map. */
  lemma StoreRefinesIff(r: Ring, x: Entry)
    requires Valid(r) && x.data != ""
    ensures Valid(Store(r, x)) <==> !Orphans(r, x.txID)
    ensures !Orphans(r, x.txID) ==> Contents(Store(r, x)) == OrderedAdd(|r.head|, Contents(r), x)
  {
    if x.txID in r.headMap {
      if x.state >= r.headMap[x.txID].state {
        UpdateRefines(r, x);
      } else {
        FindResident(r, x.txID);
        ContentsAt(r, Find(Contents(r), x.txID));
      }
    } else if Full(r) {
      EvictRefines(r, x);
    } else if "" !in r.headMap {
      AppendRefines(r, x);
    } else {
      var i := r.headMap[""].index;
      var r' := Store(r, x);
      assert r'.head[i] == r.head[i] && Occupied(r'.head[i]);
      assert !Indexed(r');
    }
  }

  // ---------------------------------------------------------------------------
  // Replay

  lemma {:induction false} EmittedFull(r: Ring, k: nat)
    requires Packed(r) && Full(r) && k < |r.head|
    ensures Emitted(r, k) == Datas(Slots(r)[1..k + 1])
  {
    if k > 0 {
      EmittedFull(r, k - 1);
      TurnSlot(r, k);
      DatasSlice(Slots(r), k);
    }
  }

  lemma {:induction false} EmittedPartial(r: Ring, k: nat)
    requires Packed(r) && !Full(r) && k < |r.head|
    ensures Emitted(r, k) ==
      if r.headIndex + k < |r.head| then [] else Datas(Slots(r)[..r.headIndex + k + 1 - |r.head|])
  {
    if k > 0 {
      EmittedPartial(r, k - 1);
      TurnSlot(r, k);
      if r.headIndex + k >= |r.head| {
        DatasTake(Slots(r), r.headIndex + k - |r.head|);
      }
    }
  }

  /** What the k-th turn finds: the k-th oldest of a full ring, otherwise nothing, or the slots from 0 on. */
  lemma TurnSlot(r: Ring, k: nat)
    requires Packed(r) && 0 < k < |r.head|
    ensures var data := r.head[Turn(r.headIndex + k, |r.head|)].data; var m := r.headIndex + k - |r.head|;
      if Full(r) then data == Slots(r)[k].data && data != ""
      else if m < 0 then data == "" else m < |Slots(r)| && data == Slots(r)[m].data && data != ""
  {
  }

  lemma DatasSlice(s: seq<Slot>, k: nat)
    requires 1 <= k < |s|
    ensures Datas(s[1..k + 1]) == Datas(s[1..k]) + [s[k].data]
  {
    assert s[1..k + 1] == s[1..k] + [s[k]];
  }

  lemma DatasTake(s: seq<Slot>, m: nat)
    requires m < |s|
    ensures Datas(s[..m + 1]) == Datas(s[..m]) + [s[m].data] && Datas(s[..0]) == []
  {
    assert s[..m + 1] == s[..m] + [s[m]];
  }

  function Datas(s: seq<Slot>): (d: seq<string>)
    ensures |d| == |s|
  {
    seq(|s|, i requires 0 <= i < |s| => s[i].data)
  }

  lemma DatasAppend(s: seq<Slot>, x: Slot)
    ensures Datas(s + [x]) == Datas(s) + [x.data]
  {
  }

  lemma ReplayLast(r: Ring)
    requires InBounds(r)
    ensures Replay(r) == Emitted(r, |r.head| - 1) + (if Full(r) then [r.head[r.headIndex].data] else [])
  {
  }

  lemma Rotated(s: seq<Slot>, d: seq<string>, last: string)
    requires |s| > 0 && d == Datas(s[1..|s|]) && last == s[0].data
    ensures d + [last] == Datas(s[1..] + [s[0]])
  {
    assert s[1..|s|] == s[1..];
    DatasAppend(s[1..], s[0]);
  }

  lemma AllButLast(r: Ring)
    requires Packed(r)
    ensures Emitted(r, |r.head| - 1) == Datas(if Full(r) then Slots(r)[1..|Slots(r)|] else Slots(r))
  {
    var n, s := |r.head|, Slots(r);
    if Full(r) {
      EmittedFull(r, n - 1);
    } else {
      EmittedPartial(r, n - 1);
      if r.headIndex == 0 {
        assert s == [] && Datas(s) == [];
      } else {
        assert r.headIndex + (n - 1) + 1 - n == |s|;
        assert s[..|s|] == s;
      }
    }
  }

  /** Every occupied slot is sent once: in admission order while a slot is free,
      and with the oldest moved to the end when the ring is full. */
  lemma ReplayOrder(r: Ring)
    requires Packed(r)
    ensures Replay(r) == if Full(r) then Datas(Slots(r)[1..] + [Slots(r)[0]]) else Datas(Slots(r))
  {
    ReplayLast(r);
    AllButLast(r);
    if Full(r) {
      Rotated(Slots(r), Emitted(r, |r.head| - 1), r.head[r.headIndex].data);
    }
  }

  lemma {:induction false} EmittedGrows(r: Ring, k: nat, n: nat)
    requires InBounds(r) && k <= n <= |r.head|
    ensures |Emitted(r, k)| <= |Emitted(r, n)| <= n
    decreases n
  {
    if k < n {
      EmittedGrows(r, k, n - 1);
    } else if n > 0 {
      EmittedGrows(r, n - 1, n - 1);
    }
  }

  lemma EmittedNext(r: Ring, i: nat, data: string)
    requires InBounds(r) && 0 < i <= |r.head| && data == r.head[Turn(r.headIndex + i, |r.head|)].data
    ensures Emitted(r, i) == Emitted(r, i - 1) + (if data != "" then [data] else [])
  {
  }

  /** The mutable buffer. */
  class Buffer {
    var headIndex: nat
    const head: array<Slot>
    var headMap: map<string, Header>

    ghost function Model(): Ring
      reads this, head
    {
      Ring(headIndex, head[..], headMap)
    }

    /** newEventBuffer */
    constructor (size: nat)
      requires size > 0
      ensures fresh(head) && Model() == New(size) && InBounds(Model())
    {
      headIndex, headMap := 0, map[];
      head := new Slot[size](_ => FREE);
    }

    method Add(e: Event, data: string)
      requires InBounds(Model())
      modifies this, head
      ensures Model() == Added(old(Model()), e, data) && InBounds(Model())
    {
      var stored := Replayed(e, data);
      if e.txID !in headMap {
        headMap := headMap - {head[headIndex].txID};
        head[headIndex] := Slot(e.txID, stored);
        headMap := headMap[e.txID := Header(e.state, headIndex)];
        TurnIsModulo(headIndex + 1, head.Length);
        headIndex := (headIndex + 1) % head.Length;
        return;
      }
      var prev := headMap[e.txID];
      if e.state < prev.state {
        return;
      }
      head[prev.index] := Slot(e.txID, stored);
      headMap := headMap[e.txID := Header(e.state, prev.index)];
    }

    /** Sends into a channel that nobody is receiving from yet: `blocked` when
        a send would wait for ever. */
    method WriteAllToCh(queue: seq<string>, capacity: nat) returns (filled: seq<string>, blocked: bool)
      requires InBounds(Model())
      ensures blocked <==> |queue| + |Replay(Model())| > capacity && Replay(Model()) != []
      ensures !blocked ==> filled == queue + Replay(Model())
    {
      filled, blocked := queue, false;
      ghost var r := Model();
      var i := 1;
      while i <= head.Length
        invariant 1 <= i <= head.Length + 1
        invariant filled == queue + Emitted(r, i - 1)
        invariant Emitted(r, i - 1) != [] ==> |filled| <= capacity
      {
        TurnIsModulo(headIndex + i, head.Length);
        var data := head[(headIndex + i) % head.Length].data;
        EmittedNext(r, i, data);
        if data != "" {
          if |filled| >= capacity {
            EmittedGrows(r, i, head.Length);
            return filled, true;
          }
          filled := filled + [data];
        }
        i := i + 1;
      }
    }
  }
}
