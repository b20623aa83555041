/** What the replay buffer holds after a whole run of adds, told from the
    history of adds alone. */
module BufferHistory {
  import opened Model
  import opened EventBuffer

  function StoreAll(r: Ring, xs: seq<Entry>): (r': Ring)
    requires InBounds(r)
    ensures InBounds(r') && |r'.head| == |r.head|
  {
    if xs == [] then r else Store(StoreAll(r, xs[..|xs| - 1]), xs[|xs| - 1])
  }

  function OrderedAll(n: nat, xs: seq<Entry>): seq<Entry> {
    if xs == [] then [] else OrderedAdd(n, OrderedAll(n, xs[..|xs| - 1]), xs[|xs| - 1])
  }

  function Min(a: nat, b: nat): nat { if a < b then a else b }

  /** Is the transaction among the last n admissions? */
  predicate Recent(n: nat, xs: seq<Entry>, adm: seq<nat>, txID: string)
    requires forall i :: 0 <= i < |adm| ==> adm[i] < |xs|
  {
    exists j :: |adm| - n <= j < |adm| && 0 <= j && xs[adm[j]].txID == txID
  }

  /** The positions of the adds that admit their transaction: those it is not
      among the last n admissions of. Nothing here mentions the ring. */
  function Admissions(n: nat, xs: seq<Entry>): (adm: seq<nat>)
    ensures forall i :: 0 <= i < |adm| ==> adm[i] < |xs|
  {
    if xs == [] then []
    else
      var adm := Admissions(n, xs[..|xs| - 1]);
      if Recent(n, xs[..|xs| - 1], adm, xs[|xs| - 1].txID) then adm else adm + [|xs| - 1]
  }

  /** The entry is of xs[from]'s transaction, its state is the highest since
      position `from`, and its data comes from the last add that reached it. */
  ghost predicate Explains(xs: seq<Entry>, from: nat, x: Entry) {
    from < |xs| && xs[from].txID == x.txID && exists k: nat :: Reached(xs, from, x, k)
  }

  ghost predicate Reached(xs: seq<Entry>, from: nat, x: Entry, k: nat) {
    && from <= k < |xs| && xs[k] == x
    && forall j :: from <= j < |xs| && xs[j].txID == x.txID
         ==> xs[j].state <= x.state && (j > k ==> xs[j].state < x.state)
  }

  /** Each entry of c is explained from the position beside it. */
  ghost predicate Explained(xs: seq<Entry>, from: seq<nat>, c: seq<Entry>) {
    && |c| == |from|
    && forall j :: 0 <= j < |c| ==> Explains(xs, from[j], c[j])
  }

  function Last(adm: seq<nat>, n: nat): (l: seq<nat>)
    ensures |l| == Min(n, |adm|)
  {
    adm[|adm| - Min(n, |adm|)..]
  }

  /** The residents are the last min(n, |adm|) admissions, each at the highest
      state seen since it was admitted, with the data of the last add to reach it. */
  ghost predicate Described(n: nat, xs: seq<Entry>, c: seq<Entry>) {
    Explained(xs, Last(Admissions(n, xs), n), c)
  }

  /** Any n+1 consecutive admissions are of pairwise different transactions. */
  lemma {:induction false} AdmissionsDistinct(n: nat, xs: seq<Entry>, i: nat, j: nat)
    requires i < j < |Admissions(n, xs)| && j - i <= n
    ensures xs[Admissions(n, xs)[i]].txID != xs[Admissions(n, xs)[j]].txID
  {
    var p := xs[..|xs| - 1];
    var adm := Admissions(n, p);
    if j < |adm| {
      AdmissionsDistinct(n, p, i, j);
    }
  }

  /** No transaction is resident twice. */
  lemma Residents(n: nat, xs: seq<Entry>, c: seq<Entry>, i: nat, j: nat)
    requires Described(n, xs, c) && i < |c| && j < |c| && i != j
    ensures c[i].txID != c[j].txID
  {
    if i < j { EarlierResident(n, xs, c, i, j); } else { EarlierResident(n, xs, c, j, i); }
  }

  lemma EarlierResident(n: nat, xs: seq<Entry>, c: seq<Entry>, i: nat, j: nat)
    requires Described(n, xs, c) && i < j < |c|
    ensures c[i].txID != c[j].txID
  {
    var adm := Admissions(n, xs);
    var off := |adm| - |c|;
    ResidentTx(n, xs, adm, c, i);
    ResidentTx(n, xs, adm, c, j);
    AdmissionsDistinct(n, xs, off + i, off + j);
  }

  lemma ResidentTx(n: nat, xs: seq<Entry>, adm: seq<nat>, c: seq<Entry>, i: nat)
    requires Explained(xs, Last(adm, n), c) && i < |c|
    ensures |c| == Min(n, |adm|) && adm[|adm| - |c| + i] < |xs|
    ensures c[i].txID == xs[adm[|adm| - |c| + i]].txID
  {
    assert Explains(xs, Last(adm, n)[i], c[i]);
  }

  lemma ExplainsLater(xs: seq<Entry>, y: Entry, from: nat, x: Entry)
    requires Explains(xs, from, x) && (y.txID == x.txID ==> y.state < x.state)
    ensures Explains(xs + [y], from, x)
  {
    var k: nat :| Reached(xs, from, x, k);
    assert Reached(xs + [y], from, x, k);
  }

  lemma ExplainsNow(xs: seq<Entry>, y: Entry, from: nat, x: Entry)
    requires Explains(xs, from, x) && y.txID == x.txID && y.state >= x.state
    ensures Explains(xs + [y], from, y)
  {
    var k: nat :| Reached(xs, from, x, k);
    assert Reached(xs + [y], from, y, |xs|);
  }

  lemma ExplainsFresh(xs: seq<Entry>, y: Entry)
    ensures Explains(xs + [y], |xs|, y)
  {
    assert Reached(xs + [y], |xs|, y, |xs|);
  }

  /** Residency and being recently admitted are the same thing. */
  lemma ResidentIsRecent(n: nat, xs: seq<Entry>, adm: seq<nat>, c: seq<Entry>, txID: string)
    requires forall i :: 0 <= i < |adm| ==> adm[i] < |xs|
    requires Explained(xs, Last(adm, n), c)
    ensures Find(c, txID) < |c| <==> Recent(n, xs, adm, txID)
  {
    var off := |adm| - |c|;
    var j := Find(c, txID);
    if j < |c| {
      assert Explains(xs, Last(adm, n)[j], c[j]) && Last(adm, n)[j] == adm[off + j];
    }
    forall i | |adm| - n <= i < |adm| && 0 <= i && xs[adm[i]].txID == txID
      ensures 0 <= i - off < |c| && c[i - off].txID == txID
    {
      assert Last(adm, n)[i - off] == adm[i];
      assert Explains(xs, adm[i], c[i - off]);
    }
  }

  lemma KnownStep(p: seq<Entry>, y: Entry, from: seq<nat>, c: seq<Entry>, j0: nat)
    requires Explained(p, from, c) && j0 < |c| && c[j0].txID == y.txID
    requires forall j :: 0 <= j < |c| && j != j0 ==> c[j].txID != y.txID
    ensures Explained(p + [y], from, if y.state < c[j0].state then c else c[j0 := y])
  {
    var c' := if y.state < c[j0].state then c else c[j0 := y];
    forall j | 0 <= j < |c'| ensures Explains(p + [y], from[j], c'[j]) {
      if j == j0 && y.state >= c[j].state {
        ExplainsNow(p, y, from[j], c[j]);
      } else {
        ExplainsLater(p, y, from[j], c[j]);
      }
    }
  }

  lemma FreshStep(p: seq<Entry>, y: Entry, from: seq<nat>, c: seq<Entry>)
    requires Explained(p, from, c) && forall j :: 0 <= j < |c| ==> c[j].txID != y.txID
    ensures Explained(p + [y], from + [|p|], c + [y])
  {
    forall j | 0 <= j < |c| + 1 ensures Explains(p + [y], (from + [|p|])[j], (c + [y])[j]) {
      if j < |c| { ExplainsLater(p, y, from[j], c[j]); } else { ExplainsFresh(p, y); }
    }
  }

  lemma OthersDiffer(n: nat, xs: seq<Entry>, c: seq<Entry>, j: nat)
    requires Described(n, xs, c) && j < |c|
    ensures forall i :: 0 <= i < |c| && i != j ==> c[i].txID != c[j].txID
  {
    forall i | 0 <= i < |c| && i != j ensures c[i].txID != c[j].txID { Residents(n, xs, c, i, j); }
  }

  lemma LastStep(n: nat, p: seq<Entry>, y: Entry, adm: seq<nat>, c: seq<Entry>)
    requires n > 0 && Explained(p, Last(adm, n), c)
    requires forall j :: 0 <= j < |c| ==> c[j].txID != y.txID
    ensures Explained(p + [y], Last(adm + [|p|], n), (if |c| == n then c[1..] else c) + [y])
  {
    if |c| == n {
      FreshStep(p, y, Last(adm, n)[1..], c[1..]);
      assert Last(adm, n)[1..] + [|p|] == Last(adm + [|p|], n);
    } else {
      FreshStep(p, y, Last(adm, n), c);
      assert Last(adm, n) + [|p|] == Last(adm + [|p|], n);
    }
  }

  lemma {:induction false} History(n: nat, xs: seq<Entry>)
    requires n > 0
    ensures Described(n, xs, OrderedAll(n, xs))
  {
    if xs != [] {
      var p, y := xs[..|xs| - 1], xs[|xs| - 1];
      assert xs == p + [y];
      History(n, p);
      var adm, c := Admissions(n, p), OrderedAll(n, p);
      ResidentIsRecent(n, p, adm, c, y.txID);
      var j := Find(c, y.txID);
      if j < |c| {
        OthersDiffer(n, p, c, j);
        KnownStep(p, y, Last(adm, n), c, j);
      } else {
        LastStep(n, p, y, adm, c);
      }
    }
  }

  // ---------------------------------------------------------------------------
  // The ring, over runs with or without unnamed transactions

  function Names(xs: seq<Entry>): set<string> {
    if xs == [] then {} else Names(xs[..|xs| - 1]) + {xs[|xs| - 1].txID}
  }

  /** The k-th add brings a new transaction while slots are free and "" has been added before. */
  predicate OrphanAt(n: nat, xs: seq<Entry>, k: nat)
    requires k < |xs|
  {
    "" in Names(xs[..k]) && xs[k].txID !in Names(xs[..k]) && |Names(xs[..k])| < n
  }

  ghost predicate NoOrphans(n: nat, xs: seq<Entry>) {
    (forall x <- xs :: x.data != "") && forall k :: 0 <= k < |xs| ==> !OrphanAt(n, xs, k)
  }

  ghost predicate Named(xs: seq<Entry>) {
    forall x <- xs :: x.txID != "" && x.data != ""
  }

  lemma {:induction false} NamesFrom(xs: seq<Entry>, txID: string)
    ensures txID in Names(xs) <==> exists x :: x in xs && x.txID == txID
  {
    if xs != [] {
      NamesFrom(xs[..|xs| - 1], txID);
      assert xs == xs[..|xs| - 1] + [xs[|xs| - 1]];
    }
  }

  lemma NamedNoOrphans(n: nat, xs: seq<Entry>)
    requires Named(xs)
    ensures NoOrphans(n, xs)
  {
    forall k | 0 <= k < |xs| ensures !OrphanAt(n, xs, k) { NamesFrom(xs[..k], ""); }
  }

  /** Until n transactions have been named nothing is evicted; from then on the ring is full. */
  ghost predicate Filling(n: nat, names: set<string>, r: Ring) {
    && Valid(r) && |r.head| == n
    && if |names| < n then !Full(r) && r.headMap.Keys == names && r.headIndex == |names| else Full(r)
  }

  lemma FillingStep(n: nat, names: set<string>, y: Entry, r: Ring)
    requires n > 0 && y.data != "" && Filling(n, names, r) && !Orphans(r, y.txID)
    ensures Filling(n, names + {y.txID}, Store(r, y))
  {
    if y.txID in names {
      assert names + {y.txID} == names;
    } else {
      assert |names + {y.txID}| == |names| + 1;
    }
    if y.txID in r.headMap {
      UpdateKeeps(r, y);
    } else if !Full(r) {
      FillingAppend(n, names, y, r);
    } else {
      EvictValid(r, y);
    }
  }

  lemma FillingAppend(n: nat, names: set<string>, y: Entry, r: Ring)
    requires n > 0 && y.data != "" && Filling(n, names, r) && !Full(r)
    requires y.txID !in r.headMap && "" !in r.headMap && |names + {y.txID}| == |names| + 1
    ensures Filling(n, names + {y.txID}, Store(r, y))
  {
    AppendRefines(r, y);
    AppendShape(r, y);
  }

  lemma UpdateKeeps(r: Ring, y: Entry)
    requires Valid(r) && y.data != "" && y.txID in r.headMap
    ensures var r' := Store(r, y);
      Valid(r') && Full(r') == Full(r) && r'.headMap.Keys == r.headMap.Keys && r'.headIndex == r.headIndex
  {
    if y.state >= r.headMap[y.txID].state { UpdateValid(r, y); }
  }

  lemma PrefixClean(n: nat, xs: seq<Entry>, k: nat)
    requires k <= |xs| && (forall x <- xs :: x.data != "") && forall j :: 0 <= j < k ==> !OrphanAt(n, xs, j)
    ensures NoOrphans(n, xs[..k])
  {
    forall j | 0 <= j < k ensures !OrphanAt(n, xs[..k], j) {
      assert xs[..k][..j] == xs[..j];
      assert !OrphanAt(n, xs, j);
    }
  }

  /** Over any run of adds that orphans nothing the ring is the ordered map. */
  lemma {:induction false} RunRefines(n: nat, xs: seq<Entry>)
    requires n > 0 && NoOrphans(n, xs)
    ensures var r := StoreAll(New(n), xs); Filling(n, Names(xs), r) && Contents(r) == OrderedAll(n, xs)
  {
    if xs == [] {
      assert Contents(New(n)) == [];
    } else {
      var p, y := xs[..|xs| - 1], xs[|xs| - 1];
      PrefixClean(n, xs, |p|);
      RunRefines(n, p);
      assert xs[..|p|] == p && !OrphanAt(n, xs, |p|);
      var r := StoreAll(New(n), p);
      FillingFree(n, Names(p), y, r);
      FillingStep(n, Names(p), y, r);
      StoreRefinesIff(r, y);
    }
  }

  lemma FillingFree(n: nat, names: set<string>, y: Entry, r: Ring)
    requires Filling(n, names, r) && !("" in names && y.txID !in names && |names| < n)
    ensures !Orphans(r, y.txID)
  {
  }

  /** So it holds the last min(n, k) admissions, as told by the history. */
  lemma RingHistory(n: nat, xs: seq<Entry>)
    requires n > 0 && NoOrphans(n, xs)
    ensures Described(n, xs, Contents(StoreAll(New(n), xs)))
  {
    RunRefines(n, xs);
    History(n, xs);
  }

  /** headMap stays a bijection onto the occupied slots throughout a run of adds
      exactly when no new transaction comes after an unnamed one before the ring is full. */
  lemma BijectionIff(n: nat, xs: seq<Entry>)
    requires n > 0 && forall x <- xs :: x.data != ""
    ensures (forall k :: 0 <= k <= |xs| ==> Valid(StoreAll(New(n), xs[..k])))
       <==> NoOrphans(n, xs)
  {
    if k0 :| 0 <= k0 < |xs| && OrphanAt(n, xs, k0) {
      var k := FirstOrphan(n, xs, k0);
      OrphanBreaks(n, xs, k);
    } else {
      forall k | 0 <= k <= |xs| ensures Valid(StoreAll(New(n), xs[..k])) {
        PrefixClean(n, xs, k);
        RunRefines(n, xs[..k]);
      }
    }
  }

  lemma FirstOrphan(n: nat, xs: seq<Entry>, bound: nat) returns (k: nat)
    requires bound < |xs| && OrphanAt(n, xs, bound)
    ensures k < |xs| && OrphanAt(n, xs, k) && forall j :: 0 <= j < k ==> !OrphanAt(n, xs, j)
  {
    k := bound;
    if j :| 0 <= j < bound && OrphanAt(n, xs, j) {
      k := FirstOrphan(n, xs, j);
    }
  }

  lemma StoreAllAppend(r: Ring, xs: seq<Entry>, x: Entry)
    requires InBounds(r)
    ensures StoreAll(r, xs + [x]) == Store(StoreAll(r, xs), x)
  {
    assert (xs + [x])[..|xs|] == xs;
  }

  /** The first such add breaks it. */
  lemma OrphanBreaks(n: nat, xs: seq<Entry>, k: nat)
    requires n > 0 && (forall x <- xs :: x.data != "") && k < |xs| && OrphanAt(n, xs, k)
    requires forall j :: 0 <= j < k ==> !OrphanAt(n, xs, j)
    ensures !Valid(StoreAll(New(n), xs[..k + 1]))
  {
    PrefixClean(n, xs, k);
    OrphanNext(n, xs[..k], xs[k]);
    assert xs[..k + 1] == xs[..k] + [xs[k]];
  }

  lemma OrphanNext(n: nat, p: seq<Entry>, y: Entry)
    requires n > 0 && NoOrphans(n, p) && "" in Names(p) && y.txID !in Names(p) && |Names(p)| < n && y.data != ""
    ensures !Valid(StoreAll(New(n), p + [y]))
  {
    RunRefines(n, p);
    FillingOrphan(n, Names(p), y, StoreAll(New(n), p));
    StoreAllAppend(New(n), p, y);
  }

  lemma FillingOrphan(n: nat, names: set<string>, y: Entry, r: Ring)
    requires Filling(n, names, r) && "" in names && y.txID !in names && |names| < n && y.data != ""
    ensures !Valid(Store(r, y))
  {
    StoreRefinesIff(r, y);
  }

  /** Two adds are enough: an unnamed event, then any other. */
  lemma UnnamedExample()
    ensures exists x: Entry, y: Entry :: x.data != "" && y.data != "" && !Valid(StoreAll(New(2), [x, y]))
  {
    var x, y := Entry("", PROVING, "d"), Entry("a", PROVING, "d");
    var xs := [x, y];
    assert xs[..1] == [x] && xs[..0] == [] && [x][..0] == [] && xs[..2] == xs;
    assert Names([x]) == {""};
    assert OrphanAt(2, xs, 1) && !OrphanAt(2, xs, 0);
    OrphanBreaks(2, xs, 1);
  }
}
