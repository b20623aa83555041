/** Job state in the Postgres store (store/pg/store.go): the tables, the CASE
    expression of Search, and TxInfo with the Go code it runs over its rows. */
module Jobs {
  import opened Model

  type Hash = string

  datatype TxKind = Run | Proof | Verification | Other

  /** A row of the transaction table: nonce is a numeric, as the driver hands it over in text;
      noNulls says that created_at, propagated and executed, which may be NULL, are not, and
      finite that created_at is no infinity: createdAt means something only then. */
  datatype Tx = Tx(author: string, hash: Hash, kind: TxKind, nonce: string, createdAt: Time,
                   noNulls: bool, finite: bool)

  function ParseDigits(s: string): Option<nat> {
    if s == "" || !('0' <= s[|s| - 1] <= '9') then None
    else
      var last := (s[|s| - 1] - '0') as nat;
      if |s| == 1 then Some(last)
      else match ParseDigits(s[..|s| - 1])
        case None => None
        case Some(n) => Some(10 * n + last)
  }

  /** strconv.ParseInt(s, 10, 64) succeeds. */
  predicate IsInt64(s: string) {
    var signed := s != "" && (s[0] == '-' || s[0] == '+');
    match ParseDigits(if signed then s[1..] else s)
    case None => false
    case Some(n) => if s[0] == '-' then n <= -MIN_INT64 else n <= MAX_INT64
  }

  /** The row can be read into a gevulotTransaction: it has no NULL, an int for a nonce,
      a time for created_at, and a known kind. */
  predicate Scans(t: Tx) {
    t.noNulls && t.finite && IsInt64(t.nonce) && t.kind != Other
  }

  /** The tables by primary key: transactions; the parent of each proof and of each
      verification; the program of each workflow step (tx, sequence). */
  datatype DB = DB(txs: map<Hash, Tx>, proofs: map<Hash, Hash>, verifications: map<Hash, Hash>,
                   steps: map<(Hash, int), string>)

  predicate HasKind(db: DB, h: Hash, k: TxKind) {
    h in db.txs && db.txs[h].kind == k
  }

  /** Keys, foreign keys, and rows of the kind their table is for. */
  predicate WellFormed(db: DB) {
    && (forall h <- db.txs :: db.txs[h].hash == h)
    && (forall p <- db.proofs :: HasKind(db, p, Proof) && HasKind(db, db.proofs[p], Run))
    && (forall v <- db.verifications :: HasKind(db, v, Verification) && db.verifications[v] in db.proofs)
    && (forall s <- db.steps :: s.0 in db.txs)
  }

  // ---------------------------------------------------------------------------
  // Search: the state column, in SQL

  /** SELECT COUNT(*) FROM proof WHERE parent = h; nothing equals NULL. */
  function CountProofs(db: DB, h: Option<Hash>): nat {
    |set p | p in db.proofs && Some(db.proofs[p]) == h|
  }

  /** The pairs of verification JOIN proof ON v.parent = p.tx WHERE p.parent = h. */
  function VerifiedPairs(db: DB, h: Option<Hash>): set<(Hash, Hash)> {
    set v, p | v in db.verifications && p in db.proofs && db.verifications[v] == p && Some(db.proofs[p]) == h :: (v, p)
  }

  function CountVerifications(db: DB, h: Option<Hash>): nat {
    |VerifiedPairs(db, h)|
  }

  /** SELECT parent FROM proof WHERE tx = h */
  function ProofParent(db: DB, h: Hash): Option<Hash> {
    if h in db.proofs then Some(db.proofs[h]) else None
  }

  /** SELECT p.parent FROM proof AS p JOIN verification AS v ON p.tx = v.parent WHERE v.tx = h */
  function VerificationRun(db: DB, h: Hash): Option<Hash> {
    if h in db.verifications then ProofParent(db, db.verifications[h]) else None
  }

  /** The last three branches of each CASE. */
  function VerifiedCase(n: nat): Option<State> {
    if n == 1 then Some(VERIFYING)
    else if n == 2 then Some(VERIFYING)
    else if n > 2 then Some(COMPLETE)
    else None
  }

  /** The CASE expression for one transaction row; None is SQL's NULL. */
  function CaseState(db: DB, t: Tx): Option<State> {
    match t.kind
    case Run =>
      if CountProofs(db, Some(t.hash)) == 0 then Some(SUBMITTED)
      else if CountProofs(db, Some(t.hash)) >= 1 && CountVerifications(db, Some(t.hash)) == 0 then Some(PROVING)
      else VerifiedCase(CountVerifications(db, Some(t.hash)))
    case Proof =>
      if CountProofs(db, ProofParent(db, t.hash)) == 1 then Some(PROVING)
      else VerifiedCase(CountVerifications(db, ProofParent(db, t.hash)))
    case Verification => VerifiedCase(CountVerifications(db, VerificationRun(db, t.hash)))
    case Other => None
  }

  // ---------------------------------------------------------------------------
  // TxInfo: the rows, and what the Go code makes of them

  /** fetchTxsQuery: three selections of whole rows, united without duplicates. */
  function Rows(db: DB, h: Hash): set<Tx> {
    (set t | t in db.txs && t == h :: db.txs[t])
    + (set t, p | t in db.txs && p in db.proofs && p == t && db.proofs[p] == h :: db.txs[t])
    + (set t, v, p | t in db.txs && v in db.verifications && v == t && p in db.proofs
                     && db.verifications[v] == p && db.proofs[p] == h :: db.txs[t])
  }

  function CountKind(txs: seq<Tx>, k: TxKind): nat {
    if txs == [] then 0
    else CountKind(txs[..|txs| - 1], k) + (if txs[|txs| - 1].kind == k then 1 else 0)
  }

  /** The switch at the end of getState. */
  function JobState(proofs: nat, verifications: nat): State {
    if proofs > 0 && verifications == 0 then PROVING
    else if verifications > 0 && verifications < 3 then VERIFYING
    else if verifications > 2 then COMPLETE
    else SUBMITTED
  }

  function StateOfRows(txs: seq<Tx>): State {
    JobState(CountKind(txs, Proof), CountKind(txs, Verification))
  }

  method GetState(txs: seq<Tx>) returns (state: State)
    ensures state == StateOfRows(txs)
  {
    var proofs, verifications := 0, 0;
    for i := 0 to |txs|
      invariant proofs == CountKind(txs[..i], Proof) && verifications == CountKind(txs[..i], Verification)
    {
      assert txs[..i + 1][..i] == txs[..i];
      if txs[i].kind == Proof {
        proofs := proofs + 1;
      } else if txs[i].kind == Verification {
        verifications := verifications + 1;
      }
    }
    assert txs[..|txs|] == txs;
    if proofs > 0 && verifications == 0 {
      state := PROVING;
    } else if verifications > 0 && verifications < 3 {
      state := VERIFYING;
    } else if verifications > 2 {
      state := COMPLETE;
    } else {
      state := SUBMITTED;
    }
  }

  /** TxInfo's switch: the run a transaction belongs to. The row and its parent are
      fetched by two queries, which may see two states of the database. */
  function RootAcross(d0: DB, d1: DB, id: Hash): Result<Hash> {
    if id !in d0.txs || !Scans(d0.txs[id]) then Err
    else match d0.txs[id].kind
      case Run => Ok(id)
      case Proof => if ProofParent(d1, id).Some? then Ok(ProofParent(d1, id).value) else Err
      case Verification => if VerificationRun(d1, id).Some? then Ok(VerificationRun(d1, id).value) else Err
      case Other => Err
  }

  function RootOf(db: DB, id: Hash): Result<Hash> {
    RootAcross(db, db, id)
  }

  // ---------------------------------------------------------------------------
  // Counting

  lemma {:induction false} Bijection<A, B>(a: set<A>, b: set<B>, f: A -> B)
    requires forall x <- a :: f(x) in b
    requires forall x <- a, y <- a :: f(x) == f(y) ==> x == y
    requires forall y <- b :: exists x :: x in a && f(x) == y
    ensures |a| == |b|
  {
    if a == {} {
      assert b == {};
    } else {
      var x :| x in a;
      forall y | y in b - {f(x)} ensures exists z :: z in a - {x} && f(z) == y {
        var z :| z in a && f(z) == y;
        assert z in a - {x};
      }
      Bijection(a - {x}, b - {f(x)}, f);
    }
  }

  lemma {:induction false} Subset<A>(a: set<A>, b: set<A>)
    requires a <= b
    ensures |a| <= |b|
  {
    if a != {} {
      var x :| x in a;
      Subset(a - {x}, b - {x});
    }
  }

  /** Leaving out an element and then the last one is leaving them out the other way round. */
  lemma InitWithout<A>(s: seq<A>, j: nat, n: nat)
    requires j < n && |s| == n + 1
    ensures var rest := s[..j] + s[j + 1..];
      |rest| == n && rest[n - 1] == s[n] && rest[..n - 1] == s[..n][..j] + s[..n][j + 1..]
  {
    var a, b := (s[..j] + s[j + 1..])[..n - 1], s[..n][..j] + s[..n][j + 1..];
    assert |a| == |b| == n - 1;
    forall i | 0 <= i < n - 1 ensures a[i] == b[i] {
      assert a[i] == if i < j then s[i] else s[i + 1];
      assert b[i] == if i < j then s[i] else s[i + 1];
    }
  }

  lemma {:induction false} CountWithout(txs: seq<Tx>, j: nat, k: TxKind)
    requires j < |txs|
    ensures CountKind(txs, k) == CountKind(txs[..j] + txs[j + 1..], k) + (if txs[j].kind == k then 1 else 0)
  {
    var n := |txs| - 1;
    if j < n {
      CountWithout(txs[..n], j, k);
      InitWithout(txs, j, n);
    } else {
      assert txs[..j] + txs[j + 1..] == txs[..n];
    }
  }

  lemma MultisetWithout<A>(s: seq<A>, j: nat)
    requires j < |s|
    ensures multiset(s[..j] + s[j + 1..]) == multiset(s) - multiset{s[j]}
  {
    assert s == s[..j] + [s[j]] + s[j + 1..];
  }

  function MapSeq<A, B>(f: A -> B, s: seq<A>): (r: seq<B>)
    ensures |r| == |s| && forall i :: 0 <= i < |s| ==> r[i] == f(s[i])
  {
    seq(|s|, i requires 0 <= i < |s| => f(s[i]))
  }

  lemma MapWithout<A, B>(f: A -> B, s: seq<A>, j: nat)
    requires j < |s|
    ensures multiset(MapSeq(f, s[..j] + s[j + 1..])) == multiset(MapSeq(f, s)) - multiset{f(s[j])}
  {
    MultisetWithout(MapSeq(f, s), j);
    assert MapSeq(f, s[..j] + s[j + 1..]) == MapSeq(f, s)[..j] + MapSeq(f, s)[j + 1..];
  }

  lemma CancelOne<A>(x: multiset<A>, y: multiset<A>, t: A)
    requires t in x && t in y && x - multiset{t} == y - multiset{t}
    ensures x == y
  {
    assert x == (x - multiset{t}) + multiset{t} && y == (y - multiset{t}) + multiset{t};
  }

  lemma SameCount<A>(a: seq<A>, b: seq<A>)
    requires multiset(a) == multiset(b)
    ensures |a| == |b| && (forall x <- a :: x in b)
  {
    assert |multiset(a)| == |a| && |multiset(b)| == |b|;
    assert forall x <- a :: x in multiset(a) && x in multiset(b);
  }

  /** Both sequences without an element they share. */
  lemma MapStep<A, B>(f: A -> B, a: seq<A>, i: nat, b: seq<A>, j: nat)
    requires i < |a| && j < |b| && a[i] == b[j]
    requires multiset(MapSeq(f, a[..i] + a[i + 1..])) == multiset(MapSeq(f, b[..j] + b[j + 1..]))
    ensures multiset(MapSeq(f, a)) == multiset(MapSeq(f, b))
  {
    MapWithout(f, a, i);
    MapWithout(f, b, j);
    assert MapSeq(f, a)[i] == f(a[i]) && MapSeq(f, b)[j] == f(a[i]);
    CancelOne(multiset(MapSeq(f, a)), multiset(MapSeq(f, b)), f(a[i]));
  }

  /** Mapping a permutation gives a permutation. */
  lemma {:induction false} MapPermutes<A, B>(f: A -> B, a: seq<A>, b: seq<A>)
    requires multiset(a) == multiset(b)
    ensures multiset(MapSeq(f, a)) == multiset(MapSeq(f, b))
  {
    SameCount(a, b);
    if a != [] {
      var n := |a| - 1;
      assert a[n] in b;
      var j :| 0 <= j < |b| && b[j] == a[n];
      MultisetWithout(a, n);
      MultisetWithout(b, j);
      MapPermutes(f, a[..n] + a[n + 1..], b[..j] + b[j + 1..]);
      MapStep(f, a, n, b, j);
    }
  }

  /** Counting a kind respects inclusion of rows, whatever their order. */
  lemma {:induction false} CountIncluded(a: seq<Tx>, b: seq<Tx>, k: TxKind)
    requires multiset(a) <= multiset(b)
    ensures CountKind(a, k) <= CountKind(b, k)
  {
    if a != [] {
      var n := |a| - 1;
      assert a[n] in multiset(a) && a[n] in multiset(b);
      var j :| 0 <= j < |b| && b[j] == a[n];
      MultisetWithout(b, j);
      MultisetWithout(a, n);
      assert a[..n] + a[n + 1..] == a[..n];
      CountIncluded(a[..n], b[..j] + b[j + 1..], k);
      CountWithout(b, j, k);
    }
  }

  /** getState never goes down when rows are added, and does not see their order. */
  lemma StateMonotone(a: seq<Tx>, b: seq<Tx>)
    requires multiset(a) <= multiset(b)
    ensures StateOfRows(a) <= StateOfRows(b)
    ensures multiset(a) == multiset(b) ==> StateOfRows(a) == StateOfRows(b)
  {
    CountIncluded(a, b, Proof);
    CountIncluded(a, b, Verification);
    if multiset(a) == multiset(b) {
      CountIncluded(b, a, Proof);
      CountIncluded(b, a, Verification);
    }
  }

  function OfKind(rows: set<Tx>, k: TxKind): set<Tx> {
    set t | t in rows && t.kind == k
  }

  lemma OfKindWithout(rows: set<Tx>, x: Tx, k: TxKind)
    requires x in rows
    ensures |OfKind(rows, k)| == |OfKind(rows - {x}, k)| + (if x.kind == k then 1 else 0)
  {
    assert OfKind(rows, k) == if x.kind == k then OfKind(rows - {x}, k) + {x} else OfKind(rows - {x}, k);
  }

  lemma MultisetOfSetWithout<A>(s: set<A>, x: A)
    requires x in s
    ensures multiset(s - {x}) == multiset(s) - multiset{x}
  {
  }

  lemma {:induction false} CountRows(txs: seq<Tx>, rows: set<Tx>, k: TxKind)
    requires multiset(txs) == multiset(rows)
    ensures CountKind(txs, k) == |OfKind(rows, k)|
  {
    if txs == [] {
      assert forall t <- rows :: t in multiset(rows);
      assert OfKind(rows, k) == {};
    } else {
      var n := |txs| - 1;
      assert txs[n] in multiset(txs);
      MultisetWithout(txs, n);
      MultisetOfSetWithout(rows, txs[n]);
      assert txs[..n] + txs[n + 1..] == txs[..n];
      CountRows(txs[..n], rows - {txs[n]}, k);
      OfKindWithout(rows, txs[n], k);
    }
  }

  /** A row of the run itself, of one of its proofs, or of a verification of one of those. */
  predicate IsRow(db: DB, h: Hash, t: Tx) {
    && t.hash in db.txs && db.txs[t.hash] == t
    && (t.hash == h || ProofParent(db, t.hash) == Some(h) || VerificationRun(db, t.hash) == Some(h))
  }

  /** Which rows the query returns. */
  lemma RowByKey(db: DB, h: Hash, t: Tx)
    requires WellFormed(db) && HasKind(db, h, Run)
    ensures t in Rows(db, h) <==> IsRow(db, h, t)
  {
  }

  /** Rows of one kind are counted by their keys. */
  lemma RowsOfKeys(db: DB, h: Hash, k: TxKind, keys: set<Hash>, rows: set<Tx>)
    requires WellFormed(db) && rows == OfKind(Rows(db, h), k)
    requires forall t <- rows :: t.hash in db.txs && db.txs[t.hash] == t && t.hash in keys
    requires forall key <- keys :: key in db.txs && db.txs[key] in rows
    ensures |rows| == |keys|
  {
    forall key <- keys ensures exists t :: t in rows && t.hash == key {
      assert db.txs[key] in rows;
    }
    Bijection(rows, keys, (t: Tx) => t.hash);
  }

  lemma ProofRows(db: DB, h: Hash)
    requires WellFormed(db) && HasKind(db, h, Run)
    ensures |OfKind(Rows(db, h), Proof)| == CountProofs(db, Some(h))
  {
    var keys := set p | p in db.proofs && Some(db.proofs[p]) == Some(h);
    var rows := OfKind(Rows(db, h), Proof);
    forall t <- rows ensures t.hash in db.txs && db.txs[t.hash] == t && t.hash in keys { RowByKey(db, h, t); }
    forall p <- keys ensures p in db.txs && db.txs[p] in rows { RowByKey(db, h, db.txs[p]); }
    RowsOfKeys(db, h, Proof, keys, rows);
  }

  /** The verifications of a run's proofs. */
  function VerifiedBy(db: DB, h: Hash): set<Hash> {
    set v | v in db.verifications && VerificationRun(db, v) == Some(h)
  }

  lemma VerificationRows(db: DB, h: Hash)
    requires WellFormed(db) && HasKind(db, h, Run)
    ensures |OfKind(Rows(db, h), Verification)| == |VerifiedBy(db, h)|
  {
    var keys := VerifiedBy(db, h);
    var rows := OfKind(Rows(db, h), Verification);
    forall t <- rows ensures t.hash in db.txs && db.txs[t.hash] == t && t.hash in keys { RowByKey(db, h, t); }
    forall v <- keys ensures v in db.txs && db.txs[v] in rows { RowByKey(db, h, db.txs[v]); }
    RowsOfKeys(db, h, Verification, keys, rows);
  }

  /** The join adds no row: each verification has one parent proof. */
  lemma JoinedOnce(db: DB, h: Hash)
    ensures CountVerifications(db, Some(h)) == |VerifiedBy(db, h)|
  {
    var pairs := VerifiedPairs(db, Some(h));
    forall v <- VerifiedBy(db, h) ensures exists q :: q in pairs && q.0 == v {
      assert (v, db.verifications[v]) in pairs;
    }
    Bijection(pairs, VerifiedBy(db, h), (q: (Hash, Hash)) => q.0);
  }

  /** The rows of a run, in any order, carry exactly the counts that SQL takes. */
  lemma RowCounts(db: DB, h: Hash, txs: seq<Tx>)
    requires WellFormed(db) && HasKind(db, h, Run) && multiset(txs) == multiset(Rows(db, h))
    ensures CountKind(txs, Proof) == CountProofs(db, Some(h))
    ensures CountKind(txs, Verification) == CountVerifications(db, Some(h))
  {
    CountRows(txs, Rows(db, h), Proof);
    CountRows(txs, Rows(db, h), Verification);
    ProofRows(db, h);
    VerificationRows(db, h);
    JoinedOnce(db, h);
  }
}
