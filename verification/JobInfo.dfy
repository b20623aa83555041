/** TxInfo as a whole (store/pg/store.go): its agreement with Search, and what stays
    the same across a job. */
module JobInfo {
  import opened Model
  import opened Jobs
  import opened JobLog

  // ---------------------------------------------------------------------------
  // TxInfo

  /** The programs of a run's workflow steps; findProverProgramHashQuery returns any of them. */
  function Programs(db: DB, h: Hash): set<string> {
    set s | s in db.steps && s.0 == h :: db.steps[s]
  }

  /** The author of the first row of kind run, or "". */
  function AuthorOf(txs: seq<Tx>): string {
    if txs == [] then "" else if txs[0].kind == Run then txs[0].author else AuthorOf(txs[1..])
  }

  /** The info TxInfo builds from the rows in the order the database returned them. */
  ghost predicate InfoFrom(rows: set<Tx>, programs: set<string>, h: Hash, txs: seq<Tx>, info: TxInfo) {
    && multiset(txs) == multiset(rows)
    && info.state == StateOfRows(txs)
    && info.duration == Duration(txs)
    && info.txID == h
    && info.userID == AuthorOf(txs)
    && info.proverID in programs
    && IsLogOf(txs, info.log)
  }

  /** Every row of the job can be read. */
  predicate Scannable(db: DB, h: Hash) {
    forall t <- Rows(db, h) :: Scans(t)
  }

  /** What TxInfo may return when its queries, which no transaction holds together and none of
      which orders its rows, see these states of the database. */
  ghost predicate MayAnswerAcross(d0: DB, d1: DB, d2: DB, d3: DB, id: Hash, r: Result<TxInfo>) {
    match RootAcross(d0, d1, id)
    case Err => r.Err?
    case Ok(h) =>
      if !Scannable(d2, h) || Programs(d3, h) == {} then r.Err?
      else r.Ok? && exists txs: seq<Tx> :: InfoFrom(Rows(d2, h), Programs(d3, h), h, txs, r.value)
  }

  /** What it may return on a database that stays as it is. */
  ghost predicate MayAnswer(db: DB, id: Hash, r: Result<TxInfo>) {
    MayAnswerAcross(db, db, db, db, id, r)
  }

  method TxInfoQuery(d0: DB, d1: DB, d2: DB, d3: DB, id: Hash) returns (r: Result<TxInfo>)
    ensures MayAnswerAcross(d0, d1, d2, d3, id, r)
  {
    var root := RootAcross(d0, d1, id);
    if root.Err? {
      return Err;
    }
    var h := root.value;
    if !Scannable(d2, h) || Programs(d3, h) == {} {
      return Err;
    }
    var txs := Select(Rows(d2, h));
    var program :| program in Programs(d3, h);
    var author := "";
    for i := 0 to |txs|
      invariant author == "" && AuthorOf(txs) == AuthorOf(txs[i..])
    {
      if txs[i].kind == Run {
        author := txs[i].author;
        break;
      }
      assert txs[i..][1..] == txs[i + 1..];
    }
    var state := GetState(txs);
    var duration := GetJobDuration(txs);
    var log := TxLogEventsFromTxs(txs);
    var info := TxInfo(state, duration, h, author, program, log);
    assert InfoFrom(Rows(d2, h), Programs(d3, h), h, txs, info);
    r := Ok(info);
  }

  /** The rows of a query without ORDER BY. */
  method Select(rows: set<Tx>) returns (txs: seq<Tx>)
    ensures multiset(txs) == multiset(rows)
  {
    txs := [];
    var rest := rows;
    while rest != {}
      invariant rest <= rows && multiset(txs) == multiset(rows - rest)
      decreases rest
    {
      var t :| t in rest;
      assert rows - (rest - {t}) == (rows - rest) + {t};
      txs, rest := txs + [t], rest - {t};
    }
    assert rows - {} == rows;
  }

  // ---------------------------------------------------------------------------
  // Search and TxInfo agree

  lemma RootIsRun(db: DB, id: Hash)
    requires WellFormed(db) && RootOf(db, id).Ok?
    ensures HasKind(db, RootOf(db, id).value, Run)
  {
  }

  /** The state of run h by the counts in the tables. */
  function StateIn(db: DB, h: Hash): State {
    JobState(CountProofs(db, Some(h)), CountVerifications(db, Some(h)))
  }

  /** The state TxInfo reports is that of the counts its third query finds. */
  lemma StateAcross(d0: DB, d1: DB, d2: DB, d3: DB, id: Hash, h: Hash, r: Result<TxInfo>)
    requires WellFormed(d2) && HasKind(d2, h, Run) && RootAcross(d0, d1, id) == Ok(h)
    requires MayAnswerAcross(d0, d1, d2, d3, id, r) && r.Ok?
    ensures r.value.txID == h && r.value.state == StateIn(d2, h)
  {
    var txs: seq<Tx> :| InfoFrom(Rows(d2, h), Programs(d3, h), h, txs, r.value);
    RowCounts(d2, h, txs);
  }

  lemma AnswerCounts(db: DB, id: Hash, r: Result<TxInfo>)
    requires WellFormed(db) && MayAnswer(db, id, r) && r.Ok?
    ensures RootOf(db, id).Ok? && r.value.state == StateIn(db, RootOf(db, id).value)
  {
    RootIsRun(db, id);
    StateAcross(db, db, db, db, id, RootOf(db, id).value, r);
  }

  lemma OneOfSet<A>(s: set<A>, x: A)
    requires x in s
    ensures |s| >= 1
  {
    assert s == (s - {x}) + {x};
  }

  /** What Search shows for each kind of row of a job with p proofs and v verifications. */
  lemma RunCase(db: DB, h: Hash, p: nat, v: nat)
    requires HasKind(db, h, Run) && WellFormed(db)
    requires p == CountProofs(db, Some(h)) && v == CountVerifications(db, Some(h))
    ensures CaseState(db, db.txs[h]) == Some(JobState(p, v))
  {
    NoProofNoVerification(db, h);
  }

  lemma ProofCase(db: DB, id: Hash, h: Hash, p: nat, v: nat)
    requires HasKind(db, id, Proof) && WellFormed(db) && ProofParent(db, id) == Some(h)
    requires p == CountProofs(db, Some(h)) && v == CountVerifications(db, Some(h))
    ensures CaseState(db, db.txs[id]) == if p == 1 then Some(PROVING) else VerifiedCase(v)
    ensures p >= 1
  {
    OneOfSet((set q | q in db.proofs && Some(db.proofs[q]) == Some(h)), id);
  }

  lemma VerificationCase(db: DB, id: Hash, h: Hash, p: nat, v: nat)
    requires HasKind(db, id, Verification) && WellFormed(db) && VerificationRun(db, id) == Some(h)
    requires p == CountProofs(db, Some(h)) && v == CountVerifications(db, Some(h))
    ensures CaseState(db, db.txs[id]) == Some(JobState(p, v))
  {
    OneOfSet(VerifiedPairs(db, Some(h)), (id, db.verifications[id]));
  }

  /** The CASE gives NULL, on which the whole of Search fails, exactly for a proof without a
      proof row or of several with none verified, a verification without a run, and any other kind. */
  lemma NullStateIff(db: DB, t: Tx)
    requires WellFormed(db) && t.hash in db.txs && db.txs[t.hash] == t
    ensures var h := ProofParent(db, t.hash);
      CaseState(db, t).None? <==>
        || t.kind == Other
        || (t.kind == Proof && (h.None? || (CountProofs(db, h) >= 2 && CountVerifications(db, h) == 0)))
        || (t.kind == Verification && VerificationRun(db, t.hash).None?)
  {
    match t.kind
    case Run =>
      RunCase(db, t.hash, CountProofs(db, Some(t.hash)), CountVerifications(db, Some(t.hash)));
    case Proof =>
      var h := ProofParent(db, t.hash);
      if h.Some? {
        ProofCase(db, t.hash, h.value, CountProofs(db, h), CountVerifications(db, h));
      } else {
        NothingOfNull(db);
      }
    case Verification =>
      var h := VerificationRun(db, t.hash);
      if h.Some? {
        VerificationCase(db, t.hash, h.value, CountProofs(db, h), CountVerifications(db, h));
      } else {
        NothingOfNull(db);
      }
    case Other =>
  }

  lemma NothingOfNull(db: DB)
    ensures CountProofs(db, None) == 0 && CountVerifications(db, None) == 0
  {
    assert VerifiedPairs(db, None) == {};
    assert (set p | p in db.proofs && Some(db.proofs[p]) == None) == {};
  }

  /** On every well-formed database: for a run or a verification, Search shows the
      state TxInfo reports; for a proof exactly when it is the only one of a run
      without verifications, or one of several of a run with some. */
  lemma AgreementIff(db: DB, id: Hash, r: Result<TxInfo>)
    requires WellFormed(db) && MayAnswer(db, id, r) && r.Ok?
    ensures id in db.txs && RootOf(db, id).Ok?
    ensures var h := Some(RootOf(db, id).value);
      CaseState(db, db.txs[id]) == Some(r.value.state) <==>
        (db.txs[id].kind == Proof ==>
           || (CountProofs(db, h) == 1 && CountVerifications(db, h) == 0)
           || (CountProofs(db, h) >= 2 && CountVerifications(db, h) >= 1))
  {
    AnswerCounts(db, id, r);
    var h := RootOf(db, id).value;
    RootIsRun(db, id);
    var p, v := CountProofs(db, Some(h)), CountVerifications(db, Some(h));
    match db.txs[id].kind
    case Run => RunCase(db, id, p, v);
    case Proof => ProofCase(db, id, h, p, v);
    case Verification => VerificationCase(db, id, h, p, v);
  }

  /** A run, one proof of it, and one verification of that. */
  function LoneProof(run: Hash, proof: Hash, verification: Hash): DB {
    DB(map[run := Tx("", run, Run, "0", 1, true, true), proof := Tx("", proof, Proof, "0", 2, true, true),
           verification := Tx("", verification, Verification, "0", 3, true, true)],
       map[proof := run], map[verification := proof], map[(run, 1) := ""])
  }

  lemma LoneProofCounts(run: Hash, proof: Hash, verification: Hash)
    requires run != proof && proof != verification && verification != run
    ensures var db := LoneProof(run, proof, verification);
      WellFormed(db) && CountProofs(db, Some(run)) == 1 && CountVerifications(db, Some(run)) == 1
  {
    var db := LoneProof(run, proof, verification);
    assert (set q | q in db.proofs && Some(db.proofs[q]) == Some(run)) == {proof};
    assert VerifiedPairs(db, Some(run)) == {(verification, proof)};
  }

  lemma LoneProofAnswers(run: Hash, proof: Hash, verification: Hash) returns (info: TxInfo)
    requires run != proof && proof != verification && verification != run
    ensures MayAnswer(LoneProof(run, proof, verification), proof, Ok(info))
  {
    var db := LoneProof(run, proof, verification);
    assert (run, 1) in db.steps && db.steps[(run, 1)] in Programs(db, run);
    info := AnAnswer(db, proof, run, "");
  }

  /** On such a database Search shows the proof as Proving, and TxInfo the job as Verifying. */
  lemma DisagreementExample(run: Hash, proof: Hash, verification: Hash) returns (info: TxInfo)
    requires run != proof && proof != verification && verification != run
    ensures var db := LoneProof(run, proof, verification);
      && WellFormed(db) && MayAnswer(db, proof, Ok(info)) && info.state == VERIFYING
      && proof in db.txs && CaseState(db, db.txs[proof]) == Some(PROVING)
  {
    var db := LoneProof(run, proof, verification);
    LoneProofCounts(run, proof, verification);
    info := LoneProofAnswers(run, proof, verification);
    AnswerCounts(db, proof, Ok(info));
    ProofCase(db, proof, run, 1, 1);
  }

  lemma NoProofNoVerification(db: DB, h: Hash)
    ensures CountVerifications(db, Some(h)) > 0 ==> CountProofs(db, Some(h)) > 0
  {
    if CountVerifications(db, Some(h)) > 0 {
      var q :| q in VerifiedPairs(db, Some(h));
      OneOfSet((set p | p in db.proofs && Some(db.proofs[p]) == Some(h)), q.1);
    }
  }

  // ---------------------------------------------------------------------------
  // One answer for a whole family

  /** The run, any of its proofs, any verification of those. */
  predicate InFamily(db: DB, h: Hash, id: Hash) {
    id == h || ProofParent(db, id) == Some(h) || VerificationRun(db, id) == Some(h)
  }

  /** Asking for a transaction resolves to a run exactly within its family, if its row can be read. */
  lemma FamilyRoot(db: DB, h: Hash, id: Hash)
    requires WellFormed(db) && HasKind(db, h, Run)
    ensures InFamily(db, h, id) ==> id in db.txs && db.txs[id] in Rows(db, h)
    ensures RootOf(db, id) == Ok(h) <==> InFamily(db, h, id) && Scans(db.txs[id])
  {
  }

  /** What any member of the family may be answered. */
  ghost predicate JobAnswer(db: DB, h: Hash, r: Result<TxInfo>) {
    if !Scannable(db, h) || Programs(db, h) == {} then r.Err?
    else r.Ok? && exists txs: seq<Tx> :: InfoFrom(Rows(db, h), Programs(db, h), h, txs, r.value)
  }

  /** Asking any member is the same question. */
  lemma FamilyAsks(db: DB, h: Hash, id: Hash, r: Result<TxInfo>)
    requires WellFormed(db) && HasKind(db, h, Run) && InFamily(db, h, id)
    ensures MayAnswer(db, id, r) <==> JobAnswer(db, h, r)
  {
    FamilyRoot(db, h, id);
  }

  lemma {:induction false} AuthorOfRun(db: DB, h: Hash, txs: seq<Tx>)
    requires WellFormed(db) && HasKind(db, h, Run)
    requires forall t <- txs :: t in Rows(db, h)
    ensures db.txs[h] in txs ==> AuthorOf(txs) == db.txs[h].author
  {
    if txs != [] {
      RowByKey(db, h, txs[0]);
      AuthorOfRun(db, h, txs[1..]);
    }
  }

  /** Whichever member of the family is asked, and whatever order the rows come in: the
      same outcome, state, transaction and user, and the same log up to the order of equal
      timestamps; the prover shown is any of the same choices. */
  lemma FamilyTheorem(db: DB, h: Hash, id1: Hash, id2: Hash, r1: Result<TxInfo>, r2: Result<TxInfo>)
    requires WellFormed(db) && HasKind(db, h, Run) && InFamily(db, h, id1) && InFamily(db, h, id2)
    requires MayAnswer(db, id1, r1) && MayAnswer(db, id2, r2)
    ensures r1.Ok? <==> r2.Ok?
    ensures MayAnswer(db, id1, r2) && MayAnswer(db, id2, r1)
    ensures r1.Ok? ==>
      var i1, i2 := r1.value, r2.value;
      && i1.state == i2.state && i1.txID == i2.txID == h && i1.userID == i2.userID == db.txs[h].author
      && multiset(i1.log) == multiset(i2.log) && Stamps(i1.log) == Stamps(i2.log)
  {
    FamilyAsks(db, h, id1, r1);
    FamilyAsks(db, h, id2, r1);
    FamilyAsks(db, h, id1, r2);
    FamilyAsks(db, h, id2, r2);
    if r1.Ok? {
      var a: seq<Tx> :| InfoFrom(Rows(db, h), Programs(db, h), h, a, r1.value);
      var b: seq<Tx> :| InfoFrom(Rows(db, h), Programs(db, h), h, b, r2.value);
      SameRows(db, h, a, b, r1.value, r2.value);
    }
  }

  lemma SameRows(db: DB, h: Hash, a: seq<Tx>, b: seq<Tx>, i1: TxInfo, i2: TxInfo)
    requires WellFormed(db) && HasKind(db, h, Run)
    requires InfoFrom(Rows(db, h), Programs(db, h), h, a, i1) && InfoFrom(Rows(db, h), Programs(db, h), h, b, i2)
    ensures i1.state == i2.state && i1.userID == i2.userID == db.txs[h].author
    ensures multiset(i1.log) == multiset(i2.log) && Stamps(i1.log) == Stamps(i2.log)
  {
    StateMonotone(a, b);
    RowsListed(db, h, a);
    RowsListed(db, h, b);
    SameLog(a, b, i1.log, i2.log);
  }

  lemma RowsListed(db: DB, h: Hash, txs: seq<Tx>)
    requires WellFormed(db) && HasKind(db, h, Run) && multiset(txs) == multiset(Rows(db, h))
    ensures txs != [] && AuthorOf(txs) == db.txs[h].author
    ensures forall t <- txs :: t in Rows(db, h)
  {
    assert forall t <- txs :: t in multiset(txs);
    RowByKey(db, h, db.txs[h]);
    assert db.txs[h] in multiset(txs);
    AuthorOfRun(db, h, txs);
  }

  lemma {:induction false} SomeOrder(rows: set<Tx>) returns (txs: seq<Tx>)
    ensures multiset(txs) == multiset(rows)
  {
    if rows == {} {
      txs := [];
    } else {
      var t :| t in rows;
      txs := SomeOrder(rows - {t});
      txs := txs + [t];
    }
  }

  /** An answer for each order of the rows and each program. */
  function Made(h: Hash, txs: seq<Tx>, program: string): TxInfo {
    TxInfo(StateOfRows(txs), Duration(txs), h, AuthorOf(txs), program, SortedLog(LogEvents(txs)))
  }

  lemma MadeAnswer(db: DB, id: Hash, h: Hash, txs: seq<Tx>, program: string)
    requires RootOf(db, id) == Ok(h) && Scannable(db, h) && program in Programs(db, h)
    requires multiset(txs) == multiset(Rows(db, h))
    ensures MayAnswer(db, id, Ok(Made(h, txs, program)))
  {
    assert InfoFrom(Rows(db, h), Programs(db, h), h, txs, Made(h, txs, program));
  }

  lemma AnAnswer(db: DB, id: Hash, h: Hash, program: string) returns (info: TxInfo)
    requires RootOf(db, id) == Ok(h) && Scannable(db, h) && program in Programs(db, h)
    ensures MayAnswer(db, id, Ok(info)) && info.proverID == program
  {
    var txs := SomeOrder(Rows(db, h));
    MadeAnswer(db, id, h, txs, program);
    info := Made(h, txs, program);
  }

  ghost predicate OneProver(db: DB, id: Hash) {
    forall i1, i2 :: MayAnswer(db, id, Ok(i1)) && MayAnswer(db, id, Ok(i2)) ==> i1.proverID == i2.proverID
  }

  /** A run with two workflow steps. */
  function TwoSteps(run: Hash, p: string, q: string): DB {
    DB(map[run := Tx("", run, Run, "0", 1, true, true)], map[], map[], map[(run, 1) := p, (run, 2) := q])
  }

  lemma TwoStepsPrograms(run: Hash, p: string, q: string)
    ensures var db := TwoSteps(run, p, q);
      && WellFormed(db) && RootOf(db, run) == Ok(run) && Scannable(db, run)
      && p in Programs(db, run) && q in Programs(db, run)
  {
    var db := TwoSteps(run, p, q);
    assert db.steps[(run, 1)] == p && db.steps[(run, 2)] == q;
  }

  /** If they name two programs there are two answers. */
  lemma ProverExample(run: Hash, p: string, q: string) returns (i1: TxInfo, i2: TxInfo)
    requires p != q
    ensures var db := TwoSteps(run, p, q);
      WellFormed(db) && MayAnswer(db, run, Ok(i1)) && MayAnswer(db, run, Ok(i2)) && i1.proverID != i2.proverID
  {
    var db := TwoSteps(run, p, q);
    TwoStepsPrograms(run, p, q);
    i1 := AnAnswer(db, run, run, p);
    i2 := AnAnswer(db, run, run, q);
  }

  /** OrderFree, of the rows as a set. */
  ghost predicate OrderFreeRows(rows: set<Tx>) {
    || (forall t <- rows :: t.createdAt != 0)
    || (forall t <- rows :: t.createdAt == 0)
    || ((exists t :: t in rows && t.createdAt < 0) && exists t :: t in rows && t.createdAt > 0)
  }

  lemma Listed(rows: set<Tx>, txs: seq<Tx>)
    requires multiset(txs) == multiset(rows)
    ensures OrderFree(txs) <==> OrderFreeRows(rows)
  {
    assert forall t :: (t in txs <==> t in multiset(txs)) && (t in rows <==> t in multiset(rows));
  }

  ghost predicate OneDuration(db: DB, id: Hash) {
    forall i1, i2 :: MayAnswer(db, id, Ok(i1)) && MayAnswer(db, id, Ok(i2)) ==> i1.duration == i2.duration
  }

  /** So is the duration exactly when no row of the job has a zero timestamp, all have,
      or some lie on each side of it. */
  lemma JobDurationIff(db: DB, id: Hash)
    requires WellFormed(db) && RootOf(db, id).Ok? && Scannable(db, RootOf(db, id).value)
    requires Programs(db, RootOf(db, id).value) != {}
    ensures OneDuration(db, id) <==> OrderFreeRows(Rows(db, RootOf(db, id).value))
  {
    var h := RootOf(db, id).value;
    var rows := Rows(db, h);
    RootIsRun(db, id);
    var txs := SomeOrder(rows);
    RowsListed(db, h, txs);
    Listed(rows, txs);
    OrderIff(txs);
    if OrderFreeRows(rows) {
      forall i1, i2 | MayAnswer(db, id, Ok(i1)) && MayAnswer(db, id, Ok(i2)) ensures i1.duration == i2.duration {
        var a: seq<Tx> :| InfoFrom(rows, Programs(db, h), h, a, i1);
        var b: seq<Tx> :| InfoFrom(rows, Programs(db, h), h, b, i2);
        SameDuration(txs, a, b);
      }
    } else {
      var a, b :| multiset(a) == multiset(txs) && multiset(b) == multiset(txs) && Duration(a) != Duration(b);
      var p :| p in Programs(db, h);
      MadeAnswer(db, id, h, a, p);
      MadeAnswer(db, id, h, b, p);
      assert Made(h, a, p).duration != Made(h, b, p).duration;
    }
  }
}
