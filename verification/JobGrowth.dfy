/** A job's reported state over time: rows are only ever inserted, and no
    sequence of inserts takes a job backwards. */
module JobGrowth {
  import opened Model
  import opened Jobs
  import opened JobInfo

  datatype Insert =
    | InsertTx(t: Tx)
    | InsertProof(tx: Hash, parent: Hash)
    | InsertVerification(tx: Hash, parent: Hash)
    | InsertStep(tx: Hash, sequence: int, program: string)

  /** The key is unused and the references exist, with the kinds the tables are for. */
  predicate Accepts(db: DB, x: Insert) {
    match x
    case InsertTx(t) => t.hash !in db.txs
    case InsertProof(tx, parent) => tx !in db.proofs && HasKind(db, tx, Proof) && HasKind(db, parent, Run)
    case InsertVerification(tx, parent) =>
      tx !in db.verifications && HasKind(db, tx, Verification) && parent in db.proofs
    case InsertStep(tx, sequence, _) => (tx, sequence) !in db.steps && tx in db.txs
  }

  function Apply(db: DB, x: Insert): DB {
    match x
    case InsertTx(t) => db.(txs := db.txs[t.hash := t])
    case InsertProof(tx, parent) => db.(proofs := db.proofs[tx := parent])
    case InsertVerification(tx, parent) => db.(verifications := db.verifications[tx := parent])
    case InsertStep(tx, sequence, program) => db.(steps := db.steps[(tx, sequence) := program])
  }

  /** The database after a sequence of inserts, each of which it accepts. */
  function ApplyAll(db: DB, xs: seq<Insert>): Option<DB> {
    if xs == [] then Some(db)
    else
      var d := ApplyAll(db, xs[..|xs| - 1]);
      if d.Some? && Accepts(d.value, xs[|xs| - 1]) then Some(Apply(d.value, xs[|xs| - 1])) else None
  }

  predicate Within<K, V(==)>(m: map<K, V>, m': map<K, V>) {
    forall k <- m :: k in m' && m'[k] == m[k]
  }

  predicate Extends(db: DB, db': DB) {
    && Within(db.txs, db'.txs) && Within(db.proofs, db'.proofs)
    && Within(db.verifications, db'.verifications) && Within(db.steps, db'.steps)
  }

  lemma {:induction false} InsertsExtend(db: DB, xs: seq<Insert>)
    requires WellFormed(db) && ApplyAll(db, xs).Some?
    ensures WellFormed(ApplyAll(db, xs).value) && Extends(db, ApplyAll(db, xs).value)
  {
    if xs != [] {
      InsertsExtend(db, xs[..|xs| - 1]);
      ApplyExtends(db, ApplyAll(db, xs[..|xs| - 1]).value, xs[|xs| - 1]);
    }
  }

  lemma ApplyExtends(db: DB, d: DB, x: Insert)
    requires WellFormed(d) && Extends(db, d) && Accepts(d, x)
    ensures WellFormed(Apply(d, x)) && Extends(db, Apply(d, x))
  {
    match x
    case InsertTx(t) => TxKeeps(d, t);
    case InsertProof(tx, parent) => ProofKeeps(d, tx, parent);
    case InsertVerification(tx, parent) => VerificationKeeps(d, tx, parent);
    case InsertStep(_, _, _) =>
  }

  lemma TxKeeps(d: DB, t: Tx)
    requires WellFormed(d) && t.hash !in d.txs
    ensures WellFormed(d.(txs := d.txs[t.hash := t]))
  {
  }

  lemma ProofKeeps(d: DB, tx: Hash, parent: Hash)
    requires WellFormed(d) && tx !in d.proofs && HasKind(d, tx, Proof) && HasKind(d, parent, Run)
    ensures WellFormed(d.(proofs := d.proofs[tx := parent]))
  {
  }

  lemma VerificationKeeps(d: DB, tx: Hash, parent: Hash)
    requires WellFormed(d) && tx !in d.verifications && HasKind(d, tx, Verification) && parent in d.proofs
    ensures WellFormed(d.(verifications := d.verifications[tx := parent]))
  {
  }

  predicate Unused(db: DB, x: Insert) {
    match x
    case InsertTx(t) => t.hash !in db.txs
    case InsertProof(tx, _) => tx !in db.proofs
    case InsertVerification(tx, _) => tx !in db.verifications
    case InsertStep(tx, sequence, _) => (tx, sequence) !in db.steps
  }

  /** An insert is accepted exactly if its key is unused and the database stays well formed. */
  lemma AcceptsIff(db: DB, x: Insert)
    requires WellFormed(db)
    ensures Accepts(db, x) <==> Unused(db, x) && WellFormed(Apply(db, x))
  {
    var d := Apply(db, x);
    if Accepts(db, x) { ApplyExtends(db, db, x); }
    match x
    case InsertTx(_) =>
    case InsertProof(tx, parent) => assert d.proofs[tx] == parent;
    case InsertVerification(tx, parent) => assert d.verifications[tx] == parent;
    case InsertStep(tx, sequence, _) => assert (tx, sequence) in d.steps;
  }

  lemma CountsGrow(db: DB, db': DB, h: Hash)
    requires Extends(db, db')
    ensures CountProofs(db, Some(h)) <= CountProofs(db', Some(h))
    ensures CountVerifications(db, Some(h)) <= CountVerifications(db', Some(h))
  {
    Subset((set p | p in db.proofs && Some(db.proofs[p]) == Some(h)),
           (set p | p in db'.proofs && Some(db'.proofs[p]) == Some(h)));
    Subset(VerifiedPairs(db, Some(h)), VerifiedPairs(db', Some(h)));
  }

  /** h is a run with a workflow step, id belongs to its job, and every transaction of the
      job can be read. */
  ghost predicate Answerable(db: DB, h: Hash, id: Hash) {
    && HasKind(db, h, Run) && InFamily(db, h, id)
    && (forall k <- db.txs :: InFamily(db, h, k) ==> Scans(db.txs[k]))
    && exists s :: s in db.steps && s.0 == h
  }

  lemma StepsHavePrograms(db: DB, h: Hash)
    ensures Programs(db, h) != {} <==> exists s :: s in db.steps && s.0 == h
  {
    if s :| s in db.steps && s.0 == h { assert db.steps[s] in Programs(db, h); }
  }

  lemma ReadableJob(db: DB, h: Hash)
    requires WellFormed(db) && HasKind(db, h, Run)
    ensures Scannable(db, h) <==> forall k <- db.txs :: InFamily(db, h, k) ==> Scans(db.txs[k])
  {
    forall k <- db.txs ensures db.txs[k] in Rows(db, h) <==> InFamily(db, h, k) { RowByKey(db, h, db.txs[k]); }
    forall t <- Rows(db, h) ensures t.hash in db.txs && db.txs[t.hash] == t { RowByKey(db, h, t); }
  }

  /** Told from the tables: TxInfo answers exactly for the members of such a job, and with its run. */
  lemma AnswersWhen(db: DB, id: Hash, r: Result<TxInfo>)
    requires WellFormed(db) && MayAnswer(db, id, r)
    ensures r.Ok? <==> exists h :: Answerable(db, h, id)
    ensures r.Ok? ==> Answerable(db, r.value.txID, id)
  {
    if r.Ok? {
      var h := RootOf(db, id).value;
      RootIsRun(db, id);
      FamilyRoot(db, h, id);
      ReadableJob(db, h);
      StepsHavePrograms(db, h);
      assert Answerable(db, h, id);
    } else if h :| Answerable(db, h, id) {
      FamilyRoot(db, h, id);
      ReadableJob(db, h);
      StepsHavePrograms(db, h);
    }
  }

  /** With rows inserted between its queries: the parent is that of the second, the rows that
      must be readable those of the third, the workflow step that must exist one of the last. */
  lemma AnswersAcross(d0: DB, d1: DB, d2: DB, d3: DB, id: Hash, r: Result<TxInfo>)
    requires WellFormed(d0) && WellFormed(d1) && WellFormed(d2) && Extends(d0, d1) && Extends(d1, d2)
    requires MayAnswerAcross(d0, d1, d2, d3, id, r)
    ensures r.Ok? <==> id in d0.txs && Scans(d0.txs[id]) && exists h :: AnswerableAcross(d1, d2, d3, h, id)
  {
    if id in d0.txs && Scans(d0.txs[id]) {
      assert RootAcross(d0, d1, id) == RootOf(d1, id);
      if RootOf(d1, id).Ok? {
        RootIsRun(d1, id);
        FamilyRoot(d1, RootOf(d1, id).value, id);
        ReadableJob(d2, RootOf(d1, id).value);
        StepsHavePrograms(d3, RootOf(d1, id).value);
        assert r.Ok? ==> AnswerableAcross(d1, d2, d3, RootOf(d1, id).value, id);
      }
      if h :| AnswerableAcross(d1, d2, d3, h, id) { FamilyRoot(d1, h, id); }
    }
  }

  ghost predicate AnswerableAcross(d1: DB, d2: DB, d3: DB, h: Hash, id: Hash) {
    && HasKind(d1, h, Run) && InFamily(d1, h, id)
    && (forall k <- d2.txs :: InFamily(d2, h, k) ==> Scans(d2.txs[k]))
    && exists s :: s in d3.steps && s.0 == h
  }

  lemma RootStays(db: DB, db': DB, id: Hash)
    requires WellFormed(db) && Extends(db, db') && RootOf(db, id).Ok?
    ensures RootOf(db', id) == RootOf(db, id)
    ensures Programs(db, RootOf(db, id).value) <= Programs(db', RootOf(db, id).value)
  {
    var h := RootOf(db, id).value;
    forall p <- Programs(db, h) ensures p in Programs(db', h) {
      var s :| s in db.steps && s.0 == h && db.steps[s] == p;
      assert s in db'.steps && db'.steps[s] == p;
    }
  }

  lemma JobStateMonotone(p: nat, v: nat, p': nat, v': nat)
    requires p <= p' && v <= v'
    ensures JobState(p, v) <= JobState(p', v')
  {
  }

  /** Along any sequence of accepted inserts, a transaction TxInfo can answer for stays
      answerable exactly while every row of its job can be read; it keeps its run, and never
      reports an earlier state. */
  lemma StateNeverFalls(db: DB, xs: seq<Insert>, id: Hash, r: Result<TxInfo>, r': Result<TxInfo>)
    requires WellFormed(db) && ApplyAll(db, xs).Some?
    requires MayAnswer(db, id, r) && MayAnswer(ApplyAll(db, xs).value, id, r') && r.Ok?
    ensures r'.Ok? <==> Scannable(ApplyAll(db, xs).value, r.value.txID)
    ensures r'.Ok? ==> r'.value.txID == r.value.txID && r.value.state <= r'.value.state
  {
    InsertsExtend(db, xs);
    var db' := ApplyAll(db, xs).value;
    RootStays(db, db', id);
    if r'.Ok? {
      AnswerCounts(db, id, r);
      AnswerCounts(db', id, r');
      StateGrows(db, db', RootOf(db, id).value);
    }
  }

  lemma StateGrows(db: DB, db': DB, h: Hash)
    requires Extends(db, db')
    ensures StateIn(db, h) <= StateIn(db', h)
  {
    CountsGrow(db, db', h);
    JobStateMonotone(CountProofs(db, Some(h)), CountVerifications(db, Some(h)),
                     CountProofs(db', Some(h)), CountVerifications(db', Some(h)));
  }

  /** A run with one workflow step. */
  function RunAlone(run: Hash): DB {
    DB(map[run := Tx("", run, Run, "0", 1, true, true)], map[], map[], map[(run, 1) := ""])
  }

  lemma RunAloneAnswers(run: Hash) returns (info: TxInfo)
    ensures WellFormed(RunAlone(run)) && MayAnswer(RunAlone(run), run, Ok(info))
  {
    var db := RunAlone(run);
    assert (run, 1) in db.steps && db.steps[(run, 1)] in Programs(db, run);
    info := AnAnswer(db, run, run, "");
  }

  lemma UnreadableRow(db: DB, run: Hash, t: Tx)
    requires RootOf(db, run) == Ok(run) && !Scans(t)
    requires t.hash in db.txs && db.txs[t.hash] == t && t.hash in db.proofs && db.proofs[t.hash] == run
    ensures MayAnswer(db, run, Err)
  {
    assert t in Rows(db, run);
  }

  /** Inserting a proof whose row cannot be read silences a job that could be answered for. */
  lemma UnreadableSilences(run: Hash, t: Tx) returns (db: DB, xs: seq<Insert>, r: Result<TxInfo>)
    requires t.hash != run && t.kind == Proof && !Scans(t)
    ensures xs == [InsertTx(t), InsertProof(t.hash, run)] && WellFormed(db) && ApplyAll(db, xs).Some?
    ensures MayAnswer(db, run, r) && r.Ok? && MayAnswer(ApplyAll(db, xs).value, run, Err)
  {
    db := RunAlone(run);
    var info := RunAloneAnswers(run);
    r := Ok(info);
    xs := [InsertTx(t), InsertProof(t.hash, run)];
    ApplyTwo(db, InsertTx(t), InsertProof(t.hash, run));
    UnreadableRow(ApplyAll(db, xs).value, run, t);
  }

  /** Such rows have a NULL, ... */
  lemma NullSilences(run: Hash, proof: Hash) returns (db: DB, xs: seq<Insert>, r: Result<TxInfo>)
    requires run != proof
    ensures WellFormed(db) && ApplyAll(db, xs).Some?
    ensures MayAnswer(db, run, r) && r.Ok? && MayAnswer(ApplyAll(db, xs).value, run, Err)
  {
    db, xs, r := UnreadableSilences(run, Tx("", proof, Proof, "0", 2, false, true));
  }

  /** ... or, without any, a nonce that is no int. */
  lemma NonceSilences(run: Hash, proof: Hash) returns (db: DB, xs: seq<Insert>, r: Result<TxInfo>)
    requires run != proof
    ensures WellFormed(db) && ApplyAll(db, xs).Some? && forall x <- xs :: x.InsertTx? ==> x.t.noNulls && x.t.finite
    ensures MayAnswer(db, run, r) && r.Ok? && MayAnswer(ApplyAll(db, xs).value, run, Err)
  {
    assert "1.5"[..2] == "1.";
    db, xs, r := UnreadableSilences(run, Tx("", proof, Proof, "1.5", 2, true, true));
  }

  lemma ApplyTwo(db: DB, x: Insert, y: Insert)
    requires Accepts(db, x) && Accepts(Apply(db, x), y)
    ensures ApplyAll(db, [x, y]) == Some(Apply(Apply(db, x), y))
  {
    assert [x, y][..1] == [x] && [x][..0] == [];
    assert ApplyAll(db, [x]) == Some(Apply(db, x));
  }

  lemma RootBetween(d0: DB, d1: DB, id: Hash, h: Hash)
    requires WellFormed(d0) && WellFormed(d1) && Extends(d0, d1) && RootAcross(d0, d1, id) == Ok(h)
    ensures RootOf(d1, id) == Ok(h) && HasKind(d1, h, Run)
    ensures RootOf(d0, id).Ok? ==> RootOf(d0, id) == Ok(h)
  {
    RootIsRun(d1, id);
    if RootOf(d0, id).Ok? { RootStays(d0, d1, id); }
  }

  /** When rows are inserted between TxInfo's queries, the state it reports still lies
      between the job's at the first and at the last of them, and it is of the same run. */
  lemma AnswerBetween(d0: DB, d1: DB, d2: DB, d3: DB, id: Hash, r: Result<TxInfo>)
    requires WellFormed(d0) && WellFormed(d1) && WellFormed(d2)
    requires Extends(d0, d1) && Extends(d1, d2) && Extends(d2, d3)
    requires MayAnswerAcross(d0, d1, d2, d3, id, r) && r.Ok?
    ensures RootOf(d1, id) == Ok(r.value.txID) && (RootOf(d0, id).Ok? ==> RootOf(d0, id) == RootOf(d1, id))
    ensures StateIn(d0, r.value.txID) <= r.value.state == StateIn(d2, r.value.txID) <= StateIn(d3, r.value.txID)
  {
    var h := RootAcross(d0, d1, id).value;
    RootBetween(d0, d1, id, h);
    StateAcross(d0, d1, d2, d3, id, h, r);
    StateGrows(d0, d1, h);
    StateGrows(d1, d2, h);
    StateGrows(d2, d3, h);
  }
}
