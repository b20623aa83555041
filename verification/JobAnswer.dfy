/** What TxInfo tells about a job, told from the tables: its state, who did what
    in its log, and its prover. */
module JobAnswer {
  import opened Model
  import opened Jobs
  import opened JobLog
  import opened JobInfo

  // ---------------------------------------------------------------------------
  // State

  /** The verifications of the proofs of run h. */
  function VerifiedIn(db: DB, h: Hash): set<Hash> {
    set v | v in db.verifications && db.verifications[v] in db.proofs && db.proofs[db.verifications[v]] == h
  }

  function ProofsIn(db: DB, h: Hash): set<Hash> {
    set p | p in db.proofs && db.proofs[p] == h
  }

  lemma CountsIn(db: DB, h: Hash)
    ensures CountProofs(db, Some(h)) == |ProofsIn(db, h)| && CountVerifications(db, Some(h)) == |VerifiedIn(db, h)|
  {
    JoinedOnce(db, h);
    assert VerifiedBy(db, h) == VerifiedIn(db, h);
    assert (set p | p in db.proofs && Some(db.proofs[p]) == Some(h)) == ProofsIn(db, h);
  }

  /** A job is Submitted without proofs, Proving while none is verified, Verifying with one
      or two verifications, and Complete from three on. */
  lemma StateTold(d0: DB, d1: DB, d2: DB, d3: DB, id: Hash, h: Hash, r: Result<TxInfo>)
    requires WellFormed(d2) && HasKind(d2, h, Run) && RootAcross(d0, d1, id) == Ok(h)
    requires MayAnswerAcross(d0, d1, d2, d3, id, r) && r.Ok?
    ensures var p, v := |ProofsIn(d2, h)|, |VerifiedIn(d2, h)|;
      && (r.value.state == SUBMITTED <==> p == 0)
      && (r.value.state == PROVING <==> p > 0 && v == 0)
      && (r.value.state == VERIFYING <==> 1 <= v <= 2)
      && (r.value.state == COMPLETE <==> v >= 3)
  {
    StateAcross(d0, d1, d2, d3, id, h, r);
    CountsIn(d2, h);
    NoProofNoVerification(d2, h);
  }

  // ---------------------------------------------------------------------------
  // Log

  /** The entry of a row: its author, when it was created, and the state its kind stands for. */
  ghost predicate Tells(e: TxLogEvent, t: Tx) {
    && e.id == t.author && e.idType == "node id" && e.timestamp == t.createdAt
    && (t.kind == Run ==> e.state == SUBMITTED)
    && (t.kind == Proof ==> e.state == PROVING)
    && (t.kind == Verification ==> e.state == VERIFYING)
  }

  /** The states of a log, with how often each occurs. */
  function StateCounts(log: seq<TxLogEvent>): multiset<State> {
    multiset(MapSeq(StateOfEntry, log))
  }

  function StateOfEntry(e: TxLogEvent): State { e.state }

  lemma {:induction false} KindCounts(txs: seq<Tx>, k: TxKind, s: State)
    requires (k == Run && s == SUBMITTED) || (k == Proof && s == PROVING) || (k == Verification && s == VERIFYING)
    ensures StateCounts(LogEvents(txs))[s] == CountKind(txs, k)
  {
    if txs != [] {
      var p, t := txs[..|txs| - 1], txs[|txs| - 1];
      assert txs == p + [t];
      KindCounts(p, k, s);
      LogEventsAppend(p, t);
      StatesAppend(LogEvents(p), LogEvent(t));
    }
  }

  lemma StatesAppend(log: seq<TxLogEvent>, e: TxLogEvent)
    ensures StateCounts(log + [e]) == StateCounts(log) + multiset{e.state}
  {
    assert MapSeq(StateOfEntry, log + [e]) == MapSeq(StateOfEntry, log) + [e.state];
  }

  lemma OneRun(db: DB, h: Hash)
    requires WellFormed(db) && HasKind(db, h, Run)
    ensures |OfKind(Rows(db, h), Run)| == 1
  {
    RowByKey(db, h, db.txs[h]);
    forall t <- OfKind(Rows(db, h), Run) ensures t == db.txs[h] { RowByKey(db, h, t); }
    assert OfKind(Rows(db, h), Run) == {db.txs[h]};
  }

  lemma RowToEntry(txs: seq<Tx>, log: seq<TxLogEvent>, t: Tx)
    requires IsLogOf(txs, log) && t in txs
    ensures exists e :: e in log && Tells(e, t)
  {
    var i :| 0 <= i < |txs| && txs[i] == t;
    assert LogEvents(txs)[i] == LogEvent(t);
    assert LogEvent(t) in multiset(log);
    assert Tells(LogEvent(t), t);
  }

  lemma EntryToRow(txs: seq<Tx>, log: seq<TxLogEvent>, e: TxLogEvent)
    requires IsLogOf(txs, log) && e in log
    ensures exists t :: t in txs && Tells(e, t)
  {
    LogNeverComplete(txs, log, e);
    var t :| t in txs && e == LogEvent(t);
    assert Tells(e, t);
  }

  /** The log of run h: one entry is Submitted, as many as its proofs are Proving, as many as their
      verifications Verifying; each tells of a transaction of the job, and each of those is told of. */
  ghost predicate LogTold(db: DB, h: Hash, log: seq<TxLogEvent>) {
    && |log| == 1 + |ProofsIn(db, h)| + |VerifiedIn(db, h)|
    && StateCounts(log)[SUBMITTED] == 1
    && StateCounts(log)[PROVING] == |ProofsIn(db, h)|
    && StateCounts(log)[VERIFYING] == |VerifiedIn(db, h)|
    && (forall e <- log :: exists k :: k in db.txs && InFamily(db, h, k) && Tells(e, db.txs[k]))
    && forall k <- db.txs :: InFamily(db, h, k) ==> exists e :: e in log && Tells(e, db.txs[k])
  }

  lemma CountsTold(db: DB, h: Hash, txs: seq<Tx>, log: seq<TxLogEvent>)
    requires WellFormed(db) && HasKind(db, h, Run) && multiset(txs) == multiset(Rows(db, h)) && IsLogOf(txs, log)
    ensures StateCounts(log)[SUBMITTED] == 1
    ensures StateCounts(log)[PROVING] == |ProofsIn(db, h)| && StateCounts(log)[VERIFYING] == |VerifiedIn(db, h)|
  {
    MapPermutes(StateOfEntry, log, LogEvents(txs));
    KindCounts(txs, Run, SUBMITTED);
    KindCounts(txs, Proof, PROVING);
    KindCounts(txs, Verification, VERIFYING);
    CountRows(txs, Rows(db, h), Run);
    OneRun(db, h);
    RowCounts(db, h, txs);
    CountsIn(db, h);
  }

  lemma {:induction false} KindsAddUp(txs: seq<Tx>)
    requires forall t <- txs :: t.kind != Other
    ensures |txs| == CountKind(txs, Run) + CountKind(txs, Proof) + CountKind(txs, Verification)
  {
    if txs != [] {
      var p := txs[..|txs| - 1];
      assert txs == p + [txs[|txs| - 1]];
      KindsAddUp(p);
    }
  }

  lemma SizeTold(db: DB, h: Hash, txs: seq<Tx>, log: seq<TxLogEvent>)
    requires WellFormed(db) && HasKind(db, h, Run) && multiset(txs) == multiset(Rows(db, h)) && IsLogOf(txs, log)
    ensures |log| == 1 + |ProofsIn(db, h)| + |VerifiedIn(db, h)|
  {
    assert |multiset(log)| == |log| && |multiset(LogEvents(txs))| == |txs|;
    RowsListed(db, h, txs);
    forall t <- txs ensures t.kind != Other { RowByKey(db, h, t); }
    KindsAddUp(txs);
    CountRows(txs, Rows(db, h), Run);
    OneRun(db, h);
    RowCounts(db, h, txs);
    CountsIn(db, h);
  }

  lemma EntriesTold(db: DB, h: Hash, txs: seq<Tx>, log: seq<TxLogEvent>)
    requires WellFormed(db) && HasKind(db, h, Run) && multiset(txs) == multiset(Rows(db, h)) && IsLogOf(txs, log)
    ensures forall e <- log :: exists k :: k in db.txs && InFamily(db, h, k) && Tells(e, db.txs[k])
    ensures forall k <- db.txs :: InFamily(db, h, k) ==> exists e :: e in log && Tells(e, db.txs[k])
  {
    RowsListed(db, h, txs);
    forall e <- log ensures exists k :: k in db.txs && InFamily(db, h, k) && Tells(e, db.txs[k]) {
      EntryToRow(txs, log, e);
      var t :| t in txs && Tells(e, t);
      RowByKey(db, h, t);
      assert t.hash in db.txs && InFamily(db, h, t.hash);
    }
    forall k <- db.txs | InFamily(db, h, k) ensures exists e :: e in log && Tells(e, db.txs[k]) {
      RowByKey(db, h, db.txs[k]);
      assert db.txs[k] in multiset(Rows(db, h)) && db.txs[k] in multiset(txs);
      RowToEntry(txs, log, db.txs[k]);
    }
  }

  /** So is the log of every answer, by the database its third query sees. */
  lemma LogTheorem(d0: DB, d1: DB, d2: DB, d3: DB, id: Hash, h: Hash, r: Result<TxInfo>)
    requires WellFormed(d2) && HasKind(d2, h, Run) && RootAcross(d0, d1, id) == Ok(h)
    requires MayAnswerAcross(d0, d1, d2, d3, id, r) && r.Ok?
    ensures LogTold(d2, h, r.value.log)
  {
    var txs: seq<Tx> :| InfoFrom(Rows(d2, h), Programs(d3, h), h, txs, r.value);
    CountsTold(d2, h, txs, r.value.log);
    SizeTold(d2, h, txs, r.value.log);
    EntriesTold(d2, h, txs, r.value.log);
  }

  /** The duration of an answer is the time from its first log entry to the last, within an int64. */
  lemma DurationTold(d0: DB, d1: DB, d2: DB, d3: DB, id: Hash, h: Hash, r: Result<TxInfo>)
    requires WellFormed(d2) && HasKind(d2, h, Run) && RootAcross(d0, d1, id) == Ok(h) && OrderFreeRows(Rows(d2, h))
    requires MayAnswerAcross(d0, d1, d2, d3, id, r) && r.Ok?
    ensures var log := r.value.log;
      log != [] &&
      var span := log[|log| - 1].timestamp - log[0].timestamp;
      0 <= span && r.value.duration == if span <= 9223372036854775807 then span else 9223372036854775807
  {
    var txs: seq<Tx> :| InfoFrom(Rows(d2, h), Programs(d3, h), h, txs, r.value);
    RowsListed(d2, h, txs);
    Listed(Rows(d2, h), txs);
    LogSpan(txs, r.value.log);
  }

  // ---------------------------------------------------------------------------
  // Prover

  /** The prover of an answer is the program of a workflow step of its run, in the database its last query sees. */
  lemma ProverTold(d0: DB, d1: DB, d2: DB, d3: DB, id: Hash, r: Result<TxInfo>)
    requires MayAnswerAcross(d0, d1, d2, d3, id, r) && r.Ok?
    ensures RootAcross(d0, d1, id) == Ok(r.value.txID)
    ensures exists s :: s in d3.steps && s.0 == r.value.txID && d3.steps[s] == r.value.proverID
  {
    var h := RootAcross(d0, d1, id).value;
    var txs: seq<Tx> :| InfoFrom(Rows(d2, h), Programs(d3, h), h, txs, r.value);
    var s :| s in d3.steps && s.0 == h && d3.steps[s] == r.value.proverID;
  }

  /** Every step's program is the prover of some answer. */
  lemma StepAnswers(db: DB, id: Hash, h: Hash, s: (Hash, int)) returns (info: TxInfo)
    requires RootOf(db, id) == Ok(h) && Scannable(db, h) && s in db.steps && s.0 == h
    ensures MayAnswer(db, id, Ok(info)) && info.proverID == db.steps[s]
  {
    assert db.steps[s] in Programs(db, h);
    info := AnAnswer(db, id, h, db.steps[s]);
  }

  ghost predicate OneProgram(db: DB, h: Hash) {
    forall s, t :: s in db.steps && t in db.steps && s.0 == t.0 == h ==> db.steps[s] == db.steps[t]
  }

  lemma SameProgram(db: DB, id: Hash, h: Hash, a: TxInfo, b: TxInfo)
    requires RootOf(db, id) == Ok(h) && OneProgram(db, h) && MayAnswer(db, id, Ok(a)) && MayAnswer(db, id, Ok(b))
    ensures a.proverID == b.proverID
  {
    ProverTold(db, db, db, db, id, Ok(a));
    ProverTold(db, db, db, db, id, Ok(b));
    var s :| s in db.steps && s.0 == h && db.steps[s] == a.proverID;
    var t :| t in db.steps && t.0 == h && db.steps[t] == b.proverID;
  }

  /** The prover shown is the same in every answer exactly when all workflow steps of
      the run name one program: the query takes any step. */
  lemma ProverIff(db: DB, id: Hash, h: Hash)
    requires RootOf(db, id) == Ok(h) && Scannable(db, h)
    ensures OneProver(db, id) <==> OneProgram(db, h)
  {
    if s, t :| s in db.steps && t in db.steps && s.0 == t.0 == h && db.steps[s] != db.steps[t] {
      var a := StepAnswers(db, id, h, s);
      var b := StepAnswers(db, id, h, t);
    } else {
      forall a, b | MayAnswer(db, id, Ok(a)) && MayAnswer(db, id, Ok(b)) ensures a.proverID == b.proverID {
        SameProgram(db, id, h, a, b);
      }
    }
  }
}
