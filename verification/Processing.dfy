/** One message processed in one transaction, and processed again. */
module Processing {
  import opened Basics
  import opened Matching
  import opened Tables
  import opened TablesProofs
  import opened Protocol
  import opened Safety

  /** What layers 1-3 may choose for this message, given the tables. */
  predicate Choice(st: Settings, db: Db, msg: Message, partner: Option<Facts>) {
    if MessageRef(msg) in db.rows && !msg.isDuplicate
    then var c := db.rows[MessageRef(msg)].facts;
         BestPartner(c, Candidates(db, c, st.cfg), st.cfg, partner)
    else partner.None?
  }

  function IntentFor(db: Db, msg: Message, partner: Option<Facts>): Option<Intent> {
    if MessageRef(msg) !in db.rows then None
    else
      var c := db.rows[MessageRef(msg)].facts;
      if msg.isDuplicate then Some(Mark(c))
      else if partner.Some? then Some(Pair(c, partner.value))
      else None
  }

  /** The tables after the message's transaction. */
  function Processed(st: Settings, db: Db, msg: Message, partner: Option<Facts>, now: int): Db
    requires Choice(st, db, msg, partner)
  {
    var i := IntentFor(db, msg, partner);
    if i.None? then db else Apply(db, DecisionOf(i.value, st.cfg), i.value.candidate.tenant, now)
  }

  /** One of the transactions the matcher may run for this message. */
  ghost predicate ProcessedOnce(st: Settings, db: Db, msg: Message, now: int, db': Db) {
    exists p :: Choice(st, db, msg, p) && db' == Processed(st, db, msg, p, now)
  }

  /** A read step followed at once by its commit step is that transaction. */
  lemma ReadThenCommit(st: Settings, s: Sys, a: nat, n: nat, partner: Option<Facts>)
    requires Enabled(st, s, WorkerRead(a, n, partner)) && MessageRef(s.log[n].msg) in s.db.rows
    ensures Choice(st, s.db, s.log[n].msg, partner)
    ensures var s1 := Exec(st, s, WorkerRead(a, n, partner));
            Enabled(st, s1, WorkerCommit(a))
            && Exec(st, s1, WorkerCommit(a)).db == Processed(st, s.db, s.log[n].msg, partner, s.now)
  {
  }

  /** A result of this tenant on `ref`, a duplicate marker or an active one. */
  ghost predicate ResultOn(db: Db, ref: Ref, tenant: nat, marker: bool) {
    exists r :: r in db.results && db.results[r].Names(ref) && db.results[r].tenant == tenant
                && ((db.results[r].status == Duplicate) <==> marker)
  }

  lemma SettledRowRefuses(db: Db, d: Decision, tenant: nat, ref: Ref)
    requires DecisionNames(d, ref) && ResultOn(db, ref, tenant, d.status == Duplicate)
    ensures OutcomeOf(db, d, tenant).Skipped?
  {
    var r :| r in db.results && db.results[r].Names(ref) && db.results[r].tenant == tenant
             && ((db.results[r].status == Duplicate) <==> (d.status == Duplicate));
    assert Clashes(db.results[r], d, tenant);
  }

  /** A refusal comes from a result on one of the rows the decision names. */
  lemma RefusedByResult(st: Settings, db: Db, i: Intent, now: int)
    requires ReconciledByResult(db) && IntentSound(st, db, now, i)
    requires i.Pair? ==> PendingFacts(db, i.partner)
    requires OutcomeOf(db, DecisionOf(i, st.cfg), i.candidate.tenant).Skipped?
    ensures ResultOn(db, RefOf(i.candidate), i.candidate.tenant, i.Mark?)
  {
    if i.Pair? { ViableAgrees(i.candidate, i.partner, st.cfg); }
    var d := DecisionOf(i, st.cfg);
    var r :| r in db.results && Clashes(db.results[r], d, i.candidate.tenant);
    if i.Pair? {
      assert !ActiveOn(db, r, RefOf(i.partner));
    }
  }

  /** A sound and current decision about a stored row leaves a result on that row. */
  lemma CommitLeavesResult(st: Settings, db: Db, i: Intent, now: int)
    requires ForeignKeys(db) && ReconciledByResult(db) && IntentSound(st, db, now, i)
    requires RefOf(i.candidate) in db.rows && (i.Pair? ==> PendingFacts(db, i.partner))
    ensures ResultOn(Apply(db, DecisionOf(i, st.cfg), i.candidate.tenant, now),
      RefOf(i.candidate), i.candidate.tenant, i.Mark?)
  {
    var d := DecisionOf(i, st.cfg);
    if i.Pair? { ViableAgrees(i.candidate, i.partner, st.cfg); }
    if OutcomeOf(db, d, i.candidate.tenant).Skipped? {
      RefusedByResult(st, db, i, now);
    } else {
      assert ReferencesHold(db, d, i.candidate.tenant);
      var db' := InsertResult(db, d, i.candidate.tenant, now);
      assert db'.results[db.nextResult].Names(RefOf(i.candidate));
    }
  }

  lemma FirstPass(st: Settings, db: Db, msg: Message, p: Option<Facts>, now: int)
    requires IdsBelowNext(db) && ForeignKeys(db) && ReconciledByResult(db) && MessageSane(db, msg)
    requires Choice(st, db, msg, p) && IntentFor(db, msg, p).Some?
    ensures var i := IntentFor(db, msg, p).value;
      && ResultOn(Processed(st, db, msg, p, now), MessageRef(msg), i.candidate.tenant, msg.isDuplicate)
      && MessageRef(msg) in Processed(st, db, msg, p, now).rows
      && Processed(st, db, msg, p, now).rows[MessageRef(msg)].facts == i.candidate
      && IdsBelowNext(Processed(st, db, msg, p, now))
  {
    var i := IntentFor(db, msg, p).value;
    if p.Some? { CandidateIsRow(db, i.candidate, st.cfg, p.value); }
    assert RefOf(i.candidate) == MessageRef(msg) && i.Mark? == msg.isDuplicate;
    CommitLeavesResult(st, db, i, now);
    ApplyKeepsFacts(db, DecisionOf(i, st.cfg), i.candidate.tenant, now, MessageRef(msg));
    hide IdsBelowNext, ForeignKeys, ReconciledByResult, BestPartner, Candidates, ResultOn, Apply, DecisionOf;
  }

  lemma ApplyKeepsFacts(db: Db, d: Decision, tenant: nat, now: int, ref: Ref)
    requires IdsBelowNext(db) && ref in db.rows
    ensures ref in Apply(db, d, tenant, now).rows && Apply(db, d, tenant, now).rows[ref].facts == db.rows[ref].facts
    ensures IdsBelowNext(Apply(db, d, tenant, now))
  {
    hide OutcomeOf;
    InsertedRows(db, d, tenant, now);
  }

  /** Processing the same message again at once changes nothing. */
  lemma ReprocessingIsNoOp(st: Settings, db: Db, msg: Message, p: Option<Facts>, q: Option<Facts>, now: int, later: int)
    requires IdsBelowNext(db) && ForeignKeys(db) && ReconciledByResult(db) && MessageSane(db, msg)
    requires Choice(st, db, msg, p)
    requires Choice(st, Processed(st, db, msg, p, now), msg, q)
    ensures Processed(st, Processed(st, db, msg, p, now), msg, q, later) == Processed(st, db, msg, p, now)
  {
    if IntentFor(db, msg, p).Some? {
      FirstPass(st, db, msg, p, now);
      var db1 := Processed(st, db, msg, p, now);
      if IntentFor(db1, msg, q).Some? {
        AgainNames(st, db1, msg, q);
        var i := IntentFor(db1, msg, q).value;
        SettledRowRefuses(db1, DecisionOf(i, st.cfg), i.candidate.tenant, MessageRef(msg));
      }
    } else if MessageRef(msg) in db.rows {
      SameChoice(st, db, msg, p, q);
    }
  }

  lemma AgainNames(st: Settings, db: Db, msg: Message, q: Option<Facts>)
    requires IdsBelowNext(db) && Choice(st, db, msg, q) && IntentFor(db, msg, q).Some?
    ensures var i := IntentFor(db, msg, q).value;
      && (i.Pair? ==> Viable(i.candidate, i.partner, st.cfg))
      && DecisionNames(DecisionOf(i, st.cfg), MessageRef(msg))
      && ((DecisionOf(i, st.cfg).status == Duplicate) <==> msg.isDuplicate)
  {
    var i := IntentFor(db, msg, q).value;
    if i.Pair? { ViableAgrees(i.candidate, i.partner, st.cfg); }
  }

  lemma SameChoice(st: Settings, db: Db, msg: Message, p: Option<Facts>, q: Option<Facts>)
    requires Choice(st, db, msg, p) && Choice(st, db, msg, q) && p.None?
    ensures q.None?
  {
  }

  lemma ProcessedKeepsIds(st: Settings, db: Db, msg: Message, p: Option<Facts>, now: int)
    requires IdsBelowNext(db) && Choice(st, db, msg, p)
    ensures IdsBelowNext(Processed(st, db, msg, p, now))
  {
    hide IdsBelowNext, Apply, Candidates, DecisionOf;
    var i := IntentFor(db, msg, p);
    if i.Some? { ApplyKeepsFacts(db, DecisionOf(i.value, st.cfg), i.value.candidate.tenant, now, MessageRef(msg)); }
  }
}
