/** What the `accepted` figure of a ledger batch counts.  It is documented as the entries
    stored for the first time; it is that number exactly when the batch repeats no new key. */
module AcceptedCount {
  import opened Basics
  import opened Matching
  import opened Tables
  import opened Batches
  import opened Ingestion

  /** Results not flagged duplicate. */
  function Accepted(results: seq<Receipt>): set<nat> { set i | 0 <= i < |results| && !results[i].duplicate }

  function NewRows(db0: Db, db: Db): set<Ref> { set r | r in db.rows && r !in db0.rows }

  function NewKeys(db0: Db, db: Db): set<string> { set r | r in NewRows(db0, db) :: db.rows[r].key }

  function AcceptedKeys(entries: seq<Submission>, results: seq<Receipt>): set<string>
    requires |results| == |entries|
  {
    set i | i in Accepted(results) :: entries[i].key
  }

  /** Every key of the batch that was not stored before is submitted once. */
  ghost predicate RepeatsNoNewKey(db0: Db, tenant: nat, entries: seq<Submission>) {
    forall i :: 0 <= i < |entries| && !Held(db0, tenant, entries[i].key) ==> Occurrences(entries, entries[i].key) == 1
  }

  lemma {:induction false} OccursAt(entries: seq<Submission>, i: nat)
    requires i < |entries|
    ensures Occurrences(entries, entries[i].key) >= 1
  {
    var front := entries[..|entries| - 1];
    if i < |front| {
      assert front[i] == entries[i];
      OccursAt(front, i);
    }
  }

  lemma {:induction false} OccursTwice(entries: seq<Submission>, i: nat, j: nat)
    requires i < j < |entries| && entries[i].key == entries[j].key
    ensures Occurrences(entries, entries[i].key) >= 2
  {
    var front := entries[..|entries| - 1];
    assert front[i] == entries[i];
    if j < |front| {
      assert front[j] == entries[j];
      OccursTwice(front, i, j);
    } else {
      OccursAt(front, i);
    }
  }

  /** What result i says, in terms of the batch and the tables. */
  lemma ResultSays(db0: Db, tenant: nat, entries: seq<Submission>, now: int, results: seq<Receipt>, i: nat)
    requires Keyed(db0) && Populated(Groups(entries)) && i < |entries|
    requires Answers(db0, IngestGroups(db0, tenant, Groups(entries), now), tenant, entries, results)
    ensures var ref, db := Ref(Ledger, results[i].rowId), IngestGroups(db0, tenant, Groups(entries), now);
      && HoldsKey(db, tenant, Ledger, entries[i].key, ref)
      && (results[i].duplicate <==> ref in db0.rows || Occurrences(entries, entries[i].key) > 1)
      && (Held(db0, tenant, entries[i].key) <==> ref in db0.rows)
  {
    hide Keyed, IngestGroups, Groups, Held;
    GroupsAreExact(entries);
    var gs := Groups(entries);
    var k := IndexOf(gs, entries[i].key);
    assert gs[k].count == Occurrences(entries, entries[i].key);
    HeldIsOld(db0, tenant, gs, now, entries[i].key, Ref(Ledger, results[i].rowId));
  }

  /** What the client is told of entry i: the txn_id first submitted in the batch under its key,
      and how often the key has been submitted by now. */
  lemma ResultCounts(db0: Db, tenant: nat, entries: seq<Submission>, now: int, results: seq<Receipt>, i: nat)
    returns (j: nat)
    requires Keyed(db0) && Populated(Groups(entries)) && i < |entries|
    requires Answers(db0, IngestGroups(db0, tenant, Groups(entries), now), tenant, entries, results)
    ensures |results| == |entries| && j <= i && FirstWith(entries, j, entries[i].key)
    ensures results[i].txn == entries[j].txn
    ensures var ref := Ref(Ledger, results[i].rowId);
      results[i].submissions == Occurrences(entries, entries[i].key)
        + if ref in db0.rows then db0.rows[ref].dupCount + 1 else 0
  {
    hide Keyed, IngestGroups, Groups, Held, LandsOn;
    GroupsAreExact(entries);
    var gs, db := Groups(entries), IngestGroups(db0, tenant, Groups(entries), now);
    var k := IndexOf(gs, entries[i].key);
    var ref := Ref(Ledger, results[i].rowId);
    assert gs[k].count == Occurrences(entries, entries[i].key);
    GroupsCount(db0, tenant, gs, now);
    assert RowCountExact(db0, db, tenant, gs, ref);
    var first: nat :| FirstWith(entries, first, gs[k].first.key) && entries[first] == gs[k].first;
    j := first;
  }

  /** A new row holds some key of the batch. */
  lemma NewRowSubmitted(db0: Db, tenant: nat, entries: seq<Submission>, now: int, r: Ref) returns (i: nat)
    requires Keyed(db0) && Populated(Groups(entries))
    requires r in NewRows(db0, IngestGroups(db0, tenant, Groups(entries), now))
    ensures i < |entries|
    ensures HoldsKey(IngestGroups(db0, tenant, Groups(entries), now), tenant, Ledger, entries[i].key, r)
  {
    hide Keyed, IngestGroups, Groups, Covers;
    GroupsAreExact(entries);
    var gs, db := Groups(entries), IngestGroups(db0, tenant, Groups(entries), now);
    GroupsCount(db0, tenant, gs, now);
    CountAt(db0, db, tenant, gs, r);
    var k := IndexOf(gs, db.rows[r].key);
    i :| FirstWith(entries, i, gs[k].first.key) && entries[i] == gs[k].first;
  }

  lemma RowsAreKeys(db0: Db, tenant: nat, entries: seq<Submission>, now: int)
    requires Keyed(db0) && Populated(Groups(entries))
    ensures var db := IngestGroups(db0, tenant, Groups(entries), now); |NewRows(db0, db)| == |NewKeys(db0, db)|
  {
    hide Keyed, IngestGroups, Groups;
    var db := IngestGroups(db0, tenant, Groups(entries), now);
    KeyedParts(db);
    var m := map r | r in NewRows(db0, db) :: db.rows[r].key;
    forall a, b | a in m && b in m && m[a] == m[b] ensures a == b {
      var i := NewRowSubmitted(db0, tenant, entries, now, a);
      var j := NewRowSubmitted(db0, tenant, entries, now, b);
      assert SameKey(db, a, b);
    }
    SameCard(NewRows(db0, db), NewKeys(db0, db), m);
  }

  lemma AcceptedAreKeys(db0: Db, tenant: nat, entries: seq<Submission>, now: int, results: seq<Receipt>)
    requires Keyed(db0) && Populated(Groups(entries))
    requires Answers(db0, IngestGroups(db0, tenant, Groups(entries), now), tenant, entries, results)
    ensures |Accepted(results)| == |AcceptedKeys(entries, results)|
  {
    hide Keyed, IngestGroups, Groups;
    var m := map i | i in Accepted(results) :: entries[i].key;
    forall i, j | i in m && j in m && m[i] == m[j] ensures i == j {
      ResultSays(db0, tenant, entries, now, results, i);
      if i < j { OccursTwice(entries, i, j); }
      if j < i { OccursTwice(entries, j, i); }
    }
    SameCard(Accepted(results), AcceptedKeys(entries, results), m);
  }

  lemma AcceptedAreNew(db0: Db, tenant: nat, entries: seq<Submission>, now: int, results: seq<Receipt>)
    requires Keyed(db0) && Populated(Groups(entries))
    requires Answers(db0, IngestGroups(db0, tenant, Groups(entries), now), tenant, entries, results)
    ensures AcceptedKeys(entries, results) <= NewKeys(db0, IngestGroups(db0, tenant, Groups(entries), now))
  {
    hide Keyed, IngestGroups, Groups;
    var db := IngestGroups(db0, tenant, Groups(entries), now);
    forall key | key in AcceptedKeys(entries, results) ensures key in NewKeys(db0, db) {
      var i :| i in Accepted(results) && entries[i].key == key;
      ResultSays(db0, tenant, entries, now, results, i);
      assert Ref(Ledger, results[i].rowId) in NewRows(db0, db);
    }
  }

  /** A new key is accepted exactly when it is submitted once. */
  lemma NewKeyAccepted(db0: Db, tenant: nat, entries: seq<Submission>, now: int, results: seq<Receipt>, i: nat)
    requires Keyed(db0) && Populated(Groups(entries)) && i < |entries| && !Held(db0, tenant, entries[i].key)
    requires Answers(db0, IngestGroups(db0, tenant, Groups(entries), now), tenant, entries, results)
    ensures entries[i].key in AcceptedKeys(entries, results) <==> Occurrences(entries, entries[i].key) == 1
  {
    assert |results| == |entries|;
    hide Keyed, IngestGroups, Groups, Held, Answers;
    ResultSays(db0, tenant, entries, now, results, i);
    OccursAt(entries, i);
    if Occurrences(entries, entries[i].key) == 1 {
      assert i in Accepted(results);
    }
    if j :| j in Accepted(results) && entries[j].key == entries[i].key {
      ResultSays(db0, tenant, entries, now, results, j);
    }
  }

  /** `accepted` never exceeds the rows newly stored, and equals them exactly when the batch
      repeats no new key. */
  lemma AcceptedExactly(db0: Db, tenant: nat, entries: seq<Submission>, now: int, results: seq<Receipt>)
    requires Keyed(db0) && Populated(Groups(entries))
    requires Answers(db0, IngestGroups(db0, tenant, Groups(entries), now), tenant, entries, results)
    ensures var db := IngestGroups(db0, tenant, Groups(entries), now);
      && |Accepted(results)| <= |NewRows(db0, db)|
      && (|Accepted(results)| == |NewRows(db0, db)| <==> RepeatsNoNewKey(db0, tenant, entries))
  {
    hide Keyed, IngestGroups, Groups, Held, Occurrences;
    var db := IngestGroups(db0, tenant, Groups(entries), now);
    RowsAreKeys(db0, tenant, entries, now);
    AcceptedAreKeys(db0, tenant, entries, now, results);
    AcceptedAreNew(db0, tenant, entries, now, results);
    SubsetCard(AcceptedKeys(entries, results), NewKeys(db0, db));
    NewKeysAre(db0, tenant, entries, now, results);
    forall i | 0 <= i < |entries| && !Held(db0, tenant, entries[i].key)
      ensures entries[i].key in AcceptedKeys(entries, results) <==> Occurrences(entries, entries[i].key) == 1
    {
      NewKeyAccepted(db0, tenant, entries, now, results, i);
    }
    var accepted, added := AcceptedKeys(entries, results), NewKeys(db0, db);
    hide AcceptedKeys, NewKeys;
    if accepted == added {
      forall i | 0 <= i < |entries| && !Held(db0, tenant, entries[i].key)
        ensures Occurrences(entries, entries[i].key) == 1
      {
        assert entries[i].key in added;
      }
    }
    if RepeatsNoNewKey(db0, tenant, entries) {
      forall key | key in added ensures key in accepted {
        var i :| 0 <= i < |entries| && entries[i].key == key && !Held(db0, tenant, key);
      }
      assert accepted == added;
    }
  }

  /** The new keys are the batch's keys that were not stored before. */
  lemma NewKeysAre(db0: Db, tenant: nat, entries: seq<Submission>, now: int, results: seq<Receipt>)
    requires Keyed(db0) && Populated(Groups(entries))
    requires Answers(db0, IngestGroups(db0, tenant, Groups(entries), now), tenant, entries, results)
    ensures var db := IngestGroups(db0, tenant, Groups(entries), now);
      forall key :: key in NewKeys(db0, db)
        <==> exists i :: 0 <= i < |entries| && entries[i].key == key && !Held(db0, tenant, key)
  {
    assert |results| == |entries|;
    hide Keyed, IngestGroups, Groups, Held, Answers, Occurrences;
    var db := IngestGroups(db0, tenant, Groups(entries), now);
    forall key | key in NewKeys(db0, db)
      ensures exists i :: 0 <= i < |entries| && entries[i].key == key && !Held(db0, tenant, key)
    {
      var r :| r in NewRows(db0, db) && db.rows[r].key == key;
      var i := NewRowSubmitted(db0, tenant, entries, now, r);
      HeldIsOld(db0, tenant, Groups(entries), now, key, r);
      assert entries[i].key == key;
    }
    forall i | 0 <= i < |entries| && !Held(db0, tenant, entries[i].key) ensures entries[i].key in NewKeys(db0, db) {
      ResultSays(db0, tenant, entries, now, results, i);
      assert Ref(Ledger, results[i].rowId) in NewRows(db0, db);
    }
  }

  /** An entry whose new key the batch repeats is answered as a duplicate of a new row. */
  lemma RepeatFlagged(db0: Db, tenant: nat, entries: seq<Submission>, now: int, results: seq<Receipt>, i: nat)
    requires Keyed(db0) && Populated(Groups(entries)) && i < |entries| && !Held(db0, tenant, entries[i].key)
    requires Answers(db0, IngestGroups(db0, tenant, Groups(entries), now), tenant, entries, results)
    requires Occurrences(entries, entries[i].key) > 1
    ensures |results| == |entries| && results[i].duplicate
    ensures Ref(Ledger, results[i].rowId) in NewRows(db0, IngestGroups(db0, tenant, Groups(entries), now))
  {
    assert |results| == |entries|;
    hide Keyed, IngestGroups, Groups, Held, Answers, Occurrences, Populated;
    ResultSays(db0, tenant, entries, now, results, i);
  }

  /** When a batch repeats one key only, every new row holds that key, so there is one. */
  lemma OneRowAdded(db0: Db, tenant: nat, entries: seq<Submission>, now: int, a: Ref, b: Ref)
    requires Keyed(db0) && Populated(Groups(entries))
    requires forall i, j :: 0 <= i < j < |entries| ==> entries[i].key == entries[j].key
    requires a in NewRows(db0, IngestGroups(db0, tenant, Groups(entries), now))
    requires b in NewRows(db0, IngestGroups(db0, tenant, Groups(entries), now))
    ensures a == b
  {
    hide Keyed, IngestGroups, Groups, Populated;
    var db := IngestGroups(db0, tenant, Groups(entries), now);
    var i := NewRowSubmitted(db0, tenant, entries, now, a);
    var j := NewRowSubmitted(db0, tenant, entries, now, b);
    KeyedParts(db);
    assert SameKey(db, a, b);
  }

  /** A batch that submits one new key more than once, and nothing else, stores one row and
      reports no entry accepted. */
  lemma RepeatedNewKeyUncounted(db0: Db, tenant: nat, entries: seq<Submission>, now: int, results: seq<Receipt>)
    requires Keyed(db0) && Populated(Groups(entries))
    requires |entries| >= 2 && !Held(db0, tenant, entries[0].key)
    requires forall i, j :: 0 <= i < j < |entries| ==> entries[i].key == entries[j].key
    requires Answers(db0, IngestGroups(db0, tenant, Groups(entries), now), tenant, entries, results)
    ensures |Accepted(results)| == 0
    ensures |NewRows(db0, IngestGroups(db0, tenant, Groups(entries), now))| == 1
  {
    hide Keyed, IngestGroups, Groups, Held, Answers, Populated, NewRows, Occurrences;
    OccursTwice(entries, 0, 1);
    RepeatFlagged(db0, tenant, entries, now, results, 0);
    forall i | 0 <= i < |entries| ensures results[i].duplicate {
      RepeatFlagged(db0, tenant, entries, now, results, i);
    }
    var added := NewRows(db0, IngestGroups(db0, tenant, Groups(entries), now));
    var r := Ref(Ledger, results[0].rowId);
    forall x | x in added ensures x == r {
      OneRowAdded(db0, tenant, entries, now, x, r);
    }
    SingletonCard(added, r);
    assert Accepted(results) == {};
  }
}
