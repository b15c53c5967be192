/** Ingestion: the gateway path, and a ledger batch stored in a fixed number of statements
    whose effect is that of one transaction per distinct key. */
module Ingestion {
  import opened Basics
  import opened Matching
  import opened Tables
  import opened Store
  import opened Batches

  /* ------------------------------ The gateway path ------------------------------ */

  /** What the caller is told about one submission. */
  datatype Receipt = Receipt(rowId: nat, txn: string, duplicate: bool, submissions: nat)

  function MessageOf(side: Side, r: Receipt): Message { Message(side, r.rowId, r.txn, r.duplicate, r.submissions) }

  /** A retry of a stored key: its row's counter moves, and nothing else. */
  method CountRetry(db: Database, tenant: nat, sub: Submission, now: int) returns (receipt: Receipt)
    requires KeysUnique(db.View()) && exists r: Ref :: HoldsKey(db.View(), tenant, Gateway, sub.key, r)
    modifies db
    ensures var ref := Ref(Gateway, receipt.rowId);
      && HoldsKey(old(db.View()), tenant, Gateway, sub.key, ref)
      && receipt == Receipt(ref.id, sub.txn, true, old(db.View()).rows[ref].dupCount + 2)
      && db.View() ==
         old(db.View()).(rows := old(db.View()).rows[ref := RowAfter(old(db.View()), ref, tenant, sub, 1, now)])
  {
    ghost var db0 := db.View();
    ghost var held: Ref :| HoldsKey(db0, tenant, Gateway, sub.key, held);
    db.AddSubmissions(Gateway, tenant, sub.key, 1);
    assert HoldsKey(db.View(), tenant, Gateway, sub.key, held);
    var rowId, count := db.SelectByKey(Gateway, tenant, sub.key);
    receipt := Receipt(rowId, sub.txn, true, count + 1);
    RecountIsIngest(db0, tenant, sub, Ref(Gateway, rowId), now);
  }

  /** Stores the row or counts the retry; nothing comes back when the account is gone and the
      insert aborts the transaction. */
  method IngestGateway(db: Database, tenant: nat, sub: Submission, now: int) returns (receipt: Option<Receipt>)
    requires Keyed(db.View())
    modifies db
    ensures receipt.None? <==>
      tenant !in old(db.View()).accounts && !exists r: Ref :: HoldsKey(old(db.View()), tenant, Gateway, sub.key, r)
    ensures receipt.None? ==> db.View() == old(db.View())
    ensures receipt.Some? ==> var ref := Ref(Gateway, receipt.value.rowId);
      && LandsOn(old(db.View()), tenant, Gateway, sub.key, ref)
      && db.View() == Ingest(old(db.View()), ref, tenant, sub, 1, now)
      && MessageOf(Gateway, receipt.value) == MessageAfter(old(db.View()), ref, tenant, sub, 1, now)
    ensures receipt.Some? ==> var ref := Ref(Gateway, receipt.value.rowId);
      && receipt.value.txn == sub.txn && (receipt.value.duplicate <==> ref in old(db.rows))
      && ref in db.rows && receipt.value.submissions == db.rows[ref].dupCount + 1
      && db.outbox == old(db.outbox)[old(db.nextEvent) := Event(
           Message(Gateway, ref.id, sub.txn, ref in old(db.rows), db.rows[ref].dupCount + 1), None, 0)]
  {
    ghost var db0 := db.View();
    var insertion := db.InsertRow(Gateway, tenant, sub, now);
    if insertion.Violating? {
      return None;
    }
    var outcome: Receipt;
    if insertion.Stored? {
      outcome := Receipt(insertion.id, sub.txn, false, 1);
      NobodyHolds(db0, tenant, Gateway, sub.key);
    } else {
      outcome := CountRetry(db, tenant, sub, now);
    }
    db.Enqueue(MessageOf(Gateway, outcome));
    receipt := Some(outcome);
  }

  lemma NobodyHolds(db: Db, tenant: nat, side: Side, key: string)
    requires IdsBelowNext(db) && !exists r: Ref :: HoldsKey(db, tenant, side, key, r)
    ensures LandsOn(db, tenant, side, key, Ref(side, NextId(db, side)))
  {
    forall r | r in db.rows && r.side == side ensures !(db.rows[r].facts.tenant == tenant && db.rows[r].key == key) {
      assert !HoldsKey(db, tenant, side, key, r);
    }
  }

  lemma RecountIsIngest(db: Db, tenant: nat, sub: Submission, ref: Ref, now: int)
    requires KeysUnique(db) && HoldsKey(db, tenant, ref.side, sub.key, ref)
    ensures Recounted(db, ref.side, tenant, sub.key, 1).rows == db.rows[ref := RowAfter(db, ref, tenant, sub, 1, now)]
  {
    forall r | r in db.rows && r != ref ensures !HoldsKey(db, tenant, ref.side, sub.key, r) {
      assert !SameKey(db, r, ref);
    }
  }

  /* ------------------------------ The ledger batch ------------------------------ */

  /** The two dictionaries of a batch, over its distinct keys in order of first appearance. */
  predicate Tallied(gs: seq<Group>, order: seq<string>, firsts: map<string, Submission>, counts: map<string, nat>) {
    && |order| == |gs|
    && (forall k :: 0 <= k < |gs| ==> order[k] == gs[k].first.key)
    && (forall k :: 0 <= k < |gs| ==> order[k] in firsts && firsts[order[k]] == gs[k].first)
    && (forall k :: 0 <= k < |gs| ==> order[k] in counts && counts[order[k]] == gs[k].count)
    && (forall key :: key in counts ==> key in order)
  }

  method Tally(entries: seq<Submission>)
    returns (order: seq<string>, firsts: map<string, Submission>, counts: map<string, nat>)
    ensures Tallied(Groups(entries), order, firsts, counts)
  {
    order, firsts, counts := [], map[], map[];
    for i := 0 to |entries|
      invariant Tallied(Groups(entries[..i]), order, firsts, counts)
    {
      var e := entries[i];
      assert entries[..i + 1][..i] == entries[..i];
      GroupsSound(entries[..i]);
      TallyStep(Groups(entries[..i]), order, firsts, counts, e);
      if e.key in counts {
        counts := counts[e.key := counts[e.key] + 1];
      } else {
        order, firsts, counts := order + [e.key], firsts[e.key := e], counts[e.key := 1];
      }
    }
    assert entries[..|entries|] == entries;
  }

  lemma IndexMeansListed(gs: seq<Group>, order: seq<string>, firsts: map<string, Submission>, counts: map<string, nat>,
                         key: string)
    requires Tallied(gs, order, firsts, counts)
    ensures key in counts <==> IndexOf(gs, key) < |gs|
    ensures key in counts <==> key in order
  {
    if key in counts {
      var k :| 0 <= k < |order| && order[k] == key;
      assert gs[k].first.key == key;
    }
    if IndexOf(gs, key) < |gs| {
      assert order[IndexOf(gs, key)] == key;
    }
  }

  lemma TallyStep(gs: seq<Group>, order: seq<string>, firsts: map<string, Submission>, counts: map<string, nat>,
                  e: Submission)
    requires Tallied(gs, order, firsts, counts) && DistinctKeys(gs)
    ensures e.key in counts ==> Tallied(Counted(gs, e), order, firsts, counts[e.key := counts[e.key] + 1])
    ensures e.key !in counts ==> Tallied(Counted(gs, e), order + [e.key], firsts[e.key := e], counts[e.key := 1])
  {
    IndexMeansListed(gs, order, firsts, counts, e.key);
    if e.key !in counts {
      var longer := order + [e.key];
      forall key | key in counts[e.key := 1] ensures key in longer {
        if key in counts { assert key in order; }
      }
    }
  }

  ghost predicate Held(db: Db, tenant: nat, key: string) { exists r: Ref :: HoldsKey(db, tenant, Ledger, key, r) }

  /** `inserted` holds the keys that were new, each with its row's id. */
  ghost predicate InsertedRight(db0: Db, db: Db, tenant: nat, gs: seq<Group>, inserted: map<string, nat>) {
    && (forall k :: 0 <= k < |gs| ==> (gs[k].first.key in inserted <==> !Held(db0, tenant, gs[k].first.key)))
    && (forall key :: key in inserted
          ==> IndexOf(gs, key) < |gs| && HoldsKey(db, tenant, Ledger, key, Ref(Ledger, inserted[key])))
  }

  /** The account is gone and some key would need a new row. */
  ghost predicate GroupOrphaned(db: Db, tenant: nat, gs: seq<Group>) {
    tenant !in db.accounts && exists k :: 0 <= k < |gs| && !Held(db, tenant, gs[k].first.key)
  }

  method InsertBatch(db: Database, tenant: nat, order: seq<string>, firsts: map<string, Submission>, now: int,
                     ghost gs: seq<Group>)
    returns (inserted: Option<map<string, nat>>)
    requires IdsBelowNext(db.View()) && DistinctKeys(gs) && |order| == |gs|
    requires forall k :: 0 <= k < |gs| ==> order[k] == gs[k].first.key
    requires forall k :: 0 <= k < |gs| ==> order[k] in firsts && firsts[order[k]] == gs[k].first
    modifies db
    ensures inserted.None? <==> GroupOrphaned(old(db.View()), tenant, gs)
    ensures inserted.None? ==> db.View() == old(db.View())
    ensures inserted.Some? ==> db.View() == StoreMissing(old(db.View()), tenant, gs, now)
    ensures inserted.Some? ==> InsertedRight(old(db.View()), db.View(), tenant, gs, inserted.value)
  {
    ghost var db0 := db.View();
    var ids: map<string, nat> := map[];
    assert gs[..0] == [];
    for i := 0 to |order|
      invariant db.View() == StoreMissing(db0, tenant, gs[..i], now)
      invariant InsertedRight(db0, db.View(), tenant, gs[..i], ids)
      invariant !GroupOrphaned(db0, tenant, gs[..i])
      invariant db.accounts == db0.accounts && (tenant !in db0.accounts ==> db.View() == db0)
    {
      ghost var before := db.View();
      NewKeyHeldBefore(db0, tenant, gs, i, now);
      var insertion := db.InsertRow(Ledger, tenant, firsts[order[i]], now);
      if insertion.Violating? {
        assert !Held(db0, tenant, gs[i].first.key);
        return None;
      }
      var id := if insertion.Stored? then Some(insertion.id) else None;
      InsertStep(db0, before, db.View(), tenant, gs, i, now, ids, id);
      if id.Some? { ids := ids[order[i] := id.value]; }
      NotOrphanedYet(db0, tenant, gs, i);
    }
    assert gs[..|gs|] == gs;
    inserted := Some(ids);
  }

  lemma NotOrphanedYet(db: Db, tenant: nat, gs: seq<Group>, i: nat)
    requires i < |gs| && !GroupOrphaned(db, tenant, gs[..i])
    requires tenant in db.accounts || Held(db, tenant, gs[i].first.key)
    ensures !GroupOrphaned(db, tenant, gs[..i + 1])
  {
    hide Held;
    var done, more := gs[..i], gs[..i + 1];
    forall k | 0 <= k < |more| && tenant !in db.accounts ensures Held(db, tenant, more[k].first.key) {
      if k < i { assert more[k] == done[k]; }
    }
  }

  lemma InsertStep(db0: Db, before: Db, after: Db, tenant: nat, gs: seq<Group>, i: nat, now: int,
                   inserted: map<string, nat>, id: Option<nat>)
    requires IdsBelowNext(db0) && DistinctKeys(gs) && i < |gs|
    requires before == StoreMissing(db0, tenant, gs[..i], now) && InsertedRight(db0, before, tenant, gs[..i], inserted)
    requires id.None? <==> Held(before, tenant, gs[i].first.key)
    requires after == StoreOne(before, tenant, gs[i].first, now)
    requires id.Some? ==> id.value == before.nextLedger
    ensures after == StoreMissing(db0, tenant, gs[..i + 1], now)
    ensures InsertedRight(db0, after, tenant, gs[..i + 1],
      if id.Some? then inserted[gs[i].first.key := id.value] else inserted)
  {
    assert gs[..i + 1][..i] == gs[..i] && gs[..i + 1] == gs[..i] + [gs[i]];
    NewKeyHeldBefore(db0, tenant, gs, i, now);
    StoreMissingRows(db0, tenant, gs[..i], now);
    InsertedGrows(db0, before, after, tenant, gs[..i], gs[i], now, inserted, id);
  }

  lemma HeldStays(before: Db, tenant: nat, e: Submission, now: int, key: string, r: Ref)
    requires forall x :: x in before.rows ==> x.id < NextId(before, x.side)
    requires HoldsKey(before, tenant, Ledger, key, r)
    ensures HoldsKey(StoreOne(before, tenant, e, now), tenant, Ledger, key, r)
  {
  }

  lemma NewHolds(before: Db, tenant: nat, e: Submission, now: int)
    requires !Held(before, tenant, e.key)
    ensures HoldsKey(StoreOne(before, tenant, e, now), tenant, Ledger, e.key, Ref(Ledger, before.nextLedger))
  {
  }

  lemma InsertedGrows(db0: Db, before: Db, after: Db, tenant: nat, front: seq<Group>, g: Group, now: int,
                      inserted: map<string, nat>, id: Option<nat>)
    requires InsertedRight(db0, before, tenant, front, inserted) && IndexOf(front, g.first.key) == |front|
    requires id.None? <==> Held(db0, tenant, g.first.key)
    requires id.None? <==> Held(before, tenant, g.first.key)
    requires forall r :: r in before.rows ==> r.id < NextId(before, r.side)
    requires after == StoreOne(before, tenant, g.first, now) && (id.Some? ==> id.value == before.nextLedger)
    ensures InsertedRight(db0, after, tenant, front + [g],
      if id.Some? then inserted[g.first.key := id.value] else inserted)
  {
    hide StoreOne, HoldsKey, Held, IndexOf;
    var more := if id.Some? then inserted[g.first.key := id.value] else inserted;
    assert g.first.key !in inserted;
    InsertedKeysGrow(db0, tenant, front, g, inserted, more);
    forall key | key in more ensures IndexOf(front + [g], key) < |front| + 1 { IndexOfAppend(front, g, key); }
    forall key | key in more ensures HoldsKey(after, tenant, Ledger, key, Ref(Ledger, more[key])) {
      if key in inserted {
        HeldStays(before, tenant, g.first, now, key, Ref(Ledger, inserted[key]));
      } else {
        NewHolds(before, tenant, g.first, now);
      }
    }
  }

  lemma InsertedKeysGrow(db0: Db, tenant: nat, front: seq<Group>, g: Group, inserted: map<string, nat>,
                         more: map<string, nat>)
    requires IndexOf(front, g.first.key) == |front| && g.first.key !in inserted
    requires forall k :: 0 <= k < |front|
               ==> (front[k].first.key in inserted <==> !Held(db0, tenant, front[k].first.key))
    requires more.Keys == (if Held(db0, tenant, g.first.key) then inserted.Keys else inserted.Keys + {g.first.key})
    ensures forall k :: 0 <= k < |front + [g]|
              ==> ((front + [g])[k].first.key in more <==> !Held(db0, tenant, (front + [g])[k].first.key))
  {
    hide Held, IndexOf;
    forall k | 0 <= k < |front + [g]|
      ensures (front + [g])[k].first.key in more <==> !Held(db0, tenant, (front + [g])[k].first.key)
    {
      if k < |front| { assert (front + [g])[k] == front[k]; }
    }
  }

  /** Whether a key of the batch is stored does not depend on the keys before it. */
  lemma NewKeyHeldBefore(db0: Db, tenant: nat, gs: seq<Group>, i: nat, now: int)
    requires IdsBelowNext(db0) && DistinctKeys(gs) && i < |gs|
    ensures Held(StoreMissing(db0, tenant, gs[..i], now), tenant, gs[i].first.key)
      <==> Held(db0, tenant, gs[i].first.key)
  {
    var s, key := StoreMissing(db0, tenant, gs[..i], now), gs[i].first.key;
    StoreMissingRows(db0, tenant, gs[..i], now);
    if r: Ref :| HoldsKey(s, tenant, Ledger, key, r) {
      assert HoldsKey(db0, tenant, Ledger, key, r);
    }
    if r: Ref :| HoldsKey(db0, tenant, Ledger, key, r) {
      assert HoldsKey(s, tenant, Ledger, key, r);
    }
  }

  function DeltaOf(increments: map<string, nat>, key: string): nat { if key in increments then increments[key] else 0 }

  function BumpFor(tenant: nat, done: seq<string>, increments: map<string, nat>, ref: Ref, row: Row): nat {
    if ref.side == Ledger && row.facts.tenant == tenant && row.key in done then DeltaOf(increments, row.key) else 0
  }

  /** The table after the counters of the keys in `done` have moved. */
  function Bumps(db: Db, tenant: nat, done: seq<string>, increments: map<string, nat>): Db {
    db.(rows := map r | r in db.rows
      :: db.rows[r].(dupCount := db.rows[r].dupCount + BumpFor(tenant, done, increments, r, db.rows[r])))
  }

  method BumpBatch(db: Database, tenant: nat, order: seq<string>, increments: map<string, nat>)
    requires forall i, j :: 0 <= i < j < |order| ==> order[i] != order[j]
    modifies db
    ensures db.View() == Bumps(old(db.View()), tenant, order, increments)
  {
    ghost var stored := db.View();
    assert Bumps(stored, tenant, [], increments).rows == stored.rows;
    for i := 0 to |order|
      invariant db.View() == Bumps(stored, tenant, order[..i], increments)
    {
      if order[i] in increments {
        db.AddSubmissions(Ledger, tenant, order[i], increments[order[i]]);
      }
      BumpStep(stored, tenant, order, i, increments);
    }
    assert order[..|order|] == order;
  }

  lemma BumpStep(db: Db, tenant: nat, order: seq<string>, i: nat, increments: map<string, nat>)
    requires i < |order| && forall i, j :: 0 <= i < j < |order| ==> order[i] != order[j]
    ensures Recounted(Bumps(db, tenant, order[..i], increments), Ledger, tenant, order[i],
      DeltaOf(increments, order[i]))
            == Bumps(db, tenant, order[..i + 1], increments)
    ensures order[i] !in increments
      ==> Bumps(db, tenant, order[..i], increments) == Bumps(db, tenant, order[..i + 1], increments)
  {
    assert order[..i + 1] == order[..i] + [order[i]];
    assert order[i] !in order[..i];
    var was, done := Bumps(db, tenant, order[..i], increments), Bumps(db, tenant, order[..i + 1], increments);
    assert Recounted(was, Ledger, tenant, order[i], DeltaOf(increments, order[i])).rows == done.rows;
    if order[i] !in increments { assert was.rows == done.rows; }
  }

  /** The increments of a batch: its tally, less the submission the insert itself stood for. */
  predicate IncrementsRight(gs: seq<Group>, inserted: map<string, nat>, increments: map<string, nat>) {
    forall k :: 0 <= k < |gs| ==>
      && DeltaOf(increments, gs[k].first.key) == gs[k].count - (if gs[k].first.key in inserted then 1 else 0)
      && (gs[k].first.key in increments <==> DeltaOf(increments, gs[k].first.key) > 0)
  }

  predicate OrderOf(gs: seq<Group>, order: seq<string>) {
    |order| == |gs| && forall k :: 0 <= k < |gs| ==> order[k] == gs[k].first.key
  }

  /** Bulk insert and bulk increment leave the table that one transaction per key leaves. */
  lemma PhasesAreGroups(db0: Db, tenant: nat, gs: seq<Group>, order: seq<string>, now: int, inserted: map<string, nat>,
                        increments: map<string, nat>)
    requires Keyed(db0) && Populated(gs) && DistinctKeys(gs) && OrderOf(gs, order)
    requires InsertedRight(db0, StoreMissing(db0, tenant, gs, now), tenant, gs, inserted)
    requires IncrementsRight(gs, inserted, increments)
    ensures Bumps(StoreMissing(db0, tenant, gs, now), tenant, order, increments).rows
      == IngestGroups(db0, tenant, gs, now).rows
    ensures SameButCounts(IngestGroups(db0, tenant, gs, now), StoreMissing(db0, tenant, gs, now))
  {
    hide *;
    var stored, final := StoreMissing(db0, tenant, gs, now), IngestGroups(db0, tenant, gs, now);
    StoredSameButCounts(db0, tenant, gs, now);
    KeyedParts(db0);
    KeyedParts(final);
    StoreMissingRows(db0, tenant, gs, now);
    GroupsCount(db0, tenant, gs, now);
    forall r | r in stored.rows
      ensures r in final.rows
      ensures stored.rows[r].(dupCount :=
        stored.rows[r].dupCount + BumpFor(tenant, order, increments, r, stored.rows[r])) == final.rows[r]
    {
      SameRowAt(final, stored, r);
      CountAt(db0, final, tenant, gs, r);
      RowBumpIsCount(db0, stored, final, tenant, gs, order, inserted, increments, r);
    }
    BumpsPointwise(stored, final, tenant, order, increments);
  }

  lemma SameRowAt(a: Db, b: Db, r: Ref)
    requires SameButCounts(a, b) && r in b.rows
    ensures r in a.rows && a.rows[r].(dupCount := 0) == b.rows[r].(dupCount := 0)
  {
  }

  lemma CountAt(db: Db, after: Db, tenant: nat, gs: seq<Group>, r: Ref)
    requires CountsExact(db, after, tenant, gs) && r in after.rows
    ensures RowCountExact(db, after, tenant, gs, r)
  {
  }

  lemma BumpsPointwise(stored: Db, final: Db, tenant: nat, order: seq<string>, increments: map<string, nat>)
    requires SameButCounts(final, stored)
    requires forall r :: r in stored.rows
               ==> r in final.rows && stored.rows[r].(dupCount :=
                 stored.rows[r].dupCount + BumpFor(tenant, order, increments, r, stored.rows[r])) == final.rows[r]
    ensures Bumps(stored, tenant, order, increments).rows == final.rows
  {
  }

  lemma KeyedParts(db: Db)
    requires Keyed(db)
    ensures KeysUnique(db) && IdsBelowNext(db)
  {
  }

  lemma RowBumpIsCount(db0: Db, stored: Db, final: Db, tenant: nat, gs: seq<Group>, order: seq<string>,
                       inserted: map<string, nat>, increments: map<string, nat>, r: Ref)
    requires KeysUnique(final) && OrderOf(gs, order) && r in stored.rows && r in final.rows
    requires StoredRows(db0, stored, tenant, gs) && SameButCounts(final, stored)
    requires RowCountExact(db0, final, tenant, gs, r)
    requires InsertedRight(db0, stored, tenant, gs, inserted) && IncrementsRight(gs, inserted, increments)
    ensures stored.rows[r].dupCount + BumpFor(tenant, order, increments, r, stored.rows[r]) == final.rows[r].dupCount
  {
    var row := stored.rows[r];
    assert final.rows[r].(dupCount := 0) == row.(dupCount := 0);
    var k := IndexOf(gs, row.key);
    if k < |gs| {
      assert order[k] == row.key;
      if r in db0.rows {
        assert r.side == Ledger && row.facts.tenant == tenant ==> HoldsKey(db0, tenant, Ledger, row.key, r);
      } else {
        NewKeyIsInserted(db0, stored, final, tenant, row.key, r);
      }
    } else {
      assert row.key !in order;
    }
  }

  lemma NewKeyIsInserted(db0: Db, stored: Db, final: Db, tenant: nat, key: string, r: Ref)
    requires KeysUnique(final) && SameButCounts(final, stored)
    requires forall x :: x in db0.rows ==> x in stored.rows && stored.rows[x] == db0.rows[x]
    requires HoldsKey(stored, tenant, Ledger, key, r) && r !in db0.rows
    ensures !Held(db0, tenant, key)
  {
    if x: Ref :| HoldsKey(db0, tenant, Ledger, key, x) {
      assert final.rows[x].(dupCount := 0) == stored.rows[x].(dupCount := 0);
      assert final.rows[r].(dupCount := 0) == stored.rows[r].(dupCount := 0);
      assert SameKey(final, x, r);
    }
  }

  /** Ids for every key of the batch, and the counters of those that moved. */
  ghost predicate ReadRight(db: Db, tenant: nat, order: seq<string>, increments: map<string, nat>,
                            ids: map<string, nat>, counted: map<string, nat>) {
    forall k :: 0 <= k < |order| ==>
      && order[k] in ids && HoldsKey(db, tenant, Ledger, order[k], Ref(Ledger, ids[order[k]]))
      && (order[k] in counted <==> order[k] in increments)
      && (order[k] in counted ==> counted[order[k]] == db.rows[Ref(Ledger, ids[order[k]])].dupCount)
  }

  method ReadBack(db: Database, tenant: nat, order: seq<string>, increments: map<string, nat>,
                  inserted: map<string, nat>)
    returns (ids: map<string, nat>, counted: map<string, nat>)
    requires KeysUnique(db.View())
    requires forall k :: 0 <= k < |order| ==> Held(db.View(), tenant, order[k])
    requires forall k :: 0 <= k < |order| && order[k] !in increments ==> order[k] in inserted
    requires forall key :: key in inserted ==> HoldsKey(db.View(), tenant, Ledger, key, Ref(Ledger, inserted[key]))
    ensures ReadRight(db.View(), tenant, order, increments, ids, counted)
    ensures forall k :: 0 <= k < |order| ==> order[k] in ids
  {
    ids, counted := inserted, map[];
    for i := 0 to |order|
      invariant forall key :: key in ids ==> HoldsKey(db.View(), tenant, Ledger, key, Ref(Ledger, ids[key]))
      invariant forall key :: key in inserted ==> key in ids
      invariant forall k :: 0 <= k < i ==> order[k] in ids && (order[k] in counted <==> order[k] in increments)
      invariant forall key :: key in counted
                  ==> key in ids && key in increments && counted[key] == db.rows[Ref(Ledger, ids[key])].dupCount
    {
      var key := order[i];
      if key in increments {
        assert Held(db.View(), tenant, order[i]);
        var id, count := db.SelectByKey(Ledger, tenant, key);
        if key in ids { assert SameKey(db.View(), Ref(Ledger, id), Ref(Ledger, ids[key])); }
        if key !in ids { ids := ids[key := id]; }
        counted := counted[key := count];
      }
    }
  }

  /** What a key's receipt must say, given the tables before and after the batch. */
  function ReceiptFor(db0: Db, db: Db, g: Group, id: nat): Receipt
    requires Ref(Ledger, id) in db.rows
  {
    Receipt(id, g.first.txn, Ref(Ledger, id) in db0.rows || g.count > 1, db.rows[Ref(Ledger, id)].dupCount + 1)
  }

  /** One receipt per group, each about the row that holds the group's key. */
  ghost predicate ReceiptsRight(db0: Db, db: Db, tenant: nat, gs: seq<Group>, receipts: seq<Receipt>) {
    |receipts| == |gs| && forall k :: 0 <= k < |gs| ==> ReceiptRight(db0, db, tenant, gs[k], receipts[k])
  }

  predicate ReceiptRight(db0: Db, db: Db, tenant: nat, g: Group, receipt: Receipt) {
    && HoldsKey(db, tenant, Ledger, g.first.key, Ref(Ledger, receipt.rowId))
    && receipt == ReceiptFor(db0, db, g, receipt.rowId)
  }

  /** The tables of the batch's transactions, with the events not yet enqueued. */
  ghost function Unannounced(db0: Db, tenant: nat, gs: seq<Group>, now: int): Db
    requires Keyed(db0) && Populated(gs)
  {
    IngestGroups(db0, tenant, gs, now).(outbox := db0.outbox, nextEvent := db0.nextEvent)
  }

  lemma PhasesUnannounced(db0: Db, tenant: nat, gs: seq<Group>, order: seq<string>, now: int,
                          inserted: map<string, nat>, increments: map<string, nat>)
    requires Keyed(db0) && Populated(gs) && DistinctKeys(gs) && OrderOf(gs, order)
    requires InsertedRight(db0, StoreMissing(db0, tenant, gs, now), tenant, gs, inserted)
    requires IncrementsRight(gs, inserted, increments)
    ensures Bumps(StoreMissing(db0, tenant, gs, now), tenant, order, increments) == Unannounced(db0, tenant, gs, now)
  {
    hide Keyed, StoreMissing, IngestGroups, InsertedRight, IncrementsRight, DistinctKeys, Populated, Bumps,
      SameButCounts, SameElsewhere;
    PhasesAreGroups(db0, tenant, gs, order, now, inserted, increments);
    BatchElsewhere(db0, tenant, gs, now);
    FieldsAgree(StoreMissing(db0, tenant, gs, now), IngestGroups(db0, tenant, gs, now), db0, tenant, order, increments);
  }

  lemma FieldsAgree(stored: Db, final: Db, db0: Db, tenant: nat, order: seq<string>, increments: map<string, nat>)
    requires Bumps(stored, tenant, order, increments).rows == final.rows && SameButCounts(final, stored)
    requires SameElsewhere(final, db0) && SameElsewhere(stored, db0)
    requires stored.outbox == db0.outbox && stored.nextEvent == db0.nextEvent
    ensures Bumps(stored, tenant, order, increments) == final.(outbox := db0.outbox, nextEvent := db0.nextEvent)
  {
  }

  method StoreBatch(db: Database, tenant: nat, order: seq<string>, firsts: map<string, Submission>,
                    counts: map<string, nat>, now: int, ghost gs: seq<Group>)
    returns (receipts: Option<seq<Receipt>>)
    requires Keyed(db.View()) && DistinctKeys(gs) && Populated(gs) && Tallied(gs, order, firsts, counts)
    modifies db
    ensures receipts.None? <==> GroupOrphaned(old(db.View()), tenant, gs)
    ensures receipts.None? ==> db.View() == old(db.View())
    ensures receipts.Some? ==> db.View() == Unannounced(old(db.View()), tenant, gs, now)
    ensures receipts.Some? ==> ReceiptsRight(old(db.View()), db.View(), tenant, gs, receipts.value)
  {
    hide *;
    ghost var db0 := db.View();
    KeyedParts(db0);
    TalliedParts(gs, order, firsts, counts);
    var insertion := InsertBatch(db, tenant, order, firsts, now, gs);
    if insertion.None? {
      return None;
    }
    var inserted := insertion.value;
    ghost var stored := db.View();
    var increments := map key | key in counts && counts[key] > (if key in inserted then 1 else 0)
      :: counts[key] - if key in inserted then 1 else 0;
    IncrementsAre(gs, order, firsts, counts, inserted, increments);
    OrderDistinct(gs, order);
    BumpBatch(db, tenant, order, increments);
    PhasesUnannounced(db0, tenant, gs, order, now, inserted, increments);
    ReadBackReady(db0, stored, tenant, gs, order, now, inserted, increments);
    var ids, counted := ReadBack(db, tenant, order, increments, inserted);
    var made := MakeReceipts(order, firsts, increments, ids, counted);
    ReceiptsAreRight(db0, tenant, gs, order, now, inserted, increments, ids, counted, firsts, counts, made);
    receipts := Some(made);
  }

  lemma TalliedParts(gs: seq<Group>, order: seq<string>, firsts: map<string, Submission>, counts: map<string, nat>)
    requires Tallied(gs, order, firsts, counts)
    ensures OrderOf(gs, order) && |order| == |gs|
    ensures forall k :: 0 <= k < |gs|
              ==> order[k] == gs[k].first.key && order[k] in firsts && firsts[order[k]] == gs[k].first
  {
  }

  function ReceiptMade(key: string, firsts: map<string, Submission>, increments: map<string, nat>,
                       ids: map<string, nat>, counted: map<string, nat>): Receipt
    requires key in ids && key in firsts
  {
    Receipt(ids[key], firsts[key].txn, key in increments, (if key in counted then counted[key] else 0) + 1)
  }

  method MakeReceipts(order: seq<string>, firsts: map<string, Submission>, increments: map<string, nat>,
                      ids: map<string, nat>, counted: map<string, nat>)
    returns (receipts: seq<Receipt>)
    requires forall k :: 0 <= k < |order| ==> order[k] in firsts
    requires forall k :: 0 <= k < |order| ==> order[k] in ids
    ensures |receipts| == |order|
    ensures forall k :: 0 <= k < |order| ==> receipts[k] == ReceiptMade(order[k], firsts, increments, ids, counted)
  {
    receipts := seq(|order|, k requires 0 <= k < |order| && order[k] in ids && order[k] in firsts =>
      ReceiptMade(order[k], firsts, increments, ids, counted));
  }

  lemma ReceiptsAreRight(db0: Db, tenant: nat, gs: seq<Group>, order: seq<string>, now: int, inserted: map<string, nat>,
                         increments: map<string, nat>, ids: map<string, nat>, counted: map<string, nat>,
                         firsts: map<string, Submission>, counts: map<string, nat>, receipts: seq<Receipt>)
    requires Keyed(db0) && Populated(gs) && DistinctKeys(gs)
    requires Tallied(gs, order, firsts, counts) && |receipts| == |order|
    requires InsertedRight(db0, StoreMissing(db0, tenant, gs, now), tenant, gs, inserted)
    requires IncrementsRight(gs, inserted, increments)
    requires ReadRight(Unannounced(db0, tenant, gs, now), tenant, order, increments, ids, counted)
    requires forall k :: 0 <= k < |order| ==> order[k] in ids
    requires forall k :: 0 <= k < |order|
               ==> order[k] in firsts && receipts[k] == ReceiptMade(order[k], firsts, increments, ids, counted)
    ensures ReceiptsRight(db0, Unannounced(db0, tenant, gs, now), tenant, gs, receipts)
  {
    hide Keyed, Populated, DistinctKeys, StoreMissing, InsertedRight, IncrementsRight, IngestGroups, Unannounced;
    forall k | 0 <= k < |gs| ensures ReceiptRight(db0, Unannounced(db0, tenant, gs, now), tenant, gs[k], receipts[k]) {
      assert order[k] == gs[k].first.key;
      ReceiptIsRight(db0, tenant, gs, k, now, inserted, increments, ids[order[k]]);
    }
  }

  lemma IncrementsAre(gs: seq<Group>, order: seq<string>, firsts: map<string, Submission>, counts: map<string, nat>,
                      inserted: map<string, nat>, increments: map<string, nat>)
    requires Tallied(gs, order, firsts, counts) && Populated(gs)
    requires increments ==
      map key | key in counts && counts[key] > (if key in inserted then 1 else 0)
        :: counts[key] - if key in inserted then 1 else 0
    ensures IncrementsRight(gs, inserted, increments) && OrderOf(gs, order)
  {
  }

  lemma OrderDistinct(gs: seq<Group>, order: seq<string>)
    requires OrderOf(gs, order) && DistinctKeys(gs)
    ensures forall i, j :: 0 <= i < j < |order| ==> order[i] != order[j]
  {
  }

  /** Every key of the batch has its row by now, and a key without increment was inserted. */
  lemma ReadBackReady(db0: Db, stored: Db, tenant: nat, gs: seq<Group>, order: seq<string>, now: int,
                      inserted: map<string, nat>, increments: map<string, nat>)
    requires Keyed(db0) && Populated(gs) && DistinctKeys(gs) && OrderOf(gs, order)
    requires stored == StoreMissing(db0, tenant, gs, now)
    requires InsertedRight(db0, stored, tenant, gs, inserted) && IncrementsRight(gs, inserted, increments)
    ensures KeysUnique(Unannounced(db0, tenant, gs, now))
    ensures forall k :: 0 <= k < |order| ==> Held(Unannounced(db0, tenant, gs, now), tenant, order[k])
    ensures forall k :: 0 <= k < |order| && order[k] !in increments ==> order[k] in inserted
    ensures forall key :: key in inserted
              ==> HoldsKey(Unannounced(db0, tenant, gs, now), tenant, Ledger, key, Ref(Ledger, inserted[key]))
  {
    var final := Unannounced(db0, tenant, gs, now);
    StoredSameButCounts(db0, tenant, gs, now);
    SameKeysUnique(IngestGroups(db0, tenant, gs, now), final);
    forall k | 0 <= k < |order| ensures Held(final, tenant, order[k]) {
      var held := GroupHeld(db0, tenant, gs, now, k);
      assert HoldsKey(final, tenant, Ledger, order[k], held);
    }
    forall key | key in inserted ensures HoldsKey(final, tenant, Ledger, key, Ref(Ledger, inserted[key])) {
      SameRowAt(IngestGroups(db0, tenant, gs, now), stored, Ref(Ledger, inserted[key]));
    }
  }

  lemma SameKeysUnique(a: Db, b: Db)
    requires KeysUnique(a) && a.rows == b.rows
    ensures KeysUnique(b)
  {
    forall x, y | x in b.rows && y in b.rows && SameKey(b, x, y) ensures x == y { assert SameKey(a, x, y); }
  }

  lemma ReceiptIsRight(db0: Db, tenant: nat, gs: seq<Group>, k: nat, now: int, inserted: map<string, nat>,
                       increments: map<string, nat>, id: nat)
    requires Keyed(db0) && Populated(gs) && DistinctKeys(gs) && k < |gs|
    requires InsertedRight(db0, StoreMissing(db0, tenant, gs, now), tenant, gs, inserted)
    requires IncrementsRight(gs, inserted, increments)
    requires HoldsKey(Unannounced(db0, tenant, gs, now), tenant, Ledger, gs[k].first.key, Ref(Ledger, id))
    ensures gs[k].first.key in increments <==> Ref(Ledger, id) in db0.rows || gs[k].count > 1
    ensures gs[k].first.key !in increments ==> Unannounced(db0, tenant, gs, now).rows[Ref(Ledger, id)].dupCount == 0
  {
    var key, ref, final := gs[k].first.key, Ref(Ledger, id), IngestGroups(db0, tenant, gs, now);
    GroupsCount(db0, tenant, gs, now);
    CountAt(db0, final, tenant, gs, ref);
    IndexOfDistinct(gs, k);
    HeldIsOld(db0, tenant, gs, now, key, ref);
  }

  /** A key of the batch was stored before exactly when its row was. */
  lemma HeldIsOld(db0: Db, tenant: nat, gs: seq<Group>, now: int, key: string, ref: Ref)
    requires Keyed(db0) && Populated(gs) && HoldsKey(IngestGroups(db0, tenant, gs, now), tenant, Ledger, key, ref)
    ensures Held(db0, tenant, key) <==> ref in db0.rows
  {
    hide Keyed, IngestGroups, StoreMissing, SameButCounts, StoredRows, Populated;
    var stored, final := StoreMissing(db0, tenant, gs, now), IngestGroups(db0, tenant, gs, now);
    KeyedParts(db0);
    KeyedParts(final);
    StoredSameButCounts(db0, tenant, gs, now);
    StoreMissingRows(db0, tenant, gs, now);
    if ref in db0.rows {
      OldRowKept(db0, stored, final, tenant, gs, ref);
      assert HoldsKey(db0, tenant, Ledger, key, ref);
    }
    if x: Ref :| HoldsKey(db0, tenant, Ledger, key, x) {
      OldRowKept(db0, stored, final, tenant, gs, x);
      assert SameKey(final, x, ref);
    }
  }

  lemma OldRowKept(db0: Db, stored: Db, final: Db, tenant: nat, gs: seq<Group>, r: Ref)
    requires SameButCounts(final, stored) && StoredRows(db0, stored, tenant, gs) && r in db0.rows
    ensures r in final.rows && final.rows[r].(dupCount := 0) == db0.rows[r].(dupCount := 0)
  {
  }

  method EnqueueAll(db: Database, receipts: seq<Receipt>, ghost db0: Db, ghost tenant: nat, ghost gs: seq<Group>,
                    ghost now: int)
    requires Keyed(db0) && DistinctKeys(gs) && Populated(gs)
    requires db.View() == Unannounced(db0, tenant, gs, now) && ReceiptsRight(db0, db.View(), tenant, gs, receipts)
    modifies db
    ensures db.View() == IngestGroups(db0, tenant, gs, now)
  {
    hide Keyed, IngestGroups, DistinctKeys, ReceiptRight;
    ghost var final := IngestGroups(db0, tenant, gs, now);
    assert gs[..0] == [];
    NoGroups(db0, tenant, now);
    for i := 0 to |receipts|
      invariant Populated(gs[..i])
      invariant db.View() == final.(outbox := IngestGroups(db0, tenant, gs[..i], now).outbox,
        nextEvent := IngestGroups(db0, tenant, gs[..i], now).nextEvent)
    {
      assert ReceiptRight(db0, Unannounced(db0, tenant, gs, now), tenant, gs[i], receipts[i]);
      assert Populated(gs[..i + 1]);
      ReceiptRightParts(db0, tenant, gs, i, now, receipts[i]);
      GroupEvent(db0, tenant, gs, now, i, Ref(Ledger, receipts[i].rowId));
      db.Enqueue(MessageOf(Ledger, receipts[i]));
    }
    assert gs[..|gs|] == gs;
  }

  lemma NoGroups(db: Db, tenant: nat, now: int)
    requires Keyed(db)
    ensures Populated([]) && IngestGroups(db, tenant, [], now) == db
  {
  }

  lemma ReceiptRightParts(db0: Db, tenant: nat, gs: seq<Group>, k: nat, now: int, receipt: Receipt)
    requires Keyed(db0) && Populated(gs) && k < |gs|
    requires ReceiptRight(db0, Unannounced(db0, tenant, gs, now), tenant, gs[k], receipt)
    ensures var ref, final := Ref(Ledger, receipt.rowId), IngestGroups(db0, tenant, gs, now);
      && HoldsKey(final, tenant, Ledger, gs[k].first.key, ref)
      && MessageOf(Ledger, receipt) == Message(Ledger, ref.id, gs[k].first.txn, ref in db0.rows || gs[k].count > 1,
        final.rows[ref].dupCount + 1)
  {
  }

  /** Result i is the receipt of entry i's key. */
  ghost predicate Answers(db0: Db, db: Db, tenant: nat, entries: seq<Submission>, results: seq<Receipt>) {
    && |results| == |entries|
    && forall i :: 0 <= i < |entries| ==>
         && IndexOf(Groups(entries), entries[i].key) < |Groups(entries)|
         && ReceiptRight(db0, db, tenant, Groups(entries)[IndexOf(Groups(entries), entries[i].key)], results[i])
  }

  /** The account is gone and some entry's key is not stored. */
  ghost predicate Orphaned(db: Db, tenant: nat, entries: seq<Submission>) {
    tenant !in db.accounts && exists i :: 0 <= i < |entries| && !Held(db, tenant, entries[i].key)
  }

  lemma OrphanedAlike(db: Db, tenant: nat, entries: seq<Submission>)
    ensures Orphaned(db, tenant, entries) <==> GroupOrphaned(db, tenant, Groups(entries))
  {
    hide Groups, Held, IndexOf, DistinctKeys, TallyExact;
    var gs := Groups(entries);
    GroupsAreExact(entries);
    forall i | 0 <= i < |entries| ensures exists k :: 0 <= k < |gs| && gs[k].first.key == entries[i].key {
      assert gs[IndexOf(gs, entries[i].key)].first.key == entries[i].key;
    }
    forall k | 0 <= k < |gs| ensures exists i :: 0 <= i < |entries| && entries[i].key == gs[k].first.key {
      var i: nat :| FirstWith(entries, i, gs[k].first.key) && entries[i] == gs[k].first;
    }
  }

  /** A whole batch in one transaction; nothing comes back when the account is gone and the
      insert aborts it. */
  method IngestLedgerBatch(db: Database, tenant: nat, entries: seq<Submission>, now: int)
    returns (results: Option<seq<Receipt>>)
    requires Keyed(db.View())
    modifies db
    ensures Populated(Groups(entries))
    ensures results.None? <==> Orphaned(old(db.View()), tenant, entries)
    ensures results.None? ==> db.View() == old(db.View())
    ensures results.Some? ==> db.View() == IngestGroups(old(db.View()), tenant, Groups(entries), now)
    ensures results.Some? ==> Answers(old(db.View()), db.View(), tenant, entries, results.value)
  {
    if entries == [] {
      return Some([]);
    }
    hide Keyed, IngestGroups, DistinctKeys, Populated, Tallied, ReceiptRight, Covers, Groups, TallyExact, FirstsKept,
      Orphaned, GroupOrphaned;
    ghost var db0, gs := db.View(), Groups(entries);
    GroupsAreExact(entries);
    OrphanedAlike(db0, tenant, entries);
    var order, firsts, counts := Tally(entries);
    TalliedParts(gs, order, firsts, counts);
    var receipts := StoreBatch(db, tenant, order, firsts, counts, now, gs);
    if receipts.None? {
      return None;
    }
    SameReceipts(db0, tenant, gs, now, receipts.value);
    EnqueueAll(db, receipts.value, db0, tenant, gs, now);
    var answers := Respond(entries, order, receipts.value, db0, db.View(), tenant, gs);
    results := Some(answers);
  }

  /** The receipts speak of rows only. */
  lemma SameReceipts(db0: Db, tenant: nat, gs: seq<Group>, now: int, receipts: seq<Receipt>)
    requires Keyed(db0) && Populated(gs) && ReceiptsRight(db0, Unannounced(db0, tenant, gs, now), tenant, gs, receipts)
    ensures ReceiptsRight(db0, IngestGroups(db0, tenant, gs, now), tenant, gs, receipts)
  {
    forall k | 0 <= k < |gs| ensures ReceiptRight(db0, IngestGroups(db0, tenant, gs, now), tenant, gs[k], receipts[k]) {
      assert ReceiptRight(db0, Unannounced(db0, tenant, gs, now), tenant, gs[k], receipts[k]);
    }
  }

  method Respond(entries: seq<Submission>, order: seq<string>, receipts: seq<Receipt>, ghost db0: Db, ghost db: Db,
                 ghost tenant: nat, ghost gs: seq<Group>)
    returns (results: seq<Receipt>)
    requires gs == Groups(entries) && DistinctKeys(gs) && Covers(entries, gs) && OrderOf(gs, order)
    requires ReceiptsRight(db0, db, tenant, gs, receipts)
    ensures Answers(db0, db, tenant, entries, results)
  {
    hide ReceiptRight, Groups, IndexOf;
    var byKey: map<string, Receipt> := map[];
    for k := 0 to |order|
      invariant forall j :: 0 <= j < k ==> order[j] in byKey && byKey[order[j]] == receipts[j]
    {
      byKey := byKey[order[k] := receipts[k]];
    }
    results := [];
    for i := 0 to |entries|
      invariant |results| == i
      invariant forall j :: 0 <= j < i ==> results[j] == receipts[IndexOf(gs, entries[j].key)]
    {
      assert order[IndexOf(gs, entries[i].key)] == entries[i].key;
      results := results + [byKey[entries[i].key]];
    }
  }
}
