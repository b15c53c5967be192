/** A ledger batch as transactions: one per distinct key, equal in the tables to one per
    entry, with exact counters. */
module Batches {
  import opened Matching
  import opened Tables
  import opened TablesProofs
  import opened Protocol

  /** The part of the table invariants that ingestion needs and keeps. */
  ghost predicate Keyed(db: Db) { IdsBelowNext(db) && KeysUnique(db) && EventsSane(db) }

  /** The row that holds (tenant, key), or the id the next insert takes. */
  ghost function Landing(db: Db, tenant: nat, side: Side, key: string): (ref: Ref)
    requires IdsBelowNext(db)
    ensures LandsOn(db, tenant, side, key, ref)
  {
    if exists r: Ref :: HoldsKey(db, tenant, side, key, r) then
      var r: Ref :| HoldsKey(db, tenant, side, key, r); r
    else
      assert forall r: Ref :: r in db.rows && r.side == side ==> (HoldsKey(db, tenant, side, key, r)
        <==> db.rows[r].facts.tenant == tenant && db.rows[r].key == key);
      Ref(side, NextId(db, side))
  }

  /** Where a key lands is determined. */
  lemma LandingUnique(db: Db, tenant: nat, side: Side, key: string, a: Ref, b: Ref)
    requires IdsBelowNext(db) && KeysUnique(db)
    requires LandsOn(db, tenant, side, key, a) && LandsOn(db, tenant, side, key, b)
    ensures a == b
  {
    if a in db.rows && b in db.rows { assert SameKey(db, a, b); }
  }

  /* --------------------------- Grouping a batch --------------------------- */

  /** The entries of a batch that share one key: the first of them, and how many. */
  datatype Group = Group(first: Submission, count: nat)

  function IndexOf(gs: seq<Group>, key: string): (i: nat)
    ensures i <= |gs|
    ensures i < |gs| ==> gs[i].first.key == key
    ensures forall j :: 0 <= j < i ==> gs[j].first.key != key
  {
    if gs == [] then 0
    else if gs[0].first.key == key then 0
    else 1 + IndexOf(gs[1..], key)
  }

  function Counted(gs: seq<Group>, e: Submission): seq<Group> {
    var i := IndexOf(gs, e.key);
    if i < |gs| then gs[i := gs[i].(count := gs[i].count + 1)] else gs + [Group(e, 1)]
  }

  /** One group per distinct key, in order of first appearance. */
  function Groups(entries: seq<Submission>): seq<Group> {
    if entries == [] then [] else Counted(Groups(entries[..|entries| - 1]), entries[|entries| - 1])
  }

  predicate DistinctKeys(gs: seq<Group>) {
    forall i, j :: 0 <= i < j < |gs| ==> gs[i].first.key != gs[j].first.key
  }

  predicate Populated(gs: seq<Group>) { forall i :: 0 <= i < |gs| ==> gs[i].count >= 1 }

  function Occurrences(entries: seq<Submission>, key: string): nat {
    if entries == [] then 0
    else Occurrences(entries[..|entries| - 1], key) + if entries[|entries| - 1].key == key then 1 else 0
  }

  predicate FirstWith(entries: seq<Submission>, i: nat, key: string) {
    i < |entries| && entries[i].key == key && forall j :: 0 <= j < i ==> entries[j].key != key
  }

  ghost predicate TallyExact(entries: seq<Submission>, gs: seq<Group>) {
    forall k :: 0 <= k < |gs| ==> gs[k].count == Occurrences(entries, gs[k].first.key)
  }

  ghost predicate FirstsKept(entries: seq<Submission>, gs: seq<Group>) {
    forall k :: 0 <= k < |gs| ==> FirstOfKey(entries, gs[k].first)
  }

  /** `e` is the first entry that carries its key. */
  ghost predicate FirstOfKey(entries: seq<Submission>, e: Submission) {
    exists i: nat :: FirstWith(entries, i, e.key) && entries[i] == e
  }

  predicate Covers(entries: seq<Submission>, gs: seq<Group>) {
    forall i :: 0 <= i < |entries| ==> IndexOf(gs, entries[i].key) < |gs|
  }

  /** A group for every key and no key twice, the first payload kept, and the tally equal to
      the number of entries. */
  ghost predicate Exact(entries: seq<Submission>, gs: seq<Group>) {
    DistinctKeys(gs) && Populated(gs) && TallyExact(entries, gs) && FirstsKept(entries, gs) && Covers(entries, gs)
  }

  lemma {:induction false} GroupsAreExact(entries: seq<Submission>)
    ensures Exact(entries, Groups(entries))
  {
    if entries != [] {
      var front, e := entries[..|entries| - 1], entries[|entries| - 1];
      var was := Groups(front);
      GroupsAreExact(front);
      assert entries == front + [e];
      assert Groups(entries) == Counted(was, e);
      CountedKeys(was, e);
      CountedCovers(front, was, e);
      CountedTally(front, was, e);
      CountedFirsts(front, was, e);
    }
  }

  lemma CountedCovers(front: seq<Submission>, was: seq<Group>, e: Submission)
    requires Covers(front, was)
    ensures Covers(front + [e], Counted(was, e))
  {
    var entries, gs := front + [e], Counted(was, e);
    forall i | 0 <= i < |entries| ensures IndexOf(gs, entries[i].key) < |gs| {
      var j := IndexOf(was, entries[i].key);
      assert i < |front| ==> entries[i] == front[i];
      assert gs[j].first.key == entries[i].key;
    }
  }

  lemma CountedTally(front: seq<Submission>, was: seq<Group>, e: Submission)
    requires DistinctKeys(was) && TallyExact(front, was) && Covers(front, was)
    ensures TallyExact(front + [e], Counted(was, e))
  {
    var entries, gs := front + [e], Counted(was, e);
    assert entries[..|entries| - 1] == front;
    if IndexOf(was, e.key) == |was| { NeverSeen(front, was, e.key); }
    forall k | 0 <= k < |gs| ensures gs[k].count == Occurrences(entries, gs[k].first.key) {
      if k < |was| { assert gs[k].first == was[k].first; }
    }
  }

  lemma CountedFirsts(front: seq<Submission>, was: seq<Group>, e: Submission)
    requires FirstsKept(front, was) && Covers(front, was)
    ensures FirstsKept(front + [e], Counted(was, e))
  {
    var entries, gs := front + [e], Counted(was, e);
    forall k | 0 <= k < |gs| ensures FirstOfKey(entries, gs[k].first) {
      if k < |was| {
        assert gs[k].first == was[k].first;
        var i: nat :| FirstWith(front, i, was[k].first.key) && front[i] == was[k].first;
        assert FirstWith(entries, i, gs[k].first.key);
      } else {
        NeverSeen(front, was, e.key);
        assert gs[k].first == e && FirstWith(entries, |front|, e.key);
      }
    }
  }

  lemma CountedKeys(was: seq<Group>, e: Submission)
    requires DistinctKeys(was) && Populated(was)
    ensures DistinctKeys(Counted(was, e)) && Populated(Counted(was, e))
  {
  }

  lemma {:induction false} NeverSeen(entries: seq<Submission>, gs: seq<Group>, key: string)
    requires IndexOf(gs, key) == |gs|
    requires Covers(entries, gs)
    ensures Occurrences(entries, key) == 0 && forall i :: 0 <= i < |entries| ==> entries[i].key != key
  {
    if entries != [] {
      var front := entries[..|entries| - 1];
      assert forall i :: 0 <= i < |front| ==> front[i] == entries[i];
      NeverSeen(front, gs, key);
    }
  }

  /* ------------------------ The batch as transactions ------------------------ */

  ghost function IngestOne(db: Db, tenant: nat, g: Group, now: int): Db
    requires Keyed(db) && g.count >= 1
  {
    Ingest(db, Landing(db, tenant, Ledger, g.first.key), tenant, g.first, g.count, now)
  }

  lemma IngestOneKeepsKeyed(db: Db, tenant: nat, g: Group, now: int)
    requires Keyed(db) && g.count >= 1
    ensures Keyed(IngestOne(db, tenant, g, now))
  {
    IngestKeepsKeys(db, Landing(db, tenant, Ledger, g.first.key), tenant, g.first, g.count, now);
  }

  /** One transaction per group, in order. */
  ghost function IngestGroups(db: Db, tenant: nat, gs: seq<Group>, now: int): (r: Db)
    requires Keyed(db) && Populated(gs)
    ensures Keyed(r)
  {
    if gs == [] then db
    else
      var before := IngestGroups(db, tenant, gs[..|gs| - 1], now);
      IngestOneKeepsKeyed(before, tenant, gs[|gs| - 1], now);
      IngestOne(before, tenant, gs[|gs| - 1], now)
  }

  /** Each of those transactions is a step of the system. */
  lemma GroupIsStep(st: Settings, s: Sys, tenant: nat, g: Group)
    requires Keyed(s.db) && tenant in s.db.accounts && g.count >= 1
    ensures var step := IngestKey(Landing(s.db, tenant, Ledger, g.first.key), tenant, g.first, g.count);
            Enabled(st, s, step) && Exec(st, s, step) == s.(db := IngestOne(s.db, tenant, g, s.now))
  {
  }

  /* ------------------ The batch against one entry at a time ------------------ */

  function Singles(entries: seq<Submission>): seq<Group> {
    seq(|entries|, i requires 0 <= i < |entries| => Group(entries[i], 1))
  }

  /** The raw tables and their sequences agree; the outboxes may differ. */
  predicate SameTables(a: Db, b: Db) {
    a.rows == b.rows && a.nextGateway == b.nextGateway && a.nextLedger == b.nextLedger
  }

  lemma SameLanding(a: Db, b: Db, tenant: nat, key: string, ref: Ref)
    requires SameTables(a, b) && LandsOn(a, tenant, Ledger, key, ref)
    ensures LandsOn(b, tenant, Ledger, key, ref)
  {
  }

  lemma IngestTables(db: Db, ref: Ref, tenant: nat, g: Group, now: int)
    requires g.count >= 1
    ensures var after := Ingest(db, ref, tenant, g.first, g.count, now);
      && after.rows == db.rows[ref := RowAfter(db, ref, tenant, g.first, g.count, now)]
      && after.nextGateway == db.nextGateway + (if ref in db.rows || ref.side.Ledger? then 0 else 1)
      && after.nextLedger == db.nextLedger + (if ref in db.rows || ref.side.Gateway? then 0 else 1)
  {
    hide MessageAfter, RowAfter;
  }

  /** The transaction reads the raw tables and writes them, whatever the outbox holds. */
  lemma IngestAlike(a: Db, b: Db, ref: Ref, tenant: nat, g: Group, now: int)
    requires SameTables(a, b) && g.count >= 1
    ensures SameTables(Ingest(a, ref, tenant, g.first, g.count, now), Ingest(b, ref, tenant, g.first, g.count, now))
  {
    hide Ingest, RowAfter;
    IngestTables(a, ref, tenant, g, now);
    IngestTables(b, ref, tenant, g, now);
    RowAlike(a, b, ref, tenant, g, now);
    UpdateAlike(a.rows, b.rows, ref, RowAfter(a, ref, tenant, g.first, g.count, now));
  }

  lemma UpdateAlike(m: map<Ref, Row>, n: map<Ref, Row>, ref: Ref, row: Row)
    requires m == n
    ensures m[ref := row] == n[ref := row]
  {
  }

  lemma RowAlike(a: Db, b: Db, ref: Ref, tenant: nat, g: Group, now: int)
    requires a.rows == b.rows && g.count >= 1
    ensures RowAfter(a, ref, tenant, g.first, g.count, now) == RowAfter(b, ref, tenant, g.first, g.count, now)
  {
    hide NewFacts;
  }

  lemma SameTablesOne(a: Db, b: Db, tenant: nat, g: Group, now: int)
    requires Keyed(a) && Keyed(b) && SameTables(a, b) && g.count >= 1
    ensures SameTables(IngestOne(a, tenant, g, now), IngestOne(b, tenant, g, now))
  {
    var ref := LandingOf(a, tenant, g.first.key);
    SameLanding(a, b, tenant, g.first.key, ref);
    hide Keyed, IngestOne, LandsOn, HoldsKey, Ingest, SameTables;
    OneLands(a, tenant, g, now, ref);
    OneLands(b, tenant, g, now, ref);
    IngestAlike(a, b, ref, tenant, g, now);
  }

  /** What one group's transaction does to the table, seen from the row it lands on. */
  lemma OneLands(db: Db, tenant: nat, g: Group, now: int, ref: Ref)
    requires Keyed(db) && g.count >= 1 && LandsOn(db, tenant, Ledger, g.first.key, ref)
    ensures IngestOne(db, tenant, g, now) == Ingest(db, ref, tenant, g.first, g.count, now)
    ensures HoldsKey(IngestOne(db, tenant, g, now), tenant, Ledger, g.first.key, ref)
    ensures LandsOn(IngestOne(db, tenant, g, now), tenant, Ledger, g.first.key, ref)
    ensures Keyed(IngestOne(db, tenant, g, now))
  {
    IngestOneKeepsKeyed(db, tenant, g, now);
    LandingUnique(db, tenant, Ledger, g.first.key, ref, Landing(db, tenant, Ledger, g.first.key));
  }

  /** Counting a stored key moves no other key. */
  lemma OthersLandAsBefore(db: Db, tenant: nat, e: Submission, held: Ref, key: string, ref: Ref, now: int)
    requires Keyed(db) && HoldsKey(db, tenant, Ledger, e.key, held)
    requires key != e.key && LandsOn(db, tenant, Ledger, key, ref)
    ensures LandsOn(IngestOne(db, tenant, Group(e, 1), now), tenant, Ledger, key, ref) && ref != held
  {
    OneLands(db, tenant, Group(e, 1), now, held);
  }

  /** Counting one more submission of a key at the end is counting it in the key's group. */
  lemma CountLater(db: Db, tenant: nat, g: Group, e: Submission, now: int)
    requires Keyed(db) && g.count >= 1 && e.key == g.first.key && Keyed(IngestOne(db, tenant, g, now))
    ensures SameTables(IngestOne(db, tenant, g.(count := g.count + 1), now),
      IngestOne(IngestOne(db, tenant, g, now), tenant, Group(e, 1), now))
  {
    hide Keyed, IngestOne, LandsOn, HoldsKey;
    var ref := LandingOf(db, tenant, g.first.key);
    OneLands(db, tenant, g, now, ref);
    OneLands(db, tenant, g.(count := g.count + 1), now, ref);
    OneLands(IngestOne(db, tenant, g, now), tenant, Group(e, 1), now, ref);
  }

  lemma LandingOf(db: Db, tenant: nat, key: string) returns (ref: Ref)
    requires Keyed(db)
    ensures LandsOn(db, tenant, Ledger, key, ref) && ref.side == Ledger
  {
    ref := Landing(db, tenant, Ledger, key);
  }

  /** Counting a stored key commutes with ingesting another key. */
  lemma CountCommutes(db: Db, tenant: nat, e: Submission, held: Ref, g: Group, now: int)
    requires Keyed(db) && g.count >= 1 && HoldsKey(db, tenant, Ledger, e.key, held) && g.first.key != e.key
    requires Keyed(IngestOne(db, tenant, g, now)) && Keyed(IngestOne(db, tenant, Group(e, 1), now))
    ensures SameTables(IngestOne(IngestOne(db, tenant, Group(e, 1), now), tenant, g, now),
      IngestOne(IngestOne(db, tenant, g, now), tenant, Group(e, 1), now))
  {
    hide Keyed, IngestOne, LandsOn, HoldsKey;
    var ref := LandingOf(db, tenant, g.first.key);
    OneLands(db, tenant, g, now, ref);
    HeldLands(db, tenant, e.key, held);
    OneLands(db, tenant, Group(e, 1), now, held);
    OneKeepsHeld(db, tenant, g, now, e.key, held);
    HeldLands(IngestOne(db, tenant, g, now), tenant, e.key, held);
    OneLands(IngestOne(db, tenant, g, now), tenant, Group(e, 1), now, held);
    OthersLandAsBefore(db, tenant, e, held, g.first.key, ref, now);
    OneLands(IngestOne(db, tenant, Group(e, 1), now), tenant, g, now, ref);
  }

  lemma HeldLands(db: Db, tenant: nat, key: string, held: Ref)
    requires HoldsKey(db, tenant, Ledger, key, held)
    ensures LandsOn(db, tenant, Ledger, key, held) && held in db.rows && held.side == Ledger
  {
  }

  lemma OneKeepsHeld(db: Db, tenant: nat, g: Group, now: int, key: string, held: Ref)
    requires Keyed(db) && g.count >= 1 && HoldsKey(db, tenant, Ledger, key, held)
    ensures HoldsKey(IngestOne(db, tenant, g, now), tenant, Ledger, key, held)
  {
  }

  lemma {:induction false} GroupHeld(db: Db, tenant: nat, gs: seq<Group>, now: int, i: nat) returns (held: Ref)
    requires Keyed(db) && Populated(gs) && i < |gs|
    ensures HoldsKey(IngestGroups(db, tenant, gs, now), tenant, Ledger, gs[i].first.key, held)
  {
    var front, last := gs[..|gs| - 1], gs[|gs| - 1];
    var before := IngestGroups(db, tenant, front, now);
    if i == |gs| - 1 {
      held := Landing(before, tenant, Ledger, last.first.key);
      OneLands(before, tenant, last, now, held);
    } else {
      held := GroupHeld(db, tenant, front, now, i);
      OneKeepsHeld(before, tenant, last, now, gs[i].first.key, held);
    }
  }

  lemma IngestGroupsLast(db: Db, tenant: nat, gs: seq<Group>, g: Group, now: int)
    requires Keyed(db) && Populated(gs) && g.count >= 1
    ensures Populated(gs + [g])
    ensures IngestGroups(db, tenant, gs + [g], now) == IngestOne(IngestGroups(db, tenant, gs, now), tenant, g, now)
    ensures Keyed(IngestOne(IngestGroups(db, tenant, gs, now), tenant, g, now))
  {
    assert (gs + [g])[..|gs|] == gs;
    IngestOneKeepsKeyed(IngestGroups(db, tenant, gs, now), tenant, g, now);
  }

  function Raised(gs: seq<Group>, i: nat): seq<Group>
    requires i < |gs|
  {
    gs[i := gs[i].(count := gs[i].count + 1)]
  }

  lemma {:induction false} CountUp(db: Db, tenant: nat, gs: seq<Group>, i: nat, e: Submission, now: int)
    requires Keyed(db) && Populated(gs) && DistinctKeys(gs) && i < |gs| && e.key == gs[i].first.key
    ensures Populated(Raised(gs, i)) && Keyed(IngestGroups(db, tenant, gs, now))
    ensures SameTables(IngestGroups(db, tenant, Raised(gs, i), now),
      IngestOne(IngestGroups(db, tenant, gs, now), tenant, Group(e, 1), now))
  {
    hide Keyed, IngestOne, SameTables, IngestGroups;
    var front, last := gs[..|gs| - 1], gs[|gs| - 1];
    assert gs == front + [last];
    var before := IngestGroups(db, tenant, front, now);
    IngestGroupsLast(db, tenant, front, last, now);
    if i == |gs| - 1 {
      var more := last.(count := last.count + 1);
      assert Raised(gs, i) == front + [more];
      IngestGroupsLast(db, tenant, front, more, now);
      CountLater(before, tenant, last, e, now);
    } else {
      assert Raised(gs, i) == Raised(front, i) + [last];
      CountUp(db, tenant, front, i, e, now);
      IngestGroupsLast(db, tenant, Raised(front, i), last, now);
      var held := GroupHeld(db, tenant, front, now, i);
      IngestOneKeepsKeyed(before, tenant, Group(e, 1), now);
      SameTablesOne(IngestGroups(db, tenant, Raised(front, i), now), IngestOne(before, tenant, Group(e, 1), now),
        tenant, last, now);
      CountCommutes(before, tenant, e, held, last, now);
      SameTablesTrans(IngestGroups(db, tenant, Raised(gs, i), now),
        IngestOne(IngestOne(before, tenant, Group(e, 1), now), tenant, last, now),
        IngestOne(IngestGroups(db, tenant, gs, now), tenant, Group(e, 1), now));
    }
  }

  lemma GroupsSound(entries: seq<Submission>)
    ensures DistinctKeys(Groups(entries)) && Populated(Groups(entries))
    ensures entries != [] ==> Groups(entries) == Counted(Groups(entries[..|entries| - 1]), entries[|entries| - 1])
  {
    GroupsAreExact(entries);
  }

  lemma SinglesLast(front: seq<Submission>, e: Submission)
    ensures Singles(front + [e]) == Singles(front) + [Group(e, 1)]
  {
  }

  lemma SameTablesTrans(a: Db, b: Db, c: Db)
    requires SameTables(a, b) && SameTables(b, c)
    ensures SameTables(a, c)
  {
  }

  /** The ledger table after a batch is the table after its entries one by one. */
  lemma {:induction false} BatchIsOneByOne(db: Db, tenant: nat, entries: seq<Submission>, now: int)
    requires Keyed(db)
    ensures Populated(Groups(entries)) && Populated(Singles(entries))
    ensures SameTables(IngestGroups(db, tenant, Groups(entries), now), IngestGroups(db, tenant, Singles(entries), now))
  {
    hide Keyed, IngestOne, IngestGroups, DistinctKeys, Counted;
    GroupsSound(entries);
    if entries == [] {
      assert Groups(entries) == Singles(entries);
    } else {
      hide SameTables;
      var front, e := entries[..|entries| - 1], entries[|entries| - 1];
      GroupsSound(front);
      BatchIsOneByOne(db, tenant, front, now);
      SinglesLast(front, e);
      assert entries == front + [e];
      IngestGroupsLast(db, tenant, Singles(front), Group(e, 1), now);
      BatchStep(db, tenant, Groups(front), Singles(front), e, now);
    }
  }

  lemma BatchStep(db: Db, tenant: nat, gs: seq<Group>, singles: seq<Group>, e: Submission, now: int)
    requires Keyed(db) && Populated(gs) && DistinctKeys(gs) && Populated(singles) && Populated(Counted(gs, e))
    requires SameTables(IngestGroups(db, tenant, gs, now), IngestGroups(db, tenant, singles, now))
    ensures SameTables(IngestGroups(db, tenant, Counted(gs, e), now),
      IngestOne(IngestGroups(db, tenant, singles, now), tenant, Group(e, 1), now))
  {
    hide Keyed, IngestOne, SameTables, IngestGroups;
    var i := IndexOf(gs, e.key);
    IngestGroupsLast(db, tenant, gs, Group(e, 1), now);
    IngestGroupsLast(db, tenant, singles, Group(e, 1), now);
    SameTablesOne(IngestGroups(db, tenant, gs, now), IngestGroups(db, tenant, singles, now), tenant, Group(e, 1), now);
    if i < |gs| {
      CountUp(db, tenant, gs, i, e, now);
      assert Counted(gs, e) == Raised(gs, i);
      SameTablesTrans(IngestGroups(db, tenant, Counted(gs, e), now),
        IngestOne(IngestGroups(db, tenant, gs, now), tenant, Group(e, 1), now),
        IngestOne(IngestGroups(db, tenant, singles, now), tenant, Group(e, 1), now));
    } else {
      assert Counted(gs, e) == gs + [Group(e, 1)];
    }
  }

  /** One event per distinct key, appended in order; what was there is untouched. */
  lemma {:induction false} OneEventPerKey(db: Db, tenant: nat, gs: seq<Group>, now: int)
    requires Keyed(db) && Populated(gs)
    ensures var after := IngestGroups(db, tenant, gs, now);
      && after.nextEvent == db.nextEvent + |gs|
      && (forall e :: e in after.outbox <==> e in db.outbox || db.nextEvent <= e < db.nextEvent + |gs|)
      && (forall e :: e in db.outbox ==> after.outbox[e] == db.outbox[e])
  {
    hide Keyed, IngestOne;
    if gs != [] {
      var front, last := gs[..|gs| - 1], gs[|gs| - 1];
      assert gs == front + [last];
      OneEventPerKey(db, tenant, front, now);
      OneEvent(IngestGroups(db, tenant, front, now), tenant, last, now);
    }
  }

  lemma OneEvent(db: Db, tenant: nat, g: Group, now: int)
    requires Keyed(db) && g.count >= 1
    ensures var after := IngestOne(db, tenant, g, now);
      && after.nextEvent == db.nextEvent + 1
      && after.outbox.Keys == db.outbox.Keys + {db.nextEvent}
      && (forall e :: e in db.outbox ==> after.outbox[e] == db.outbox[e])
  {
  }

  /* -------------------- What the batch adds up to, per row -------------------- */

  /** The bulk insert: a new row for every key not stored yet, its counter at zero. */
  ghost function StoreMissing(db: Db, tenant: nat, gs: seq<Group>, now: int): Db {
    if gs == [] then db else StoreOne(StoreMissing(db, tenant, gs[..|gs| - 1], now), tenant, gs[|gs| - 1].first, now)
  }

  ghost function StoreOne(db: Db, tenant: nat, e: Submission, now: int): Db {
    if exists r: Ref :: HoldsKey(db, tenant, Ledger, e.key, r) then db else Inserted(db, Ledger, tenant, e, now)
  }

  /** Same rows under the same ids; only the counters may differ. */
  ghost predicate SameButCounts(a: Db, b: Db) {
    && a.rows.Keys == b.rows.Keys
    && a.nextGateway == b.nextGateway && a.nextLedger == b.nextLedger
    && forall r :: r in a.rows ==> a.rows[r].(dupCount := 0) == b.rows[r].(dupCount := 0)
  }

  lemma OneSameButCounts(a: Db, b: Db, tenant: nat, g: Group, now: int)
    requires Keyed(a) && g.count >= 1 && SameButCounts(a, b)
    ensures SameButCounts(IngestOne(a, tenant, g, now), StoreOne(b, tenant, g.first, now))
  {
    SameHolders(a, b, tenant, g.first.key);
    var ref := LandingOf(a, tenant, g.first.key);
    OneLands(a, tenant, g, now, ref);
    if ref in a.rows { assert HoldsKey(a, tenant, Ledger, g.first.key, ref); }
    hide Keyed, IngestOne;
    if ref in a.rows {
      RecountSameButCounts(a, b, tenant, g, now, ref);
    } else {
      StoreSameButCounts(a, b, tenant, g, now, ref);
    }
  }

  lemma RecountSameButCounts(a: Db, b: Db, tenant: nat, g: Group, now: int, ref: Ref)
    requires SameButCounts(a, b) && g.count >= 1 && ref in a.rows && HoldsKey(b, tenant, Ledger, g.first.key, ref)
    ensures SameButCounts(Ingest(a, ref, tenant, g.first, g.count, now), StoreOne(b, tenant, g.first, now))
  {
    hide MessageAfter;
  }

  lemma StoreSameButCounts(a: Db, b: Db, tenant: nat, g: Group, now: int, ref: Ref)
    requires SameButCounts(a, b) && g.count >= 1 && ref !in a.rows && ref == Ref(Ledger, a.nextLedger)
    requires forall r: Ref :: !HoldsKey(b, tenant, Ledger, g.first.key, r)
    ensures SameButCounts(Ingest(a, ref, tenant, g.first, g.count, now), StoreOne(b, tenant, g.first, now))
  {
    hide MessageAfter, HoldsKey;
  }

  lemma SameHolders(a: Db, b: Db, tenant: nat, key: string)
    requires SameButCounts(a, b)
    ensures forall r: Ref :: HoldsKey(a, tenant, Ledger, key, r) <==> HoldsKey(b, tenant, Ledger, key, r)
  {
    forall r: Ref ensures HoldsKey(a, tenant, Ledger, key, r) <==> HoldsKey(b, tenant, Ledger, key, r) {
      if r in a.rows { assert a.rows[r].(dupCount := 0) == b.rows[r].(dupCount := 0); }
    }
  }

  lemma {:induction false} StoredSameButCounts(db: Db, tenant: nat, gs: seq<Group>, now: int)
    requires Keyed(db) && Populated(gs)
    ensures SameButCounts(IngestGroups(db, tenant, gs, now), StoreMissing(db, tenant, gs, now))
  {
    if gs != [] {
      hide SameButCounts, Keyed, IngestOne;
      var front, last := gs[..|gs| - 1], gs[|gs| - 1];
      assert gs == front + [last];
      StoredSameButCounts(db, tenant, front, now);
      IngestGroupsLast(db, tenant, front, last, now);
      OneSameButCounts(IngestGroups(db, tenant, front, now), StoreMissing(db, tenant, front, now), tenant, last, now);
    } else {
      assert SameButCounts(db, db);
    }
  }

  lemma IndexOfAppend(front: seq<Group>, g: Group, key: string)
    ensures key != g.first.key && IndexOf(front, key) == |front| ==> IndexOf(front + [g], key) == |front| + 1
    ensures IndexOf(front, key) < |front| ==> IndexOf(front + [g], key) == IndexOf(front, key)
    ensures key == g.first.key && IndexOf(front, key) == |front| ==> IndexOf(front + [g], key) == |front|
  {
    var i, j := IndexOf(front, key), IndexOf(front + [g], key);
    assert forall k :: 0 <= k < |front| ==> (front + [g])[k] == front[k];
    assert (front + [g])[|front|] == g;
    if j < |front| { assert front[j].first.key == key; }
  }

  lemma IndexOfDistinct(gs: seq<Group>, i: nat)
    requires DistinctKeys(gs) && i < |gs|
    ensures IndexOf(gs, gs[i].first.key) == i
  {
  }

  /** After the bulk insert: the old rows as they were, and zero-count rows for new keys. */
  ghost predicate StoredRows(db: Db, s: Db, tenant: nat, gs: seq<Group>) {
    && (forall r :: r in db.rows ==> r in s.rows && s.rows[r] == db.rows[r])
    && (forall r :: r in s.rows && r !in db.rows ==>
          r.side == Ledger && s.rows[r].facts.tenant == tenant && s.rows[r].dupCount == 0
            && IndexOf(gs, s.rows[r].key) < |gs|)
    && (forall r :: r in s.rows ==> r.id < NextId(s, r.side))
  }

  lemma {:induction false} StoreMissingRows(db: Db, tenant: nat, gs: seq<Group>, now: int)
    requires IdsBelowNext(db)
    ensures StoredRows(db, StoreMissing(db, tenant, gs, now), tenant, gs)
  {
    if gs != [] {
      var front, last := gs[..|gs| - 1], gs[|gs| - 1];
      assert gs == front + [last];
      StoreMissingRows(db, tenant, front, now);
      StoreOneRows(db, StoreMissing(db, tenant, front, now), tenant, front, last, now);
    }
  }

  lemma StoreOneRows(db: Db, s: Db, tenant: nat, front: seq<Group>, g: Group, now: int)
    requires StoredRows(db, s, tenant, front)
    ensures StoredRows(db, StoreOne(s, tenant, g.first, now), tenant, front + [g])
  {
    var s' := StoreOne(s, tenant, g.first, now);
    forall r | r in s'.rows && r !in db.rows ensures IndexOf(front + [g], s'.rows[r].key) < |front| + 1 {
      IndexOfAppend(front, g, s'.rows[r].key);
    }
  }

  /** The submissions a batch holds for the key of a row. */
  function CountFor(tenant: nat, gs: seq<Group>, ref: Ref, row: Row): nat {
    if ref.side == Ledger && row.facts.tenant == tenant && IndexOf(gs, row.key) < |gs|
    then gs[IndexOf(gs, row.key)].count
    else 0
  }

  /** A stored row's counter moves by the submissions of its key, a new row's by one less. */
  ghost predicate CountsExact(db: Db, after: Db, tenant: nat, gs: seq<Group>) {
    db.rows.Keys <= after.rows.Keys && forall r :: r in after.rows ==> RowCountExact(db, after, tenant, gs, r)
  }

  predicate RowCountExact(db: Db, after: Db, tenant: nat, gs: seq<Group>, r: Ref)
    requires r in after.rows
  {
    var n := CountFor(tenant, gs, r, after.rows[r]);
    if r in db.rows then after.rows[r].dupCount == db.rows[r].dupCount + n else after.rows[r].dupCount + 1 == n
  }

  lemma {:induction false} GroupsCount(db: Db, tenant: nat, gs: seq<Group>, now: int)
    requires Keyed(db) && Populated(gs) && DistinctKeys(gs)
    ensures CountsExact(db, IngestGroups(db, tenant, gs, now), tenant, gs)
  {
    if gs != [] {
      var front, last := gs[..|gs| - 1], gs[|gs| - 1];
      assert gs == front + [last];
      GroupsCount(db, tenant, front, now);
      IngestGroupsLast(db, tenant, front, last, now);
      assert IndexOf(front, last.first.key) == |front| by {
        IndexOfDistinct(gs, |front|);
        IndexOfAppend(front, last, last.first.key);
      }
      OneCounts(db, IngestGroups(db, tenant, front, now), tenant, front, last, now);
    }
  }

  /** The one row a group's transaction touches is the row of its key. */
  lemma OneTouches(db: Db, tenant: nat, g: Group, now: int, ref: Ref, r: Ref)
    requires Keyed(db) && g.count >= 1 && LandsOn(db, tenant, Ledger, g.first.key, ref)
    requires r in IngestOne(db, tenant, g, now).rows
    ensures var after := IngestOne(db, tenant, g, now);
      && (r == ref <==> HoldsKey(after, tenant, Ledger, g.first.key, r))
      && (r != ref ==> r in db.rows && after.rows[r] == db.rows[r])
      && after.rows.Keys == db.rows.Keys + {ref}
      && after.rows[ref].dupCount == (if ref in db.rows then db.rows[ref].dupCount + g.count else g.count - 1)
  {
    OneLands(db, tenant, g, now, ref);
    if r in db.rows && r != ref && HoldsKey(db, tenant, Ledger, g.first.key, r) {
      LandingUnique(db, tenant, Ledger, g.first.key, r, ref);
    }
  }

  lemma OneCountsRow(db: Db, before: Db, tenant: nat, front: seq<Group>, g: Group, now: int, ref: Ref, r: Ref)
    requires Keyed(before) && g.count >= 1 && LandsOn(before, tenant, Ledger, g.first.key, ref)
    requires IndexOf(front, g.first.key) == |front| && r in IngestOne(before, tenant, g, now).rows
    requires r in before.rows ==> RowCountExact(db, before, tenant, front, r)
    requires r !in before.rows ==> r !in db.rows
    ensures RowCountExact(db, IngestOne(before, tenant, g, now), tenant, front + [g], r)
  {
    hide Keyed, IngestOne, LandsOn;
    var after := IngestOne(before, tenant, g, now);
    OneTouches(before, tenant, g, now, ref, r);
    OneLands(before, tenant, g, now, ref);
    IndexOfAppend(front, g, after.rows[r].key);
    assert (front + [g])[|front|] == g;
  }

  lemma OneCounts(db: Db, before: Db, tenant: nat, front: seq<Group>, g: Group, now: int)
    requires Keyed(before) && g.count >= 1 && CountsExact(db, before, tenant, front)
    requires IndexOf(front, g.first.key) == |front|
    ensures CountsExact(db, IngestOne(before, tenant, g, now), tenant, front + [g])
  {
    hide Keyed, IngestOne, LandsOn, RowCountExact;
    var ref := LandingOf(before, tenant, g.first.key);
    OneLands(before, tenant, g, now, ref);
    OneTouches(before, tenant, g, now, ref, ref);
    forall r | r in IngestOne(before, tenant, g, now).rows
      ensures RowCountExact(db, IngestOne(before, tenant, g, now), tenant, front + [g], r)
    {
      OneCountsRow(db, before, tenant, front, g, now, ref, r);
    }
  }

  /* ----------------- Each key's transaction, seen from the end ----------------- */

  /** The row a key lands on when its turn comes is the row that holds it at the end. */
  lemma {:induction false} StaysHeld(db: Db, tenant: nat, gs: seq<Group>, now: int, k: nat, ref: Ref)
    requires Keyed(db) && Populated(gs) && k < |gs| && Populated(gs[..k])
    requires LandsOn(IngestGroups(db, tenant, gs[..k], now), tenant, Ledger, gs[k].first.key, ref)
    ensures HoldsKey(IngestGroups(db, tenant, gs, now), tenant, Ledger, gs[k].first.key, ref)
  {
    var front, last := gs[..|gs| - 1], gs[|gs| - 1];
    if k == |gs| - 1 {
      OneLands(IngestGroups(db, tenant, front, now), tenant, last, now, ref);
    } else {
      assert front[..k] == gs[..k];
      StaysHeld(db, tenant, front, now, k, ref);
      OneKeepsHeld(IngestGroups(db, tenant, front, now), tenant, last, now, gs[k].first.key, ref);
    }
  }

  lemma HolderLands(db: Db, tenant: nat, gs: seq<Group>, now: int, k: nat, ref: Ref)
    requires Keyed(db) && Populated(gs) && k < |gs| && Populated(gs[..k])
    requires HoldsKey(IngestGroups(db, tenant, gs, now), tenant, Ledger, gs[k].first.key, ref)
    ensures LandsOn(IngestGroups(db, tenant, gs[..k], now), tenant, Ledger, gs[k].first.key, ref)
  {
    var at := LandingOf(IngestGroups(db, tenant, gs[..k], now), tenant, gs[k].first.key);
    StaysHeld(db, tenant, gs, now, k, at);
    assert SameKey(IngestGroups(db, tenant, gs, now), at, ref);
  }

  /** The message of a key's transaction says what holds at the end of the batch: duplicate
      when the row was there before or the batch repeats the key, and the final tally. */
  lemma MessageOfGroup(db: Db, tenant: nat, gs: seq<Group>, now: int, k: nat, ref: Ref)
    requires Keyed(db) && Populated(gs) && DistinctKeys(gs) && k < |gs| && Populated(gs[..k])
    requires HoldsKey(IngestGroups(db, tenant, gs, now), tenant, Ledger, gs[k].first.key, ref)
    ensures LandsOn(IngestGroups(db, tenant, gs[..k], now), tenant, Ledger, gs[k].first.key, ref)
    ensures MessageAfter(IngestGroups(db, tenant, gs[..k], now), ref, tenant, gs[k].first, gs[k].count, now)
            == Message(Ledger, ref.id, gs[k].first.txn, ref in db.rows || gs[k].count > 1,
              IngestGroups(db, tenant, gs, now).rows[ref].dupCount + 1)
  {
    hide Keyed, DistinctKeys, IngestGroups, RowCountExact, LandsOn, RowAfter;
    var before, final := IngestGroups(db, tenant, gs[..k], now), IngestGroups(db, tenant, gs, now);
    HolderLands(db, tenant, gs, now, k, ref);
    GroupsCount(db, tenant, gs, now);
    PrefixDistinct(gs, k);
    GroupsCount(db, tenant, gs[..k], now);
    CountsGiveMessage(db, before, final, tenant, gs, k, ref, now);
  }

  lemma PrefixDistinct(gs: seq<Group>, k: nat)
    requires DistinctKeys(gs) && k <= |gs|
    ensures DistinctKeys(gs[..k])
  {
  }

  lemma CountsGiveMessage(db: Db, before: Db, final: Db, tenant: nat, gs: seq<Group>, k: nat, ref: Ref, now: int)
    requires DistinctKeys(gs) && k < |gs| && gs[k].count >= 1
    requires HoldsKey(final, tenant, Ledger, gs[k].first.key, ref)
    requires LandsOn(before, tenant, Ledger, gs[k].first.key, ref)
    requires RowCountExact(db, final, tenant, gs, ref) && db.rows.Keys <= before.rows.Keys
    requires ref in before.rows ==> RowCountExact(db, before, tenant, gs[..k], ref)
    ensures MessageAfter(before, ref, tenant, gs[k].first, gs[k].count, now)
            == Message(Ledger, ref.id, gs[k].first.txn, ref in db.rows || gs[k].count > 1, final.rows[ref].dupCount + 1)
  {
    IndexOfDistinct(gs, k);
    NotYet(gs, k);
  }

  lemma NotYet(gs: seq<Group>, k: nat)
    requires DistinctKeys(gs) && k < |gs|
    ensures IndexOf(gs[..k], gs[k].first.key) == k
  {
  }

  /** Nothing else in the database moves. */
  predicate SameElsewhere(a: Db, b: Db) {
    && a.accounts == b.accounts && a.results == b.results && a.cases == b.cases
    && a.nextResult == b.nextResult && a.nextCase == b.nextCase
  }

  lemma {:induction false} BatchElsewhere(db: Db, tenant: nat, gs: seq<Group>, now: int)
    requires Keyed(db) && Populated(gs)
    ensures SameElsewhere(IngestGroups(db, tenant, gs, now), db)
    ensures SameElsewhere(StoreMissing(db, tenant, gs, now), db)
    ensures var s := StoreMissing(db, tenant, gs, now); s.outbox == db.outbox && s.nextEvent == db.nextEvent
  {
    if gs != [] {
      var front := gs[..|gs| - 1];
      assert Populated(front);
      BatchElsewhere(db, tenant, front, now);
    }
  }

  /** One more group appends one event, and nothing after it rewrites that event. */
  lemma GroupEvent(db: Db, tenant: nat, gs: seq<Group>, now: int, k: nat, ref: Ref)
    requires Keyed(db) && Populated(gs) && DistinctKeys(gs) && k < |gs| && Populated(gs[..k]) && Populated(gs[..k + 1])
    requires HoldsKey(IngestGroups(db, tenant, gs, now), tenant, Ledger, gs[k].first.key, ref)
    ensures var before, after := IngestGroups(db, tenant, gs[..k], now), IngestGroups(db, tenant, gs[..k + 1], now);
            var msg := Message(Ledger, ref.id, gs[k].first.txn, ref in db.rows || gs[k].count > 1,
              IngestGroups(db, tenant, gs, now).rows[ref].dupCount + 1);
            after.outbox == Enqueued(before, msg).outbox && after.nextEvent == before.nextEvent + 1
  {
    hide Keyed, IngestOne, IngestGroups, LandsOn, HoldsKey;
    MessageOfGroup(db, tenant, gs, now, k, ref);
    assert gs[..k + 1] == gs[..k] + [gs[k]];
    IngestGroupsLast(db, tenant, gs[..k], gs[k], now);
    OneLands(IngestGroups(db, tenant, gs[..k], now), tenant, gs[k], now, ref);
  }
}
