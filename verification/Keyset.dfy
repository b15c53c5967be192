/** Keyset pages over the results feed and the exception queue, and walks that follow
    `next_cursor` while the tables change underneath. */
module Keyset {
  import opened Basics
  import opened Matching
  import opened Tables
  import opened Protocol
  import opened Safety
  import opened Store

  predicate Before(id: nat, cursor: Option<nat>) { cursor.Some? ==> id < cursor.value }

  function Below(matching: set<nat>, cursor: Option<nat>): set<nat> { set id | id in matching && Before(id, cursor) }

  predicate Descending(ids: seq<nat>) { forall i, j :: 0 <= i < j < |ids| ==> ids[i] > ids[j] }

  /** The first ids below the cursor in descending order, at most `limit` of them. */
  ghost predicate Leading(matching: set<nat>, cursor: Option<nat>, limit: nat, ids: seq<nat>) {
    && Descending(ids)
    && (forall id :: id in ids ==> id in Below(matching, cursor))
    && |ids| == Min(limit, |Below(matching, cursor)|)
    && (forall id, k :: id in Below(matching, cursor) && id !in ids && 0 <= k < |ids| ==> id < ids[k])
  }

  /** A page, and the cursor exactly when something smaller remains. */
  ghost predicate IsPage(matching: set<nat>, cursor: Option<nat>, limit: nat, rows: seq<nat>, next: Option<nat>) {
    && Leading(matching, cursor, limit, rows)
    && (next.None? <==> forall id :: id in Below(matching, cursor) ==> id in rows)
    && (next.Some? ==> rows != [] && next.value == rows[|rows| - 1])
  }

  method Greatest(s: set<nat>) returns (top: nat)
    requires s != {}
    ensures top in s && forall id :: id in s ==> id <= top
  {
    top :| top in s;
    var rest := s - {top};
    while rest != {}
      invariant rest <= s && top in s
      invariant forall id :: id in s && id !in rest ==> id <= top
      decreases |rest|
    {
      var id :| id in rest;
      if id > top { top := id; }
      rest := rest - {id};
    }
  }

  /** WHERE id < cursor ORDER BY id DESC LIMIT n. */
  method ApplyKeyset(matching: set<nat>, cursor: Option<nat>, n: nat) returns (ids: seq<nat>)
    ensures Leading(matching, cursor, n, ids)
  {
    ids := [];
    var todo := set id | id in matching && (cursor.Some? ==> id < cursor.value);
    ghost var all := todo;
    while |ids| < n && todo != {}
      invariant todo <= all == Below(matching, cursor)
      invariant forall id :: id in ids <==> id in all - todo
      invariant |ids| + |todo| == |all| && |ids| <= n
      invariant Descending(ids)
      invariant forall id, k :: id in todo && 0 <= k < |ids| ==> id < ids[k]
      decreases |todo|
    {
      var top := Greatest(todo);
      assert |todo - {top}| == |todo| - 1;
      ids, todo := ids + [top], todo - {top};
    }
  }

  /** One extra row tells "there is more" without a second query. */
  method FetchPage(matching: set<nat>, limit: nat, cursor: Option<nat>) returns (rows: seq<nat>, next: Option<nat>)
    requires limit >= 1
    ensures IsPage(matching, cursor, limit, rows, next)
  {
    var ids := ApplyKeyset(matching, cursor, limit + 1);
    if |ids| > limit {
      rows, next := ids[..limit], Some(ids[limit - 1]);
      assert ids[limit] in ids && ids[limit] in Below(matching, cursor);
      assert forall id :: id in ids && id !in rows ==> id == ids[limit];
    } else {
      rows, next := ids, None;
      AllFetched(matching, cursor, ids);
    }
  }

  lemma AllFetched(matching: set<nat>, cursor: Option<nat>, ids: seq<nat>)
    requires Descending(ids) && |ids| == |Below(matching, cursor)|
    requires forall id :: id in ids ==> id in Below(matching, cursor)
    ensures forall id :: id in Below(matching, cursor) ==> id in ids
  {
    DescendingCard(ids);
    SubsetCard(IdsIn(ids), Below(matching, cursor));
    assert IdsIn(ids) == Below(matching, cursor);
  }

  function IdsIn(ids: seq<nat>): set<nat> { set id | id in ids }

  lemma {:induction false} DescendingCard(ids: seq<nat>)
    requires Descending(ids)
    ensures |IdsIn(ids)| == |ids|
  {
    if ids == [] {
      assert IdsIn(ids) == {};
    } else {
      var front, last := ids[..|ids| - 1], ids[|ids| - 1];
      DescendingCard(front);
      assert ids == front + [last];
      assert IdsIn(ids) == IdsIn(front) + {last};
      assert last !in front;
    }
  }

  /* -------------------------------- The two feeds -------------------------------- */

  function ResultsMatching(db: Db, tenant: nat, status: Option<Status>): set<nat> {
    set r | r in db.results && db.results[r].tenant == tenant && (status.Some? ==> db.results[r].status == status.value)
  }

  /** `open` selects the open cases, the closed ones, or both; each is joined to the result
      that opened it. */
  function CasesMatching(db: Db, tenant: nat, open: Option<bool>): set<nat> {
    set c | c in db.cases && db.cases[c].tenant == tenant && db.cases[c].result in db.results
      && (open.Some? ==> db.cases[c].closedAt.None? == open.value)
  }

  method FetchResultsPage(db: Database, tenant: nat, status: Option<Status>, limit: nat, cursor: Option<nat>)
    returns (rows: seq<nat>, next: Option<nat>)
    requires limit >= 1
    ensures IsPage(ResultsMatching(db.View(), tenant, status), cursor, limit, rows, next)
    ensures forall r :: r in rows ==> r in db.results && db.results[r].tenant == tenant
    ensures forall r :: r in rows && status.Some? && r in db.results ==> db.results[r].status == status.value
    ensures forall r :: r in db.results && db.results[r].tenant == tenant && Between(r, cursor, next)
                        && (status.None? || db.results[r].status == status.value)
              ==> r in rows
  {
    var matching := set r | r in db.results && db.results[r].tenant == tenant
      && (status.Some? ==> db.results[r].status == status.value);
    rows, next := FetchPage(matching, limit, cursor);
    NothingBetween(matching, cursor, limit, rows, next);
  }

  method FetchExceptionsPage(db: Database, tenant: nat, open: Option<bool>, limit: nat, cursor: Option<nat>)
    returns (rows: seq<nat>, next: Option<nat>)
    requires limit >= 1
    ensures IsPage(CasesMatching(db.View(), tenant, open), cursor, limit, rows, next)
    ensures forall c :: c in rows ==> c in db.cases && db.cases[c].tenant == tenant
    ensures forall c :: c in rows && open.Some? && c in db.cases ==> (open.value <==> db.cases[c].closedAt.None?)
    ensures forall c :: c in db.cases && db.cases[c].tenant == tenant && db.cases[c].result in db.results
                        && Between(c, cursor, next) && (open.None? || (open.value <==> db.cases[c].closedAt.None?))
              ==> c in rows
  {
    var matching := set c | c in db.cases && db.cases[c].tenant == tenant && db.cases[c].result in db.results
      && (open.Some? ==> db.cases[c].closedAt.None? == open.value);
    rows, next := FetchPage(matching, limit, cursor);
    NothingBetween(matching, cursor, limit, rows, next);
  }

  /** Below this page's cursor and not below the next. */
  predicate Between(id: nat, cursor: Option<nat>, next: Option<nat>) {
    (cursor.None? || id < cursor.value) && (next.None? || id >= next.value)
  }

  /** A page leaves out nothing between its cursor and the next. */
  lemma NothingBetween(matching: set<nat>, cursor: Option<nat>, limit: nat, rows: seq<nat>, next: Option<nat>)
    requires IsPage(matching, cursor, limit, rows, next)
    ensures forall id :: id in rows ==> id in matching
    ensures forall id :: id in matching && Between(id, cursor, next) ==> id in rows
  {
    forall id | id in matching && Between(id, cursor, next) ensures id in rows {
      assert id in Below(matching, cursor);
    }
  }

  /* ------------------------------------ Walks ------------------------------------ */

  /** One fetched page and the matching ids at that moment. */
  datatype Visit = Visit(matching: set<nat>, rows: seq<nat>, next: Option<nat>)

  function CursorAt(visits: seq<Visit>, i: nat): Option<nat>
    requires i <= |visits|
  {
    if i == 0 then None else visits[i - 1].next
  }

  /** Each page is fetched at the previous page's cursor; the table may differ every time. */
  ghost predicate Walk(limit: nat, visits: seq<Visit>) {
    && limit >= 1
    && (forall i :: 0 <= i < |visits|
          ==> IsPage(visits[i].matching, CursorAt(visits, i), limit, visits[i].rows, visits[i].next))
    && (forall i :: 0 <= i < |visits| - 1 ==> visits[i].next.Some?)
  }

  predicate Finished(visits: seq<Visit>) { visits != [] && visits[|visits| - 1].next.None? }

  /** Everything the walk has returned, in order. */
  function Seen(visits: seq<Visit>): seq<nat> {
    if visits == [] then [] else Seen(visits[..|visits| - 1]) + visits[|visits| - 1].rows
  }

  lemma WalkPrefix(limit: nat, visits: seq<Visit>)
    requires Walk(limit, visits) && visits != []
    ensures Walk(limit, visits[..|visits| - 1])
    ensures |visits| > 1 ==> visits[|visits| - 2].next.Some?
    ensures |visits| > 1 ==> CursorAt(visits, |visits| - 1) == visits[|visits| - 2].next
  {
    hide IsPage;
    var front := visits[..|visits| - 1];
    forall i | 0 <= i < |front|
      ensures IsPage(front[i].matching, CursorAt(front, i), limit, front[i].rows, front[i].next)
    {
      assert CursorAt(front, i) == CursorAt(visits, i);
    }
  }

  predicate NoneBelow(ids: seq<nat>, floor: Option<nat>) {
    floor.Some? ==> forall id :: id in ids ==> id >= floor.value
  }

  /** Strictly descending over all pages together, so no row is returned twice. */
  lemma {:induction false} SeenDescends(limit: nat, visits: seq<Visit>)
    requires Walk(limit, visits)
    ensures Descending(Seen(visits))
    ensures visits != [] ==> NoneBelow(Seen(visits), visits[|visits| - 1].next)
  {
    hide Walk, IsPage, Descending, NoneBelow, Before;
    if visits == [] {
      EmptyDescends();
    } else {
      var front, last := visits[..|visits| - 1], visits[|visits| - 1];
      WalkPrefix(limit, visits);
      SeenDescends(limit, front);
      LastPageFollows(limit, visits);
      AppendBelow(Seen(front), last.rows, CursorAt(visits, |front|), last.next);
    }
  }

  lemma EmptyDescends()
    ensures Descending([])
  {
  }

  lemma LastPageFollows(limit: nat, visits: seq<Visit>)
    requires Walk(limit, visits) && visits != []
    ensures var last := visits[|visits| - 1];
      && Descending(last.rows)
      && (forall id :: id in last.rows ==> Before(id, CursorAt(visits, |visits| - 1)))
      && (last.next.Some? ==> last.rows != [] && last.next.value == last.rows[|last.rows| - 1])
  {
    var last := visits[|visits| - 1];
    assert IsPage(last.matching, CursorAt(visits, |visits| - 1), limit, last.rows, last.next);
  }

  lemma AppendBelow(seen: seq<nat>, rows: seq<nat>, cursor: Option<nat>, next: Option<nat>)
    requires Descending(seen) && Descending(rows)
    requires seen != [] ==> cursor.Some? && NoneBelow(seen, cursor)
    requires forall id :: id in rows ==> Before(id, cursor)
    requires next.Some? ==> rows != [] && next.value == rows[|rows| - 1]
    ensures Descending(seen + rows) && NoneBelow(seen + rows, next)
  {
    if rows != [] { LastIsLeast(rows); }
    forall i, j | 0 <= i < |seen| && 0 <= j < |rows| ensures seen[i] > rows[j] {
      assert seen[i] in seen && rows[j] in rows;
    }
    forall id | id in seen && rows != [] ensures id >= rows[|rows| - 1] {
      assert rows[|rows| - 1] in rows;
    }
  }

  lemma LastIsLeast(ids: seq<nat>)
    requires Descending(ids) && ids != []
    ensures forall id :: id in ids ==> id >= ids[|ids| - 1]
  {
  }

  /** A row that has matched at every page so far has been returned, or is still ahead. */
  lemma {:induction false} NothingSkipped(limit: nat, visits: seq<Visit>, id: nat)
    requires Walk(limit, visits) && visits != []
    requires forall i :: 0 <= i < |visits| ==> id in visits[i].matching
    ensures id in Seen(visits) || (visits[|visits| - 1].next.Some? && id < visits[|visits| - 1].next.value)
  {
    var front, last := visits[..|visits| - 1], visits[|visits| - 1];
    WalkPrefix(limit, visits);
    if front != [] { NothingSkipped(limit, front, id); }
    assert IsPage(last.matching, CursorAt(visits, |front|), limit, last.rows, last.next);
    if id !in Seen(front) && id !in last.rows {
      assert id in Below(last.matching, CursorAt(visits, |front|));
    }
  }

  /** Each cursor is below the one before it, so a walk cannot go on for ever. */
  lemma {:induction false} WalkEnds(limit: nat, visits: seq<Visit>)
    requires Walk(limit, visits) && |visits| >= 2
    ensures |visits| <= visits[0].next.value + 2
    ensures visits[|visits| - 1].next.Some? ==> visits[|visits| - 1].next.value + |visits| <= visits[0].next.value + 1
  {
    var front, last := visits[..|visits| - 1], visits[|visits| - 1];
    WalkPrefix(limit, visits);
    if |front| >= 2 { WalkEnds(limit, front); }
    assert IsPage(last.matching, CursorAt(visits, |front|), limit, last.rows, last.next);
    if last.next.Some? { assert last.rows[|last.rows| - 1] in last.rows; }
  }

  ghost predicate ReturnedOnce(ids: seq<nat>, id: nat) {
    id in ids && forall j, k :: 0 <= j < k < |ids| && ids[j] == id ==> ids[k] != id
  }

  /** A finished walk returns each row that matched throughout exactly once, and no row
      twice, whatever was inserted, closed or deleted meanwhile. */
  lemma WalkIsComplete(limit: nat, visits: seq<Visit>, id: nat)
    requires Walk(limit, visits) && Finished(visits)
    requires forall i :: 0 <= i < |visits| ==> id in visits[i].matching
    ensures ReturnedOnce(Seen(visits), id)
  {
    hide Walk, IsPage, Seen;
    NothingSkipped(limit, visits, id);
    SeenDescends(limit, visits);
  }

  /* --------------------------- Walks over a running system --------------------------- */

  /** The pages of a walk were fetched at increasing positions of a run. */
  ghost predicate FetchedAlong(run: Run, at: seq<nat>, visits: seq<Visit>) {
    && |at| == |visits|
    && (forall i :: 0 <= i < |at| ==> at[i] < |run.states|)
    && (forall i, j :: 0 <= i < j < |at| ==> at[i] <= at[j])
  }

  /** The results feed: every result present when the walk starts is returned exactly once,
      however many arrive or are written during it, unless its tenant is deleted. */
  lemma ResultsFeedComplete(st: Settings, run: Run, at: seq<nat>, visits: seq<Visit>, limit: nat, tenant: nat,
                            status: Option<Status>, r: nat)
    requires IsRun(st, run) && FetchedAlong(run, at, visits) && Walk(limit, visits) && Finished(visits)
    requires forall i :: 0 <= i < |visits|
               ==> visits[i].matching == ResultsMatching(run.states[at[i]].db, tenant, status)
    requires NotRetired(run, tenant, at[0], at[|at| - 1])
    requires r in ResultsMatching(run.states[at[0]].db, tenant, status)
    ensures ReturnedOnce(Seen(visits), r)
  {
    hide Enabled, Exec, Walk, IsPage, Seen, Descending, ReturnedOnce;
    forall i | 0 <= i < |visits| ensures r in visits[i].matching {
      assert NotRetired(run, tenant, at[0], at[i]);
      ResultPersists(st, run, at[0], at[i], r);
    }
    WalkIsComplete(limit, visits, r);
  }

  /** The exception queue, open, closed or both: every case that matches when the walk starts,
      and if open ones are asked for is still open when it ends, is returned exactly once,
      whatever else is opened or closed meanwhile. */
  lemma ExceptionQueueComplete(st: Settings, run: Run, at: seq<nat>, visits: seq<Visit>, limit: nat, tenant: nat,
                               open: Option<bool>, c: nat)
    requires IsRun(st, run) && FetchedAlong(run, at, visits) && Walk(limit, visits) && Finished(visits)
    requires forall i :: 0 <= i < |visits| ==> visits[i].matching == CasesMatching(run.states[at[i]].db, tenant, open)
    requires NotRetired(run, tenant, at[0], at[|at| - 1])
    requires c in CasesMatching(run.states[at[0]].db, tenant, open)
    requires open == Some(true) ==> c in CasesMatching(run.states[at[|at| - 1]].db, tenant, open)
    ensures ReturnedOnce(Seen(visits), c)
  {
    hide Enabled, Exec, Walk, IsPage, Seen, Descending, ReturnedOnce;
    forall i | 0 <= i < |visits| ensures c in visits[i].matching {
      hide CasesMatching;
      assert NotRetired(run, tenant, at[0], at[i]) && NotRetired(run, tenant, at[i], at[|at| - 1]);
      MatchesThroughout(st, run, at[0], at[i], at[|at| - 1], tenant, open, c);
    }
    WalkIsComplete(limit, visits, c);
  }

  /** Closing is final, so a case open at both ends was open in between, and one closed at the
      start stays closed. */
  lemma MatchesThroughout(st: Settings, run: Run, i: nat, k: nat, j: nat, tenant: nat, open: Option<bool>, c: nat)
    requires IsRun(st, run) && i <= k <= j < |run.states|
    requires NotRetired(run, tenant, i, k) && NotRetired(run, tenant, k, j)
    requires c in CasesMatching(run.states[i].db, tenant, open)
    requires open == Some(true) ==> c in CasesMatching(run.states[j].db, tenant, open)
    ensures c in CasesMatching(run.states[k].db, tenant, open)
  {
    hide Enabled, Exec;
    CasePersists(st, run, i, k, c);
    JoinLosesNothing(st, run, k, c);
    if run.states[i].db.cases[c].closedAt.Some? {
      ClosedStaysClosed(st, run, i, k, c);
    } else if run.states[k].db.cases[c].closedAt.Some? {
      ClosedStaysClosed(st, run, k, j, c);
    }
  }

  /** A case's result is always there to be joined. */
  lemma JoinLosesNothing(st: Settings, run: Run, k: nat, c: nat)
    requires IsRun(st, run) && k < |run.states| && c in run.states[k].db.cases
    ensures run.states[k].db.cases[c].result in run.states[k].db.results
  {
    hide Enabled, Exec;
    RunKeepsInv(st, run, k);
  }

  lemma {:induction false} CasePersists(st: Settings, run: Run, i: nat, j: nat, c: nat)
    requires IsRun(st, run) && i <= j <= |run.steps| && c in run.states[i].db.cases
    requires NotRetired(run, run.states[i].db.cases[c].tenant, i, j)
    ensures c in run.states[j].db.cases && run.states[j].db.cases[c].tenant == run.states[i].db.cases[c].tenant
    decreases j - i
  {
    hide Enabled, Exec;
    if i < j {
      CasePersists(st, run, i, j - 1, c);
      RunStepEvolves(st, run, j - 1);
    }
  }
}
