/** The unmatched sweeper running alone: one pass over both sides, and the drain loop of the
    scheduled one-shot form. */
module Sweeping {
  import opened Basics
  import opened Matching
  import opened Tables
  import opened TablesProofs
  import opened Protocol
  import opened Safety
  import opened Store
  import opened Retention

  predicate StaleRow(db: Db, side: Side, cutoff: int, ref: Ref) {
    ref in db.rows && ref.side == side && db.rows[ref].Pending() && db.rows[ref].facts.received < cutoff
  }

  /** Rows of one side still awaiting a counterparty past the window, of every tenant. */
  function StaleRows(db: Db, side: Side, cutoff: int): set<Ref> {
    set ref | ref in db.rows && ref.side == side && db.rows[ref].Pending() && db.rows[ref].facts.received < cutoff
  }

  function RefsIn(facts: seq<Facts>): set<Ref> { set f | f in facts :: RefOf(f) }

  /** The backlog query: at most `limit` stale rows, longest waiting first. */
  ghost predicate OldestStale(db: Db, side: Side, cutoff: int, limit: nat, stale: seq<Facts>) {
    && Distinct(stale)
    && (forall f :: f in stale ==> PendingFacts(db, f) && StaleRow(db, side, cutoff, RefOf(f)))
    && |stale| == Min(limit, |StaleRows(db, side, cutoff)|)
    && (forall i, j :: 0 <= i < j < |stale| ==> stale[i].received <= stale[j].received)
    && (forall f, ref :: f in stale && StaleRow(db, side, cutoff, ref) && ref !in RefsIn(stale)
          ==> f.received <= db.rows[ref].facts.received)
  }

  /** The query half way: `todo` are the stale rows not listed yet. */
  ghost predicate PartlyListed(db: Db, all: set<Ref>, todo: set<Ref>, stale: seq<Facts>) {
    && todo <= all
    && (forall f :: f in stale ==> RefOf(f) in all - todo && RefOf(f) in db.rows && db.rows[RefOf(f)].facts == f)
    && RefsIn(stale) == all - todo
    && |stale| + |todo| == |all|
    && Distinct(stale)
    && (forall i, j :: 0 <= i < j < |stale| ==> stale[i].received <= stale[j].received)
    && (forall f, ref :: f in stale && ref in todo && ref in db.rows ==> f.received <= db.rows[ref].facts.received)
  }

  lemma ListGrows(db: Db, all: set<Ref>, todo: set<Ref>, stale: seq<Facts>, oldest: Ref)
    requires PartlyListed(db, all, todo, stale) && oldest in todo && oldest in db.rows
    requires RefOf(db.rows[oldest].facts) == oldest
    requires forall o :: o in todo && o in db.rows ==> db.rows[oldest].facts.received <= db.rows[o].facts.received
    ensures PartlyListed(db, all, todo - {oldest}, stale + [db.rows[oldest].facts])
  {
    var f := db.rows[oldest].facts;
    RefsGrow(stale, f);
    AppendKeepsOrder(stale, f);
    assert |todo - {oldest}| == |todo| - 1;
  }

  lemma RefsGrow(stale: seq<Facts>, f: Facts)
    ensures RefsIn(stale + [f]) == RefsIn(stale) + {RefOf(f)}
  {
  }

  lemma AppendKeepsOrder(stale: seq<Facts>, f: Facts)
    requires Distinct(stale) && f !in stale
    requires forall i, j :: 0 <= i < j < |stale| ==> stale[i].received <= stale[j].received
    requires forall g :: g in stale ==> g.received <= f.received
    ensures Distinct(stale + [f])
    ensures var s := stale + [f]; forall i, j :: 0 <= i < j < |s| ==> s[i].received <= s[j].received
  {
    forall i | 0 <= i < |stale| ensures stale[i] != f && stale[i].received <= f.received { assert stale[i] in stale; }
  }

  method FindStalePending(db: Database, side: Side, cutoff: int, limit: nat) returns (stale: seq<Facts>)
    requires IdsBelowNext(db.View())
    ensures OldestStale(db.View(), side, cutoff, limit, stale)
  {
    stale := [];
    var todo := set ref | ref in db.rows && ref.side == side && db.rows[ref].Pending()
      && db.rows[ref].facts.received < cutoff;
    ghost var view, all := db.View(), todo;
    while |stale| < limit && todo != {}
      invariant todo <= all == StaleRows(view, side, cutoff) && |stale| <= limit
      invariant PartlyListed(view, all, todo, stale)
      decreases |todo|
    {
      var oldest := LongestWaiting(db, todo);
      ListGrows(view, all, todo, stale, oldest);
      stale, todo := stale + [db.rows[oldest].facts], todo - {oldest};
    }
    ListIsOldest(view, side, cutoff, limit, all, todo, stale);
  }

  lemma ListIsOldest(db: Db, side: Side, cutoff: int, limit: nat, all: set<Ref>, todo: set<Ref>, stale: seq<Facts>)
    requires all == StaleRows(db, side, cutoff) && PartlyListed(db, all, todo, stale)
    requires |stale| == limit || (|stale| < limit && todo == {})
    ensures OldestStale(db, side, cutoff, limit, stale)
  {
  }

  method LongestWaiting(db: Database, s: set<Ref>) returns (ref: Ref)
    requires s != {} && s <= db.rows.Keys
    ensures ref in s && forall o :: o in s ==> db.rows[ref].facts.received <= db.rows[o].facts.received
  {
    ref :| ref in s;
    var rest := s - {ref};
    while rest != {}
      invariant rest <= s && ref in s
      invariant forall o :: o in s && o !in rest ==> db.rows[ref].facts.received <= db.rows[o].facts.received
      decreases |rest|
    {
      var o :| o in rest;
      if db.rows[o].facts.received < db.rows[ref].facts.received { ref := o; }
      rest := rest - {o};
    }
  }

  /* ------------------------------- One row ------------------------------- */

  /** One listed row's transaction: a last matching attempt against live data, and only when
      nothing is viable the verdict that it is unmatched. */
  predicate SweptRow(st: Settings, db: Db, c: Facts, now: int, partner: Option<Facts>, db': Db) {
    && BestPartner(c, Candidates(db, c, st.cfg), st.cfg, partner)
    && db' == Apply(db, DecisionOf(SweepIntent(c, partner), st.cfg), c.tenant, now)
  }

  lemma CandidatePartner(db: Db, c: Facts, cfg: Config, p: Facts)
    requires IdsBelowNext(db) && BestPartner(c, Candidates(db, c, cfg), cfg, Some(p))
    ensures PendingFacts(db, p) && Viable(c, p, cfg)
  {
    CandidateIsRow(db, c, cfg, p);
  }

  /** A row still pending when its turn comes is always written: nothing refuses the insert
      and no reference is missing. */
  lemma SweepAlwaysWrites(st: Settings, db: Db, c: Facts, partner: Option<Facts>)
    requires IdsBelowNext(db) && ForeignKeys(db) && ReconciledByResult(db) && PendingFacts(db, c)
    requires BestPartner(c, Candidates(db, c, st.cfg), st.cfg, partner)
    ensures OutcomeOf(db, DecisionOf(SweepIntent(c, partner), st.cfg), c.tenant).Written?
  {
    var d := DecisionOf(SweepIntent(c, partner), st.cfg);
    if partner.Some? {
      CandidatePartner(db, c, st.cfg, partner.value);
      ViableAgrees(c, partner.value, st.cfg);
    }
    forall r | r in db.results ensures !Clashes(db.results[r], d, c.tenant) {
      assert !ActiveOn(db, r, RefOf(c));
      if partner.Some? { assert !ActiveOn(db, r, RefOf(partner.value)); }
    }
  }

  /** Which rows it settles: its own, and its partner's when it has one. */
  lemma SweepSettles(st: Settings, db: Db, c: Facts, now: int, partner: Option<Facts>, db': Db, ref: Ref)
    requires IdsBelowNext(db) && ForeignKeys(db) && ReconciledByResult(db) && PendingFacts(db, c)
    requires SweptRow(st, db, c, now, partner, db')
    ensures IsPending(db', ref) <==>
      IsPending(db, ref) && ref != RefOf(c) && (partner.Some? ==> ref != RefOf(partner.value))
    ensures ref in db'.rows <==> ref in db.rows
    ensures ref in db.rows ==> db'.rows[ref].facts == db.rows[ref].facts
    ensures db'.nextResult == db.nextResult + 1 && db'.accounts == db.accounts
    ensures partner.Some? ==> partner.value.side == Other(c.side)
  {
    hide Candidates, DecisionOf, IdsBelowNext, ForeignKeys, ReconciledByResult, OutcomeOf, Apply, ClassifyPair;
    SweepAlwaysWrites(st, db, c, partner);
    SweepNames(st, db, c, partner, ref);
    WriteSettles(db, DecisionOf(SweepIntent(c, partner), st.cfg), c.tenant, now, ref);
  }

  lemma SweepNames(st: Settings, db: Db, c: Facts, partner: Option<Facts>, ref: Ref)
    requires BestPartner(c, Candidates(db, c, st.cfg), st.cfg, partner)
    ensures var d := DecisionOf(SweepIntent(c, partner), st.cfg);
      && d.status != Duplicate
      && (DecisionNames(d, ref) <==> ref == RefOf(c) || (partner.Some? && ref == RefOf(partner.value)))
    ensures partner.Some? ==> partner.value.side == Other(c.side)
  {
    if partner.Some? { ViableAgrees(c, partner.value, st.cfg); }
  }

  lemma WriteSettles(db: Db, d: Decision, tenant: nat, now: int, ref: Ref)
    requires OutcomeOf(db, d, tenant).Written? && d.status != Duplicate
    ensures var db' := Apply(db, d, tenant, now);
      && (IsPending(db', ref) <==> IsPending(db, ref) && !DecisionNames(d, ref))
      && (ref in db'.rows <==> ref in db.rows)
      && (ref in db.rows ==> db'.rows[ref].facts == db.rows[ref].facts)
      && db'.nextResult == db.nextResult + 1 && db'.accounts == db.accounts
  {
    hide OutcomeOf;
    InsertedRows(db, d, tenant, now);
  }

  /** On the candidate's own side exactly its row leaves the backlog; on the other side
      nothing enters it. */
  lemma SweepShrinksBacklog(st: Settings, db: Db, c: Facts, now: int, partner: Option<Facts>, db': Db, cutoff: int)
    requires IdsBelowNext(db) && ForeignKeys(db) && ReconciledByResult(db) && PendingFacts(db, c)
    requires SweptRow(st, db, c, now, partner, db')
    ensures StaleRows(db', c.side, cutoff) == StaleRows(db, c.side, cutoff) - {RefOf(c)}
    ensures StaleRows(db', Other(c.side), cutoff) <= StaleRows(db, Other(c.side), cutoff)
  {
    forall ref | ref in db.rows || ref in db'.rows
      ensures StaleRow(db', c.side, cutoff, ref) <==> StaleRow(db, c.side, cutoff, ref) && ref != RefOf(c)
      ensures StaleRow(db', Other(c.side), cutoff, ref) ==> StaleRow(db, Other(c.side), cutoff, ref)
    {
      SweepSettles(st, db, c, now, partner, db', ref);
    }
    forall ref ensures ref in StaleRows(db', c.side, cutoff) <==> ref in StaleRows(db, c.side, cutoff) - {RefOf(c)} {
      assert ref in StaleRows(db', c.side, cutoff) <==> StaleRow(db', c.side, cutoff, ref);
    }
    forall ref | ref in StaleRows(db', Other(c.side), cutoff) ensures ref in StaleRows(db, Other(c.side), cutoff) {
      assert StaleRow(db', Other(c.side), cutoff, ref);
    }
  }

  lemma SweepKeepsInv(st: Settings, db: Db, c: Facts, now: int, partner: Option<Facts>, db': Db)
    requires DbInv(st, db) && PendingFacts(db, c) && c.received < now - st.unmatchedAfter
    requires SweptRow(st, db, c, now, partner, db')
    ensures DbInv(st, db')
  {
    if partner.Some? { CandidatePartner(db, c, st.cfg, partner.value); }
    ApplyKeepsInv(st, db, now, SweepIntent(c, partner));
  }

  /** A sweeper's read step followed at once by its commit step is one such transaction. */
  lemma SweepReadThenCommit(st: Settings, s: Sys, a: nat, partner: Option<Facts>, s1: Sys)
    requires Enabled(st, s, SweepRead(a, partner)) && s1 == Exec(st, s, SweepRead(a, partner))
    requires IdsBelowNext(s.db) && ForeignKeys(s.db) && ReconciledByResult(s.db)
    requires PendingFacts(s.db, s.agents[a].queue[0])
    ensures Enabled(st, s1, SweepCommit(a))
    ensures var s2 := Exec(st, s1, SweepCommit(a));
      && s2.agents == s.agents[a := Listing(s.agents[a].queue[1..])]
      && SweptRow(st, s.db, s.agents[a].queue[0], s.now, partner, s2.db)
  {
    var c := s.agents[a].queue[0];
    SweepAlwaysWrites(st, s.db, c, partner);
    SweepReadLeaves(st, s, a, partner);
    hide IdsBelowNext, ForeignKeys, ReconciledByResult, OutcomeOf, InsertResult, BestPartner, Candidates, ClassifyPair;
    SweepCommitDoes(st, s1, a);
  }

  lemma SweepReadLeaves(st: Settings, s: Sys, a: nat, partner: Option<Facts>)
    requires Enabled(st, s, SweepRead(a, partner))
    ensures var s1 := Exec(st, s, SweepRead(a, partner)); var c := s.agents[a].queue[0];
      && s1.db == s.db && s1.now == s.now
      && s1.agents == s.agents[a := Sweeping(SweepIntent(c, partner), s.agents[a].queue[1..])]
      && BestPartner(c, Candidates(s.db, c, st.cfg), st.cfg, partner)
      && Enabled(st, s1, SweepCommit(a))
  {
    hide Candidates, ClassifyPair;
  }

  lemma SweepCommitDoes(st: Settings, s: Sys, a: nat)
    requires Enabled(st, s, SweepCommit(a))
    requires var i := s.agents[a].target; !OutcomeOf(s.db, DecisionOf(i, st.cfg), i.candidate.tenant).Aborted?
    ensures var s2, i := Exec(st, s, SweepCommit(a)), s.agents[a].target;
      && s2.agents == s.agents[a := Listing(s.agents[a].rest)]
      && s2.db == Apply(s.db, DecisionOf(i, st.cfg), i.candidate.tenant, s.now)
  {
    hide OutcomeOf, Apply, ClassifyPair;
  }

  /** An idle sweeper lists one row whose window is over by then. */
  lemma ListsOne(st: Settings, s: Sys, a: nat, c: Facts, later: int)
    requires a !in s.agents && PendingFacts(s.db, c) && later >= s.now && c.received < later - st.unmatchedAfter
    ensures Enabled(st, s, Tick(later))
    ensures var ticked := Exec(st, s, Tick(later));
      && Enabled(st, ticked, SweepList(a, c.side, [c]))
      && Exec(st, ticked, SweepList(a, c.side, [c])) == s.(now := later, agents := s.agents[a := Listing([c])])
  {
    hide PendingFacts;
  }

  /** From every reachable state an idle sweeper can settle any pending row, once its window is
      over: list it, read, commit. */
  lemma AnyPendingRowCanBeSettled(st: Settings, run: Run, i: nat, a: nat, c: Facts, later: int)
    returns (partner: Option<Facts>, done: Sys)
    requires IsRun(st, run) && i < |run.states| && a !in run.states[i].agents
    requires PendingFacts(run.states[i].db, c)
    requires later >= run.states[i].now && c.received < later - st.unmatchedAfter
    ensures Leads(st, run.states[i],
      [Tick(later), SweepList(a, c.side, [c]), SweepRead(a, partner), SweepCommit(a)], done)
    ensures SweptRow(st, run.states[i].db, c, later, partner, done.db)
    ensures RefOf(c) in done.db.rows && !done.db.rows[RefOf(c)].Pending()
  {
    var s := run.states[i];
    RunKeepsInv(st, run, i);
    ListsOne(st, s, a, c, later);
    var ticked := Exec(st, s, Tick(later));
    var listed := Exec(st, ticked, SweepList(a, c.side, [c]));
    partner := BestPartnerExists(c, Candidates(s.db, c, st.cfg), st.cfg);
    var read := Exec(st, listed, SweepRead(a, partner));
    SweepReadThenCommit(st, listed, a, partner, read);
    done := Exec(st, read, SweepCommit(a));
    SweepSettles(st, s.db, c, later, partner, done.db, RefOf(c));
    FourSteps(st, s, Tick(later), SweepList(a, c.side, [c]), SweepRead(a, partner), SweepCommit(a));
    hide Exec, BestPartner, Candidates, IdsBelowNext, ForeignKeys, ReconciledByResult;
  }

  lemma FourSteps(st: Settings, s: Sys, a: Step, b: Step, c: Step, d: Step)
    requires Enabled(st, s, a)
    requires Enabled(st, Exec(st, s, a), b)
    requires Enabled(st, Exec(st, Exec(st, s, a), b), c)
    requires Enabled(st, Exec(st, Exec(st, Exec(st, s, a), b), c), d)
    ensures Leads(st, s, [a, b, c, d], Exec(st, Exec(st, Exec(st, Exec(st, s, a), b), c), d))
  {
    var s1 := Exec(st, s, a);
    var s2 := Exec(st, s1, b);
    var s3 := Exec(st, s2, c);
    var s4 := Exec(st, s3, d);
    hide Enabled, Exec;
    assert Leads(st, s4, [], s4);
    LeadsFirst(st, s3, d, [], s4);
    LeadsFirst(st, s2, c, [d], s4);
    LeadsFirst(st, s1, b, [c, d], s4);
    LeadsFirst(st, s, a, [b, c, d], s4);
    assert [a] + [b, c, d] == [a, b, c, d] && [b] + [c, d] == [b, c, d] && [c] + [d] == [c, d] && [d] + [] == [d];
  }

  method SweepRow(st: Settings, db: Database, c: Facts, now: int) returns (written: bool, partner: Option<Facts>)
    requires IdsBelowNext(db.View())
    modifies db
    ensures SweptRow(st, old(db.View()), c, now, partner, db.View())
    ensures written <==> OutcomeOf(old(db.View()), DecisionOf(SweepIntent(c, partner), st.cfg), c.tenant).Written?
  {
    var counterparties := db.FindCounterparties(c, st.cfg);
    var decision;
    decision, partner := Decide(c, counterparties, st.cfg);
    if decision.None? {
      decision := Some(UnmatchedDecision(c));
    }
    var outcome := db.ApplyDecision(decision.value, c.tenant, now);
    written := outcome.Written?;
  }

  /* ------------------------------- One pass ------------------------------- */

  ghost predicate SweptOne(st: Settings, db: Db, c: Facts, now: int, db': Db) {
    exists p :: SweptRow(st, db, c, now, p, db')
  }

  /** The listed rows swept one after the other, each against what the earlier ones left. */
  ghost predicate SweptInOrder(st: Settings, db: Db, stale: seq<Facts>, now: int, db': Db) {
    if stale == [] then db' == db
    else exists mid :: SweptInOrder(st, db, AllButLast(stale), now, mid) && SweptOne(st, mid, Last(stale), now, db')
  }

  /** What one side's pass leaves: everything it listed is settled, and its count is exact. */
  ghost predicate SideSwept(db: Db, db': Db, side: Side, cutoff: int, listed: set<Ref>, resolved: nat) {
    && StaleRows(db', side, cutoff) == StaleRows(db, side, cutoff) - listed
    && StaleRows(db', Other(side), cutoff) <= StaleRows(db, Other(side), cutoff)
    && db'.nextResult == db.nextResult + resolved
    && db'.accounts == db.accounts
  }

  lemma RowExtendsSide(st: Settings, db0: Db, db: Db, db': Db, c: Facts, now: int, p: Option<Facts>, listed: set<Ref>,
                       resolved: nat)
    requires IdsBelowNext(db) && ForeignKeys(db) && ReconciledByResult(db) && PendingFacts(db, c)
    requires SweptRow(st, db, c, now, p, db')
    requires SideSwept(db0, db, c.side, now - st.unmatchedAfter, listed, resolved)
    ensures SideSwept(db0, db', c.side, now - st.unmatchedAfter, listed + {RefOf(c)}, resolved + 1)
  {
    SweepShrinksBacklog(st, db, c, now, p, db', now - st.unmatchedAfter);
    SweepSettles(st, db, c, now, p, db', RefOf(c));
  }

  /** The rest of the list is still waiting. */
  ghost predicate StillWaiting(db: Db, side: Side, cutoff: int, rest: seq<Facts>) {
    Distinct(rest) && forall f :: f in rest ==> PendingFacts(db, f) && f.side == side && f.received < cutoff
  }

  lemma RowLeavesRest(st: Settings, db: Db, db': Db, now: int, p: Option<Facts>, side: Side, rest: seq<Facts>)
    requires IdsBelowNext(db) && ForeignKeys(db) && ReconciledByResult(db)
    requires rest != [] && StillWaiting(db, side, now - st.unmatchedAfter, rest)
    requires SweptRow(st, db, rest[0], now, p, db')
    ensures StillWaiting(db', side, now - st.unmatchedAfter, rest[1..])
  {
    forall f | f in rest[1..] ensures PendingFacts(db', f) && f.side == side && f.received < now - st.unmatchedAfter {
      assert f in rest && f != rest[0];
      SweepSettles(st, db, rest[0], now, p, db', RefOf(f));
      assert PendingFacts(db, f) && PendingFacts(db, rest[0]);
    }
  }

  /** Where the pass stands after `i` rows of its list. */
  ghost predicate SideProgress(st: Settings, db0: Db, db: Db, side: Side, stale: seq<Facts>, i: nat, now: int)
    requires i <= |stale|
  {
    && StillWaiting(db, side, now - st.unmatchedAfter, stale[i..])
    && SweptInOrder(st, db0, stale[..i], now, db)
    && SideSwept(db0, db, side, now - st.unmatchedAfter, RefsIn(stale[..i]), i)
  }

  lemma RowProgress(st: Settings, db0: Db, db: Db, db': Db, side: Side, stale: seq<Facts>, i: nat, now: int,
                    p: Option<Facts>)
    requires i < |stale| && SideProgress(st, db0, db, side, stale, i, now)
    requires IdsBelowNext(db) && ForeignKeys(db) && ReconciledByResult(db)
    requires SweptRow(st, db, stale[i], now, p, db')
    ensures SideProgress(st, db0, db', side, stale, i + 1, now)
  {
    hide SideSwept, SweptRow, IdsBelowNext, ForeignKeys, ReconciledByResult;
    var c := stale[i];
    assert stale[i..][0] == c && stale[i..][1..] == stale[i + 1..];
    assert PendingFacts(db, c) && c.side == side by { assert c in stale[i..]; }
    RowLeavesRest(st, db, db', now, p, side, stale[i..]);
    RowExtendsSide(st, db0, db, db', c, now, p, RefsIn(stale[..i]), i);
    assert RefsIn(stale[..i + 1]) == RefsIn(stale[..i]) + {RefOf(c)};
    assert AllButLast(stale[..i + 1]) == stale[..i];
    assert SweptOne(st, db, c, now, db');
  }

  lemma SideStarts(st: Settings, db: Db, side: Side, limit: nat, stale: seq<Facts>, now: int)
    requires OldestStale(db, side, now - st.unmatchedAfter, limit, stale)
    ensures SideProgress(st, db, db, side, stale, 0, now)
  {
    assert stale[0..] == stale;
    assert RefsIn([]) == {};
  }

  lemma SideEnds(st: Settings, db0: Db, db: Db, side: Side, stale: seq<Facts>, now: int)
    requires SideProgress(st, db0, db, side, stale, |stale|, now)
    ensures SweptInOrder(st, db0, stale, now, db)
    ensures SideSwept(db0, db, side, now - st.unmatchedAfter, RefsIn(stale), |stale|)
  {
    assert stale[..|stale|] == stale;
  }

  method SweepSide(st: Settings, db: Database, side: Side, limit: nat, now: int)
    returns (resolved: nat, stale: seq<Facts>)
    requires DbInv(st, db.View())
    modifies db
    ensures DbInv(st, db.View())
    ensures OldestStale(old(db.View()), side, now - st.unmatchedAfter, limit, stale)
    ensures resolved == |stale|
    ensures SweptInOrder(st, old(db.View()), stale, now, db.View())
    ensures SideSwept(old(db.View()), db.View(), side, now - st.unmatchedAfter, RefsIn(stale), resolved)
  {
    stale := FindStalePending(db, side, now - st.unmatchedAfter, limit);
    resolved := 0;
    ghost var db0 := db.View();
    SideStarts(st, db0, side, limit, stale, now);
    for i := 0 to |stale|
      invariant DbInv(st, db.View()) && resolved == i
      invariant SideProgress(st, db0, db.View(), side, stale, i, now)
    {
      var written := SweepListed(st, db, db0, side, stale, i, now);
      if written { resolved := resolved + 1; }
    }
    SideEnds(st, db0, db.View(), side, stale, now);
  }

  method SweepListed(st: Settings, db: Database, ghost db0: Db, side: Side, stale: seq<Facts>, i: nat, now: int)
    returns (written: bool)
    requires DbInv(st, db.View()) && i < |stale| && SideProgress(st, db0, db.View(), side, stale, i, now)
    modifies db
    ensures written && DbInv(st, db.View()) && SideProgress(st, db0, db.View(), side, stale, i + 1, now)
  {
    ghost var before := db.View();
    assert PendingFacts(before, stale[i]) && stale[i].received < now - st.unmatchedAfter by {
      assert stale[i] == stale[i..][0];
    }
    var p;
    written, p := SweepRow(st, db, stale[i], now);
    SweepAlwaysWrites(st, before, stale[i], p);
    SweepKeepsInv(st, before, stale[i], now, p, db.View());
    RowProgress(st, db0, before, db.View(), side, stale, i, now, p);
  }

  /** A whole pass: the gateway's list, then the ledger's list as the first left it. */
  ghost predicate Pass(st: Settings, db: Db, limit: nat, now: int, g: seq<Facts>, l: seq<Facts>, db': Db) {
    exists mid ::
      && OldestStale(db, Gateway, now - st.unmatchedAfter, limit, g)
      && SweptInOrder(st, db, g, now, mid)
      && OldestStale(mid, Ledger, now - st.unmatchedAfter, limit, l)
      && SweptInOrder(st, mid, l, now, db')
  }

  function Beyond(n: nat, limit: nat): nat { if n <= limit then 0 else n - limit }

  /** What a pass guarantees about the backlog: each side loses a full batch or everything. */
  ghost predicate PassShrinks(db: Db, db': Db, limit: nat, cutoff: int, resolved: nat) {
    && |StaleRows(db', Gateway, cutoff)| <= Beyond(|StaleRows(db, Gateway, cutoff)|, limit)
    && |StaleRows(db', Ledger, cutoff)| <= Beyond(|StaleRows(db, Ledger, cutoff)|, limit)
    && db'.nextResult == db.nextResult + resolved
    && (resolved == 0 <==> limit == 0 || (StaleRows(db, Gateway, cutoff) == {} && StaleRows(db, Ledger, cutoff) == {}))
  }

  lemma SideCount(db: Db, db': Db, side: Side, cutoff: int, limit: nat, stale: seq<Facts>)
    requires OldestStale(db, side, cutoff, limit, stale)
    requires SideSwept(db, db', side, cutoff, RefsIn(stale), |stale|)
    ensures |StaleRows(db', side, cutoff)| == Beyond(|StaleRows(db, side, cutoff)|, limit)
    ensures |StaleRows(db', Other(side), cutoff)| <= |StaleRows(db, Other(side), cutoff)|
  {
    ListedDiffer(db, stale);
    ListedRefs(stale);
    assert RefsIn(stale) <= StaleRows(db, side, cutoff);
    SubsetCard(StaleRows(db', Other(side), cutoff), StaleRows(db, Other(side), cutoff));
  }

  ghost predicate RefsDiffer(stale: seq<Facts>) {
    forall i, j :: 0 <= i < j < |stale| ==> RefOf(stale[i]) != RefOf(stale[j])
  }

  lemma LastIsNew(stale: seq<Facts>)
    requires RefsDiffer(stale) && stale != []
    ensures RefsDiffer(AllButLast(stale)) && RefOf(Last(stale)) !in RefsIn(AllButLast(stale))
  {
  }

  lemma {:induction false} ListedRefs(stale: seq<Facts>)
    requires RefsDiffer(stale)
    ensures |RefsIn(stale)| == |stale|
  {
    if stale == [] {
      assert RefsIn(stale) == {};
    } else {
      var rest, f := AllButLast(stale), Last(stale);
      assert stale == rest + [f];
      LastIsNew(stale);
      ListedRefs(rest);
      RefsGrow(rest, f);
      hide *;
    }
  }

  lemma ListedDiffer(db: Db, stale: seq<Facts>)
    requires Distinct(stale) && forall f :: f in stale ==> PendingFacts(db, f)
    ensures RefsDiffer(stale)
  {
    forall i, j | 0 <= i < j < |stale| ensures RefOf(stale[i]) != RefOf(stale[j]) {
      assert PendingFacts(db, stale[i]) && PendingFacts(db, stale[j]);
    }
  }

  lemma PassCounts(st: Settings, db: Db, mid: Db, db': Db, limit: nat, cutoff: int, g: seq<Facts>, l: seq<Facts>)
    requires OldestStale(db, Gateway, cutoff, limit, g) && SideSwept(db, mid, Gateway, cutoff, RefsIn(g), |g|)
    requires OldestStale(mid, Ledger, cutoff, limit, l) && SideSwept(mid, db', Ledger, cutoff, RefsIn(l), |l|)
    requires g == [] ==> mid == db
    ensures PassShrinks(db, db', limit, cutoff, |g| + |l|)
  {
    SideCount(db, mid, Gateway, cutoff, limit, g);
    SideCount(mid, db', Ledger, cutoff, limit, l);
    var ng, nl := |StaleRows(db, Gateway, cutoff)|, |StaleRows(mid, Ledger, cutoff)|;
    assert |g| == Min(limit, ng) && |l| == Min(limit, nl);
    assert ng == 0 <==> StaleRows(db, Gateway, cutoff) == {};
    assert nl == 0 <==> StaleRows(mid, Ledger, cutoff) == {};
  }

  /** Retention only takes rows away. */
  lemma RetirementKeepsShrunk(db: Db, db': Db, ts: seq<nat>, limit: nat, cutoff: int, resolved: nat)
    requires PassShrinks(db, db', limit, cutoff, resolved)
    ensures PassShrinks(db, RetireAll(db', ts), limit, cutoff, resolved)
  {
    RetireAllLeavesOthers(db', ts);
    SubsetCard(StaleRows(RetireAll(db', ts), Gateway, cutoff), StaleRows(db', Gateway, cutoff));
    SubsetCard(StaleRows(RetireAll(db', ts), Ledger, cutoff), StaleRows(db', Ledger, cutoff));
  }

  class Sweeper {
    const st: Settings
    const batchLimit: nat
    const demoInterval: int
    const demoRetention: int
    var lastDemoSweep: int

    constructor (st: Settings, batchLimit: nat, demoInterval: int, demoRetention: int)
      ensures this.st == st && this.batchLimit == batchLimit
      ensures this.demoInterval == demoInterval && this.demoRetention == demoRetention && lastDemoSweep == 0
    {
      this.st, this.batchLimit, this.demoInterval, this.demoRetention := st, batchLimit, demoInterval, demoRetention;
      lastDemoSweep := 0;
    }

    /** Retention at most once per interval of the monotonic clock.  A failure inside it is
        swallowed: the tenants deleted before it stay deleted, and the interval is used up. */
    method MaybeSweepDemoAccounts(db: Database, now: int, monotonic: int, failsAt: nat) returns (retired: seq<nat>)
      requires DbInv(st, db.View())
      modifies this`lastDemoSweep, db
      ensures DbInv(st, db.View()) && db.View() == RetireAll(old(db.View()), retired)
      ensures Distinct(retired) && LongestIdleFirst(old(db.View()), retired, now - demoRetention)
      ensures var due := monotonic - old(lastDemoSweep) >= demoInterval;
        && lastDemoSweep == (if due then monotonic else old(lastDemoSweep))
        && |retired| == (if !due || failsAt == 0 then 0
                         else Min(failsAt - 1, Min(batchLimit, |IdleDemos(old(db.View()), now - demoRetention)|)))
    {
      hide DbInv, LongestIdleFirst;
      NobodyListed(db.View(), now - demoRetention);
      if monotonic - lastDemoSweep < demoInterval {
        return [];
      }
      lastDemoSweep := monotonic;
      ghost var db0 := db.View();
      var deleted, stale, raised := SweepDemoAccounts(st, db, now - demoRetention, batchLimit, failsAt);
      retired := stale[..deleted];
      PrefixIsLongestIdle(db0, stale, now - demoRetention, deleted);
    }

    /** One pass over both sides, then retention when it is due. */
    method SweepOnce(db: Database, now: int, monotonic: int, failsAt: nat)
      returns (resolved: nat, g: seq<Facts>, l: seq<Facts>, retired: seq<nat>, ghost swept: Db)
      requires DbInv(st, db.View())
      modifies this`lastDemoSweep, db
      ensures DbInv(st, db.View())
      ensures Pass(st, old(db.View()), batchLimit, now, g, l, swept) && db.View() == RetireAll(swept, retired)
      ensures resolved == |g| + |l|
      ensures PassShrinks(old(db.View()), db.View(), batchLimit, now - st.unmatchedAfter, resolved)
      ensures Distinct(retired) && LongestIdleFirst(swept, retired, now - demoRetention)
      ensures var due := monotonic - old(lastDemoSweep) >= demoInterval;
        && lastDemoSweep == (if due then monotonic else old(lastDemoSweep))
        && |retired| == (if !due || failsAt == 0 then 0
                         else Min(failsAt - 1, Min(batchLimit, |IdleDemos(swept, now - demoRetention)|)))
    {
      hide DbInv, OldestStale, SideSwept, PassShrinks;
      ghost var db0 := db.View();
      var resolvedG, resolvedL;
      resolvedG, g := SweepSide(st, db, Gateway, batchLimit, now);
      ghost var mid := db.View();
      resolvedL, l := SweepSide(st, db, Ledger, batchLimit, now);
      swept := db.View();
      resolved := resolvedG + resolvedL;
      PassCounts(st, db0, mid, swept, batchLimit, now - st.unmatchedAfter, g, l);
      retired := MaybeSweepDemoAccounts(db, now, monotonic, failsAt);
      RetirementKeepsShrunk(db0, swept, retired, batchLimit, now - st.unmatchedAfter, resolved);
    }
  }

  function CeilDiv(n: nat, d: nat): nat
    requires d >= 1
  {
    (n + d - 1) / d
  }

  function Max(a: nat, b: nat): nat { if a < b then b else a }

  lemma CeilCovers(n: nat, d: nat, k: nat)
    requires d >= 1 && k >= CeilDiv(n, d)
    ensures n <= k * d
  {
    assert CeilDiv(n, d) * d >= n;
    assert k * d >= CeilDiv(n, d) * d;
  }

  lemma PassBudget(before: nat, after: nat, start: nat, k: nat, d: nat)
    requires before <= Beyond(start, k * d) && after <= Beyond(before, d)
    ensures after <= Beyond(start, (k + 1) * d)
  {
    assert (k + 1) * d == k * d + d;
  }

  /** No row of either side is stale once a sweep has drained. */
  ghost predicate Drained(db: Db, cutoff: int) {
    StaleRows(db, Gateway, cutoff) == {} && StaleRows(db, Ledger, cutoff) == {}
  }

  /** The tables after `n` passes one after the other, each followed by what retention took. */
  ghost predicate SweptPasses(st: Settings, db: Db, n: nat, limit: nat, now: int, retention: int, db': Db) {
    if n == 0 then db' == db
    else exists mid, g, l, swept, ts ::
           && SweptPasses(st, db, n - 1, limit, now, retention, mid)
           && Pass(st, mid, limit, now, g, l, swept)
           && LongestIdleFirst(swept, ts, now - retention)
           && db' == RetireAll(swept, ts)
  }

  lemma OneMorePass(st: Settings, db: Db, n: nat, limit: nat, now: int, retention: int, mid: Db, g: seq<Facts>,
                    l: seq<Facts>, swept: Db, ts: seq<nat>)
    requires SweptPasses(st, db, n, limit, now, retention, mid) && Pass(st, mid, limit, now, g, l, swept)
    requires LongestIdleFirst(swept, ts, now - retention)
    ensures SweptPasses(st, db, n + 1, limit, now, retention, RetireAll(swept, ts))
  {
    hide Pass, LongestIdleFirst, RetireAll;
  }

  lemma NoPasses(st: Settings, db: Db, limit: nat, now: int, retention: int)
    ensures SweptPasses(st, db, 0, limit, now, retention, db)
  {
  }

  /** The scheduled form: passes until one resolves nothing, or the budget runs out.  In pass k
      retention fails at its transaction `failsAt(k)`. */
  method Sweep(sweeper: Sweeper, db: Database, now: int, monotonic: int, maxPasses: nat, failsAt: nat -> nat)
    returns (total: nat, passes: nat, drained: bool)
    requires DbInv(sweeper.st, db.View())
    modifies sweeper`lastDemoSweep, db
    ensures DbInv(sweeper.st, db.View())
    ensures SweptPasses(sweeper.st, old(db.View()), passes, sweeper.batchLimit, now, sweeper.demoRetention, db.View())
    ensures db.View().nextResult == old(db.View()).nextResult + total
    ensures passes <= maxPasses && (!drained ==> passes == maxPasses)
    ensures drained && sweeper.batchLimit >= 1 ==> Drained(db.View(), now - sweeper.st.unmatchedAfter)
    ensures var cutoff, b := now - sweeper.st.unmatchedAfter, sweeper.batchLimit;
      && b >= 1
      && maxPasses > CeilDiv(|StaleRows(old(db.View()), Gateway, cutoff)|, b)
      && maxPasses > CeilDiv(|StaleRows(old(db.View()), Ledger, cutoff)|, b)
      ==> drained
  {
    hide DbInv, Pass, LongestIdleFirst, RetireAll, SweptPasses;
    NoPasses(sweeper.st, db.View(), sweeper.batchLimit, now, sweeper.demoRetention);
    total, passes, drained := 0, 0, false;
    ghost var cutoff, b := now - sweeper.st.unmatchedAfter, sweeper.batchLimit;
    ghost var g, l := |StaleRows(db.View(), Gateway, cutoff)|, |StaleRows(db.View(), Ledger, cutoff)|;
    while passes < maxPasses
      invariant DbInv(sweeper.st, db.View()) && passes <= maxPasses && !drained
      invariant SweptPasses(sweeper.st, old(db.View()), passes, sweeper.batchLimit, now, sweeper.demoRetention,
        db.View())
      invariant db.View().nextResult == old(db.View()).nextResult + total
      invariant |StaleRows(db.View(), Gateway, cutoff)| <= Beyond(g, passes * b)
      invariant |StaleRows(db.View(), Ledger, cutoff)| <= Beyond(l, passes * b)
      invariant passes > 0 ==> (passes - 1) * b < g || (passes - 1) * b < l
      decreases maxPasses - passes
    {
      ghost var before := db.View();
      var resolved, gs, ls, retired, swept := sweeper.SweepOnce(db, now, monotonic, failsAt(passes));
      OneMorePass(sweeper.st, old(db.View()), passes, sweeper.batchLimit, now, sweeper.demoRetention, before, gs, ls,
        swept, retired);
      PassBudget(|StaleRows(before, Gateway, cutoff)|, |StaleRows(db.View(), Gateway, cutoff)|, g, passes, b);
      PassBudget(|StaleRows(before, Ledger, cutoff)|, |StaleRows(db.View(), Ledger, cutoff)|, l, passes, b);
      passes := passes + 1;
      total := total + resolved;
      if resolved == 0 {
        drained := true;
        break;
      }
    }
    if b >= 1 && !drained && passes > 0 && passes - 1 >= Max(CeilDiv(g, b), CeilDiv(l, b)) {
      CeilCovers(g, b, passes - 1);
      CeilCovers(l, b, passes - 1);
      assert false;
    }
  }
}
