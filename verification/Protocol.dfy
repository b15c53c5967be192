/** The whole system as a state machine: clients ingest, relays move outbox rows to the
    stream, workers and sweepers read and commit in separate steps, anything may crash
    between two steps, and retention may delete a demo tenant at any time.

    Each step is one database statement or transaction, or one Redis command.  Reading
    counterparties and committing a decision are two steps, so other steps may come between
    and the decision in hand may be stale.  Identity columns may skip values (`Burn`), the
    stream may drop entries (`Trim`), and a lost consumer group is recreated from the start of
    the stream, which delivers entries again that were acked long ago (`Regroup`). */
module Protocol {
  import opened Basics
  import opened Matching
  import opened Tables

  /** A stream entry; `event` remembers which outbox row it was published from. */
  datatype Entry = Entry(event: nat, msg: Message)

  /** A relay's open transaction: the rows it locked, and how many it has published. */
  datatype Claimed = Claimed(events: seq<nat>, done: nat)

  /** What a worker or sweeper process is in the middle of. */
  datatype Task =
    | Working(entry: nat, item: Entry, intent: Option<Intent>)
    | Acking(entry: nat)
    | Listing(queue: seq<Facts>)
    | Sweeping(target: Intent, rest: seq<Facts>)

  /** `log` holds every entry ever added; an entry is still in Redis for the group while it is
      undelivered or in the pending list.  `processed` and `deferred` record history that no
      step reads: the events a transaction has finished with, and the rows whose
      first-receipt message found no counterparty. */
  datatype Sys = Sys(
    db: Db,
    now: int,
    log: map<nat, Entry>,
    nextEntry: nat,
    undelivered: set<nat>,
    inFlight: map<nat, nat>,
    relays: map<nat, Claimed>,
    agents: map<nat, Task>,
    processed: set<nat>,
    deferred: set<Ref>)

  datatype Step =
    | Tick(to: int)
    | CreateAccount(id: nat, kind: Kind)
    | TouchAccount(id: nat)
    | Burn(gateway: nat, ledger: nat, result: nat, cse: nat, event: nat)
    | IngestKey(ref: Ref, tenant: nat, sub: Submission, count: nat)
    | RelayClaim(relay: nat, events: seq<nat>)
    | RelayPublish(relay: nat)
    | RelayCommit(relay: nat)
    | RelayCrash(relay: nat)
    | Deliver(agent: nat, entry: nat)
    | Claim(agent: nat, entry: nat)
    | WorkerRead(agent: nat, entry: nat, partner: Option<Facts>)
    | WorkerCommit(agent: nat)
    | Ack(agent: nat)
    | Crash(agent: nat)
    | SweepList(agent: nat, side: Side, queue: seq<Facts>)
    | SweepRead(agent: nat, partner: Option<Facts>)
    | SweepCommit(agent: nat)
    | CloseException(tenant: nat, id: nat, notes: string)
    | Retire(tenant: nat)
    | Trim(entry: nat)
    | Regroup(entries: set<nat>)

  predicate Distinct<T(==)>(s: seq<T>) { forall i, j :: 0 <= i < j < |s| ==> s[i] != s[j] }

  predicate Locked(s: Sys, event: nat) {
    exists r :: r in s.relays && event in s.relays[r].events
  }

  /** Still awaiting a counterparty past the unmatched window. */
  predicate Stale(st: Settings, s: Sys, f: Facts) {
    PendingFacts(s.db, f) && f.received < s.now - st.unmatchedAfter
  }

  predicate Enabled(st: Settings, s: Sys, step: Step) {
    match step
    case Tick(to) => s.now <= to
    case CreateAccount(id, _) => id !in s.db.accounts
    case TouchAccount(id) => id in s.db.accounts
    case Burn(g, l, r, c, e) =>
      s.db.nextGateway <= g && s.db.nextLedger <= l && s.db.nextResult <= r && s.db.nextCase <= c && s.db.nextEvent <= e
    case IngestKey(ref, tenant, sub, count) =>
      && tenant in s.db.accounts && count >= 1 && (ref.side.Gateway? ==> count == 1)
      && LandsOn(s.db, tenant, ref.side, sub.key, ref)
    case RelayClaim(r, events) =>
      && r !in s.relays && Distinct(events)
      && forall e :: e in events ==>
           e in s.db.outbox && s.db.outbox[e].publishedAt.None? && !Locked(s, e)
    case RelayPublish(r) =>
      && r in s.relays && s.relays[r].done < |s.relays[r].events|
      && s.relays[r].events[s.relays[r].done] in s.db.outbox
    case RelayCommit(r) => r in s.relays && s.relays[r].done == |s.relays[r].events|
    case RelayCrash(r) => r in s.relays
    case Deliver(_, n) => n in s.undelivered
    case Claim(_, n) => n in s.inFlight
    case WorkerRead(a, n, partner) =>
      && a !in s.agents && n in s.log && n in s.inFlight && s.inFlight[n] == a
      && var msg := s.log[n].msg;
         if MessageRef(msg) in s.db.rows && !msg.isDuplicate
         then var c := s.db.rows[MessageRef(msg)].facts;
              BestPartner(c, Candidates(s.db, c, st.cfg), st.cfg, partner)
         else partner.None?
    case WorkerCommit(a) => a in s.agents && s.agents[a].Working? && IntentUsable(st, s.agents[a].intent)
    case Ack(a) => a in s.agents && s.agents[a].Acking?
    case Crash(a) => a in s.agents
    case SweepList(a, side, queue) =>
      a !in s.agents && forall f :: f in queue ==> f.side == side && Stale(st, s, f)
    case SweepRead(a, partner) =>
      && a in s.agents && s.agents[a].Listing? && s.agents[a].queue != []
      && var c := s.agents[a].queue[0];
         BestPartner(c, Candidates(s.db, c, st.cfg), st.cfg, partner)
    case SweepCommit(a) => a in s.agents && s.agents[a].Sweeping? && IntentUsable(st, Some(s.agents[a].target))
    case CloseException(_, _, _) => true
    case Retire(t) => t in s.db.accounts && s.db.accounts[t].kind == Demo
    case Trim(n) => n in s.undelivered || n in s.inFlight
    case Regroup(entries) => entries <= s.log.Keys && s.undelivered <= entries && s.inFlight.Keys <= entries
  }

  /** A pairing in hand was classified when it was read. */
  predicate IntentUsable(st: Settings, i: Option<Intent>) {
    i.Some? && i.value.Pair? ==> Viable(i.value.candidate, i.value.partner, st.cfg)
  }

  function ReadTask(s: Sys, n: nat, partner: Option<Facts>): Task
    requires n in s.log
  {
    var item := s.log[n];
    if MessageRef(item.msg) !in s.db.rows then Acking(n)
    else
      var c := s.db.rows[MessageRef(item.msg)].facts;
      if item.msg.isDuplicate then Working(n, item, Some(Mark(c)))
      else if partner.Some? then Working(n, item, Some(Pair(c, partner.value)))
      else Working(n, item, None)
  }

  function Publish(s: Sys, r: nat): Sys
    requires Enabled(Settings(DEFAULT_CONFIG, 0), s, RelayPublish(r))
  {
    var claim := s.relays[r];
    var e := claim.events[claim.done];
    s.(log := s.log[s.nextEntry := Entry(e, s.db.outbox[e].msg)],
       undelivered := s.undelivered + {s.nextEntry},
       nextEntry := s.nextEntry + 1,
       relays := s.relays[r := claim.(done := claim.done + 1)])
  }

  function MarkPublished(db: Db, events: seq<nat>, now: int): Db {
    db.(outbox := map e | e in db.outbox ::
          if e in events then db.outbox[e].(publishedAt := Some(now), attempts := db.outbox[e].attempts + 1)
          else db.outbox[e])
  }

  function Read(s: Sys, a: nat, n: nat, partner: Option<Facts>): Sys
    requires n in s.log
  {
    var task := ReadTask(s, n, partner);
    s.(agents := s.agents[a := task],
       processed := if task.Acking? then s.processed + {s.log[n].event} else s.processed,
       deferred := if task.Working? && task.intent.None? then s.deferred + {MessageRef(s.log[n].msg)} else s.deferred)
  }

  function Commit(st: Settings, s: Sys, a: nat): Sys
    requires Enabled(st, s, WorkerCommit(a))
  {
    var t := s.agents[a];
    var done := s.(agents := s.agents[a := Acking(t.entry)], processed := s.processed + {t.item.event});
    if t.intent.None? then done
    else
      var d, tenant := DecisionOf(t.intent.value, st.cfg), t.intent.value.candidate.tenant;
      if OutcomeOf(s.db, d, tenant).Aborted? then s.(agents := s.agents - {a})
      else done.(db := Apply(s.db, d, tenant, s.now))
  }

  function CommitSweep(st: Settings, s: Sys, a: nat): Sys
    requires Enabled(st, s, SweepCommit(a))
  {
    var t := s.agents[a];
    var d, tenant := DecisionOf(t.target, st.cfg), t.target.candidate.tenant;
    if OutcomeOf(s.db, d, tenant).Aborted? then s.(agents := s.agents - {a})
    else s.(agents := s.agents[a := Listing(t.rest)], db := Apply(s.db, d, tenant, s.now))
  }

  function SweepIntent(c: Facts, partner: Option<Facts>): Intent {
    if partner.Some? then Pair(c, partner.value) else GiveUp(c)
  }

  function Exec(st: Settings, s: Sys, step: Step): Sys
    requires Enabled(st, s, step)
  {
    match step
    case Tick(to) => s.(now := to)
    case CreateAccount(id, kind) => s.(db := s.db.(accounts := s.db.accounts[id := Account(kind, s.now)]))
    case TouchAccount(id) =>
      s.(db := s.db.(accounts := s.db.accounts[id := s.db.accounts[id].(lastSeen := s.now)]))
    case Burn(g, l, r, c, e) =>
      s.(db := s.db.(nextGateway := g, nextLedger := l, nextResult := r, nextCase := c, nextEvent := e))
    case IngestKey(ref, tenant, sub, count) => s.(db := Ingest(s.db, ref, tenant, sub, count, s.now))
    case RelayClaim(r, events) => s.(relays := s.relays[r := Claimed(events, 0)])
    case RelayPublish(r) => Publish(s, r)
    case RelayCommit(r) =>
      s.(db := MarkPublished(s.db, s.relays[r].events, s.now), relays := s.relays - {r})
    case RelayCrash(r) => s.(relays := s.relays - {r})
    case Deliver(a, n) => s.(undelivered := s.undelivered - {n}, inFlight := s.inFlight[n := a])
    case Claim(a, n) => s.(inFlight := s.inFlight[n := a])
    case WorkerRead(a, n, partner) => Read(s, a, n, partner)
    case WorkerCommit(a) => Commit(st, s, a)
    case Ack(a) => s.(inFlight := s.inFlight - {s.agents[a].entry}, agents := s.agents - {a})
    case Crash(a) => s.(agents := s.agents - {a})
    case SweepList(a, side, queue) => s.(agents := s.agents[a := Listing(queue)])
    case SweepRead(a, partner) =>
      var queue := s.agents[a].queue;
      s.(agents := s.agents[a := Sweeping(SweepIntent(queue[0], partner), queue[1..])])
    case SweepCommit(a) => CommitSweep(st, s, a)
    case CloseException(t, c, notes) => s.(db := CloseCase(s.db, t, c, notes, s.now))
    case Retire(t) => s.(db := DeleteTenant(s.db, t))
    case Trim(n) => s.(undelivered := s.undelivered - {n}, inFlight := s.inFlight - {n})
    case Regroup(entries) => s.(undelivered := entries, inFlight := map[])
  }

  const EMPTY_DB := Db(map[], map[], map[], map[], map[], 0, 0, 0, 0, 0)

  predicate Init(s: Sys) {
    && s.db == EMPTY_DB
    && s.log == map[] && s.nextEntry == 0
    && s.undelivered == {} && s.inFlight == map[] && s.relays == map[] && s.agents == map[]
    && s.processed == {} && s.deferred == {}
  }

  predicate Next(st: Settings, s: Sys, step: Step, s': Sys) {
    Enabled(st, s, step) && s' == Exec(st, s, step)
  }

  /** A run: any finite sequence of enabled steps from the empty system. */
  datatype Run = Run(states: seq<Sys>, steps: seq<Step>)

  predicate IsRun(st: Settings, run: Run) {
    && |run.states| == |run.steps| + 1
    && Init(run.states[0])
    && forall i :: 0 <= i < |run.steps| ==> Next(st, run.states[i], run.steps[i], run.states[i + 1])
  }

  /** The steps are enabled one after the other from `s` and lead to `s'`. */
  predicate Leads(st: Settings, s: Sys, steps: seq<Step>, s': Sys)
    decreases |steps|
  {
    if steps == [] then s' == s
    else Enabled(st, s, steps[0]) && Leads(st, Exec(st, s, steps[0]), steps[1..], s')
  }

  lemma LeadsFirst(st: Settings, s: Sys, step: Step, rest: seq<Step>, s': Sys)
    requires Enabled(st, s, step) && Leads(st, Exec(st, s, step), rest, s')
    ensures Leads(st, s, [step] + rest, s')
  {
    assert ([step] + rest)[1..] == rest;
    hide Enabled, Exec;
  }
}
