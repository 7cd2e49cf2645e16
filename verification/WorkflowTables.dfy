/**
 * The five shared tables of the research work queue and the atomic batches that write them.
 *
 * A `Batch` is one database transaction with its bound parameters; `Execute` says what it does:
 * it commits, or a uniqueness constraint rolls it back. Nothing here depends on what its caller
 * read beforehand, so every invariant below holds for batches in any order, with any
 * parameters and any clocks.
 *
 * Digests stand for SHA-256 values, taken as injective; fresh random ids come from `nextId`.
 */
module WorkflowTables {
  import opened Basics
  import opened ReceiptLog

  const LEASE_TTL := 3_600_000

  datatype SubmitReason = CONFLICT | SECOND_RESULT | LEASE_INVALID | VALIDATION_FAILED
  datatype DeferReason = RECHECK_REQUIRED | UPSTREAM_UNAVAILABLE | NEEDS_OWNER_INPUT
  datatype Origin = CHATGPT | SYNTHETIC | REPLAY

  datatype Lease = Lease(owner: Principal, token: int, claimedAt: int, expiresAt: int, count: int)

  datatype Terminal = Terminal(proposal: int, completedAt: int)

  datatype Status = RECEIVED | REJECTED(reason: SubmitReason)

  /** `request` is the id of the call whose batch wrote the row. */
  datatype Proposal = Proposal(
    id: int, job: int, caller: Principal, origin: Origin, status: Status, digest: int, createdAt: int, request: int)

  /** The action a defer key is bound to; its canonical digest is modelled by the value itself. */
  datatype DeferAction = DeferAction(job: int, owner: Principal, generation: int, reason: DeferReason, recheckAt: int)

  datatype Deferral = Deferral(
    key: int, owner: Principal, reason: DeferReason, recheckAt: int, deferredAt: int, request: int,
    action: Option<DeferAction>)

  /** Leases, terminals and deferrals are keyed by job; proposals by their unique idempotency key. */
  datatype Db = Db(
    leases: map<int, Lease>, terminals: map<int, Terminal>, proposals: map<int, Proposal>,
    deferrals: map<int, Deferral>, log: Log, nextId: int)

  const EMPTY := Db(map[], map[], map[], map[], Log([], map[], 1), 0)

  datatype Batch =
    | Claim(job: int, owner: Principal, now: int, request: int)
    | Deny(job: int, owner: Principal, now: int, request: int)
    | Conflict(job: int, existing: int, owner: Principal, now: int, request: int)
    | Reject(job: int, key: int, owner: Principal, origin: Origin, digest: int, reason: SubmitReason,
             now: int, request: int)
    | Accept(job: int, key: int, owner: Principal, generation: int, digest: int, now: int, request: int)
    | AcceptSynthetic(job: int, key: int, owner: Principal, origin: Origin, digest: int, now: int, request: int)
    | Defer(job: int, key: int, owner: Principal, generation: int, why: DeferReason, recheckAt: int,
            now: int, request: int)

  // ---------------------------------------------------------------------------------------
  // Predicates repeated inside the batches
  // ---------------------------------------------------------------------------------------

  predicate ActiveDeferral(db: Db, job: int, now: int) {
    job in db.deferrals && db.deferrals[job].recheckAt > now
  }

  predicate LiveLease(db: Db, job: int, now: int) {
    job in db.leases && db.leases[job].expiresAt > now
  }

  /** The caller's still-effective fenced lease. */
  predicate Holds(db: Db, job: int, owner: Principal, generation: int, now: int) {
    LiveLease(db, job, now) && db.leases[job].owner == owner && db.leases[job].count == generation
  }

  predicate Preemptable(db: Db, job: int, now: int) {
    job !in db.terminals && !ActiveDeferral(db, job, now) && !LiveLease(db, job, now)
  }

  predicate IsFormalResult(p: Proposal, job: int) {
    p.job == job && p.origin == CHATGPT && p.status == RECEIVED
  }

  predicate HasFormalResult(db: Db, job: int) {
    exists k :: k in db.proposals && IsFormalResult(db.proposals[k], job)
  }

  predicate DeferKeyUsed(db: Db, key: int) {
    exists j :: j in db.deferrals && db.deferrals[j].key == key
  }

  // ---------------------------------------------------------------------------------------
  // Effects
  // ---------------------------------------------------------------------------------------

  function Emit(db: Db, job: int, kind: EventKind, actor: Principal, proposal: Option<int>, request: int, at: int): Db {
    db.(log := Append(db.log, Event(db.nextId, job, kind, actor, proposal, request, at)), nextId := db.nextId + 1)
  }

  function NewLease(db: Db, job: int, owner: Principal, token: int, now: int): Lease {
    Lease(owner, token, now, now + LEASE_TTL, if job in db.leases then db.leases[job].count + 1 else 1)
  }

  /** The first id a batch draws: the claim token or the proposal id. */
  function Drawn(db: Db): int { db.nextId }

  function Draw(db: Db): Db { db.(nextId := db.nextId + 1) }

  /** The first claim statement: audit the expired lease that is about to be overwritten. */
  function AuditExpiry(db: Db, b: Batch): Db
    requires b.Claim?
  {
    if b.job in db.leases
    then Emit(Draw(db), b.job, LEASE_EXPIRED, db.leases[b.job].owner, None, b.request, b.now)
    else Draw(db)
  }

  /** The second: grant or take over. */
  function Grant(db: Db, b: Batch): Db
    requires b.Claim?
  {
    AuditExpiry(db, b).(leases := db.leases[b.job := NewLease(db, b.job, b.owner, Drawn(db), b.now)])
  }

  function DoClaim(db: Db, b: Batch): Db
    requires b.Claim?
  {
    if Preemptable(db, b.job, b.now) then Emit(Grant(db, b), b.job, CLAIMED, b.owner, None, b.request, b.now)
    else Draw(db)
  }

  predicate Completes(db: Db, b: Batch) {
    b.Accept? && Holds(db, b.job, b.owner, b.generation, b.now) && b.job !in db.terminals
  }

  /** The proposal row a batch binds. */
  function RowOf(db: Db, b: Batch): Proposal
    requires b.Reject? || b.Accept? || b.AcceptSynthetic?
  {
    Proposal(Drawn(db), b.job, b.owner, if b.Accept? then CHATGPT else b.origin,
             if b.Reject? then REJECTED(b.reason) else RECEIVED, b.digest, b.now, b.request)
  }

  /** The three row changes of a formal accept. */
  function StoreResult(db: Db, b: Batch): Db
    requires b.Accept?
  {
    Draw(db).(proposals := db.proposals[b.key := RowOf(db, b)],
              terminals := db.terminals[b.job := Terminal(Drawn(db), b.now)],
              leases := db.leases - {b.job})
  }

  function AuditReceipt(db: Db, b: Batch): Db
    requires b.Accept?
  {
    Emit(StoreResult(db, b), b.job, SUBMIT_RECEIVED, b.owner, Some(Drawn(db)), b.request, b.now)
  }

  function DoAccept(db: Db, b: Batch): Db
    requires b.Accept?
  {
    if Completes(db, b) then
      Emit(AuditReceipt(db, b), b.job, COMPLETED, b.owner, Some(Drawn(db)), b.request, b.now)
    else if Holds(db, b.job, b.owner, b.generation, b.now) then Draw(db).(leases := db.leases - {b.job})
    else Draw(db)
  }

  /** The row changes of the two other proposal batches. */
  function StoreProposal(db: Db, b: Batch): Db
    requires b.Reject? || b.AcceptSynthetic?
  {
    Draw(db).(proposals := db.proposals[b.key := RowOf(db, b)],
              leases := if b.AcceptSynthetic? then db.leases - {b.job} else db.leases)
  }

  function ActionOf(b: Batch): DeferAction
    requires b.Defer?
  {
    DeferAction(b.job, b.owner, b.generation, b.why, b.recheckAt)
  }

  function DoDefer(db: Db, b: Batch): Db
    requires b.Defer?
  {
    if !Holds(db, b.job, b.owner, b.generation, b.now) then db
    else
      var gone := db.(leases := db.leases - {b.job});
      if b.job in db.terminals then gone
      else gone.(deferrals := gone.deferrals[b.job :=
             Deferral(b.key, b.owner, b.why, b.recheckAt, b.now, b.request, Some(ActionOf(b)))])
  }

  /** A uniqueness constraint stops the batch and rolls it back. */
  predicate Violates(db: Db, b: Batch) {
    match b
    case Claim(_, _, _, _) => false
    case Deny(_, _, _, _) => false
    case Conflict(_, _, _, _, _) => false
    case Reject(_, key, _, _, _, _, _, _) => key in db.proposals
    case AcceptSynthetic(_, key, _, _, _, _, _) => key in db.proposals
    case Accept(job, key, _, _, _, _, _) => Completes(db, b) && (key in db.proposals || HasFormalResult(db, job))
    case Defer(job, key, owner, generation, _, _, now, _) =>
      && Holds(db, job, owner, generation, now) && job !in db.terminals
      && (job in db.deferrals || DeferKeyUsed(db, key))
  }

  /** A defer batch binds no fresh id; every other one has drawn its own before it is stopped. */
  function Execute(db: Db, b: Batch): Db {
    if Violates(db, b) then (if b.Defer? then db else Draw(db))
    else match b
      case Claim(_, _, _, _) => DoClaim(db, b)
      case Deny(job, owner, now, request) => Emit(db, job, CLAIM_DENIED, owner, None, request, now)
      case Conflict(job, existing, owner, now, request) =>
        Emit(db, job, SUBMIT_CONFLICT, owner, Some(existing), request, now)
      case Reject(job, _, owner, _, _, _, now, request) =>
        Emit(StoreProposal(db, b), job, SUBMIT_REJECTED, owner, Some(Drawn(db)), request, now)
      case Accept(_, _, _, _, _, _, _) => DoAccept(db, b)
      case AcceptSynthetic(job, _, owner, _, _, now, request) =>
        Emit(StoreProposal(db, b), job, SUBMIT_RECEIVED, owner, Some(Drawn(db)), request, now)
      case Defer(_, _, _, _, _, _, _, _) => DoDefer(db, b)
  }

  /** What the code guarantees of the parameters it binds, whatever it read before. */
  predicate WellBound(b: Batch) {
    && (b.AcceptSynthetic? ==> b.origin != CHATGPT)
    && (b.Reject? ==> b.reason != CONFLICT)
  }

  // ---------------------------------------------------------------------------------------
  // Invariants of the tables
  // ---------------------------------------------------------------------------------------

  ghost predicate LogInv(db: Db) {
    Numbered(db.log) && forall id :: id in db.log.order ==> id < db.nextId
  }

  ghost predicate ProposalInv(db: Db) {
    && (forall k :: k in db.proposals ==> db.proposals[k].id < db.nextId)
    && (forall k, l :: k in db.proposals && l in db.proposals && k != l ==> db.proposals[k].id != db.proposals[l].id)
    && (forall k :: k in db.proposals ==> db.proposals[k].status != REJECTED(CONFLICT))
  }

  /** A terminal row exists iff the job has exactly one formal result, and names that result. */
  ghost predicate TerminalInv(db: Db) {
    && (forall j :: j in db.terminals ==> HasFormalResult(db, j))
    && (forall k :: k in db.proposals && IsFormalResult(db.proposals[k], db.proposals[k].job) ==>
          db.proposals[k].job in db.terminals
          && db.terminals[db.proposals[k].job] == Terminal(db.proposals[k].id, db.proposals[k].createdAt))
    && (forall j :: j in db.terminals ==> j !in db.leases)
  }

  ghost predicate LeaseInv(db: Db) {
    && (forall j :: j in db.leases ==>
          db.leases[j].expiresAt == db.leases[j].claimedAt + LEASE_TTL && db.leases[j].count >= 1
          && db.leases[j].token < db.nextId)
    && (forall i, j :: i in db.leases && j in db.leases && i != j ==> db.leases[i].token != db.leases[j].token)
    && (forall j :: j in db.leases && j in db.deferrals ==> db.deferrals[j].recheckAt <= db.leases[j].claimedAt)
  }

  /** The action is the one the row states. */
  predicate BoundTo(action: DeferAction, job: int, row: Deferral) {
    action.job == job && action.owner == row.owner && action.reason == row.reason && action.recheckAt == row.recheckAt
  }

  ghost predicate DeferralInv(db: Db) {
    && (forall i, j :: i in db.deferrals && j in db.deferrals && i != j ==> db.deferrals[i].key != db.deferrals[j].key)
    && (forall j :: j in db.deferrals && db.deferrals[j].action.Some? ==>
          BoundTo(db.deferrals[j].action.value, j, db.deferrals[j]))
  }

  ghost predicate Inv(db: Db) {
    LogInv(db) && ProposalInv(db) && TerminalInv(db) && LeaseInv(db) && DeferralInv(db)
  }

  lemma {:induction false} EmptyInv()
    ensures Inv(EMPTY)
  {
    assert IsFeed(EMPTY.log, []);
  }

  lemma {:induction false} EmitLogInv(db: Db, job: int, kind: EventKind, actor: Principal,
          proposal: Option<int>, request: int, at: int)
    requires LogInv(db)
    ensures LogInv(Emit(db, job, kind, actor, proposal, request, at))
  {
    hide IsFeed;
    AppendFeed(db.log, Feed(db.log), Event(db.nextId, job, kind, actor, proposal, request, at));
  }

  lemma {:induction false} ExecuteKeepsLog(db: Db, b: Batch)
    requires LogInv(db)
    ensures LogInv(Execute(db, b))
  {
    hide Numbered;
    if Violates(db, b) {
      return;
    }
    match b
    case Claim(_, _, _, _) =>
      if Preemptable(db, b.job, b.now) {
        if b.job in db.leases {
          EmitLogInv(Draw(db), b.job, LEASE_EXPIRED, db.leases[b.job].owner, None, b.request, b.now);
        }
        EmitLogInv(Grant(db, b), b.job, CLAIMED, b.owner, None, b.request, b.now);
      }
    case Deny(job, owner, now, request) => EmitLogInv(db, job, CLAIM_DENIED, owner, None, request, now);
    case Conflict(job, existing, owner, now, request) =>
      EmitLogInv(db, job, SUBMIT_CONFLICT, owner, Some(existing), request, now);
    case Reject(job, _, owner, _, _, _, now, request) =>
      EmitLogInv(StoreProposal(db, b), job, SUBMIT_REJECTED, owner, Some(Drawn(db)), request, now);
    case AcceptSynthetic(job, _, owner, _, _, now, request) =>
      EmitLogInv(StoreProposal(db, b), job, SUBMIT_RECEIVED, owner, Some(Drawn(db)), request, now);
    case Accept(_, _, _, _, _, _, _) =>
      if Completes(db, b) {
        EmitLogInv(StoreResult(db, b), b.job, SUBMIT_RECEIVED, b.owner, Some(Drawn(db)), b.request, b.now);
        EmitLogInv(AuditReceipt(db, b), b.job, COMPLETED, b.owner, Some(Drawn(db)), b.request, b.now);
      }
    case Defer(_, _, _, _, _, _, _, _) =>
  }

  /** Whether the batch leaves its proposal row behind. */
  predicate Stores(db: Db, b: Batch) {
    (b.Reject? || b.AcceptSynthetic? || Completes(db, b)) && !Violates(db, b)
  }

  /** The whole effect on proposals and terminals: one row each, or nothing. */
  lemma {:induction false} StoredRows(db: Db, b: Batch)
    ensures Execute(db, b).proposals == if Stores(db, b) then db.proposals[b.key := RowOf(db, b)] else db.proposals
    ensures Execute(db, b).terminals ==
      if Stores(db, b) && b.Accept? then db.terminals[b.job := Terminal(Drawn(db), b.now)] else db.terminals
    ensures Stores(db, b) ==> b.key !in db.proposals && Execute(db, b).nextId > Drawn(db)
    ensures Stores(db, b) && b.Accept? ==> b.job !in db.terminals && !HasFormalResult(db, b.job)
    ensures Execute(db, b).nextId >= db.nextId
  {
    hide HasFormalResult, DeferKeyUsed, Append;
  }

  lemma {:induction false} ExecuteKeepsProposals(db: Db, b: Batch)
    requires ProposalInv(db) && WellBound(b)
    ensures ProposalInv(Execute(db, b))
  {
    hide Execute, Violates;
    StoredRows(db, b);
  }

  lemma {:induction false} ExecuteKeepsTerminals(db: Db, b: Batch)
    requires TerminalInv(db) && WellBound(b)
    ensures TerminalInv(Execute(db, b))
  {
    hide Execute, Violates;
    StoredRows(db, b);
    var t := Execute(db, b);
    forall j | j in t.terminals ensures HasFormalResult(t, j) {
      if j in db.terminals {
        var k :| k in db.proposals && IsFormalResult(db.proposals[k], j);
        assert k in t.proposals && IsFormalResult(t.proposals[k], j);
      } else {
        assert IsFormalResult(t.proposals[b.key], j);
      }
    }
    forall j | j in t.terminals ensures j !in t.leases {
      LeaseEvolution(db, b, j);
      TerminalBarsLease(db, b, j);
    }
  }

  lemma {:induction false} TerminalBarsLease(db: Db, b: Batch, job: int)
    requires job in Execute(db, b).terminals
    ensures job in Execute(db, b).leases ==> job in db.leases && job in db.terminals
  {
    hide HasFormalResult, DeferKeyUsed, Append;
  }

  function LeaseOf(db: Db, job: int): Option<Lease> {
    if job in db.leases then Some(db.leases[job]) else None
  }

  /** How one batch can change one lease row: keep it, release it, grant it, or take it over. */
  predicate LeaseChange(l: Option<Lease>, m: Option<Lease>, freshToken: int) {
    || m == l
    || m == None
    || (&& m.value.token == freshToken
        && m.value.expiresAt == m.value.claimedAt + LEASE_TTL
        && (if l.None? then m.value.count == 1
            else m.value.count == l.value.count + 1 && m.value.claimedAt >= l.value.expiresAt))
  }

  /** Fencing, one batch: a takeover raises the generation by one and starts after the old expiry. */
  lemma {:induction false} LeaseEvolution(db: Db, b: Batch, job: int)
    ensures LeaseChange(LeaseOf(db, job), LeaseOf(Execute(db, b), job), Drawn(db))
    ensures LeaseOf(Execute(db, b), job) != LeaseOf(db, job) ==> job == b.job
    ensures Execute(db, b).nextId >= db.nextId
    ensures LeaseOf(Execute(db, b), job) != LeaseOf(db, job) && job in Execute(db, b).leases ==>
      && Execute(db, b).nextId > db.nextId
      && Execute(db, b).deferrals == db.deferrals
      && !ActiveDeferral(db, job, Execute(db, b).leases[job].claimedAt)
  {
  }

  lemma {:induction false} DeferralEvolution(db: Db, b: Batch, job: int)
    ensures job in db.deferrals ==>
      job in Execute(db, b).deferrals && Execute(db, b).deferrals[job] == db.deferrals[job]
    ensures job !in db.deferrals && job in Execute(db, b).deferrals ==> job !in Execute(db, b).leases
  {
  }

  lemma {:induction false} ExecuteKeepsLeases(db: Db, b: Batch)
    requires LeaseInv(db)
    ensures LeaseInv(Execute(db, b))
  {
    hide Execute;
    var t := Execute(db, b);
    forall j | j in t.leases
      ensures t.leases[j].expiresAt == t.leases[j].claimedAt + LEASE_TTL
      ensures t.leases[j].count >= 1 && t.leases[j].token < t.nextId
      ensures j in t.deferrals ==> t.deferrals[j].recheckAt <= t.leases[j].claimedAt
      ensures t.leases[j].token == Drawn(db) || (j in db.leases && t.leases[j] == db.leases[j])
    {
      LeaseEvolution(db, b, j);
      DeferralEvolution(db, b, j);
    }
    forall i, j | i in t.leases && j in t.leases && i != j ensures t.leases[i].token != t.leases[j].token {
      LeaseEvolution(db, b, i);
      LeaseEvolution(db, b, j);
    }
  }

  /** Whether the batch stores its deferral row. */
  predicate StoresDeferral(db: Db, b: Batch) {
    && b.Defer? && !Violates(db, b)
    && Holds(db, b.job, b.owner, b.generation, b.now) && b.job !in db.terminals
  }

  lemma {:induction false} DeferKeepsDeferrals(db: Db, b: Batch)
    requires DeferralInv(db) && b.Defer?
    ensures DeferralInv(Execute(db, b))
  {
    if StoresDeferral(db, b) {
      var row := Deferral(b.key, b.owner, b.why, b.recheckAt, b.now, b.request, Some(ActionOf(b)));
      assert Execute(db, b).deferrals == db.deferrals[b.job := row];
      assert forall j :: j in db.deferrals ==> db.deferrals[j].key != b.key;
    } else {
      assert Execute(db, b).deferrals == db.deferrals;
    }
  }

  lemma {:induction false} OthersKeepDeferrals(db: Db, b: Batch)
    requires !b.Defer?
    ensures Execute(db, b).deferrals == db.deferrals
  {
    hide HasFormalResult, DeferKeyUsed, Append;
  }

  lemma {:induction false} ExecuteKeepsDeferrals(db: Db, b: Batch)
    requires DeferralInv(db)
    ensures DeferralInv(Execute(db, b))
  {
    hide Execute, Violates;
    if b.Defer? {
      DeferKeepsDeferrals(db, b);
    } else {
      OthersKeepDeferrals(db, b);
    }
  }

  /** Every batch, with any parameters and any clock, keeps every invariant of the tables. */
  lemma {:induction false} ExecuteKeepsInv(db: Db, b: Batch)
    requires Inv(db) && WellBound(b)
    ensures Inv(Execute(db, b))
  {
    hide Execute, LogInv, ProposalInv, TerminalInv, LeaseInv, DeferralInv;
    ExecuteKeepsLog(db, b);
    ExecuteKeepsProposals(db, b);
    ExecuteKeepsTerminals(db, b);
    ExecuteKeepsLeases(db, b);
    ExecuteKeepsDeferrals(db, b);
  }

  // ---------------------------------------------------------------------------------------
  // What the invariants mean for callers
  // ---------------------------------------------------------------------------------------

  /** The application checks suffice: the one-formal-result index never stops a formal batch. */
  lemma {:induction false} PartialIndexIsNeverHit(db: Db, b: Batch)
    requires Inv(db) && b.Accept?
    ensures Violates(db, b) <==> Completes(db, b) && b.key in db.proposals
  {
    if HasFormalResult(db, b.job) {
      var k :| k in db.proposals && IsFormalResult(db.proposals[k], b.job);
      assert db.proposals[k].job in db.terminals;
    }
  }

  /** One formal result per job: the terminal row exists iff it does, names it, and bars leases. */
  lemma {:induction false} TerminalIffOneFormalResult(db: Db, job: int)
    requires Inv(db)
    ensures job in db.terminals <==> HasFormalResult(db, job)
    ensures job in db.terminals ==> job !in db.leases
    ensures forall k, l | k in db.proposals && l in db.proposals ::
      IsFormalResult(db.proposals[k], job) && IsFormalResult(db.proposals[l], job) ==> k == l
    ensures forall k :: k in db.proposals && IsFormalResult(db.proposals[k], job) ==>
      db.terminals[job] == Terminal(db.proposals[k].id, db.proposals[k].createdAt)
  {
    if HasFormalResult(db, job) {
      var k :| k in db.proposals && IsFormalResult(db.proposals[k], job);
      assert db.proposals[k].job in db.terminals;
    }
    forall k | k in db.proposals && IsFormalResult(db.proposals[k], job)
      ensures job in db.terminals && db.terminals[job] == Terminal(db.proposals[k].id, db.proposals[k].createdAt)
    {
      assert IsFormalResult(db.proposals[k], db.proposals[k].job);
    }
  }

  /** A batch carrying an overtaken generation writes nothing and releases nothing. */
  lemma {:induction false} StaleGenerationWritesNothing(db: Db, b: Batch)
    requires b.Accept? || b.Defer?
    requires !Holds(db, b.job, b.owner, b.generation, b.now)
    ensures Execute(db, b).(nextId := db.nextId) == db
  {
  }

  /** Rows are only ever added: a stored proposal, terminal, deferral or event never changes. */
  lemma {:induction false} RowsAreKept(db: Db, b: Batch)
    ensures forall k :: k in db.proposals ==>
      k in Execute(db, b).proposals && Execute(db, b).proposals[k] == db.proposals[k]
    ensures forall j :: j in db.terminals ==>
      j in Execute(db, b).terminals && Execute(db, b).terminals[j] == db.terminals[j]
    ensures forall j :: j in db.deferrals ==>
      j in Execute(db, b).deferrals && Execute(db, b).deferrals[j] == db.deferrals[j]
    ensures db.nextId <= Execute(db, b).nextId
  {
    hide Execute, Violates;
    StoredRows(db, b);
    forall j | j in db.deferrals
      ensures j in Execute(db, b).deferrals && Execute(db, b).deferrals[j] == db.deferrals[j]
    {
      DeferralEvolution(db, b, j);
    }
  }

  /** A terminal or deferral row appears only together with the removal of a live lease. */
  predicate RowAppears(db: Db, next: Db, job: int) {
    (job !in db.terminals && job in next.terminals) || (job !in db.deferrals && job in next.deferrals)
  }

  lemma {:induction false} NewRowReleasesTheLease(db: Db, b: Batch, job: int)
    requires RowAppears(db, Execute(db, b), job)
    ensures (b.Accept? || b.Defer?) && b.job == job && Holds(db, job, b.owner, b.generation, b.now)
    ensures job in db.leases && job !in Execute(db, b).leases
  {
    hide HasFormalResult, DeferKeyUsed, Append;
  }

  /** The events of `d` are those of `db` and more, all of one request. */
  predicate GrowsBy(db: Db, d: Db, request: int) {
    && |db.log.events| <= |d.log.events| && d.log.events[..|db.log.events|] == db.log.events
    && forall i :: |db.log.events| <= i < |d.log.events| ==> d.log.events[i].request == request
  }

  lemma {:induction false} EmitGrows(db: Db, d: Db, job: int, kind: EventKind, actor: Principal,
          proposal: Option<int>, request: int, at: int)
    requires GrowsBy(db, d, request)
    ensures GrowsBy(db, Emit(d, job, kind, actor, proposal, request, at), request)
  {
  }

  /** The event log only grows, and only by this call's events. */
  lemma {:induction false} LogGrows(db: Db, b: Batch)
    ensures GrowsBy(db, Execute(db, b), b.request)
  {
    hide HasFormalResult, DeferKeyUsed, Emit, GrowsBy;
    assert forall d: Db :: d.log == db.log ==> GrowsBy(db, d, b.request) by { SameLogGrows(db, b.request); }
    if Violates(db, b) { return; }
    match b
    case Claim(_, _, _, _) =>
      if Preemptable(db, b.job, b.now) {
        if b.job in db.leases {
          EmitGrows(db, Draw(db), b.job, LEASE_EXPIRED, db.leases[b.job].owner, None, b.request, b.now);
          SameEvents(db, AuditExpiry(db, b), Grant(db, b), b.request);
        }
        EmitGrows(db, Grant(db, b), b.job, CLAIMED, b.owner, None, b.request, b.now);
      }
    case Deny(job, owner, now, request) => EmitGrows(db, db, job, CLAIM_DENIED, owner, None, request, now);
    case Conflict(job, existing, owner, now, request) =>
      EmitGrows(db, db, job, SUBMIT_CONFLICT, owner, Some(existing), request, now);
    case Reject(job, _, owner, _, _, _, now, request) =>
      EmitGrows(db, StoreProposal(db, b), job, SUBMIT_REJECTED, owner, Some(Drawn(db)), request, now);
    case AcceptSynthetic(job, _, owner, _, _, now, request) =>
      EmitGrows(db, StoreProposal(db, b), job, SUBMIT_RECEIVED, owner, Some(Drawn(db)), request, now);
    case Accept(_, _, _, _, _, _, _) =>
      if Completes(db, b) {
        EmitGrows(db, StoreResult(db, b), b.job, SUBMIT_RECEIVED, b.owner, Some(Drawn(db)), b.request, b.now);
        EmitGrows(db, AuditReceipt(db, b), b.job, COMPLETED, b.owner, Some(Drawn(db)), b.request, b.now);
      }
    case Defer(_, _, _, _, _, _, _, _) =>
  }

  lemma {:induction false} SameLogGrows(db: Db, request: int)
    ensures forall d: Db :: d.log == db.log ==> GrowsBy(db, d, request)
  {
  }

  lemma {:induction false} SameEvents(db: Db, d: Db, e: Db, request: int)
    requires GrowsBy(db, d, request) && e.log == d.log
    ensures GrowsBy(db, e, request)
  {
  }

  lemma {:induction false} EmitExtends(db: Db, job: int, kind: EventKind, actor: Principal,
          proposal: Option<int>, request: int, at: int)
    requires LogInv(db)
    ensures Extends(db.log, Emit(db, job, kind, actor, proposal, request, at).log)
    ensures LogInv(Emit(db, job, kind, actor, proposal, request, at))
  {
    hide Extends, Numbered;
    EmitLogInv(db, job, kind, actor, proposal, request, at);
    AppendExtends(db.log, Event(db.nextId, job, kind, actor, proposal, request, at));
  }

  /** Every batch extends the receipt log, so the feed theorem applies to the running queue. */
  lemma {:induction false} BatchExtendsLog(db: Db, b: Batch)
    requires LogInv(db)
    ensures Extends(db.log, Execute(db, b).log)
  {
    hide Emit, Numbered, HasFormalResult, DeferKeyUsed;
    match b
    case Claim(_, _, _, _) =>
      if Preemptable(db, b.job, b.now) {
        if b.job in db.leases {
          EmitExtends(Draw(db), b.job, LEASE_EXPIRED, db.leases[b.job].owner, None, b.request, b.now);
        }
        EmitExtends(Grant(db, b), b.job, CLAIMED, b.owner, None, b.request, b.now);
      }
    case Deny(job, owner, now, request) => EmitExtends(db, job, CLAIM_DENIED, owner, None, request, now);
    case Conflict(job, existing, owner, now, request) =>
      EmitExtends(db, job, SUBMIT_CONFLICT, owner, Some(existing), request, now);
    case Reject(job, _, owner, _, _, _, now, request) =>
      EmitExtends(StoreProposal(db, b), job, SUBMIT_REJECTED, owner, Some(Drawn(db)), request, now);
    case AcceptSynthetic(job, _, owner, _, _, now, request) =>
      EmitExtends(StoreProposal(db, b), job, SUBMIT_RECEIVED, owner, Some(Drawn(db)), request, now);
    case Accept(_, _, _, _, _, _, _) =>
      if Completes(db, b) {
        EmitExtends(StoreResult(db, b), b.job, SUBMIT_RECEIVED, b.owner, Some(Drawn(db)), b.request, b.now);
        EmitExtends(AuditReceipt(db, b), b.job, COMPLETED, b.owner, Some(Drawn(db)), b.request, b.now);
      }
    case Defer(_, _, _, _, _, _, _, _) =>
  }
}
