/**
 * The three queue operations as the code runs them: a sequence of separate reads, one atomic
 * batch, and more reads that decide the answer. Each program point below is one access to the
 * database; between two of them any other call may run.
 *
 * `Issues` is the batch a program point executes (if it is not a read), and `Resume` the
 * program point that follows, given the tables at that instant.
 */
module WorkflowCalls {
  import opened Basics
  import opened ReceiptLog
  import opened WorkflowTables

  // ---------------------------------------------------------------------------------------
  // Claim
  // ---------------------------------------------------------------------------------------

  /** `visible` is the answer of the visibility read: a PUBLIC job record exists. */
  datatype ClaimInput = ClaimInput(job: int, owner: Principal, visible: bool, now: int)

  datatype ClaimReason = NOT_FOUND | TERMINAL | DEFERRED

  datatype ClaimAnswer =
    | Claimed(owner: Principal, claimedAt: int, expiresAt: int, generation: int)
    | AlreadyClaimed(owner: Principal, expiresAt: int)
    | NotClaimable(reason: ClaimReason)
    | ClaimUnavailable

  datatype ClaimPc =
    | CVisible | CTerminal | CDeferral
    | CBatch(attempt: nat) | CLease(attempt: nat, token: int)
    | CTerminalAgain(attempt: nat) | CDeferralAgain(attempt: nat) | CCurrent(attempt: nat)
    | CDeny | CDone(answer: ClaimAnswer)

  const CLAIM_ATTEMPTS: nat := 2

  function Granted(l: Lease): ClaimAnswer { Claimed(l.owner, l.claimedAt, l.expiresAt, l.count) }

  function ClaimResume(db: Db, i: ClaimInput, pc: ClaimPc): ClaimPc {
    match pc
    case CVisible => if i.visible then CTerminal else CDone(NotClaimable(NOT_FOUND))
    case CTerminal => if i.job in db.terminals then CDeny else CDeferral
    case CDeferral => if ActiveDeferral(db, i.job, i.now) then CDone(NotClaimable(DEFERRED)) else CBatch(0)
    case CBatch(attempt) => CLease(attempt, Drawn(db))
    case CLease(attempt, token) =>
      if i.job in db.leases && db.leases[i.job].owner == i.owner && db.leases[i.job].token == token
      then CDone(Granted(db.leases[i.job])) else CTerminalAgain(attempt)
    case CTerminalAgain(attempt) => if i.job in db.terminals then CDeny else CDeferralAgain(attempt)
    case CDeferralAgain(attempt) =>
      if ActiveDeferral(db, i.job, i.now) then CDone(NotClaimable(DEFERRED)) else CCurrent(attempt)
    case CCurrent(attempt) =>
      if !LiveLease(db, i.job, i.now) then
        if attempt + 1 < CLAIM_ATTEMPTS then CBatch(attempt + 1) else CDone(ClaimUnavailable)
      else if db.leases[i.job].owner == i.owner then CDone(Granted(db.leases[i.job]))
      else CDone(AlreadyClaimed(db.leases[i.job].owner, db.leases[i.job].expiresAt))
    case CDeny => CDone(NotClaimable(TERMINAL))
    case CDone(_) => pc
  }

  function ClaimIssues(i: ClaimInput, pc: ClaimPc, request: int): Option<Batch> {
    match pc
    case CBatch(_) => Some(Claim(i.job, i.owner, i.now, request))
    case CDeny => Some(Deny(i.job, i.owner, i.now, request))
    case _ => None
  }

  // ---------------------------------------------------------------------------------------
  // Submit
  // ---------------------------------------------------------------------------------------

  datatype Declared = Unset | Declared(origin: Origin) | Unknown

  /** The proposal after structural validation, safety scan, canonical printing and hashing. */
  datatype Prepared = Prepared(digest: int, oversize: bool, structureError: bool)

  datatype SubmitInput = SubmitInput(
    job: int, caller: Principal, generation: int, key: int, keyWellFormed: bool,
    declared: Declared, prepared: Prepared, now: int)

  datatype LeaseFault = NO_LEASE | EXPIRED | OWNER_MISMATCH | GENERATION_STALE

  datatype SubmitAnswer =
    | Accepted(proposal: int)
    | AcceptedSynthetic(proposal: int)
    | Replayed(proposal: int, createdAt: int)
    | Refused(reason: SubmitReason, fault: Option<LeaseFault>)

  datatype SubmitPc =
    | SStart | SReadKey | SConflict(existing: int) | SReadLease | SReadFormal
    | SReject(reason: SubmitReason, fault: Option<LeaseFault>) | SAccept | SSynthetic
    | SConfirm | SConfirmTerminal | SFormalRace | SRace(fallback: SubmitAnswer) | SCheckTerminal
    | SDone(answer: SubmitAnswer)

  function DeclaredOrigin(i: SubmitInput): Origin
    requires i.declared != Unknown
  {
    match i.declared case Unset => CHATGPT case Declared(o) => o
  }

  /** A principal without the formal form can never file a formal result. */
  function EffectiveOrigin(i: SubmitInput): Origin {
    if i.declared == Unknown then REPLAY
    else if i.caller.Informal? && DeclaredOrigin(i) == CHATGPT then SYNTHETIC
    else DeclaredOrigin(i)
  }

  predicate StructureFailed(i: SubmitInput)
    requires i.declared != Unknown
  {
    (i.caller.Formal? && DeclaredOrigin(i) != CHATGPT) || i.prepared.oversize || i.prepared.structureError
  }

  predicate InputRefused(i: SubmitInput) {
    i.generation < 1 || !i.keyWellFormed
  }

  /** Existence, expiry, owner, generation, in this order. */
  function LeaseFaultOf(db: Db, job: int, caller: Principal, generation: int, now: int): Option<LeaseFault> {
    if job !in db.leases then Some(NO_LEASE)
    else if db.leases[job].expiresAt <= now then Some(EXPIRED)
    else if db.leases[job].owner != caller then Some(OWNER_MISMATCH)
    else if db.leases[job].count != generation then Some(GENERATION_STALE)
    else None
  }

  /** The verdict on a key that is already taken; None is a conflict. */
  function Verdict(row: Proposal, digest: int): Option<SubmitAnswer> {
    if row.digest != digest then None
    else match row.status
      case RECEIVED => Some(Replayed(row.id, row.createdAt))
      case REJECTED(reason) => Some(Refused(reason, None))
  }

  function AfterVerdict(row: Proposal, digest: int): SubmitPc {
    match Verdict(row, digest)
    case Some(answer) => SDone(answer)
    case None => SConflict(row.id)
  }

  function SubmitResume(db: Db, i: SubmitInput, pc: SubmitPc, own: Option<int>, request: int): SubmitPc {
    match pc
    case SStart => if InputRefused(i) then SDone(Refused(VALIDATION_FAILED, None)) else SReadKey
    case SReadKey =>
      if i.key in db.proposals then AfterVerdict(db.proposals[i.key], i.prepared.digest)
      else if i.declared == Unknown then SDone(Refused(VALIDATION_FAILED, None))
      else if StructureFailed(i) then SReject(VALIDATION_FAILED, None)
      else SReadLease
    case SConflict(_) => SDone(Refused(CONFLICT, None))
    case SReadLease =>
      var fault := LeaseFaultOf(db, i.job, i.caller, i.generation, i.now);
      if fault.Some? then SReject(LEASE_INVALID, fault)
      else if EffectiveOrigin(i) == CHATGPT then SReadFormal else SSynthetic
    case SReadFormal => if HasFormalResult(db, i.job) then SReject(SECOND_RESULT, None) else SAccept
    case SReject(reason, fault) =>
      if Violates(db, SubmitBatch(i, pc, request)) then SRace(Refused(reason, fault)) else SDone(Refused(reason, fault))
    case SSynthetic =>
      if Violates(db, SubmitBatch(i, pc, request)) then SRace(AcceptedSynthetic(Drawn(db)))
      else SDone(AcceptedSynthetic(Drawn(db)))
    case SAccept => if Violates(db, SubmitBatch(i, pc, request)) then SFormalRace else SConfirm
    case SConfirm =>
      if i.key in db.proposals && own == Some(db.proposals[i.key].id) && db.proposals[i.key].status == RECEIVED
      then SConfirmTerminal else SFormalRace
    case SConfirmTerminal =>
      if i.job in db.terminals && own == Some(db.terminals[i.job].proposal)
      then SDone(Accepted(own.value)) else SFormalRace
    case SFormalRace =>
      if i.key in db.proposals then AfterVerdict(db.proposals[i.key], i.prepared.digest) else SCheckTerminal
    case SRace(fallback) =>
      if i.key in db.proposals then AfterVerdict(db.proposals[i.key], i.prepared.digest) else SDone(fallback)
    case SCheckTerminal =>
      SDone(Refused(if i.job in db.terminals then SECOND_RESULT else LEASE_INVALID, None))
    case SDone(_) => pc
  }

  predicate IsSubmitBatch(pc: SubmitPc) { pc.SReject? || pc.SSynthetic? || pc.SAccept? || pc.SConflict? }

  function SubmitBatch(i: SubmitInput, pc: SubmitPc, request: int): Batch
    requires IsSubmitBatch(pc)
  {
    match pc
    case SReject(reason, _) =>
      Reject(i.job, i.key, i.caller, EffectiveOrigin(i), i.prepared.digest, reason, i.now, request)
    case SSynthetic => AcceptSynthetic(i.job, i.key, i.caller, EffectiveOrigin(i), i.prepared.digest, i.now, request)
    case SAccept => Accept(i.job, i.key, i.caller, i.generation, i.prepared.digest, i.now, request)
    case SConflict(existing) => Conflict(i.job, existing, i.caller, i.now, request)
  }

  function SubmitIssues(i: SubmitInput, pc: SubmitPc, request: int): Option<Batch> {
    if IsSubmitBatch(pc) then Some(SubmitBatch(i, pc, request)) else None
  }

  // ---------------------------------------------------------------------------------------
  // Defer
  // ---------------------------------------------------------------------------------------

  datatype DeferInput = DeferInput(
    job: int, caller: Principal, generation: int, key: int, keyWellFormed: bool,
    why: Option<DeferReason>, recheckAt: int, now: int)

  datatype JobStatus = JobCompleted | JobClaimed | JobDeferred | JobQueued

  datatype DeferAnswer =
    | DeferAccepted(recheckAt: int)
    | DeferReplayed(recheckAt: int, current: JobStatus)
    | DeferRefused(reason: SubmitReason, fault: Option<LeaseFault>)
    | DeferUnavailable

  datatype DeferPc =
    | DStart | DReadKey
    | DStatusTerminal(recheckAt: int) | DStatusLease(recheckAt: int) | DStatusDeferral(recheckAt: int)
    | DReadDeferral | DBatch | DAfterViolation
    | DReread | DRereadDeferral | DRereadTerminal | DRereadLease
    | DDone(answer: DeferAnswer)

  predicate DeferInputRefused(i: DeferInput) {
    i.generation < 1 || !i.keyWellFormed || i.why == None
  }

  function DeferBatch(i: DeferInput, request: int): Batch {
    var why := if i.why.Some? then i.why.value else RECHECK_REQUIRED;
    Defer(i.job, i.key, i.caller, i.generation, why, i.recheckAt, i.now, request)
  }

  function WantedAction(i: DeferInput): DeferAction { ActionOf(DeferBatch(i, 0)) }

  ghost function DeferralByKey(db: Db, key: int): (row: Option<Deferral>)
    ensures row.None? <==> !DeferKeyUsed(db, key)
    ensures row.Some? ==> exists j :: j in db.deferrals && db.deferrals[j] == row.value && row.value.key == key
  {
    if DeferKeyUsed(db, key) then
      var j :| j in db.deferrals && db.deferrals[j].key == key;
      Some(db.deferrals[j])
    else None
  }

  /** A reused defer key: another action conflicts, the same one replays. */
  function AfterDeferral(row: Deferral, i: DeferInput): DeferPc {
    if row.action != Some(WantedAction(i)) then DDone(DeferRefused(CONFLICT, None)) else DStatusTerminal(row.recheckAt)
  }

  ghost function DeferResume(db: Db, i: DeferInput, pc: DeferPc, request: int): DeferPc {
    var byKey := DeferralByKey(db, i.key);
    match pc
    case DStart => if DeferInputRefused(i) then DDone(DeferRefused(VALIDATION_FAILED, None)) else DReadKey
    case DReadKey =>
      if byKey.Some? then AfterDeferral(byKey.value, i)
      else if i.recheckAt <= i.now then DDone(DeferRefused(VALIDATION_FAILED, None))
      else DReadDeferral
    case DStatusTerminal(at) =>
      if i.job in db.terminals then DDone(DeferReplayed(at, JobCompleted)) else DStatusLease(at)
    case DStatusLease(at) =>
      if LiveLease(db, i.job, i.now) then DDone(DeferReplayed(at, JobClaimed)) else DStatusDeferral(at)
    case DStatusDeferral(at) =>
      DDone(DeferReplayed(at, if ActiveDeferral(db, i.job, i.now) then JobDeferred else JobQueued))
    case DReadDeferral => if i.job in db.deferrals then DDone(DeferRefused(CONFLICT, None)) else DBatch
    case DBatch =>
      if Violates(db, DeferBatch(i, request)) then DAfterViolation
      else if Holds(db, i.job, i.caller, i.generation, i.now) && i.job !in db.terminals
      then DDone(DeferAccepted(i.recheckAt))
      else DReread
    case DAfterViolation => if byKey.Some? then AfterDeferral(byKey.value, i) else DDone(DeferUnavailable)
    case DReread => if byKey.Some? then AfterDeferral(byKey.value, i) else DRereadDeferral
    case DRereadDeferral => if i.job in db.deferrals then DDone(DeferRefused(CONFLICT, None)) else DRereadTerminal
    case DRereadTerminal => if i.job in db.terminals then DDone(DeferRefused(SECOND_RESULT, None)) else DRereadLease
    case DRereadLease =>
      var fault := LeaseFaultOf(db, i.job, i.caller, i.generation, i.now);
      DDone(DeferRefused(LEASE_INVALID, if fault.Some? then fault else Some(NO_LEASE)))
    case DDone(_) => pc
  }

  function DeferIssues(i: DeferInput, pc: DeferPc, request: int): Option<Batch> {
    if pc.DBatch? then Some(DeferBatch(i, request)) else None
  }

  // ---------------------------------------------------------------------------------------
  // Any call
  // ---------------------------------------------------------------------------------------

  /** `own` remembers the proposal id a submit drew for its own batch. */
  datatype Call =
    | ClaimCall(claim: ClaimInput, cpc: ClaimPc)
    | SubmitCall(submit: SubmitInput, spc: SubmitPc, own: Option<int>)
    | DeferCall(defer: DeferInput, dpc: DeferPc)

  predicate IsDone(c: Call) {
    match c
    case ClaimCall(_, pc) => pc.CDone?
    case SubmitCall(_, pc, _) => pc.SDone?
    case DeferCall(_, pc) => pc.DDone?
  }

  predicate IsInitial(c: Call) {
    match c
    case ClaimCall(_, pc) => pc == CVisible
    case SubmitCall(_, pc, own) => pc == SStart && own == None
    case DeferCall(_, pc) => pc == DStart
  }

  function Issues(c: Call, request: int): Option<Batch> {
    match c
    case ClaimCall(i, pc) => ClaimIssues(i, pc, request)
    case SubmitCall(i, pc, _) => SubmitIssues(i, pc, request)
    case DeferCall(i, pc) => DeferIssues(i, pc, request)
  }

  ghost function Resume(db: Db, c: Call, request: int): Call {
    match c
    case ClaimCall(i, pc) => ClaimCall(i, ClaimResume(db, i, pc))
    case SubmitCall(i, pc, own) =>
      SubmitCall(i, SubmitResume(db, i, pc, own, request),
                 if pc.SReject? || pc.SSynthetic? || pc.SAccept? then Some(Drawn(db)) else own)
    case DeferCall(i, pc) => DeferCall(i, DeferResume(db, i, pc, request))
  }

  function After(db: Db, issued: Option<Batch>): Db {
    match issued case None => db case Some(b) => Execute(db, b)
  }
}
