/**
 * The queue as it is written: mutable tables, SQL statements executed one by one inside a
 * transaction, and the three operations with their early returns and the two-pass claim loop.
 * Each batch is proved equal to its specification `Execute`; each operation to the machine of
 * WorkflowCalls run without interference.
 */
module WorkflowStore {
  import opened Basics
  import opened ReceiptLog
  import opened WorkflowTables
  import opened WorkflowCalls
  import opened LoneCalls

  class Store {
    var leases: map<int, Lease>
    var terminals: map<int, Terminal>
    var proposals: map<int, Proposal>
    var deferrals: map<int, Deferral>
    var events: seq<Event>
    var order: map<int, int>
    var nextSequence: int
    var nextId: int

    constructor ()
      ensures Tables() == EMPTY
    {
      leases, terminals, proposals, deferrals := map[], map[], map[], map[];
      events, order, nextSequence, nextId := [], map[], 1, 0;
    }

    function Tables(): Db
      reads this
    {
      Db(leases, terminals, proposals, deferrals, Log(events, order, nextSequence), nextId)
    }

    /** An event INSERT and its trigger: number the event, then advance the counter. */
    method InsertEvent(job: int, kind: EventKind, actor: Principal, proposal: Option<int>, request: int, at: int)
      modifies this
      ensures Tables() == Emit(old(Tables()), job, kind, actor, proposal, request, at)
    {
      var id := nextId;
      nextId := nextId + 1;
      events := events + [Event(id, job, kind, actor, proposal, request, at)];
      order := order[id := nextSequence];
      nextSequence := nextSequence + 1;
    }

    // -----------------------------------------------------------------------------------
    // Batches
    // -----------------------------------------------------------------------------------

    predicate Deferred(job: int, now: int)
      reads this
    {
      job in deferrals && deferrals[job].recheckAt > now
    }

    /** Audit the expiry, preempt, audit the grant: three statements, one predicate. */
    method ClaimBatch(job: int, owner: Principal, now: int, request: int) returns (token: int)
      requires LeaseInv(Tables())
      modifies this
      ensures Tables() == Execute(old(Tables()), Claim(job, owner, now, request))
      ensures token == old(nextId)
    {
      token := nextId;
      nextId := nextId + 1;
      if job in leases && leases[job].expiresAt <= now && job !in terminals && !Deferred(job, now) {
        InsertEvent(job, LEASE_EXPIRED, leases[job].owner, None, request, now);
      }
      if job !in terminals && !Deferred(job, now) {
        if job !in leases {
          leases := leases[job := Lease(owner, token, now, now + LEASE_TTL, 1)];
        } else if leases[job].expiresAt <= now && job !in terminals && !Deferred(job, now) {
          leases := leases[job := Lease(owner, token, now, now + LEASE_TTL, leases[job].count + 1)];
        }
      }
      if job in leases && leases[job].owner == owner && leases[job].token == token {
        InsertEvent(job, CLAIMED, owner, None, request, now);
      }
    }

    method DenyEvent(job: int, owner: Principal, now: int, request: int)
      modifies this
      ensures Tables() == Execute(old(Tables()), Deny(job, owner, now, request))
    {
      InsertEvent(job, CLAIM_DENIED, owner, None, request, now);
    }

    method ConflictEvent(job: int, existing: int, owner: Principal, now: int, request: int)
      modifies this
      ensures Tables() == Execute(old(Tables()), Conflict(job, existing, owner, now, request))
    {
      InsertEvent(job, SUBMIT_CONFLICT, owner, Some(existing), request, now);
    }

    /** An audited refusal: proposal row and event, or nothing if the key is taken. */
    method RejectBatch(i: SubmitInput, reason: SubmitReason, request: int) returns (committed: bool, id: int)
      modifies this
      ensures var b := SubmitBatch(i, SReject(reason, None), request);
        Tables() == Execute(old(Tables()), b) && (committed <==> !Violates(old(Tables()), b)) && id == old(nextId)
    {
      id := nextId;
      nextId := nextId + 1;
      if i.key in proposals { return false, id; }
      proposals := proposals[i.key :=
        Proposal(id, i.job, i.caller, EffectiveOrigin(i), REJECTED(reason), i.prepared.digest, i.now, request)];
      InsertEvent(i.job, SUBMIT_REJECTED, i.caller, Some(id), request, i.now);
      committed := true;
    }

    method SyntheticBatch(i: SubmitInput, request: int) returns (committed: bool, id: int)
      modifies this
      ensures var b := SubmitBatch(i, SSynthetic, request);
        Tables() == Execute(old(Tables()), b) && (committed <==> !Violates(old(Tables()), b)) && id == old(nextId)
    {
      id := nextId;
      nextId := nextId + 1;
      if i.key in proposals { return false, id; }
      proposals := proposals[i.key :=
        Proposal(id, i.job, i.caller, EffectiveOrigin(i), RECEIVED, i.prepared.digest, i.now, request)];
      leases := leases - {i.job};
      InsertEvent(i.job, SUBMIT_RECEIVED, i.caller, Some(id), request, i.now);
      committed := true;
    }

    predicate FencedLease(job: int, owner: Principal, generation: int, now: int)
      reads this
    {
      job in leases && leases[job].owner == owner && leases[job].count == generation && leases[job].expiresAt > now
    }

    /**
     * The formal accept: five statements that each repeat their own predicate against the
     * tables as the previous statements left them.
     */
    method AcceptBatch(i: SubmitInput, request: int) returns (committed: bool, id: int)
      requires Inv(Tables())
      modifies this
      ensures var b := SubmitBatch(i, SAccept, request);
        Tables() == Execute(old(Tables()), b) && (committed <==> !Violates(old(Tables()), b)) && id == old(nextId)
    {
      TerminalNames(Tables(), i.job);
      hide Inv, HasFormalResult, Emit, Execute, Violates;
      ExecuteAccept(Tables(), SubmitBatch(i, SAccept, request));
      id := nextId;
      committed := AcceptRows(i, id, request);
      nextId := nextId + 1;
      if committed { AuditAccepted(i, id, request); }
    }

    /** The first three statements: the proposal, the terminal row, and the end of the lease. */
    method AcceptRows(i: SubmitInput, id: int, request: int) returns (committed: bool)
      modifies this`proposals, this`terminals, this`leases
      ensures var db, b := old(Tables()), SubmitBatch(i, SAccept, request);
        var held := Holds(db, i.job, i.caller, i.generation, i.now);
        && (committed <==> !Violates(db, b))
        && proposals == (if committed && Completes(db, b) then db.proposals[i.key :=
             Proposal(id, i.job, i.caller, CHATGPT, RECEIVED, i.prepared.digest, i.now, request)] else db.proposals)
        && terminals == (if committed && Completes(db, b)
                         then db.terminals[i.job := Terminal(id, i.now)] else db.terminals)
        && leases == (if committed && held then db.leases - {i.job} else db.leases)
    {
      hide HasFormalResult;
      if FencedLease(i.job, i.caller, i.generation, i.now) && i.job !in terminals {
        if i.key in proposals || HasFormalResult(Tables(), i.job) { return false; }
        proposals := proposals[i.key :=
          Proposal(id, i.job, i.caller, CHATGPT, RECEIVED, i.prepared.digest, i.now, request)];
      }
      if FencedLease(i.job, i.caller, i.generation, i.now) && i.job !in terminals {
        terminals := terminals[i.job := Terminal(id, i.now)];
      }
      if FencedLease(i.job, i.caller, i.generation, i.now) {
        leases := leases - {i.job};
      }
      committed := true;
    }

    /** The last two statements of the formal accept: audit events only for the terminal row it stored. */
    method AuditAccepted(i: SubmitInput, id: int, request: int)
      modifies this
      ensures Tables() ==
        if i.job in old(terminals) && old(terminals)[i.job].proposal == id then
          Emit(Emit(old(Tables()), i.job, SUBMIT_RECEIVED, i.caller, Some(id), request, i.now),
               i.job, COMPLETED, i.caller, Some(id), request, i.now)
        else old(Tables())
    {
      if i.job in terminals && terminals[i.job].proposal == id {
        InsertEvent(i.job, SUBMIT_RECEIVED, i.caller, Some(id), request, i.now);
      }
      if i.job in terminals && terminals[i.job].proposal == id {
        InsertEvent(i.job, COMPLETED, i.caller, Some(id), request, i.now);
      }
    }

    /** Store the deferral and release the fenced lease, in one transaction. */
    method DeferBatchRows(i: DeferInput, request: int) returns (committed: bool, inserted: bool)
      requires i.why.Some?
      modifies this
      ensures var b := DeferBatch(i, request);
        && Tables() == Execute(old(Tables()), b) && (committed <==> !Violates(old(Tables()), b))
        && (inserted <==> committed && Holds(old(Tables()), i.job, i.caller, i.generation, i.now)
                          && i.job !in old(terminals))
    {
      inserted := false;
      if i.job !in terminals && FencedLease(i.job, i.caller, i.generation, i.now) {
        if i.job in deferrals || DeferKeyUsed(Tables(), i.key) {
          return false, false;
        }
        var action := DeferAction(i.job, i.caller, i.generation, i.why.value, i.recheckAt);
        deferrals := deferrals[i.job :=
          Deferral(i.key, i.caller, i.why.value, i.recheckAt, i.now, request, Some(action))];
        inserted := true;
      }
      if FencedLease(i.job, i.caller, i.generation, i.now) {
        leases := leases - {i.job};
      }
      committed := true;
    }

    // -----------------------------------------------------------------------------------
    // Operations
    // -----------------------------------------------------------------------------------

    /** claimResearchJob, run without interference. */
    method ClaimJob(i: ClaimInput, request: int) returns (answer: ClaimAnswer)
      requires Inv(Tables())
      modifies this
      ensures Alone(old(Tables()), ClaimCall(i, CVisible), request) == (Tables(), ClaimCall(i, CDone(answer)))
    {
      hide Execute, Violates, LogInv, ProposalInv, TerminalInv, DeferralInv, LeaseInv, Alone, Remaining;
      ghost var db0 := Tables();
      Access(db0, ClaimCall(i, CVisible), request);
      if !i.visible {
        answer := NotClaimable(NOT_FOUND);
        AloneDone(db0, ClaimCall(i, CDone(answer)), request);
        return;
      }
      Access(db0, ClaimCall(i, CTerminal), request);
      if i.job in terminals {
        Access(db0, ClaimCall(i, CDeny), request);
        DenyEvent(i.job, i.owner, i.now, request);
        answer := NotClaimable(TERMINAL);
        AloneDone(Tables(), ClaimCall(i, CDone(answer)), request);
        return;
      }
      Access(db0, ClaimCall(i, CDeferral), request);
      if Deferred(i.job, i.now) {
        answer := NotClaimable(DEFERRED);
        AloneDone(db0, ClaimCall(i, CDone(answer)), request);
        return;
      }
      for attempt := 0 to CLAIM_ATTEMPTS
        invariant Inv(Tables())
        invariant Alone(db0, ClaimCall(i, CVisible), request) ==
          Alone(Tables(), ClaimCall(i,
            if attempt < CLAIM_ATTEMPTS then CBatch(attempt) else CDone(ClaimUnavailable)), request)
      {
        ghost var before := Tables();
        ghost var b := Claim(i.job, i.owner, i.now, request);
        Access(before, ClaimCall(i, CBatch(attempt)), request);
        ExecuteKeepsInv(before, b);
        var token := ClaimBatch(i.job, i.owner, i.now, request);
        Access(Tables(), ClaimCall(i, CLease(attempt, token)), request);
        if i.job in leases && leases[i.job].owner == i.owner && leases[i.job].token == token {
          answer := Granted(leases[i.job]);
          AloneDone(Tables(), ClaimCall(i, CDone(answer)), request);
          return;
        }
        var explained := ExplainClaim(i, attempt, request);
        if explained.Some? { return explained.value; }
      }
      answer := ClaimUnavailable;
      AloneDone(Tables(), ClaimCall(i, CDone(answer)), request);
    }

    /** The reads after a claim batch that granted nothing; None asks for another pass. */
    method ExplainClaim(i: ClaimInput, attempt: nat, request: int) returns (answer: Option<ClaimAnswer>)
      requires attempt < CLAIM_ATTEMPTS
      modifies this
      ensures var before := Alone(old(Tables()), ClaimCall(i, CTerminalAgain(attempt)), request);
        match answer
        case Some(a) => before == (Tables(), ClaimCall(i, CDone(a)))
        case None =>
          && Tables() == old(Tables())
          && before == Alone(Tables(), ClaimCall(i,
               if attempt + 1 < CLAIM_ATTEMPTS then CBatch(attempt + 1) else CDone(ClaimUnavailable)), request)
    {
      hide Execute, Alone, Remaining;
      Access(Tables(), ClaimCall(i, CTerminalAgain(attempt)), request);
      if i.job in terminals {
        Access(Tables(), ClaimCall(i, CDeny), request);
        DenyEvent(i.job, i.owner, i.now, request);
        AloneDone(Tables(), ClaimCall(i, CDone(NotClaimable(TERMINAL))), request);
        return Some(NotClaimable(TERMINAL));
      }
      Access(Tables(), ClaimCall(i, CDeferralAgain(attempt)), request);
      if Deferred(i.job, i.now) {
        AloneDone(Tables(), ClaimCall(i, CDone(NotClaimable(DEFERRED))), request);
        return Some(NotClaimable(DEFERRED));
      }
      Access(Tables(), ClaimCall(i, CCurrent(attempt)), request);
      if i.job in leases && leases[i.job].expiresAt > i.now {
        answer := Some(if leases[i.job].owner == i.owner then Granted(leases[i.job])
                       else AlreadyClaimed(leases[i.job].owner, leases[i.job].expiresAt));
        AloneDone(Tables(), ClaimCall(i, CDone(answer.value)), request);
        return;
      }
      answer := None;
    }

    /** submitResearchResultProposal, run without interference. */
    method SubmitJob(i: SubmitInput, request: int) returns (answer: SubmitAnswer, ghost end: Call)
      requires Inv(Tables())
      modifies this
      ensures Alone(old(Tables()), SubmitCall(i, SStart, None), request) == (Tables(), end)
      ensures end.SubmitCall? && end.spc == SDone(answer)
    {
      hide Execute, Violates, LogInv, ProposalInv, TerminalInv, DeferralInv, LeaseInv, Alone, Remaining,
        HasFormalResult;
      ghost var db0 := Tables();
      Access(db0, SubmitCall(i, SStart, None), request);
      if i.generation < 1 || !i.keyWellFormed {
        answer, end := Finish(i, Refused(VALIDATION_FAILED, None), None, request);
        return;
      }
      Access(db0, SubmitCall(i, SReadKey, None), request);
      if i.key in proposals {
        answer, end := AnswerByRow(i, proposals[i.key], None, request);
        return;
      }
      if i.declared == Unknown {
        answer, end := Finish(i, Refused(VALIDATION_FAILED, None), None, request);
        return;
      }
      if StructureFailed(i) {
        answer, end := Refuse(i, VALIDATION_FAILED, None, request);
        return;
      }
      Access(db0, SubmitCall(i, SReadLease, None), request);
      var fault := LeaseFaultOf(Tables(), i.job, i.caller, i.generation, i.now);
      if fault.Some? {
        answer, end := Refuse(i, LEASE_INVALID, fault, request);
        return;
      }
      if EffectiveOrigin(i) != CHATGPT {
        answer, end := StoreSynthetic(i, request);
        return;
      }
      Access(db0, SubmitCall(i, SReadFormal, None), request);
      if HasFormalResult(Tables(), i.job) {
        answer, end := Refuse(i, SECOND_RESULT, None, request);
        return;
      }
      answer, end := AcceptFormally(i, request);
    }

    method AcceptFormally(i: SubmitInput, request: int) returns (answer: SubmitAnswer, ghost end: Call)
      requires Inv(Tables())
      modifies this
      ensures Alone(old(Tables()), SubmitCall(i, SAccept, None), request) == (Tables(), end)
      ensures end.SubmitCall? && end.spc == SDone(answer)
    {
      hide Execute, Violates, Inv, Alone, Remaining, HasFormalResult;
      Access(Tables(), SubmitCall(i, SAccept, None), request);
      var committed, id := AcceptBatch(i, request);
      if committed {
        answer, end := ConfirmAccepted(i, id, request);
      } else {
        answer, end := ResolveRace(i, Some(id), request);
      }
    }

    /** The stored proposal and terminal rows decide, not what the batch reported. */
    method ConfirmAccepted(i: SubmitInput, id: int, request: int) returns (answer: SubmitAnswer, ghost end: Call)
      modifies this
      ensures Alone(old(Tables()), SubmitCall(i, SConfirm, Some(id)), request) == (Tables(), end)
      ensures end.SubmitCall? && end.spc == SDone(answer)
    {
      hide Execute, Alone, Remaining;
      ghost var own := Some(id);
      Access(Tables(), SubmitCall(i, SConfirm, own), request);
      if i.key in proposals && proposals[i.key].id == id && proposals[i.key].status == RECEIVED {
        Access(Tables(), SubmitCall(i, SConfirmTerminal, own), request);
        if i.job in terminals && terminals[i.job].proposal == id {
          answer, end := Finish(i, Accepted(id), own, request);
          return;
        }
      }
      answer, end := ResolveRace(i, own, request);
    }

    /** A formal submit that did not win answers by the row under its key, or by the job's state. */
    method ResolveRace(i: SubmitInput, ghost own: Option<int>, request: int)
      returns (answer: SubmitAnswer, ghost end: Call)
      modifies this
      ensures Alone(old(Tables()), SubmitCall(i, SFormalRace, own), request) == (Tables(), end)
      ensures end.SubmitCall? && end.spc == SDone(answer)
    {
      hide Execute, Alone, Remaining;
      Access(Tables(), SubmitCall(i, SFormalRace, own), request);
      if i.key in proposals {
        answer, end := AnswerByRow(i, proposals[i.key], own, request);
        return;
      }
      Access(Tables(), SubmitCall(i, SCheckTerminal, own), request);
      var reason := if i.job in terminals then SECOND_RESULT else LEASE_INVALID;
      answer, end := Finish(i, Refused(reason, None), own, request);
    }

    method Finish(i: SubmitInput, verdict: SubmitAnswer, ghost own: Option<int>, request: int)
      returns (answer: SubmitAnswer, ghost end: Call)
      ensures answer == verdict && end == SubmitCall(i, SDone(verdict), own)
      ensures Alone(Tables(), SubmitCall(i, SDone(verdict), own), request) == (Tables(), end)
    {
      answer := verdict;
      end := SubmitCall(i, SDone(verdict), own);
    }

    /** The key is taken: replay its verdict, or audit the conflict and refuse. */
    method AnswerByRow(i: SubmitInput, row: Proposal, ghost own: Option<int>, request: int)
      returns (answer: SubmitAnswer, ghost end: Call)
      modifies this
      ensures Alone(old(Tables()), SubmitCall(i, AfterVerdict(row, i.prepared.digest), own), request) == (Tables(), end)
      ensures end.SubmitCall? && end.spc == SDone(answer)
    {
      hide Execute, Alone, Remaining;
      var verdict := Verdict(row, i.prepared.digest);
      if verdict.Some? {
        answer, end := Finish(i, verdict.value, own, request);
      } else {
        Access(Tables(), SubmitCall(i, SConflict(row.id), own), request);
        ConflictEvent(i.job, row.id, i.caller, i.now, request);
        answer, end := Finish(i, Refused(CONFLICT, None), own, request);
      }
    }

    /** Store an audited refusal; a lost key race is resolved by re-reading the row. */
    method Refuse(i: SubmitInput, reason: SubmitReason, fault: Option<LeaseFault>, request: int)
      returns (answer: SubmitAnswer, ghost end: Call)
      modifies this
      ensures Alone(old(Tables()), SubmitCall(i, SReject(reason, fault), None), request) == (Tables(), end)
      ensures end.SubmitCall? && end.spc == SDone(answer)
    {
      hide Execute, Violates, Alone, Remaining;
      Access(Tables(), SubmitCall(i, SReject(reason, fault), None), request);
      var committed, id := RejectBatch(i, reason, request);
      if !committed {
        Access(Tables(), SubmitCall(i, SRace(Refused(reason, fault)), Some(id)), request);
        if i.key in proposals {
          answer, end := AnswerByRow(i, proposals[i.key], Some(id), request);
          return;
        }
      }
      answer, end := Finish(i, Refused(reason, fault), Some(id), request);
    }

    /** The synthetic accept: the lease is consumed, the job stays open. */
    method StoreSynthetic(i: SubmitInput, request: int) returns (answer: SubmitAnswer, ghost end: Call)
      modifies this
      ensures Alone(old(Tables()), SubmitCall(i, SSynthetic, None), request) == (Tables(), end)
      ensures end.SubmitCall? && end.spc == SDone(answer)
    {
      hide Execute, Violates, Alone, Remaining;
      Access(Tables(), SubmitCall(i, SSynthetic, None), request);
      var committed, id := SyntheticBatch(i, request);
      if !committed {
        Access(Tables(), SubmitCall(i, SRace(AcceptedSynthetic(id)), Some(id)), request);
        if i.key in proposals {
          answer, end := AnswerByRow(i, proposals[i.key], Some(id), request);
          return;
        }
      }
      answer, end := Finish(i, AcceptedSynthetic(id), Some(id), request);
    }

    method ReadDeferralByKey(key: int) returns (row: Option<Deferral>)
      requires DeferralInv(Tables())
      ensures row == DeferralByKey(Tables(), key)
    {
      if DeferKeyUsed(Tables(), key) {
        var j :| j in deferrals && deferrals[j].key == key;
        row := Some(deferrals[j]);
      } else {
        row := None;
      }
    }

    /** deferResearchJob, run without interference. */
    method DeferJob(i: DeferInput, request: int) returns (answer: DeferAnswer)
      requires Inv(Tables())
      modifies this
      ensures Alone(old(Tables()), DeferCall(i, DStart), request) == (Tables(), DeferCall(i, DDone(answer)))
    {
      hide Execute, Violates, LogInv, ProposalInv, TerminalInv, DeferralInv, LeaseInv, Alone, Remaining, DeferralByKey;
      ghost var db0 := Tables();
      Access(db0, DeferCall(i, DStart), request);
      if i.generation < 1 || !i.keyWellFormed || i.why == None {
        answer := FinishDefer(i, DeferRefused(VALIDATION_FAILED, None), request);
        return;
      }
      Access(db0, DeferCall(i, DReadKey), request);
      var sameKey := ReadDeferralByKey(i.key);
      if sameKey.Some? {
        answer := ReplayDefer(i, sameKey.value, request);
        return;
      }
      if i.recheckAt <= i.now {
        answer := FinishDefer(i, DeferRefused(VALIDATION_FAILED, None), request);
        return;
      }
      Access(db0, DeferCall(i, DReadDeferral), request);
      if i.job in deferrals {
        answer := FinishDefer(i, DeferRefused(CONFLICT, None), request);
        return;
      }
      answer := DeferOnce(i, request);
    }

    method DeferOnce(i: DeferInput, request: int) returns (answer: DeferAnswer)
      requires Inv(Tables()) && i.why.Some?
      modifies this
      ensures Alone(old(Tables()), DeferCall(i, DBatch), request) == (Tables(), DeferCall(i, DDone(answer)))
    {
      hide Execute, Violates, LogInv, ProposalInv, TerminalInv, DeferralInv, LeaseInv, Alone, Remaining, DeferralByKey;
      Access(Tables(), DeferCall(i, DBatch), request);
      ExecuteKeepsInv(Tables(), DeferBatch(i, request));
      var committed, inserted := DeferBatchRows(i, request);
      if inserted {
        answer := FinishDefer(i, DeferAccepted(i.recheckAt), request);
        return;
      }
      Access(Tables(), DeferCall(i, if committed then DReread else DAfterViolation), request);
      var replay := ReadDeferralByKey(i.key);
      if replay.Some? {
        answer := ReplayDefer(i, replay.value, request);
        return;
      }
      if !committed {
        answer := FinishDefer(i, DeferUnavailable, request);
        return;
      }
      answer := ExplainDefer(i, request);
    }

    /** Why the batch found no fenced lease to release. */
    method ExplainDefer(i: DeferInput, request: int) returns (answer: DeferAnswer)
      ensures Alone(Tables(), DeferCall(i, DRereadDeferral), request) == (Tables(), DeferCall(i, DDone(answer)))
    {
      hide Execute, Violates, Alone, Remaining, DeferralByKey;
      Access(Tables(), DeferCall(i, DRereadDeferral), request);
      if i.job in deferrals {
        answer := FinishDefer(i, DeferRefused(CONFLICT, None), request);
        return;
      }
      Access(Tables(), DeferCall(i, DRereadTerminal), request);
      if i.job in terminals {
        answer := FinishDefer(i, DeferRefused(SECOND_RESULT, None), request);
        return;
      }
      Access(Tables(), DeferCall(i, DRereadLease), request);
      var fault := LeaseFaultOf(Tables(), i.job, i.caller, i.generation, i.now);
      answer := FinishDefer(i, DeferRefused(LEASE_INVALID, if fault.Some? then fault else Some(NO_LEASE)), request);
    }

    method FinishDefer(i: DeferInput, verdict: DeferAnswer, request: int) returns (answer: DeferAnswer)
      ensures answer == verdict
      ensures Alone(Tables(), DeferCall(i, DDone(verdict)), request) == (Tables(), DeferCall(i, DDone(verdict)))
    {
      answer := verdict;
    }

    /** The three status reads of a replayed defer. */
    method ReplayDefer(i: DeferInput, row: Deferral, request: int) returns (answer: DeferAnswer)
      ensures Alone(Tables(), DeferCall(i, AfterDeferral(row, i)), request) == (Tables(), DeferCall(i, DDone(answer)))
      ensures row.action == Some(WantedAction(i)) ==>
        answer == DeferReplayed(row.recheckAt, StatusOf(Tables(), i.job, i.now))
    {
      hide Execute, Alone, Remaining, DeferralByKey;
      if row.action != Some(WantedAction(i)) {
        answer := FinishDefer(i, DeferRefused(CONFLICT, None), request);
        return;
      }
      Access(Tables(), DeferCall(i, DStatusTerminal(row.recheckAt)), request);
      if i.job in terminals {
        answer := FinishDefer(i, DeferReplayed(row.recheckAt, JobCompleted), request);
        return;
      }
      Access(Tables(), DeferCall(i, DStatusLease(row.recheckAt)), request);
      if i.job in leases && leases[i.job].expiresAt > i.now {
        answer := FinishDefer(i, DeferReplayed(row.recheckAt, JobClaimed), request);
        return;
      }
      Access(Tables(), DeferCall(i, DStatusDeferral(row.recheckAt)), request);
      var current := if Deferred(i.job, i.now) then JobDeferred else JobQueued;
      answer := FinishDefer(i, DeferReplayed(row.recheckAt, current), request);
    }
  }

  lemma {:induction false} ExecuteAccept(db: Db, b: Batch)
    requires b.Accept?
    ensures Execute(db, b) == if Violates(db, b) then Draw(db) else DoAccept(db, b)
  {
  }

  /** A formal terminal row names a stored proposal, so never an id that is yet to be drawn. */
  lemma {:induction false} TerminalNames(db: Db, job: int)
    requires Inv(db)
    ensures job in db.terminals ==> db.terminals[job].proposal < db.nextId
  {
    if job in db.terminals {
      assert HasFormalResult(db, job);
      var k :| k in db.proposals && IsFormalResult(db.proposals[k], job);
      assert IsFormalResult(db.proposals[k], db.proposals[k].job);
    }
  }
}
