/**
 * Decision tables: for every claim, submit and defer that runs alone, its answer and every row and
 * event it leaves, in terms of the stored rows and the fields of the request.
 */
module LoneDecisions {
  import opened Basics
  import opened ReceiptLog
  import opened WorkflowTables
  import opened WorkflowCalls
  import opened WorkflowAnswers
  import opened WorkflowProvenance
  import opened LoneCalls

  ghost predicate Answers(db: Db, i: SubmitInput, r: int, d: Db, answer: SubmitAnswer) {
    && LoneSubmit(db, i, r).0 == d
    && LoneSubmit(db, i, r).1.SubmitCall? && LoneSubmit(db, i, r).1.spc == SDone(answer)
  }

  ghost predicate DeferAnswers(db: Db, i: DeferInput, r: int, d: Db, answer: DeferAnswer) {
    Alone(db, DeferCall(i, DStart), r) == (d, DeferCall(i, DDone(answer)))
  }

  // ---------------------------------------------------------------------------------------
  // Submit
  // ---------------------------------------------------------------------------------------

  /** Input that is refused, and a key that is taken: the stored row gives the answer. */
  lemma {:induction false} SubmitOfTakenKey(db: Db, i: SubmitInput, r: int) returns (d: Db, answer: SubmitAnswer)
    requires i.generation < 1 || !i.keyWellFormed || i.key in db.proposals || i.declared == Unknown
    ensures Answers(db, i, r, d, answer)
    ensures i.generation < 1 || !i.keyWellFormed ==> d == db && answer == Refused(VALIDATION_FAILED, None)
    ensures i.generation >= 1 && i.keyWellFormed && i.key !in db.proposals ==>
      d == db && answer == Refused(VALIDATION_FAILED, None)
    ensures i.generation >= 1 && i.keyWellFormed && i.key in db.proposals ==>
      var row := db.proposals[i.key];
      if row.digest != i.prepared.digest then
        && answer == Refused(CONFLICT, None) && SameRows(d, db)
        && d.log.events == db.log.events
             + [Event(db.nextId, i.job, SUBMIT_CONFLICT, i.caller, Some(row.id), r, i.now)]
      else
        && d == db
        && answer == match row.status
                     case RECEIVED => Replayed(row.id, row.createdAt)
                     case REJECTED(reason) => Refused(reason, None)
  {
    hide Alone, Remaining;
    Access(db, SubmitCall(i, SStart, None), r);
    if i.generation < 1 || !i.keyWellFormed {
      d, answer := db, Refused(VALIDATION_FAILED, None);
      AloneDone(db, SubmitCall(i, SDone(answer), None), r);
    } else {
      Access(db, SubmitCall(i, SReadKey, None), r);
      if i.key !in db.proposals {
        d, answer := db, Refused(VALIDATION_FAILED, None);
        AloneDone(db, SubmitCall(i, SDone(answer), None), r);
      } else {
        var row := db.proposals[i.key];
        if row.digest != i.prepared.digest {
          d, answer := Execute(db, Conflict(i.job, row.id, i.caller, i.now, r)), Refused(CONFLICT, None);
          Access(db, SubmitCall(i, SConflict(row.id), None), r);
        } else {
          d := db;
          answer := match row.status
                    case RECEIVED => Replayed(row.id, row.createdAt)
                    case REJECTED(reason) => Refused(reason, None);
        }
        AloneDone(d, SubmitCall(i, SDone(answer), None), r);
      }
    }
  }

  /** One event and one proposal row are new, nothing else changes but possibly the job's lease. */
  predicate StoresOne(db: Db, d: Db, i: SubmitInput, r: int, status: Status, kind: EventKind) {
    && i.key in d.proposals && d.proposals == db.proposals[i.key := d.proposals[i.key]]
    && SubmittedRow(d.proposals[i.key], i)
    && d.proposals[i.key].id == db.nextId && d.proposals[i.key].status == status && d.proposals[i.key].request == r
    && d.terminals == db.terminals && d.deferrals == db.deferrals
    && d.leases == (if status == RECEIVED then db.leases - {i.job} else db.leases)
    && d.log.events == db.log.events + [Event(db.nextId + 1, i.job, kind, i.caller, Some(db.nextId), r, i.now)]
  }

  lemma {:induction false} StoreEffect(db: Db, i: SubmitInput, pc: SubmitPc, r: int)
    requires pc.SReject? || pc.SSynthetic?
    requires i.key !in db.proposals && i.declared != Unknown && !InputRefused(i)
    requires pc.SReject? ==> pc.reason != CONFLICT && (pc.reason == VALIDATION_FAILED <==> StructureFailed(i))
    requires pc.SSynthetic? ==> !StructureFailed(i)
    ensures StoresOne(db, Execute(db, SubmitBatch(i, pc, r)), i, r,
      if pc.SReject? then REJECTED(pc.reason) else RECEIVED, if pc.SReject? then SUBMIT_REJECTED else SUBMIT_RECEIVED)
    ensures !Violates(db, SubmitBatch(i, pc, r))
  {
  }

  lemma {:induction false} RejectAlone(db: Db, i: SubmitInput, reason: SubmitReason, fault: Option<LeaseFault>, r: int)
    returns (d: Db)
    requires i.key !in db.proposals && i.declared != Unknown && !InputRefused(i)
    requires reason != CONFLICT && (reason == VALIDATION_FAILED <==> StructureFailed(i))
    ensures Alone(db, SubmitCall(i, SReject(reason, fault), None), r)
      == (d, SubmitCall(i, SDone(Refused(reason, fault)), Some(db.nextId)))
    ensures StoresOne(db, d, i, r, REJECTED(reason), SUBMIT_REJECTED)
  {
    hide Alone, Remaining, Execute, Violates, StoresOne;
    d := Execute(db, SubmitBatch(i, SReject(reason, fault), r));
    StoreEffect(db, i, SReject(reason, fault), r);
    Access(db, SubmitCall(i, SReject(reason, fault), None), r);
    AloneDone(d, SubmitCall(i, SDone(Refused(reason, fault)), Some(db.nextId)), r);
  }

  /** A malformed result, or one whose caller does not hold the lease: the refusal is stored. */
  lemma {:induction false} SubmitIsRefused(db: Db, i: SubmitInput, r: int) returns (d: Db, answer: SubmitAnswer)
    requires i.generation >= 1 && i.keyWellFormed && i.key !in db.proposals && i.declared != Unknown
    requires Malformed(i) || !HoldsLease(db, i.job, i.caller, i.generation, i.now)
    ensures Answers(db, i, r, d, answer)
    ensures Malformed(i) ==> answer == Refused(VALIDATION_FAILED, None)
    ensures !Malformed(i) ==>
      && answer.Refused? && answer.reason == LEASE_INVALID && answer.fault.Some?
      && Faulty(db, i.job, i.caller, i.generation, i.now, answer.fault.value)
    ensures answer.Refused? && StoresOne(db, d, i, r, REJECTED(answer.reason), SUBMIT_REJECTED)
  {
    hide Alone, Remaining, Execute, Violates, StoresOne;
    Access(db, SubmitCall(i, SStart, None), r);
    Access(db, SubmitCall(i, SReadKey, None), r);
    if Malformed(i) {
      answer := Refused(VALIDATION_FAILED, None);
      d := RejectAlone(db, i, VALIDATION_FAILED, None, r);
    } else {
      var fault := LeaseFaultOf(db, i.job, i.caller, i.generation, i.now);
      Access(db, SubmitCall(i, SReadLease, None), r);
      answer := Refused(LEASE_INVALID, fault);
      d := RejectAlone(db, i, LEASE_INVALID, fault, r);
    }
  }

  /**
   * A well-formed result of the live holder under a fresh key: a formal caller completes the
   * job with a CHATGPT row, an informal one files a row of another origin and the job stays open.
   */
  lemma {:induction false} SubmitOfHolder(db: Db, i: SubmitInput, r: int) returns (d: Db)
    requires Inv(db)
    requires i.generation >= 1 && i.keyWellFormed && i.key !in db.proposals && i.declared != Unknown
    requires !Malformed(i) && HoldsLease(db, i.job, i.caller, i.generation, i.now)
    ensures Answers(db, i, r, d, if i.caller.Formal? then Accepted(db.nextId) else AcceptedSynthetic(db.nextId))
    ensures i.caller.Informal? ==> StoresOne(db, d, i, r, RECEIVED, SUBMIT_RECEIVED) && i.job !in d.terminals
    ensures i.caller.Informal? && (i.declared == Unset || i.declared == Declared(CHATGPT)) ==>
      d.proposals[i.key].origin == SYNTHETIC
    ensures i.caller.Formal? ==>
      && d.proposals == db.proposals[i.key :=
           Proposal(db.nextId, i.job, i.caller, CHATGPT, RECEIVED, i.prepared.digest, i.now, r)]
      && d.terminals == db.terminals[i.job := Terminal(db.nextId, i.now)]
      && d.leases == db.leases - {i.job} && d.deferrals == db.deferrals
      && d.log.events == db.log.events
           + [Event(db.nextId + 1, i.job, SUBMIT_RECEIVED, i.caller, Some(db.nextId), r, i.now),
              Event(db.nextId + 2, i.job, COMPLETED, i.caller, Some(db.nextId), r, i.now)]
  {
    hide Alone, Remaining, Execute, Violates, StoresOne, HasFormalResult, StructureFailed;
    TerminalIffOneFormalResult(db, i.job);
    hide Inv;
    HolderPasses(db, i);
    if i.caller.Formal? {
      AcceptableIsAccepted(db, i, r);
      var b := Accept(i.job, i.key, i.caller, i.generation, i.prepared.digest, i.now, r);
      d := Execute(db, b);
      PartialIndexIsNeverHit(db, b);
      AcceptRows(db, b);
    } else {
      Access(db, SubmitCall(i, SStart, None), r);
      Access(db, SubmitCall(i, SReadKey, None), r);
      Access(db, SubmitCall(i, SReadLease, None), r);
      Access(db, SubmitCall(i, SSynthetic, None), r);
      StoreEffect(db, i, SSynthetic, r);
      d := Execute(db, SubmitBatch(i, SSynthetic, r));
      AloneDone(d, SubmitCall(i, SDone(AcceptedSynthetic(db.nextId)), Some(db.nextId)), r);
      assert StoresOne(db, d, i, r, RECEIVED, SUBMIT_RECEIVED);
      RowOfOne(db, d, i, r);
    }
  }

  lemma {:induction false} RowOfOne(db: Db, d: Db, i: SubmitInput, r: int)
    requires StoresOne(db, d, i, r, RECEIVED, SUBMIT_RECEIVED)
    ensures d.terminals == db.terminals && i.key in d.proposals
    ensures OriginFits(i.caller, i.declared, d.proposals[i.key].origin)
  {
  }

  lemma {:induction false} HolderPasses(db: Db, i: SubmitInput)
    requires i.generation >= 1 && i.keyWellFormed && i.declared != Unknown
    requires !Malformed(i) && HoldsLease(db, i.job, i.caller, i.generation, i.now)
    ensures !InputRefused(i) && !StructureFailed(i)
    ensures LeaseFaultOf(db, i.job, i.caller, i.generation, i.now) == None
    ensures Holds(db, i.job, i.caller, i.generation, i.now)
    ensures EffectiveOrigin(i) == CHATGPT <==> i.caller.Formal?
  {
  }

  lemma {:induction false} AcceptRows(db: Db, b: Batch)
    requires b.Accept? && Completes(db, b) && !Violates(db, b)
    ensures var d := Execute(db, b);
      && d.proposals == db.proposals[b.key :=
           Proposal(db.nextId, b.job, b.owner, CHATGPT, RECEIVED, b.digest, b.now, b.request)]
      && d.terminals == db.terminals[b.job := Terminal(db.nextId, b.now)]
      && d.leases == db.leases - {b.job} && d.deferrals == db.deferrals
      && d.log.events == db.log.events
           + [Event(db.nextId + 1, b.job, SUBMIT_RECEIVED, b.owner, Some(db.nextId), b.request, b.now),
              Event(db.nextId + 2, b.job, COMPLETED, b.owner, Some(db.nextId), b.request, b.now)]
  {
  }

  /** Which origins a caller may declare: a formal one none or CHATGPT, an informal one any. */
  lemma {:induction false} DeclaredOriginIsAccepted(db: Db, i: SubmitInput, r: int)
    requires Inv(db) && i.generation >= 1 && i.keyWellFormed && i.key !in db.proposals
    requires HoldsLease(db, i.job, i.caller, i.generation, i.now)
    requires !i.prepared.oversize && !i.prepared.structureError
    ensures var c := LoneSubmit(db, i, r).1;
      && c.SubmitCall? && c.spc.SDone?
      && (i.caller.Formal? ==>
            (c.spc.answer == Accepted(db.nextId) <==> i.declared == Unset || i.declared == Declared(CHATGPT)))
      && (i.caller.Informal? ==> (c.spc.answer == AcceptedSynthetic(db.nextId) <==> i.declared != Unknown))
      && (!c.spc.answer.Accepted? && !c.spc.answer.AcceptedSynthetic? ==>
            c.spc.answer == Refused(VALIDATION_FAILED, None))
  {
    hide Inv, Execute, Alone, StoresOne;
    if i.declared == Unknown {
      var d, answer := SubmitOfTakenKey(db, i, r);
    } else if Malformed(i) {
      var d, answer := SubmitIsRefused(db, i, r);
    } else {
      var d := SubmitOfHolder(db, i, r);
    }
  }

  // ---------------------------------------------------------------------------------------
  // Defer
  // ---------------------------------------------------------------------------------------

  /** Refused input, or a key that is taken: nothing changes, and five fields decide. */
  lemma {:induction false} DeferOfTakenKey(db: Db, i: DeferInput, r: int, j: int) returns (answer: DeferAnswer)
    requires DeferralInv(db)
    requires RefusedAsMalformed(i) || (j in db.deferrals && db.deferrals[j].key == i.key)
    ensures DeferAnswers(db, i, r, db, answer)
    ensures RefusedAsMalformed(i) ==> answer == DeferRefused(VALIDATION_FAILED, None)
    ensures !RefusedAsMalformed(i) ==>
      answer == if SameRequest(db.deferrals[j], i) then DeferReplayed(i.recheckAt, StatusOf(db, i.job, i.now))
                else DeferRefused(CONFLICT, None)
  {
    hide Alone, Remaining, Execute, Violates, DeferralInv, SameRequest;
    Access(db, DeferCall(i, DStart), r);
    if RefusedAsMalformed(i) {
      answer := DeferRefused(VALIDATION_FAILED, None);
    } else {
      RowUnderKey(db, i, j);
      Access(db, DeferCall(i, DReadKey), r);
      answer := DeferRefused(CONFLICT, None);
      if SameRequest(db.deferrals[j], i) {
        answer := DeferReplayed(i.recheckAt, StatusOf(db, i.job, i.now));
        Access(db, DeferCall(i, DStatusTerminal(i.recheckAt)), r);
        Access(db, DeferCall(i, DStatusLease(i.recheckAt)), r);
        Access(db, DeferCall(i, DStatusDeferral(i.recheckAt)), r);
      }
    }
    AloneDone(db, DeferCall(i, DDone(answer)), r);
  }

  /** A fresh key: the deferral is stored exactly for the holder of a job not yet deferred. */
  lemma {:induction false} DeferOfFreshKey(db: Db, i: DeferInput, r: int) returns (d: Db, answer: DeferAnswer)
    requires Inv(db) && !RefusedAsMalformed(i) && forall j :: j in db.deferrals ==> db.deferrals[j].key != i.key
    ensures DeferAnswers(db, i, r, d, answer)
    ensures i.recheckAt <= i.now ==> answer == DeferRefused(VALIDATION_FAILED, None)
    ensures i.recheckAt > i.now && i.job in db.deferrals ==> answer == DeferRefused(CONFLICT, None)
    ensures i.recheckAt > i.now && i.job !in db.deferrals ==>
      if HoldsLease(db, i.job, i.caller, i.generation, i.now) then answer == DeferAccepted(i.recheckAt)
      else if i.job in db.terminals then answer == DeferRefused(SECOND_RESULT, None)
      else
        && answer.DeferRefused? && answer.reason == LEASE_INVALID && answer.fault.Some?
        && Faulty(db, i.job, i.caller, i.generation, i.now, answer.fault.value)
    ensures !answer.DeferAccepted? ==> d == db
    ensures answer.DeferAccepted? ==>
      && d.leases == db.leases - {i.job} && d.terminals == db.terminals && d.proposals == db.proposals
      && d.log == db.log
      && d.deferrals == db.deferrals[i.job :=
           Deferral(i.key, i.caller, i.why.value, i.recheckAt, i.now, r,
                    Some(DeferAction(i.job, i.caller, i.generation, i.why.value, i.recheckAt)))]
  {
    hide Alone, Remaining, Execute, Violates, LogInv, ProposalInv, LeaseInv, DeferralInv;
    assert i.job in db.terminals ==> i.job !in db.leases;
    hide Inv;
    d := db;
    Access(db, DeferCall(i, DStart), r);
    Access(db, DeferCall(i, DReadKey), r);
    if i.recheckAt <= i.now {
      answer := DeferRefused(VALIDATION_FAILED, None);
    } else {
      Access(db, DeferCall(i, DReadDeferral), r);
      if i.job in db.deferrals {
        answer := DeferRefused(CONFLICT, None);
      } else {
        d, answer := DeferByBatch(db, i, r);
        return;
      }
    }
    AloneDone(db, DeferCall(i, DDone(answer)), r);
  }

  /**
   * From the batch on, in whatever state it finds: stored for the holder, stopped by a deferral the
   * job got meanwhile, or explained by the deferral, the terminal row or the lease.
   */
  lemma {:induction false} DeferByBatch(db: Db, i: DeferInput, r: int) returns (d: Db, answer: DeferAnswer)
    requires !RefusedAsMalformed(i) && forall j :: j in db.deferrals ==> db.deferrals[j].key != i.key
    requires i.job in db.terminals ==> i.job !in db.leases
    ensures Alone(db, DeferCall(i, DBatch), r) == (d, DeferCall(i, DDone(answer)))
    ensures if HoldsLease(db, i.job, i.caller, i.generation, i.now) then
        answer == if i.job in db.deferrals then DeferUnavailable else DeferAccepted(i.recheckAt)
      else if i.job in db.deferrals then answer == DeferRefused(CONFLICT, None)
      else if i.job in db.terminals then answer == DeferRefused(SECOND_RESULT, None)
      else
        && answer.DeferRefused? && answer.reason == LEASE_INVALID && answer.fault.Some?
        && Faulty(db, i.job, i.caller, i.generation, i.now, answer.fault.value)
    ensures !answer.DeferAccepted? ==> d == db
    ensures answer.DeferAccepted? ==>
      && d.leases == db.leases - {i.job} && d.terminals == db.terminals && d.proposals == db.proposals
      && d.log == db.log
      && d.deferrals == db.deferrals[i.job :=
           Deferral(i.key, i.caller, i.why.value, i.recheckAt, i.now, r,
                    Some(DeferAction(i.job, i.caller, i.generation, i.why.value, i.recheckAt)))]
  {
    hide Alone, Remaining, Execute, Violates;
    var b := DeferBatch(i, r);
    d := Execute(db, b);
    Access(db, DeferCall(i, DBatch), r);
    if HoldsLease(db, i.job, i.caller, i.generation, i.now) && i.job in db.deferrals {
      answer := DeferUnavailable;
      DeferIsStopped(db, i, r);
      Access(db, DeferCall(i, DAfterViolation), r);
    } else if HoldsLease(db, i.job, i.caller, i.generation, i.now) {
      answer := DeferAccepted(i.recheckAt);
      DeferRowsOf(db, i, r);
    } else {
      DeferMissesLease(db, i, r);
      Access(db, DeferCall(i, DReread), r);
      Access(db, DeferCall(i, DRereadDeferral), r);
      if i.job in db.deferrals {
        answer := DeferRefused(CONFLICT, None);
      } else {
        Access(db, DeferCall(i, DRereadTerminal), r);
        if i.job in db.terminals {
          answer := DeferRefused(SECOND_RESULT, None);
        } else {
          answer := DeferRefused(LEASE_INVALID, LeaseFaultOf(db, i.job, i.caller, i.generation, i.now));
          Access(db, DeferCall(i, DRereadLease), r);
        }
      }
    }
    AloneDone(d, DeferCall(i, DDone(answer)), r);
  }

  lemma {:induction false} DeferIsStopped(db: Db, i: DeferInput, r: int)
    requires HoldsLease(db, i.job, i.caller, i.generation, i.now) && i.job !in db.terminals && i.job in db.deferrals
    ensures Violates(db, DeferBatch(i, r)) && Execute(db, DeferBatch(i, r)) == db
  {
  }

  lemma {:induction false} DeferRowsOf(db: Db, i: DeferInput, r: int)
    requires i.why.Some? && HoldsLease(db, i.job, i.caller, i.generation, i.now) && i.job !in db.terminals
    requires i.job !in db.deferrals && forall j :: j in db.deferrals ==> db.deferrals[j].key != i.key
    ensures !Violates(db, DeferBatch(i, r)) && Holds(db, i.job, i.caller, i.generation, i.now)
    ensures var d := Execute(db, DeferBatch(i, r));
      && d.leases == db.leases - {i.job} && d.terminals == db.terminals && d.proposals == db.proposals
      && d.log == db.log
      && d.deferrals == db.deferrals[i.job :=
           Deferral(i.key, i.caller, i.why.value, i.recheckAt, i.now, r,
                    Some(DeferAction(i.job, i.caller, i.generation, i.why.value, i.recheckAt)))]
  {
  }

  lemma {:induction false} DeferMissesLease(db: Db, i: DeferInput, r: int)
    requires !HoldsLease(db, i.job, i.caller, i.generation, i.now)
    ensures !Violates(db, DeferBatch(i, r)) && !Holds(db, i.job, i.caller, i.generation, i.now)
    ensures Execute(db, DeferBatch(i, r)) == db
  {
  }

  // ---------------------------------------------------------------------------------------
  // Claim
  // ---------------------------------------------------------------------------------------

  ghost predicate ClaimAnswers(db: Db, i: ClaimInput, r: int, d: Db, answer: ClaimAnswer) {
    Alone(db, ClaimCall(i, CVisible), r) == (d, ClaimCall(i, CDone(answer)))
  }

  /** What a claim that grants nothing answers. */
  lemma {:induction false} ClaimIsDenied(db: Db, i: ClaimInput, r: int) returns (d: Db, answer: ClaimAnswer)
    requires Inv(db)
    requires !i.visible || i.job in db.terminals
          || (i.job in db.deferrals && db.deferrals[i.job].recheckAt > i.now)
          || (i.job in db.leases && db.leases[i.job].expiresAt > i.now)
    ensures ClaimAnswers(db, i, r, d, answer) && SameRows(d, db)
    ensures if !i.visible then answer == NotClaimable(NOT_FOUND) && d == db
      else if i.job in db.terminals then
        && answer == NotClaimable(TERMINAL)
        && d.log.events == db.log.events + [Event(db.nextId, i.job, CLAIM_DENIED, i.owner, None, r, i.now)]
      else if i.job in db.deferrals && db.deferrals[i.job].recheckAt > i.now then
        answer == NotClaimable(DEFERRED) && d == db
      else
        var l := db.leases[i.job];
        && d.log == db.log
        && answer == if l.owner == i.owner then Claimed(l.owner, l.claimedAt, l.expiresAt, l.count)
                     else AlreadyClaimed(l.owner, l.expiresAt)
  {
    hide Alone, Remaining, Inv;
    if i.visible {
      LoneClaim(db, i, r);
      var deferred := ActiveDeferral(db, i.job, i.now) && i.job !in db.terminals;
      d := Alone(db, ClaimCall(i, CVisible), r).0;
      answer := if deferred then NotClaimable(DEFERRED) else Dictated(db, i);
    } else {
      d, answer := db, NotClaimable(NOT_FOUND);
      Access(db, ClaimCall(i, CVisible), r);
      AloneDone(db, ClaimCall(i, CDone(answer)), r);
    }
  }

  /** A job that is neither completed, deferred nor leased is granted for an hour, at the next generation. */
  lemma {:induction false} ClaimIsGranted(db: Db, i: ClaimInput, r: int) returns (d: Db)
    requires Inv(db) && i.visible && i.job !in db.terminals
    requires i.job in db.deferrals ==> db.deferrals[i.job].recheckAt <= i.now
    requires i.job in db.leases ==> db.leases[i.job].expiresAt <= i.now
    ensures var count := if i.job in db.leases then db.leases[i.job].count + 1 else 1;
      && ClaimAnswers(db, i, r, d, Claimed(i.owner, i.now, i.now + 3_600_000, count))
      && d.leases == db.leases[i.job := Lease(i.owner, db.nextId, i.now, i.now + 3_600_000, count)]
    ensures d.terminals == db.terminals && d.proposals == db.proposals && d.deferrals == db.deferrals
    ensures i.job !in db.leases ==>
      d.log.events == db.log.events + [Event(db.nextId + 1, i.job, CLAIMED, i.owner, None, r, i.now)]
    ensures i.job in db.leases ==>
      d.log.events == db.log.events
        + [Event(db.nextId + 1, i.job, LEASE_EXPIRED, db.leases[i.job].owner, None, r, i.now),
           Event(db.nextId + 2, i.job, CLAIMED, i.owner, None, r, i.now)]
  {
    hide Alone, Remaining, Inv;
    LoneClaim(db, i, r);
    d := Execute(db, Claim(i.job, i.owner, i.now, r));
  }

  // ---------------------------------------------------------------------------------------
  // Calls that lost a race
  // ---------------------------------------------------------------------------------------

  /** A claim whose first batch granted nothing tries once more if the job is free by then. */
  lemma {:induction false} ClaimTriesTwice(db: Db, i: ClaimInput, r: int)
    requires Inv(db) && Preemptable(db, i.job, i.now)
    ensures Alone(db, ClaimCall(i, CTerminalAgain(0)), r)
      == (Execute(db, Claim(i.job, i.owner, i.now, r)),
          ClaimCall(i, CDone(Granted(NewLease(db, i.job, i.owner, db.nextId, i.now)))))
    ensures Alone(db, ClaimCall(i, CTerminalAgain(1)), r) == (db, ClaimCall(i, CDone(ClaimUnavailable)))
  {
    hide Alone, Remaining, Execute, Violates, LogInv, ProposalInv, TerminalInv, DeferralInv;
    var d := Execute(db, Claim(i.job, i.owner, i.now, r));
    ClaimBatchEffect(db, i, r);
    hide LeaseInv, Inv;
    assert NewLease(db, i.job, i.owner, Drawn(db), i.now).owner == i.owner;
    forall a: nat | a < 2
      ensures Alone(db, ClaimCall(i, CTerminalAgain(a)), r)
        == Alone(db, ClaimCall(i, if a == 0 then CBatch(1) else CDone(ClaimUnavailable)), r)
    {
      Access(db, ClaimCall(i, CTerminalAgain(a)), r);
      Access(db, ClaimCall(i, CDeferralAgain(a)), r);
      Access(db, ClaimCall(i, CCurrent(a)), r);
    }
    AloneDone(db, ClaimCall(i, CDone(ClaimUnavailable)), r);
    Access(db, ClaimCall(i, CBatch(1)), r);
    Access(d, ClaimCall(i, CLease(1, Drawn(db))), r);
    AloneDone(d, ClaimCall(i, CDone(Granted(NewLease(db, i.job, i.owner, Drawn(db), i.now)))), r);
  }

  /** A formal submit that finds the job completed after its lease read: SECOND_RESULT, stored as such. */
  lemma {:induction false} LateFormalIsSecondResult(db: Db, i: SubmitInput, r: int) returns (d: Db)
    requires Inv(db) && i.job in db.terminals && i.key !in db.proposals
    requires i.declared != Unknown && !InputRefused(i) && !StructureFailed(i)
    ensures Alone(db, SubmitCall(i, SReadFormal, None), r)
      == (d, SubmitCall(i, SDone(Refused(SECOND_RESULT, None)), Some(db.nextId)))
    ensures StoresOne(db, d, i, r, REJECTED(SECOND_RESULT), SUBMIT_REJECTED)
  {
    hide Alone, Remaining, Execute, Violates, StoresOne, HasFormalResult, StructureFailed;
    TerminalIffOneFormalResult(db, i.job);
    hide Inv;
    Access(db, SubmitCall(i, SReadFormal, None), r);
    d := RejectAlone(db, i, SECOND_RESULT, None, r);
  }

  /** A formal submit that lost its lease before its batch stores nothing and says why it lost. */
  lemma {:induction false} LostFormalSubmit(db: Db, i: SubmitInput, r: int) returns (d: Db)
    requires !HoldsLease(db, i.job, i.caller, i.generation, i.now) && i.key !in db.proposals
    ensures Alone(db, SubmitCall(i, SAccept, None), r)
      == (d, SubmitCall(i, SDone(Refused(if i.job in db.terminals then SECOND_RESULT else LEASE_INVALID, None)),
                        Some(db.nextId)))
    ensures SameRows(d, db) && d.log == db.log
  {
    hide Alone, Remaining, Execute, Violates;
    d := Execute(db, SubmitBatch(i, SAccept, r));
    AcceptMissesLease(db, i, r);
    Access(db, SubmitCall(i, SAccept, None), r);
    Access(d, SubmitCall(i, SConfirm, Some(db.nextId)), r);
    Access(d, SubmitCall(i, SFormalRace, Some(db.nextId)), r);
    Access(d, SubmitCall(i, SCheckTerminal, Some(db.nextId)), r);
    AloneDone(d, SubmitCall(i, SDone(Refused(if i.job in db.terminals then SECOND_RESULT else LEASE_INVALID, None)),
                            Some(db.nextId)), r);
  }

  lemma {:induction false} AcceptMissesLease(db: Db, i: SubmitInput, r: int)
    requires !HoldsLease(db, i.job, i.caller, i.generation, i.now)
    ensures !Violates(db, SubmitBatch(i, SAccept, r))
    ensures Execute(db, SubmitBatch(i, SAccept, r)) == db.(nextId := db.nextId + 1)
  {
  }

  /** A submit whose key was taken before its batch stores nothing and answers by the row it lost to. */
  lemma {:induction false} LostKey(db: Db, i: SubmitInput, pc: SubmitPc, r: int)
    requires pc.SReject? || pc.SSynthetic?
      || (pc.SAccept? && HoldsLease(db, i.job, i.caller, i.generation, i.now) && i.job !in db.terminals)
    requires i.key in db.proposals && db.proposals[i.key].digest == i.prepared.digest
    ensures var row := db.proposals[i.key];
      Alone(db, SubmitCall(i, pc, None), r)
        == (db.(nextId := db.nextId + 1),
            SubmitCall(i, SDone(match row.status
                                case RECEIVED => Replayed(row.id, row.createdAt)
                                case REJECTED(reason) => Refused(reason, None)), Some(db.nextId)))
  {
    hide Alone, Remaining, Execute, Violates;
    var d, row := Execute(db, SubmitBatch(i, pc, r)), db.proposals[i.key];
    TakenKeyStops(db, i, pc, r);
    Access(db, SubmitCall(i, pc, None), r);
    var next := SubmitResume(db, i, pc, None, r);
    Access(d, SubmitCall(i, next, Some(db.nextId)), r);
    AloneDone(d, SubmitCall(i, SDone(match row.status
                                     case RECEIVED => Replayed(row.id, row.createdAt)
                                     case REJECTED(reason) => Refused(reason, None)), Some(db.nextId)), r);
  }

  lemma {:induction false} TakenKeyStops(db: Db, i: SubmitInput, pc: SubmitPc, r: int)
    requires pc.SReject? || pc.SSynthetic?
      || (pc.SAccept? && HoldsLease(db, i.job, i.caller, i.generation, i.now) && i.job !in db.terminals)
    requires i.key in db.proposals
    ensures Violates(db, SubmitBatch(i, pc, r))
    ensures Execute(db, SubmitBatch(i, pc, r)) == db.(nextId := db.nextId + 1)
  {
  }
}
