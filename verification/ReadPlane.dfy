/**
 * The read plane's view of a job: the terminal row and the lease row are read one after the
 * other, so the two reads may fall at different worlds of a run.
 */
module ReadPlane {
  import opened Basics
  import opened ReceiptLog
  import opened WorkflowTables
  import opened LeaseHistory
  import opened WorkflowCalls
  import opened WorkflowRuns
  import opened LoneCalls
  import opened LoneRuns

  datatype ServerState = ServerState(status: JobStatus, owner: Option<Principal>, expiresAt: Option<int>)

  /** Two separate reads: the terminal row first, the lease row later. */
  function JobServerState(first: Db, second: Db, job: int, now: int): ServerState {
    if job in first.terminals then ServerState(JobCompleted, None, None)
    else if LiveLease(second, job, now) then
      ServerState(JobClaimed, Some(second.leases[job].owner), Some(second.leases[job].expiresAt))
    else ServerState(JobQueued, None, None)
  }

  /** The shown status is the job's; QUEUED also stands for deferred. */
  predicate Shows(shown: JobStatus, status: JobStatus) {
    shown == status || (shown == JobQueued && status == JobDeferred)
  }

  lemma {:induction false} StepKeepsTerminals(w: World, v: World, job: int)
    requires Step(w, v) && job in w.tables.db.terminals
    ensures job in v.tables.db.terminals
  {
    hide Execute, Resume, Issues, Ends;
    if r, c :| Begins(w, r, c, v) {
    } else {
      var r :| Proceeds(w, r, v);
      if Issues(w.calls[r], r).Some? {
        RowsAreKept(w.tables.db, Issues(w.calls[r], r).value);
      }
    }
  }

  lemma {:induction false} TerminalsAreKept(run: seq<World>, m: nat, n: nat, job: int)
    requires Run(run) && m <= n < |run| && job in run[m].tables.db.terminals
    ensures job in run[n].tables.db.terminals
  {
    hide Step;
    if m < n {
      TerminalsAreKept(run, m, n - 1, job);
      assert Step(run[n - 1], run[n - 1 + 1]);
      StepKeepsTerminals(run[n - 1], run[n], job);
    }
  }

  lemma {:induction false} WorldTablesHold(w: World)
    requires WorldInv(w)
    ensures Inv(w.tables.db)
  {
  }

  /**
   * The read plane's answer, with its two reads at any two worlds of any run: it shows the
   * job's status at the second read exactly if the job was not completed in between; and a
   * shown lease is the one that is live then.
   */
  lemma {:induction false} ReadPlaneAgrees(run: seq<World>, m: nat, n: nat, job: int, now: int)
    requires Run(run) && m <= n < |run|
    ensures var first, second := run[m].tables.db, run[n].tables.db;
      var s := JobServerState(first, second, job, now);
      && (Shows(s.status, StatusOf(second, job, now)) <==> !(job !in first.terminals && job in second.terminals))
      && (s.status == JobClaimed ==>
            && LiveLease(second, job, now)
            && s == ServerState(JobClaimed, Some(second.leases[job].owner), Some(second.leases[job].expiresAt)))
  {
    hide WorldInv, Run, LogInv, ProposalInv, LeaseInv, DeferralInv, HasFormalResult;
    ReachableInv(run, n);
    WorldTablesHold(run[n]);
    if job in run[m].tables.db.terminals { TerminalsAreKept(run, m, n, job); }
  }

  /** Claim at 0 under request 1, and a formal result at 5 under request 2. */
  function ClaimedDb(owner: Principal): Db { Execute(EMPTY, Claim(1, owner, 0, 1)) }

  function CompletedDb(owner: Principal): Db { Execute(ClaimedDb(owner), Accept(1, 7, owner, 1, 99, 5, 2)) }

  /** The two reads are not one snapshot: a job completed in between is shown as QUEUED. */
  lemma {:induction false} TornReadHidesCompletion(owner: Principal)
    ensures var first, second := ClaimedDb(owner), CompletedDb(owner);
      && Inv(first) && Inv(second)
      && StatusOf(first, 1, 5) == JobClaimed && StatusOf(second, 1, 5) == JobCompleted
      && JobServerState(first, second, 1, 5).status == JobQueued
  {
    hide Execute, Inv, Violates;
    FirstClaim(owner);
    var d := ClaimedDb(owner);
    var b := Accept(1, 7, owner, 1, 99, 5, 2);
    PartialIndexIsNeverHit(d, b);
    AcceptEffect(d, b);
    ExecuteKeepsInv(d, b);
    TerminalIffOneFormalResult(CompletedDb(owner), 1);
  }

  /** Both states lie on one run, in which a formal caller claims and submits. */
  lemma {:induction false} TornReadIsReached(owner: Principal) returns (run: seq<World>, m: nat, n: nat)
    requires owner.Formal?
    ensures Run(run) && m <= n < |run|
    ensures run[m].tables.db == ClaimedDb(owner) && run[n].tables.db == CompletedDb(owner)
  {
    hide Alone, Remaining, Run, Execute, Inv, Violates;
    var submit := SubmitInput(1, owner, 1, 7, true, Unset, Prepared(99, false, false), 5);
    EmptyRun();
    run := [World(Traced(EMPTY, []), map[], {})];
    FirstClaim(owner);
    run := LoneCallIsARun(run, 1, ClaimCall(ClaimInput(1, owner, true, 0), CVisible));
    m := |run| - 1;
    assert Acceptable(ClaimedDb(owner), submit);
    AcceptableIsAccepted(ClaimedDb(owner), submit, 2);
    run := LoneCallIsARun(run, 2, SubmitCall(submit, SStart, None));
    n := |run| - 1;
  }
}
