/** What happens to an escrow whose automatic release keeps failing: retries, then manual or emergency release. */
module EscrowRecovery {
  import opened Options
  import opened Ledger
  import opened Lists
  import opened Fees
  import opened FixedWindows
  import opened EscrowModel
  import opened EscrowFrames
  import opened EscrowFunds

  // ---------------------------------------------------------------- retries

  predicate IsFailedAttempt(w: World, c: Call, id: nat) {
    c.CallAutoRelease? && c.id == id && !c.prechecksOk && Attempt(w, c).Some?
  }

  /** The times of the failed automatic release attempts of one escrow during a run. */
  function FailureTimes(w: World, calls: seq<Call>, id: nat): seq<nat> {
    if calls == [] then []
    else
      var before := Run(w, calls[..|calls| - 1]);
      FailureTimes(w, calls[..|calls| - 1], id) + if IsFailedAttempt(before, calls[|calls| - 1], id) then [before.now] else []
  }

  predicate Spaced(times: seq<nat>) {
    forall k :: 0 <= k < |times| - 1 ==> times[k] + Backoff(k + 1) <= times[k + 1]
  }

  /** While the escrow is Active its record counts the failures so far, holds the end of the last backoff, and asks for help at ten. */
  predicate RetryOk(w: World, times: seq<nat>, id: nat) {
    && |times| <= MAX_AUTO_RELEASE_ATTEMPTS
    && Spaced(times)
    && (id !in w.vault.escrows ==> times == [] && id !in w.failures)
    && (w.HasStatus(id, Active) ==>
          && FailureOf(w, id).attempts == |times|
          && (times != [] ==>
                && FailureOf(w, id).lastFailure == times[|times| - 1]
                && FailureOf(w, id).nextRetry == times[|times| - 1] + Backoff(|times|)
                && FailureOf(w, id).recovery == if |times| == MAX_AUTO_RELEASE_ATTEMPTS then AwaitingManualRecovery else Retrying))
  }

  /** A failed attempt extends the history by one properly spaced time. */
  lemma FailureExtends(w: World, id: nat, q: Quote, times: seq<nat>)
    requires RetryOk(w, times, id) && TryAutoRelease(w, id, false, q).Some?
    ensures RetryOk(TryAutoRelease(w, id, false, q).value, times + [w.now], id)
  {
    var w' := TryAutoRelease(w, id, false, q).value;
    var times' := times + [w.now];
    assert FailureOf(w', id) == AfterFailure(FailureOf(w, id), w.now);
    forall k | 0 <= k < |times'| - 1
      ensures times'[k] + Backoff(k + 1) <= times'[k + 1]
    {
      if k < |times| - 1 {
        assert times'[k] == times[k] && times'[k + 1] == times[k + 1];
      }
    }
  }

  /** Any other call leaves the record of an escrow alone as long as the escrow stays Active. */
  lemma RecordStays(w: World, c: Call, id: nat)
    requires Inv(w) && Attempt(w, c).Some? && !IsFailedAttempt(w, c, id)
    ensures var w' := Attempt(w, c).value;
      && (w'.HasStatus(id, Active) ==> FailureOf(w', id) == FailureOf(w, id))
      && (id !in w'.vault.escrows ==> (id in w'.failures <==> id in w.failures))
  {
    if Creates(c) {
      CreatesFrame(w, c);
    } else if Releases(c) {
      ReleasesFrame(w, c);
      ReleaseRecords(w, c, id);
    } else if Settles(c) {
      SettlesFrame(w, c);
      if c.CallExecuteEmergency? {
        ExecuteRecords(w, c.caller, c.id, id);
      }
    } else if Configures(c) {
      ConfiguresFrame(w, c);
    } else {
      OtherFrame(w, c);
    }
  }

  lemma ReleaseRecords(w: World, c: Call, id: nat)
    requires Releases(c) && AttemptRelease(w, c).Some? && !IsFailedAttempt(w, c, id)
    ensures var w' := AttemptRelease(w, c).value;
      && (w'.HasStatus(id, Active) ==> FailureOf(w', id) == FailureOf(w, id))
      && (id !in w'.vault.escrows ==> (id in w'.failures <==> id in w.failures))
  {
    ReleasesFrame(w, c);
    if Pays(c) {
      ReleaseIsPayout(w, c);
    }
  }

  lemma ExecuteRecords(w: World, caller: Address, aid: nat, id: nat)
    requires ExecuteEmergency(w, caller, aid).Some?
    ensures var w' := ExecuteEmergency(w, caller, aid).value.0;
      && (w'.HasStatus(id, Active) ==> FailureOf(w', id) == FailureOf(w, id))
      && (id !in w'.vault.escrows ==> (id in w'.failures <==> id in w.failures))
  {
    EmergencyPaysOut(w, caller, aid);
  }

  lemma AttemptRetries(w: World, c: Call, id: nat, times: seq<nat>)
    requires Inv(w) && Attempt(w, c).Some? && RetryOk(w, times, id) && !IsFailedAttempt(w, c, id)
    ensures RetryOk(Attempt(w, c).value, times, id)
  {
    RecordStays(w, c, id);
    AttemptEvolves(w, c, id);
  }

  lemma StepRetries(w: World, c: Call, id: nat, times: seq<nat>)
    requires Inv(w) && RetryOk(w, times, id)
    ensures RetryOk(Step(w, c), times + if IsFailedAttempt(w, c, id) then [w.now] else [], id)
  {
    assert times + [] == times;
    if IsFailedAttempt(w, c, id) {
      FailureExtends(w, id, c.q, times);
    } else if Attempt(w, c).Some? {
      AttemptRetries(w, c, id, times);
    }
  }

  /**
   In every run an escrow sees at most ten failed automatic releases, the next one at least an hour
   after the first, then two, four, and eight hours apart. Its record never counts past ten.
   */
  lemma {:induction false} RetriesOnEveryRun(w: World, calls: seq<Call>, id: nat)
    requires Inv(w) && w.vault.escrows == map[] && w.failures == map[]
    ensures RetryOk(Run(w, calls), FailureTimes(w, calls, id), id)
  {
    if calls != [] {
      RetriesOnEveryRun(w, calls[..|calls| - 1], id);
      RunKeeps(w, calls[..|calls| - 1]);
      StepRetries(Run(w, calls[..|calls| - 1]), calls[|calls| - 1], id, FailureTimes(w, calls[..|calls| - 1], id));
    }
  }

  /** An escrow opens to emergency release no sooner than 55 hours after its first failed attempt. */
  lemma EmergencyTakesFiftyFiveHours(w: World, calls: seq<Call>, id: nat)
    requires Inv(w) && w.vault.escrows == map[] && w.failures == map[]
    requires Run(w, calls).HasStatus(id, Active) && EmergencyProposable(Run(w, calls), id)
    ensures var times := FailureTimes(w, calls, id);
      |times| == MAX_AUTO_RELEASE_ATTEMPTS && times[0] + 55 * HOUR <= times[9]
  {
    RetriesOnEveryRun(w, calls, id);
    var t := FailureTimes(w, calls, id);
    BackoffValues();
    assert t[0] + HOUR <= t[1] && t[1] + 2 * HOUR <= t[2] && t[2] + 4 * HOUR <= t[3];
    assert t[3] + 8 * HOUR <= t[4] && t[4] + 8 * HOUR <= t[5] && t[5] + 8 * HOUR <= t[6];
    assert t[6] + 8 * HOUR <= t[7] && t[7] + 8 * HOUR <= t[8] && t[8] + 8 * HOUR <= t[9];
  }

  /** The schedule in hours: 1, 2, 4, then 8 for every later attempt. */
  lemma BackoffValues()
    ensures Backoff(1) == HOUR && Backoff(2) == 2 * HOUR && Backoff(3) == 4 * HOUR
    ensures forall n: nat :: n >= 4 ==> Backoff(n) == 8 * HOUR
  {
    assert Pow2(1) == 2 && Pow2(2) == 4 && Pow2(3) == 8;
    forall n: nat | n >= 4
      ensures Backoff(n) == 8 * HOUR
    {
      Pow2Monotone(3, n - 1);
    }
  }

  lemma PhasesByCount(w: World, times: seq<nat>, id: nat)
    requires RetryOk(w, times, id) && w.HasStatus(id, Active)
    ensures ManualRecoveryOpen(w, id) <==> 5 <= |times| <= 9
    ensures EmergencyProposable(w, id) <==> |times| == 10
    ensures AutoReleaseDue(w, id) ==> |times| < 10
    ensures AutoReleaseDue(w, id) && times != [] ==> times[|times| - 1] + Backoff(|times|) <= w.now
  {
  }

  /**
   The three ways out of a failing release exclude each other in every reachable state: automatic
   retries below ten failures, manual recovery from five to nine, an emergency proposal only at ten.
   */
  lemma RecoveryPhases(w: World, calls: seq<Call>, id: nat)
    requires Inv(w) && w.vault.escrows == map[] && w.failures == map[] && Run(w, calls).HasStatus(id, Active)
    ensures var now := Run(w, calls); var times := FailureTimes(w, calls, id);
      && (ManualRecoveryOpen(now, id) <==> 5 <= |times| <= 9)
      && (EmergencyProposable(now, id) <==> |times| == 10)
      && (EmergencyProposable(now, id) ==> !AutoReleaseDue(now, id) && !ManualRecoveryOpen(now, id))
      && (AutoReleaseDue(now, id) && times != [] ==> times[|times| - 1] + Backoff(|times|) <= now.now)
  {
    RetriesOnEveryRun(w, calls, id);
    PhasesByCount(Run(w, calls), FailureTimes(w, calls, id), id);
  }

  // ---------------------------------------------------------------- emergency actions

  predicate ActionOk(em: Emergency, aid: nat, a: EmergencyAction) {
    && a.approvalCount == |a.signers| && 1 <= |a.signers| <= EMERGENCY_THRESHOLD
    && Distinct(a.signers)
    && (forall i :: 0 <= i < |a.signers| ==> (aid, a.signers[i]) in em.approvals)
    && a.executeAfter == a.proposedAt + EMERGENCY_TIMELOCK_SECS
    && !(a.executed && a.failed)
    && (a.failed ==> a.params in em.failedParams)
    && (a.executed ==> |a.signers| == EMERGENCY_THRESHOLD)
  }

  /** The voting record: counts are counts of distinct approvers, and nothing both ran and failed. */
  ghost predicate VotesOk(em: Emergency) {
    && (forall aid :: aid in em.actions ==> 1 <= aid <= em.count && ActionOk(em, aid, em.actions[aid]))
    && (forall k :: k in em.approvals ==> k.0 in em.actions && k.1 in em.actions[k.0].signers)
    && (em.circuit.Some? ==> em.circuit.value.released >= 0)
  }

  predicate Executed(em: Emergency, aid: nat) {
    aid in em.actions && em.actions[aid].executed
  }

  /** Executed actions belong to released escrows, and no two of them to the same one. */
  ghost predicate ReleasesOk(w: World) {
    && (forall aid :: Executed(w.emergency, aid) ==> w.HasStatus(w.emergency.actions[aid].params.escrowId, Released))
    && (forall i, j :: Executed(w.emergency, i) && Executed(w.emergency, j) && i != j
          ==> w.emergency.actions[i].params.escrowId != w.emergency.actions[j].params.escrowId)
  }

  ghost predicate EmergencyOk(w: World) {
    VotesOk(w.emergency) && ReleasesOk(w)
  }

  lemma ProposeKeeps(w: World, proposer: Address, id: nat, reason: Symbol)
    requires VotesOk(w.emergency) && ProposeEmergency(w, proposer, id, reason).Some?
    ensures VotesOk(ProposeEmergency(w, proposer, id, reason).value.emergency)
  {
    var em, em' := w.emergency, ProposeEmergency(w, proposer, id, reason).value.emergency;
    assert em'.count !in em.actions;
    forall k | k in em'.actions
      ensures 1 <= k <= em'.count && ActionOk(em', k, em'.actions[k])
    {
      if k != em'.count {
        assert ActionOk(em, k, em.actions[k]);
      }
    }
  }

  /** An approval adds one new distinct approver; the fourth is the last one accepted. */
  lemma ApproveKeeps(w: World, signer: Address, aid: nat)
    requires VotesOk(w.emergency) && ApproveEmergency(w, signer, aid).Some?
    ensures var em, em' := w.emergency, ApproveEmergency(w, signer, aid).value.emergency;
      && VotesOk(em')
      && signer !in em.actions[aid].signers && em'.actions[aid].signers == em.actions[aid].signers + [signer]
  {
    var em, em' := w.emergency, ApproveEmergency(w, signer, aid).value.emergency;
    var a, a' := em.actions[aid], em'.actions[aid];
    assert ActionOk(em, aid, a);
    assert a'.signers == a.signers + [signer];
    forall k | k in em'.actions
      ensures 1 <= k <= em'.count && ActionOk(em', k, em'.actions[k])
    {
      assert ActionOk(em, k, em.actions[k]);
    }
  }

  /** Marking one open action as failed, or as executed with all four approvals. */
  lemma MarkKeepsVotes(em: Emergency, em': Emergency, aid: nat)
    requires VotesOk(em) && aid in em.actions && em'.count == em.count && em'.approvals == em.approvals
    requires em'.circuit.Some? ==> em'.circuit.value.released >= 0
    requires em.failedParams <= em'.failedParams
    requires var a := em.actions[aid];
      !a.executed && !a.failed
      && (|| (em'.actions == em.actions[aid := a.(failed := true)] && a.params in em'.failedParams)
          || (em'.actions == em.actions[aid := a.(executed := true)] && |a.signers| == EMERGENCY_THRESHOLD))
    ensures VotesOk(em')
  {
    forall k | k in em'.actions
      ensures 1 <= k <= em'.count && ActionOk(em', k, em'.actions[k])
    {
      assert ActionOk(em, k, em.actions[k]);
    }
  }

  lemma ExecutionShape(w: World, caller: Address, aid: nat)
    requires ExecuteEmergency(w, caller, aid).Some?
    ensures aid in w.emergency.actions && !w.emergency.actions[aid].executed && !w.emergency.actions[aid].failed
    ensures var em := w.emergency; var a := em.actions[aid]; var (w', done) := ExecuteEmergency(w, caller, aid).value;
      && done == EmergencyAdmitted(w, caller, a).Some?
      && w'.emergency == (
        if done then em.(actions := em.actions[aid := a.(executed := true)], circuit := EmergencyAdmitted(w, caller, a))
        else em.(actions := em.actions[aid := a.(failed := true)], failedParams := em.failedParams + {a.params}))
  {
  }

  lemma ExecuteKeepsVotes(w: World, caller: Address, aid: nat)
    requires BooksOk(w.vault) && VotesOk(w.emergency) && ExecuteEmergency(w, caller, aid).Some?
    ensures VotesOk(ExecuteEmergency(w, caller, aid).value.0.emergency)
  {
    var a := w.emergency.actions[aid];
    ExecutionShape(w, caller, aid);
    if EmergencyAdmitted(w, caller, a).Some? {
      AdmittedMeans(w, caller, a);
      UnpaidCoversSessions(w.vault.escrows[a.params.escrowId], 0);
      AdmittedCircuit(w, caller, a);
    }
    MarkKeepsVotes(w.emergency, ExecuteEmergency(w, caller, aid).value.0.emergency, aid);
  }

  lemma AdmittedCircuit(w: World, caller: Address, a: EmergencyAction)
    requires EmergencyAdmitted(w, caller, a).Some? && a.params.amount >= 0
    requires w.emergency.circuit.Some? ==> w.emergency.circuit.value.released >= 0
    ensures EmergencyAdmitted(w, caller, a).value.released >= 0
  {
  }

  lemma ExecuteKeepsReleases(w: World, caller: Address, aid: nat)
    requires ReleasesOk(w) && ExecuteEmergency(w, caller, aid).Some?
    ensures ReleasesOk(ExecuteEmergency(w, caller, aid).value.0)
  {
    var (w', done) := ExecuteEmergency(w, caller, aid).value;
    if done {
      ExecutionReleases(w, caller, aid);
    }
    forall k | Executed(w'.emergency, k)
      ensures w'.HasStatus(w'.emergency.actions[k].params.escrowId, Released)
      ensures k != aid ==> Executed(w.emergency, k)
    {
      EmergencyEvolves(w, caller, aid, w'.emergency.actions[k].params.escrowId);
    }
  }

  lemma ExecutionReleases(w: World, caller: Address, aid: nat)
    requires ExecuteEmergency(w, caller, aid).Some? && ExecuteEmergency(w, caller, aid).value.1
    ensures var w' := ExecuteEmergency(w, caller, aid).value.0; var a := w.emergency.actions[aid]; var id := a.params.escrowId;
      && w.HasStatus(id, Active) && w'.HasStatus(id, Released)
      && Lookup(w'.vault.paid, id, 0) == Lookup(w.vault.paid, id, 0) + a.params.amount
      && w'.emergency.actions == w.emergency.actions[aid := a.(executed := true)]
  {
  }

  /** Calls outside the emergency path keep the invariant because released escrows stay released. */
  lemma QuietKeepsReleases(w: World, c: Call)
    requires Inv(w) && ReleasesOk(w) && Attempt(w, c).Some? && Attempt(w, c).value.emergency.actions == w.emergency.actions
    ensures ReleasesOk(Attempt(w, c).value)
  {
    var w' := Attempt(w, c).value;
    forall k | Executed(w'.emergency, k)
      ensures w'.HasStatus(w'.emergency.actions[k].params.escrowId, Released)
    {
      assert Executed(w.emergency, k);
      AttemptEvolves(w, c, w.emergency.actions[k].params.escrowId);
    }
  }

  lemma QuietFrame(w: World, c: Call)
    requires Attempt(w, c).Some? && !c.CallProposeEmergency? && !c.CallApproveEmergency? && !c.CallExecuteEmergency?
    ensures Attempt(w, c).value.emergency == w.emergency
  {
    if Creates(c) {
      CreatesFrame(w, c);
    } else if Releases(c) {
      ReleasesFrame(w, c);
    } else if Settles(c) {
      SettlesFrame(w, c);
    } else if Configures(c) {
      ConfiguresFrame(w, c);
    } else {
      OtherFrame(w, c);
    }
  }

  lemma VotingKeepsReleases(w: World, c: Call)
    requires VotesOk(w.emergency) && ReleasesOk(w) && Attempt(w, c).Some? && (c.CallProposeEmergency? || c.CallApproveEmergency?)
    ensures ReleasesOk(Attempt(w, c).value)
  {
    var w' := Attempt(w, c).value;
    OtherFrame(w, c);
    assert w.emergency.count + 1 !in w.emergency.actions;
    forall k | Executed(w'.emergency, k)
      ensures Executed(w.emergency, k) && w'.emergency.actions[k].params == w.emergency.actions[k].params
    {
    }
  }

  lemma AttemptEmergency(w: World, c: Call)
    requires Inv(w) && EmergencyOk(w) && Attempt(w, c).Some?
    ensures EmergencyOk(Attempt(w, c).value)
  {
    if c.CallProposeEmergency? {
      ProposeKeeps(w, c.caller, c.id, c.reason);
      VotingKeepsReleases(w, c);
    } else if c.CallApproveEmergency? {
      ApproveKeeps(w, c.caller, c.id);
      VotingKeepsReleases(w, c);
    } else if c.CallExecuteEmergency? {
      ExecuteKeepsVotes(w, c.caller, c.id);
      ExecuteKeepsReleases(w, c.caller, c.id);
    } else {
      QuietFrame(w, c);
      QuietKeepsReleases(w, c);
    }
  }

  /**
   In every run: an action's count is its number of distinct approvers, at most four; none is both
   executed and failed; an executed one has all four, and its escrow is released by no other action.
   */
  lemma {:induction false} EmergencyOnEveryRun(w: World, calls: seq<Call>)
    requires Inv(w) && w.emergency == Emergency(0, map[], {}, {}, None)
    ensures EmergencyOk(Run(w, calls))
  {
    if calls != [] {
      var before := Run(w, calls[..|calls| - 1]);
      EmergencyOnEveryRun(w, calls[..|calls| - 1]);
      RunKeeps(w, calls[..|calls| - 1]);
      if Attempt(before, calls[|calls| - 1]).Some? {
        AttemptEmergency(before, calls[|calls| - 1]);
      }
    }
  }

  // ---------------------------------------------------------------- what a successful execution guarantees

  lemma BreakerCaps(c: Circuit, now: nat, pool: int, amount: int)
    requires NextCircuit(c, now, pool, amount).Some? && c.released >= 0 && amount > 0
    ensures amount <= NextCircuit(c, now, pool, amount).value.released
    ensures NextCircuit(c, now, pool, amount).value.released * 10 <= pool
  {
  }

  /**
   A successful execution means: exactly four distinct approvals by signers registered now, a day since
   the proposal, parameters that never failed, an escrow paid out in full for the amount proposed, and
   no more than a tenth of the Active pool released in the breaker's window, this amount included.
   */
  lemma ExecutionIsAuthorised(w: World, caller: Address, aid: nat)
    requires Inv(w) && EmergencyOk(w) && ExecuteEmergency(w, caller, aid).Some? && ExecuteEmergency(w, caller, aid).value.1
    ensures var a := w.emergency.actions[aid]; var w' := ExecuteEmergency(w, caller, aid).value.0; var id := a.params.escrowId;
      && w.config.emergencySigners.Some? && ValidSignatures(w.config.emergencySigners.value, a.signers)
      && w.now >= a.proposedAt + EMERGENCY_TIMELOCK_SECS
      && a.params !in w.emergency.failedParams
      && w.HasStatus(id, Active) && w'.HasStatus(id, Released)
      && Lookup(w'.vault.paid, id, 0) == Lookup(w.vault.paid, id, 0) + a.params.amount
      && w'.emergency.circuit.Some? && a.params.amount <= w'.emergency.circuit.value.released
      && w'.emergency.circuit.value.released * 10 <= ActivePool(w.vault.escrows, w.vault.escrowCount)
  {
    var a := w.emergency.actions[aid];
    ExecutionReleases(w, caller, aid);
    ExecutionShape(w, caller, aid);
    AdmittedMeans(w, caller, a);
    assert ActionOk(w.emergency, aid, a);
    UnpaidCoversSessions(w.vault.escrows[a.params.escrowId], 0);
    BreakerCaps(w.emergency.circuit.GetOr(Circuit(w.now, 0)), w.now, ActivePool(w.vault.escrows, w.vault.escrowCount), a.params.amount);
  }

  lemma AdmittedMeans(w: World, caller: Address, a: EmergencyAction)
    requires EmergencyAdmitted(w, caller, a).Some?
    ensures w.config.emergencySigners.Some? && ValidSignatures(w.config.emergencySigners.value, a.signers) && w.now >= a.executeAfter
    ensures w.HasStatus(a.params.escrowId, Active) && w.vault.escrows[a.params.escrowId].amount == a.params.amount
    ensures NextCircuit(w.emergency.circuit.GetOr(Circuit(w.now, 0)), w.now,
                        ActivePool(w.vault.escrows, w.vault.escrowCount), a.params.amount) == EmergencyAdmitted(w, caller, a)
  {
  }

  // ---------------------------------------------------------------- what emergencies can release in a day

  predicate IsExecution(w: World, c: Call) {
    c.CallExecuteEmergency? && ExecuteEmergency(w, c.caller, c.id).Some? && ExecuteEmergency(w, c.caller, c.id).value.1
  }

  function ExecutionEntry(w: World, c: Call): Entry
    requires IsExecution(w, c)
  {
    var circuit := Step(w, c).emergency.circuit.GetOr(Circuit(w.now, 0));
    Entry(w.now, circuit.windowStart, w.emergency.actions[c.id].params.amount, circuit.released)
  }

  /** The emergency releases of a run, each with the breaker's window and total after it. */
  function Executions(w: World, calls: seq<Call>): seq<Entry> {
    if calls == [] then []
    else
      var before, c := Run(w, calls[..|calls| - 1]), calls[|calls| - 1];
      Executions(w, calls[..|calls| - 1]) + if IsExecution(before, c) then [ExecutionEntry(before, c)] else []
  }

  function Larger(a: nat, b: int): nat {
    if b > a then b else a
  }

  /** The largest Active pool at any of them. */
  function LargestPool(w: World, calls: seq<Call>): nat {
    if calls == [] then 0
    else
      var before, c := Run(w, calls[..|calls| - 1]), calls[|calls| - 1];
      var largest := LargestPool(w, calls[..|calls| - 1]);
      if IsExecution(before, c) then Larger(largest, ActivePool(before.vault.escrows, before.vault.escrowCount)) else largest
  }

  /** The breaker stands at the last release, and its total is the sum of the releases of its window. */
  predicate BreakerOk(circuit: Option<Circuit>, now: nat, es: seq<Entry>, limit: int) {
    && Windowed(es, EMERGENCY_CIRCUIT_WINDOW_SECS, limit) && Totals(es)
    && (circuit.None? ==> es == [])
    && (circuit.Some? ==>
          && es != [] && circuit.value.windowStart <= now
          && circuit.value == Circuit(es[|es| - 1].windowStart, es[|es| - 1].total))
  }

  lemma SameWindow(c: Circuit, now: nat, es: seq<Entry>, limit: int, e: Entry)
    requires BreakerOk(Some(c), now, es, limit) && now < c.windowStart + EMERGENCY_CIRCUIT_WINDOW_SECS && c.released >= 0
    requires e == Entry(now, c.windowStart, e.amount, c.released + e.amount) && 0 <= e.amount && e.total <= limit
    ensures BreakerOk(Some(Circuit(e.windowStart, e.total)), now, es + [e], limit)
  {
    Extend(es, e, EMERGENCY_CIRCUIT_WINDOW_SECS, limit);
    SameWindowTotals(es, e);
  }

  lemma NewWindow(circuit: Option<Circuit>, now: nat, es: seq<Entry>, limit: int, e: Entry)
    requires BreakerOk(circuit, now, es, limit) && e == Entry(now, now, e.amount, e.amount) && 0 <= e.amount <= limit
    requires circuit.Some? ==> now >= circuit.value.windowStart + EMERGENCY_CIRCUIT_WINDOW_SECS
    ensures BreakerOk(Some(Circuit(now, e.amount)), now, es + [e], limit)
  {
    Extend(es, e, EMERGENCY_CIRCUIT_WINDOW_SECS, limit);
    NewWindowTotals(es, e, EMERGENCY_CIRCUIT_WINDOW_SECS, limit);
  }

  lemma BreakerStep(circuit: Option<Circuit>, now: nat, pool: int, amount: int, es: seq<Entry>, limit: int, c': Circuit)
    requires BreakerOk(circuit, now, es, limit) && amount >= 0 && MaxReleasable(pool) <= limit
    requires NextCircuit(circuit.GetOr(Circuit(now, 0)), now, pool, amount) == Some(c')
    ensures BreakerOk(Some(c'), now, es + [Entry(now, c'.windowStart, amount, c'.released)], limit)
  {
    var e := Entry(now, c'.windowStart, amount, c'.released);
    if es != [] {
      assert InWindow(es[|es| - 1], EMERGENCY_CIRCUIT_WINDOW_SECS, limit);
    }
    if circuit.Some? && now < circuit.value.windowStart + EMERGENCY_CIRCUIT_WINDOW_SECS {
      SameWindow(circuit.value, now, es, limit, e);
    } else {
      NewWindow(circuit, now, es, limit, e);
    }
  }

  lemma TenthOfPool(pool: int, largest: nat)
    requires pool <= largest
    ensures MaxReleasable(pool) <= largest / 10
  {
  }

  lemma ExecutionMovesBreaker(w: World, c: Call)
    requires Inv(w) && IsExecution(w, c)
    ensures var amount := w.emergency.actions[c.id].params.amount; var w' := Step(w, c);
      && amount >= 0 && w'.now == w.now && w'.emergency.circuit.Some?
      && NextCircuit(w.emergency.circuit.GetOr(Circuit(w.now, 0)), w.now, ActivePool(w.vault.escrows, w.vault.escrowCount), amount) == w'.emergency.circuit
  {
    var a := w.emergency.actions[c.id];
    ExecuteFrame(w, c.caller, c.id);
    ExecutionShape(w, c.caller, c.id);
    AdmittedMeans(w, c.caller, a);
    UnpaidCoversSessions(w.vault.escrows[a.params.escrowId], 0);
  }

  lemma ExecutionCounts(w: World, c: Call, es: seq<Entry>, pool: int, largest: nat)
    requires Inv(w) && IsExecution(w, c) && BreakerOk(w.emergency.circuit, w.now, es, largest / 10)
    requires pool == ActivePool(w.vault.escrows, w.vault.escrowCount) && pool <= largest
    ensures BreakerOk(Step(w, c).emergency.circuit, Step(w, c).now, es + [ExecutionEntry(w, c)], largest / 10)
  {
    ExecutionMovesBreaker(w, c);
    TenthOfPool(pool, largest);
    BreakerStep(w.emergency.circuit, w.now, pool, w.emergency.actions[c.id].params.amount, es, largest / 10, Step(w, c).emergency.circuit.value);
  }

  lemma BreakerRests(w: World, c: Call)
    requires Attempt(w, c).Some? && !IsExecution(w, c)
    ensures Attempt(w, c).value.emergency.circuit == w.emergency.circuit && w.now <= Attempt(w, c).value.now
  {
    if c.CallExecuteEmergency? {
      ExecutionShape(w, c.caller, c.id);
      ExecuteFrame(w, c.caller, c.id);
    } else if c.CallProposeEmergency? || c.CallApproveEmergency? {
    } else {
      QuietFrame(w, c);
      ClockGrows(w, c);
    }
  }

  lemma ClockGrows(w: World, c: Call)
    requires Attempt(w, c).Some?
    ensures w.now <= Attempt(w, c).value.now
  {
    if Creates(c) {
      CreatesFrame(w, c);
    } else if Releases(c) {
      ReleasesFrame(w, c);
    } else if Settles(c) {
      SettlesFrame(w, c);
    } else if Configures(c) {
      ConfiguresFrame(w, c);
    } else {
      OtherFrame(w, c);
    }
  }

  lemma BreakerHolds(w: World, c: Call, es: seq<Entry>, before: nat, largest: nat)
    requires Inv(w) && BreakerOk(w.emergency.circuit, w.now, es, before / 10) && before <= largest
    requires IsExecution(w, c) ==> ActivePool(w.vault.escrows, w.vault.escrowCount) <= largest
    ensures BreakerOk(Step(w, c).emergency.circuit, Step(w, c).now, es + if IsExecution(w, c) then [ExecutionEntry(w, c)] else [], largest / 10)
  {
    HigherLimit(es, EMERGENCY_CIRCUIT_WINDOW_SECS, before / 10, largest / 10);
    if IsExecution(w, c) {
      ExecutionCounts(w, c, es, ActivePool(w.vault.escrows, w.vault.escrowCount), largest);
    } else {
      assert es + [] == es;
      if Attempt(w, c).Some? {
        BreakerRests(w, c);
      }
    }
  }

  lemma {:induction false} BreakerCounts(w: World, calls: seq<Call>)
    requires Inv(w) && w.emergency.circuit.None?
    ensures BreakerOk(Run(w, calls).emergency.circuit, Run(w, calls).now, Executions(w, calls), LargestPool(w, calls) / 10)
  {
    if calls != [] {
      var shorter, c := calls[..|calls| - 1], calls[|calls| - 1];
      BreakerCounts(w, shorter);
      RunKeeps(w, shorter);
      BreakerHolds(Run(w, shorter), c, Executions(w, shorter), LargestPool(w, shorter), LargestPool(w, calls));
    }
  }

  /**
   In every run the breaker's total is the sum of the emergency releases of its window, at most a tenth of the
   largest Active pool at any of them; and any 24 hours, however they cut the windows, see at most twice that.
   */
  lemma EmergencyReleasesPerDay(w: World, calls: seq<Call>, t: nat)
    requires Inv(w) && w.emergency.circuit.None?
    ensures var es := Executions(w, calls); var tenth := LargestPool(w, calls) / 10; var circuit := Run(w, calls).emergency.circuit;
      && (circuit.Some? ==> circuit.value.released == Amount(OfWindow(es, circuit.value.windowStart)) <= tenth)
      && Amount(Within(es, t, EMERGENCY_CIRCUIT_WINDOW_SECS)) <= 2 * tenth
  {
    var es := Executions(w, calls);
    BreakerCounts(w, calls);
    TwiceTheLimit(es, t, EMERGENCY_CIRCUIT_WINDOW_SECS, LargestPool(w, calls) / 10);
    if es != [] {
      assert InWindow(es[|es| - 1], EMERGENCY_CIRCUIT_WINDOW_SECS, LargestPool(w, calls) / 10);
    }
  }

  // ---------------------------------------------------------------- failed parameters are blocked for good

  /** How one call may change the emergency record. */
  predicate Remembers(em: Emergency, em': Emergency, aid: nat) {
    && em.failedParams <= em'.failedParams
    && (aid in em.actions ==>
          && aid in em'.actions && em'.actions[aid].params == em.actions[aid].params
          && (em.actions[aid].executed ==> em'.actions[aid].executed)
          && (em.actions[aid].failed ==> em'.actions[aid].failed))
    && (Executed(em', aid) && !Executed(em, aid) ==> em'.actions[aid].params !in em.failedParams)
  }

  lemma ExecuteRemembers(w: World, caller: Address, k: nat, aid: nat)
    requires ExecuteEmergency(w, caller, k).Some?
    ensures Remembers(w.emergency, ExecuteEmergency(w, caller, k).value.0.emergency, aid)
  {
    ExecutionShape(w, caller, k);
    FreshParams(w, caller, k);
  }

  lemma FreshParams(w: World, caller: Address, aid: nat)
    requires ExecuteEmergency(w, caller, aid).Some?
    ensures w.emergency.actions[aid].params !in w.emergency.failedParams
  {
  }

  lemma AttemptRemembers(w: World, c: Call, aid: nat)
    requires VotesOk(w.emergency) && Attempt(w, c).Some?
    ensures Remembers(w.emergency, Attempt(w, c).value.emergency, aid)
  {
    if c.CallExecuteEmergency? {
      ExecuteRemembers(w, c.caller, c.id, aid);
    } else if c.CallApproveEmergency? {
    } else if c.CallProposeEmergency? {
      assert w.emergency.count + 1 !in w.emergency.actions;
    } else {
      QuietFrame(w, c);
    }
  }

  /** Once parameters have failed, no action carrying them is executed in the rest of any run. */
  lemma {:induction false} FailedParametersStayBlocked(w: World, calls: seq<Call>, p: Params, aid: nat)
    requires Inv(w) && EmergencyOk(w) && p in w.emergency.failedParams
    ensures var em := Run(w, calls).emergency;
      && EmergencyOk(Run(w, calls)) && p in em.failedParams
      && (Executed(em, aid) && em.actions[aid].params == p ==> Executed(w.emergency, aid))
  {
    if calls != [] {
      var before := Run(w, calls[..|calls| - 1]);
      FailedParametersStayBlocked(w, calls[..|calls| - 1], p, aid);
      RunKeeps(w, calls[..|calls| - 1]);
      if Attempt(before, calls[|calls| - 1]).Some? {
        AttemptEmergency(before, calls[|calls| - 1]);
        AttemptRemembers(before, calls[|calls| - 1], aid);
      }
    }
  }
}
