/**
 The transition log as a history. Standard and milestone escrows number their records independently
 but log under the same key, so one key may hold two histories.
 */
module EscrowLog {
  import opened Ledger
  import opened Fees
  import opened EscrowModel
  import opened EscrowFrames
  import opened EscrowFunds

  /** A record that does not exist yet is Pending, as its creation logs it. */
  function EscrowStatus(v: Vault, id: nat): Status {
    if id in v.escrows then v.escrows[id].status else Pending
  }

  function MilestoneEscrowStatus(v: Vault, id: nat): Status {
    if id in v.milestones then v.milestones[id].status else Pending
  }

  function LogOf(w: World, id: nat): seq<Transition> {
    Lookup(w.log, id, [])
  }

  predicate Linked(s: seq<Transition>) {
    forall i :: 0 <= i < |s| - 1 ==> s[i].to == s[i + 1].from
  }

  predicate LegalEdges(s: seq<Transition>) {
    forall i :: 0 <= i < |s| ==> ValidEdge(s[i].from, s[i].to)
  }

  /** A history that starts with Pending -> Active, follows legal edges without a gap, and ends in `last`. */
  predicate IsChain(s: seq<Transition>, last: Status) {
    && s != [] && s[0].from == Pending && s[0].to == Active
    && LegalEdges(s) && Linked(s)
    && s[|s| - 1].to == last
  }

  predicate HistoryOf(s: seq<Transition>, status: Status) {
    if status == Pending then s == [] else IsChain(s, status)
  }

  /** The entries of `s` whose mark is `kind`, in order. */
  function Select(s: seq<Transition>, marks: seq<bool>, kind: bool): seq<Transition>
    requires |s| == |marks|
  {
    if s == [] then []
    else Select(s[..|s| - 1], marks[..|s| - 1], kind) + if marks[|s| - 1] == kind then [s[|s| - 1]] else []
  }

  /** `s` is an interleaving of the two histories. */
  ghost predicate Interleaves(s: seq<Transition>, a: Status, b: Status) {
    exists marks: seq<bool> :: |marks| == |s| && HistoryOf(Select(s, marks, true), a) && HistoryOf(Select(s, marks, false), b)
  }

  /** Somewhere past the start a new history begins. */
  predicate Restarts(s: seq<Transition>) {
    exists k :: 1 <= k < |s| && s[k].from == Pending
  }

  predicate Ordered(s: seq<Transition>, now: nat) {
    && (forall i, j :: 0 <= i < j < |s| ==> s[i].timestamp <= s[j].timestamp)
    && (forall i :: 0 <= i < |s| ==> s[i].timestamp <= now)
  }

  ghost predicate LogOk(s: seq<Transition>, a: Status, b: Status, now: nat) {
    && Interleaves(s, a, b)
    && (a != Pending && b != Pending ==> Restarts(s))
    && Ordered(s, now)
  }

  // ---------------------------------------------------------------- one step

  /** Either nothing under this key moved, or one legal move of one of the two records was appended. */
  predicate LogStep(w: World, w': World, id: nat) {
    var s, s' := LogOf(w, id), LogOf(w', id);
    var a, a' := EscrowStatus(w.vault, id), EscrowStatus(w'.vault, id);
    var b, b' := MilestoneEscrowStatus(w.vault, id), MilestoneEscrowStatus(w'.vault, id);
    || (s' == s && a' == a && b' == b)
    || (s' != [] && s'[..|s'| - 1] == s &&
        (var t := s'[|s'| - 1];
         && ValidEdge(t.from, t.to) && (t.from == Pending ==> t.to == Active) && t.timestamp == w.now
         && ((t.from == a && t.to == a' && b' == b) || (t.from == b && t.to == b' && a' == a))))
  }

  lemma HistoryGrows(s: seq<Transition>, a: Status, t: Transition)
    requires HistoryOf(s, a) && t.from == a && ValidEdge(t.from, t.to) && (t.from == Pending ==> t.to == Active)
    ensures HistoryOf(s + [t], t.to)
  {
  }

  /** Appending one marked entry extends exactly the history it is marked for. */
  lemma SelectAppend(s: seq<Transition>, marks: seq<bool>, t: Transition, mark: bool, kind: bool)
    requires |s| == |marks|
    ensures Select(s + [t], marks + [mark], kind) == Select(s, marks, kind) + if mark == kind then [t] else []
  {
    assert (s + [t])[..|s|] == s && (marks + [mark])[..|s|] == marks;
  }

  lemma InterleavingGrows(s: seq<Transition>, a: Status, b: Status, t: Transition, first: bool)
    requires Interleaves(s, a, b) && ValidEdge(t.from, t.to) && (t.from == Pending ==> t.to == Active)
    requires t.from == if first then a else b
    ensures if first then Interleaves(s + [t], t.to, b) else Interleaves(s + [t], a, t.to)
  {
    var marks: seq<bool> :| |marks| == |s| && HistoryOf(Select(s, marks, true), a) && HistoryOf(Select(s, marks, false), b);
    var marks' := marks + [first];
    SelectAppend(s, marks, t, first, true);
    SelectAppend(s, marks, t, first, false);
    HistoryGrows(Select(s, marks, first), t.from, t);
    assert |marks'| == |s + [t]|;
    assert Select(s + [t], marks', !first) == Select(s, marks, !first);
    assert HistoryOf(Select(s + [t], marks', first), t.to);
  }

  lemma EmptyMeansPending(s: seq<Transition>, a: Status, b: Status)
    requires Interleaves(s, a, b) && s == []
    ensures a == Pending && b == Pending
  {
  }

  lemma LogStepKeeps(w: World, w': World, id: nat)
    requires LogStep(w, w', id) && w.now <= w'.now
    requires LogOk(LogOf(w, id), EscrowStatus(w.vault, id), MilestoneEscrowStatus(w.vault, id), w.now)
    ensures LogOk(LogOf(w', id), EscrowStatus(w'.vault, id), MilestoneEscrowStatus(w'.vault, id), w'.now)
  {
    var s, s' := LogOf(w, id), LogOf(w', id);
    var a, b := EscrowStatus(w.vault, id), MilestoneEscrowStatus(w.vault, id);
    var a', b' := EscrowStatus(w'.vault, id), MilestoneEscrowStatus(w'.vault, id);
    if !(s' == s && a' == a && b' == b) {
      var t := s'[|s'| - 1];
      assert s' == s + [t];
      var first := t.from == a && t.to == a' && b' == b;
      InterleavingGrows(s, a, b, t, first);
      if a' != Pending && b' != Pending {
        if a != Pending && b != Pending {
          var k :| 1 <= k < |s| && s[k].from == Pending;
          assert s'[k] == s[k];
        } else {
          if s == [] {
            EmptyMeansPending(s, a, b);
          }
          assert s'[|s|].from == Pending;
        }
      }
    }
  }

  // ---------------------------------------------------------------- every entry point takes such a step

  lemma CreateLogs(w: World, mentor: Address, learner: Address, amount: int, session: Symbol, token: Address, sessionEnd: nat,
                   usd: int, quoted: int, send: Address, dest: Address, n: nat, id: nat)
    requires IdsOk(w.vault)
    requires CreateInternal(w, mentor, learner, amount, session, token, sessionEnd, usd, quoted, send, dest, n).Some?
    ensures LogStep(w, CreateInternal(w, mentor, learner, amount, session, token, sessionEnd, usd, quoted, send, dest, n).value, id)
  {
  }

  lemma CreateMilestonesLogs(w: World, mentor: Address, learner: Address, amounts: seq<int>, token: Address, id: nat)
    requires IdsOk(w.vault) && CreateMilestones(w, mentor, learner, amounts, token).Some?
    ensures LogStep(w, CreateMilestones(w, mentor, learner, amounts, token).value, id)
  {
  }

  lemma PayOutLogs(w: World, k: nat, gross: int, fee: int, n: nat, closes: bool, actor: Address, id: nat)
    requires w.HasStatus(k, Active) && PayOut(w, k, gross, fee, n, closes, actor).Some?
    ensures LogStep(w, PayOut(w, k, gross, fee, n, closes, actor).value, id)
  {
  }

  lemma ReleasesLog(w: World, c: Call, id: nat)
    requires Releases(c) && AttemptRelease(w, c).Some?
    ensures LogStep(w, AttemptRelease(w, c).value, id)
  {
    ReleasesFrame(w, c);
    if Pays(c) {
      ReleaseIsPayout(w, c);
      var p := PayoutOf(w, c);
      PayOutLogs(w, p.id, p.gross, p.fee, p.sessions, p.closes, p.actor, id);
    }
  }

  lemma DisputeLogs(w: World, caller: Address, k: nat, reason: Symbol, id: nat)
    requires Dispute(w, caller, k, reason).Some?
    ensures LogStep(w, Dispute(w, caller, k, reason).value, id)
  {
  }

  lemma ResolveLogs(w: World, caller: Address, k: nat, pct: nat, id: nat)
    requires ResolveDispute(w, caller, k, pct).Some?
    ensures LogStep(w, ResolveDispute(w, caller, k, pct).value, id)
  {
  }

  lemma RefundLogs(w: World, caller: Address, k: nat, id: nat)
    requires AccountsOk(w.vault) && Refund(w, caller, k).Some?
    ensures LogStep(w, Refund(w, caller, k).value, id)
  {
    assert w.vault.escrows[k].status != Pending;
  }

  lemma CompleteMilestoneLogs(w: World, caller: Address, k: nat, index: nat, q: Quote, id: nat)
    requires CompleteMilestone(w, caller, k, index, q).Some?
    ensures LogStep(w, CompleteMilestone(w, caller, k, index, q).value, id)
  {
  }

  lemma DisputeMilestoneLogs(w: World, signers: set<Address>, k: nat, index: nat, id: nat)
    requires DisputeMilestone(w, signers, k, index).Some?
    ensures LogStep(w, DisputeMilestone(w, signers, k, index).value, id)
  {
  }

  lemma SimpleReleaseLogs(w: World, k: nat, actor: Address, id: nat)
    requires w.HasStatus(k, Active) && ReleaseRestSimple(w, k, actor).Some?
    ensures LogStep(w, ReleaseRestSimple(w, k, actor).value, id)
  {
    var e := w.vault.escrows[k];
    PayOutLogs(w, k, e.amount, FlatFee(w.config.fees.feeBps, e.amount), 0, true, actor, id);
  }

  lemma EmergencyLogs(w: World, caller: Address, aid: nat, id: nat)
    requires ExecuteEmergency(w, caller, aid).Some?
    ensures LogStep(w, ExecuteEmergency(w, caller, aid).value.0, id)
  {
    EmergencyPaysOut(w, caller, aid);
    if ExecuteEmergency(w, caller, aid).value.1 {
      SimpleReleaseLogs(w, w.emergency.actions[aid].params.escrowId, caller, id);
    }
  }

  lemma CreatesLog(w: World, c: Call, id: nat)
    requires Creates(c) && AttemptCreate(w, c).Some? && IdsOk(w.vault)
    ensures LogStep(w, AttemptCreate(w, c).value, id)
  {
    match c
    case CallCreate(mentor, learner, amount, session, token, end, n) =>
      CreateLogs(w, mentor, learner, amount, session, token, end, 0, amount, token, token, n, id);
    case CallCreateUsd(mentor, learner, usd, token, n, oracle) =>
      var amount := usd * 10000000 / oracle.price;
      CreateLogs(w, mentor, learner, amount, USD_SESSION, token, w.now, usd, amount, token, token, n, id);
    case CallCreatePath(learner, mentor, send, sendMax, token, amount, n) =>
      CreateLogs(w, mentor, learner, amount, PATH_SESSION, token, 0, 0, amount, send, token, n, id);
    case CallCreateMilestones(mentor, learner, amounts, token) => CreateMilestonesLogs(w, mentor, learner, amounts, token, id);
  }

  lemma SettlesLog(w: World, c: Call, id: nat)
    requires Settles(c) && AttemptSettle(w, c).Some? && AccountsOk(w.vault)
    ensures LogStep(w, AttemptSettle(w, c).value, id)
  {
    match c
    case CallDispute(caller, k, reason) => DisputeLogs(w, caller, k, reason, id);
    case CallResolve(caller, k, pct) => ResolveLogs(w, caller, k, pct, id);
    case CallRefund(caller, k) => RefundLogs(w, caller, k, id);
    case CallExecuteEmergency(caller, aid) => EmergencyLogs(w, caller, aid, id);
    case CallCompleteMilestone(caller, k, i, q) => CompleteMilestoneLogs(w, caller, k, i, q, id);
    case CallDisputeMilestone(signers, k, i) => DisputeMilestoneLogs(w, signers, k, i, id);
  }

  lemma AttemptLogs(w: World, c: Call, id: nat)
    requires Inv(w) && Attempt(w, c).Some?
    ensures LogStep(w, Attempt(w, c).value, id) && w.now <= Attempt(w, c).value.now
  {
    if Creates(c) {
      CreatesLog(w, c, id);
      CreatesFrame(w, c);
    } else if Releases(c) {
      ReleasesLog(w, c, id);
      ReleasesFrame(w, c);
    } else if Settles(c) {
      SettlesLog(w, c, id);
      SettlesFrame(w, c);
    } else if Configures(c) {
      ConfiguresFrame(w, c);
    } else {
      OtherFrame(w, c);
    }
  }

  // ---------------------------------------------------------------- every run

  /** In every run from an empty contract, the log under each key is an interleaving of at most two histories. */
  lemma {:induction false} LogsOnEveryRun(w: World, calls: seq<Call>, id: nat)
    requires Inv(w) && w.log == map[] && w.vault.escrows == map[] && w.vault.milestones == map[]
    ensures var now := Run(w, calls);
      LogOk(LogOf(now, id), EscrowStatus(now.vault, id), MilestoneEscrowStatus(now.vault, id), now.now)
  {
    if calls == [] {
      var marks: seq<bool> := [];
      assert |marks| == |LogOf(w, id)| && HistoryOf(Select(LogOf(w, id), marks, true), Pending);
    } else {
      var before := Run(w, calls[..|calls| - 1]);
      var c := calls[|calls| - 1];
      LogsOnEveryRun(w, calls[..|calls| - 1], id);
      RunKeeps(w, calls[..|calls| - 1]);
      if Attempt(before, c).Some? {
        AttemptLogs(before, c, id);
        LogStepKeeps(before, Attempt(before, c).value, id);
      }
    }
  }

  lemma {:induction false} SelectAll(s: seq<Transition>, marks: seq<bool>, kind: bool)
    requires |s| == |marks| && Select(s, marks, !kind) == []
    ensures Select(s, marks, kind) == s
  {
    if s != [] {
      SelectAll(s[..|s| - 1], marks[..|s| - 1], kind);
    }
  }

  /** With one record under the key, the log is that record's history. */
  lemma OneRecordOneChain(s: seq<Transition>, a: Status, b: Status)
    requires Interleaves(s, a, b) && (a == Pending || b == Pending)
    ensures HistoryOf(s, if b == Pending then a else b)
  {
    var marks: seq<bool> :| |marks| == |s| && HistoryOf(Select(s, marks, true), a) && HistoryOf(Select(s, marks, false), b);
    SelectAll(s, marks, b == Pending);
  }

  lemma {:induction false} SelectLegal(s: seq<Transition>, marks: seq<bool>)
    requires |s| == |marks| && LegalEdges(Select(s, marks, true)) && LegalEdges(Select(s, marks, false))
    ensures LegalEdges(s)
  {
    if s != [] {
      var last := |s| - 1;
      var mine, other := Select(s, marks, marks[last]), Select(s, marks, !marks[last]);
      var rest := Select(s[..last], marks[..last], marks[last]);
      assert mine == rest + [s[last]] && other == Select(s[..last], marks[..last], !marks[last]);
      assert mine[|rest|] == s[last];
      assert LegalEdges(rest) by {
        assert forall i :: 0 <= i < |rest| ==> rest[i] == mine[i];
      }
      SelectLegal(s[..last], marks[..last]);
      assert forall i :: 0 <= i < last ==> s[i] == s[..last][i];
    }
  }

  lemma InterleavingIsLegal(s: seq<Transition>, a: Status, b: Status)
    requires Interleaves(s, a, b)
    ensures LegalEdges(s)
  {
    var marks: seq<bool> :| |marks| == |s| && HistoryOf(Select(s, marks, true), a) && HistoryOf(Select(s, marks, false), b);
    SelectLegal(s, marks);
  }

  /** A log is linked exactly when one of the two histories is empty. */
  lemma LinkedIff(s: seq<Transition>, a: Status, b: Status, now: nat)
    requires LogOk(s, a, b, now) && (a != Pending || b != Pending)
    ensures LegalEdges(s) && (Linked(s) <==> a == Pending || b == Pending)
    ensures Linked(s) ==> IsChain(s, if a != Pending then a else b)
  {
    InterleavingIsLegal(s, a, b);
    if a != Pending && b != Pending {
      var k :| 1 <= k < |s| && s[k].from == Pending;
      assert ValidEdge(s[k - 1].from, s[k - 1].to);
      assert s[k - 1].to != s[k].from;
    } else {
      OneRecordOneChain(s, a, b);
    }
  }

  /**
   The log under a key is one unbroken history, ending in the record's stored status, exactly when the
   key is not shared: a standard and a milestone escrow with the same id break it.
   */
  lemma LogIsHistoryIff(w: World, calls: seq<Call>, id: nat)
    requires Inv(w) && w.log == map[] && w.vault.escrows == map[] && w.vault.milestones == map[]
    requires var v := Run(w, calls).vault; id in v.escrows || id in v.milestones
    ensures var now := Run(w, calls); var s := LogOf(now, id);
      && (Linked(s) <==> !(id in now.vault.escrows && id in now.vault.milestones))
      && (Linked(s) ==> IsChain(s, if id in now.vault.escrows then now.vault.escrows[id].status else now.vault.milestones[id].status))
      && LegalEdges(s) && Ordered(s, now.now)
  {
    LogsOnEveryRun(w, calls, id);
    RunKeeps(w, calls);
    var now := Run(w, calls);
    var a, b := EscrowStatus(now.vault, id), MilestoneEscrowStatus(now.vault, id);
    assert id in now.vault.escrows <==> a != Pending;
    assert id in now.vault.milestones <==> b != Pending;
    LinkedIff(LogOf(now, id), a, b, now.now);
  }
}
