/**
 Where the money is: one invariant over the whole vault that every entry point keeps, and what it
 says about every run. Unlike `monitor_escrow_invariants`, the yardstick is the quoted amount.
 */
module EscrowFunds {
  import opened Options
  import opened Sums
  import opened Ledger
  import opened Fees
  import opened EscrowModel
  import opened EscrowFrames

  // ---------------------------------------------------------------- accounting of one escrow

  /** What is left after the recorded sessions were paid at the floor rate. */
  function Unpaid(e: Escrow): int {
    e.quoted - e.sessionsDone * PerSession(e)
  }

  predicate Live(s: Status) {
    s == Active || s == Disputed
  }

  predicate Shaped(e: Escrow) {
    && 1 <= e.totalSessions <= e.quoted <= MAX_FINANCIAL_AMOUNT
    && e.sessionsDone <= e.totalSessions
    && (e.status != Released ==> e.sessionsDone < e.totalSessions && e.amount == Unpaid(e))
    && e.platformFee >= 0 && e.netAmount >= 0
  }

  /** Per-status accounting; `paid` is everything ever transferred out for this escrow. */
  predicate AccountOk(e: Escrow, paid: int) {
    && Shaped(e)
    && match e.status
       case Pending => false
       case Active => paid == e.platformFee + e.netAmount == e.quoted - e.amount
       case Disputed => paid == e.platformFee + e.netAmount == e.quoted - e.amount
       case Released => e.amount == 0 && paid == e.platformFee + e.netAmount == e.quoted
       case Refunded => e.platformFee + e.netAmount == e.quoted - e.amount && paid == e.quoted
       case Resolved => e.platformFee + e.netAmount == e.amount && paid == e.quoted
  }

  lemma MulMonotone(a: nat, x: nat, y: nat)
    requires x <= y
    ensures a * x <= a * y
  {}

  lemma SharesFit(quoted: nat, total: nat, done: nat, n: nat)
    requires 1 <= total <= quoted && done + n <= total
    ensures quoted / total >= 1
    ensures 0 <= quoted / total * n <= quoted - done * (quoted / total) <= quoted
    ensures done < total ==> quoted - done * (quoted / total) > 0
  {
    var per := quoted / total;
    assert per * total <= quoted;
    assert per >= 1;
    MulMonotone(per, done + n, total);
    assert per * (done + n) == per * done + per * n;
    if done < total {
      MulMonotone(per, done + 1, total);
      assert per * (done + 1) == per * done + per;
    }
  }

  /** Sessions still to pay leave at least one full share each, so no payout underflows. */
  lemma UnpaidCoversSessions(e: Escrow, n: nat)
    requires 1 <= e.totalSessions <= e.quoted && e.sessionsDone + n <= e.totalSessions
    ensures PerSession(e) >= 1
    ensures 0 <= PerSession(e) * n <= Unpaid(e) <= e.quoted
    ensures e.sessionsDone < e.totalSessions ==> Unpaid(e) > 0
    ensures Unpaid(e) - PerSession(e) * n == e.quoted - (e.sessionsDone + n) * PerSession(e)
  {
    SharesFit(e.quoted, e.totalSessions, e.sessionsDone, n);
  }

  // ---------------------------------------------------------------- milestone escrows

  function OpenAmounts(m: MilestoneEscrow): seq<int>
    requires |m.amounts| == |m.statuses|
  {
    seq(|m.amounts|, i requires 0 <= i < |m.amounts| => if m.statuses[i] == MsCompleted then 0 else m.amounts[i])
  }

  function DoneAmounts(m: MilestoneEscrow): seq<int>
    requires |m.amounts| == |m.statuses|
  {
    seq(|m.amounts|, i requires 0 <= i < |m.amounts| => if m.statuses[i] == MsCompleted then m.amounts[i] else 0)
  }

  predicate AnyDisputed(statuses: seq<MilestoneStatus>) {
    exists i :: 0 <= i < |statuses| && statuses[i] == MsDisputed
  }

  predicate OneDisputed(statuses: seq<MilestoneStatus>) {
    forall i, j :: 0 <= i < j < |statuses| ==> !(statuses[i] == MsDisputed && statuses[j] == MsDisputed)
  }

  predicate PositiveAmounts(amounts: seq<int>) {
    forall i :: 0 <= i < |amounts| ==> 0 < amounts[i] <= MAX_FINANCIAL_AMOUNT
  }

  /** A milestone has been paid its exact amount once it is Completed, and nothing before. */
  predicate MilestonePaidOk(m: MilestoneEscrow, msPaid: map<(nat, nat), int>)
    requires |m.amounts| == |m.statuses|
  {
    forall i: nat :: i < |m.amounts| ==>
      Lookup(msPaid, (m.id, i), 0) == if m.statuses[i] == MsCompleted then m.amounts[i] else 0
  }

  predicate MilestoneOk(m: MilestoneEscrow, msPaid: map<(nat, nat), int>) {
    && |m.amounts| == |m.statuses| > 0
    && PositiveAmounts(m.amounts)
    && m.total == Sum(m.amounts) <= MAX_FINANCIAL_AMOUNT
    && m.platformFee >= 0 && m.netAmount >= 0
    && m.platformFee + m.netAmount == Sum(DoneAmounts(m))
    && (m.status == Active || m.status == Released || m.status == Disputed)
    && (m.status == Released <==> AllCompleted(m.statuses))
    && (m.status == Disputed <==> AnyDisputed(m.statuses))
    && OneDisputed(m.statuses)
    && MilestonePaidOk(m, msPaid)
  }

  // ---------------------------------------------------------------- the global invariant

  function Liability(escrows: map<nat, Escrow>, id: nat, token: Address): int {
    if id in escrows && escrows[id].token == token && Live(escrows[id].status) then escrows[id].amount else 0
  }

  function Liabilities(escrows: map<nat, Escrow>, token: Address): nat -> int {
    (id: nat) => Liability(escrows, id, token)
  }

  function MilestoneLiability(ms: map<nat, MilestoneEscrow>, id: nat, token: Address): int {
    if id in ms && ms[id].token == token && |ms[id].amounts| == |ms[id].statuses| then Sum(OpenAmounts(ms[id])) else 0
  }

  function MilestoneLiabilities(ms: map<nat, MilestoneEscrow>, token: Address): nat -> int {
    (id: nat) => MilestoneLiability(ms, id, token)
  }

  /** Everything the contract owes in one token: live escrows and milestones not yet completed. */
  function Owed(v: Vault, token: Address): int {
    SumTo(Liabilities(v.escrows, token), v.escrowCount) + SumTo(MilestoneLiabilities(v.milestones, token), v.milestoneCount)
  }

  function Surplus(v: Vault, token: Address): int {
    Lookup(v.surplus, token, 0)
  }

  predicate Solvent(v: Vault, token: Address) {
    && Surplus(v, token) >= 0
    && Balance(v.bank, token, SELF) == Owed(v, token) + Surplus(v, token)
  }

  /** Records exist for exactly the ids handed out so far. */
  ghost predicate IdsOk(v: Vault) {
    && (forall id :: id in v.escrows <==> 1 <= id <= v.escrowCount)
    && (forall id :: id in v.milestones <==> 1 <= id <= v.milestoneCount)
    && (forall id :: id in v.paid ==> id in v.escrows)
    && (forall k :: k in v.msPaid ==> k.0 in v.milestones)
  }

  ghost predicate AccountsOk(v: Vault) {
    forall id :: id in v.escrows ==> v.escrows[id].id == id && AccountOk(v.escrows[id], Lookup(v.paid, id, 0))
  }

  ghost predicate MilestonesOk(v: Vault) {
    forall id :: id in v.milestones ==> v.milestones[id].id == id && MilestoneOk(v.milestones[id], v.msPaid)
  }

  ghost predicate BooksOk(v: Vault) {
    IdsOk(v) && AccountsOk(v) && MilestonesOk(v)
  }

  ghost predicate VaultOk(v: Vault) {
    BooksOk(v) && forall token :: Solvent(v, token)
  }

  ghost predicate Inv(w: World) {
    ValidConfig(w.config.fees) && VaultOk(w.vault)
  }

  // ---------------------------------------------------------------- how liabilities move

  /** Rewriting one escrow record moves what is owed in its token by the change in its liability. */
  lemma OwedAfterEscrow(v: Vault, v': Vault, id: nat, token: Address)
    requires 1 <= id <= v.escrowCount && id in v.escrows && id in v'.escrows
    requires v'.escrows == v.escrows[id := v'.escrows[id]] && v'.escrowCount == v.escrowCount
    requires v'.milestones == v.milestones && v'.milestoneCount == v.milestoneCount
    ensures Owed(v', token) == Owed(v, token) - Liability(v.escrows, id, token) + Liability(v'.escrows, id, token)
  {
    SumToUpdate(Liabilities(v.escrows, token), Liabilities(v'.escrows, token), v.escrowCount, id);
  }

  lemma OwedAfterMilestone(v: Vault, v': Vault, id: nat, token: Address)
    requires 1 <= id <= v.milestoneCount && id in v.milestones && id in v'.milestones
    requires v'.milestones == v.milestones[id := v'.milestones[id]] && v'.milestoneCount == v.milestoneCount
    requires v'.escrows == v.escrows && v'.escrowCount == v.escrowCount
    ensures Owed(v', token)
      == Owed(v, token) - MilestoneLiability(v.milestones, id, token) + MilestoneLiability(v'.milestones, id, token)
  {
    SumToUpdate(MilestoneLiabilities(v.milestones, token), MilestoneLiabilities(v'.milestones, token), v.milestoneCount, id);
  }

  lemma LiabilityNonNegative(v: Vault, id: nat, token: Address)
    requires AccountsOk(v)
    ensures Liability(v.escrows, id, token) >= 0
  {
    if id in v.escrows && Live(v.escrows[id].status) {
      UnpaidCoversSessions(v.escrows[id], 0);
    }
  }

  lemma MilestoneLiabilityNonNegative(v: Vault, id: nat, token: Address)
    requires MilestonesOk(v)
    ensures MilestoneLiability(v.milestones, id, token) >= 0
  {
    if id in v.milestones {
      SumBounds(OpenAmounts(v.milestones[id]));
    }
  }

  /** The contract holds at least what any single record is owed. */
  lemma BalanceCovers(v: Vault, token: Address, id: nat)
    requires BooksOk(v) && Solvent(v, token)
    ensures Liability(v.escrows, id, token) <= Balance(v.bank, token, SELF)
    ensures MilestoneLiability(v.milestones, id, token) <= Balance(v.bank, token, SELF)
  {
    forall k: nat ensures Liability(v.escrows, k, token) >= 0 { LiabilityNonNegative(v, k, token); }
    forall k: nat ensures MilestoneLiability(v.milestones, k, token) >= 0 { MilestoneLiabilityNonNegative(v, k, token); }
    SumToBounds(Liabilities(v.escrows, token), v.escrowCount, id);
    SumToBounds(MilestoneLiabilities(v.milestones, token), v.milestoneCount, id);
  }

  /** A split always goes through when the gross is there; what leaves is the gross less what is retained. */
  lemma PaySplitMoves(bank: Bank, token: Address, treasury: Address, mentor: Address, gross: int, fee: int, t: Address)
    requires 0 <= fee <= gross <= Balance(bank, token, SELF)
    ensures PaySplit(bank, token, treasury, mentor, gross, fee).Some?
    ensures Balance(PaySplit(bank, token, treasury, mentor, gross, fee).value, t, SELF)
      == Balance(bank, t, SELF) - (if t == token then gross - Retained(treasury, mentor, gross, fee) else 0)
  {
    if fee > 0 {
      TransferMoves(bank, token, SELF, treasury, fee);
      var charged := Transfer(bank, token, SELF, treasury, fee).value;
      TransferMoves(charged, token, SELF, mentor, gross - fee);
    } else {
      TransferMoves(bank, token, SELF, mentor, gross);
    }
  }

  /** Paying `gross` of one record's liability, of which `kept` stays with the contract, keeps it solvent. */
  lemma SolventAfter(v: Vault, v': Vault, id: nat, gross: int, kept: int, token: Address)
    requires 1 <= id <= v.escrowCount && id in v.escrows && id in v'.escrows && Solvent(v, token) && kept >= 0
    requires v'.escrows == v.escrows[id := v'.escrows[id]] && v'.escrowCount == v.escrowCount
    requires v'.milestones == v.milestones && v'.milestoneCount == v.milestoneCount
    requires v'.escrows[id].token == v.escrows[id].token
    requires Liability(v'.escrows, id, v.escrows[id].token) == Liability(v.escrows, id, v.escrows[id].token) - gross
    requires v'.surplus == Credit(v.surplus, v.escrows[id].token, kept)
    requires Balance(v'.bank, token, SELF)
      == Balance(v.bank, token, SELF) - (if token == v.escrows[id].token then gross - kept else 0)
    ensures Solvent(v', token)
  {
    OwedAfterEscrow(v, v', id, token);
  }

  // ---------------------------------------------------------------- payouts

  /** The shape of a legal payout: everything left and close, or whole shares that leave a session. */
  predicate LegalPayout(e: Escrow, gross: int, sessions: nat, closes: bool) {
    && e.status == Active
    && e.sessionsDone + sessions <= e.totalSessions
    && if closes then gross == e.amount
       else e.sessionsDone + sessions < e.totalSessions && gross == PerSession(e) * sessions
  }

  lemma PayEscrowAccount(v: Vault, treasury: Address, id: nat, gross: int, fee: int, sessions: nat, closes: bool)
    requires id in v.escrows && AccountOk(v.escrows[id], Lookup(v.paid, id, 0))
    requires LegalPayout(v.escrows[id], gross, sessions, closes) && 0 <= fee <= gross
    requires PayEscrow(v, treasury, id, gross, fee, sessions, closes).Some?
    ensures var v' := PayEscrow(v, treasury, id, gross, fee, sessions, closes).value;
      AccountOk(v'.escrows[id], Lookup(v'.paid, id, 0))
  {
    var e := v.escrows[id];
    UnpaidCoversSessions(e, sessions);
    var v' := PayEscrow(v, treasury, id, gross, fee, sessions, closes).value;
    assert PerSession(v'.escrows[id]) == PerSession(e);
  }

  lemma PayEscrowSolvent(v: Vault, treasury: Address, id: nat, gross: int, fee: int, sessions: nat, closes: bool, token: Address)
    requires 1 <= id <= v.escrowCount && id in v.escrows && Solvent(v, token)
    requires v.escrows[id].status == Active && (closes ==> gross == v.escrows[id].amount)
    requires 0 <= fee <= gross <= Balance(v.bank, v.escrows[id].token, SELF)
    ensures PayEscrow(v, treasury, id, gross, fee, sessions, closes).Some?
    ensures Solvent(PayEscrow(v, treasury, id, gross, fee, sessions, closes).value, token)
  {
    var e := v.escrows[id];
    PaySplitMoves(v.bank, e.token, treasury, e.mentor, gross, fee, token);
    var v' := PayEscrow(v, treasury, id, gross, fee, sessions, closes).value;
    SolventAfter(v, v', id, gross, Retained(treasury, e.mentor, gross, fee), token);
  }

  /** A legal payout is never refused for lack of funds, and it keeps the vault in order. */
  lemma PayEscrowKeeps(v: Vault, treasury: Address, id: nat, gross: int, fee: int, sessions: nat, closes: bool)
    requires VaultOk(v) && id in v.escrows
    requires LegalPayout(v.escrows[id], gross, sessions, closes) && 0 <= fee <= gross
    ensures PayEscrow(v, treasury, id, gross, fee, sessions, closes).Some?
    ensures VaultOk(PayEscrow(v, treasury, id, gross, fee, sessions, closes).value)
  {
    PayoutCovered(v, id, gross, sessions, closes);
    forall token
      ensures PayEscrow(v, treasury, id, gross, fee, sessions, closes).Some?
      ensures Solvent(PayEscrow(v, treasury, id, gross, fee, sessions, closes).value, token)
    {
      assert Solvent(v, token);
      PayEscrowSolvent(v, treasury, id, gross, fee, sessions, closes, token);
    }
    assert Solvent(v, SELF);
    PayEscrowSolvent(v, treasury, id, gross, fee, sessions, closes, SELF);
    PayEscrowAccount(v, treasury, id, gross, fee, sessions, closes);
    OneEscrowChanged(v, PayEscrow(v, treasury, id, gross, fee, sessions, closes).value, id);
  }

  lemma PayoutCovered(v: Vault, id: nat, gross: int, sessions: nat, closes: bool)
    requires VaultOk(v) && id in v.escrows && LegalPayout(v.escrows[id], gross, sessions, closes)
    ensures gross <= Balance(v.bank, v.escrows[id].token, SELF)
  {
    var e := v.escrows[id];
    UnpaidCoversSessions(e, sessions);
    assert Solvent(v, e.token);
    BalanceCovers(v, e.token, id);
  }

  /** Books are kept when one escrow record changes and its own account stays in order. */
  lemma OneEscrowChanged(v: Vault, v': Vault, id: nat)
    requires BooksOk(v) && id in v.escrows && id in v'.escrows
    requires v'.escrows == v.escrows[id := v'.escrows[id]] && v'.escrowCount == v.escrowCount
    requires v'.milestones == v.milestones && v'.milestoneCount == v.milestoneCount && v'.msPaid == v.msPaid
    requires v'.paid == v.paid || (id in v'.paid && v'.paid == v.paid[id := v'.paid[id]])
    requires v'.escrows[id].id == id && AccountOk(v'.escrows[id], Lookup(v'.paid, id, 0))
    ensures BooksOk(v')
  {
    forall k | k in v'.escrows && k != id
      ensures v'.escrows[k].id == k && AccountOk(v'.escrows[k], Lookup(v'.paid, k, 0))
    {
      assert v'.escrows[k] == v.escrows[k] && Lookup(v'.paid, k, 0) == Lookup(v.paid, k, 0);
    }
  }

  lemma ReleaseRestKeeps(w: World, id: nat, q: Quote, actor: Address)
    requires Inv(w) && w.HasStatus(id, Active)
    ensures ReleaseRest(w, id, q, actor).Some? && Inv(ReleaseRest(w, id, q, actor).value)
    ensures ReleaseRestSimple(w, id, actor).Some? && Inv(ReleaseRestSimple(w, id, actor).value)
  {
    var gross := w.vault.escrows[id].amount;
    UnpaidCoversSessions(w.vault.escrows[id], 0);
    FeeWithinCap(w.config.fees, q, gross);
    FlatFeeBounds(w.config.fees.feeBps, gross);
    PayEscrowKeeps(w.vault, w.config.treasury, id, gross, UnifiedFee(w.config.fees, q, gross), 0, true);
    PayEscrowKeeps(w.vault, w.config.treasury, id, gross, FlatFee(w.config.fees.feeBps, gross), 0, true);
  }

  lemma PaySessionsVaultIs(w: World, id: nat, n: nat, q: Quote, actor: Address, gross: int, fee: int, closes: bool)
    requires id in w.vault.escrows && w.vault.escrows[id].status == Active
    requires gross == SessionGross(w.vault.escrows[id], n) && fee == UnifiedFee(w.config.fees, q, gross)
    requires closes == (w.vault.escrows[id].sessionsDone + n == w.vault.escrows[id].totalSessions)
    requires PayEscrow(w.vault, w.config.treasury, id, gross, fee, n, closes).Some?
    ensures PaySessions(w, id, n, q, actor).Some?
    ensures var w' := PaySessions(w, id, n, q, actor).value;
      w'.vault == PayEscrow(w.vault, w.config.treasury, id, gross, fee, n, closes).value && w'.config == w.config
  {
  }

  lemma PaySessionsKeeps(w: World, id: nat, n: nat, q: Quote, actor: Address)
    requires Inv(w) && w.HasStatus(id, Active) && n > 0
    requires w.vault.escrows[id].sessionsDone + n <= w.vault.escrows[id].totalSessions
    ensures PaySessions(w, id, n, q, actor).Some? && Inv(PaySessions(w, id, n, q, actor).value)
  {
    var e := w.vault.escrows[id];
    UnpaidCoversSessions(e, n);
    var gross := SessionGross(e, n);
    var fee := UnifiedFee(w.config.fees, q, gross);
    FeeWithinCap(w.config.fees, q, gross);
    PayEscrowKeeps(w.vault, w.config.treasury, id, gross, fee, n, e.sessionsDone + n == e.totalSessions);
    PaySessionsVaultIs(w, id, n, q, actor, gross, fee, e.sessionsDone + n == e.totalSessions);
  }

  // ---------------------------------------------------------------- disputes and refunds

  lemma FreezeEscrowKeeps(v: Vault, id: nat, reason: Symbol)
    requires VaultOk(v) && id in v.escrows && v.escrows[id].status == Active
    ensures VaultOk(FreezeEscrow(v, id, reason))
  {
    var v' := FreezeEscrow(v, id, reason);
    assert PerSession(v'.escrows[id]) == PerSession(v.escrows[id]);
    OneEscrowChanged(v, v', id);
    forall token
      ensures Solvent(v', token)
    {
      assert Solvent(v, token);
      OwedAfterEscrow(v, v', id, token);
    }
  }

  lemma SplitMoves(bank: Bank, token: Address, mentor: Address, learner: Address, toMentor: int, toLearner: int, t: Address)
    requires toMentor >= 0 && toLearner >= 0 && toMentor + toLearner <= Balance(bank, token, SELF)
    ensures SplitBank(bank, token, mentor, learner, toMentor, toLearner).Some?
    ensures var kept := (if mentor == SELF then toMentor else 0) + (if learner == SELF then toLearner else 0);
      Balance(SplitBank(bank, token, mentor, learner, toMentor, toLearner).value, t, SELF)
        == Balance(bank, t, SELF) - (if t == token then toMentor + toLearner - kept else 0)
  {
    if toMentor > 0 {
      TransferMoves(bank, token, SELF, mentor, toMentor);
    }
    var bank1 := TransferIfPositive(bank, token, mentor, toMentor).value;
    if toLearner > 0 {
      TransferMoves(bank1, token, SELF, learner, toLearner);
    }
  }

  /** What of a split stays with the contract because a party is the contract. */
  function SplitRetained(e: Escrow, toMentor: int): int {
    (if e.mentor == SELF then toMentor else 0) + (if e.learner == SELF then e.amount - toMentor else 0)
  }

  lemma SplitEscrowShape(v: Vault, id: nat, toMentor: int, now: nat)
    requires id in v.escrows
    requires SplitBank(v.bank, v.escrows[id].token, v.escrows[id].mentor, v.escrows[id].learner, toMentor, v.escrows[id].amount - toMentor).Some?
    ensures SplitEscrow(v, id, toMentor, now).Some?
    ensures var e := v.escrows[id]; var v' := SplitEscrow(v, id, toMentor, now).value;
      && v'.bank == SplitBank(v.bank, e.token, e.mentor, e.learner, toMentor, e.amount - toMentor).value
      && id in v'.escrows && v'.escrows == v.escrows[id := v'.escrows[id]] && v'.escrowCount == v.escrowCount
      && v'.milestones == v.milestones && v'.milestoneCount == v.milestoneCount
      && v'.escrows[id].token == e.token && v'.escrows[id].status == Resolved
      && v'.surplus == Credit(v.surplus, e.token, SplitRetained(e, toMentor))
  {
  }

  lemma SplitEscrowSolvent(v: Vault, id: nat, toMentor: int, now: nat, token: Address)
    requires 1 <= id <= v.escrowCount && id in v.escrows && Solvent(v, token) && Live(v.escrows[id].status)
    requires 0 <= toMentor <= v.escrows[id].amount <= Balance(v.bank, v.escrows[id].token, SELF)
    ensures SplitEscrow(v, id, toMentor, now).Some? && Solvent(SplitEscrow(v, id, toMentor, now).value, token)
  {
    var e := v.escrows[id];
    SplitMoves(v.bank, e.token, e.mentor, e.learner, toMentor, e.amount - toMentor, token);
    SplitEscrowShape(v, id, toMentor, now);
    SolventAfter(v, SplitEscrow(v, id, toMentor, now).value, id, e.amount, SplitRetained(e, toMentor), token);
  }

  lemma SplitEscrowKeeps(v: Vault, id: nat, toMentor: int, now: nat)
    requires VaultOk(v) && id in v.escrows && v.escrows[id].status == Disputed
    requires 0 <= toMentor <= v.escrows[id].amount
    ensures SplitEscrow(v, id, toMentor, now).Some? && VaultOk(SplitEscrow(v, id, toMentor, now).value)
  {
    var e := v.escrows[id];
    assert Solvent(v, e.token);
    BalanceCovers(v, e.token, id);
    SplitEscrowSolvent(v, id, toMentor, now, e.token);
    var v' := SplitEscrow(v, id, toMentor, now).value;
    assert PerSession(v'.escrows[id]) == PerSession(e);
    OneEscrowChanged(v, v', id);
    forall token
      ensures Solvent(v', token)
    {
      SplitEscrowSolvent(v, id, toMentor, now, token);
    }
  }

  lemma RefundEscrowSolvent(v: Vault, id: nat, token: Address)
    requires 1 <= id <= v.escrowCount && id in v.escrows && Solvent(v, token) && Live(v.escrows[id].status)
    requires 0 <= v.escrows[id].amount <= Balance(v.bank, v.escrows[id].token, SELF)
    ensures RefundEscrow(v, id).Some? && Solvent(RefundEscrow(v, id).value, token)
  {
    var e := v.escrows[id];
    TransferMoves(v.bank, e.token, SELF, e.learner, e.amount);
    SolventAfter(v, RefundEscrow(v, id).value, id, e.amount, if e.learner == SELF then e.amount else 0, token);
  }

  lemma RefundEscrowKeeps(v: Vault, id: nat)
    requires VaultOk(v) && id in v.escrows && Live(v.escrows[id].status)
    ensures RefundEscrow(v, id).Some? && VaultOk(RefundEscrow(v, id).value)
  {
    var e := v.escrows[id];
    UnpaidCoversSessions(e, 0);
    assert Solvent(v, e.token);
    BalanceCovers(v, e.token, id);
    RefundEscrowSolvent(v, id, e.token);
    var v' := RefundEscrow(v, id).value;
    assert PerSession(v'.escrows[id]) == PerSession(e);
    OneEscrowChanged(v, v', id);
    forall token
      ensures Solvent(v', token)
    {
      RefundEscrowSolvent(v, id, token);
    }
  }

  lemma SplitBounds(amount: nat, pct: nat)
    requires pct <= 100
    ensures 0 <= amount * pct / 100 <= amount
  {
    assert 0 <= amount * pct <= amount * 100;
  }

  /** The admin can always split a disputed escrow that is not isolated, at any percentage. */
  lemma ResolveKeeps(w: World, caller: Address, id: nat, pct: nat)
    requires Inv(w) && w.HasStatus(id, Disputed) && id !in w.isolated
    requires caller == w.config.admin && pct <= 100
    ensures ResolveDispute(w, caller, id, pct).Some? && Inv(ResolveDispute(w, caller, id, pct).value)
  {
    var e := w.vault.escrows[id];
    UnpaidCoversSessions(e, 0);
    SplitBounds(e.amount, pct);
    SplitEscrowKeeps(w.vault, id, e.amount * pct / 100, w.now);
  }

  lemma RefundVault(w: World, caller: Address, id: nat)
    requires id in w.vault.escrows && Live(w.vault.escrows[id].status) && caller == w.config.admin && RefundEscrow(w.vault, id).Some?
    ensures Refund(w, caller, id).Some?
    ensures Refund(w, caller, id).value.vault == RefundEscrow(w.vault, id).value && Refund(w, caller, id).value.config == w.config
  {
  }

  /** The admin can always refund a live escrow. */
  lemma RefundKeeps(w: World, caller: Address, id: nat)
    requires Inv(w) && id in w.vault.escrows && Live(w.vault.escrows[id].status) && caller == w.config.admin
    ensures Refund(w, caller, id).Some? && Inv(Refund(w, caller, id).value)
  {
    RefundEscrowKeeps(w.vault, id);
    RefundVault(w, caller, id);
  }

  // ---------------------------------------------------------------- creation

  lemma OpenEscrowSolvent(v: Vault, e: Escrow, token: Address)
    requires Solvent(v, token) && OpenEscrow(v, e).Some? && e.learner != SELF && e.status == Active
    requires (v.escrowCount + 1) !in v.escrows
    ensures Solvent(OpenEscrow(v, e).value, token)
  {
    var v' := OpenEscrow(v, e).value;
    TransferMoves(v.bank, e.token, e.learner, SELF, e.amount);
    SumToAgree(Liabilities(v.escrows, token), Liabilities(v'.escrows, token), v.escrowCount);
    assert Liability(v'.escrows, v.escrowCount + 1, token) == if token == e.token then e.amount else 0;
  }

  lemma OpenEscrowBooks(v: Vault, e: Escrow)
    requires BooksOk(v) && OpenEscrow(v, e).Some? && e.id == v.escrowCount + 1 && AccountOk(e, 0)
    ensures BooksOk(OpenEscrow(v, e).value)
  {
    var v' := OpenEscrow(v, e).value;
    assert e.id !in v.escrows && e.id !in v.paid;
    forall k | k in v'.escrows
      ensures v'.escrows[k].id == k && AccountOk(v'.escrows[k], Lookup(v'.paid, k, 0))
    {
      if k != e.id {
        assert v'.escrows[k] == v.escrows[k];
      }
    }
    assert IdsOk(v');
  }

  lemma OpenEscrowKeeps(v: Vault, e: Escrow)
    requires VaultOk(v) && OpenEscrow(v, e).Some? && e.id == v.escrowCount + 1 && e.learner != SELF
    requires e.status == Active && e.sessionsDone == 0 && e.amount == e.quoted && e.platformFee == e.netAmount == 0
    requires 1 <= e.totalSessions <= e.quoted <= MAX_FINANCIAL_AMOUNT
    ensures VaultOk(OpenEscrow(v, e).value)
  {
    OpenEscrowBooks(v, e);
    forall token
      ensures Solvent(OpenEscrow(v, e).value, token)
    {
      assert Solvent(v, token);
      OpenEscrowSolvent(v, e, token);
    }
  }

  lemma CreateKeeps(w: World, mentor: Address, learner: Address, amount: int, session: Symbol, token: Address,
                    sessionEnd: nat, usd: int, send: Address, dest: Address, n: nat)
    requires Inv(w)
    requires CreateInternal(w, mentor, learner, amount, session, token, sessionEnd, usd, amount, send, dest, n).Some?
    ensures Inv(CreateInternal(w, mentor, learner, amount, session, token, sessionEnd, usd, amount, send, dest, n).value)
  {
    var e := Escrow(w.vault.escrowCount + 1, mentor, learner, amount, session, Active, w.now, token, 0, 0, sessionEnd,
                    w.config.autoReleaseDelay, "", 0, usd, amount, send, dest, n, 0);
    var w' := CreateInternal(w, mentor, learner, amount, session, token, sessionEnd, usd, amount, send, dest, n).value;
    assert w'.vault == OpenEscrow(w.vault, e).value && w'.config == w.config;
    OpenEscrowKeeps(w.vault, e);
  }

  lemma MilestoneSums(m: MilestoneEscrow)
    requires |m.amounts| == |m.statuses|
    ensures Sum(m.amounts) == Sum(OpenAmounts(m)) + Sum(DoneAmounts(m))
  {
    SumSplit(m.amounts, OpenAmounts(m), DoneAmounts(m));
  }

  /** Before anything is completed, all of it is open. */
  lemma AllOpen(m: MilestoneEscrow)
    requires |m.amounts| == |m.statuses|
    requires forall i :: 0 <= i < |m.statuses| ==> m.statuses[i] == MsPending
    ensures Sum(OpenAmounts(m)) == Sum(m.amounts) && Sum(DoneAmounts(m)) == 0
  {
    SumZero(DoneAmounts(m));
    MilestoneSums(m);
  }

  lemma OpenMilestonesSolvent(v: Vault, m: MilestoneEscrow, token: Address)
    requires Solvent(v, token) && OpenMilestones(v, m).Some? && m.learner != SELF
    requires (v.milestoneCount + 1) !in v.milestones && |m.amounts| == |m.statuses|
    requires m.total == Sum(OpenAmounts(m))
    ensures Solvent(OpenMilestones(v, m).value, token)
  {
    var v' := OpenMilestones(v, m).value;
    TransferMoves(v.bank, m.token, m.learner, SELF, m.total);
    SumToAgree(MilestoneLiabilities(v.milestones, token), MilestoneLiabilities(v'.milestones, token), v.milestoneCount);
    assert MilestoneLiability(v'.milestones, v.milestoneCount + 1, token) == if token == m.token then m.total else 0;
  }

  /** A milestone escrow as it is created. */
  predicate FreshMilestones(v: Vault, m: MilestoneEscrow) {
    && m.id == v.milestoneCount + 1 && m.learner != SELF
    && |m.amounts| == |m.statuses| > 0 && PositiveAmounts(m.amounts)
    && m.total == Sum(m.amounts) <= MAX_FINANCIAL_AMOUNT && m.platformFee == m.netAmount == 0 && m.status == Active
    && forall i :: 0 <= i < |m.statuses| ==> m.statuses[i] == MsPending
  }

  lemma FreshMilestonesOk(v: Vault, m: MilestoneEscrow)
    requires IdsOk(v) && FreshMilestones(v, m)
    ensures MilestoneOk(m, v.msPaid) && Sum(OpenAmounts(m)) == m.total
  {
    AllOpen(m);
    assert m.id !in v.milestones;
    assert m.statuses[0] == MsPending;
    forall i: nat | i < |m.amounts|
      ensures Lookup(v.msPaid, (m.id, i), 0) == 0
    {
      assert (m.id, i).0 == m.id;
    }
  }

  lemma OpenMilestonesBooks(v: Vault, m: MilestoneEscrow)
    requires BooksOk(v) && FreshMilestones(v, m) && OpenMilestones(v, m).Some?
    ensures BooksOk(OpenMilestones(v, m).value)
  {
    FreshMilestonesOk(v, m);
  }

  lemma OpenMilestonesKeeps(v: Vault, m: MilestoneEscrow)
    requires VaultOk(v) && OpenMilestones(v, m).Some? && FreshMilestones(v, m)
    ensures VaultOk(OpenMilestones(v, m).value)
  {
    FreshMilestonesOk(v, m);
    OpenMilestonesBooks(v, m);
    assert m.id !in v.milestones;
    forall token
      ensures Solvent(OpenMilestones(v, m).value, token)
    {
      assert Solvent(v, token);
      OpenMilestonesSolvent(v, m, token);
    }
  }

  lemma CreateMilestonesKeeps(w: World, mentor: Address, learner: Address, amounts: seq<int>, token: Address)
    requires Inv(w) && CreateMilestones(w, mentor, learner, amounts, token).Some?
    ensures Inv(CreateMilestones(w, mentor, learner, amounts, token).value)
  {
    var w' := CreateMilestones(w, mentor, learner, amounts, token).value;
    OpenMilestonesKeeps(w.vault, w'.vault.milestones[w.vault.milestoneCount + 1]);
  }

  // ---------------------------------------------------------------- milestone steps

  /** Completing one pending milestone moves exactly its amount from open to done. */
  lemma CompletingMoves(m: MilestoneEscrow, m': MilestoneEscrow, index: nat)
    requires |m.amounts| == |m.statuses| && index < |m.amounts| && m.statuses[index] == MsPending
    requires m'.amounts == m.amounts && m'.statuses == m.statuses[index := MsCompleted]
    ensures Sum(OpenAmounts(m')) == Sum(OpenAmounts(m)) - m.amounts[index]
    ensures Sum(DoneAmounts(m')) == Sum(DoneAmounts(m)) + m.amounts[index]
  {
    assert OpenAmounts(m') == OpenAmounts(m)[index := 0];
    assert DoneAmounts(m') == DoneAmounts(m)[index := m.amounts[index]];
    SumUpdate(OpenAmounts(m), index, 0);
    SumUpdate(DoneAmounts(m), index, m.amounts[index]);
  }

  lemma PayMilestoneSolvent(v: Vault, treasury: Address, id: nat, index: nat, fee: int, token: Address)
    requires 1 <= id <= v.milestoneCount && MilestoneOpen(v, id, index) && Solvent(v, token)
    requires |v.milestones[id].amounts| == |v.milestones[id].statuses|
    requires 0 <= fee <= v.milestones[id].amounts[index] <= Balance(v.bank, v.milestones[id].token, SELF)
    ensures PayMilestone(v, treasury, id, index, fee).Some?
    ensures Solvent(PayMilestone(v, treasury, id, index, fee).value, token)
  {
    var m := v.milestones[id];
    PaySplitMoves(v.bank, m.token, treasury, m.mentor, m.amounts[index], fee, token);
    var v' := PayMilestone(v, treasury, id, index, fee).value;
    CompletingMoves(m, v'.milestones[id], index);
    OwedAfterMilestone(v, v', id, token);
  }

  lemma StatusFlags(statuses: seq<MilestoneStatus>, index: nat)
    requires index < |statuses| && statuses[index] == MsPending && !AnyDisputed(statuses)
    ensures !AnyDisputed(statuses[index := MsCompleted]) && OneDisputed(statuses[index := MsCompleted])
    ensures AnyDisputed(statuses[index := MsDisputed]) && OneDisputed(statuses[index := MsDisputed])
    ensures !AllCompleted(statuses[index := MsDisputed])
  {
    assert forall i :: 0 <= i < |statuses| ==> statuses[i] != MsDisputed;
    assert statuses[index := MsDisputed][index] == MsDisputed;
  }

  lemma PayMilestoneRecord(v: Vault, treasury: Address, id: nat, index: nat, fee: int)
    requires MilestoneOpen(v, id, index) && v.milestones[id].id == id && MilestoneOk(v.milestones[id], v.msPaid)
    requires 0 <= fee <= v.milestones[id].amounts[index]
    requires PayMilestone(v, treasury, id, index, fee).Some?
    ensures var v' := PayMilestone(v, treasury, id, index, fee).value; MilestoneOk(v'.milestones[id], v'.msPaid)
  {
    var m := v.milestones[id];
    var v' := PayMilestone(v, treasury, id, index, fee).value;
    CompletingMoves(m, v'.milestones[id], index);
    StatusFlags(m.statuses, index);
    forall i: nat | i < |m.amounts|
      ensures Lookup(v'.msPaid, (id, i), 0) == if v'.milestones[id].statuses[i] == MsCompleted then m.amounts[i] else 0
    {
      assert Lookup(v.msPaid, (id, i), 0) == if m.statuses[i] == MsCompleted then m.amounts[i] else 0;
      assert (id, i) == (id, index) <==> i == index;
    }
  }

  lemma PayMilestoneCovered(v: Vault, id: nat, index: nat)
    requires VaultOk(v) && MilestoneOpen(v, id, index)
    ensures v.milestones[id].amounts[index] <= Balance(v.bank, v.milestones[id].token, SELF)
  {
    var m := v.milestones[id];
    assert Solvent(v, m.token);
    BalanceCovers(v, m.token, id);
    assert OpenAmounts(m)[index] == m.amounts[index];
    SumBounds(OpenAmounts(m));
  }

  lemma PayMilestoneBooks(v: Vault, treasury: Address, id: nat, index: nat, fee: int)
    requires BooksOk(v) && MilestoneOpen(v, id, index) && 0 <= fee <= v.milestones[id].amounts[index]
    requires PayMilestone(v, treasury, id, index, fee).Some?
    ensures BooksOk(PayMilestone(v, treasury, id, index, fee).value)
  {
    var v' := PayMilestone(v, treasury, id, index, fee).value;
    PayMilestoneRecord(v, treasury, id, index, fee);
    forall k | k in v'.milestones
      ensures v'.milestones[k].id == k && MilestoneOk(v'.milestones[k], v'.msPaid)
    {
      if k != id {
        OtherMilestoneFrame(v.milestones[k], v.msPaid, v'.msPaid, (id, index));
      }
    }
    assert AccountsOk(v') && IdsOk(v');
  }

  lemma PayMilestoneKeeps(v: Vault, treasury: Address, id: nat, index: nat, fee: int)
    requires VaultOk(v) && MilestoneOpen(v, id, index) && 0 <= fee <= v.milestones[id].amounts[index]
    ensures PayMilestone(v, treasury, id, index, fee).Some? && VaultOk(PayMilestone(v, treasury, id, index, fee).value)
  {
    PayMilestoneCovered(v, id, index);
    forall token
      ensures PayMilestone(v, treasury, id, index, fee).Some?
      ensures Solvent(PayMilestone(v, treasury, id, index, fee).value, token)
    {
      assert Solvent(v, token);
      PayMilestoneSolvent(v, treasury, id, index, fee, token);
    }
    assert Solvent(v, SELF);
    PayMilestoneSolvent(v, treasury, id, index, fee, SELF);
    PayMilestoneBooks(v, treasury, id, index, fee);
  }

  lemma OtherMilestoneFrame(m: MilestoneEscrow, before: map<(nat, nat), int>, after: map<(nat, nat), int>, k: (nat, nat))
    requires MilestoneOk(m, before) && m.id != k.0
    requires k in after && after == before[k := after[k]]
    ensures MilestoneOk(m, after)
  {
    forall i: nat | i < |m.amounts|
      ensures Lookup(after, (m.id, i), 0) == if m.statuses[i] == MsCompleted then m.amounts[i] else 0
    {
      assert (m.id, i).0 == m.id;
      assert Lookup(before, (m.id, i), 0) == if m.statuses[i] == MsCompleted then m.amounts[i] else 0;
    }
  }

  /** The learner can always complete a pending milestone of an active milestone escrow. */
  lemma CompleteMilestoneKeeps(w: World, caller: Address, id: nat, index: nat, q: Quote)
    requires Inv(w) && MilestoneOpen(w.vault, id, index) && caller == w.vault.milestones[id].learner
    ensures CompleteMilestone(w, caller, id, index, q).Some? && Inv(CompleteMilestone(w, caller, id, index, q).value)
  {
    var gross := w.vault.milestones[id].amounts[index];
    assert PositiveAmounts(w.vault.milestones[id].amounts);
    var fee := UnifiedFee(w.config.fees, q, gross);
    assert 0 <= fee <= gross by {
      FeeWithinCap(w.config.fees, q, gross);
    }
    PayMilestoneKeeps(w.vault, w.config.treasury, id, index, fee);
    CompleteMilestoneVault(w, caller, id, index, q);
  }

  lemma CompleteMilestoneVault(w: World, caller: Address, id: nat, index: nat, q: Quote)
    requires MilestoneOpen(w.vault, id, index) && caller == w.vault.milestones[id].learner
    ensures var paid := PayMilestone(w.vault, w.config.treasury, id, index, UnifiedFee(w.config.fees, q, w.vault.milestones[id].amounts[index]));
      && (paid.Some? <==> CompleteMilestone(w, caller, id, index, q).Some?)
      && (paid.Some? ==> CompleteMilestone(w, caller, id, index, q).value.vault == paid.value
                         && CompleteMilestone(w, caller, id, index, q).value.config == w.config)
  {
  }

  lemma FreezeMilestoneRecord(v: Vault, id: nat, index: nat)
    requires MilestoneOpen(v, id, index) && MilestoneOk(v.milestones[id], v.msPaid)
    ensures var m, m' := v.milestones[id], FreezeMilestone(v, id, index).milestones[id];
      MilestoneOk(m', v.msPaid) && Sum(OpenAmounts(m')) == Sum(OpenAmounts(m))
  {
    var m, m' := v.milestones[id], FreezeMilestone(v, id, index).milestones[id];
    assert OpenAmounts(m') == OpenAmounts(m) && DoneAmounts(m') == DoneAmounts(m);
    StatusFlags(m.statuses, index);
    assert MilestonePaidOk(m, v.msPaid);
  }

  lemma FreezeMilestoneBooks(v: Vault, id: nat, index: nat)
    requires BooksOk(v) && MilestoneOpen(v, id, index)
    ensures BooksOk(FreezeMilestone(v, id, index))
  {
    var v' := FreezeMilestone(v, id, index);
    FreezeMilestoneRecord(v, id, index);
    forall k | k in v'.milestones
      ensures v'.milestones[k].id == k && MilestoneOk(v'.milestones[k], v'.msPaid)
    {
      if k != id {
        assert v'.milestones[k] == v.milestones[k];
      }
    }
  }

  lemma FreezeMilestoneSolvent(v: Vault, id: nat, index: nat, token: Address)
    requires BooksOk(v) && MilestoneOpen(v, id, index) && Solvent(v, token)
    ensures Solvent(FreezeMilestone(v, id, index), token)
  {
    FreezeMilestoneRecord(v, id, index);
    OwedAfterMilestone(v, FreezeMilestone(v, id, index), id, token);
  }

  lemma FreezeMilestoneKeeps(v: Vault, id: nat, index: nat)
    requires VaultOk(v) && MilestoneOpen(v, id, index)
    ensures VaultOk(FreezeMilestone(v, id, index))
  {
    FreezeMilestoneBooks(v, id, index);
    forall token
      ensures Solvent(FreezeMilestone(v, id, index), token)
    {
      assert Solvent(v, token);
      FreezeMilestoneSolvent(v, id, index, token);
    }
  }

  lemma MoveOutsideKeeps(v: Vault, token: Address, from: Address, to: Address, amount: int)
    requires VaultOk(v) && from != SELF && MoveOutside(v, token, from, to, amount).Some?
    ensures VaultOk(MoveOutside(v, token, from, to, amount).value)
  {
    var v' := MoveOutside(v, token, from, to, amount).value;
    TransferMoves(v.bank, token, from, to, amount);
    forall t
      ensures Solvent(v', t)
    {
      assert Solvent(v, t);
    }
  }

  // ---------------------------------------------------------------- every entry point

  lemma EmergencyKeeps(w: World, caller: Address, aid: nat)
    requires Inv(w) && ExecuteEmergency(w, caller, aid).Some?
    ensures Inv(ExecuteEmergency(w, caller, aid).value.0)
  {
    EmergencyPaysOut(w, caller, aid);
    if ExecuteEmergency(w, caller, aid).value.1 {
      ReleaseRestKeeps(w, w.emergency.actions[aid].params.escrowId, Quote(0, 0), caller);
    }
  }

  lemma ReleaseFundsKeeps(w: World, caller: Address, id: nat, q: Quote)
    requires Inv(w) && ReleaseFunds(w, caller, id, q).Some?
    ensures Inv(ReleaseFunds(w, caller, id, q).value)
  {
    var e := w.vault.escrows[id];
    var counted := w.(lowFee := w.lowFee[(e.mentor, e.learner) := LowFeeCount(w, e)]);
    ReleaseRestKeeps(counted, id, q, caller);
    assert ReleaseFunds(w, caller, id, q) == ReleaseRest(counted, id, q, caller);
  }

  lemma ReleasesKeep(w: World, c: Call)
    requires Inv(w) && Releases(c) && AttemptRelease(w, c).Some?
    ensures Inv(AttemptRelease(w, c).value)
  {
    match c
    case CallRelease(caller, id, q) => ReleaseFundsKeeps(w, caller, id, q);
    case CallPartial(caller, id, q) => PaySessionsKeeps(w, id, 1, q, caller);
    case CallBatch(caller, id, n, q) => PaySessionsKeeps(w, id, n, q, caller);
    case CallAdminRelease(caller, id, q) => ReleaseRestKeeps(w, id, q, caller);
    case CallAutoRelease(id, ok, q) =>
      if ok {
        ReleaseRestKeeps(w, id, q, SELF);
      }
    case CallManualRecovery(caller, id) => ReleaseRestKeeps(w, id, Quote(0, 0), caller);
  }

  lemma CreatesKeep(w: World, c: Call)
    requires Inv(w) && Creates(c) && AttemptCreate(w, c).Some?
    ensures Inv(AttemptCreate(w, c).value)
  {
    match c
    case CallCreate(mentor, learner, amount, session, token, end, n) =>
      CreateKeeps(w, mentor, learner, amount, session, token, end, 0, token, token, n);
    case CallCreateUsd(mentor, learner, usd, token, n, oracle) =>
      CreateKeeps(w, mentor, learner, usd * 10000000 / oracle.price, USD_SESSION, token, w.now, usd, token, token, n);
    case CallCreatePath(learner, mentor, send, sendMax, token, amount, n) =>
      CreateKeeps(w, mentor, learner, amount, PATH_SESSION, token, 0, 0, send, token, n);
    case CallCreateMilestones(mentor, learner, amounts, token) => CreateMilestonesKeeps(w, mentor, learner, amounts, token);
  }

  lemma DisputeKeeps(w: World, caller: Address, id: nat, reason: Symbol)
    requires Inv(w) && Dispute(w, caller, id, reason).Some?
    ensures Inv(Dispute(w, caller, id, reason).value)
  {
    FreezeEscrowKeeps(w.vault, id, reason);
    assert Dispute(w, caller, id, reason).value.vault == FreezeEscrow(w.vault, id, reason);
  }

  lemma DisputeMilestoneKeeps(w: World, signers: set<Address>, id: nat, index: nat)
    requires Inv(w) && DisputeMilestone(w, signers, id, index).Some?
    ensures Inv(DisputeMilestone(w, signers, id, index).value)
  {
    FreezeMilestoneKeeps(w.vault, id, index);
    assert DisputeMilestone(w, signers, id, index).value.vault == FreezeMilestone(w.vault, id, index);
  }

  lemma SettlesKeep(w: World, c: Call)
    requires Inv(w) && Settles(c) && AttemptSettle(w, c).Some?
    ensures Inv(AttemptSettle(w, c).value)
  {
    match c
    case CallDispute(caller, id, reason) => DisputeKeeps(w, caller, id, reason);
    case CallResolve(caller, id, pct) => ResolveKeeps(w, caller, id, pct);
    case CallRefund(caller, id) => RefundKeeps(w, caller, id);
    case CallExecuteEmergency(caller, aid) => EmergencyKeeps(w, caller, aid);
    case CallCompleteMilestone(caller, id, i, q) => CompleteMilestoneKeeps(w, caller, id, i, q);
    case CallDisputeMilestone(signers, id, i) => DisputeMilestoneKeeps(w, signers, id, i);
  }

  /** Administration leaves the vault alone and can only store a valid fee configuration. */
  lemma ConfigureCalls(w: World, c: Call)
    requires Configures(c) && AttemptConfigure(w, c).Some?
    ensures AttemptConfigure(w, c).value.vault == w.vault
    ensures ValidConfig(w.config.fees) ==> ValidConfig(AttemptConfigure(w, c).value.config.fees)
  {
  }

  lemma OtherCalls(w: World, c: Call)
    requires !Releases(c) && !Creates(c) && !Settles(c) && !Configures(c) && AttemptOther(w, c).Some?
    ensures var w' := AttemptOther(w, c).value;
      && w'.config == w.config && (!c.CallOutside? ==> w'.vault == w.vault)
      && w'.vault.escrows == w.vault.escrows && w'.vault.milestones == w.vault.milestones
  {
  }

  /** Every entry point keeps the books. */
  lemma AttemptKeeps(w: World, c: Call)
    requires Inv(w) && Attempt(w, c).Some?
    ensures Inv(Attempt(w, c).value)
  {
    if Creates(c) {
      CreatesKeep(w, c);
    } else if Releases(c) {
      ReleasesKeep(w, c);
    } else if Settles(c) {
      SettlesKeep(w, c);
    } else if Configures(c) {
      ConfigureCalls(w, c);
    } else {
      OtherCalls(w, c);
      if c.CallOutside? {
        MoveOutsideKeeps(w.vault, c.token, c.from, c.to, c.amount);
      }
    }
  }

  lemma GenesisOk(now: nat, bank: Bank, admin: Address, treasury: Address, feeBps: nat, approved: set<Address>, delay: nat)
    requires Genesis(now, bank, admin, treasury, feeBps, approved, delay).Some?
    ensures Inv(Genesis(now, bank, admin, treasury, feeBps, approved, delay).value)
  {
    var v := Genesis(now, bank, admin, treasury, feeBps, approved, delay).value.vault;
    forall token
      ensures Solvent(v, token)
    {
      if token !in v.surplus {
        assert (token, SELF).0 == token;
      }
    }
  }

  // ---------------------------------------------------------------- every run

  lemma {:induction false} RunKeeps(w: World, calls: seq<Call>)
    requires Inv(w)
    ensures Inv(Run(w, calls))
  {
    if calls != [] {
      var before := Run(w, calls[..|calls| - 1]);
      RunKeeps(w, calls[..|calls| - 1]);
      if Attempt(before, calls[|calls| - 1]).Some? {
        AttemptKeeps(before, calls[|calls| - 1]);
      }
    }
  }

  /**
   Solvency on every run, from any ledger and any fee within the cap, in every token: the contract's
   balance is exactly what it owes to live escrows and open milestones plus what it owns outright.
   */
  lemma SolvencyOnEveryRun(now: nat, bank: Bank, admin: Address, treasury: Address, feeBps: nat, approved: set<Address>,
                           delay: nat, calls: seq<Call>, token: Address)
    requires Genesis(now, bank, admin, treasury, feeBps, approved, delay).Some?
    ensures var v := Run(Genesis(now, bank, admin, treasury, feeBps, approved, delay).value, calls).vault;
      && Balance(v.bank, token, SELF) == Owed(v, token) + Surplus(v, token)
      && Surplus(v, token) >= 0 && Owed(v, token) >= 0
      && (forall id :: id in v.escrows && v.escrows[id].token == token && Live(v.escrows[id].status)
            ==> v.escrows[id].amount <= Balance(v.bank, token, SELF))
  {
    GenesisOk(now, bank, admin, treasury, feeBps, approved, delay);
    var w := Genesis(now, bank, admin, treasury, feeBps, approved, delay).value;
    RunKeeps(w, calls);
    var v := Run(w, calls).vault;
    assert Solvent(v, token);
    OwedNonNegative(v, token);
    forall id | id in v.escrows && v.escrows[id].token == token && Live(v.escrows[id].status)
      ensures v.escrows[id].amount <= Balance(v.bank, token, SELF)
    {
      BalanceCovers(v, token, id);
    }
  }

  lemma OwedNonNegative(v: Vault, token: Address)
    requires BooksOk(v)
    ensures Owed(v, token) >= 0
  {
    forall k: nat ensures Liability(v.escrows, k, token) >= 0 { LiabilityNonNegative(v, k, token); }
    forall k: nat ensures MilestoneLiability(v.milestones, k, token) >= 0 { MilestoneLiabilityNonNegative(v, k, token); }
    SumToBounds(Liabilities(v.escrows, token), v.escrowCount, 0);
    SumToBounds(MilestoneLiabilities(v.milestones, token), v.milestoneCount, 0);
  }

  predicate Terminal(s: Status) {
    s == Released || s == Refunded || s == Resolved
  }

  /** Lifetime payouts of an escrow never exceed its quote and equal it exactly once it is terminal. */
  lemma LifetimePayouts(w: World, calls: seq<Call>, id: nat)
    requires Inv(w) && id in Run(w, calls).vault.escrows
    ensures var v := Run(w, calls).vault;
      && 0 <= Lookup(v.paid, id, 0) <= v.escrows[id].quoted
      && (Lookup(v.paid, id, 0) == v.escrows[id].quoted <==> Terminal(v.escrows[id].status))
      && (Live(v.escrows[id].status) ==> Lookup(v.paid, id, 0) + v.escrows[id].amount == v.escrows[id].quoted)
  {
    RunKeeps(w, calls);
    UnpaidCoversSessions(Run(w, calls).vault.escrows[id], 0);
  }

  /** No escrow is ever stuck: in every reachable state the admin can release or refund what is Active. */
  lemma NothingGetsStuck(w: World, calls: seq<Call>, id: nat, q: Quote, pct: nat)
    requires Inv(w) && id in Run(w, calls).vault.escrows && pct <= 100
    ensures var now := Run(w, calls); var admin := now.config.admin;
      && (now.HasStatus(id, Active) ==> AdminRelease(now, admin, id, q).Some? && Refund(now, admin, id).Some?)
      && (now.HasStatus(id, Disputed) ==> Refund(now, admin, id).Some?)
      && (now.HasStatus(id, Disputed) ==> (ResolveDispute(now, admin, id, pct).Some? <==> id !in now.isolated))
  {
    RunKeeps(w, calls);
    var now := Run(w, calls);
    var admin := now.config.admin;
    if now.HasStatus(id, Active) {
      ReleaseRestKeeps(now, id, q, admin);
      RefundKeeps(now, admin, id);
    } else if now.HasStatus(id, Disputed) {
      RefundKeeps(now, admin, id);
      if id !in now.isolated {
        ResolveKeeps(now, admin, id, pct);
      }
    }
  }

  /**
   Isolation closes two exits. An isolated escrow is refused by `release_funds` and `resolve_dispute`, but in every
   reachable state the admin still releases it whole, by session or in any batch while it is Active, and still
   refunds it while it is live. (Its documentation promises no release at all.)
   */
  lemma IsolationClosesTwoExits(w: World, calls: seq<Call>, id: nat, n: nat, caller: Address, q: Quote, pct: nat)
    requires Inv(w) && id in Run(w, calls).vault.escrows && id in Run(w, calls).isolated
    ensures var now := Run(w, calls); var admin := now.config.admin; var e := now.vault.escrows[id];
      && ReleaseFunds(now, caller, id, q).None? && ResolveDispute(now, caller, id, pct).None?
      && (now.HasStatus(id, Active) ==> AdminRelease(now, admin, id, q).Some? && ReleasePartial(now, admin, id, q).Some?)
      && (now.HasStatus(id, Active) && 0 < n <= e.totalSessions - e.sessionsDone ==> BatchRelease(now, admin, id, n, q).Some?)
      && (Live(e.status) ==> Refund(now, admin, id).Some?)
  {
    RunKeeps(w, calls);
    var now := Run(w, calls);
    if now.HasStatus(id, Active) {
      ReleaseRestKeeps(now, id, q, now.config.admin);
      PaySessionsKeeps(now, id, 1, q, now.config.admin);
      if 0 < n <= now.vault.escrows[id].totalSessions - now.vault.escrows[id].sessionsDone {
        PaySessionsKeeps(now, id, n, q, now.config.admin);
      }
    }
    if Live(now.vault.escrows[id].status) {
      RefundKeeps(now, now.config.admin, id);
    }
  }

  /** `b` is the outcome of `a` with the isolated escrows replaced by `s`. */
  predicate Reflagged(a: Option<World>, b: Option<World>, s: set<nat>) {
    if a.None? then b.None? else b == Some(a.value.(isolated := s))
  }

  lemma PayOutIgnores(w: World, id: nat, gross: int, fee: int, n: nat, closes: bool, actor: Address, s: set<nat>)
    requires id in w.vault.escrows
    ensures Reflagged(PayOut(w, id, gross, fee, n, closes, actor), PayOut(w.(isolated := s), id, gross, fee, n, closes, actor), s)
  {
  }

  lemma CreateIgnores(w: World, mentor: Address, learner: Address, amount: int, session: Symbol, token: Address, sessionEnd: nat,
                      usd: int, quoted: int, send: Address, dest: Address, n: nat, s: set<nat>)
    ensures Reflagged(CreateInternal(w, mentor, learner, amount, session, token, sessionEnd, usd, quoted, send, dest, n),
                      CreateInternal(w.(isolated := s), mentor, learner, amount, session, token, sessionEnd, usd, quoted, send, dest, n), s)
  {
  }

  lemma CreatesIgnore(w: World, c: Call, s: set<nat>)
    requires Creates(c)
    ensures Reflagged(AttemptCreate(w, c), AttemptCreate(w.(isolated := s), c), s)
  {
    match c
    case CallCreate(mentor, learner, amount, session, token, end, n) =>
      CreateIgnores(w, mentor, learner, amount, session, token, end, 0, amount, token, token, n, s);
    case CallCreateUsd(mentor, learner, usd, token, n, oracle) =>
      if oracle.price > 0 {
        var amount := usd * 10000000 / oracle.price;
        CreateIgnores(w, mentor, learner, amount, USD_SESSION, token, w.now, usd, amount, token, token, n, s);
      }
    case CallCreatePath(learner, mentor, send, sendMax, token, amount, n) =>
      CreateIgnores(w, mentor, learner, amount, PATH_SESSION, token, 0, 0, amount, send, token, n, s);
    case CallCreateMilestones(mentor, learner, amounts, token) =>
  }

  lemma ReleasesIgnore(w: World, c: Call, s: set<nat>)
    requires Releases(c) && !c.CallRelease?
    ensures Reflagged(AttemptRelease(w, c), AttemptRelease(w.(isolated := s), c), s)
  {
    if c.CallPartial? {
      SessionsIgnore(w, c.id, 1, c.q, c.caller, s);
    } else if c.CallBatch? {
      SessionsIgnore(w, c.id, c.sessions, c.q, c.caller, s);
    } else if Pays(c) && c.id in w.vault.escrows {
      var p := PayoutOf(w, c);
      PayOutIgnores(w, p.id, p.gross, p.fee, p.sessions, p.closes, p.actor, s);
    }
  }

  lemma SessionsIgnore(w: World, id: nat, n: nat, q: Quote, actor: Address, s: set<nat>)
    ensures id in w.vault.escrows ==> Reflagged(PaySessions(w, id, n, q, actor), PaySessions(w.(isolated := s), id, n, q, actor), s)
  {
    if id in w.vault.escrows {
      var e := w.vault.escrows[id];
      var gross := SessionGross(e, n);
      PayOutIgnores(w, id, gross, UnifiedFee(w.config.fees, q, gross), n, e.sessionsDone + n == e.totalSessions, actor, s);
    }
  }

  lemma SettlesIgnore(w: World, c: Call, s: set<nat>)
    requires Settles(c) && !c.CallResolve?
    ensures Reflagged(AttemptSettle(w, c), AttemptSettle(w.(isolated := s), c), s)
  {
    match c
    case CallExecuteEmergency(caller, aid) => EmergencyIgnores(w, caller, aid, s);
    case CallCompleteMilestone(caller, id, index, q) => CompletionIgnores(w, caller, id, index, q, s);
    case _ =>
  }

  lemma CompletionIgnores(w: World, caller: Address, id: nat, index: nat, q: Quote, s: set<nat>)
    ensures Reflagged(CompleteMilestone(w, caller, id, index, q), CompleteMilestone(w.(isolated := s), caller, id, index, q), s)
  {
  }

  lemma EmergencyIgnores(w: World, caller: Address, aid: nat, s: set<nat>)
    ensures var a, b := ExecuteEmergency(w, caller, aid), ExecuteEmergency(w.(isolated := s), caller, aid);
      if a.None? then b.None? else b == Some((a.value.0.(isolated := s), a.value.1))
  {
    if aid in w.emergency.actions {
      var id := w.emergency.actions[aid].params.escrowId;
      assert EmergencyAdmitted(w.(isolated := s), caller, w.emergency.actions[aid]) == EmergencyAdmitted(w, caller, w.emergency.actions[aid]);
      if id in w.vault.escrows {
        PayOutIgnores(w, id, w.vault.escrows[id].amount, FlatFee(w.config.fees.feeBps, w.vault.escrows[id].amount), 0, true, caller, s);
      }
    }
  }

  lemma RestIgnores(w: World, c: Call, s: set<nat>)
    requires !Creates(c) && !Releases(c) && !Settles(c) && !c.CallIsolate? && !c.CallLift?
    ensures Reflagged(Attempt(w, c), Attempt(w.(isolated := s), c), s)
  {
  }

  /**
   Apart from those two exits and from setting the flag itself, no call looks at the flag: whatever escrows are
   isolated, it succeeds or fails alike, with the same effect. So automatic, manual and emergency release stay open too.
   */
  lemma IsolationIsIgnored(w: World, c: Call, s: set<nat>)
    requires !c.CallRelease? && !c.CallResolve? && !c.CallIsolate? && !c.CallLift?
    ensures Reflagged(Attempt(w, c), Attempt(w.(isolated := s), c), s)
  {
    if Creates(c) {
      CreatesIgnore(w, c, s);
    } else if Releases(c) {
      ReleasesIgnore(w, c, s);
    } else if Settles(c) {
      SettlesIgnore(w, c, s);
    } else {
      RestIgnores(w, c, s);
    }
  }

  // ---------------------------------------------------------------- the contract's own monitor

  /** The funds check of `monitor_escrow_invariants`: what was paid against what is left. */
  predicate MonitorFundsConserved(e: Escrow) {
    e.amount >= 0 && e.platformFee >= 0 && e.netAmount >= 0 && e.platformFee + e.netAmount <= e.amount
  }

  /**
   On sound escrows the monitor's check passes exactly when a dispute was resolved or no more than half
   has been paid out short of a release: it raises the alarm on every released escrow.
   */
  lemma MonitorPassesIff(w: World, calls: seq<Call>, id: nat)
    requires Inv(w) && id in Run(w, calls).vault.escrows
    ensures var e := Run(w, calls).vault.escrows[id];
      MonitorFundsConserved(e) <==> e.status == Resolved || (e.status != Released && 2 * e.amount >= e.quoted)
  {
    RunKeeps(w, calls);
    UnpaidCoversSessions(Run(w, calls).vault.escrows[id], 0);
  }

  // ---------------------------------------------------------------- records that are never touched again

  /** How one call may rewrite an escrow record: identity never, status along an edge, terminal not at all. */
  predicate Evolves(e: Escrow, e': Escrow) {
    && e'.id == e.id && e'.mentor == e.mentor && e'.learner == e.learner && e'.token == e.token
    && e'.quoted == e.quoted && e'.totalSessions == e.totalSessions && e'.sessionId == e.sessionId
    && e'.sessionsDone >= e.sessionsDone
    && (e'.status == e.status || ValidEdge(e.status, e'.status))
    && (Terminal(e.status) ==> e' == e)
  }

  predicate EscrowEvolves(v: Vault, v': Vault, id: nat) {
    id in v.escrows ==> id in v'.escrows && Evolves(v.escrows[id], v'.escrows[id])
  }

  /** A milestone escrow that has left Active is never rewritten. */
  predicate MilestoneEvolves(v: Vault, v': Vault, id: nat) {
    id in v.milestones ==> id in v'.milestones && (v.milestones[id].status == Active || v'.milestones[id] == v.milestones[id])
  }

  lemma CreateEvolves(w: World, mentor: Address, learner: Address, amount: int, session: Symbol, token: Address, sessionEnd: nat,
                      usd: int, quoted: int, send: Address, dest: Address, n: nat, id: nat)
    requires IdsOk(w.vault)
    requires CreateInternal(w, mentor, learner, amount, session, token, sessionEnd, usd, quoted, send, dest, n).Some?
    ensures var v' := CreateInternal(w, mentor, learner, amount, session, token, sessionEnd, usd, quoted, send, dest, n).value.vault;
      EscrowEvolves(w.vault, v', id) && MilestoneEvolves(w.vault, v', id)
  {
  }

  lemma CreatesEvolve(w: World, c: Call, id: nat)
    requires IdsOk(w.vault) && Creates(c) && AttemptCreate(w, c).Some?
    ensures EscrowEvolves(w.vault, AttemptCreate(w, c).value.vault, id) && MilestoneEvolves(w.vault, AttemptCreate(w, c).value.vault, id)
  {
    match c
    case CallCreate(mentor, learner, amount, session, token, end, n) =>
      CreateEvolves(w, mentor, learner, amount, session, token, end, 0, amount, token, token, n, id);
    case CallCreateUsd(mentor, learner, usd, token, n, oracle) =>
      var amount := usd * 10000000 / oracle.price;
      CreateEvolves(w, mentor, learner, amount, USD_SESSION, token, w.now, usd, amount, token, token, n, id);
    case CallCreatePath(learner, mentor, send, sendMax, token, amount, n) =>
      CreateEvolves(w, mentor, learner, amount, PATH_SESSION, token, 0, 0, amount, send, token, n, id);
    case CallCreateMilestones(mentor, learner, amounts, token) =>
  }

  lemma PayOutEvolves(w: World, k: nat, gross: int, fee: int, n: nat, closes: bool, actor: Address, id: nat)
    requires w.HasStatus(k, Active) && PayOut(w, k, gross, fee, n, closes, actor).Some?
    ensures var v' := PayOut(w, k, gross, fee, n, closes, actor).value.vault;
      EscrowEvolves(w.vault, v', id) && MilestoneEvolves(w.vault, v', id)
  {
  }

  lemma ReleasesEvolve(w: World, c: Call, id: nat)
    requires Releases(c) && AttemptRelease(w, c).Some?
    ensures EscrowEvolves(w.vault, AttemptRelease(w, c).value.vault, id) && MilestoneEvolves(w.vault, AttemptRelease(w, c).value.vault, id)
  {
    if Pays(c) {
      ReleaseIsPayout(w, c);
      var p := PayoutOf(w, c);
      PayOutEvolves(w, p.id, p.gross, p.fee, p.sessions, p.closes, p.actor, id);
    }
  }

  lemma SimpleReleaseEvolves(w: World, k: nat, actor: Address, id: nat)
    requires w.HasStatus(k, Active) && ReleaseRestSimple(w, k, actor).Some?
    ensures var v' := ReleaseRestSimple(w, k, actor).value.vault;
      EscrowEvolves(w.vault, v', id) && MilestoneEvolves(w.vault, v', id)
  {
    var e := w.vault.escrows[k];
    PayOutEvolves(w, k, e.amount, FlatFee(w.config.fees.feeBps, e.amount), 0, true, actor, id);
  }

  lemma EmergencyEvolves(w: World, caller: Address, aid: nat, id: nat)
    requires ExecuteEmergency(w, caller, aid).Some?
    ensures var v' := ExecuteEmergency(w, caller, aid).value.0.vault;
      EscrowEvolves(w.vault, v', id) && MilestoneEvolves(w.vault, v', id)
  {
    EmergencyPaysOut(w, caller, aid);
    if ExecuteEmergency(w, caller, aid).value.1 {
      SimpleReleaseEvolves(w, w.emergency.actions[aid].params.escrowId, caller, id);
    }
  }

  lemma DisputeEvolves(w: World, caller: Address, k: nat, reason: Symbol, id: nat)
    requires Dispute(w, caller, k, reason).Some?
    ensures var v' := Dispute(w, caller, k, reason).value.vault; EscrowEvolves(w.vault, v', id) && MilestoneEvolves(w.vault, v', id)
  {
  }

  lemma ResolveEvolves(w: World, caller: Address, k: nat, pct: nat, id: nat)
    requires ResolveDispute(w, caller, k, pct).Some?
    ensures var v' := ResolveDispute(w, caller, k, pct).value.vault; EscrowEvolves(w.vault, v', id) && MilestoneEvolves(w.vault, v', id)
  {
  }

  lemma RefundEvolves(w: World, caller: Address, k: nat, id: nat)
    requires Refund(w, caller, k).Some?
    ensures var v' := Refund(w, caller, k).value.vault; EscrowEvolves(w.vault, v', id) && MilestoneEvolves(w.vault, v', id)
  {
  }

  lemma CompleteMilestoneEvolves(w: World, caller: Address, k: nat, index: nat, q: Quote, id: nat)
    requires CompleteMilestone(w, caller, k, index, q).Some?
    ensures var v' := CompleteMilestone(w, caller, k, index, q).value.vault; EscrowEvolves(w.vault, v', id) && MilestoneEvolves(w.vault, v', id)
  {
  }

  lemma DisputeMilestoneEvolves(w: World, signers: set<Address>, k: nat, index: nat, id: nat)
    requires DisputeMilestone(w, signers, k, index).Some?
    ensures var v' := DisputeMilestone(w, signers, k, index).value.vault; EscrowEvolves(w.vault, v', id) && MilestoneEvolves(w.vault, v', id)
  {
  }

  lemma SettlesEvolve(w: World, c: Call, id: nat)
    requires Settles(c) && AttemptSettle(w, c).Some?
    ensures EscrowEvolves(w.vault, AttemptSettle(w, c).value.vault, id) && MilestoneEvolves(w.vault, AttemptSettle(w, c).value.vault, id)
  {
    match c
    case CallDispute(caller, k, reason) => DisputeEvolves(w, caller, k, reason, id);
    case CallResolve(caller, k, pct) => ResolveEvolves(w, caller, k, pct, id);
    case CallRefund(caller, k) => RefundEvolves(w, caller, k, id);
    case CallExecuteEmergency(caller, aid) => EmergencyEvolves(w, caller, aid, id);
    case CallCompleteMilestone(caller, k, i, q) => CompleteMilestoneEvolves(w, caller, k, i, q, id);
    case CallDisputeMilestone(signers, k, i) => DisputeMilestoneEvolves(w, signers, k, i, id);
  }

  lemma AttemptEvolves(w: World, c: Call, id: nat)
    requires IdsOk(w.vault) && Attempt(w, c).Some?
    ensures EscrowEvolves(w.vault, Attempt(w, c).value.vault, id) && MilestoneEvolves(w.vault, Attempt(w, c).value.vault, id)
  {
    if Creates(c) {
      CreatesEvolve(w, c, id);
    } else if Releases(c) {
      ReleasesEvolve(w, c, id);
    } else if Settles(c) {
      SettlesEvolve(w, c, id);
    } else if Configures(c) {
      ConfigureCalls(w, c);
    } else {
      OtherCalls(w, c);
    }
  }

  /** Released, Refunded and Resolved escrows are frozen for the rest of every run, record and payouts alike. */
  lemma {:induction false} TerminalForever(w: World, calls: seq<Call>, id: nat)
    requires Inv(w) && id in w.vault.escrows && Terminal(w.vault.escrows[id].status)
    ensures id in Run(w, calls).vault.escrows && Run(w, calls).vault.escrows[id] == w.vault.escrows[id]
  {
    if calls != [] {
      TerminalForever(w, calls[..|calls| - 1], id);
      RunKeeps(w, calls[..|calls| - 1]);
      var before := Run(w, calls[..|calls| - 1]);
      if Attempt(before, calls[|calls| - 1]).Some? {
        AttemptEvolves(before, calls[|calls| - 1], id);
      }
    }
  }

  lemma LockedAmounts(v: Vault, id: nat)
    requires VaultOk(v) && id in v.milestones && v.milestones[id].status == Disputed
    ensures 0 < Sum(OpenAmounts(v.milestones[id])) <= Balance(v.bank, v.milestones[id].token, SELF)
  {
    var m := v.milestones[id];
    var i :| 0 <= i < |m.statuses| && m.statuses[i] == MsDisputed;
    assert OpenAmounts(m)[i] == m.amounts[i];
    SumBounds(OpenAmounts(m));
    assert Solvent(v, m.token);
    BalanceCovers(v, m.token, id);
  }

  lemma {:induction false} DisputedMilestonesStay(w: World, calls: seq<Call>, id: nat)
    requires Inv(w) && id in w.vault.milestones && w.vault.milestones[id].status == Disputed
    ensures id in Run(w, calls).vault.milestones && Run(w, calls).vault.milestones[id] == w.vault.milestones[id]
  {
    if calls != [] {
      DisputedMilestonesStay(w, calls[..|calls| - 1], id);
      RunKeeps(w, calls[..|calls| - 1]);
      var before := Run(w, calls[..|calls| - 1]);
      if Attempt(before, calls[|calls| - 1]).Some? {
        AttemptEvolves(before, calls[|calls| - 1], id);
      }
    }
  }

  /**
   A disputed milestone escrow never leaves Disputed: no entry point resolves it, so the amounts that
   were still open stay owed for the rest of every run. (Its documentation promises an arbitrated split.)
   */
  lemma DisputedMilestonesStayLocked(w: World, calls: seq<Call>, id: nat)
    requires Inv(w) && id in w.vault.milestones && w.vault.milestones[id].status == Disputed
    ensures var v := Run(w, calls).vault; var m := w.vault.milestones[id];
      && id in v.milestones && v.milestones[id] == m
      && 0 < Sum(OpenAmounts(m)) <= Balance(v.bank, m.token, SELF)
  {
    DisputedMilestonesStay(w, calls, id);
    RunKeeps(w, calls);
    LockedAmounts(Run(w, calls).vault, id);
  }

  /** What the milestone invariant says in plain terms. */
  predicate MilestoneFacts(v: Vault, id: nat)
    requires id in v.milestones
  {
    var m := v.milestones[id];
    && |m.amounts| == |m.statuses|
    && m.platformFee + m.netAmount == Sum(DoneAmounts(m)) == m.total - Sum(OpenAmounts(m))
    && (m.status == Released <==> AllCompleted(m.statuses))
    && (m.status == Disputed <==> AnyDisputed(m.statuses)) && OneDisputed(m.statuses)
    && forall i: nat :: i < |m.amounts| ==> Lookup(v.msPaid, (id, i), 0) == if m.statuses[i] == MsCompleted then m.amounts[i] else 0
  }

  lemma MilestoneFactsHold(v: Vault, id: nat)
    requires MilestonesOk(v) && id in v.milestones
    ensures MilestoneFacts(v, id)
  {
    MilestoneSums(v.milestones[id]);
  }

  /** ... in every run: fees and nets are the completed amounts, statuses follow the milestones, none is paid twice. */
  lemma MilestonesOnEveryRun(w: World, calls: seq<Call>, id: nat)
    requires Inv(w) && id in Run(w, calls).vault.milestones
    ensures MilestoneFacts(Run(w, calls).vault, id)
  {
    RunKeeps(w, calls);
    MilestoneFactsHold(Run(w, calls).vault, id);
  }

  // ---------------------------------------------------------------- what the recorded figures mean on the ledger

  lemma PaySplitBalances(bank: Bank, token: Address, treasury: Address, mentor: Address, gross: int, fee: int, t: Address, who: Address)
    requires fee >= 0 && PaySplit(bank, token, treasury, mentor, gross, fee).Some?
    ensures Balance(PaySplit(bank, token, treasury, mentor, gross, fee).value, t, who) - Balance(bank, t, who)
      == (if t == token && who == treasury then fee else 0)
       + (if t == token && who == mentor then gross - fee else 0)
       - (if t == token && who == SELF then gross else 0)
  {
    if fee > 0 {
      TransferMoves(bank, token, SELF, treasury, fee);
      TransferMoves(Transfer(bank, token, SELF, treasury, fee).value, token, SELF, mentor, gross - fee);
    } else {
      TransferMoves(bank, token, SELF, mentor, gross);
    }
  }

  /** A release moves the recorded fee to the treasury and the recorded net to the mentor, and nothing else. */
  lemma PayoutReachesTheRightHands(v: Vault, treasury: Address, id: nat, gross: int, fee: int, sessions: nat, closes: bool, who: Address)
    requires id in v.escrows && 0 <= fee && PayEscrow(v, treasury, id, gross, fee, sessions, closes).Some?
    ensures var v' := PayEscrow(v, treasury, id, gross, fee, sessions, closes).value;
      var e, e' := v.escrows[id], v'.escrows[id];
      forall t :: Balance(v'.bank, t, who) - Balance(v.bank, t, who)
        == (if t == e.token && who == treasury then e'.platformFee - e.platformFee else 0)
         + (if t == e.token && who == e.mentor then e'.netAmount - e.netAmount else 0)
         - (if t == e.token && who == SELF then e.amount - e'.amount else 0)
  {
    var e := v.escrows[id];
    forall t
      ensures Balance(PaySplit(v.bank, e.token, treasury, e.mentor, gross, fee).value, t, who) - Balance(v.bank, t, who)
        == (if t == e.token && who == treasury then fee else 0)
         + (if t == e.token && who == e.mentor then gross - fee else 0)
         - (if t == e.token && who == SELF then gross else 0)
    {
      PaySplitBalances(v.bank, e.token, treasury, e.mentor, gross, fee, t, who);
    }
  }

  /** A split gives the mentor the floored percentage and the learner the rest; the treasury gets nothing. */
  lemma SplitReachesTheRightHands(v: Vault, id: nat, toMentor: int, now: nat, who: Address)
    requires id in v.escrows && 0 <= toMentor <= v.escrows[id].amount && SplitEscrow(v, id, toMentor, now).Some?
    ensures var v' := SplitEscrow(v, id, toMentor, now).value; var e := v.escrows[id];
      forall t :: Balance(v'.bank, t, who) - Balance(v.bank, t, who)
        == (if t == e.token && who == e.mentor then toMentor else 0)
         + (if t == e.token && who == e.learner then e.amount - toMentor else 0)
         - (if t == e.token && who == SELF then e.amount else 0)
  {
    var e := v.escrows[id];
    var toLearner := e.amount - toMentor;
    if toMentor > 0 {
      TransferMoves(v.bank, e.token, SELF, e.mentor, toMentor);
    }
    var bank1 := TransferIfPositive(v.bank, e.token, e.mentor, toMentor).value;
    if toLearner > 0 {
      TransferMoves(bank1, e.token, SELF, e.learner, toLearner);
    }
  }
}
