/** One `batch_release` of n sessions against n calls of `release_partial`. */
module EscrowBatch {
  import opened Options
  import opened Sums
  import opened Ledger
  import opened Fees
  import opened EscrowModel
  import opened EscrowFunds

  /** n successive `release_partial` calls by the same caller; any panic is a panic of the whole. */
  function Partials(w: World, caller: Address, id: nat, n: nat, q: Quote): Option<World> {
    if n == 0 then Some(w)
    else
      var w' :- Partials(w, caller, id, n - 1, q);
      ReleasePartial(w', caller, id, q)
  }

  /** The record after `n` more sessions, leaving open only how the gross was split into fee and net. */
  predicate PaidSessions(e: Escrow, e': Escrow, n: nat) {
    && e' == e.(amount := e'.amount, sessionsDone := e'.sessionsDone, status := e'.status,
                platformFee := e'.platformFee, netAmount := e'.netAmount)
    && e'.amount == e.amount - SessionGross(e, n)
    && e'.sessionsDone == e.sessionsDone + n
    && e'.status == (if e.sessionsDone + n == e.totalSessions then Released else Active)
    && e'.platformFee + e'.netAmount == e.platformFee + e.netAmount + SessionGross(e, n)
  }

  function ClosingLog(w: World, id: nat, closes: bool, actor: Address): map<nat, seq<Transition>> {
    if closes then w.log[id := Lookup(w.log, id, []) + [Transition(Active, Released, actor, w.now)]] else w.log
  }

  /** The rest of the storage: only the log and the session key may change, and only on closing. */
  predicate RestOfStorage(w: World, w': World, id: nat, closes: bool, session: Symbol, actor: Address) {
    w' == w.(vault := w'.vault, log := ClosingLog(w, id, closes, actor),
             openSessions := if closes then w.openSessions - {session} else w.openSessions)
  }

  predicate OneRecord(v: Vault, v': Vault, id: nat) {
    && id in v'.escrows && v'.escrows == v.escrows[id := v'.escrows[id]]
    && v' == v.(bank := v'.bank, escrows := v'.escrows, surplus := v'.surplus, paid := v'.paid)
  }

  /** `gross` more was paid out for `id`, and nothing for any other escrow. */
  ghost predicate PaidMore(v: Vault, v': Vault, id: nat, gross: int) {
    forall k :: Lookup(v'.paid, k, 0) == Lookup(v.paid, k, 0) + if k == id then gross else 0
  }

  /** Fee and net of an escrow's payouts in one token, to the treasury and the mentor. */
  datatype Split = Split(token: Address, treasury: Address, mentor: Address, fee: int, net: int)

  function SplitOf(w: World, e: Escrow, e': Escrow): Split {
    Split(e.token, w.config.treasury, e.mentor, e'.platformFee - e.platformFee, e'.netAmount - e.netAmount)
  }

  /** What a holder gains by a split. */
  function Gain(s: Split, who: Address): int {
    (if who == s.treasury then s.fee else 0) + (if who == s.mentor then s.net else 0) - (if who == SELF then s.fee + s.net else 0)
  }

  /** What the contract then owns outright, because a recipient is the contract. */
  function Kept(s: Split): int {
    (if s.treasury == SELF then s.fee else 0) + (if s.mentor == SELF then s.net else 0)
  }

  /** Every balance of every token moved by the split, and the contract's own part of it is recorded. */
  ghost predicate Moved(v: Vault, v': Vault, s: Split) {
    && (forall t, who :: Balance(v'.bank, t, who) == Balance(v.bank, t, who) + if t == s.token then Gain(s, who) else 0)
    && (forall t :: Lookup(v'.surplus, t, 0) == Lookup(v.surplus, t, 0) + if t == s.token then Kept(s) else 0)
  }

  predicate Closes(e: Escrow, n: nat) {
    n > 0 && e.sessionsDone + n == e.totalSessions
  }

  /** Everything `n` sessions do to the storage, given how the gross was split. */
  ghost predicate AfterSessions(w: World, w': World, id: nat, n: nat, actor: Address)
    requires id in w.vault.escrows
  {
    var e := w.vault.escrows[id];
    && OneRecord(w.vault, w'.vault, id)
    && PaidSessions(e, w'.vault.escrows[id], n)
    && PaidMore(w.vault, w'.vault, id, SessionGross(e, n))
    && Moved(w.vault, w'.vault, SplitOf(w, e, w'.vault.escrows[id]))
    && RestOfStorage(w, w', id, Closes(e, n), e.sessionId, actor)
  }

  /** Flat-fee total charged between two records of the same escrow. */
  function Charged(e: Escrow, e': Escrow): int {
    e'.platformFee - e.platformFee
  }

  lemma PayEscrowMoves(v: Vault, treasury: Address, id: nat, gross: int, fee: int, n: nat, closes: bool, s: Split)
    requires id in v.escrows && fee >= 0 && PayEscrow(v, treasury, id, gross, fee, n, closes).Some?
    requires s == Split(v.escrows[id].token, treasury, v.escrows[id].mentor, fee, gross - fee)
    ensures Moved(v, PayEscrow(v, treasury, id, gross, fee, n, closes).value, s)
  {
    var v' := PayEscrow(v, treasury, id, gross, fee, n, closes).value;
    forall t, who
      ensures Balance(v'.bank, t, who) == Balance(v.bank, t, who) + if t == s.token then Gain(s, who) else 0
    {
      PaySplitBalances(v.bank, s.token, treasury, s.mentor, gross, fee, t, who);
    }
  }

  lemma PayEscrowEffect(v: Vault, treasury: Address, id: nat, gross: int, fee: int, n: nat, closes: bool)
    requires id in v.escrows && fee >= 0 && PayEscrow(v, treasury, id, gross, fee, n, closes).Some?
    ensures var v' := PayEscrow(v, treasury, id, gross, fee, n, closes).value;
      && OneRecord(v, v', id) && PaidMore(v, v', id, gross)
      && v'.escrows[id] == v.escrows[id].(amount := v.escrows[id].amount - gross, platformFee := v.escrows[id].platformFee + fee,
           netAmount := v.escrows[id].netAmount + gross - fee, sessionsDone := v.escrows[id].sessionsDone + n,
           status := if closes then Released else v.escrows[id].status)
  {
  }

  lemma PaySessionsVault(w: World, id: nat, n: nat, q: Quote, actor: Address)
    requires id in w.vault.escrows && n > 0 && w.vault.escrows[id].status == Active && PaySessions(w, id, n, q, actor).Some?
    ensures var e := w.vault.escrows[id]; var w' := PaySessions(w, id, n, q, actor).value;
      var gross := SessionGross(e, n);
      && PayEscrow(w.vault, w.config.treasury, id, gross, UnifiedFee(w.config.fees, q, gross), n, Closes(e, n)) == Some(w'.vault)
      && RestOfStorage(w, w', id, Closes(e, n), e.sessionId, actor)
  {
  }

  /** A single session payout of n sessions has exactly this effect. */
  lemma PaySessionsEffect(w: World, id: nat, n: nat, q: Quote, actor: Address)
    requires Inv(w) && w.HasStatus(id, Active) && n > 0 && w.vault.escrows[id].sessionsDone + n <= w.vault.escrows[id].totalSessions
    ensures PaySessions(w, id, n, q, actor).Some? && Inv(PaySessions(w, id, n, q, actor).value)
    ensures AfterSessions(w, PaySessions(w, id, n, q, actor).value, id, n, actor)
    ensures Charged(w.vault.escrows[id], PaySessions(w, id, n, q, actor).value.vault.escrows[id])
      == UnifiedFee(w.config.fees, q, SessionGross(w.vault.escrows[id], n))
  {
    var e := w.vault.escrows[id];
    var gross := SessionGross(e, n);
    var fee := UnifiedFee(w.config.fees, q, gross);
    UnpaidCoversSessions(e, n);
    FeeWithinCap(w.config.fees, q, gross);
    PaySessionsKeeps(w, id, n, q, actor);
    PaySessionsVault(w, id, n, q, actor);
    SessionsEffect(w, PaySessions(w, id, n, q, actor).value, id, n, gross, fee, actor);
  }

  lemma SessionsEffect(w: World, w': World, id: nat, n: nat, gross: int, fee: int, actor: Address)
    requires id in w.vault.escrows && w.vault.escrows[id].status == Active && n > 0 && fee >= 0
    requires gross == SessionGross(w.vault.escrows[id], n)
    requires PayEscrow(w.vault, w.config.treasury, id, gross, fee, n, Closes(w.vault.escrows[id], n)) == Some(w'.vault)
    requires RestOfStorage(w, w', id, Closes(w.vault.escrows[id], n), w.vault.escrows[id].sessionId, actor)
    ensures AfterSessions(w, w', id, n, actor) && Charged(w.vault.escrows[id], w'.vault.escrows[id]) == fee
  {
    var e := w.vault.escrows[id];
    PayEscrowEffect(w.vault, w.config.treasury, id, gross, fee, n, Closes(e, n));
    PayEscrowMoves(w.vault, w.config.treasury, id, gross, fee, n, Closes(e, n), Split(e.token, w.config.treasury, e.mentor, fee, gross - fee));
  }

  /** The gross of n + 1 sessions is the gross of n and then of one more, dust included. */
  lemma GrossAdds(e: Escrow, e': Escrow, n: nat)
    requires Shaped(e) && e.status == Active && e.sessionsDone + n < e.totalSessions && PaidSessions(e, e', n)
    ensures SessionGross(e, n + 1) == SessionGross(e, n) + SessionGross(e', 1)
    ensures SessionGross(e, n) >= 0 && SessionGross(e', 1) >= 0
  {
    UnpaidCoversSessions(e, n);
    UnpaidCoversSessions(e, n + 1);
    assert PerSession(e') == PerSession(e);
    assert PerSession(e) * (n + 1) == PerSession(e) * n + PerSession(e);
  }

  lemma PaidSessionsCompose(e: Escrow, e': Escrow, e'': Escrow, n: nat)
    requires Shaped(e) && e.status == Active && e.sessionsDone + n < e.totalSessions
    requires PaidSessions(e, e', n) && PaidSessions(e', e'', 1)
    ensures PaidSessions(e, e'', n + 1)
  {
    GrossAdds(e, e', n);
  }

  lemma RestCompose(w: World, w': World, w'': World, id: nat, closes: bool, session: Symbol, actor: Address)
    requires RestOfStorage(w, w', id, false, session, actor) && RestOfStorage(w', w'', id, closes, session, actor)
    ensures RestOfStorage(w, w'', id, closes, session, actor)
  {
  }

  lemma OneRecordCompose(v: Vault, v': Vault, v'': Vault, id: nat)
    requires OneRecord(v, v', id) && OneRecord(v', v'', id)
    ensures OneRecord(v, v'', id)
  {
    assert v.escrows[id := v'.escrows[id]][id := v''.escrows[id]] == v.escrows[id := v''.escrows[id]];
  }

  /** Effects of n sessions and then one more add up to the effect of n + 1. */
  lemma SessionsCompose(w: World, w': World, w'': World, id: nat, n: nat, actor: Address)
    requires id in w.vault.escrows && Shaped(w.vault.escrows[id]) && w.vault.escrows[id].status == Active
    requires w.vault.escrows[id].sessionsDone + n < w.vault.escrows[id].totalSessions
    requires AfterSessions(w, w', id, n, actor) && AfterSessions(w', w'', id, 1, actor)
    ensures AfterSessions(w, w'', id, n + 1, actor)
  {
    var e, e', e'' := w.vault.escrows[id], w'.vault.escrows[id], w''.vault.escrows[id];
    PaidSessionsCompose(e, e', e'', n);
    GrossAdds(e, e', n);
    OneRecordCompose(w.vault, w'.vault, w''.vault, id);
    RestCompose(w, w', w'', id, Closes(e, n + 1), e.sessionId, actor);
    PaidCompose(w.vault, w'.vault, w''.vault, id, SessionGross(e, n), SessionGross(e', 1));
    MovesCompose(w.vault, w'.vault, w''.vault, SplitOf(w, e, e'), SplitOf(w', e', e''), SplitOf(w, e, e''));
  }

  lemma PaidCompose(v: Vault, v': Vault, v'': Vault, id: nat, a: int, b: int)
    requires PaidMore(v, v', id, a) && PaidMore(v', v'', id, b)
    ensures PaidMore(v, v'', id, a + b)
  {
  }

  lemma MovesCompose(v: Vault, v': Vault, v'': Vault, s: Split, s': Split, s'': Split)
    requires Moved(v, v', s) && Moved(v', v'', s')
    requires s' == s.(fee := s'.fee, net := s'.net) && s'' == s.(fee := s.fee + s'.fee, net := s.net + s'.net)
    ensures Moved(v, v'', s'')
  {
    SplitsAdd(s, s', s'');
    forall t, who
      ensures Balance(v''.bank, t, who) == Balance(v.bank, t, who) + if t == s''.token then Gain(s'', who) else 0
    {
      assert Balance(v'.bank, t, who) == Balance(v.bank, t, who) + if t == s.token then Gain(s, who) else 0;
    }
    forall t
      ensures Lookup(v''.surplus, t, 0) == Lookup(v.surplus, t, 0) + if t == s''.token then Kept(s'') else 0
    {
      assert Lookup(v'.surplus, t, 0) == Lookup(v.surplus, t, 0) + if t == s.token then Kept(s) else 0;
    }
  }

  lemma SplitsAdd(s: Split, s': Split, s'': Split)
    requires s' == s.(fee := s'.fee, net := s'.net) && s'' == s.(fee := s.fee + s'.fee, net := s.net + s'.net)
    ensures Kept(s'') == Kept(s) + Kept(s')
    ensures forall who :: Gain(s'', who) == Gain(s, who) + Gain(s', who)
  {
  }

  /** `r` is a committed storage in which exactly n sessions of `id` were paid since `w`. */
  ghost predicate SessionsDone(w: World, r: Option<World>, id: nat, n: nat, actor: Address)
    requires id in w.vault.escrows
  {
    r.Some? && Inv(r.value) && AfterSessions(w, r.value, id, n, actor)
  }

  /** Extending by one partial release. */
  lemma OneMorePartial(w: World, w': World, caller: Address, id: nat, n: nat, q: Quote)
    requires Inv(w) && w.HasStatus(id, Active) && caller == w.config.admin
    requires w.vault.escrows[id].sessionsDone + n < w.vault.escrows[id].totalSessions
    requires SessionsDone(w, Some(w'), id, n, caller)
    ensures SessionsDone(w, ReleasePartial(w', caller, id, q), id, n + 1, caller)
    ensures Charged(w'.vault.escrows[id], ReleasePartial(w', caller, id, q).value.vault.escrows[id])
      == UnifiedFee(w'.config.fees, q, SessionGross(w'.vault.escrows[id], 1))
  {
    assert ReleasePartial(w', caller, id, q) == PaySessions(w', id, 1, q, caller);
    PaySessionsEffect(w', id, 1, q, caller);
    SessionsCompose(w, w', PaySessions(w', id, 1, q, caller).value, id, n, caller);
  }

  lemma NothingMoved(v: Vault, s: Split)
    requires s.fee == 0 && s.net == 0
    ensures Moved(v, v, s)
  {
    assert Kept(s) == 0;
    assert forall who :: Gain(s, who) == 0;
  }

  lemma NothingElse(w: World, id: nat, session: Symbol, actor: Address)
    ensures RestOfStorage(w, w, id, false, session, actor)
  {
  }

  lemma NoSessions(w: World, id: nat, actor: Address)
    requires id in w.vault.escrows && Shaped(w.vault.escrows[id]) && w.vault.escrows[id].status == Active
    ensures AfterSessions(w, w, id, 0, actor)
  {
    var e := w.vault.escrows[id];
    assert w.vault.escrows == w.vault.escrows[id := e];
    NothingMoved(w.vault, SplitOf(w, e, e));
    NothingElse(w, id, e.sessionId, actor);
  }

  /** The fees charged on escrow `id` between the record `e` and the storage `r` come to `total`. */
  predicate FeesCharged(e: Escrow, r: Option<World>, id: nat, total: int) {
    r.Some? && id in r.value.vault.escrows && r.value.vault.escrows[id].platformFee == e.platformFee + total
  }

  /** The gross of the n-th partial release. */
  function NthGross(e: Escrow, n: nat): int
    requires n > 0
  {
    SessionGross(e, n) - SessionGross(e, n - 1)
  }

  /** What the k-th partial release is charged. */
  function NthFee(fees: FeeConfig, q: Quote, e: Escrow): nat -> int {
    (k: nat) => if k == 0 then 0 else UnifiedFee(fees, q, NthGross(e, k))
  }

  lemma NextGross(e: Escrow, before: Escrow, n: nat)
    requires Shaped(e) && e.status == Active && n > 0 && e.sessionsDone + n <= e.totalSessions && PaidSessions(e, before, n - 1)
    ensures SessionGross(before, 1) == NthGross(e, n)
  {
    GrossAdds(e, before, n - 1);
  }

  lemma PartialCharge(w: World, before: World, caller: Address, id: nat, n: nat, q: Quote, gross: int)
    requires Inv(w) && w.HasStatus(id, Active) && caller == w.config.admin && n > 0
    requires w.vault.escrows[id].sessionsDone + n <= w.vault.escrows[id].totalSessions
    requires SessionsDone(w, Some(before), id, n - 1, caller) && gross == NthGross(w.vault.escrows[id], n)
    ensures SessionsDone(w, ReleasePartial(before, caller, id, q), id, n, caller)
    ensures Charged(before.vault.escrows[id], ReleasePartial(before, caller, id, q).value.vault.escrows[id]) == UnifiedFee(w.config.fees, q, gross)
  {
    NextGross(w.vault.escrows[id], before.vault.escrows[id], n);
    OneMorePartial(w, before, caller, id, n - 1, q);
  }

  /** What is known after n partial releases. */
  ghost predicate PartialsOk(w: World, r: Option<World>, id: nat, n: nat, actor: Address, total: int)
    requires id in w.vault.escrows
  {
    SessionsDone(w, r, id, n, actor) && FeesCharged(w.vault.escrows[id], r, id, total)
  }

  lemma PartialStep(w: World, before: Option<World>, caller: Address, id: nat, n: nat, q: Quote, total: int, fee: int)
    requires Inv(w) && w.HasStatus(id, Active) && caller == w.config.admin && n > 0
    requires w.vault.escrows[id].sessionsDone + n <= w.vault.escrows[id].totalSessions
    requires PartialsOk(w, before, id, n - 1, caller, total)
    requires fee == UnifiedFee(w.config.fees, q, NthGross(w.vault.escrows[id], n))
    ensures PartialsOk(w, ReleasePartial(before.value, caller, id, q), id, n, caller, total + fee)
  {
    PartialCharge(w, before.value, caller, id, n, q, NthGross(w.vault.escrows[id], n));
  }

  lemma PartialsStep(w: World, caller: Address, id: nat, n: nat, q: Quote, total: int, fee: int)
    requires Inv(w) && w.HasStatus(id, Active) && caller == w.config.admin && n > 0
    requires w.vault.escrows[id].sessionsDone + n <= w.vault.escrows[id].totalSessions
    requires PartialsOk(w, Partials(w, caller, id, n - 1, q), id, n - 1, caller, total)
    requires fee == UnifiedFee(w.config.fees, q, NthGross(w.vault.escrows[id], n))
    ensures PartialsOk(w, Partials(w, caller, id, n, q), id, n, caller, total + fee)
  {
    PartialStep(w, Partials(w, caller, id, n - 1, q), caller, id, n, q, total, fee);
  }

  lemma NoPartials(w: World, caller: Address, id: nat, q: Quote)
    requires Inv(w) && w.HasStatus(id, Active)
    ensures PartialsOk(w, Partials(w, caller, id, 0, q), id, 0, caller, 0)
  {
    NoSessions(w, id, caller);
  }

  lemma {:induction false} PartialsTotal(w: World, caller: Address, id: nat, n: nat, q: Quote, fees: nat -> int, total: int)
    requires Inv(w) && w.HasStatus(id, Active) && caller == w.config.admin
    requires w.vault.escrows[id].sessionsDone + n <= w.vault.escrows[id].totalSessions
    requires fees == NthFee(w.config.fees, q, w.vault.escrows[id]) && total == SumTo(fees, n)
    ensures PartialsOk(w, Partials(w, caller, id, n, q), id, n, caller, total)
  {
    if n == 0 {
      NoPartials(w, caller, id, q);
    } else {
      PartialsTotal(w, caller, id, n - 1, q, fees, SumTo(fees, n - 1));
      PartialsStep(w, caller, id, n, q, SumTo(fees, n - 1), fees(n));
    }
  }

  /** n partial releases by the admin all go through, with the effect of n sessions and fees charged one by one. */
  lemma PartialsEffect(w: World, caller: Address, id: nat, n: nat, q: Quote)
    requires Inv(w) && w.HasStatus(id, Active) && caller == w.config.admin
    requires w.vault.escrows[id].sessionsDone + n <= w.vault.escrows[id].totalSessions
    ensures PartialsOk(w, Partials(w, caller, id, n, q), id, n, caller, SumTo(NthFee(w.config.fees, q, w.vault.escrows[id]), n))
  {
    PartialsTotal(w, caller, id, n, q, NthFee(w.config.fees, q, w.vault.escrows[id]), SumTo(NthFee(w.config.fees, q, w.vault.escrows[id]), n));
  }

  /** `charged` over n payouts against the flat fee on their total. */
  predicate FeeGap(bps: nat, charged: int, gross: int, n: nat) {
    charged <= FlatFee(bps, gross) <= charged + if n == 0 then 0 else n - 1
  }

  lemma GapStep(bps: nat, charged: int, gross: nat, next: nat, n: nat)
    requires bps <= MAX_FEE_BPS && n > 0 && FeeGap(bps, charged, gross, n - 1) && (n == 1 ==> gross == 0)
    ensures FeeGap(bps, charged + FlatFee(bps, next), gross + next, n)
  {
    FlatFeeSuperadditive(bps, gross, next);
  }

  function PartialFees(fees: FeeConfig, q: Quote, e: Escrow, n: nat): int {
    SumTo(NthFee(fees, q, e), n)
  }

  /** Under a flat rate the separate fees fall short of the fee on the whole by at most n - 1. */
  lemma {:induction false} PartialFeesGap(fees: FeeConfig, q: Quote, e: Escrow, n: nat)
    requires ValidConfig(fees) && fees.schedule.None? && Shaped(e) && e.status == Active && e.sessionsDone + n <= e.totalSessions
    ensures FeeGap(fees.feeBps, PartialFees(fees, q, e, n), SessionGross(e, n), n)
  {
    if n > 0 {
      PartialFeesGap(fees, q, e, n - 1);
      GrossGrows(e, n - 1);
      GapStep(fees.feeBps, PartialFees(fees, q, e, n - 1), SessionGross(e, n - 1), SessionGross(e, n) - SessionGross(e, n - 1), n);
    }
  }

  lemma GrossGrows(e: Escrow, n: nat)
    requires Shaped(e) && e.status == Active && e.sessionsDone + n < e.totalSessions
    ensures 0 <= SessionGross(e, n) <= SessionGross(e, n + 1)
    ensures n == 0 ==> SessionGross(e, n) == 0
  {
    UnpaidCoversSessions(e, n);
    UnpaidCoversSessions(e, n + 1);
    assert PerSession(e) * (n + 1) == PerSession(e) * n + PerSession(e);
  }

  /**
   A batch of n sessions refines n partial releases by the admin: whenever the batch is accepted so is
   the sequence, and the two end in the same storage (record, dust, status, log, session key, payout
   total, every balance) except that the difference in fee went to the treasury instead of the mentor.
   Under a flat rate the batch charges at least as much, and at most n - 1 units more.
   */
  lemma BatchRefinesPartials(w: World, admin: Address, id: nat, n: nat, q: Quote)
    requires Inv(w) && BatchRelease(w, admin, id, n, q).Some?
    ensures Partials(w, admin, id, n, q).Some?
    ensures SameButSplit(w, BatchRelease(w, admin, id, n, q).value, Partials(w, admin, id, n, q).value, id)
    ensures w.config.fees.schedule.None? ==>
      0 <= Charged(Partials(w, admin, id, n, q).value.vault.escrows[id], BatchRelease(w, admin, id, n, q).value.vault.escrows[id]) <= n - 1
  {
    PaySessionsEffect(w, id, n, q, admin);
    PartialsEffect(w, admin, id, n, q);
    if w.config.fees.schedule.None? {
      PartialFeesGap(w.config.fees, q, w.vault.escrows[id], n);
    }
    EffectIsUnique(w, BatchRelease(w, admin, id, n, q).value, Partials(w, admin, id, n, q).value, id, n, admin);
  }

  /**
   Two storages that differ only in how one escrow's payouts were split: `b` charged some fee more than `p`,
   and that much more of the escrow's token is with the treasury and less with the mentor. Balances in other
   tokens and of everybody else are the same.
   */
  ghost predicate SameButSplit(w: World, b: World, p: World, id: nat) {
    && id in w.vault.escrows && id in b.vault.escrows && id in p.vault.escrows
    && (var e, be, pe := w.vault.escrows[id], b.vault.escrows[id], p.vault.escrows[id];
        var more := Charged(pe, be);
        && be == pe.(platformFee := pe.platformFee + more, netAmount := pe.netAmount - more)
        && (forall t, who :: Balance(b.vault.bank, t, who) - Balance(p.vault.bank, t, who)
              == if t != e.token then 0 else (if who == w.config.treasury then more else 0) - (if who == e.mentor then more else 0))
        && (forall t :: Lookup(b.vault.surplus, t, 0) - Lookup(p.vault.surplus, t, 0)
              == if t != e.token then 0 else (if w.config.treasury == SELF then more else 0) - (if e.mentor == SELF then more else 0)))
    && OneRecord(b.vault, p.vault, id) && p == b.(vault := p.vault)
    && (forall k :: Lookup(p.vault.paid, k, 0) == Lookup(b.vault.paid, k, 0))
  }

  lemma EffectIsUnique(w: World, b: World, p: World, id: nat, n: nat, actor: Address)
    requires id in w.vault.escrows && AfterSessions(w, b, id, n, actor) && AfterSessions(w, p, id, n, actor)
    ensures SameButSplit(w, b, p, id)
  {
  }

  /** The bound on the fee difference is reached: two sessions of 15 at 5% pay 0 + 0, the pair pays 1. */
  lemma FeeGapIsReached()
    ensures FlatFee(500, 30) - (FlatFee(500, 15) + FlatFee(500, 15)) == 1
  {
  }
}
