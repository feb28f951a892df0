/** The multisig wallet: time-locked payments that need a threshold of signers' approvals. */
module WalletModel {
  import opened Options
  import opened Ledger

  datatype TxStatus = Pending | Executed | Cancelled

  datatype Transaction = Transaction(id: nat, proposer: Address, to: Address, token: Address, amount: int,
                                     executeAfter: nat, status: TxStatus, approvals: nat)

  /** A payment as it happened: when, at which threshold, and by whose approvals. */
  datatype Payment = Payment(id: nat, at: nat, threshold: nat, approvers: set<Address>)

  /**
   `signers` holds the addresses whose flag is true, `approvals` those with an approval flag per transaction. The last three fields are history: everything that
   came into the wallet, who was a signer at each approval, and the payments made.
   */
  datatype Wallet = Wallet(now: nat, bank: Bank, admin: Address, signers: set<Address>, signerCount: nat, threshold: nat,
                           count: nat, txs: map<nat, Transaction>, approvals: map<nat, set<Address>>,
                           received: map<Address, int>, votes: map<(nat, Address), set<Address>>, payments: seq<Payment>)

  function ApproversOf(w: Wallet, id: nat): set<Address> {
    if id in w.approvals then w.approvals[id] else {}
  }

  function ReceivedOf(w: Wallet, token: Address): int {
    if token in w.received then w.received[token] else 0
  }

  /** The count is the length of the list; the flags collapse duplicates. */
  function Initialize(now: nat, bank: Bank, admin: Address, initial: seq<Address>, threshold: nat): Option<Wallet> {
    if initial == [] || threshold == 0 || threshold > |initial| then None
    else Some(Wallet(now, bank, admin, set a | a in initial, |initial|, threshold, 0, map[], map[],
                     map t | t in (set k <- bank.Keys :: k.0) :: Balance(bank, t, SELF), map[], []))
  }

  /** Anyone may propose. */
  function Propose(w: Wallet, proposer: Address, to: Address, token: Address, amount: int, executeAfter: nat): Option<Wallet> {
    if amount <= 0 then None
    else
      var id := w.count + 1;
      Some(w.(count := id, txs := w.txs[id := Transaction(id, proposer, to, token, amount, executeAfter, Pending, 0)]))
  }

  function Approve(w: Wallet, signer: Address, id: nat): Option<Wallet> {
    if signer !in w.signers || id !in w.txs || w.txs[id].status != Pending || signer in ApproversOf(w, id) then None
    else Some(w.(txs := w.txs[id := w.txs[id].(approvals := w.txs[id].approvals + 1)], approvals := w.approvals[id := ApproversOf(w, id) + {signer}],
                 votes := w.votes[(id, signer) := w.signers]))
  }

  function Execute(w: Wallet, id: nat): Option<Wallet> {
    if id !in w.txs || w.txs[id].status != Pending then None
    else
      var tx := w.txs[id];
      if tx.approvals < w.threshold || w.now < tx.executeAfter then None
      else
        var bank :- Transfer(w.bank, tx.token, SELF, tx.to, tx.amount);
        Some(w.(bank := bank, txs := w.txs[id := tx.(status := Executed)],
                received := w.received[tx.token := ReceivedOf(w, tx.token) + if tx.to == SELF then tx.amount else 0],
                payments := w.payments + [Payment(id, w.now, w.threshold, ApproversOf(w, id))]))
  }

  function Cancel(w: Wallet, caller: Address, id: nat): Option<Wallet> {
    if id !in w.txs || (caller != w.admin && caller != w.txs[id].proposer) || w.txs[id].status != Pending then None
    else Some(w.(txs := w.txs[id := w.txs[id].(status := Cancelled)]))
  }

  function AddSigner(w: Wallet, caller: Address, signer: Address): Option<Wallet> {
    if caller != w.admin || signer in w.signers then None
    else Some(w.(signers := w.signers + {signer}, signerCount := w.signerCount + 1))
  }

  function RemoveSigner(w: Wallet, caller: Address, signer: Address): Option<Wallet> {
    if caller != w.admin || signer !in w.signers || w.signerCount == 0 || w.signerCount - 1 < w.threshold then None
    else Some(w.(signers := w.signers - {signer}, signerCount := w.signerCount - 1))
  }

  function UpdateThreshold(w: Wallet, caller: Address, threshold: nat): Option<Wallet> {
    if caller != w.admin || threshold == 0 || threshold > w.signerCount then None
    else Some(w.(threshold := threshold))
  }

  function Outside(w: Wallet, token: Address, from: Address, to: Address, amount: int): Option<Wallet> {
    if from == SELF then None
    else
      var bank :- Transfer(w.bank, token, from, to, amount);
      Some(w.(bank := bank, received := w.received[token := ReceivedOf(w, token) + if to == SELF then amount else 0]))
  }

  datatype Call =
    | CallPropose(proposer: Address, to: Address, token: Address, amount: int, executeAfter: nat)
    | CallApprove(signer: Address, id: nat)
    | CallExecute(id: nat)
    | CallCancel(caller: Address, id: nat)
    | CallAddSigner(caller: Address, signer: Address)
    | CallRemoveSigner(caller: Address, signer: Address)
    | CallUpdateThreshold(caller: Address, threshold: nat)
    | CallOutside(token: Address, from: Address, to: Address, amount: int)
    | CallTimePasses(secs: nat)

  function Attempt(w: Wallet, c: Call): Option<Wallet> {
    match c
    case CallPropose(proposer, to, token, amount, after) => Propose(w, proposer, to, token, amount, after)
    case CallApprove(signer, id) => Approve(w, signer, id)
    case CallExecute(id) => Execute(w, id)
    case CallCancel(caller, id) => Cancel(w, caller, id)
    case CallAddSigner(caller, signer) => AddSigner(w, caller, signer)
    case CallRemoveSigner(caller, signer) => RemoveSigner(w, caller, signer)
    case CallUpdateThreshold(caller, threshold) => UpdateThreshold(w, caller, threshold)
    case CallOutside(token, from, to, amount) => Outside(w, token, from, to, amount)
    case CallTimePasses(secs) => Some(w.(now := w.now + secs))
  }

  function Run(w: Wallet, calls: seq<Call>): Wallet {
    if calls == [] then w
    else
      var before := Run(w, calls[..|calls| - 1]);
      Attempt(before, calls[|calls| - 1]).GetOr(before)
  }
}

/** Safety of the wallet over whole runs. */
module WalletSafety {
  import opened Sums
  import opened Ledger
  import opened Lists
  import opened WalletModel

  // ---------------------------------------------------------------- signers

  /** `extra` is the number of repeated addresses in the list the wallet was initialised with. */
  predicate SignersOk(w: Wallet, extra: nat) {
    1 <= w.threshold <= w.signerCount && w.signerCount == |w.signers| + extra
  }

  // ---------------------------------------------------------------- approvals and payments

  /** The approval counter counts distinct approvers, each a signer when approving. */
  ghost predicate ApprovalsOk(w: Wallet) {
    && (forall id :: id in w.txs <==> 1 <= id <= w.count)
    && (forall id :: id in w.txs ==> w.txs[id].id == id && w.txs[id].amount > 0 && w.txs[id].approvals == |ApproversOf(w, id)|)
    && (forall id :: id in w.approvals ==> id in w.txs)
    && (forall id: nat, a :: a in ApproversOf(w, id) ==> (id, a) in w.votes && a in w.votes[(id, a)])
  }

  predicate IsPaid(payments: seq<Payment>, id: nat) {
    payments != [] && (payments[|payments| - 1].id == id || IsPaid(payments[..|payments| - 1], id))
  }

  /** Each payment is of an executed transaction, after its time-lock, with enough distinct approvals, and none is made twice. */
  ghost predicate PaymentsOk(w: Wallet) {
    && (forall k :: 0 <= k < |w.payments| ==>
          var p := w.payments[k];
          && p.id in w.txs && w.txs[p.id].status == Executed
          && w.txs[p.id].executeAfter <= p.at && 1 <= p.threshold <= |p.approvers|
          && p.approvers == ApproversOf(w, p.id))
    && (forall j, k :: 0 <= j < k < |w.payments| ==> w.payments[j].id != w.payments[k].id)
    && (forall id :: id in w.txs && w.txs[id].status == Executed ==> IsPaid(w.payments, id))
  }

  function Spent(w: Wallet, token: Address, id: nat): int {
    if id in w.txs && w.txs[id].token == token && w.txs[id].status == Executed then w.txs[id].amount else 0
  }

  function SpentBy(w: Wallet, token: Address): nat -> int {
    (id: nat) => Spent(w, token, id)
  }

  /** What came in, less the executed amounts, is what is there. */
  predicate Balanced(w: Wallet, token: Address) {
    Balance(w.bank, token, SELF) == ReceivedOf(w, token) - SumTo(SpentBy(w, token), w.count)
  }

  ghost predicate Inv(w: Wallet, extra: nat) {
    SignersOk(w, extra) && ApprovalsOk(w) && PaymentsOk(w) && forall token :: Balanced(w, token)
  }

  // ---------------------------------------------------------------- steps

  /** Nothing about transactions or money changed. */
  lemma QuietKeeps(w: Wallet, w': Wallet, extra: nat)
    requires Inv(w, extra) && SignersOk(w', extra)
    requires w' == w.(now := w'.now, signers := w'.signers, signerCount := w'.signerCount, threshold := w'.threshold)
    ensures Inv(w', extra)
  {
    forall token
      ensures Balanced(w', token)
    {
      assert Balanced(w, token);
      SumToAgree(SpentBy(w, token), SpentBy(w', token), w.count);
    }
  }

  lemma ProposeBalanced(w: Wallet, proposer: Address, to: Address, token: Address, amount: int, after: nat, t: Address)
    requires Balanced(w, t) && Propose(w, proposer, to, token, amount, after).Some?
    ensures Balanced(Propose(w, proposer, to, token, amount, after).value, t)
  {
    SumToAgree(SpentBy(w, t), SpentBy(Propose(w, proposer, to, token, amount, after).value, t), w.count);
  }

  lemma ProposeRecords(w: Wallet, proposer: Address, to: Address, token: Address, amount: int, after: nat)
    requires ApprovalsOk(w) && PaymentsOk(w) && Propose(w, proposer, to, token, amount, after).Some?
    ensures var w' := Propose(w, proposer, to, token, amount, after).value; ApprovalsOk(w') && PaymentsOk(w')
  {
    assert w.count + 1 !in w.approvals;
  }

  lemma ProposeKeeps(w: Wallet, proposer: Address, to: Address, token: Address, amount: int, after: nat, extra: nat)
    requires Inv(w, extra) && Propose(w, proposer, to, token, amount, after).Some?
    ensures Inv(Propose(w, proposer, to, token, amount, after).value, extra)
  {
    ProposeRecords(w, proposer, to, token, amount, after);
    forall t
      ensures Balanced(Propose(w, proposer, to, token, amount, after).value, t)
    {
      assert Balanced(w, t);
      ProposeBalanced(w, proposer, to, token, amount, after, t);
    }
  }

  /** Rewriting one transaction without executing it spends nothing. */
  lemma UnspentStays(w: Wallet, w': Wallet, id: nat, token: Address)
    requires Balanced(w, token) && w'.bank == w.bank && w'.received == w.received && w'.count == w.count && id in w.txs
    requires w.txs[id].status != Executed && id in w'.txs && w'.txs == w.txs[id := w'.txs[id]] && w'.txs[id].status != Executed
    ensures Balanced(w', token)
  {
    SumToAgree(SpentBy(w, token), SpentBy(w', token), w.count);
  }

  lemma ApproveApprovals(w: Wallet, signer: Address, id: nat)
    requires ApprovalsOk(w) && Approve(w, signer, id).Some?
    ensures ApprovalsOk(Approve(w, signer, id).value)
  {
    var w' := Approve(w, signer, id).value;
    assert w.txs[id].approvals == |ApproversOf(w, id)|;
    forall k: nat, a | a in ApproversOf(w', k)
      ensures (k, a) in w'.votes && a in w'.votes[(k, a)]
    {
      if k != id || a != signer {
        assert a in ApproversOf(w, k);
      }
    }
  }

  lemma ApprovePayments(w: Wallet, signer: Address, id: nat)
    requires PaymentsOk(w) && Approve(w, signer, id).Some?
    ensures PaymentsOk(Approve(w, signer, id).value)
  {
    var w' := Approve(w, signer, id).value;
    forall k | 0 <= k < |w.payments|
      ensures w.payments[k].id != id
    {
    }
  }

  lemma ApproveRecords(w: Wallet, signer: Address, id: nat)
    requires ApprovalsOk(w) && PaymentsOk(w) && Approve(w, signer, id).Some?
    ensures ApprovalsOk(Approve(w, signer, id).value) && PaymentsOk(Approve(w, signer, id).value)
  {
    ApproveApprovals(w, signer, id);
    ApprovePayments(w, signer, id);
  }

  lemma ApproveKeeps(w: Wallet, signer: Address, id: nat, extra: nat)
    requires Inv(w, extra) && Approve(w, signer, id).Some?
    ensures Inv(Approve(w, signer, id).value, extra)
  {
    ApproveRecords(w, signer, id);
    forall t
      ensures Balanced(Approve(w, signer, id).value, t)
    {
      assert Balanced(w, t);
      UnspentStays(w, Approve(w, signer, id).value, id, t);
    }
  }

  lemma ExecuteBalanced(w: Wallet, id: nat, token: Address)
    requires ApprovalsOk(w) && Balanced(w, token) && Execute(w, id).Some?
    ensures Balanced(Execute(w, id).value, token)
  {
    var w' := Execute(w, id).value;
    TransferMoves(w.bank, w.txs[id].token, SELF, w.txs[id].to, w.txs[id].amount);
    SumToUpdate(SpentBy(w, token), SpentBy(w', token), w.count, id);
  }

  lemma ExecutePayments(w: Wallet, id: nat)
    requires ApprovalsOk(w) && PaymentsOk(w) && w.threshold >= 1 && Execute(w, id).Some?
    ensures PaymentsOk(Execute(w, id).value)
  {
    var w' := Execute(w, id).value;
    assert w'.payments[..|w.payments|] == w.payments;
    assert w.txs[id].approvals == |ApproversOf(w, id)|;
  }

  lemma ExecuteRecords(w: Wallet, id: nat)
    requires ApprovalsOk(w) && PaymentsOk(w) && w.threshold >= 1 && Execute(w, id).Some?
    ensures ApprovalsOk(Execute(w, id).value) && PaymentsOk(Execute(w, id).value)
  {
    ExecutePayments(w, id);
    assert forall k: nat :: ApproversOf(Execute(w, id).value, k) == ApproversOf(w, k);
  }

  lemma ExecuteKeeps(w: Wallet, id: nat, extra: nat)
    requires Inv(w, extra) && Execute(w, id).Some?
    ensures Inv(Execute(w, id).value, extra)
  {
    ExecuteRecords(w, id);
    forall t
      ensures Balanced(Execute(w, id).value, t)
    {
      assert Balanced(w, t);
      ExecuteBalanced(w, id, t);
    }
  }

  lemma CancelKeeps(w: Wallet, caller: Address, id: nat, extra: nat)
    requires Inv(w, extra) && Cancel(w, caller, id).Some?
    ensures Inv(Cancel(w, caller, id).value, extra)
  {
    var w' := Cancel(w, caller, id).value;
    forall t
      ensures Balanced(w', t)
    {
      assert Balanced(w, t);
      UnspentStays(w, w', id, t);
    }
  }

  lemma OutsideBalanced(w: Wallet, token: Address, from: Address, to: Address, amount: int, t: Address)
    requires Balanced(w, t) && Outside(w, token, from, to, amount).Some?
    ensures Balanced(Outside(w, token, from, to, amount).value, t)
  {
    TransferMoves(w.bank, token, from, to, amount);
    SumToAgree(SpentBy(w, t), SpentBy(Outside(w, token, from, to, amount).value, t), w.count);
  }

  lemma OutsideKeeps(w: Wallet, token: Address, from: Address, to: Address, amount: int, extra: nat)
    requires Inv(w, extra) && Outside(w, token, from, to, amount).Some?
    ensures Inv(Outside(w, token, from, to, amount).value, extra)
  {
    forall t
      ensures Balanced(Outside(w, token, from, to, amount).value, t)
    {
      assert Balanced(w, t);
      OutsideBalanced(w, token, from, to, amount, t);
    }
  }

  lemma AttemptKeeps(w: Wallet, c: Call, extra: nat)
    requires Inv(w, extra) && Attempt(w, c).Some?
    ensures Inv(Attempt(w, c).value, extra)
  {
    match c
    case CallPropose(proposer, to, token, amount, after) => ProposeKeeps(w, proposer, to, token, amount, after, extra);
    case CallApprove(signer, id) => ApproveKeeps(w, signer, id, extra);
    case CallExecute(id) => ExecuteKeeps(w, id, extra);
    case CallCancel(caller, id) => CancelKeeps(w, caller, id, extra);
    case CallOutside(token, from, to, amount) => OutsideKeeps(w, token, from, to, amount, extra);
    case _ => QuietKeeps(w, Attempt(w, c).value, extra);
  }

  // ---------------------------------------------------------------- main results

  lemma InitializeOk(now: nat, bank: Bank, admin: Address, initial: seq<Address>, threshold: nat)
    requires Initialize(now, bank, admin, initial, threshold).Some?
    ensures |set a | a in initial| <= |initial|
    ensures Inv(Initialize(now, bank, admin, initial, threshold).value, |initial| - |set a | a in initial|)
  {
    var w := Initialize(now, bank, admin, initial, threshold).value;
    DistinctIff(initial);
    forall t
      ensures Balanced(w, t)
    {
      if (t, SELF) in bank.Keys {
        assert (t, SELF).0 in (set k <- bank.Keys :: k.0);
      }
    }
  }

  lemma {:induction false} RunKeeps(w: Wallet, calls: seq<Call>, extra: nat)
    requires Inv(w, extra)
    ensures Inv(Run(w, calls), extra)
  {
    if calls != [] {
      RunKeeps(w, calls[..|calls| - 1], extra);
      var before := Run(w, calls[..|calls| - 1]);
      if Attempt(before, calls[|calls| - 1]).Some? {
        AttemptKeeps(before, calls[|calls| - 1], extra);
      }
    }
  }

  /**
   In every run the threshold is between one and the signer count, and the count exceeds the number of
   signers by exactly the repetitions in the initial list: they agree if and only if it had none.
   */
  lemma SignersOnEveryRun(now: nat, bank: Bank, admin: Address, initial: seq<Address>, threshold: nat, calls: seq<Call>)
    requires Initialize(now, bank, admin, initial, threshold).Some?
    ensures var w := Run(Initialize(now, bank, admin, initial, threshold).value, calls);
      && 1 <= w.threshold <= w.signerCount
      && w.signerCount - |w.signers| == |initial| - |set a | a in initial|
      && (w.signerCount == |w.signers| <==> Distinct(initial))
  {
    InitializeOk(now, bank, admin, initial, threshold);
    RunKeeps(Initialize(now, bank, admin, initial, threshold).value, calls, |initial| - |set a | a in initial|);
    DistinctIff(initial);
  }

  /**
   In every run: a transaction is paid at most once, and only after its time-lock and with at least the
   threshold of that moment in distinct approvals, each given by a signer of its moment; what the wallet
   holds is what it received less the amounts of its executed transactions.
   */
  lemma PaymentsOnEveryRun(now: nat, bank: Bank, admin: Address, initial: seq<Address>, threshold: nat, calls: seq<Call>, token: Address)
    requires Initialize(now, bank, admin, initial, threshold).Some?
    ensures var w := Run(Initialize(now, bank, admin, initial, threshold).value, calls);
      && PaymentsOk(w)
      && (forall k, a :: 0 <= k < |w.payments| && a in w.payments[k].approvers ==>
            (w.payments[k].id, a) in w.votes && a in w.votes[(w.payments[k].id, a)])
      && Balance(w.bank, token, SELF) == ReceivedOf(w, token) - SumTo(SpentBy(w, token), w.count)
  {
    InitializeOk(now, bank, admin, initial, threshold);
    RunKeeps(Initialize(now, bank, admin, initial, threshold).value, calls, |initial| - |set a | a in initial|);
    var w := Run(Initialize(now, bank, admin, initial, threshold).value, calls);
    assert Balanced(w, token);
  }

  /** Nothing but an execution takes tokens out of the wallet, and that sends exactly the proposed amount to the proposed recipient. */
  lemma OnlyExecutionsPay(w: Wallet, c: Call, t: Address)
    requires Attempt(w, c).Some? && Balance(Attempt(w, c).value.bank, t, SELF) < Balance(w.bank, t, SELF)
    ensures c.CallExecute? && c.id in w.txs && t == w.txs[c.id].token && w.threshold <= w.txs[c.id].approvals && w.txs[c.id].executeAfter <= w.now
    ensures forall who :: who != SELF ==>
      Balance(Attempt(w, c).value.bank, t, who) == Balance(w.bank, t, who) + if who == w.txs[c.id].to then w.txs[c.id].amount else 0
  {
    match c
    case CallExecute(id) => TransferMoves(w.bank, w.txs[id].token, SELF, w.txs[id].to, w.txs[id].amount);
    case CallOutside(token, from, to, amount) => TransferMoves(w.bank, token, from, to, amount);
    case _ =>
  }

  /** Approvals outlive signers: they bound the distinct addresses, not the present signers. */
  lemma ApproversMayHaveLeft(a: Address, b: Address, now: nat)
    requires a != b && a != SELF
    ensures var w0 := Initialize(now, map[(a, SELF) := 5], a, [a, b], 1).value;
      var w := Run(w0, [CallPropose(a, a, a, 5, 0), CallApprove(b, 1), CallRemoveSigner(a, b), CallExecute(1)]);
      |w.payments| == 1 && w.payments[0].approvers == {b} && b !in w.signers
  {
    var w0 := Initialize(now, map[(a, SELF) := 5], a, [a, b], 1).value;
    var calls := [CallPropose(a, a, a, 5, 0), CallApprove(b, 1), CallRemoveSigner(a, b), CallExecute(1)];
    RunStep(w0, calls, 0);
    RunStep(w0, calls, 1);
    RunStep(w0, calls, 2);
    RunStep(w0, calls, 3);
    assert calls[..4] == calls;
  }

  lemma RunStep(w: Wallet, calls: seq<Call>, k: nat)
    requires k < |calls|
    ensures Run(w, calls[..k + 1]) == Attempt(Run(w, calls[..k]), calls[k]).GetOr(Run(w, calls[..k]))
  {
    assert calls[..k + 1][..k] == calls[..k];
  }

  // ---------------------------------------------------------------- when payments rest on present signers

  /** The calls that change signers, approvals or threshold, and the pending transactions they leave. */
  ghost predicate Reshapes(w: Wallet, w': Wallet, c: Call) {
    && w'.signers == (if c.CallAddSigner? then w.signers + {c.signer} else if c.CallRemoveSigner? then w.signers - {c.signer} else w.signers)
    && w'.approvals == (if c.CallApprove? then w.approvals[c.id := ApproversOf(w, c.id) + {c.signer}] else w.approvals)
    && (c.CallApprove? ==> c.signer in w.signers)
    && (!c.CallUpdateThreshold? ==> w'.threshold == w.threshold)
    && (forall id :: id in w'.txs && w'.txs[id].status == Pending ==>
          (id in w.txs && w.txs[id].status == Pending) || (c.CallPropose? && id == w.count + 1))
  }

  lemma AttemptReshapes(w: Wallet, c: Call)
    requires Attempt(w, c).Some?
    ensures Reshapes(w, Attempt(w, c).value, c)
    ensures !c.CallExecute? ==> Attempt(w, c).value.payments == w.payments
  {
  }

  predicate Removes(w: Wallet, c: Call, a: Address) {
    c.CallRemoveSigner? && c.signer == a && Attempt(w, c).Some?
  }

  predicate Readmits(w: Wallet, c: Call, a: Address) {
    c.CallAddSigner? && c.signer == a && Attempt(w, c).Some?
  }

  /** During the run `a` was removed after approving transaction `id`, and has not been added back. */
  predicate HasLeft(w: Wallet, calls: seq<Call>, id: nat, a: Address) {
    calls != [] &&
    var before := Run(w, calls[..|calls| - 1]);
    var c := calls[|calls| - 1];
    if Removes(before, c, a) then a in ApproversOf(before, id)
    else HasLeft(w, calls[..|calls| - 1], id, a) && !Readmits(before, c, a)
  }

  /** `a` has left the signers after approving `id`, or never approved it, or is a signer. */
  predicate LeftOk(w: Wallet, id: nat, a: Address, left: bool) {
    (left ==> a in ApproversOf(w, id)) && (a in ApproversOf(w, id) ==> (a in w.signers <==> !left))
  }

  lemma LeftStep(w: Wallet, w': Wallet, c: Call, id: nat, a: Address, left: bool)
    requires Reshapes(w, w', c) && LeftOk(w, id, a, left)
    ensures LeftOk(w', id, a, if c.CallRemoveSigner? && c.signer == a then a in ApproversOf(w, id) else left && !(c.CallAddSigner? && c.signer == a))
  {
  }

  lemma {:induction false} LeftApprovers(w: Wallet, calls: seq<Call>, id: nat, a: Address)
    requires w.approvals == map[]
    ensures LeftOk(Run(w, calls), id, a, HasLeft(w, calls, id, a))
  {
    if calls != [] {
      var shorter, c := calls[..|calls| - 1], calls[|calls| - 1];
      var before := Run(w, shorter);
      LeftApprovers(w, shorter, id, a);
      if Attempt(before, c).Some? {
        AttemptReshapes(before, c);
        LeftStep(before, Attempt(before, c).value, c, id, a, HasLeft(w, shorter, id, a));
      }
    }
  }

  /**
   In every run, the approvers recorded with a payment are all signers at its execution if and only if none
   of them was removed after approving without being added back.
   */
  lemma PaymentRestsOnSignersIff(now: nat, bank: Bank, admin: Address, initial: seq<Address>, threshold: nat, calls: seq<Call>, id: nat)
    requires Initialize(now, bank, admin, initial, threshold).Some?
    requires Execute(Run(Initialize(now, bank, admin, initial, threshold).value, calls), id).Some?
    ensures var w0 := Initialize(now, bank, admin, initial, threshold).value;
      var w := Run(w0, calls); var payments := Execute(w, id).value.payments;
      payments[|payments| - 1].approvers <= w.signers <==> forall a :: a in ApproversOf(w, id) ==> !HasLeft(w0, calls, id, a)
  {
    var w0 := Initialize(now, bank, admin, initial, threshold).value;
    forall a
      ensures a in ApproversOf(Run(w0, calls), id) ==> (a in Run(w0, calls).signers <==> !HasLeft(w0, calls, id, a))
    {
      LeftApprovers(w0, calls, id, a);
    }
  }

  /** Everyone who has approved a pending transaction is a signer. */
  ghost predicate ApproversPresent(w: Wallet) {
    forall id :: id in w.txs && w.txs[id].status == Pending ==> ApproversOf(w, id) <= w.signers
  }

  /** `a` approved some pending transaction. */
  ghost predicate ApprovedPending(w: Wallet, a: Address) {
    exists id :: id in w.txs && w.txs[id].status == Pending && a in ApproversOf(w, id)
  }

  /** The calls that take an approver away from a pending transaction. */
  ghost predicate TakesApprover(w: Wallet, c: Call) {
    && c.CallRemoveSigner? && c.caller == w.admin && c.signer in w.signers && w.signerCount > w.threshold
    && ApprovedPending(w, c.signer)
  }

  lemma OthersKeepApprovers(w: Wallet, w': Wallet, c: Call)
    requires ApprovalsOk(w) && ApproversPresent(w) && Reshapes(w, w', c)
    requires c.CallRemoveSigner? ==> !ApprovedPending(w, c.signer)
    ensures ApproversPresent(w')
  {
    assert w.count + 1 !in w.approvals;
  }

  lemma RemovalTakes(w: Wallet, c: Call)
    requires c.CallRemoveSigner? && Attempt(w, c).Some? && ApprovedPending(w, c.signer)
    ensures !ApproversPresent(Attempt(w, c).value)
  {
    var id :| id in w.txs && w.txs[id].status == Pending && c.signer in ApproversOf(w, id);
    assert id in Attempt(w, c).value.txs && c.signer in ApproversOf(Attempt(w, c).value, id);
  }

  /** Where all approvers of pending transactions are signers, a call keeps that if and only if it is not such a removal. */
  lemma KeepsApproversIff(w: Wallet, c: Call, extra: nat)
    requires Inv(w, extra) && ApproversPresent(w)
    ensures ApproversPresent(Attempt(w, c).GetOr(w)) <==> !TakesApprover(w, c)
  {
    if Attempt(w, c).Some? {
      AttemptReshapes(w, c);
      if c.CallRemoveSigner? && ApprovedPending(w, c.signer) {
        RemovalTakes(w, c);
      } else {
        OthersKeepApprovers(w, Attempt(w, c).value, c);
      }
    }
  }

  ghost predicate PresentThroughout(w: Wallet, calls: seq<Call>) {
    ApproversPresent(Run(w, calls)) && (calls != [] ==> PresentThroughout(w, calls[..|calls| - 1]))
  }

  ghost predicate NeverTaken(w: Wallet, calls: seq<Call>) {
    calls != [] ==> NeverTaken(w, calls[..|calls| - 1]) && !TakesApprover(Run(w, calls[..|calls| - 1]), calls[|calls| - 1])
  }

  /** Throughout a run every pending transaction rests on present signers if and only if no call takes an approver away. */
  lemma {:induction false} PresentThroughoutIff(w: Wallet, calls: seq<Call>, extra: nat)
    requires Inv(w, extra) && ApproversPresent(w)
    ensures PresentThroughout(w, calls) <==> NeverTaken(w, calls)
  {
    if calls != [] {
      var shorter := calls[..|calls| - 1];
      PresentThroughoutIff(w, shorter, extra);
      RunKeeps(w, shorter, extra);
      if ApproversPresent(Run(w, shorter)) {
        KeepsApproversIff(Run(w, shorter), calls[|calls| - 1], extra);
      }
    }
  }

  // ---------------------------------------------------------------- when anything can be paid at all

  /** The signers cannot be extended nor the threshold changed. */
  predicate NoReconfiguration(calls: seq<Call>) {
    forall i :: 0 <= i < |calls| ==> !calls[i].CallAddSigner? && !calls[i].CallUpdateThreshold?
  }

  /** All signers and all approvers of pending transactions are among `s`, fewer than the threshold asks for. */
  ghost predicate TooFew(w: Wallet, s: set<Address>) {
    w.signers <= s && |s| < w.threshold && forall id :: id in w.txs && w.txs[id].status == Pending ==> ApproversOf(w, id) <= s
  }

  lemma {:induction false} SubsetFits(a: set<Address>, b: set<Address>)
    requires a <= b
    ensures |a| <= |b|
  {
    assert b == a + (b - a);
  }

  lemma TooFewCannotPay(w: Wallet, id: nat, s: set<Address>)
    requires TooFew(w, s) && ApprovalsOk(w)
    ensures Execute(w, id).None?
  {
    if id in w.txs && w.txs[id].status == Pending {
      SubsetFits(ApproversOf(w, id), s);
    }
  }

  lemma TooFewStay(w: Wallet, w': Wallet, c: Call, s: set<Address>)
    requires TooFew(w, s) && ApprovalsOk(w) && Reshapes(w, w', c) && !c.CallAddSigner? && !c.CallUpdateThreshold?
    ensures TooFew(w', s)
  {
    assert w.count + 1 !in w.approvals;
  }

  /** Any wallet whose threshold exceeds the number of addresses that could approve pays nothing while signers and threshold stay. */
  lemma {:induction false} TooFewSignersBlock(w: Wallet, calls: seq<Call>, s: set<Address>, extra: nat)
    requires Inv(w, extra) && TooFew(w, s) && NoReconfiguration(calls)
    ensures TooFew(Run(w, calls), s) && Run(w, calls).payments == w.payments
  {
    if calls != [] {
      TooFewSignersBlock(w, calls[..|calls| - 1], s, extra);
      RunKeeps(w, calls[..|calls| - 1], extra);
      var before, c := Run(w, calls[..|calls| - 1]), calls[|calls| - 1];
      if Attempt(before, c).Some? {
        AttemptReshapes(before, c);
        TooFewStay(before, Attempt(before, c).value, c, s);
        if c.CallExecute? {
          TooFewCannotPay(before, c.id, s);
        }
      }
    }
  }

  /** Everyone on the list approves transaction 1; repetitions are refused. */
  function Approvals(list: seq<Address>): seq<Call> {
    seq(|list|, i requires 0 <= i < |list| => CallApprove(list[i], 1))
  }

  /** The wallet with its first transaction pending and approved by `s`. */
  predicate AwaitsOne(w: Wallet, w': Wallet, to: Address, token: Address, s: set<Address>) {
    && w' == w.(count := 1, txs := w'.txs, approvals := w'.approvals, votes := w'.votes)
    && 1 in w'.txs && w'.txs[1] == Transaction(1, to, to, token, 1, 0, Pending, |s|) && ApproversOf(w', 1) == s
  }

  lemma OneApproves(w: Wallet, w': Wallet, to: Address, token: Address, s: set<Address>, a: Address)
    requires AwaitsOne(w, w', to, token, s) && a in w.signers
    ensures AwaitsOne(w, Attempt(w', CallApprove(a, 1)).GetOr(w'), to, token, s + {a})
  {
    if a in s {
      assert s + {a} == s;
    }
  }

  lemma {:induction false} AllApprove(w: Wallet, to: Address, token: Address, list: seq<Address>)
    requires w.count == 0 && w.txs == map[] && w.approvals == map[] && forall i :: 0 <= i < |list| ==> list[i] in w.signers
    ensures AwaitsOne(w, Run(w, [CallPropose(to, to, token, 1, 0)] + Approvals(list)), to, token, set a | a in list)
  {
    var calls := [CallPropose(to, to, token, 1, 0)] + Approvals(list);
    if list == [] {
      assert calls == [CallPropose(to, to, token, 1, 0)] && calls[..0] == [];
      assert (set a | a in list) == {};
    } else {
      var init, last := list[..|list| - 1], list[|list| - 1];
      AllApprove(w, to, token, init);
      assert calls[..|calls| - 1] == [CallPropose(to, to, token, 1, 0)] + Approvals(init);
      assert (set a | a in list) == (set a | a in init) + {last};
      OneApproves(w, Run(w, calls[..|calls| - 1]), to, token, (set a | a in init), last);
    }
  }

  lemma EnoughSignersPay(w: Wallet, to: Address, token: Address, list: seq<Address>)
    requires w.count == 0 && w.txs == map[] && w.approvals == map[] && forall i :: 0 <= i < |list| ==> list[i] in w.signers
    requires w.threshold <= |set a | a in list| && Balance(w.bank, token, SELF) > 0
    ensures var calls := [CallPropose(to, to, token, 1, 0)] + Approvals(list) + [CallExecute(1)];
      NoReconfiguration(calls) && |Run(w, calls).payments| == |w.payments| + 1
  {
    var calls := [CallPropose(to, to, token, 1, 0)] + Approvals(list) + [CallExecute(1)];
    AllApprove(w, to, token, list);
    assert calls[..|calls| - 1] == [CallPropose(to, to, token, 1, 0)] + Approvals(list);
  }

  /**
   A funded wallet can pay anything at all, without being reconfigured, if and only if its threshold does not
   exceed the number of distinct addresses it was initialised with; repetitions in the list do not help.
   */
  lemma PaymentPossibleIff(now: nat, bank: Bank, admin: Address, initial: seq<Address>, threshold: nat, token: Address)
    requires Initialize(now, bank, admin, initial, threshold).Some? && Balance(bank, token, SELF) > 0
    ensures (exists calls :: NoReconfiguration(calls) && Run(Initialize(now, bank, admin, initial, threshold).value, calls).payments != [])
      <==> threshold <= |set a | a in initial|
  {
    var w := Initialize(now, bank, admin, initial, threshold).value;
    if threshold <= |set a | a in initial| {
      EnoughSignersPay(w, admin, token, initial);
      var calls := [CallPropose(admin, admin, token, 1, 0)] + Approvals(initial) + [CallExecute(1)];
      assert NoReconfiguration(calls) && Run(w, calls).payments != [];
    } else {
      InitializeOk(now, bank, admin, initial, threshold);
      forall calls | NoReconfiguration(calls)
        ensures Run(w, calls).payments == []
      {
        TooFewSignersBlock(w, calls, w.signers, |initial| - |set a | a in initial|);
      }
    }
  }
}

/** The wallet as an object. */
module WalletContract {
  import opened Options
  import opened Ledger
  import opened M = WalletModel

  class Contract {
    var now: nat
    var bank: Bank
    var admin: Address
    var signers: set<Address>
    var signerCount: nat
    var threshold: nat
    var count: nat
    var txs: map<nat, Transaction>
    var approvals: map<nat, set<Address>>
    ghost var received: map<Address, int>
    ghost var votes: map<(nat, Address), set<Address>>
    ghost var payments: seq<Payment>

    ghost function View(): Wallet
      reads this
    {
      Wallet(now, bank, admin, signers, signerCount, threshold, count, txs, approvals, received, votes, payments)
    }

    ghost predicate Commits(ok: bool, before: Wallet, spec: Option<Wallet>)
      reads this
    {
      ok == spec.Some? && View() == spec.GetOr(before)
    }

    /** Duplicates in the list are counted, but set one flag. */
    constructor (ledgerTime: nat, ledger: Bank, first: Address, initial: seq<Address>, needed: nat)
      requires initial != [] && 0 < needed <= |initial|
      ensures Initialize(ledgerTime, ledger, first, initial, needed) == Some(View())
    {
      now, bank, admin, signerCount, threshold := ledgerTime, ledger, first, |initial|, needed;
      count, txs, approvals, votes, payments := 0, map[], map[], map[], [];
      received := map t | t in (set k <- ledger.Keys :: k.0) :: Balance(ledger, t, SELF);
      signers := {};
      new;
      for i := 0 to |initial|
        invariant signers == set a | a in initial[..i]
        invariant View() == Wallet(ledgerTime, ledger, first, signers, |initial|, needed, 0, map[], map[],
                                   map t | t in (set k <- ledger.Keys :: k.0) :: Balance(ledger, t, SELF), map[], [])
      {
        signers := signers + {initial[i]};
      }
      assert initial[..|initial|] == initial;
    }

    method ProposeTransaction(proposer: Address, to: Address, token: Address, amount: int, executeAfter: nat) returns (ok: bool, id: nat)
      modifies this
      ensures Commits(ok, old(View()), Propose(old(View()), proposer, to, token, amount, executeAfter))
      ensures ok ==> id == count
    {
      if amount <= 0 { return false, 0; }
      count := count + 1;
      id := count;
      txs := txs[id := Transaction(id, proposer, to, token, amount, executeAfter, Pending, 0)];
      ok := true;
    }

    method ApproveTransaction(signer: Address, id: nat) returns (ok: bool)
      modifies this
      ensures Commits(ok, old(View()), Approve(old(View()), signer, id))
    {
      if signer !in signers || id !in txs { return false; }
      var tx := txs[id];
      if tx.status != Pending { return false; }
      var given := if id in approvals then approvals[id] else {};
      if signer in given { return false; }
      approvals := approvals[id := given + {signer}];
      txs := txs[id := tx.(approvals := tx.approvals + 1)];
      votes := votes[(id, signer) := signers];
      return true;
    }

    method ExecuteTransaction(id: nat) returns (ok: bool)
      modifies this
      ensures Commits(ok, old(View()), Execute(old(View()), id))
    {
      if id !in txs || txs[id].status != Pending { return false; }
      var tx := txs[id];
      if tx.approvals < threshold || now < tx.executeAfter { return false; }
      var moved := Transfer(bank, tx.token, SELF, tx.to, tx.amount);
      if moved.None? { return false; }
      payments := payments + [Payment(id, now, threshold, ApproversOf(View(), id))];
      received := received[tx.token := ReceivedOf(View(), tx.token) + if tx.to == SELF then tx.amount else 0];
      bank := moved.value;
      txs := txs[id := tx.(status := Executed)];
      return true;
    }

    method CancelTransaction(caller: Address, id: nat) returns (ok: bool)
      modifies this
      ensures Commits(ok, old(View()), Cancel(old(View()), caller, id))
    {
      if id !in txs { return false; }
      var tx := txs[id];
      if caller != admin && caller != tx.proposer { return false; }
      if tx.status != Pending { return false; }
      txs := txs[id := tx.(status := Cancelled)];
      return true;
    }

    method AddSigner(caller: Address, signer: Address) returns (ok: bool)
      modifies this
      ensures Commits(ok, old(View()), M.AddSigner(old(View()), caller, signer))
    {
      if caller != admin || signer in signers { return false; }
      signers := signers + {signer};
      signerCount := signerCount + 1;
      return true;
    }

    /** The flag is cleared before the count is checked; a refusal restores it. */
    method RemoveSigner(caller: Address, signer: Address) returns (ok: bool)
      modifies this
      ensures Commits(ok, old(View()), M.RemoveSigner(old(View()), caller, signer))
    {
      if caller != admin || signer !in signers { return false; }
      var held := signers;
      signers := signers - {signer};
      if signerCount == 0 || signerCount - 1 < threshold {
        signers := held;
        return false;
      }
      signerCount := signerCount - 1;
      return true;
    }

    method UpdateThreshold(caller: Address, needed: nat) returns (ok: bool)
      modifies this
      ensures Commits(ok, old(View()), M.UpdateThreshold(old(View()), caller, needed))
    {
      if caller != admin || needed == 0 || needed > signerCount { return false; }
      threshold := needed;
      return true;
    }
  }
}
