/** Bounties: a reward split into milestones by basis points, paid milestone by milestone or refunded. */
module BountyModel {
  import opened Options
  import opened Sums
  import opened Ledger

  const BPS := 10000
  const DISPUTE_WINDOW := 48 * 3600
  const I128_MAX := 0x7FFF_FFFF_FFFF_FFFF_FFFF_FFFF_FFFF_FFFF

  /** A description hash of 0 stands for the all-zero hash. */
  datatype Milestone = Milestone(description: nat, bps: nat, completed: bool, completedBy: Option<Address>)

  datatype Status = Open | Claimed | PartiallyVerified | Verified | Disputed | Refunded

  datatype ClaimStatus = ClaimPending | ClaimVerified | ClaimDisputed

  datatype Claim = Claim(claimedAt: nat, status: ClaimStatus)

  datatype Bounty = Bounty(id: nat, poster: Address, reward: int, token: Address, deadline: nat, status: Status,
                           winner: Option<Address>, milestones: seq<Milestone>)

  /** History: the milestones as posted, what each one has been paid, and what went back to the poster. */
  datatype History = History(posted: seq<Milestone>, payouts: seq<int>, refunded: int)

  datatype State = State(now: nat, bank: Bank, count: nat, bounties: map<nat, Bounty>, claims: map<(nat, Address), Claim>,
                         history: map<nat, History>, gifts: map<Address, int>)

  // ---------------------------------------------------------------- shares

  function Share(reward: int, bps: nat): int {
    reward * bps / BPS
  }

  /** The product is computed in 128 bits and aborts beyond them. */
  predicate Computable(reward: int, m: Milestone) {
    reward * m.bps <= I128_MAX
  }

  function BpsOf(ms: seq<Milestone>): seq<int> {
    seq(|ms|, i requires 0 <= i < |ms| => ms[i].bps)
  }

  function OpenShares(reward: int, ms: seq<Milestone>): seq<int> {
    seq(|ms|, i requires 0 <= i < |ms| => if ms[i].completed then 0 else Share(reward, ms[i].bps))
  }

  /** What the milestones still open are worth. */
  function Remaining(reward: int, ms: seq<Milestone>): int {
    Sum(OpenShares(reward, ms))
  }

  predicate AllCompleted(ms: seq<Milestone>) {
    forall i :: 0 <= i < |ms| ==> ms[i].completed
  }

  predicate AllComputable(reward: int, ms: seq<Milestone>) {
    forall i :: 0 <= i < |ms| ==> ms[i].completed || Computable(reward, ms[i])
  }

  function Complete(ms: seq<Milestone>, i: nat, learner: Address): seq<Milestone>
    requires i < |ms|
  {
    ms[i := ms[i].(completed := true, completedBy := Some(learner))]
  }

  function CompleteAll(ms: seq<Milestone>, learner: Address): seq<Milestone> {
    seq(|ms|, i requires 0 <= i < |ms| => if ms[i].completed then ms[i] else ms[i].(completed := true, completedBy := Some(learner)))
  }

  function Plus(a: seq<int>, b: seq<int>): seq<int> {
    seq(|a|, i requires 0 <= i < |a| => a[i] + if i < |b| then b[i] else 0)
  }

  function PlusAt(a: seq<int>, i: nat, amount: int): seq<int> {
    if i < |a| then a[i := a[i] + amount] else a
  }

  // ---------------------------------------------------------------- entry points

  function HistoryOf(s: State, id: nat): History {
    if id in s.history then s.history[id] else History([], [], 0)
  }

  predicate Postable(s: State, poster: Address, reward: int, deadline: nat, ms: seq<Milestone>) {
    && reward > 0 && deadline > s.now && ms != [] && Sum(BpsOf(ms)) == BPS
    && (forall i :: 0 <= i < |ms| ==> ms[i].description != 0)
    && poster != SELF
  }

  function PostBounty(s: State, poster: Address, reward: int, token: Address, deadline: nat, ms: seq<Milestone>): Option<State> {
    if !Postable(s, poster, reward, deadline, ms) then None
    else
      var bank :- Transfer(s.bank, token, poster, SELF, reward);
      var id := s.count + 1;
      Some(s.(bank := bank, count := id, bounties := s.bounties[id := Bounty(id, poster, reward, token, deadline, Open, None, ms)],
              history := s.history[id := History(ms, seq(|ms|, _ => 0), 0)]))
  }

  predicate Closed(b: Bounty) {
    b.status == Refunded || b.status == Verified
  }

  function ClaimBounty(s: State, learner: Address, id: nat, evidenceOk: bool): Option<State> {
    if !evidenceOk || learner == SELF || id !in s.bounties || Closed(s.bounties[id]) then None
    else if s.now > s.bounties[id].deadline || (id, learner) in s.claims then None
    else
      var b := s.bounties[id];
      Some(s.(claims := s.claims[(id, learner) := Claim(s.now, ClaimPending)],
              bounties := if b.status == Open then s.bounties[id := b.(status := Claimed)] else s.bounties))
  }

  /** `cleared`: the contract is not paused, the mentor is verified, the notes are not empty. */
  predicate MayVerify(s: State, id: nat, learner: Address, cleared: bool) {
    && cleared && id in s.bounties && !Closed(s.bounties[id])
    && (id, learner) in s.claims && s.claims[(id, learner)].status != ClaimDisputed
  }

  function VerifyCompletion(s: State, id: nat, learner: Address, cleared: bool): Option<State> {
    if !MayVerify(s, id, learner, cleared) then None
    else
      var b := s.bounties[id];
      var h := HistoryOf(s, id);
      var total := Remaining(b.reward, b.milestones);
      if !AllComputable(b.reward, b.milestones) || total == 0 then None
      else
        var bank :- Transfer(s.bank, b.token, SELF, learner, total);
        Some(s.(bank := bank,
                claims := s.claims[(id, learner) := s.claims[(id, learner)].(status := ClaimVerified)],
                bounties := s.bounties[id := b.(status := Verified, winner := Some(learner), milestones := CompleteAll(b.milestones, learner))],
                history := s.history[id := h.(payouts := Plus(h.payouts, OpenShares(b.reward, b.milestones)))]))
  }

  function AfterMilestone(b: Bounty, i: nat, learner: Address): Bounty
    requires i < |b.milestones|
  {
    var ms := Complete(b.milestones, i, learner);
    if AllCompleted(ms) then b.(milestones := ms, status := Verified, winner := Some(learner))
    else b.(milestones := ms, status := PartiallyVerified)
  }

  function VerifyMilestone(s: State, id: nat, learner: Address, i: nat, cleared: bool): Option<State> {
    if !MayVerify(s, id, learner, cleared) then None
    else
      var b := s.bounties[id];
      var h := HistoryOf(s, id);
      if i >= |b.milestones| || b.milestones[i].completed || !Computable(b.reward, b.milestones[i]) then None
      else
        var share := Share(b.reward, b.milestones[i].bps);
        var bank :- Transfer(s.bank, b.token, SELF, learner, share);
        Some(s.(bank := bank,
                claims := s.claims[(id, learner) := s.claims[(id, learner)].(status := ClaimVerified)],
                bounties := s.bounties[id := AfterMilestone(b, i, learner)],
                history := s.history[id := h.(payouts := PlusAt(h.payouts, i, share))]))
  }

  function DisputeCompletion(s: State, caller: Address, id: nat, learner: Address, evidenceOk: bool): Option<State> {
    if !evidenceOk || id !in s.bounties || caller != s.bounties[id].poster || Closed(s.bounties[id]) then None
    else if (id, learner) !in s.claims then None
    else
      var c := s.claims[(id, learner)];
      if c.status != ClaimPending || s.now > c.claimedAt + DISPUTE_WINDOW then None
      else Some(s.(claims := s.claims[(id, learner) := c.(status := ClaimDisputed)],
                   bounties := s.bounties[id := s.bounties[id].(status := Disputed)]))
  }

  function RefundBounty(s: State, caller: Address, id: nat): Option<State> {
    if id !in s.bounties || caller != s.bounties[id].poster || Closed(s.bounties[id]) then None
    else
      var b := s.bounties[id];
      if s.now <= b.deadline || !AllComputable(b.reward, b.milestones) then None
      else
        var total := Remaining(b.reward, b.milestones);
        var bank :- Transfer(s.bank, b.token, SELF, b.poster, total);
        Some(s.(bank := bank, bounties := s.bounties[id := b.(status := Refunded)],
                history := s.history[id := HistoryOf(s, id).(refunded := HistoryOf(s, id).refunded + total)]))
  }

  function Outside(s: State, token: Address, from: Address, to: Address, amount: int): Option<State> {
    if from == SELF then None
    else
      var bank :- Transfer(s.bank, token, from, to, amount);
      Some(s.(bank := bank, gifts := s.gifts[token := GiftsIn(s, token) + if to == SELF then amount else 0]))
  }

  function GiftsIn(s: State, token: Address): int {
    if token in s.gifts then s.gifts[token] else 0
  }

  // ---------------------------------------------------------------- runs

  datatype Call =
    | CallPost(poster: Address, reward: int, token: Address, deadline: nat, ms: seq<Milestone>)
    | CallClaim(learner: Address, id: nat, ok: bool)
    | CallComplete(id: nat, learner: Address, ok: bool)
    | CallMilestone(id: nat, learner: Address, index: nat, ok: bool)
    | CallDispute(caller: Address, id: nat, learner: Address, ok: bool)
    | CallRefund(caller: Address, id: nat)
    | CallOutside(token: Address, from: Address, to: Address, amount: int)
    | CallTimePasses(secs: nat)

  function Attempt(s: State, c: Call): Option<State> {
    match c
    case CallPost(poster, reward, token, deadline, ms) => PostBounty(s, poster, reward, token, deadline, ms)
    case CallClaim(learner, id, ok) => ClaimBounty(s, learner, id, ok)
    case CallComplete(id, learner, ok) => VerifyCompletion(s, id, learner, ok)
    case CallMilestone(id, learner, index, ok) => VerifyMilestone(s, id, learner, index, ok)
    case CallDispute(caller, id, learner, ok) => DisputeCompletion(s, caller, id, learner, ok)
    case CallRefund(caller, id) => RefundBounty(s, caller, id)
    case CallOutside(token, from, to, amount) => Outside(s, token, from, to, amount)
    case CallTimePasses(secs) => Some(s.(now := s.now + secs))
  }

  function Run(s: State, calls: seq<Call>): State {
    if calls == [] then s
    else
      var before := Run(s, calls[..|calls| - 1]);
      Attempt(before, calls[|calls| - 1]).GetOr(before)
  }

  /** An initialised contract on a ledger that may already hold anything. */
  function Initial(now: nat, bank: Bank): State {
    State(now, bank, 0, map[], map[], map[], map t | t in (set k <- bank.Keys :: k.0) :: Balance(bank, t, SELF))
  }
}

/** What happens to every unit of every reward. */
module BountyFunds {
  import opened Options
  import opened Sums
  import opened Ledger
  import opened BountyModel

  // ---------------------------------------------------------------- the dust bound

  lemma ShareBounds(reward: nat, bps: nat)
    ensures BPS * Share(reward, bps) <= reward * bps < BPS * Share(reward, bps) + BPS
    ensures Share(reward, bps) >= 0
  {
  }

  function Shares(reward: int, ms: seq<Milestone>): seq<int> {
    seq(|ms|, i requires 0 <= i < |ms| => Share(reward, ms[i].bps))
  }

  lemma {:induction false} SharesBounds(reward: nat, ms: seq<Milestone>)
    ensures BPS * Sum(Shares(reward, ms)) <= reward * Sum(BpsOf(ms)) <= BPS * Sum(Shares(reward, ms)) + (BPS - 1) * |ms|
  {
    if ms != [] {
      var init, last := ms[..|ms| - 1], ms[|ms| - 1];
      SharesBounds(reward, init);
      ShareBounds(reward, last.bps);
      assert Shares(reward, ms)[..|ms| - 1] == Shares(reward, init);
      assert BpsOf(ms)[..|ms| - 1] == BpsOf(init);
      Distribute(reward, Sum(BpsOf(init)), last.bps);
    }
  }

  lemma Distribute(a: int, b: int, c: int)
    ensures a * (b + c) == a * b + a * c
  {
  }

  /** The shares of a full set of milestones add up to the reward less dust of under one unit each. */
  lemma DustBound(reward: nat, ms: seq<Milestone>)
    requires Sum(BpsOf(ms)) == BPS && ms != []
    ensures reward - |ms| < Sum(Shares(reward, ms)) <= reward
  {
    SharesBounds(reward, ms);
  }

  // ---------------------------------------------------------------- accounting of one bounty

  function PaidShares(reward: int, posted: seq<Milestone>, ms: seq<Milestone>): seq<int>
    requires |posted| == |ms|
  {
    seq(|ms|, i requires 0 <= i < |ms| => if !posted[i].completed && ms[i].completed then Share(reward, ms[i].bps) else 0)
  }

  /** Milestones keep their shares and are never reopened. */
  predicate Progress(posted: seq<Milestone>, ms: seq<Milestone>) {
    && |ms| == |posted|
    && forall i :: 0 <= i < |ms| ==> ms[i].bps == posted[i].bps && (posted[i].completed ==> ms[i].completed)
  }

  function Outstanding(b: Bounty): int {
    if b.status == Refunded then 0 else Remaining(b.reward, b.milestones)
  }

  predicate BountyOk(b: Bounty, h: History) {
    && b.reward > 0 && b.milestones != [] && Sum(BpsOf(h.posted)) == BPS && b.poster != SELF
    && Progress(h.posted, b.milestones)
    && h.payouts == PaidShares(b.reward, h.posted, b.milestones)
    && h.refunded == (if b.status == Refunded then Remaining(b.reward, b.milestones) else 0)
    && (b.status == Verified <==> AllCompleted(b.milestones) && !AllCompleted(h.posted))
  }

  /** Every unit the milestones open at posting were worth is paid, refunded or outstanding. */
  lemma Conservation(b: Bounty, h: History)
    requires BountyOk(b, h)
    ensures Sum(h.payouts) + h.refunded + Outstanding(b) == Remaining(b.reward, h.posted)
    ensures Sum(h.payouts) >= 0 && h.refunded >= 0 && Outstanding(b) >= 0
  {
    SumSplit(OpenShares(b.reward, h.posted), PaidShares(b.reward, h.posted, b.milestones), OpenShares(b.reward, b.milestones));
    SharesNonNegative(b.reward, h.posted, b.milestones);
    SumBounds(PaidShares(b.reward, h.posted, b.milestones));
    SumBounds(OpenShares(b.reward, b.milestones));
  }

  lemma SharesNonNegative(reward: nat, posted: seq<Milestone>, ms: seq<Milestone>)
    requires |posted| == |ms|
    ensures forall i :: 0 <= i < |ms| ==> PaidShares(reward, posted, ms)[i] >= 0 && OpenShares(reward, ms)[i] >= 0
  {
    forall i | 0 <= i < |ms|
      ensures Share(reward, ms[i].bps) >= 0
    {
      ShareBounds(reward, ms[i].bps);
    }
  }

  /** What was open at posting is worth at most the reward, and at least the reward less dust if all of it was open. */
  lemma PostedWorth(b: Bounty, h: History)
    requires BountyOk(b, h)
    ensures 0 <= Remaining(b.reward, h.posted) <= b.reward
    ensures (forall i :: 0 <= i < |h.posted| ==> !h.posted[i].completed) ==> Remaining(b.reward, h.posted) > b.reward - |h.posted|
    ensures AllCompleted(h.posted) ==> Remaining(b.reward, h.posted) == 0
  {
    DustBound(b.reward, h.posted);
    forall i | 0 <= i < |h.posted|
      ensures 0 <= OpenShares(b.reward, h.posted)[i] <= Shares(b.reward, h.posted)[i]
    {
      ShareBounds(b.reward, h.posted[i].bps);
    }
    SumMonotone(OpenShares(b.reward, h.posted), Shares(b.reward, h.posted));
    SumBounds(OpenShares(b.reward, h.posted));
    if forall i :: 0 <= i < |h.posted| ==> !h.posted[i].completed {
      assert OpenShares(b.reward, h.posted) == Shares(b.reward, h.posted);
    }
    if AllCompleted(h.posted) {
      SumZero(OpenShares(b.reward, h.posted));
    }
  }

  // ---------------------------------------------------------------- the contract's balance

  /** What the contract still holds of a bounty's reward, dust included. */
  function Held(s: State, token: Address, id: nat): int {
    if id in s.bounties && id in s.history && s.bounties[id].token == token
    then s.bounties[id].reward - Sum(s.history[id].payouts) - s.history[id].refunded else 0
  }

  function HeldBy(s: State, token: Address): nat -> int {
    (id: nat) => Held(s, token, id)
  }

  function Owed(s: State, token: Address, id: nat): int {
    if id in s.bounties && s.bounties[id].token == token then Outstanding(s.bounties[id]) else 0
  }

  function OwedBy(s: State, token: Address): nat -> int {
    (id: nat) => Owed(s, token, id)
  }

  ghost predicate BooksOk(s: State) {
    && (forall id :: id in s.bounties <==> 1 <= id <= s.count)
    && (forall id :: id in s.history <==> 1 <= id <= s.count)
    && (forall id :: id in s.bounties && id in s.history ==> s.bounties[id].id == id && BountyOk(s.bounties[id], s.history[id]))
    && (forall k :: k in s.claims ==> k.1 != SELF)
  }

  predicate Solvent(s: State, token: Address) {
    GiftsIn(s, token) >= 0 && Balance(s.bank, token, SELF) == SumTo(HeldBy(s, token), s.count) + GiftsIn(s, token)
  }

  ghost predicate Inv(s: State) {
    BooksOk(s) && forall token :: Solvent(s, token)
  }

  // ---------------------------------------------------------------- each step keeps the invariant

  /** Rewriting one bounty and paying `gross` to somebody else keeps the contract solvent. */
  lemma PayoutSolvent(s: State, s': State, id: nat, to: Address, gross: int, token: Address)
    requires Solvent(s, token) && 1 <= id <= s.count && s'.count == s.count && s'.gifts == s.gifts && to != SELF
    requires id in s.bounties && id in s'.bounties && s'.bounties == s.bounties[id := s'.bounties[id]]
    requires id in s.history && id in s'.history && s'.history == s.history[id := s'.history[id]]
    requires Transfer(s.bank, s.bounties[id].token, SELF, to, gross) == Some(s'.bank)
    requires s'.bounties[id].token == s.bounties[id].token && s'.bounties[id].reward == s.bounties[id].reward
    requires Sum(s'.history[id].payouts) + s'.history[id].refunded == Sum(s.history[id].payouts) + s.history[id].refunded + gross
    ensures Solvent(s', token)
  {
    TransferMoves(s.bank, s.bounties[id].token, SELF, to, gross);
    SumToUpdate(HeldBy(s, token), HeldBy(s', token), s.count, id);
  }

  /** Rewriting a record without touching money, reward or token keeps the contract solvent. */
  lemma QuietSolvent(s: State, s': State, token: Address)
    requires Solvent(s, token) && s'.count == s.count && s'.gifts == s.gifts && s'.bank == s.bank && s'.history == s.history
    requires forall id: nat :: Held(s', token, id) == Held(s, token, id)
    ensures Solvent(s', token)
  {
    SumToAgree(HeldBy(s, token), HeldBy(s', token), s.count);
  }

  lemma NothingPaidYet(reward: int, ms: seq<Milestone>)
    ensures PaidShares(reward, ms, ms) == seq(|ms|, _ => 0) && Sum(seq(|ms|, _ => 0)) == 0
  {
    SumZero(seq(|ms|, _ => 0));
  }

  lemma DepositHeld(s: State, s': State, b: Bounty, t: Address)
    requires s'.count == s.count + 1 && s'.bounties == s.bounties[s'.count := b] && s'.count in s'.history
    requires s'.history == s.history[s'.count := s'.history[s'.count]]
    requires Sum(s'.history[s'.count].payouts) == 0 && s'.history[s'.count].refunded == 0
    ensures SumTo(HeldBy(s', t), s'.count) == SumTo(HeldBy(s, t), s.count) + if b.token == t then b.reward else 0
  {
    forall id: nat | id <= s.count
      ensures Held(s', t, id) == Held(s, t, id)
    {
    }
    SumToAgree(HeldBy(s, t), HeldBy(s', t), s.count);
  }

  /** A bounty whose reward comes in keeps the contract solvent. */
  lemma DepositSolvent(s: State, s': State, b: Bounty, t: Address)
    requires BooksOk(s) && Solvent(s, t) && b.poster != SELF && s'.gifts == s.gifts && s'.count == s.count + 1
    requires Transfer(s.bank, b.token, b.poster, SELF, b.reward) == Some(s'.bank)
    requires s'.bounties == s.bounties[s'.count := b] && s'.count in s'.history
    requires s'.history == s.history[s'.count := s'.history[s'.count]]
    requires Sum(s'.history[s'.count].payouts) == 0 && s'.history[s'.count].refunded == 0
    ensures Solvent(s', t)
  {
    DepositHeld(s, s', b, t);
    TransferMoves(s.bank, b.token, b.poster, SELF, b.reward);
  }

  lemma PostKeeps(s: State, poster: Address, reward: int, token: Address, deadline: nat, ms: seq<Milestone>)
    requires Inv(s) && PostBounty(s, poster, reward, token, deadline, ms).Some?
    ensures Inv(PostBounty(s, poster, reward, token, deadline, ms).value)
  {
    var s' := PostBounty(s, poster, reward, token, deadline, ms).value;
    NothingPaidYet(reward, ms);
    assert BountyOk(s'.bounties[s'.count], s'.history[s'.count]);
    forall t
      ensures Solvent(s', t)
    {
      DepositSolvent(s, s', s'.bounties[s'.count], t);
    }
  }

  /** One record of the books was rewritten, and rewritten well. */
  lemma OneBountyChanged(s: State, s': State, id: nat)
    requires BooksOk(s) && id in s.bounties && s'.count == s.count
    requires id in s'.bounties && s'.bounties == s.bounties[id := s'.bounties[id]]
    requires id in s'.history && s'.history == s.history[id := s'.history[id]]
    requires s'.bounties[id].id == id && BountyOk(s'.bounties[id], s'.history[id])
    requires forall k :: k in s'.claims ==> k.1 != SELF
    ensures BooksOk(s')
  {
  }

  /** A new status alone changes neither the books nor the balance. */
  lemma StatusKeeps(s: State, s': State, id: nat)
    requires Inv(s) && id in s.bounties && !Closed(s.bounties[id]) && id in s'.bounties && !Closed(s'.bounties[id])
    requires s' == s.(claims := s'.claims, bounties := s.bounties[id := s.bounties[id].(status := s'.bounties[id].status)])
    requires forall k :: k in s'.claims ==> k.1 != SELF
    ensures Inv(s')
  {
    OneBountyChanged(s, s', id);
    forall t
      ensures Solvent(s', t)
    {
      assert Solvent(s, t);
      QuietSolvent(s, s', t);
    }
  }

  lemma ClaimKeeps(s: State, learner: Address, id: nat, ok: bool)
    requires Inv(s) && ClaimBounty(s, learner, id, ok).Some?
    ensures Inv(ClaimBounty(s, learner, id, ok).value)
  {
    var s' := ClaimBounty(s, learner, id, ok).value;
    assert s'.bounties == s.bounties[id := s.bounties[id].(status := s'.bounties[id].status)];
    StatusKeeps(s, s', id);
  }

  lemma DisputeKeeps(s: State, caller: Address, id: nat, learner: Address, ok: bool)
    requires Inv(s) && DisputeCompletion(s, caller, id, learner, ok).Some?
    ensures Inv(DisputeCompletion(s, caller, id, learner, ok).value)
  {
    StatusKeeps(s, DisputeCompletion(s, caller, id, learner, ok).value, id);
  }

  lemma CompletingOne(reward: int, posted: seq<Milestone>, ms: seq<Milestone>, i: nat, learner: Address)
    requires Progress(posted, ms) && i < |ms| && !ms[i].completed
    ensures var ms' := Complete(ms, i, learner); var share := Share(reward, ms[i].bps);
      && Progress(posted, ms')
      && PaidShares(reward, posted, ms)[i] == 0
      && PaidShares(reward, posted, ms') == PaidShares(reward, posted, ms)[i := share]
      && Sum(PaidShares(reward, posted, ms')) == Sum(PaidShares(reward, posted, ms)) + share
  {
    var ms' := Complete(ms, i, learner);
    var share := Share(reward, ms[i].bps);
    assert PaidShares(reward, posted, ms') == PaidShares(reward, posted, ms)[i := share];
    SumUpdate(PaidShares(reward, posted, ms), i, share);
  }

  lemma CompletingAll(reward: int, posted: seq<Milestone>, ms: seq<Milestone>, learner: Address)
    requires Progress(posted, ms)
    ensures var ms' := CompleteAll(ms, learner);
      && Progress(posted, ms') && AllCompleted(ms')
      && PaidShares(reward, posted, ms') == Plus(PaidShares(reward, posted, ms), OpenShares(reward, ms))
      && Sum(PaidShares(reward, posted, ms')) == Sum(PaidShares(reward, posted, ms)) + Remaining(reward, ms)
  {
    var ms' := CompleteAll(ms, learner);
    forall i | 0 <= i < |ms|
      ensures PaidShares(reward, posted, ms')[i] == PaidShares(reward, posted, ms)[i] + OpenShares(reward, ms)[i]
    {
      assert ms'[i].bps == ms[i].bps;
    }
    SumSplit(PaidShares(reward, posted, ms'), PaidShares(reward, posted, ms), OpenShares(reward, ms));
  }

  lemma MilestoneBounty(b: Bounty, h: History, i: nat, learner: Address)
    requires BountyOk(b, h) && !Closed(b) && i < |b.milestones| && !b.milestones[i].completed
    ensures var share := Share(b.reward, b.milestones[i].bps); var h' := h.(payouts := PlusAt(h.payouts, i, share));
      BountyOk(AfterMilestone(b, i, learner), h') && Sum(h'.payouts) == Sum(h.payouts) + share
  {
    CompletingOne(b.reward, h.posted, b.milestones, i, learner);
  }

  lemma MilestoneBooks(s: State, id: nat, learner: Address, i: nat, ok: bool)
    requires BooksOk(s) && VerifyMilestone(s, id, learner, i, ok).Some?
    ensures BooksOk(VerifyMilestone(s, id, learner, i, ok).value)
    ensures Sum(VerifyMilestone(s, id, learner, i, ok).value.history[id].payouts)
      == Sum(s.history[id].payouts) + Share(s.bounties[id].reward, s.bounties[id].milestones[i].bps)
  {
    MilestoneBounty(s.bounties[id], s.history[id], i, learner);
    OneBountyChanged(s, VerifyMilestone(s, id, learner, i, ok).value, id);
  }

  lemma MilestoneKeeps(s: State, id: nat, learner: Address, i: nat, ok: bool)
    requires Inv(s) && VerifyMilestone(s, id, learner, i, ok).Some?
    ensures Inv(VerifyMilestone(s, id, learner, i, ok).value)
  {
    var s' := VerifyMilestone(s, id, learner, i, ok).value;
    MilestoneBooks(s, id, learner, i, ok);
    forall t
      ensures Solvent(s', t)
    {
      PayoutSolvent(s, s', id, learner, Share(s.bounties[id].reward, s.bounties[id].milestones[i].bps), t);
    }
  }

  lemma CompletionBooks(s: State, id: nat, learner: Address, ok: bool)
    requires BooksOk(s) && VerifyCompletion(s, id, learner, ok).Some?
    ensures BooksOk(VerifyCompletion(s, id, learner, ok).value)
    ensures Sum(VerifyCompletion(s, id, learner, ok).value.history[id].payouts)
      == Sum(s.history[id].payouts) + Remaining(s.bounties[id].reward, s.bounties[id].milestones)
  {
    var s' := VerifyCompletion(s, id, learner, ok).value;
    var b := s.bounties[id];
    CompletingAll(b.reward, s.history[id].posted, b.milestones, learner);
    if AllCompleted(s.history[id].posted) {
      SumZero(OpenShares(b.reward, b.milestones));
    }
    assert BountyOk(s'.bounties[id], s'.history[id]);
  }

  lemma CompletionKeeps(s: State, id: nat, learner: Address, ok: bool)
    requires Inv(s) && VerifyCompletion(s, id, learner, ok).Some?
    ensures Inv(VerifyCompletion(s, id, learner, ok).value)
  {
    var s' := VerifyCompletion(s, id, learner, ok).value;
    CompletionBooks(s, id, learner, ok);
    forall t
      ensures Solvent(s', t)
    {
      PayoutSolvent(s, s', id, learner, Remaining(s.bounties[id].reward, s.bounties[id].milestones), t);
    }
  }

  lemma RefundKeeps(s: State, caller: Address, id: nat)
    requires Inv(s) && RefundBounty(s, caller, id).Some?
    ensures Inv(RefundBounty(s, caller, id).value)
  {
    var s' := RefundBounty(s, caller, id).value;
    assert BountyOk(s'.bounties[id], s'.history[id]);
    forall t
      ensures Solvent(s', t)
    {
      PayoutSolvent(s, s', id, caller, Remaining(s.bounties[id].reward, s.bounties[id].milestones), t);
    }
  }

  lemma OutsideKeeps(s: State, token: Address, from: Address, to: Address, amount: int)
    requires Inv(s) && Outside(s, token, from, to, amount).Some?
    ensures Inv(Outside(s, token, from, to, amount).value)
  {
    var s' := Outside(s, token, from, to, amount).value;
    TransferMoves(s.bank, token, from, to, amount);
    forall t
      ensures Solvent(s', t)
    {
      assert Solvent(s, t);
      forall id: nat
        ensures Held(s', t, id) == Held(s, t, id)
      {
      }
      SumToAgree(HeldBy(s, t), HeldBy(s', t), s.count);
    }
  }

  lemma AttemptKeeps(s: State, c: Call)
    requires Inv(s) && Attempt(s, c).Some?
    ensures Inv(Attempt(s, c).value)
  {
    match c
    case CallPost(poster, reward, token, deadline, ms) => PostKeeps(s, poster, reward, token, deadline, ms);
    case CallClaim(learner, id, ok) => ClaimKeeps(s, learner, id, ok);
    case CallComplete(id, learner, ok) => CompletionKeeps(s, id, learner, ok);
    case CallMilestone(id, learner, index, ok) => MilestoneKeeps(s, id, learner, index, ok);
    case CallDispute(caller, id, learner, ok) => DisputeKeeps(s, caller, id, learner, ok);
    case CallRefund(caller, id) => RefundKeeps(s, caller, id);
    case CallOutside(token, from, to, amount) => OutsideKeeps(s, token, from, to, amount);
    case CallTimePasses(secs) =>
      var s' := Attempt(s, c).value;
      forall t
        ensures Solvent(s', t)
      {
        QuietSolvent(s, s', t);
      }
  }

  // ---------------------------------------------------------------- main results

  lemma {:induction false} RunKeeps(s: State, calls: seq<Call>)
    requires Inv(s)
    ensures Inv(Run(s, calls))
  {
    if calls != [] {
      RunKeeps(s, calls[..|calls| - 1]);
      var before := Run(s, calls[..|calls| - 1]);
      if Attempt(before, calls[|calls| - 1]).Some? {
        AttemptKeeps(before, calls[|calls| - 1]);
      }
    }
  }

  lemma InitialOk(now: nat, bank: Bank)
    ensures Inv(Initial(now, bank))
  {
    var s := Initial(now, bank);
    forall t
      ensures Solvent(s, t)
    {
      if exists who :: (t, who) in bank.Keys {
        var who :| (t, who) in bank.Keys;
        assert (t, who).0 in (set k <- bank.Keys :: k.0);
      } else {
        assert (t, SELF) !in bank.Keys;
      }
    }
  }

  /**
   In every run and for every bounty: paid plus refunded plus outstanding is what its milestones open at
   posting were worth, which is at most the reward and, when none was posted completed, more than the
   reward less one unit per milestone. A milestone is paid its exact share once it is completed and
   nothing otherwise. Verified holds exactly when all milestones are completed, unless all were posted so.
   */
  lemma ConservationOnEveryRun(now: nat, bank: Bank, calls: seq<Call>, id: nat)
    requires id in Run(Initial(now, bank), calls).bounties
    ensures var s := Run(Initial(now, bank), calls); id in s.history
    ensures var s := Run(Initial(now, bank), calls); var b := s.bounties[id]; var h := s.history[id];
      && Sum(h.payouts) + h.refunded + Outstanding(b) == Remaining(b.reward, h.posted) <= b.reward
      && ((forall i :: 0 <= i < |h.posted| ==> !h.posted[i].completed) ==> Remaining(b.reward, h.posted) > b.reward - |h.posted|)
      && |h.posted| == |b.milestones| && h.payouts == PaidShares(b.reward, h.posted, b.milestones)
      && (b.status == Verified <==> AllCompleted(b.milestones) && !AllCompleted(h.posted))
  {
    InitialOk(now, bank);
    RunKeeps(Initial(now, bank), calls);
    var s := Run(Initial(now, bank), calls);
    Conservation(s.bounties[id], s.history[id]);
    PostedWorth(s.bounties[id], s.history[id]);
  }

  /** In every run the contract holds every outstanding reward, and exactly the unspent rewards and gifts. */
  lemma BalanceOnEveryRun(now: nat, bank: Bank, calls: seq<Call>, token: Address)
    ensures var s := Run(Initial(now, bank), calls);
      && Balance(s.bank, token, SELF) == SumTo(HeldBy(s, token), s.count) + GiftsIn(s, token)
      && 0 <= SumTo(OwedBy(s, token), s.count) <= SumTo(HeldBy(s, token), s.count)
  {
    InitialOk(now, bank);
    RunKeeps(Initial(now, bank), calls);
    var s := Run(Initial(now, bank), calls);
    assert Solvent(s, token);
    OwedIsHeld(s, token, s.count);
  }

  lemma OwedWithinHeld(s: State, token: Address, id: nat)
    requires BooksOk(s)
    ensures 0 <= Owed(s, token, id) <= Held(s, token, id)
  {
    if id in s.bounties {
      Conservation(s.bounties[id], s.history[id]);
      PostedWorth(s.bounties[id], s.history[id]);
    }
  }

  lemma {:induction false} OwedIsHeld(s: State, token: Address, n: nat)
    requires BooksOk(s)
    ensures 0 <= SumTo(OwedBy(s, token), n) <= SumTo(HeldBy(s, token), n)
  {
    if n > 0 {
      OwedIsHeld(s, token, n - 1);
      OwedWithinHeld(s, token, n);
    }
  }

  lemma HeldIsThere(s: State, token: Address, id: nat)
    requires Inv(s) && id in s.bounties
    ensures Held(s, token, id) <= Balance(s.bank, token, SELF)
  {
    assert Solvent(s, token);
    forall k: nat
      ensures Held(s, token, k) >= 0
    {
      OwedWithinHeld(s, token, k);
    }
    SumToBounds(HeldBy(s, token), s.count, id);
  }

  lemma HeldCovers(s: State, token: Address, id: nat)
    requires Inv(s) && id in s.bounties && s.bounties[id].token == token
    ensures Outstanding(s.bounties[id]) <= Balance(s.bank, token, SELF)
  {
    HeldIsThere(s, token, id);
    OwedWithinHeld(s, token, id);
  }

  /** `verify_completion` goes through exactly when something is left to pay and its products fit in 128 bits. */
  lemma CompletionSucceedsIff(s: State, id: nat, learner: Address, cleared: bool)
    requires Inv(s) && MayVerify(s, id, learner, cleared)
    ensures var b := s.bounties[id];
      VerifyCompletion(s, id, learner, cleared).Some? <==> AllComputable(b.reward, b.milestones) && Remaining(b.reward, b.milestones) > 0
  {
    var b := s.bounties[id];
    HeldCovers(s, b.token, id);
    Conservation(b, s.history[id]);
  }

  /** After the deadline the poster is refused only by the 128-bit product. */
  lemma RefundSucceedsIff(s: State, caller: Address, id: nat)
    requires Inv(s) && id in s.bounties && caller == s.bounties[id].poster && !Closed(s.bounties[id])
    ensures RefundBounty(s, caller, id).Some?
      <==> s.now > s.bounties[id].deadline && AllComputable(s.bounties[id].reward, s.bounties[id].milestones)
  {
    var b := s.bounties[id];
    HeldCovers(s, b.token, id);
    Conservation(b, s.history[id]);
  }

  // ---------------------------------------------------------------- who is paid

  /** One transfer of `amount` from the contract to `to`, seen from any holder's balance of any token. */
  ghost predicate PaidTo(s: State, s': State, token: Address, to: Address, amount: int) {
    forall t, who :: Balance(s'.bank, t, who) == Balance(s.bank, t, who)
      + (if t == token && who == to then amount else 0) - (if t == token && who == SELF then amount else 0)
  }

  /**
   Every payment goes to a learner whose undisputed claim was verified by a cleared mentor, or back to the
   poster after the deadline; the amount is what the milestones it closes were worth.
   */
  lemma PaymentsReachTheRightHands(s: State, c: Call)
    requires Attempt(s, c).Some?
    ensures var s' := Attempt(s, c).value;
      match c
      case CallMilestone(id, learner, index, ok) =>
        && ok && (id, learner) in s.claims && s.claims[(id, learner)].status != ClaimDisputed
        && index < |s.bounties[id].milestones| && !s.bounties[id].milestones[index].completed
        && PaidTo(s, s', s.bounties[id].token, learner, Share(s.bounties[id].reward, s.bounties[id].milestones[index].bps))
      case CallComplete(id, learner, ok) =>
        && ok && (id, learner) in s.claims && s.claims[(id, learner)].status != ClaimDisputed
        && PaidTo(s, s', s.bounties[id].token, learner, Remaining(s.bounties[id].reward, s.bounties[id].milestones))
      case CallRefund(caller, id) =>
        && id in s.bounties && caller == s.bounties[id].poster && s.now > s.bounties[id].deadline
        && PaidTo(s, s', s.bounties[id].token, caller, Remaining(s.bounties[id].reward, s.bounties[id].milestones))
      case CallPost(_, _, _, _, _) => true
      case CallOutside(_, _, _, _) => true
      case _ => s'.bank == s.bank
  {
    match c
    case CallMilestone(id, learner, index, ok) =>
      TransferMoves(s.bank, s.bounties[id].token, SELF, learner, Share(s.bounties[id].reward, s.bounties[id].milestones[index].bps));
    case CallComplete(id, learner, ok) =>
      TransferMoves(s.bank, s.bounties[id].token, SELF, learner, Remaining(s.bounties[id].reward, s.bounties[id].milestones));
    case CallRefund(caller, id) =>
      TransferMoves(s.bank, s.bounties[id].token, SELF, caller, Remaining(s.bounties[id].reward, s.bounties[id].milestones));
    case _ =>
  }

  /** The part of a reward that no milestone open at posting is worth. */
  function Locked(b: Bounty, posted: seq<Milestone>): int {
    b.reward - Remaining(b.reward, posted)
  }

  function ClosedShares(reward: int, ms: seq<Milestone>): seq<int> {
    seq(|ms|, i requires 0 <= i < |ms| => if ms[i].completed then Share(reward, ms[i].bps) else 0)
  }

  /** That is the shares of the milestones posted as completed, and dust of less than a unit per milestone. */
  lemma LockedShares(b: Bounty, h: History)
    requires BountyOk(b, h)
    ensures 0 <= Sum(ClosedShares(b.reward, h.posted)) <= Locked(b, h.posted) < Sum(ClosedShares(b.reward, h.posted)) + |h.posted|
  {
    DustBound(b.reward, h.posted);
    SumSplit(Shares(b.reward, h.posted), OpenShares(b.reward, h.posted), ClosedShares(b.reward, h.posted));
    forall i | 0 <= i < |h.posted|
      ensures ClosedShares(b.reward, h.posted)[i] >= 0
    {
      ShareBounds(b.reward, h.posted[i].bps);
    }
    SumBounds(ClosedShares(b.reward, h.posted));
  }

  predicate SameTerms(s: State, s': State, id: nat) {
    id in s.bounties && id in s.history ==>
      && id in s'.bounties && id in s'.history && s'.history[id].posted == s.history[id].posted
      && s'.bounties[id].reward == s.bounties[id].reward && s'.bounties[id].token == s.bounties[id].token
  }

  lemma PostKeepsTerms(s: State, poster: Address, reward: int, token: Address, deadline: nat, ms: seq<Milestone>, id: nat)
    requires BooksOk(s) && PostBounty(s, poster, reward, token, deadline, ms).Some?
    ensures SameTerms(s, PostBounty(s, poster, reward, token, deadline, ms).value, id)
  {
    assert s.count + 1 !in s.bounties;
  }

  lemma OthersKeepTerms(s: State, c: Call, id: nat)
    requires Attempt(s, c).Some? && !c.CallPost?
    ensures SameTerms(s, Attempt(s, c).value, id)
  {
  }

  lemma AttemptKeepsTerms(s: State, c: Call, id: nat)
    requires BooksOk(s) && Attempt(s, c).Some?
    ensures SameTerms(s, Attempt(s, c).value, id)
  {
    match c
    case CallPost(poster, reward, token, deadline, ms) => PostKeepsTerms(s, poster, reward, token, deadline, ms, id);
    case _ => OthersKeepTerms(s, c, id);
  }

  lemma {:induction false} RunKeepsTerms(s: State, calls: seq<Call>, id: nat)
    requires Inv(s)
    ensures SameTerms(s, Run(s, calls), id)
  {
    if calls != [] {
      var before, c := Run(s, calls[..|calls| - 1]), calls[|calls| - 1];
      RunKeepsTerms(s, calls[..|calls| - 1], id);
      RunKeeps(s, calls[..|calls| - 1]);
      if Attempt(before, c).Some? {
        AttemptKeepsTerms(before, c, id);
      }
    }
  }

  /**
   From any reachable state on, what the contract holds of a bounty is what is outstanding and an amount fixed at
   posting: the shares of milestones posted as completed, and dust. That amount never leaves, whatever is called.
   */
  lemma LockedForever(s: State, calls: seq<Call>, id: nat)
    requires Inv(s) && id in s.bounties && id in s.history
    ensures var locked := Locked(s.bounties[id], s.history[id].posted); var later := Run(s, calls);
      && id in later.bounties && later.bounties[id].token == s.bounties[id].token
      && Held(later, s.bounties[id].token, id) == locked + Outstanding(later.bounties[id])
      && 0 <= locked <= Held(later, s.bounties[id].token, id) <= Balance(later.bank, s.bounties[id].token, SELF)
  {
    var later := Run(s, calls);
    RunKeeps(s, calls);
    RunKeepsTerms(s, calls, id);
    Conservation(later.bounties[id], later.history[id]);
    LockedShares(s.bounties[id], s.history[id]);
    HeldIsThere(later, s.bounties[id].token, id);
  }

  /** A bounty posted with every milestone already completed never pays or refunds anything: its whole reward stays behind. */
  lemma PostedCompletedIsLost(now: nat, bank: Bank, calls: seq<Call>, id: nat)
    requires id in Run(Initial(now, bank), calls).bounties
    requires id in Run(Initial(now, bank), calls).history && AllCompleted(Run(Initial(now, bank), calls).history[id].posted)
    ensures var s := Run(Initial(now, bank), calls); var h := s.history[id];
      Sum(h.payouts) == 0 && h.refunded == 0 && Held(s, s.bounties[id].token, id) == s.bounties[id].reward
  {
    InitialOk(now, bank);
    RunKeeps(Initial(now, bank), calls);
    var s := Run(Initial(now, bank), calls);
    Conservation(s.bounties[id], s.history[id]);
    PostedWorth(s.bounties[id], s.history[id]);
  }

  /** The dust bound is reached: a reward of 1 split in two halves pays nothing at all. */
  lemma DustIsReached(half: Milestone)
    requires half.bps == BPS / 2
    ensures Sum(BpsOf([half, half])) == BPS && Sum(Shares(1, [half, half])) == 1 - 2 + 1
  {
    assert BpsOf([half, half]) == [5000] + [5000] && Shares(1, [half, half]) == [0] + [0];
    SumAppend([5000], 5000);
    SumAppend([0], 0);
  }
}

/** The bounty contract as an object; every entry point commits exactly what its specification prescribes. */
module BountyContract {
  import opened Options
  import opened Sums
  import opened Ledger
  import opened M = BountyModel

  class Contract {
    var now: nat
    var bank: Bank
    var count: nat
    var bounties: map<nat, Bounty>
    var claims: map<(nat, Address), Claim>
    ghost var history: map<nat, History>
    ghost var gifts: map<Address, int>

    ghost function View(): State
      reads this
    {
      State(now, bank, count, bounties, claims, history, gifts)
    }

    ghost predicate Commits(ok: bool, before: State, spec: Option<State>)
      reads this
    {
      ok == spec.Some? && View() == spec.GetOr(before)
    }

    constructor (ledgerTime: nat, ledger: Bank)
      ensures View() == Initial(ledgerTime, ledger)
    {
      now, bank, count, bounties, claims, history := ledgerTime, ledger, 0, map[], map[], map[];
      gifts := map t | t in (set k <- ledger.Keys :: k.0) :: Balance(ledger, t, SELF);
    }

    method Move(token: Address, from: Address, to: Address, amount: int) returns (ok: bool)
      modifies this`bank
      ensures ok == Transfer(old(bank), token, from, to, amount).Some?
      ensures bank == Transfer(old(bank), token, from, to, amount).GetOr(old(bank))
    {
      if amount < 0 || amount > Balance(bank, token, from) { return false; }
      bank := bank[(token, from) := Balance(bank, token, from) - amount];
      bank := bank[(token, to) := Balance(bank, token, to) + amount];
      return true;
    }

    method PostBounty(poster: Address, reward: int, token: Address, deadline: nat, ms: seq<Milestone>) returns (ok: bool, id: nat)
      modifies this
      ensures Commits(ok, old(View()), M.PostBounty(old(View()), poster, reward, token, deadline, ms))
      ensures ok ==> id == count
    {
      ok, id := false, 0;
      if reward <= 0 || deadline <= now || |ms| == 0 || poster == SELF { return; }
      var fit := FullySplit(ms);
      if !fit { return; }
      for i := 0 to |ms|
        invariant forall k :: 0 <= k < i ==> ms[k].description != 0
      {
        if ms[i].description == 0 { return; }
      }
      ok := Move(token, poster, SELF, reward);
      if !ok { return; }
      id := count + 1;
      bounties := bounties[id := Bounty(id, poster, reward, token, deadline, Open, None, ms)];
      count := id;
      history := history[id := History(ms, seq(|ms|, _ => 0), 0)];
    }

    method ClaimBounty(learner: Address, id: nat, evidenceOk: bool) returns (ok: bool)
      modifies this
      ensures Commits(ok, old(View()), M.ClaimBounty(old(View()), learner, id, evidenceOk))
    {
      if !evidenceOk || learner == SELF || id !in bounties { return false; }
      var b := bounties[id];
      if b.status == Refunded || b.status == Verified { return false; }
      if now > b.deadline || (id, learner) in claims { return false; }
      claims := claims[(id, learner) := Claim(now, ClaimPending)];
      if b.status == Open {
        bounties := bounties[id := b.(status := Claimed)];
      }
      return true;
    }

    method CheckClaim(id: nat, learner: Address, cleared: bool) returns (may: bool)
      ensures may == MayVerify(View(), id, learner, cleared)
    {
      if !cleared || id !in bounties { return false; }
      if bounties[id].status == Verified || bounties[id].status == Refunded { return false; }
      if (id, learner) !in claims { return false; }
      return claims[(id, learner)].status != ClaimDisputed;
    }

    method VerifyCompletion(id: nat, learner: Address, cleared: bool) returns (ok: bool)
      modifies this
      ensures Commits(ok, old(View()), M.VerifyCompletion(old(View()), id, learner, cleared))
    {
      ok := CheckClaim(id, learner, cleared);
      if !ok { return; }
      var b := bounties[id];
      var fits, total, ms := SettleAll(b.reward, b.milestones, learner);
      if !fits || total == 0 { return false; }
      ok := Move(b.token, SELF, learner, total);
      if !ok { return; }
      claims := claims[(id, learner) := claims[(id, learner)].(status := ClaimVerified)];
      bounties := bounties[id := b.(status := Verified, winner := Some(learner), milestones := ms)];
      ghost var h := HistoryOf(old(View()), id);
      history := history[id := h.(payouts := Plus(h.payouts, OpenShares(b.reward, b.milestones)))];
    }

    method VerifyMilestone(id: nat, learner: Address, index: nat, cleared: bool) returns (ok: bool)
      modifies this
      ensures Commits(ok, old(View()), M.VerifyMilestone(old(View()), id, learner, index, cleared))
    {
      ok := CheckClaim(id, learner, cleared);
      if !ok { return; }
      var b := bounties[id];
      if index >= |b.milestones| || b.milestones[index].completed { return false; }
      var m := b.milestones[index];
      if b.reward * m.bps > I128_MAX { return false; }
      var share := b.reward * m.bps / BPS;
      var ms := b.milestones[index := m.(completed := true, completedBy := Some(learner))];
      var all := AreAllCompleted(ms);
      ok := Move(b.token, SELF, learner, share);
      if !ok { return; }
      claims := claims[(id, learner) := claims[(id, learner)].(status := ClaimVerified)];
      if all {
        bounties := bounties[id := b.(milestones := ms, status := Verified, winner := Some(learner))];
      } else {
        bounties := bounties[id := b.(milestones := ms, status := PartiallyVerified)];
      }
      ghost var h := HistoryOf(old(View()), id);
      history := history[id := h.(payouts := PlusAt(h.payouts, index, share))];
    }

    method DisputeCompletion(caller: Address, id: nat, learner: Address, evidenceOk: bool) returns (ok: bool)
      modifies this
      ensures Commits(ok, old(View()), M.DisputeCompletion(old(View()), caller, id, learner, evidenceOk))
    {
      if !evidenceOk || id !in bounties { return false; }
      var b := bounties[id];
      if caller != b.poster || b.status == Verified || b.status == Refunded { return false; }
      if (id, learner) !in claims { return false; }
      var c := claims[(id, learner)];
      if c.status != ClaimPending || now > c.claimedAt + DISPUTE_WINDOW { return false; }
      claims := claims[(id, learner) := c.(status := ClaimDisputed)];
      bounties := bounties[id := b.(status := Disputed)];
      return true;
    }

    method RefundBounty(caller: Address, id: nat) returns (ok: bool)
      modifies this
      ensures Commits(ok, old(View()), M.RefundBounty(old(View()), caller, id))
    {
      if id !in bounties { return false; }
      var b := bounties[id];
      if caller != b.poster || b.status == Verified || b.status == Refunded || now <= b.deadline { return false; }
      var fits, total := SumOpen(b.reward, b.milestones);
      if !fits { return false; }
      ok := Move(b.token, SELF, b.poster, total);
      if !ok { return; }
      bounties := bounties[id := b.(status := Refunded)];
      ghost var h := HistoryOf(old(View()), id);
      history := history[id := h.(refunded := h.refunded + total)];
    }
  }

  method FullySplit(ms: seq<Milestone>) returns (full: bool)
    ensures full == (Sum(BpsOf(ms)) == BPS)
  {
    var total := 0;
    for i := 0 to |ms|
      invariant total == Sum(BpsOf(ms[..i]))
    {
      total := total + ms[i].bps;
      assert BpsOf(ms[..i + 1]) == BpsOf(ms[..i]) + [ms[i].bps];
      SumAppend(BpsOf(ms[..i]), ms[i].bps);
    }
    assert ms[..|ms|] == ms;
    full := total == BPS;
  }

  method AreAllCompleted(ms: seq<Milestone>) returns (all: bool)
    ensures all == AllCompleted(ms)
  {
    for i := 0 to |ms|
      invariant forall k :: 0 <= k < i ==> ms[k].completed
    {
      if !ms[i].completed { return false; }
    }
    return true;
  }

  lemma SharesStep(reward: int, ms: seq<Milestone>, i: nat)
    requires i < |ms|
    ensures Sum(OpenShares(reward, ms[..i + 1])) == Sum(OpenShares(reward, ms[..i])) + if ms[i].completed then 0 else Share(reward, ms[i].bps)
  {
    var next := if ms[i].completed then 0 else Share(reward, ms[i].bps);
    assert OpenShares(reward, ms[..i + 1]) == OpenShares(reward, ms[..i]) + [next];
    SumAppend(OpenShares(reward, ms[..i]), next);
  }

  /** Add up what is still open; a product beyond 128 bits aborts. */
  method SumOpen(reward: int, milestones: seq<Milestone>) returns (fits: bool, total: int)
    ensures fits == AllComputable(reward, milestones)
    ensures fits ==> total == Remaining(reward, milestones)
  {
    total := 0;
    for i := 0 to |milestones|
      invariant forall k :: 0 <= k < i ==> milestones[k].completed || Computable(reward, milestones[k])
      invariant total == Sum(OpenShares(reward, milestones[..i]))
    {
      SharesStep(reward, milestones, i);
      if !milestones[i].completed {
        if reward * milestones[i].bps > I128_MAX { return false, 0; }
        total := total + reward * milestones[i].bps / BPS;
      }
    }
    fits := true;
    assert milestones[..|milestones|] == milestones;
  }

  /** Add up and complete everything still open. */
  method SettleAll(reward: int, milestones: seq<Milestone>, learner: Address) returns (fits: bool, total: int, ms: seq<Milestone>)
    ensures fits == AllComputable(reward, milestones)
    ensures fits ==> total == Remaining(reward, milestones) && ms == CompleteAll(milestones, learner)
  {
    total, ms := 0, milestones;
    for i := 0 to |milestones|
      invariant forall k :: 0 <= k < i ==> milestones[k].completed || Computable(reward, milestones[k])
      invariant total == Sum(OpenShares(reward, milestones[..i])) && |ms| == |milestones|
      invariant forall k :: 0 <= k < |ms| ==> ms[k] == if k < i then CompleteAll(milestones, learner)[k] else milestones[k]
    {
      var m := milestones[i];
      SharesStep(reward, milestones, i);
      if !m.completed {
        if reward * m.bps > I128_MAX { return false, 0, []; }
        total := total + reward * m.bps / BPS;
        ms := ms[i := m.(completed := true, completedBy := Some(learner))];
      }
    }
    fits := true;
    assert milestones[..|milestones|] == milestones;
  }
}
