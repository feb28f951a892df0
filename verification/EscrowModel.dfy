/**
 The escrow contract's storage as a value, and every entry point as a function from that storage to
 the storage it commits. `None` is a panic: the transaction reverts and nothing changes.
 */
module EscrowModel {
  import opened Options
  import opened Sums
  import opened Ledger
  import opened Lists
  import opened Fees

  type Symbol = string

  const MAX_FINANCIAL_AMOUNT := 1000000000000000
  const MAX_SESSION_TIME_DRIFT_SECS := 300
  const REQUIRED_INTERACTION_MINUTES := 10
  const LOW_FEE_THRESHOLD := 100000
  const MAX_LOW_FEE_SESSIONS_PER_PAIR := 5
  const MAX_AUTO_RELEASE_ATTEMPTS := 10
  const MANUAL_RECOVERY_THRESHOLD := 5
  const HOUR := 3600
  const BACKOFF_CAP := 8 * HOUR
  const EMERGENCY_TIMELOCK_SECS := 24 * HOUR
  const EMERGENCY_ADMIN_TTL_SECS := 72 * HOUR
  const EMERGENCY_CIRCUIT_WINDOW_SECS := 24 * HOUR
  const EMERGENCY_RELEASE_CAP_BPS := 1000
  const EMERGENCY_THRESHOLD := 4
  const EMERGENCY_SIGNERS := 7
  const USD_SESSION: Symbol := "USD_SES"
  const PATH_SESSION: Symbol := "PATHPAY"
  const U32 := 0x1_0000_0000

  // ---------------------------------------------------------------- records

  datatype Status = Pending | Active | Released | Disputed | Refunded | Resolved

  /** The status edges of the shared state machine. */
  predicate ValidEdge(from: Status, to: Status) {
    match (from, to)
    case (Pending, Active) => true
    case (Active, Released) => true
    case (Active, Disputed) => true
    case (Disputed, Resolved) => true
    case (Disputed, Refunded) => true
    case (Active, Refunded) => true
    case (Pending, Refunded) => true
    case _ => false
  }

  datatype Transition = Transition(from: Status, to: Status, actor: Address, timestamp: nat)

  datatype Escrow = Escrow(id: nat, mentor: Address, learner: Address, amount: int, sessionId: Symbol,
                           status: Status, createdAt: nat, token: Address, platformFee: int, netAmount: int,
                           sessionEnd: nat, autoReleaseDelay: nat, disputeReason: Symbol, resolvedAt: nat,
                           usdAmount: int, quoted: int, sendAsset: Address, destAsset: Address,
                           totalSessions: nat, sessionsDone: nat)

  datatype MilestoneStatus = MsPending | MsCompleted | MsDisputed

  datatype MilestoneEscrow = MilestoneEscrow(id: nat, mentor: Address, learner: Address, total: int,
                                             amounts: seq<int>, statuses: seq<MilestoneStatus>, status: Status,
                                             createdAt: nat, token: Address, platformFee: int, netAmount: int)

  datatype RecoveryState = Retrying | AwaitingManualRecovery | Recovered

  datatype Failure = Failure(attempts: nat, lastFailure: nat, nextRetry: nat, recovery: RecoveryState, manualAt: nat)

  /** What the parameter hash binds; the hash itself is taken to be injective. */
  datatype Params = Params(escrowId: nat, amount: int, reason: Symbol)

  datatype EmergencyAction = EmergencyAction(params: Params, proposer: Address, proposedAt: nat, executeAfter: nat,
                                             approvalCount: nat, signers: seq<Address>, executed: bool, failed: bool)

  datatype EmergencyRole = EmergencyRole(admin: Address, expiresAt: nat)

  datatype Circuit = Circuit(windowStart: nat, released: int)

  datatype Emergency = Emergency(count: nat, actions: map<nat, EmergencyAction>, approvals: set<(nat, Address)>,
                                 failedParams: set<Params>, circuit: Option<Circuit>)

  datatype Config = Config(admin: Address, treasury: Address, fees: FeeConfig, autoReleaseDelay: nat,
                           approved: set<Address>, emergencySigners: Option<seq<Address>>,
                           emergencyAdmin: Option<EmergencyRole>)

  /**
   The money side of the storage. The last three fields are history variables, written by every transfer
   and read by no entry point: tokens the contract owns outright (deposits, and payouts addressed to
   itself), lifetime payouts per escrow, and payouts per milestone.
   */
  datatype Vault = Vault(bank: Bank, escrowCount: nat, escrows: map<nat, Escrow>,
                         milestoneCount: nat, milestones: map<nat, MilestoneEscrow>,
                         surplus: map<Address, int>, paid: map<nat, int>, msPaid: map<(nat, nat), int>)

  datatype World = World(now: nat, config: Config, vault: Vault,
                         usedNonces: set<Symbol>, openSessions: set<Symbol>,
                         byMentor: map<Address, seq<nat>>, byLearner: map<Address, seq<nat>>,
                         log: map<nat, seq<Transition>>, isolated: set<nat>,
                         lowFee: map<(Address, Address), nat>, failures: map<nat, Failure>,
                         emergency: Emergency)
  {
    predicate HasStatus(id: nat, status: Status) {
      id in vault.escrows && vault.escrows[id].status == status
    }
  }

  // ---------------------------------------------------------------- storage helpers

  function Lookup<K, V>(m: map<K, V>, k: K, default: V): V {
    if k in m then m[k] else default
  }

  function Credit<K>(m: map<K, int>, k: K, amount: int): map<K, int> {
    m[k := Lookup(m, k, 0) + amount]
  }

  /** `transition_status`: refuse an illegal edge, else append to the escrow's transition log. */
  function LogTransition(log: map<nat, seq<Transition>>, id: nat, from: Status, to: Status, actor: Address, now: nat)
    : Option<map<nat, seq<Transition>>>
  {
    if !ValidEdge(from, to) then None
    else Some(log[id := Lookup(log, id, []) + [Transition(from, to, actor, now)]])
  }

  /** Fee to the treasury (no transfer when it is zero), the rest of the gross to the mentor. */
  function PaySplit(bank: Bank, token: Address, treasury: Address, mentor: Address, gross: int, fee: int): Option<Bank> {
    var charged :- if fee > 0 then Transfer(bank, token, SELF, treasury, fee) else Some(bank);
    Transfer(charged, token, SELF, mentor, gross - fee)
  }

  /** The part of a split that never leaves the contract because a recipient is the contract. */
  function Retained(treasury: Address, mentor: Address, gross: int, fee: int): int {
    (if treasury == SELF && fee > 0 then fee else 0) + (if mentor == SELF then gross - fee else 0)
  }

  // ---------------------------------------------------------------- movements of money

  /** The learner's tokens come in and a new record is stored under the next id. */
  function OpenEscrow(v: Vault, e: Escrow): Option<Vault> {
    var bank :- Transfer(v.bank, e.token, e.learner, SELF, e.amount);
    Some(v.(bank := bank, escrowCount := v.escrowCount + 1, escrows := v.escrows[v.escrowCount + 1 := e]))
  }

  /** Pay `gross` out of escrow `id` for `sessions` sessions; `closes` moves it to Released. */
  function PayEscrow(v: Vault, treasury: Address, id: nat, gross: int, fee: int, sessions: nat, closes: bool): Option<Vault>
    requires id in v.escrows
  {
    var e := v.escrows[id];
    var bank :- PaySplit(v.bank, e.token, treasury, e.mentor, gross, fee);
    var e' := e.(amount := e.amount - gross, platformFee := e.platformFee + fee, netAmount := e.netAmount + gross - fee,
                 sessionsDone := e.sessionsDone + sessions, status := if closes then Released else e.status);
    Some(v.(bank := bank, escrows := v.escrows[id := e'],
            surplus := Credit(v.surplus, e.token, Retained(treasury, e.mentor, gross, fee)),
            paid := Credit(v.paid, id, gross)))
  }

  function FreezeEscrow(v: Vault, id: nat, reason: Symbol): Vault
    requires id in v.escrows
  {
    v.(escrows := v.escrows[id := v.escrows[id].(status := Disputed, disputeReason := reason)])
  }

  function TransferIfPositive(bank: Bank, token: Address, to: Address, amount: int): Option<Bank> {
    if amount > 0 then Transfer(bank, token, SELF, to, amount) else Some(bank)
  }

  function SplitBank(bank: Bank, token: Address, mentor: Address, learner: Address, toMentor: int, toLearner: int): Option<Bank> {
    var bank1 :- TransferIfPositive(bank, token, mentor, toMentor);
    TransferIfPositive(bank1, token, learner, toLearner)
  }

  /** Split what is left: `toMentor` to the mentor, the rest to the learner, no fee. */
  function SplitEscrow(v: Vault, id: nat, toMentor: int, now: nat): Option<Vault>
    requires id in v.escrows
  {
    var e := v.escrows[id];
    var toLearner := e.amount - toMentor;
    var bank :- SplitBank(v.bank, e.token, e.mentor, e.learner, toMentor, toLearner);
    var kept := (if e.mentor == SELF then toMentor else 0) + (if e.learner == SELF then toLearner else 0);
    Some(v.(bank := bank,
            escrows := v.escrows[id := e.(status := Resolved, netAmount := toMentor, platformFee := toLearner, resolvedAt := now)],
            surplus := Credit(v.surplus, e.token, kept), paid := Credit(v.paid, id, e.amount)))
  }

  function RefundEscrow(v: Vault, id: nat): Option<Vault>
    requires id in v.escrows
  {
    var e := v.escrows[id];
    var bank :- Transfer(v.bank, e.token, SELF, e.learner, e.amount);
    Some(v.(bank := bank, escrows := v.escrows[id := e.(status := Refunded)],
            surplus := Credit(v.surplus, e.token, if e.learner == SELF then e.amount else 0),
            paid := Credit(v.paid, id, e.amount)))
  }

  function OpenMilestones(v: Vault, m: MilestoneEscrow): Option<Vault> {
    var bank :- Transfer(v.bank, m.token, m.learner, SELF, m.total);
    Some(v.(bank := bank, milestoneCount := v.milestoneCount + 1, milestones := v.milestones[v.milestoneCount + 1 := m]))
  }

  predicate AllCompleted(statuses: seq<MilestoneStatus>) {
    forall i :: 0 <= i < |statuses| ==> statuses[i] == MsCompleted
  }

  predicate MilestoneOpen(v: Vault, id: nat, index: nat) {
    && id in v.milestones && v.milestones[id].status == Active
    && index < |v.milestones[id].amounts| && index < |v.milestones[id].statuses|
    && v.milestones[id].statuses[index] == MsPending
  }

  function PayMilestone(v: Vault, treasury: Address, id: nat, index: nat, fee: int): Option<Vault>
    requires MilestoneOpen(v, id, index)
  {
    var m := v.milestones[id];
    var gross := m.amounts[index];
    var bank :- PaySplit(v.bank, m.token, treasury, m.mentor, gross, fee);
    var statuses := m.statuses[index := MsCompleted];
    var m' := m.(statuses := statuses, status := if AllCompleted(statuses) then Released else m.status,
                 platformFee := m.platformFee + fee, netAmount := m.netAmount + gross - fee);
    Some(v.(bank := bank, milestones := v.milestones[id := m'],
            surplus := Credit(v.surplus, m.token, Retained(treasury, m.mentor, gross, fee)),
            msPaid := Credit(v.msPaid, (id, index), gross)))
  }

  function FreezeMilestone(v: Vault, id: nat, index: nat): Vault
    requires MilestoneOpen(v, id, index)
  {
    var m := v.milestones[id];
    v.(milestones := v.milestones[id := m.(statuses := m.statuses[index := MsDisputed], status := Disputed)])
  }

  /** Anyone else moving tokens; what this sends to the contract is a gift, not an escrow. */
  function MoveOutside(v: Vault, token: Address, from: Address, to: Address, amount: int): Option<Vault> {
    var bank :- Transfer(v.bank, token, from, to, amount);
    Some(v.(bank := bank, surplus := Credit(v.surplus, token, if to == SELF then amount else 0)))
  }

  // ---------------------------------------------------------------- standard escrows: creation

  /** Everything `_create_escrow_internal` checks; a session id is good once, ever. */
  predicate Creatable(w: World, learner: Address, amount: int, session: Symbol, token: Address, sessionEnd: nat,
                      sendAsset: Address, destAsset: Address, totalSessions: nat)
  {
    && 0 < amount <= MAX_FINANCIAL_AMOUNT && totalSessions > 0 && amount >= totalSessions
    && token in w.config.approved && sendAsset in w.config.approved && destAsset in w.config.approved
    && learner != SELF && Balance(w.vault.bank, token, learner) >= amount
    && session !in w.usedNonces
    && !(sessionEnd > 0 && w.now > sessionEnd && w.now - sessionEnd > MAX_SESSION_TIME_DRIFT_SECS)
    && session !in w.openSessions
  }

  /** Take the tokens, log the opening, store the record. */
  function Opened(w: World, e: Escrow): Option<World> {
    var vault :- OpenEscrow(w.vault, e);
    var log :- LogTransition(w.log, e.id, Pending, Active, e.learner, w.now);
    Some(w.(vault := vault, log := log))
  }

  /** Spend the session id and list the escrow under both parties. */
  function Registered(w: World, e: Escrow): World {
    w.(usedNonces := w.usedNonces + {e.sessionId}, openSessions := w.openSessions + {e.sessionId},
       byMentor := w.byMentor[e.mentor := Lookup(w.byMentor, e.mentor, []) + [e.id]],
       byLearner := w.byLearner[e.learner := Lookup(w.byLearner, e.learner, []) + [e.id]])
  }

  function StoreEscrow(w: World, e: Escrow): Option<World> {
    var w1 :- Opened(w, e);
    Some(Registered(w1, e))
  }

  function CreateInternal(w: World, mentor: Address, learner: Address, amount: int, session: Symbol, token: Address,
                          sessionEnd: nat, usdAmount: int, quoted: int, sendAsset: Address, destAsset: Address,
                          totalSessions: nat): Option<World>
  {
    if !Creatable(w, learner, amount, session, token, sessionEnd, sendAsset, destAsset, totalSessions) then None else
    StoreEscrow(w, Escrow(w.vault.escrowCount + 1, mentor, learner, amount, session, Active, w.now, token, 0, 0, sessionEnd,
                          w.config.autoReleaseDelay, "", 0, usdAmount, quoted, sendAsset, destAsset, totalSessions, 0))
  }

  function CreateEscrow(w: World, mentor: Address, learner: Address, amount: int, session: Symbol, token: Address,
                        sessionEnd: nat, totalSessions: nat): Option<World>
  {
    CreateInternal(w, mentor, learner, amount, session, token, sessionEnd, 0, amount, token, token, totalSessions)
  }

  /** The oracle's answer and the configured maximum age are inputs. */
  datatype OracleReading = OracleReading(price: int, updatedAt: nat, maxAge: nat)

  function CreateEscrowUsd(w: World, mentor: Address, learner: Address, usd: int, token: Address,
                           totalSessions: nat, oracle: OracleReading): Option<World>
  {
    if !(0 < usd <= MAX_FINANCIAL_AMOUNT) then None else
    if !(SaturatingSub(w.now, oracle.updatedAt) <= oracle.maxAge && oracle.price > 0) then None else
    var amount := usd * 10000000 / oracle.price;
    CreateInternal(w, mentor, learner, amount, USD_SESSION, token, w.now, usd, amount, token, token, totalSessions)
  }

  function CreatePathPayment(w: World, learner: Address, mentor: Address, sendAsset: Address, sendMax: int,
                             destAsset: Address, destAmount: int, totalSessions: nat): Option<World>
  {
    if !(sendAsset in w.config.approved && destAsset in w.config.approved) then None else
    if !(0 < destAmount <= MAX_FINANCIAL_AMOUNT && 0 < sendMax <= MAX_FINANCIAL_AMOUNT && sendMax >= destAmount) then None else
    CreateInternal(w, mentor, learner, destAmount, PATH_SESSION, destAsset, 0, 0, destAmount, sendAsset, destAsset, totalSessions)
  }

  // ---------------------------------------------------------------- standard escrows: release

  /** A payout with its entry in the transition log. */
  function PayOut(w: World, id: nat, gross: int, fee: int, sessions: nat, closes: bool, actor: Address): Option<World>
    requires id in w.vault.escrows
  {
    var vault :- PayEscrow(w.vault, w.config.treasury, id, gross, fee, sessions, closes);
    var log :- if closes then LogTransition(w.log, id, w.vault.escrows[id].status, Released, actor, w.now) else Some(w.log);
    Some(w.(vault := vault, log := log))
  }

  /** `_do_release`: everything that is left, at the configured fee. */
  function ReleaseRest(w: World, id: nat, q: Quote, actor: Address): Option<World>
    requires id in w.vault.escrows
  {
    var gross := w.vault.escrows[id].amount;
    PayOut(w, id, gross, UnifiedFee(w.config.fees, q, gross), 0, true, actor)
  }

  /** `_do_release_simple`: everything that is left, always at the flat rate. */
  function ReleaseRestSimple(w: World, id: nat, actor: Address): Option<World>
    requires id in w.vault.escrows
  {
    var gross := w.vault.escrows[id].amount;
    PayOut(w, id, gross, FlatFee(w.config.fees.feeBps, gross), 0, true, actor)
  }

  function InteractionMinutes(e: Escrow): nat {
    if e.sessionEnd > e.createdAt then ((e.sessionEnd - e.createdAt) / 60) % U32 else REQUIRED_INTERACTION_MINUTES
  }

  function LowFeeCount(w: World, e: Escrow): nat {
    var count := Lookup(w.lowFee, (e.mentor, e.learner), 0);
    if e.amount < LOW_FEE_THRESHOLD then count + 1 else count
  }

  function ReleaseFunds(w: World, caller: Address, id: nat, q: Quote): Option<World> {
    if !(w.HasStatus(id, Active) && id !in w.isolated) then None else
    var e := w.vault.escrows[id];
    if !(caller == e.learner || caller == w.config.admin) then None else
    if !(InteractionMinutes(e) >= REQUIRED_INTERACTION_MINUTES) then None else
    if !(LowFeeCount(w, e) <= MAX_LOW_FEE_SESSIONS_PER_PAIR) then None else
    ReleaseRest(w.(lowFee := w.lowFee[(e.mentor, e.learner) := LowFeeCount(w, e)]), id, q, caller)
  }

  function PerSession(e: Escrow): int {
    if e.totalSessions == 0 then 0 else e.quoted / e.totalSessions
  }

  /** The gross of the next `n` sessions: the last session also takes the rounding dust. */
  function SessionGross(e: Escrow, n: nat): int {
    if e.sessionsDone + n == e.totalSessions then e.amount else PerSession(e) * n
  }

  /** A session payout; completing the last session closes the escrow and frees its session key. */
  function PaySessions(w: World, id: nat, n: nat, q: Quote, actor: Address): Option<World>
    requires id in w.vault.escrows
  {
    var e := w.vault.escrows[id];
    var gross := SessionGross(e, n);
    var closes := e.sessionsDone + n == e.totalSessions;
    var w' :- PayOut(w, id, gross, UnifiedFee(w.config.fees, q, gross), n, closes, actor);
    Some(if closes then w'.(openSessions := w'.openSessions - {e.sessionId}) else w')
  }

  function ReleasePartial(w: World, caller: Address, id: nat, q: Quote): Option<World> {
    if !(w.HasStatus(id, Active)) then None else
    var e := w.vault.escrows[id];
    if !(e.sessionsDone < e.totalSessions && (caller == e.learner || caller == w.config.admin)) then None else
    PaySessions(w, id, 1, q, caller)
  }

  function BatchRelease(w: World, caller: Address, id: nat, n: nat, q: Quote): Option<World> {
    if !(w.HasStatus(id, Active) && caller == w.config.admin) then None else
    var e := w.vault.escrows[id];
    if !(n > 0 && e.sessionsDone + n <= e.totalSessions) then None else
    PaySessions(w, id, n, q, caller)
  }

  function AdminRelease(w: World, caller: Address, id: nat, q: Quote): Option<World> {
    if !(w.HasStatus(id, Active) && caller == w.config.admin) then None else
    ReleaseRest(w, id, q, caller)
  }

  // ---------------------------------------------------------------- auto-release and recovery

  const FRESH_FAILURE := Failure(0, 0, 0, Retrying, 0)

  function Pow2(n: nat): nat {
    if n == 0 then 1 else 2 * Pow2(n - 1)
  }

  lemma {:induction false} Pow2Monotone(a: nat, b: nat)
    requires a <= b
    ensures 1 <= Pow2(a) <= Pow2(b)
  {
    if b > 0 {
      Pow2Monotone(if a == b then a - 1 else a, b - 1);
    }
  }

  /** One hour doubled per attempt after the first, capped at eight hours. */
  function Backoff(attempts: nat): nat {
    Min(HOUR * Pow2(SaturatingSub(attempts, 1)), BACKOFF_CAP)
  }

  function FailureOf(w: World, id: nat): Failure {
    Lookup(w.failures, id, FRESH_FAILURE)
  }

  function AfterFailure(f: Failure, now: nat): Failure {
    Failure(f.attempts + 1, now, now + Backoff(f.attempts + 1),
            if f.attempts + 1 >= MAX_AUTO_RELEASE_ATTEMPTS then AwaitingManualRecovery else Retrying, f.manualAt)
  }

  /** The gate in front of every automatic release attempt. */
  predicate AutoReleaseDue(w: World, id: nat) {
    && w.HasStatus(id, Active)
    && w.now >= w.vault.escrows[id].sessionEnd + w.vault.escrows[id].autoReleaseDelay
    && FailureOf(w, id).attempts < MAX_AUTO_RELEASE_ATTEMPTS
    && w.now >= FailureOf(w, id).nextRetry
  }

  /** `prechecksOk` is the answer of the reputation, insurance and staking contracts. */
  function TryAutoRelease(w: World, id: nat, prechecksOk: bool, q: Quote): Option<World> {
    if !(AutoReleaseDue(w, id)) then None else
    if !prechecksOk then
      Some(w.(failures := w.failures[id := AfterFailure(FailureOf(w, id), w.now)]))
    else
      var w' :- ReleaseRest(w, id, q, SELF);
      Some(w'.(failures := w'.failures - {id}))
  }

  predicate ManualRecoveryOpen(w: World, id: nat) {
    id in w.failures && MANUAL_RECOVERY_THRESHOLD <= w.failures[id].attempts < MAX_AUTO_RELEASE_ATTEMPTS
  }

  function ManualRecovery(w: World, caller: Address, id: nat): Option<World> {
    if !(caller == w.config.admin && ManualRecoveryOpen(w, id)) then None else
    if !(w.HasStatus(id, Active)) then None else
    var w' :- ReleaseRestSimple(w, id, caller);
    Some(w'.(failures := w'.failures[id := w.failures[id].(recovery := Recovered, manualAt := w.now)]))
  }

  // ---------------------------------------------------------------- disputes and refunds

  function Dispute(w: World, caller: Address, id: nat, reason: Symbol): Option<World> {
    if !(w.HasStatus(id, Active)) then None else
    var e := w.vault.escrows[id];
    if !(caller == e.mentor || caller == e.learner) then None else
    var log :- LogTransition(w.log, id, e.status, Disputed, caller, w.now);
    Some(w.(log := log, vault := FreezeEscrow(w.vault, id, reason)))
  }

  function ResolveDispute(w: World, caller: Address, id: nat, mentorPct: nat): Option<World> {
    if !(caller == w.config.admin && mentorPct <= 100 && id !in w.isolated && w.HasStatus(id, Disputed)) then None else
    SplitOpen(w, id, w.vault.escrows[id].amount * mentorPct / 100, caller)
  }

  /** The split of a Disputed escrow with its entry in the transition log. */
  function SplitOpen(w: World, id: nat, toMentor: int, actor: Address): Option<World>
    requires id in w.vault.escrows
  {
    var vault :- SplitEscrow(w.vault, id, toMentor, w.now);
    var log :- LogTransition(w.log, id, w.vault.escrows[id].status, Resolved, actor, w.now);
    Some(w.(vault := vault, log := log))
  }

  function Refund(w: World, caller: Address, id: nat): Option<World> {
    if !(caller == w.config.admin && id in w.vault.escrows) then None else
    var e := w.vault.escrows[id];
    if !(e.status != Released && e.status != Refunded && e.status != Resolved) then None else
    var vault :- RefundEscrow(w.vault, id);
    var log :- LogTransition(w.log, id, e.status, Refunded, caller, w.now);
    Some(w.(vault := vault, log := log))
  }

  function Isolate(w: World, caller: Address, id: nat): Option<World> {
    if !(caller == w.config.admin) then None else
    Some(w.(isolated := w.isolated + {id}))
  }

  function LiftIsolation(w: World, caller: Address, id: nat): Option<World> {
    if !(caller == w.config.admin) then None else
    Some(w.(isolated := w.isolated - {id}))
  }

  // ---------------------------------------------------------------- emergency release

  /** Exactly four approvals, all distinct, all by registered signers. */
  predicate ValidSignatures(registered: seq<Address>, approvals: seq<Address>) {
    && |approvals| == EMERGENCY_THRESHOLD
    && Distinct(approvals)
    && forall i :: 0 <= i < |approvals| ==> approvals[i] in registered
  }

  function ActiveAmount(escrows: map<nat, Escrow>, id: nat): int {
    if id in escrows && escrows[id].status == Active && escrows[id].amount > 0 then escrows[id].amount else 0
  }

  /** The circuit breaker's pool: the amounts of all Active escrows. */
  function ActivePool(escrows: map<nat, Escrow>, count: nat): int {
    SumTo(ActiveAmounts(escrows), count)
  }

  function ActiveAmounts(escrows: map<nat, Escrow>): nat -> int {
    (id: nat) => ActiveAmount(escrows, id)
  }

  function MaxReleasable(pool: int): int {
    if pool <= 0 then 0 else pool * EMERGENCY_RELEASE_CAP_BPS / BPS
  }

  function NextCircuit(c: Circuit, now: nat, pool: int, additional: int): Option<Circuit> {
    var open := if SaturatingSub(now, c.windowStart) >= EMERGENCY_CIRCUIT_WINDOW_SECS then Circuit(now, 0) else c;
    if open.released + additional > MaxReleasable(pool) then None
    else Some(open.(released := open.released + additional))
  }

  predicate EmergencyProposable(w: World, id: nat) {
    id in w.failures && w.failures[id].attempts >= MAX_AUTO_RELEASE_ATTEMPTS
  }

  function ProposeEmergency(w: World, proposer: Address, id: nat, reason: Symbol): Option<World> {
    if !(w.config.emergencySigners.Some? && proposer in w.config.emergencySigners.value) then None else
    if !(EmergencyProposable(w, id) && w.HasStatus(id, Active)) then None else
    var params := Params(id, w.vault.escrows[id].amount, reason);
    if !(params !in w.emergency.failedParams) then None else
    var aid := w.emergency.count + 1;
    var action := EmergencyAction(params, proposer, w.now, w.now + EMERGENCY_TIMELOCK_SECS, 1, [proposer], false, false);
    Some(w.(emergency := w.emergency.(count := aid, actions := w.emergency.actions[aid := action],
                                      approvals := w.emergency.approvals + {(aid, proposer)})))
  }

  /** `aggregate_signatures`: append a signer that is not there yet. */
  function Aggregate(signers: seq<Address>, signer: Address): seq<Address> {
    if signer in signers then signers else signers + [signer]
  }

  function ApproveEmergency(w: World, signer: Address, aid: nat): Option<World> {
    if !(w.config.emergencySigners.Some? && signer in w.config.emergencySigners.value) then None else
    if !(aid in w.emergency.actions) then None else
    var a := w.emergency.actions[aid];
    if !(!a.executed && !a.failed && (aid, signer) !in w.emergency.approvals) then None else
    if !(a.approvalCount < EMERGENCY_THRESHOLD) then None else
    var signers := Aggregate(a.signers, signer);
    Some(w.(emergency := w.emergency.(
              actions := w.emergency.actions[aid := a.(signers := signers, approvalCount := |signers|)],
              approvals := w.emergency.approvals + {(aid, signer)})))
  }

  /** Everything `execute_emergency_action` checks before it moves money. */
  function EmergencyAdmitted(w: World, caller: Address, a: EmergencyAction): Option<Circuit> {
    if !(w.config.emergencySigners.Some? && ValidSignatures(w.config.emergencySigners.value, a.signers)) then None else
    if !(w.now >= a.executeAfter) then None else
    var role :- w.config.emergencyAdmin;
    if !(role.admin == caller && w.now < role.expiresAt) then None else
    var circuit :- NextCircuit(w.emergency.circuit.GetOr(Circuit(w.now, 0)), w.now,
                               ActivePool(w.vault.escrows, w.vault.escrowCount), a.params.amount);
    var id := a.params.escrowId;
    if !(w.HasStatus(id, Active) && w.vault.escrows[id].amount == a.params.amount) then None else
    Some(circuit)
  }

  /** A refused attempt commits too: the action and its parameters are marked failed for good. */
  function ExecuteEmergency(w: World, caller: Address, aid: nat): Option<(World, bool)> {
    if !(aid in w.emergency.actions) then None else
    var a := w.emergency.actions[aid];
    if !(!a.executed && !a.failed && a.params !in w.emergency.failedParams) then None else
    if !(w.config.emergencySigners.Some?) then None else
    match EmergencyAdmitted(w, caller, a)
    case None =>
      Some((w.(emergency := w.emergency.(actions := w.emergency.actions[aid := a.(failed := true)],
                                         failedParams := w.emergency.failedParams + {a.params})), false))
    case Some(circuit) =>
      assert a.params.escrowId in w.vault.escrows;
      var w' :- EmergencyRelease(w, aid, Some(circuit), caller);
      Some((w', true))
  }

  /** The release itself, its mark and the breaker's new state. */
  function EmergencyRelease(w: World, aid: nat, circuit: Option<Circuit>, caller: Address): Option<World>
    requires aid in w.emergency.actions && w.emergency.actions[aid].params.escrowId in w.vault.escrows
  {
    var a := w.emergency.actions[aid];
    var w' :- ReleaseRestSimple(w, a.params.escrowId, caller);
    Some(w'.(failures := w'.failures - {a.params.escrowId},
             emergency := w.emergency.(actions := w.emergency.actions[aid := a.(executed := true)], circuit := circuit)))
  }

  // ---------------------------------------------------------------- milestone escrows

  function StoreMilestones(w: World, m: MilestoneEscrow): Option<World> {
    var vault :- OpenMilestones(w.vault, m);
    var log :- LogTransition(w.log, m.id, Pending, Active, m.learner, w.now);
    Some(w.(vault := vault, log := log))
  }

  function CreateMilestones(w: World, mentor: Address, learner: Address, amounts: seq<int>, token: Address): Option<World> {
    if !(amounts != [] && token in w.config.approved) then None else
    if !(forall i :: 0 <= i < |amounts| ==> 0 < amounts[i] <= MAX_FINANCIAL_AMOUNT) then None else
    var total := Sum(amounts);
    if !(0 < total <= MAX_FINANCIAL_AMOUNT && learner != SELF && Balance(w.vault.bank, token, learner) >= total) then None else
    StoreMilestones(w, MilestoneEscrow(w.vault.milestoneCount + 1, mentor, learner, total, amounts, seq(|amounts|, _ => MsPending),
                                       Active, w.now, token, 0, 0))
  }

  function CompleteMilestone(w: World, caller: Address, id: nat, index: nat, q: Quote): Option<World> {
    if !(MilestoneOpen(w.vault, id, index) && caller == w.vault.milestones[id].learner) then None else
    CompleteOpen(w, id, index, UnifiedFee(w.config.fees, q, w.vault.milestones[id].amounts[index]))
  }

  /** The payment of an open milestone; completing the last one is logged. */
  function CompleteOpen(w: World, id: nat, index: nat, fee: int): Option<World>
    requires MilestoneOpen(w.vault, id, index)
  {
    var m := w.vault.milestones[id];
    var vault :- PayMilestone(w.vault, w.config.treasury, id, index, fee);
    var log :- if AllCompleted(m.statuses[index := MsCompleted])
               then LogTransition(w.log, id, m.status, Released, m.learner, w.now) else Some(w.log);
    Some(w.(vault := vault, log := log))
  }

  /** Both parties must sign. */
  function DisputeMilestone(w: World, signers: set<Address>, id: nat, index: nat): Option<World> {
    if !(MilestoneOpen(w.vault, id, index)) then None else
    var m := w.vault.milestones[id];
    if !(m.mentor in signers && m.learner in signers) then None else
    var log :- LogTransition(w.log, id, m.status, Disputed, m.learner, w.now);
    Some(w.(log := log, vault := FreezeMilestone(w.vault, id, index)))
  }

  // ---------------------------------------------------------------- configuration and the environment

  function UpdateFee(w: World, caller: Address, bps: nat): Option<World> {
    if !(caller == w.config.admin && bps <= MAX_FEE_BPS) then None else
    Some(w.(config := w.config.(fees := w.config.fees.(feeBps := bps))))
  }

  function SetFeeSchedule(w: World, caller: Address, s: FeeSchedule): Option<World> {
    if !(caller == w.config.admin && ValidSchedule(s)) then None else
    Some(w.(config := w.config.(fees := w.config.fees.(schedule := Some(s)))))
  }

  function SetEmergencySigners(w: World, caller: Address, signers: seq<Address>): Option<World> {
    if !(caller == w.config.admin && |signers| == EMERGENCY_SIGNERS && Distinct(signers)) then None else
    Some(w.(config := w.config.(emergencySigners := Some(signers))))
  }

  function GrantEmergencyAdmin(w: World, caller: Address, who: Address): Option<World> {
    if !(caller == w.config.admin) then None else
    Some(w.(config := w.config.(emergencyAdmin := Some(EmergencyRole(who, w.now + EMERGENCY_ADMIN_TTL_SECS)))))
  }

  /** The remaining admin setters: the admin itself (handover is modelled on its own), treasury, dynamic pricing, whitelist. */
  datatype Setting = NewAdmin(who: Address) | NewTreasury(who: Address) | Dynamic(on: bool) | Approve(token: Address, on: bool)

  function Set(c: Config, s: Setting): Config {
    match s
    case NewAdmin(a) => c.(admin := a)
    case NewTreasury(a) => c.(treasury := a)
    case Dynamic(on) => c.(fees := c.fees.(dynamic := on))
    case Approve(t, on) => c.(approved := if on then c.approved + {t} else c.approved - {t})
  }

  function Configure(w: World, caller: Address, s: Setting): Option<World> {
    if !(s.NewAdmin? || caller == w.config.admin) then None else
    Some(w.(config := Set(w.config, s)))
  }

  function Outside(w: World, token: Address, from: Address, to: Address, amount: int): Option<World> {
    if !(from != SELF) then None else
    var vault :- MoveOutside(w.vault, token, from, to, amount);
    Some(w.(vault := vault))
  }

  // ---------------------------------------------------------------- runs

  datatype Call =
    | CallCreate(mentor: Address, learner: Address, amount: int, session: Symbol, token: Address, sessionEnd: nat, sessions: nat)
    | CallCreateUsd(mentor: Address, learner: Address, amount: int, token: Address, sessions: nat, oracle: OracleReading)
    | CallCreatePath(learner: Address, mentor: Address, sendAsset: Address, sendMax: int, token: Address, amount: int, sessions: nat)
    | CallRelease(caller: Address, id: nat, q: Quote)
    | CallPartial(caller: Address, id: nat, q: Quote)
    | CallBatch(caller: Address, id: nat, sessions: nat, q: Quote)
    | CallAdminRelease(caller: Address, id: nat, q: Quote)
    | CallAutoRelease(id: nat, prechecksOk: bool, q: Quote)
    | CallManualRecovery(caller: Address, id: nat)
    | CallDispute(caller: Address, id: nat, reason: Symbol)
    | CallResolve(caller: Address, id: nat, pct: nat)
    | CallRefund(caller: Address, id: nat)
    | CallIsolate(caller: Address, id: nat)
    | CallLift(caller: Address, id: nat)
    | CallProposeEmergency(caller: Address, id: nat, reason: Symbol)
    | CallApproveEmergency(caller: Address, id: nat)
    | CallExecuteEmergency(caller: Address, id: nat)
    | CallCreateMilestones(mentor: Address, learner: Address, amounts: seq<int>, token: Address)
    | CallCompleteMilestone(caller: Address, id: nat, index: nat, q: Quote)
    | CallDisputeMilestone(signers: set<Address>, id: nat, index: nat)
    | CallUpdateFee(caller: Address, bps: nat)
    | CallSetSchedule(caller: Address, s: FeeSchedule)
    | CallSetEmergencySigners(caller: Address, who: seq<Address>)
    | CallGrantEmergencyAdmin(caller: Address, admin: Address)
    | CallConfigure(caller: Address, setting: Setting)
    | CallOutside(token: Address, from: Address, to: Address, amount: int)
    | CallTimePasses(secs: nat)

  predicate Creates(c: Call) {
    c.CallCreate? || c.CallCreateUsd? || c.CallCreatePath? || c.CallCreateMilestones?
  }

  predicate Releases(c: Call) {
    c.CallRelease? || c.CallPartial? || c.CallBatch? || c.CallAdminRelease? || c.CallAutoRelease? || c.CallManualRecovery?
  }

  predicate Settles(c: Call) {
    || c.CallDispute? || c.CallResolve? || c.CallRefund? || c.CallExecuteEmergency?
    || c.CallCompleteMilestone? || c.CallDisputeMilestone?
  }

  function AttemptCreate(w: World, c: Call): Option<World>
    requires Creates(c)
  {
    match c
    case CallCreate(mentor, learner, amount, session, token, end, n) => CreateEscrow(w, mentor, learner, amount, session, token, end, n)
    case CallCreateUsd(mentor, learner, amount, token, n, oracle) => CreateEscrowUsd(w, mentor, learner, amount, token, n, oracle)
    case CallCreatePath(learner, mentor, send, sendMax, token, amount, n) => CreatePathPayment(w, learner, mentor, send, sendMax, token, amount, n)
    case CallCreateMilestones(mentor, learner, amounts, token) => CreateMilestones(w, mentor, learner, amounts, token)
  }

  function AttemptRelease(w: World, c: Call): Option<World>
    requires Releases(c)
  {
    match c
    case CallRelease(caller, id, q) => ReleaseFunds(w, caller, id, q)
    case CallPartial(caller, id, q) => ReleasePartial(w, caller, id, q)
    case CallBatch(caller, id, n, q) => BatchRelease(w, caller, id, n, q)
    case CallAdminRelease(caller, id, q) => AdminRelease(w, caller, id, q)
    case CallAutoRelease(id, ok, q) => TryAutoRelease(w, id, ok, q)
    case CallManualRecovery(caller, id) => ManualRecovery(w, caller, id)
  }

  function AttemptSettle(w: World, c: Call): Option<World>
    requires Settles(c)
  {
    match c
    case CallDispute(caller, id, reason) => Dispute(w, caller, id, reason)
    case CallResolve(caller, id, pct) => ResolveDispute(w, caller, id, pct)
    case CallRefund(caller, id) => Refund(w, caller, id)
    case CallExecuteEmergency(caller, aid) => (var r :- ExecuteEmergency(w, caller, aid); Some(r.0))
    case CallCompleteMilestone(caller, id, i, q) => CompleteMilestone(w, caller, id, i, q)
    case CallDisputeMilestone(signers, id, i) => DisputeMilestone(w, signers, id, i)
  }

  predicate Configures(c: Call) {
    || c.CallUpdateFee? || c.CallSetSchedule? || c.CallSetEmergencySigners? || c.CallGrantEmergencyAdmin?
    || c.CallConfigure? || c.CallIsolate? || c.CallLift?
  }

  function AttemptConfigure(w: World, c: Call): Option<World>
    requires Configures(c)
  {
    match c
    case CallUpdateFee(caller, bps) => UpdateFee(w, caller, bps)
    case CallSetSchedule(caller, s) => SetFeeSchedule(w, caller, s)
    case CallSetEmergencySigners(caller, who) => SetEmergencySigners(w, caller, who)
    case CallGrantEmergencyAdmin(caller, who) => GrantEmergencyAdmin(w, caller, who)
    case CallConfigure(caller, s) => Configure(w, caller, s)
    case CallIsolate(caller, id) => Isolate(w, caller, id)
    case CallLift(caller, id) => LiftIsolation(w, caller, id)
  }

  /** Emergency voting, other people's transfers, and time. */
  function AttemptOther(w: World, c: Call): Option<World>
    requires !Creates(c) && !Releases(c) && !Settles(c) && !Configures(c)
  {
    match c
    case CallProposeEmergency(caller, id, reason) => ProposeEmergency(w, caller, id, reason)
    case CallApproveEmergency(caller, aid) => ApproveEmergency(w, caller, aid)
    case CallOutside(token, from, to, amount) => Outside(w, token, from, to, amount)
    case CallTimePasses(secs) => Some(w.(now := w.now + secs))
  }

  function Attempt(w: World, c: Call): Option<World> {
    if Creates(c) then AttemptCreate(w, c)
    else if Releases(c) then AttemptRelease(w, c)
    else if Settles(c) then AttemptSettle(w, c)
    else if Configures(c) then AttemptConfigure(w, c)
    else AttemptOther(w, c)
  }

  /** A panic reverts. */
  function Step(w: World, c: Call): World {
    match Attempt(w, c)
    case Some(w') => w'
    case None => w
  }

  function Run(w: World, calls: seq<Call>): World {
    if calls == [] then w else Step(Run(w, calls[..|calls| - 1]), calls[|calls| - 1])
  }

  /** The storage `initialize` leaves behind, on a ledger that may already hold anything. */
  function Genesis(now: nat, bank: Bank, admin: Address, treasury: Address, feeBps: nat, approved: set<Address>,
                   autoReleaseDelay: nat): Option<World>
  {
    if !(feeBps <= MAX_FEE_BPS) then None else
    var delay := if autoReleaseDelay == 0 then 72 * HOUR else autoReleaseDelay;
    var config := Config(admin, treasury, FeeConfig(feeBps, None, true), delay, approved, None, None);
    var surplus := map t | t in (set k <- bank.Keys :: k.0) :: Balance(bank, t, SELF);
    Some(World(now, config, Vault(bank, 0, map[], 0, map[], surplus, map[], map[]),
               {}, {}, map[], map[], map[], {}, map[], map[], Emergency(0, map[], {}, {}, None)))
  }
}
