/** The governance multisig: proposals collect approvals from signers and run once enough have approved. */
module MultisigModel {
  import opened Ledger
  import opened Lists

  const EXPIRY_SECS := 7 * 24 * 3600
  const U32_MAX := 0xFFFF_FFFF
  const U64_MAX := 0xFFFF_FFFF_FFFF_FFFF

  datatype MsError = AlreadyInitialized | NotInitialized | NotSigner | AlreadySigner | ProposalNotFound | AlreadySigned
    | BelowThreshold | AlreadyExecuted | IsCancelled | IsExpired | InvalidThreshold

  datatype Outcome<+T> = Ok(value: T) | Err(error: MsError)

  /** A scheduled call carries its delay and the byte its salt repeats. */
  datatype Action = Nop | AddSigner(who: Address) | RemoveSigner(who: Address) | SetThreshold(threshold: nat)
    | ScheduleTimelock(delay: nat, salt: nat)

  datatype Proposal = Proposal(proposer: Address, approvalCount: nat, expiry: nat, executed: bool, cancelled: bool,
                               signers: set<Address>, action: Action)

  datatype Ms = Ms(ready: bool, threshold: nat, signerCount: nat, proposalCount: nat, signers: set<Address>, proposals: map<nat, Proposal>)

  const EMPTY := Ms(false, 0, 0, 0, {}, map[])

  /** Every operation returns the state it leaves behind, which an error may have changed too. */
  function Init(ms: Ms, signers: seq<Address>, threshold: nat): (Ms, Outcome<()>) {
    if ms.ready then (ms, Err(AlreadyInitialized))
    else if signers == [] || threshold == 0 || threshold > |signers| then (ms, Err(InvalidThreshold))
    else if !Distinct(signers) then (ms, Err(AlreadySigner))
    else (ms.(ready := true, threshold := threshold, signerCount := |signers|, proposalCount := 0, signers := set a | a in signers), Ok(()))
  }

  /** The id is spent even when the expiry does not fit. */
  function Propose(ms: Ms, proposer: Address, now: nat, action: Action): (Ms, Outcome<nat>) {
    if !ms.ready then (ms, Err(NotInitialized))
    else if proposer !in ms.signers then (ms, Err(NotSigner))
    else if ms.proposalCount + 1 > U32_MAX then (ms, Err(NotInitialized))
    else
      var id := ms.proposalCount + 1;
      var counted := ms.(proposalCount := id);
      if now + EXPIRY_SECS > U64_MAX then (counted, Err(NotInitialized))
      else (counted.(proposals := ms.proposals[id := Proposal(proposer, 1, now + EXPIRY_SECS, false, false, {proposer}, action)]), Ok(id))
  }

  /** Why an open proposal is refused, if it is. */
  function Refusal(p: Proposal, now: nat): Outcome<()> {
    if p.executed then Err(AlreadyExecuted)
    else if p.cancelled then Err(IsCancelled)
    else if now > p.expiry then Err(IsExpired)
    else Ok(())
  }

  function Sign(ms: Ms, signer: Address, id: nat, now: nat): (Ms, Outcome<()>) {
    if !ms.ready then (ms, Err(NotInitialized))
    else if signer !in ms.signers then (ms, Err(NotSigner))
    else if id !in ms.proposals then (ms, Err(ProposalNotFound))
    else
      var p := ms.proposals[id];
      if Refusal(p, now).Err? then (ms, Err(Refusal(p, now).error))
      else if signer in p.signers then (ms, Err(AlreadySigned))
      else (ms.(proposals := ms.proposals[id := p.(signers := p.signers + {signer}, approvalCount := p.approvalCount + 1)]), Ok(()))
  }

  /** What an executed action does to the multisig itself. */
  function Apply(ms: Ms, action: Action): (Ms, Outcome<()>) {
    match action
    case AddSigner(a) =>
      if a in ms.signers then (ms, Err(AlreadySigner))
      else (ms.(signers := ms.signers + {a}, signerCount := ms.signerCount + 1), Ok(()))
    case RemoveSigner(a) =>
      if a !in ms.signers then (ms, Err(NotSigner))
      else if ms.signerCount < ms.threshold + 1 then (ms, Err(InvalidThreshold))
      else (ms.(signers := ms.signers - {a}, signerCount := ms.signerCount - 1), Ok(()))
    case SetThreshold(t) =>
      if t == 0 || t > ms.signerCount then (ms, Err(InvalidThreshold)) else (ms.(threshold := t), Ok(()))
    case _ => (ms, Ok(()))
  }

  /** The proposal counts as executed even when its action is then refused. Anyone may call this. */
  function Execute(ms: Ms, id: nat, now: nat): (Ms, Outcome<Action>) {
    if !ms.ready then (ms, Err(NotInitialized))
    else if id !in ms.proposals then (ms, Err(ProposalNotFound))
    else
      var p := ms.proposals[id];
      if Refusal(p, now).Err? then (ms, Err(Refusal(p, now).error))
      else if p.approvalCount < ms.threshold then (ms, Err(BelowThreshold))
      else
        var (ms', r) := Apply(ms.(proposals := ms.proposals[id := p.(executed := true)]), p.action);
        (ms', if r.Ok? then Ok(p.action) else Err(r.error))
  }

  function Cancel(ms: Ms, caller: Address, id: nat, now: nat): (Ms, Outcome<()>) {
    if !ms.ready then (ms, Err(NotInitialized))
    else if id !in ms.proposals then (ms, Err(ProposalNotFound))
    else
      var p := ms.proposals[id];
      if p.proposer != caller && caller !in ms.signers then (ms, Err(NotSigner))
      else if Refusal(p, now).Err? then (ms, Err(Refusal(p, now).error))
      else (ms.(proposals := ms.proposals[id := p.(cancelled := true)]), Ok(()))
  }

  // ---------------------------------------------------------------- invariant

  predicate ProposalOk(p: Proposal) {
    p.approvalCount == |p.signers| && !(p.executed && p.cancelled)
  }

  ghost predicate MsOk(ms: Ms) {
    && (ms.ready ==> 1 <= ms.threshold <= ms.signerCount)
    && ms.signerCount == |ms.signers|
    && (!ms.ready ==> ms.proposals == map[] && ms.proposalCount == 0)
    && forall id :: id in ms.proposals ==> 1 <= id <= ms.proposalCount && ProposalOk(ms.proposals[id])
  }

  lemma ApplyKeeps(ms: Ms, action: Action)
    requires MsOk(ms) && ms.ready
    ensures MsOk(Apply(ms, action).0) && Apply(ms, action).0.ready && Apply(ms, action).0.proposals == ms.proposals
  {
  }

  lemma ExecuteKeeps(ms: Ms, id: nat, now: nat)
    requires MsOk(ms)
    ensures MsOk(Execute(ms, id, now).0)
  {
    if ms.ready && id in ms.proposals && Refusal(ms.proposals[id], now).Ok? {
      ApplyKeeps(ms.(proposals := ms.proposals[id := ms.proposals[id].(executed := true)]), ms.proposals[id].action);
    }
  }

  /** An execution that gets through marks exactly its own proposal, which was open and sufficiently approved. */
  lemma ExecuteShape(ms: Ms, id: nat, now: nat)
    ensures var ms' := Execute(ms, id, now).0;
      && ms'.ready == ms.ready && ms'.proposalCount == ms.proposalCount
      && (|| (ms'.proposals == ms.proposals && Execute(ms, id, now).1.Err?)
          || (&& id in ms.proposals && !ms.proposals[id].executed && !ms.proposals[id].cancelled
              && ms.threshold <= ms.proposals[id].approvalCount && now <= ms.proposals[id].expiry && ms.ready
              && ms'.proposals == ms.proposals[id := ms.proposals[id].(executed := true)]))
  {
  }

  /** Enacting the action of a proposal would change signers or threshold. */
  predicate ChangesMembers(ms: Ms, action: Action) {
    match action
    case AddSigner(a) => a !in ms.signers
    case RemoveSigner(a) => a in ms.signers && ms.threshold < |ms.signers|
    case SetThreshold(t) => 0 < t <= |ms.signers| && t != ms.threshold
    case _ => false
  }

  /** A proposal with as many distinct approvers as the threshold asks for, open and unexpired, that changes signers or threshold. */
  predicate Reforms(ms: Ms, id: nat, now: nat) {
    && id in ms.proposals && !ms.proposals[id].executed && !ms.proposals[id].cancelled && now <= ms.proposals[id].expiry
    && ms.threshold <= |ms.proposals[id].signers| && ChangesMembers(ms, ms.proposals[id].action)
  }

  /** Signers and threshold after such a proposal. */
  predicate Reformed(ms: Ms, ms': Ms, action: Action) {
    && ms'.signers == (if action.AddSigner? then ms.signers + {action.who} else if action.RemoveSigner? then ms.signers - {action.who} else ms.signers)
    && ms'.threshold == (if action.SetThreshold? then action.threshold else ms.threshold)
  }

  lemma ExecuteReformsIff(ms: Ms, id: nat, now: nat)
    requires MsOk(ms) && ms.ready
    ensures var ms' := Execute(ms, id, now).0; var changed := ms'.signers != ms.signers || ms'.threshold != ms.threshold;
      && (changed <==> Reforms(ms, id, now))
      && (changed ==> Reformed(ms, ms', ms.proposals[id].action))
  {
    if id in ms.proposals {
      var a := ms.proposals[id].action;
      if a.AddSigner? && a.who !in ms.signers {
        assert a.who in ms.signers + {a.who};
      } else if a.RemoveSigner? && a.who in ms.signers {
        assert a.who !in ms.signers - {a.who};
      }
    }
  }

  // ---------------------------------------------------------------- the approval count

  /** What the harness asserts after every step: no proposal has more approvals than there are signers. */
  ghost predicate CountsWithinSigners(ms: Ms) {
    forall id :: id in ms.proposals ==> ms.proposals[id].approvalCount <= |ms.signers|
  }

  /** Signing goes through on a proposal that already has as many approvals as there are signers. */
  predicate SignBreaks(ms: Ms, signer: Address, id: nat, now: nat) {
    && ms.ready && signer in ms.signers
    && id in ms.proposals && Refusal(ms.proposals[id], now).Ok? && signer !in ms.proposals[id].signers
    && ms.proposals[id].approvalCount == |ms.signers|
  }

  /** A removal goes through while some proposal has as many approvals as there are signers. */
  ghost predicate ExecuteBreaks(ms: Ms, id: nat, now: nat) {
    && ms.ready && id in ms.proposals && Refusal(ms.proposals[id], now).Ok? && ms.proposals[id].approvalCount >= ms.threshold
    && ms.proposals[id].action.RemoveSigner? && ms.proposals[id].action.who in ms.signers && ms.signerCount > ms.threshold
    && exists k :: k in ms.proposals && ms.proposals[k].approvalCount == |ms.signers|
  }

  lemma SignKeepsCountsIff(ms: Ms, signer: Address, id: nat, now: nat)
    requires MsOk(ms) && CountsWithinSigners(ms)
    ensures CountsWithinSigners(Sign(ms, signer, id, now).0) <==> !SignBreaks(ms, signer, id, now)
  {
    if Sign(ms, signer, id, now).1.Ok? {
      assert id in Sign(ms, signer, id, now).0.proposals;
    }
  }

  lemma RemovalKeepsCountsIff(ms: Ms, who: Address)
    requires CountsWithinSigners(ms) && who in ms.signers
    ensures CountsWithinSigners(ms.(signers := ms.signers - {who}, signerCount := if ms.signerCount > 0 then ms.signerCount - 1 else 0))
      <==> !exists k :: k in ms.proposals && ms.proposals[k].approvalCount == |ms.signers|
  {
    assert |ms.signers - {who}| == |ms.signers| - 1;
  }

  lemma ExecuteKeepsCountsIff(ms: Ms, id: nat, now: nat)
    requires MsOk(ms) && CountsWithinSigners(ms)
    ensures CountsWithinSigners(Execute(ms, id, now).0) <==> !ExecuteBreaks(ms, id, now)
  {
    if ms.ready && id in ms.proposals && Refusal(ms.proposals[id], now).Ok? && ms.proposals[id].approvalCount >= ms.threshold {
      var marked := ms.(proposals := ms.proposals[id := ms.proposals[id].(executed := true)]);
      assert forall k :: k in ms.proposals ==> marked.proposals[k].approvalCount == ms.proposals[k].approvalCount;
      match ms.proposals[id].action
      case RemoveSigner(who) =>
        if who in ms.signers {
          RemovalKeepsCountsIff(marked, who);
        }
      case AddSigner(who) =>
        if who !in ms.signers {
          StrictlyFewer(ms.signers, ms.signers + {who}, who);
        }
      case _ =>
    }
  }

  lemma OtherCallsKeepCounts(ms: Ms, signers: seq<Address>, threshold: nat, who: Address, id: nat, now: nat, action: Action)
    requires MsOk(ms) && CountsWithinSigners(ms)
    ensures CountsWithinSigners(Init(ms, signers, threshold).0)
    ensures CountsWithinSigners(Propose(ms, who, now, action).0)
    ensures CountsWithinSigners(Cancel(ms, who, id, now).0)
  {
  }

  /** Signing breaks the assertion only where an approver has left before. */
  lemma BreakingSignFollowsDeparture(ms: Ms, signer: Address, id: nat, now: nat)
    requires MsOk(ms) && SignBreaks(ms, signer, id, now)
    ensures exists a :: a in ms.proposals[id].signers && a !in ms.signers
  {
    var p := ms.proposals[id];
    assert ProposalOk(p);
    if p.signers <= ms.signers {
      StrictlyFewer(p.signers, ms.signers, signer);
    }
  }

  lemma StrictlyFewer(a: set<Address>, b: set<Address>, x: Address)
    requires a <= b && x in b && x !in a
    ensures |a| < |b|
  {
    assert b == (b - a) + a && x in b - a;
  }

  /** Removing a signer who has approved leaves more approvals than signers: two signers, then one. */
  lemma CountOutgrowsSigners(a: Address, b: Address, now: nat)
    requires a != b && now + EXPIRY_SECS <= U64_MAX
    ensures var s1 := Propose(Init(EMPTY, [a, b], 1).0, a, now, Nop).0;
      var s2 := Propose(Sign(s1, b, 1, now).0, a, now, RemoveSigner(b)).0;
      var s3 := Execute(s2, 2, now).0;
      1 in s3.proposals && s3.proposals[1].approvalCount == 2 && s3.signerCount == 1
  {
    var s0 := Init(EMPTY, [a, b], 1).0;
    assert s0.signers == {a, b};
    var s1 := Propose(s0, a, now, Nop).0;
    assert s1.proposals[1] == Proposal(a, 1, now + EXPIRY_SECS, false, false, {a}, Nop);
    var s2 := Sign(s1, b, 1, now).0;
    assert s2.proposals[1].approvalCount == 2;
    var s3 := Propose(s2, a, now, RemoveSigner(b)).0;
    assert s3.proposals[2] == Proposal(a, 1, now + EXPIRY_SECS, false, false, {a}, RemoveSigner(b));
  }

  /** Signing can be the breaking step: a approves and is removed, which does no harm yet, and then b and c approve. */
  lemma SigningOutgrowsSigners(a: Address, b: Address, c: Address, now: nat)
    requires a != b && b != c && a != c && now + EXPIRY_SECS <= U64_MAX
    ensures var s1 := Propose(Init(EMPTY, [a, b, c], 1).0, a, now, Nop).0;
      var s2 := Execute(Propose(s1, b, now, RemoveSigner(a)).0, 2, now).0;
      var s3 := Sign(s2, b, 1, now).0;
      CountsWithinSigners(s2) && CountsWithinSigners(s3) && SignBreaks(s3, c, 1, now)
  {
    var s0 := Init(EMPTY, [a, b, c], 1).0;
    assert s0.signers == {a, b, c};
    var s1 := Propose(s0, a, now, Nop).0;
    assert s1.proposals == map[1 := Proposal(a, 1, now + EXPIRY_SECS, false, false, {a}, Nop)];
    var q := Proposal(b, 1, now + EXPIRY_SECS, false, false, {b}, RemoveSigner(a));
    var s2 := Execute(Propose(s1, b, now, RemoveSigner(a)).0, 2, now).0;
    assert s2.signers == {b, c} && s2.proposals == s1.proposals[2 := q.(executed := true)];
    var s3 := Sign(s2, b, 1, now).0;
    assert s3.proposals[1].approvalCount == 2 && s3.proposals[1].signers == {a, b};
  }
}

/** The timelock: operations under 32-byte ids, runnable once inside a window after their delay. */
module TimelockModel {
  import opened Ledger

  const MIN_DELAY := 48 * 3600
  const MAX_DELAY := 30 * 24 * 3600
  const OP_EXPIRY := 14 * 24 * 3600
  const TOLERANCE := 60
  const U64_MAX := 0xFFFF_FFFF_FFFF_FFFF

  /** 32 bytes. */
  type OpId = seq<nat>

  datatype TlOp = TlOp(proposer: Address, readyAt: nat, done: bool)

  datatype Tl = Tl(ready: bool, admin: Address, opCount: nat, ops: map<OpId, TlOp>)

  const EMPTY := Tl(false, Address(0), 0, map[])

  // ---------------------------------------------------------------- operation ids

  function Power256(k: nat): nat {
    if k == 0 then 1 else 256 * Power256(k - 1)
  }

  /** The k low bytes of n, least significant first. */
  function LittleEndian(n: nat, k: nat): (b: seq<nat>)
    ensures |b| == k && forall i :: 0 <= i < k ==> b[i] < 256
  {
    if k == 0 then [] else [n % 256] + LittleEndian(n / 256, k - 1)
  }

  function Value(b: seq<nat>): nat {
    if b == [] then 0 else b[0] + 256 * Value(b[1..])
  }

  lemma {:induction false} LittleEndianRoundTrip(n: nat, k: nat)
    requires n < Power256(k)
    ensures Value(LittleEndian(n, k)) == n
  {
    if k > 0 {
      LittleEndianRoundTrip(n / 256, k - 1);
      assert LittleEndian(n, k)[1..] == LittleEndian(n / 256, k - 1);
    }
  }

  function WordSize(): (n: nat)
    ensures n == 8
  {
    8
  }

  function Word(n: nat): (b: seq<nat>)
    ensures |b| == 8 && forall i :: 0 <= i < 8 ==> b[i] < 256
  {
    LittleEndian(n, WordSize())
  }

  /** Caller, ready time and nonce occupy disjoint bytes, so the exclusive-ors of the source are placements. */
  function RawId(caller: Address, readyAt: nat, nonce: nat): (b: seq<nat>)
    ensures |b| == 32 && forall i :: 0 <= i < 32 ==> b[i] < 256
  {
    Word(caller.id) + Word(readyAt) + Word(nonce) + Word(0)
  }

  /** Then the salt is added byte by byte, wrapping. */
  function MakeId(caller: Address, readyAt: nat, nonce: nat, salt: seq<nat>): OpId
    requires |salt| == 32
  {
    seq(32, i requires 0 <= i < 32 => (RawId(caller, readyAt, nonce)[i] + salt[i]) % 256)
  }

  /** The salts a proposal can carry repeat one byte. */
  function Uniform(b: nat): (salt: seq<nat>)
    ensures |salt| == 32
  {
    seq(32, _ => b)
  }

  /** Read eight bytes back, taking the last byte of the id for the salt. */
  function Field(id: OpId, at: nat): seq<nat>
    requires |id| == 32 && at + 8 <= 32
  {
    seq(8, i requires 0 <= i < 8 => (id[at + i] + 256 - id[31] % 256) % 256)
  }

  function NonceOf(id: OpId): nat {
    if |id| == 32 then Value(Field(id, 16)) else 0
  }

  lemma ByteBack(x: nat, b: nat)
    requires x < 256
    ensures ((x + b) % 256 + 256 - b % 256) % 256 == x
  {
  }

  lemma {:induction false} Zeros(k: nat)
    ensures forall i :: 0 <= i < k ==> LittleEndian(0, k)[i] == 0
  {
    if k > 0 {
      Zeros(k - 1);
    }
  }

  lemma FieldBack(caller: Address, readyAt: nat, nonce: nat, b: nat, at: nat)
    requires at + 8 <= 32
    ensures Field(MakeId(caller, readyAt, nonce, Uniform(b)), at) == RawId(caller, readyAt, nonce)[at..at + 8]
  {
    var raw := RawId(caller, readyAt, nonce);
    var id := MakeId(caller, readyAt, nonce, Uniform(b));
    Zeros(WordSize());
    assert raw[31] == Word(0)[7];
    assert id[31] == b % 256;
    forall i | 0 <= i < 8
      ensures Field(id, at)[i] == raw[at..at + 8][i]
    {
      ByteBack(raw[at + i], b);
    }
  }

  /** Under a uniform salt an id determines its nonce, ready time and caller: ids never collide. */
  lemma IdRoundTrip(caller: Address, readyAt: nat, nonce: nat, b: nat)
    requires caller.id <= U64_MAX && readyAt <= U64_MAX && nonce <= U64_MAX
    ensures var id := MakeId(caller, readyAt, nonce, Uniform(b));
      NonceOf(id) == nonce && Value(Field(id, 8)) == readyAt && Value(Field(id, 0)) == caller.id
  {
    assert Power256(8) == U64_MAX + 1;
    FieldBack(caller, readyAt, nonce, b, 0);
    FieldBack(caller, readyAt, nonce, b, 8);
    FieldBack(caller, readyAt, nonce, b, 16);
    var raw := RawId(caller, readyAt, nonce);
    assert raw[0..8] == Word(caller.id) && raw[8..16] == Word(readyAt) && raw[16..24] == Word(nonce);
    LittleEndianRoundTrip(caller.id, WordSize());
    LittleEndianRoundTrip(readyAt, WordSize());
    LittleEndianRoundTrip(nonce, WordSize());
  }

  // ---------------------------------------------------------------- operations

  function Init(tl: Tl, admin: Address): Tl {
    if tl.ready then tl else tl.(ready := true, admin := admin, opCount := 0)
  }

  datatype Scheduled = Refused | Scheduled(id: OpId, readyAt: nat)

  /** The nonce is spent even when the ready time does not fit; an equal id would be overwritten. */
  function Schedule(tl: Tl, caller: Address, delay: nat, salt: seq<nat>, now: nat): (Tl, Scheduled)
    requires |salt| == 32
  {
    if !tl.ready || delay < MIN_DELAY || delay > MAX_DELAY || tl.opCount + 1 > U64_MAX then (tl, Refused)
    else
      var counted := tl.(opCount := tl.opCount + 1);
      if now + delay > U64_MAX then (counted, Refused)
      else
        var id := MakeId(caller, now + delay, counted.opCount, salt);
        (counted.(ops := tl.ops[id := TlOp(caller, now + delay, false)]), Scheduled(id, now + delay))
  }

  function SaturatingAdd(a: nat, b: nat): nat {
    if a + b > U64_MAX then U64_MAX else a + b
  }

  predicate Runnable(op: TlOp, now: nat) {
    && !op.done && now >= SaturatingAdd(op.readyAt, TOLERANCE)
    && op.readyAt + OP_EXPIRY <= U64_MAX && now < op.readyAt + OP_EXPIRY
  }

  function Execute(tl: Tl, id: OpId, now: nat): (Tl, bool) {
    if id !in tl.ops || !Runnable(tl.ops[id], now) then (tl, false)
    else (tl.(ops := tl.ops[id := tl.ops[id].(done := true)]), true)
  }

  function Cancel(tl: Tl, caller: Address, id: OpId): (Tl, bool) {
    if id !in tl.ops || tl.ops[id].done || (caller != tl.ops[id].proposer && caller != tl.admin) then (tl, false)
    else (tl.(ops := tl.ops - {id}), true)
  }

  lemma SmallNumber(n: nat, k: nat)
    requires n < 256 && k > 0
    ensures LittleEndian(n, k) == [n] + LittleEndian(0, k - 1)
  {
  }

  lemma RawBytes(caller: Address, readyAt: nat, n: nat, i: nat)
    requires n < 256 && i < 32
    ensures RawId(caller, readyAt, n)[i] == if i == 16 then n else RawId(caller, readyAt, 0)[i]
  {
    SmallNumber(n, WordSize());
    SmallNumber(0, WordSize());
    if 16 <= i < 24 {
      assert RawId(caller, readyAt, n)[i] == Word(n)[i - 16];
      assert RawId(caller, readyAt, 0)[i] == Word(0)[i - 16];
    }
  }

  /** Two ids of one caller at one ready time are equal exactly when the salts agree off the nonce and make up for it on the nonce. */
  predicate SaltsMakeUp(n1: nat, salt1: seq<nat>, n2: nat, salt2: seq<nat>)
    requires |salt1| == |salt2| == 32
  {
    forall i :: 0 <= i < 32 ==>
      if 16 <= i < 24 then (Word(n1)[i - 16] + salt1[i]) % 256 == (Word(n2)[i - 16] + salt2[i]) % 256 else salt1[i] % 256 == salt2[i] % 256
  }

  lemma ByteSums(x: nat, a: nat, b: nat)
    requires x < 256
    ensures (x + a) % 256 == (x + b) % 256 <==> a % 256 == b % 256
  {
    ByteBack(x, a);
    ByteBack(x, b);
    SameByteShift(x, a, b);
  }

  lemma SameByteShift(x: nat, a: nat, b: nat)
    ensures (x + a) % 256 == (x + b) % 256 <==> a % 256 == b % 256
  {
  }

  lemma RawBytesOff(caller: Address, readyAt: nat, n1: nat, n2: nat, i: nat)
    requires i < 32
    ensures 16 <= i < 24 ==> RawId(caller, readyAt, n1)[i] == Word(n1)[i - 16]
    ensures !(16 <= i < 24) ==> RawId(caller, readyAt, n1)[i] == RawId(caller, readyAt, n2)[i]
  {
  }

  lemma SameIdIff(caller: Address, readyAt: nat, n1: nat, salt1: seq<nat>, n2: nat, salt2: seq<nat>)
    requires |salt1| == |salt2| == 32
    ensures MakeId(caller, readyAt, n1, salt1) == MakeId(caller, readyAt, n2, salt2) <==> SaltsMakeUp(n1, salt1, n2, salt2)
  {
    var a, b := MakeId(caller, readyAt, n1, salt1), MakeId(caller, readyAt, n2, salt2);
    forall i | 0 <= i < 32
      ensures a[i] == b[i] <==>
        if 16 <= i < 24 then (Word(n1)[i - 16] + salt1[i]) % 256 == (Word(n2)[i - 16] + salt2[i]) % 256 else salt1[i] % 256 == salt2[i] % 256
    {
      RawBytesOff(caller, readyAt, n1, n2, i);
      RawBytesOff(caller, readyAt, n2, n1, i);
      ByteSums(RawId(caller, readyAt, n1)[i], salt1[i], salt2[i]);
    }
    if SaltsMakeUp(n1, salt1, n2, salt2) {
      assert a == b;
    } else {
      assert a != b;
    }
  }

  /** Salts that agree on the nonce bytes keep all ids apart, whoever schedules and whenever. */
  lemma IdsDifferWhenSaltsAgree(c1: Address, r1: nat, n1: nat, salt1: seq<nat>, c2: Address, r2: nat, n2: nat, salt2: seq<nat>)
    requires |salt1| == |salt2| == 32 && n1 != n2 && n1 <= U64_MAX && n2 <= U64_MAX
    requires forall i :: 16 <= i < 24 ==> salt1[i] % 256 == salt2[i] % 256
    ensures MakeId(c1, r1, n1, salt1) != MakeId(c2, r2, n2, salt2)
  {
    var a, b := MakeId(c1, r1, n1, salt1), MakeId(c2, r2, n2, salt2);
    if a == b {
      forall k | 0 <= k < 8
        ensures Word(n1)[k] == Word(n2)[k]
      {
        RawBytesOff(c1, r1, n1, n2, 16 + k);
        RawBytesOff(c2, r2, n2, n1, 16 + k);
        assert a[16 + k] == b[16 + k];
        SameByte(Word(n1)[k], salt1[16 + k], Word(n2)[k], salt2[16 + k]);
      }
      assert Word(n1) == Word(n2);
      assert Power256(8) == U64_MAX + 1;
      LittleEndianRoundTrip(n1, WordSize());
      LittleEndianRoundTrip(n2, WordSize());
    }
  }

  lemma SameByte(x: nat, a: nat, y: nat, b: nat)
    requires x < 256 && y < 256 && a % 256 == b % 256 && (x + a) % 256 == (y + b) % 256
    ensures x == y
  {
    ByteBack(x, a);
    ByteBack(y, b);
  }

  /** A salt can make up for the nonce. */
  lemma SaltedIdsCollide(caller: Address, readyAt: nat)
    ensures MakeId(caller, readyAt, 1, Uniform(0)[16 := 2]) == MakeId(caller, readyAt, 2, Uniform(0)[16 := 1])
  {
    var a, b := MakeId(caller, readyAt, 1, Uniform(0)[16 := 2]), MakeId(caller, readyAt, 2, Uniform(0)[16 := 1]);
    forall i | 0 <= i < 32
      ensures a[i] == b[i]
    {
      RawBytes(caller, readyAt, 1, i);
      RawBytes(caller, readyAt, 2, i);
    }
  }

  /** Arbitrary salts do collide: a second operation can take the id, and the place, of the first. */
  lemma SaltsCollide(caller: Address, now: nat)
    requires now + MIN_DELAY <= U64_MAX
    ensures var tl := Init(EMPTY, caller);
      var first := Schedule(tl, caller, MIN_DELAY, Uniform(0)[16 := 2], now);
      var second := Schedule(first.0, caller, MIN_DELAY, Uniform(0)[16 := 1], now);
      first.1.Scheduled? && second.1.Scheduled? && first.1.id == second.1.id && second.0.ops == first.0.ops
  {
    SaltedIdsCollide(caller, now + MIN_DELAY);
  }
}

/** The two machines together: an executed proposal can schedule a timelock operation. */
module GovernanceSystem {
  import opened Ledger
  import opened Lists
  import Ms = MultisigModel
  import Tl = TimelockModel

  type OpId = Tl.OpId

  /** How a proposal came to be executed: when, at which threshold, and by whose approvals. */
  datatype Approval = Approval(at: nat, threshold: nat, approvers: set<Address>)

  datatype Execution = Execution(op: OpId, at: nat)

  /** History: who was a signer at each vote, each proposal's execution, each operation's proposal, each timelock execution. */
  datatype Trace = Trace(votes: map<(nat, Address), set<Address>>, approved: map<nat, Approval>, origin: map<OpId, nat>, runs: seq<Execution>)

  datatype Sys = Sys(ms: Ms.Ms, tl: Tl.Tl, clock: nat, slots: seq<OpId>, trace: Trace)

  datatype Op =
    | InitMs(signers: seq<Address>, threshold: nat)
    | InitTl(admin: Address)
    | MsPropose(proposer: Address, action: Ms.Action)
    | MsSign(signer: Address, pid: nat)
    | MsExecute(pid: nat)
    | MsCancel(caller: Address, pid: nat)
    | TlSchedule(caller: Address, delay: nat, salt: nat)
    | TlExecute(slot: nat)
    | TlCancel(caller: Address, slot: nat)
    | AdvanceClock(secs: nat)

  const GOVERNANCE := SELF

  function Initial(clock: nat): Sys {
    Sys(Ms.EMPTY, Tl.EMPTY, clock, [], Trace(map[], map[], map[], []))
  }

  function Vote(s: Sys, ms: Ms.Ms, pid: nat, voter: Address): Sys {
    s.(ms := ms, trace := s.trace.(votes := s.trace.votes[(pid, voter) := s.ms.signers]))
  }

  function StepPropose(s: Sys, proposer: Address, action: Ms.Action): Sys {
    var (ms, r) := Ms.Propose(s.ms, proposer, s.clock, action);
    if r.Ok? then Vote(s, ms, r.value, proposer) else s.(ms := ms)
  }

  function StepSign(s: Sys, signer: Address, pid: nat): Sys {
    var (ms, r) := Ms.Sign(s.ms, signer, pid, s.clock);
    if r.Ok? then Vote(s, ms, pid, signer) else s.(ms := ms)
  }

  /** Put an operation in the timelock and remember its id. */
  function StepSchedule(s: Sys, caller: Address, delay: nat, salt: nat): Sys {
    var (tl, r) := Tl.Schedule(s.tl, caller, delay, Tl.Uniform(salt), s.clock);
    if r.Refused? then s.(tl := tl) else s.(tl := tl, slots := s.slots + [r.id])
  }

  predicate NewlyExecuted(before: Ms.Ms, after: Ms.Ms, pid: nat) {
    pid in before.proposals && pid in after.proposals && !before.proposals[pid].executed && after.proposals[pid].executed
  }

  /** The multisig half of an execution. */
  function StepApprove(s: Sys, pid: nat): Sys {
    var ms := Ms.Execute(s.ms, pid, s.clock).0;
    if !NewlyExecuted(s.ms, ms, pid) then s.(ms := ms)
    else s.(ms := ms, trace := s.trace.(approved := s.trace.approved[pid := Approval(s.clock, s.ms.threshold, s.ms.proposals[pid].signers)]))
  }

  /** An accepted scheduling action goes straight to the timelock, in the name of the governance contract. */
  function StepExecute(s: Sys, pid: nat): Sys {
    var r := Ms.Execute(s.ms, pid, s.clock).1;
    var s1 := StepApprove(s, pid);
    if r.Ok? && r.value.ScheduleTimelock? then StepScheduleFor(s1, pid, r.value.delay, r.value.salt) else s1
  }

  function StepScheduleFor(s: Sys, pid: nat, delay: nat, salt: nat): Sys {
    var s' := StepSchedule(s, GOVERNANCE, delay, salt);
    if |s'.slots| > |s.slots| then s'.(trace := s'.trace.(origin := s'.trace.origin[s'.slots[|s'.slots| - 1] := pid])) else s'
  }

  function Slot(s: Sys, slot: nat): OpId
    requires s.slots != []
  {
    s.slots[slot % |s.slots|]
  }

  function StepRun(s: Sys, slot: nat): Sys {
    if s.slots == [] then s
    else
      var (tl, ran) := Tl.Execute(s.tl, Slot(s, slot), s.clock);
      if ran then s.(tl := tl, trace := s.trace.(runs := s.trace.runs + [Execution(Slot(s, slot), s.clock)])) else s
  }

  function Step(s: Sys, op: Op): Sys {
    match op
    case InitMs(signers, threshold) => s.(ms := Ms.Init(s.ms, signers, threshold).0)
    case InitTl(admin) => s.(tl := Tl.Init(s.tl, admin))
    case MsPropose(proposer, action) => StepPropose(s, proposer, action)
    case MsSign(signer, pid) => StepSign(s, signer, pid)
    case MsExecute(pid) => StepExecute(s, pid)
    case MsCancel(caller, pid) => s.(ms := Ms.Cancel(s.ms, caller, pid, s.clock).0)
    case TlSchedule(caller, delay, salt) => StepSchedule(s, caller, delay, salt)
    case TlExecute(slot) => StepRun(s, slot)
    case TlCancel(caller, slot) => if s.slots == [] then s else s.(tl := Tl.Cancel(s.tl, caller, Slot(s, slot)).0)
    case AdvanceClock(secs) => s.(clock := Tl.SaturatingAdd(s.clock, secs))
  }

  /** Addresses and clocks are 64-bit numbers. */
  predicate WellTyped(op: Op) {
    op.TlSchedule? ==> op.caller.id <= Tl.U64_MAX
  }

  function Run(s: Sys, ops: seq<Op>): Sys {
    if ops == [] then s else Step(Run(s, ops[..|ops| - 1]), ops[|ops| - 1])
  }

  // ---------------------------------------------------------------- invariants

  /** The approvers of a proposal are exactly those who voted on it, each as a signer of the time. */
  ghost predicate VotesOk(s: Sys) {
    && (forall k :: k in s.trace.votes ==> k.0 in s.ms.proposals && k.1 in s.trace.votes[k])
    && (forall pid, a :: pid in s.ms.proposals ==> (a in s.ms.proposals[pid].signers <==> (pid, a) in s.trace.votes))
  }

  ghost predicate ApprovedOk(s: Sys) {
    forall pid :: pid in s.trace.approved ==>
      var ap := s.trace.approved[pid];
      && pid in s.ms.proposals && s.ms.proposals[pid].executed && ap.approvers == s.ms.proposals[pid].signers
      && 1 <= ap.threshold <= |ap.approvers|
  }

  /** Ids are never reused because nonces only grow. */
  ghost predicate OpsOk(s: Sys) {
    && s.clock <= Tl.U64_MAX && s.tl.opCount <= Tl.U64_MAX
    && (!s.tl.ready ==> s.tl.ops == map[] && s.trace.runs == [] && s.trace.origin == map[])
    && (forall id :: id in s.tl.ops ==> Tl.NonceOf(id) <= s.tl.opCount)
    && (forall id :: id in s.trace.origin ==> Tl.NonceOf(id) <= s.tl.opCount)
  }

  /** A proposal yields one operation at most, ready no sooner than the minimum delay after its execution. */
  ghost predicate OriginsOk(s: Sys) {
    && (forall id :: id in s.trace.origin ==>
          && s.trace.origin[id] in s.trace.approved
          && (id in s.tl.ops ==>
                s.trace.approved[s.trace.origin[id]].at + Tl.MIN_DELAY <= s.tl.ops[id].readyAt
                  <= s.trace.approved[s.trace.origin[id]].at + Tl.MAX_DELAY))
    && (forall i, j :: i in s.trace.origin && j in s.trace.origin && i != j ==> s.trace.origin[i] != s.trace.origin[j])
  }

  ghost predicate RunsOk(s: Sys) {
    && (forall k :: 0 <= k < |s.trace.runs| ==>
          var r := s.trace.runs[k];
          && r.op in s.tl.ops && s.tl.ops[r.op].done
          && s.tl.ops[r.op].readyAt + Tl.TOLERANCE <= r.at < s.tl.ops[r.op].readyAt + Tl.OP_EXPIRY)
    && (forall j, k :: 0 <= j < k < |s.trace.runs| ==> s.trace.runs[j].op != s.trace.runs[k].op)
  }

  ghost predicate SysOk(s: Sys) {
    Ms.MsOk(s.ms) && VotesOk(s) && ApprovedOk(s) && OpsOk(s) && OriginsOk(s) && RunsOk(s)
  }

  // ---------------------------------------------------------------- steps

  lemma InitKeeps(s: Sys, signers: seq<Address>, threshold: nat)
    requires SysOk(s)
    ensures SysOk(Step(s, InitMs(signers, threshold)))
  {
    if Ms.Init(s.ms, signers, threshold).1.Ok? {
      DistinctIff(signers);
    }
  }

  lemma ProposeKeeps(s: Sys, proposer: Address, action: Ms.Action)
    requires SysOk(s)
    ensures SysOk(StepPropose(s, proposer, action))
  {
    var s' := StepPropose(s, proposer, action);
    if Ms.Propose(s.ms, proposer, s.clock, action).1.Ok? {
      assert s.ms.proposalCount + 1 !in s.ms.proposals;
    }
  }

  lemma SignKeeps(s: Sys, signer: Address, pid: nat)
    requires SysOk(s)
    ensures SysOk(StepSign(s, signer, pid))
  {
    if Ms.Sign(s.ms, signer, pid, s.clock).1.Ok? {
      assert Ms.ProposalOk(s.ms.proposals[pid]);
      assert Ms.ProposalOk(StepSign(s, signer, pid).ms.proposals[pid]);
    }
  }

  lemma ApproveKeeps(s: Sys, pid: nat)
    requires SysOk(s)
    ensures SysOk(StepApprove(s, pid))
  {
    Ms.ExecuteKeeps(s.ms, pid, s.clock);
    Ms.ExecuteShape(s.ms, pid, s.clock);
    ApproveTrace(s, StepApprove(s, pid), pid);
  }

  /** What the record of an execution needs to know about it. */
  lemma ApproveTrace(s: Sys, s': Sys, pid: nat)
    requires SysOk(s) && Ms.MsOk(s'.ms)
    requires s' == s.(ms := s'.ms, trace := s.trace.(approved := s'.trace.approved))
    requires || (s'.ms.proposals == s.ms.proposals && s'.trace.approved == s.trace.approved)
             || (&& pid in s.ms.proposals && !s.ms.proposals[pid].executed && s.ms.ready
                 && s.ms.threshold <= s.ms.proposals[pid].approvalCount
                 && s'.ms.proposals == s.ms.proposals[pid := s.ms.proposals[pid].(executed := true)]
                 && s'.trace.approved == s.trace.approved[pid := Approval(s.clock, s.ms.threshold, s.ms.proposals[pid].signers)])
    ensures SysOk(s')
  {
    if pid in s.ms.proposals {
      assert Ms.ProposalOk(s.ms.proposals[pid]);
    }
  }

  lemma ScheduleKeeps(s: Sys, caller: Address, delay: nat, salt: nat)
    requires SysOk(s) && caller.id <= Tl.U64_MAX
    ensures SysOk(StepSchedule(s, caller, delay, salt))
    ensures var s' := StepSchedule(s, caller, delay, salt);
      |s'.slots| > |s.slots| ==>
        var id := s'.slots[|s'.slots| - 1];
        id in s'.tl.ops && id !in s.tl.ops && id !in s.trace.origin && Tl.NonceOf(id) == s'.tl.opCount && s'.tl.ready
  {
    var (tl, r) := Tl.Schedule(s.tl, caller, delay, Tl.Uniform(salt), s.clock);
    if r.Scheduled? {
      Tl.IdRoundTrip(caller, s.clock + delay, tl.opCount, salt);
    }
  }

  /** The proposal was executed just now and has no operation yet. */
  predicate FreshApproval(s: Sys, pid: nat) {
    pid in s.trace.approved && s.trace.approved[pid].at == s.clock && pid !in s.trace.origin.Values
  }

  lemma ScheduleForKeeps(s: Sys, pid: nat, delay: nat, salt: nat)
    requires SysOk(s) && FreshApproval(s, pid)
    ensures SysOk(StepScheduleFor(s, pid, delay, salt))
  {
    ScheduleKeeps(s, GOVERNANCE, delay, salt);
    ScheduleForTimes(s, delay, salt);
    var s' := StepSchedule(s, GOVERNANCE, delay, salt);
    if |s'.slots| > |s.slots| {
      OriginAdded(s', s'.slots[|s'.slots| - 1], pid);
    }
  }

  lemma ScheduleForTimes(s: Sys, delay: nat, salt: nat)
    ensures var s' := StepSchedule(s, GOVERNANCE, delay, salt);
      && s'.trace == s.trace && s'.clock == s.clock
      && (|s'.slots| > |s.slots| ==>
            && Tl.MIN_DELAY <= delay <= Tl.MAX_DELAY
            && s'.slots[|s'.slots| - 1] in s'.tl.ops && s'.tl.ops[s'.slots[|s'.slots| - 1]].readyAt == s.clock + delay)
  {
  }

  /** Recording the proposal of a new operation. */
  lemma OriginAdded(s: Sys, id: OpId, pid: nat)
    requires SysOk(s) && FreshApproval(s, pid) && id !in s.trace.origin && Tl.NonceOf(id) <= s.tl.opCount && s.tl.ready
    requires id in s.tl.ops && s.clock + Tl.MIN_DELAY <= s.tl.ops[id].readyAt <= s.clock + Tl.MAX_DELAY
    ensures SysOk(s.(trace := s.trace.(origin := s.trace.origin[id := pid])))
  {
    OriginsStay(s, id, pid);
  }

  lemma OriginsStay(s: Sys, id: OpId, pid: nat)
    requires OriginsOk(s) && FreshApproval(s, pid) && id !in s.trace.origin
    requires id in s.tl.ops && s.clock + Tl.MIN_DELAY <= s.tl.ops[id].readyAt <= s.clock + Tl.MAX_DELAY
    ensures OriginsOk(s.(trace := s.trace.(origin := s.trace.origin[id := pid])))
  {
    assert forall k :: k in s.trace.origin ==> s.trace.origin[k] in s.trace.origin.Values;
  }

  lemma ApproveIsFresh(s: Sys, pid: nat)
    requires SysOk(s) && Ms.Execute(s.ms, pid, s.clock).1.Ok?
    ensures FreshApproval(StepApprove(s, pid), pid)
  {
    Ms.ExecuteShape(s.ms, pid, s.clock);
  }

  lemma ExecuteKeeps(s: Sys, pid: nat)
    requires SysOk(s)
    ensures SysOk(StepExecute(s, pid))
  {
    ApproveKeeps(s, pid);
    var r := Ms.Execute(s.ms, pid, s.clock).1;
    if r.Ok? && r.value.ScheduleTimelock? {
      ApproveIsFresh(s, pid);
      ScheduleForKeeps(StepApprove(s, pid), pid, r.value.delay, r.value.salt);
    }
  }

  lemma CancelKeeps(s: Sys, caller: Address, pid: nat)
    requires SysOk(s)
    ensures SysOk(Step(s, MsCancel(caller, pid)))
  {
    if pid in s.ms.proposals {
      assert Ms.ProposalOk(s.ms.proposals[pid]);
    }
  }

  lemma RunOneKeeps(s: Sys, slot: nat)
    requires SysOk(s)
    ensures SysOk(StepRun(s, slot))
  {
  }

  lemma InitTlKeeps(s: Sys, admin: Address)
    requires SysOk(s)
    ensures SysOk(Step(s, InitTl(admin)))
  {
  }

  lemma CancelSlotKeeps(s: Sys, caller: Address, slot: nat)
    requires SysOk(s)
    ensures SysOk(Step(s, TlCancel(caller, slot)))
  {
  }

  lemma ClockKeeps(s: Sys, secs: nat)
    requires SysOk(s)
    ensures SysOk(Step(s, AdvanceClock(secs)))
  {
  }

  lemma StepKeeps(s: Sys, op: Op)
    requires SysOk(s) && WellTyped(op)
    ensures SysOk(Step(s, op))
  {
    match op
    case InitMs(signers, threshold) => InitKeeps(s, signers, threshold);
    case InitTl(admin) => InitTlKeeps(s, admin);
    case MsPropose(proposer, action) => ProposeKeeps(s, proposer, action);
    case MsSign(signer, pid) => SignKeeps(s, signer, pid);
    case MsExecute(pid) => ExecuteKeeps(s, pid);
    case MsCancel(caller, pid) => CancelKeeps(s, caller, pid);
    case TlSchedule(caller, delay, salt) => ScheduleKeeps(s, caller, delay, salt);
    case TlExecute(slot) => RunOneKeeps(s, slot);
    case TlCancel(caller, slot) => CancelSlotKeeps(s, caller, slot);
    case AdvanceClock(secs) => ClockKeeps(s, secs);
  }

  /** Threshold, signer count and approval counts stay consistent in every run. */
  lemma {:induction false} RunKeeps(clock: nat, ops: seq<Op>)
    requires clock <= Tl.U64_MAX && forall i :: 0 <= i < |ops| ==> WellTyped(ops[i])
    ensures SysOk(Run(Initial(clock), ops))
  {
    if ops != [] {
      RunKeeps(clock, ops[..|ops| - 1]);
      StepKeeps(Run(Initial(clock), ops[..|ops| - 1]), ops[|ops| - 1]);
    }
  }

  /**
   End to end, in every run: a timelock operation runs at most once. If it was scheduled by a proposal,
   it runs at least the minimum delay and the tolerance after that proposal was executed, and before its
   window closes; and the proposal had at least the threshold of that moment in distinct approvers, each
   of whom was a signer when approving.
   */
  lemma ExecutionsAreGoverned(clock: nat, ops: seq<Op>, k: nat)
    requires clock <= Tl.U64_MAX && forall i :: 0 <= i < |ops| ==> WellTyped(ops[i])
    requires k < |Run(Initial(clock), ops).trace.runs|
    ensures var s := Run(Initial(clock), ops); var r := s.trace.runs[k];
      && (forall j :: 0 <= j < |s.trace.runs| && s.trace.runs[j].op == r.op ==> j == k)
      && r.op in s.tl.ops && s.tl.ops[r.op].readyAt + Tl.TOLERANCE <= r.at < s.tl.ops[r.op].readyAt + Tl.OP_EXPIRY
      && (r.op in s.trace.origin ==>
            && s.trace.origin[r.op] in s.trace.approved
            && (var pid := s.trace.origin[r.op]; var ap := s.trace.approved[pid];
                && ap.at + Tl.MIN_DELAY + Tl.TOLERANCE <= r.at < ap.at + Tl.MAX_DELAY + Tl.OP_EXPIRY
                && 1 <= ap.threshold <= |ap.approvers|
                && forall a :: a in ap.approvers ==> (pid, a) in s.trace.votes && a in s.trace.votes[(pid, a)]))
  {
    RunKeeps(clock, ops);
    var s := Run(Initial(clock), ops);
    var r := s.trace.runs[k];
    if r.op in s.trace.origin {
      var pid := s.trace.origin[r.op];
      assert pid in s.ms.proposals;
    }
  }

  // ---------------------------------------------------------------- the harness's count assertion

  /** The steps that make the harness's assertion on approval counts fail, told from the state before them. */
  ghost predicate BreaksCounts(s: Sys, op: Op) {
    match op
    case MsSign(signer, pid) => Ms.SignBreaks(s.ms, signer, pid, s.clock)
    case MsExecute(pid) => Ms.ExecuteBreaks(s.ms, pid, s.clock)
    case _ => false
  }

  /** Where the assertion holds, a step keeps it if and only if it is not one of these. */
  lemma StepKeepsCountsIff(s: Sys, op: Op)
    requires Ms.MsOk(s.ms) && Ms.CountsWithinSigners(s.ms)
    ensures Ms.CountsWithinSigners(Step(s, op).ms) <==> !BreaksCounts(s, op)
  {
    match op
    case MsSign(signer, pid) => Ms.SignKeepsCountsIff(s.ms, signer, pid, s.clock);
    case MsExecute(pid) =>
      Ms.ExecuteKeepsCountsIff(s.ms, pid, s.clock);
      assert Step(s, op).ms == Ms.Execute(s.ms, pid, s.clock).0;
    case InitMs(signers, threshold) => Ms.OtherCallsKeepCounts(s.ms, signers, threshold, GOVERNANCE, 0, 0, Ms.Nop);
    case MsPropose(proposer, action) => Ms.OtherCallsKeepCounts(s.ms, [], 0, proposer, 0, s.clock, action);
    case MsCancel(caller, pid) => Ms.OtherCallsKeepCounts(s.ms, [], 0, caller, pid, s.clock, Ms.Nop);
    case _ =>
  }

  /** The harness's assertion, made before the first step and after every one. */
  ghost predicate AssertionHolds(clock: nat, ops: seq<Op>) {
    Ms.CountsWithinSigners(Run(Initial(clock), ops).ms) && (ops != [] ==> AssertionHolds(clock, ops[..|ops| - 1]))
  }

  ghost predicate NoStepBreaks(clock: nat, ops: seq<Op>) {
    ops != [] ==> NoStepBreaks(clock, ops[..|ops| - 1]) && !BreaksCounts(Run(Initial(clock), ops[..|ops| - 1]), ops[|ops| - 1])
  }

  /**
   The harness's assertion on approval counts holds throughout a run if and only if the run never lets
   somebody sign a proposal, nor removes a signer while there is a proposal, with as many approvals as signers.
   */
  lemma {:induction false} AssertionHoldsIff(clock: nat, ops: seq<Op>)
    requires clock <= Tl.U64_MAX && forall i :: 0 <= i < |ops| ==> WellTyped(ops[i])
    ensures AssertionHolds(clock, ops) <==> NoStepBreaks(clock, ops)
  {
    if ops != [] {
      var shorter := ops[..|ops| - 1];
      AssertionHoldsIff(clock, shorter);
      RunKeeps(clock, shorter);
      if AssertionHolds(clock, shorter) {
        CountsHold(clock, shorter);
        StepKeepsCountsIff(Run(Initial(clock), shorter), ops[|ops| - 1]);
      }
    }
  }

  lemma CountsHold(clock: nat, ops: seq<Op>)
    requires AssertionHolds(clock, ops)
    ensures Ms.CountsWithinSigners(Run(Initial(clock), ops).ms)
  {
  }

  // ---------------------------------------------------------------- who may do what

  predicate Approves(ms: Ms.Ms, pid: nat, who: Address) {
    pid in ms.proposals && who in ms.proposals[pid].signers
  }

  predicate IsDone(tl: Tl.Tl, id: OpId) {
    id in tl.ops && tl.ops[id].done
  }

  /**
   The harness's second invariant, step by step: only a current signer adds an approval, and only its own;
   an operation disappears only when its proposer or the timelock's admin cancels it before it has run;
   and it becomes done only when it is executed inside its window.
   */
  lemma OnlyAuthorisedSteps(s: Sys, op: Op, pid: nat, who: Address, id: OpId)
    requires Ms.MsOk(s.ms)
    ensures Approves(Step(s, op).ms, pid, who) && !Approves(s.ms, pid, who) ==>
      who in s.ms.signers && ((op.MsSign? && op.signer == who && op.pid == pid) || (op.MsPropose? && op.proposer == who))
    ensures id in s.tl.ops && id !in Step(s, op).tl.ops ==>
      op.TlCancel? && !s.tl.ops[id].done && (op.caller == s.tl.ops[id].proposer || op.caller == s.tl.admin)
    ensures id in s.tl.ops && IsDone(Step(s, op).tl, id) && !IsDone(s.tl, id) ==> op.TlExecute? && Tl.Runnable(s.tl.ops[id], s.clock)
  {
    match op
    case MsExecute(p) =>
      Ms.ExecuteShape(s.ms, p, s.clock);
      assert Step(s, op).ms == Ms.Execute(s.ms, p, s.clock).0;
    case _ =>
  }

  /** Once initialised, signers and threshold change exactly when a sufficiently approved open proposal to that effect is executed, and as it says. */
  lemma MembershipIsGoverned(s: Sys, op: Op)
    requires Ms.MsOk(s.ms) && s.ms.ready
    ensures var ms' := Step(s, op).ms; var changed := ms'.signers != s.ms.signers || ms'.threshold != s.ms.threshold;
      && (changed <==> op.MsExecute? && Ms.Reforms(s.ms, op.pid, s.clock))
      && (changed ==> Ms.Reformed(s.ms, ms', s.ms.proposals[op.pid].action))
  {
    match op
    case MsExecute(p) =>
      Ms.ExecuteReformsIff(s.ms, p, s.clock);
      assert Step(s, op).ms == Ms.Execute(s.ms, p, s.clock).0;
    case _ =>
  }

  /** In every run two timelock executions never stem from the same proposal. */
  lemma OneRunPerProposal(clock: nat, ops: seq<Op>, j: nat, k: nat)
    requires clock <= Tl.U64_MAX && forall i :: 0 <= i < |ops| ==> WellTyped(ops[i])
    requires j < k < |Run(Initial(clock), ops).trace.runs|
    ensures var s := Run(Initial(clock), ops); var a, b := s.trace.runs[j].op, s.trace.runs[k].op;
      a in s.trace.origin && b in s.trace.origin ==> s.trace.origin[a] != s.trace.origin[b]
  {
    RunKeeps(clock, ops);
  }

  // ---------------------------------------------------------------- what only ever grows

  /** Counters never fall, and a proposal once executed or cancelled stays so. */
  predicate Grows(ms: Ms.Ms, ms': Ms.Ms, pid: nat) {
    && ms.proposalCount <= ms'.proposalCount
    && (pid in ms.proposals ==>
          && pid in ms'.proposals && ms'.proposals[pid].action == ms.proposals[pid].action
          && ms.proposals[pid].signers <= ms'.proposals[pid].signers
          && (ms.proposals[pid].executed ==> ms'.proposals[pid] == ms.proposals[pid])
          && (ms.proposals[pid].cancelled ==> ms'.proposals[pid] == ms.proposals[pid]))
  }

  lemma ExecuteGrows(s: Sys, id: nat, pid: nat)
    ensures Grows(s.ms, StepExecute(s, id).ms, pid)
  {
    Ms.ExecuteShape(s.ms, id, s.clock);
    assert StepExecute(s, id).ms == Ms.Execute(s.ms, id, s.clock).0;
  }

  lemma StepGrows(s: Sys, op: Op, pid: nat)
    requires Ms.MsOk(s.ms)
    ensures Grows(s.ms, Step(s, op).ms, pid)
  {
    match op
    case MsExecute(id) => ExecuteGrows(s, id, pid);
    case MsPropose(proposer, action) => ProposeGrows(s.ms, proposer, s.clock, action, pid);
    case _ =>
  }

  lemma ProposeGrows(ms: Ms.Ms, proposer: Address, now: nat, action: Ms.Action, pid: nat)
    requires Ms.MsOk(ms)
    ensures Grows(ms, Ms.Propose(ms, proposer, now, action).0, pid)
  {
    assert ms.proposalCount + 1 !in ms.proposals;
  }

  /** Closed proposals are frozen, and open ones only gain approvers, for the rest of every run. */
  lemma {:induction false} ClosedStaysClosed(clock: nat, ops: seq<Op>, n: nat, pid: nat)
    requires clock <= Tl.U64_MAX && n <= |ops| && forall i :: 0 <= i < |ops| ==> WellTyped(ops[i])
    ensures Grows(Run(Initial(clock), ops[..n]).ms, Run(Initial(clock), ops).ms, pid)
    decreases |ops|
  {
    if n == |ops| {
      assert ops[..n] == ops;
    } else {
      var shorter := ops[..|ops| - 1];
      ClosedStaysClosed(clock, shorter, n, pid);
      assert shorter[..n] == ops[..n];
      RunKeeps(clock, shorter);
      StepGrows(Run(Initial(clock), shorter), ops[|ops| - 1], pid);
    }
  }
}

/** The harness's own objects, with the fields it updates. */
module GovernanceObjects {
  import opened Ledger
  import opened Lists
  import M = MultisigModel
  import T = TimelockModel
  import S = GovernanceSystem

  class Multisig {
    var ready: bool
    var threshold: nat
    var signerCount: nat
    var proposalCount: nat
    var signers: set<Address>
    var proposals: map<nat, M.Proposal>

    ghost function View(): M.Ms
      reads this
    {
      M.Ms(ready, threshold, signerCount, proposalCount, signers, proposals)
    }

    constructor ()
      ensures View() == M.EMPTY
    {
      ready, threshold, signerCount, proposalCount, signers, proposals := false, 0, 0, 0, {}, map[];
    }

    method Init(initial: seq<Address>, newThreshold: nat) returns (r: M.Outcome<()>)
      modifies this
      ensures (View(), r) == M.Init(old(View()), initial, newThreshold)
    {
      if ready { return M.Err(M.AlreadyInitialized); }
      if initial == [] || newThreshold == 0 { return M.Err(M.InvalidThreshold); }
      if newThreshold > |initial| { return M.Err(M.InvalidThreshold); }
      var seen: set<Address> := {};
      for i := 0 to |initial|
        invariant seen == set a | a in initial[..i]
        invariant Distinct(initial[..i]) && View() == old(View())
      {
        if initial[i] in seen {
          var k :| 0 <= k < i && initial[k] == initial[i];
          return M.Err(M.AlreadySigner);
        }
        seen := seen + {initial[i]};
      }
      assert initial[..|initial|] == initial;
      signers := seen;
      signerCount := |initial|;
      threshold := newThreshold;
      proposalCount := 0;
      ready := true;
      return M.Ok(());
    }

    method Propose(proposer: Address, now: nat, action: M.Action) returns (r: M.Outcome<nat>)
      modifies this
      ensures (View(), r) == M.Propose(old(View()), proposer, now, action)
    {
      if !ready { return M.Err(M.NotInitialized); }
      if proposer !in signers { return M.Err(M.NotSigner); }
      if proposalCount + 1 > M.U32_MAX { return M.Err(M.NotInitialized); }
      proposalCount := proposalCount + 1;
      if now + M.EXPIRY_SECS > M.U64_MAX { return M.Err(M.NotInitialized); }
      proposals := proposals[proposalCount := M.Proposal(proposer, 1, now + M.EXPIRY_SECS, false, false, {proposer}, action)];
      return M.Ok(proposalCount);
    }

    method Sign(signer: Address, id: nat, now: nat) returns (r: M.Outcome<()>)
      modifies this
      ensures (View(), r) == M.Sign(old(View()), signer, id, now)
    {
      if !ready { return M.Err(M.NotInitialized); }
      if signer !in signers { return M.Err(M.NotSigner); }
      if id !in proposals { return M.Err(M.ProposalNotFound); }
      var p := proposals[id];
      if p.executed { return M.Err(M.AlreadyExecuted); }
      if p.cancelled { return M.Err(M.IsCancelled); }
      if now > p.expiry { return M.Err(M.IsExpired); }
      if signer in p.signers { return M.Err(M.AlreadySigned); }
      proposals := proposals[id := p.(signers := p.signers + {signer}, approvalCount := p.approvalCount + 1)];
      return M.Ok(());
    }

    method Execute(id: nat, now: nat) returns (r: M.Outcome<M.Action>)
      modifies this
      ensures (View(), r) == M.Execute(old(View()), id, now)
    {
      if !ready { return M.Err(M.NotInitialized); }
      if id !in proposals { return M.Err(M.ProposalNotFound); }
      var p := proposals[id];
      if p.executed { return M.Err(M.AlreadyExecuted); }
      if p.cancelled { return M.Err(M.IsCancelled); }
      if now > p.expiry { return M.Err(M.IsExpired); }
      if p.approvalCount < threshold { return M.Err(M.BelowThreshold); }
      proposals := proposals[id := p.(executed := true)];
      match p.action {
      case AddSigner(a) =>
        if a in signers { return M.Err(M.AlreadySigner); }
        signers := signers + {a};
        signerCount := signerCount + 1;
      case RemoveSigner(a) =>
        if a !in signers { return M.Err(M.NotSigner); }
        if signerCount < threshold + 1 { return M.Err(M.InvalidThreshold); }
        signers := signers - {a};
        signerCount := signerCount - 1;
      case SetThreshold(t) =>
        if t == 0 || t > signerCount { return M.Err(M.InvalidThreshold); }
        threshold := t;
      case _ =>
      }
      return M.Ok(p.action);
    }

    method Cancel(caller: Address, id: nat, now: nat) returns (r: M.Outcome<()>)
      modifies this
      ensures (View(), r) == M.Cancel(old(View()), caller, id, now)
    {
      if !ready { return M.Err(M.NotInitialized); }
      if id !in proposals { return M.Err(M.ProposalNotFound); }
      var p := proposals[id];
      if p.proposer != caller && caller !in signers { return M.Err(M.NotSigner); }
      if p.executed { return M.Err(M.AlreadyExecuted); }
      if p.cancelled { return M.Err(M.IsCancelled); }
      if now > p.expiry { return M.Err(M.IsExpired); }
      proposals := proposals[id := p.(cancelled := true)];
      return M.Ok(());
    }
  }

  class Timelock {
    var ready: bool
    var admin: Address
    var opCount: nat
    var ops: map<T.OpId, T.TlOp>

    ghost function View(): T.Tl
      reads this
    {
      T.Tl(ready, admin, opCount, ops)
    }

    constructor ()
      ensures View() == T.EMPTY
    {
      ready, admin, opCount, ops := false, Address(0), 0, map[];
    }

    method Init(first: Address)
      modifies this
      ensures View() == T.Init(old(View()), first)
    {
      if ready { return; }
      admin, opCount, ready := first, 0, true;
    }

    method Schedule(caller: Address, delay: nat, salt: seq<nat>, now: nat) returns (r: T.Scheduled)
      requires |salt| == 32
      modifies this
      ensures (View(), r) == T.Schedule(old(View()), caller, delay, salt, now)
    {
      if !ready || delay < T.MIN_DELAY || delay > T.MAX_DELAY || opCount + 1 > T.U64_MAX { return T.Refused; }
      opCount := opCount + 1;
      var readyAt := now + delay;
      if readyAt > T.U64_MAX { return T.Refused; }
      var id := BuildId(caller, readyAt, opCount, salt);
      ops := ops[id := T.TlOp(caller, readyAt, false)];
      return T.Scheduled.Scheduled(id, readyAt);
    }

    method Execute(id: T.OpId, now: nat) returns (ran: bool)
      modifies this
      ensures (View(), ran) == T.Execute(old(View()), id, now)
    {
      if id !in ops { return false; }
      var op := ops[id];
      if op.done || now < T.SaturatingAdd(op.readyAt, T.TOLERANCE) { return false; }
      if op.readyAt + T.OP_EXPIRY > T.U64_MAX || now >= op.readyAt + T.OP_EXPIRY { return false; }
      ops := ops[id := op.(done := true)];
      return true;
    }

    method Cancel(caller: Address, id: T.OpId) returns (gone: bool)
      modifies this
      ensures (View(), gone) == T.Cancel(old(View()), caller, id)
    {
      if id !in ops || ops[id].done { return false; }
      if caller != ops[id].proposer && caller != admin { return false; }
      ops := ops - {id};
      return true;
    }
  }

  /** Three loops place the bytes, a fourth adds the salt. */
  method BuildId(caller: Address, readyAt: nat, nonce: nat, salt: seq<nat>) returns (id: T.OpId)
    requires |salt| == 32
    ensures id == T.MakeId(caller, readyAt, nonce, salt)
  {
    var parts := [T.Word(caller.id), T.Word(readyAt), T.Word(nonce)];
    var raw := seq(32, _ => 0);
    for part := 0 to 3
      invariant |raw| == 32
      invariant forall i :: 0 <= i < 32 ==> raw[i] == if i < 8 * part then parts[i / 8][i % 8] else 0
    {
      for i := 0 to 8
        invariant |raw| == 32
        invariant forall k :: 0 <= k < 32 ==> raw[k] == if k < 8 * part + i then parts[k / 8][k % 8] else 0
      {
        raw := raw[8 * part + i := parts[part][i]];
      }
    }
    T.Zeros(T.WordSize());
    assert raw == T.RawId(caller, readyAt, nonce);
    id := raw;
    for i := 0 to 32
      invariant |id| == 32
      invariant forall k :: 0 <= k < 32 ==> id[k] == if k < i then (raw[k] + salt[k]) % 256 else raw[k]
    {
      id := id[i := (id[i] + salt[i]) % 256];
    }
  }

  /** The linked machines and the clock. */
  class System {
    const ms: Multisig
    const tl: Timelock
    var clock: nat
    var slots: seq<T.OpId>
    ghost var trace: S.Trace

    ghost function View(): S.Sys
      reads this, ms, tl
    {
      S.Sys(ms.View(), tl.View(), clock, slots, trace)
    }

    constructor (start: nat)
      ensures View() == S.Initial(start) && fresh(ms) && fresh(tl)
    {
      ms := new Multisig();
      tl := new Timelock();
      clock, slots, trace := start, [], S.Trace(map[], map[], map[], []);
    }

    /** A governance-approved or direct call into the timelock. */
    method Schedule(caller: Address, delay: nat, salt: nat)
      modifies this, tl
      ensures View() == S.StepSchedule(old(View()), caller, delay, salt)
    {
      var r := tl.Schedule(caller, delay, T.Uniform(salt), clock);
      if r.Scheduled? {
        slots := slots + [r.id];
      }
    }

    method Propose(proposer: Address, action: M.Action)
      modifies this, ms
      ensures View() == S.StepPropose(old(View()), proposer, action)
    {
      ghost var voters := ms.signers;
      var r := ms.Propose(proposer, clock, action);
      if r.Ok? {
        trace := trace.(votes := trace.votes[(r.value, proposer) := voters]);
      }
    }

    method Sign(signer: Address, pid: nat)
      modifies this, ms
      ensures View() == S.StepSign(old(View()), signer, pid)
    {
      ghost var voters := ms.signers;
      var r := ms.Sign(signer, pid, clock);
      if r.Ok? {
        trace := trace.(votes := trace.votes[(pid, signer) := voters]);
      }
    }

    method Execute(pid: nat)
      modifies this, ms, tl
      ensures View() == S.StepExecute(old(View()), pid)
    {
      ghost var before := ms.View();
      var r := ms.Execute(pid, clock);
      if S.NewlyExecuted(before, ms.View(), pid) {
        trace := trace.(approved := trace.approved[pid := S.Approval(clock, before.threshold, before.proposals[pid].signers)]);
      }
      assert View() == S.StepApprove(old(View()), pid);
      if r.Ok? && r.value.ScheduleTimelock? {
        ghost var n := |slots|;
        Schedule(S.GOVERNANCE, r.value.delay, r.value.salt);
        if |slots| > n {
          trace := trace.(origin := trace.origin[slots[|slots| - 1] := pid]);
        }
      }
    }

    method RunSlot(slot: nat)
      modifies this, tl
      ensures View() == S.StepRun(old(View()), slot)
    {
      if slots != [] {
        var id := slots[slot % |slots|];
        var ran := tl.Execute(id, clock);
        if ran {
          trace := trace.(runs := trace.runs + [S.Execution(id, clock)]);
        }
      }
    }

    method CancelSlot(caller: Address, slot: nat)
      modifies this, tl
      ensures View() == S.Step(old(View()), S.TlCancel(caller, slot))
    {
      if slots != [] {
        var _ := tl.Cancel(caller, slots[slot % |slots|]);
      }
    }

    /** One step of the harness loop. */
    method Apply(op: S.Op)
      modifies this, ms, tl
      ensures View() == S.Step(old(View()), op)
    {
      match op {
        case InitMs(signers, threshold) =>
          var _ := ms.Init(signers, threshold);
        case InitTl(admin) => tl.Init(admin);
        case MsPropose(proposer, action) => Propose(proposer, action);
        case MsSign(signer, pid) => Sign(signer, pid);
        case MsExecute(pid) => Execute(pid);
        case MsCancel(caller, pid) =>
          var _ := ms.Cancel(caller, pid, clock);
        case TlSchedule(caller, delay, salt) => Schedule(caller, delay, salt);
        case TlExecute(slot) => RunSlot(slot);
        case TlCancel(caller, slot) => CancelSlot(caller, slot);
        case AdvanceClock(secs) => clock := T.SaturatingAdd(clock, secs);
      }
    }

    /** The harness loop over a whole sequence of operations. */
    method Replay(ops: seq<S.Op>)
      modifies this, ms, tl
      ensures View() == S.Run(old(View()), ops)
    {
      for i := 0 to |ops|
        invariant View() == S.Run(old(View()), ops[..i])
      {
        Apply(ops[i]);
        assert ops[..i + 1][..i] == ops[..i];
      }
      assert ops[..|ops|] == ops;
    }
  }
}
