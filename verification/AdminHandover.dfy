/** Who administers the escrow contract: proposed handovers, a cooling-off period, and emergency revocation. */
module AdminHandover {
  import opened Options
  import opened Ledger
  import opened Lists

  const ADMIN_TIMELOCK := 48 * 3600
  const COOLING_OFF := 24 * 3600
  const HANDOVER_GAP := ADMIN_TIMELOCK + COOLING_OFF

  datatype Transfer = Transfer(newAdmin: Address, effectiveAt: nat)

  /** One change of the administrator, and on whose word: the proposer, or whoever had appointed the multisig. */
  datatype Change = Accepted(at: nat, who: Address, word: Address) | Revoked(at: nat, who: Address, word: Address)

  /** The last three fields are history: the changes made so far, who wrote the pending proposal, who appointed the multisig. */
  datatype Role = Role(admin: Address, multisig: Option<Address>, lastChange: nat, pending: Option<Transfer>,
                       changes: seq<Change>, proposer: Address, sponsor: Address)

  datatype Call = Propose(caller: Address, newAdmin: Address) | Accept(caller: Address) | Revoke(caller: Address, newAdmin: Address)
    | Appoint(caller: Address, multisig: Address)

  /** A later proposal overwrites an earlier one. */
  function ProposeChange(s: Role, now: nat, caller: Address, newAdmin: Address): Option<Role> {
    if caller != s.admin || now < s.lastChange + COOLING_OFF then None
    else Some(s.(pending := Some(Transfer(newAdmin, now + ADMIN_TIMELOCK)), proposer := caller))
  }

  function AcceptRole(s: Role, now: nat, caller: Address): Option<Role> {
    if s.pending.None? || s.pending.value.newAdmin != caller || now < s.pending.value.effectiveAt then None
    else Some(s.(admin := caller, lastChange := now, pending := None, changes := s.changes + [Accepted(now, caller, s.proposer)]))
  }

  /** The multisig replaces the admin at once; the time of the last handover is left as it was. */
  function RevokeAdmin(s: Role, now: nat, caller: Address, newAdmin: Address): Option<Role> {
    if s.multisig != Some(caller) then None
    else Some(s.(admin := newAdmin, pending := None, changes := s.changes + [Revoked(now, newAdmin, s.sponsor)]))
  }

  /** The admin in office names the multisig, at once. */
  function AppointMultisig(s: Role, caller: Address, multisig: Address): Option<Role> {
    if caller != s.admin then None else Some(s.(multisig := Some(multisig), sponsor := caller))
  }

  function Attempt(s: Role, now: nat, c: Call): Option<Role> {
    match c
    case Propose(caller, newAdmin) => ProposeChange(s, now, caller, newAdmin)
    case Accept(caller) => AcceptRole(s, now, caller)
    case Revoke(caller, newAdmin) => RevokeAdmin(s, now, caller, newAdmin)
    case Appoint(caller, multisig) => AppointMultisig(s, caller, multisig)
  }

  /** Calls with the ledger time at which each one runs. */
  function Run(s: Role, calls: seq<(nat, Call)>): Role {
    if calls == [] then s
    else
      var before := Run(s, calls[..|calls| - 1]);
      Attempt(before, calls[|calls| - 1].0, calls[|calls| - 1].1).GetOr(before)
  }

  /** Initialisation names no multisig. */
  function Initial(admin: Address): Role {
    Role(admin, None, 0, None, [], admin, admin)
  }

  // ---------------------------------------------------------------- handovers are three days apart

  function AcceptTimes(changes: seq<Change>): seq<nat> {
    if changes == [] then []
    else
      var last := changes[|changes| - 1];
      AcceptTimes(changes[..|changes| - 1]) + if last.Accepted? then [last.at] else []
  }

  /** A live proposal outlasts the cooling-off period and the timelock, and stems from the sitting admin. */
  predicate PendingOk(s: Role) {
    s.pending.Some? ==> s.pending.value.effectiveAt >= s.lastChange + HANDOVER_GAP && s.proposer == s.admin
  }

  predicate HandoverOk(s: Role) {
    var times := AcceptTimes(s.changes);
    && SpacedApart(times, HANDOVER_GAP)
    && (times != [] ==> s.lastChange == times[|times| - 1])
    && PendingOk(s)
  }

  lemma AttemptKeeps(s: Role, now: nat, c: Call)
    requires HandoverOk(s) && Attempt(s, now, c).Some?
    ensures HandoverOk(Attempt(s, now, c).value)
  {
    var s' := Attempt(s, now, c).value;
    if c.Accept? || c.Revoke? {
      assert s'.changes[..|s'.changes| - 1] == s.changes;
      if c.Accept? {
        OneMoreTime(AcceptTimes(s.changes), now, HANDOVER_GAP);
      }
    }
  }

  /**
   In every run, whatever the clock does, the i-th and j-th handover are at least (j - i) * 72 hours
   apart, overwritten proposals and revocations in between included; and every proposal that can
   still be accepted was made by the admin in office.
   */
  lemma {:induction false} HandoversSpaced(admin: Address, calls: seq<(nat, Call)>)
    ensures HandoverOk(Run(Initial(admin), calls))
  {
    if calls != [] {
      HandoversSpaced(admin, calls[..|calls| - 1]);
      var before := Run(Initial(admin), calls[..|calls| - 1]);
      var last := calls[|calls| - 1];
      if Attempt(before, last.0, last.1).Some? {
        AttemptKeeps(before, last.0, last.1);
      }
    }
  }

  // ---------------------------------------------------------------- changes of either kind

  /** The shortest time between two successive changes, by kind. */
  function MinGap(first: Change, second: Change): nat {
    if second.Revoked? then 0 else if first.Revoked? then ADMIN_TIMELOCK else HANDOVER_GAP
  }

  predicate GapsOk(changes: seq<Change>) {
    forall i :: 0 <= i < |changes| - 1 ==> changes[i].at + MinGap(changes[i], changes[i + 1]) <= changes[i + 1].at
  }

  predicate ClockMonotone(calls: seq<(nat, Call)>) {
    forall i, j :: 0 <= i < j < |calls| ==> calls[i].0 <= calls[j].0
  }

  predicate ChangesOk(s: Role, now: nat) {
    && PendingOk(s) && GapsOk(s.changes)
    && (s.changes != [] ==>
          var last := s.changes[|s.changes| - 1];
          && last.at <= now
          && (last.Accepted? ==> s.lastChange == last.at)
          && (s.pending.Some? ==> last.at + ADMIN_TIMELOCK <= s.pending.value.effectiveAt))
  }

  lemma OneMoreChange(changes: seq<Change>, next: Change)
    requires GapsOk(changes)
    requires changes != [] ==> changes[|changes| - 1].at + MinGap(changes[|changes| - 1], next) <= next.at
    ensures GapsOk(changes + [next])
  {
    forall i | 0 <= i < |changes|
      ensures (changes + [next])[i].at + MinGap((changes + [next])[i], (changes + [next])[i + 1]) <= (changes + [next])[i + 1].at
    {
      assert (changes + [next])[i] == changes[i];
    }
  }

  lemma AttemptKeepsGaps(s: Role, earlier: nat, now: nat, c: Call)
    requires ChangesOk(s, earlier) && earlier <= now && Attempt(s, now, c).Some?
    ensures ChangesOk(Attempt(s, now, c).value, now)
  {
    match c
    case Accept(caller) => OneMoreChange(s.changes, Accepted(now, caller, s.proposer));
    case Revoke(_, newAdmin) => OneMoreChange(s.changes, Revoked(now, newAdmin, s.sponsor));
    case _ =>
  }

  /**
   With a clock that never runs backwards, successive changes of the administrator are 72 hours apart
   when both are handovers, 48 hours when a handover follows a revocation, and not at all before a
   revocation.
   */
  lemma {:induction false} ChangesSpaced(admin: Address, calls: seq<(nat, Call)>)
    requires ClockMonotone(calls)
    ensures ChangesOk(Run(Initial(admin), calls), if calls == [] then 0 else calls[|calls| - 1].0)
  {
    if calls != [] {
      var shorter := calls[..|calls| - 1];
      ChangesSpaced(admin, shorter);
      var before := Run(Initial(admin), shorter);
      var (now, c) := calls[|calls| - 1];
      if Attempt(before, now, c).Some? {
        AttemptKeepsGaps(before, if shorter == [] then 0 else shorter[|shorter| - 1].0, now, c);
      }
    }
  }

  // ---------------------------------------------------------------- revocations know no delay

  /** The admin in office can hand the office to anybody at any moment, by appointing a multisig that revokes it. */
  lemma AppointingSkipsAllDelays(s: Role, now: nat, m: Address, heir: Address)
    ensures var s1 := Attempt(s, now, Appoint(s.admin, m));
      s1.Some? && Attempt(s1.value, now, Revoke(m, heir)).Some? && Attempt(s1.value, now, Revoke(m, heir)).value.admin == heir
  {
  }

  lemma OneMoreCall(s: Role, calls: seq<(nat, Call)>, before: Role, now: nat, c: Call)
    requires Run(s, calls) == before
    ensures Run(s, calls + [(now, c)]) == Attempt(before, now, c).GetOr(before)
  {
    assert (calls + [(now, c)])[..|calls|] == calls;
  }

  /** A handover, and at the same moment its revocation. */
  function HandoverRevoked(a: Address, b: Address, m: Address): seq<(nat, Call)> {
    [(0, Appoint(a, m)), (COOLING_OFF, Propose(a, b)), (HANDOVER_GAP, Accept(b)), (HANDOVER_GAP, Revoke(m, a))]
  }

  lemma HandoverRevokedLeaves(a: Address, b: Address, m: Address)
    ensures Run(Initial(a), HandoverRevoked(a, b, m))
      == Role(a, Some(m), HANDOVER_GAP, None, [Accepted(HANDOVER_GAP, b, a), Revoked(HANDOVER_GAP, a, a)], a, a)
  {
    var s := Initial(a);
    var s1 := s.(multisig := Some(m));
    OneMoreCall(s, [], s, 0, Appoint(a, m));
    var s2 := s1.(pending := Some(Transfer(b, HANDOVER_GAP)));
    OneMoreCall(s, [(0, Appoint(a, m))], s1, COOLING_OFF, Propose(a, b));
    var s3 := s1.(admin := b, lastChange := HANDOVER_GAP, changes := [Accepted(HANDOVER_GAP, b, a)]);
    OneMoreCall(s, [(0, Appoint(a, m))] + [(COOLING_OFF, Propose(a, b))], s2, HANDOVER_GAP, Accept(b));
    OneMoreCall(s, [(0, Appoint(a, m))] + [(COOLING_OFF, Propose(a, b))] + [(HANDOVER_GAP, Accept(b))], s3, HANDOVER_GAP, Revoke(m, a));
    assert HandoverRevoked(a, b, m)
      == [(0, Appoint(a, m))] + [(COOLING_OFF, Propose(a, b))] + [(HANDOVER_GAP, Accept(b))] + [(HANDOVER_GAP, Revoke(m, a))];
  }

  /**
   The shorter gaps occur: a revocation at the moment of a handover, and, long after that handover, a
   handover 48 hours after a revocation.
   */
  lemma RevocationsSkipCoolingOff(a: Address, b: Address, m: Address)
    ensures var later := 2 * HANDOVER_GAP;
      Run(Initial(a), HandoverRevoked(a, b, m) + [(later, Revoke(m, a))] + [(later, Propose(a, b))] + [(later + ADMIN_TIMELOCK, Accept(b))]).changes
        == [Accepted(HANDOVER_GAP, b, a), Revoked(HANDOVER_GAP, a, a), Revoked(later, a, a), Accepted(later + ADMIN_TIMELOCK, b, a)]
  {
    var later := 2 * HANDOVER_GAP;
    var first := HandoverRevoked(a, b, m);
    HandoverRevokedLeaves(a, b, m);
    var s := Run(Initial(a), first);
    var s1 := s.(changes := s.changes + [Revoked(later, a, a)]);
    OneMoreCall(Initial(a), first, s, later, Revoke(m, a));
    var s2 := s1.(pending := Some(Transfer(b, later + ADMIN_TIMELOCK)));
    OneMoreCall(Initial(a), first + [(later, Revoke(m, a))], s1, later, Propose(a, b));
    OneMoreCall(Initial(a), first + [(later, Revoke(m, a))] + [(later, Propose(a, b))], s2, later + ADMIN_TIMELOCK, Accept(b));
  }

  // ---------------------------------------------------------------- on whose word

  /** Who was administrator after the first n changes. */
  function InOffice(first: Address, changes: seq<Change>): Address {
    if changes == [] then first else changes[|changes| - 1].who
  }

  /** An address that was administrator at some time up to these changes. */
  predicate WasInOffice(first: Address, changes: seq<Change>, a: Address) {
    a == first || exists i :: 0 <= i < |changes| && changes[i].who == a
  }

  /** A handover rests on the word of the administrator it replaces, a revocation on that of some administrator before it. */
  predicate Lineage(first: Address, changes: seq<Change>) {
    forall i :: 0 <= i < |changes| ==>
      if changes[i].Accepted? then changes[i].word == InOffice(first, changes[..i]) else WasInOffice(first, changes[..i], changes[i].word)
  }

  predicate LineageOk(first: Address, s: Role) {
    && Lineage(first, s.changes) && s.admin == InOffice(first, s.changes)
    && (s.pending.Some? ==> s.proposer == s.admin)
    && (s.multisig.Some? ==> WasInOffice(first, s.changes, s.sponsor))
  }

  lemma LineageGrows(first: Address, changes: seq<Change>, next: Change)
    requires Lineage(first, changes)
    requires if next.Accepted? then next.word == InOffice(first, changes) else WasInOffice(first, changes, next.word)
    ensures Lineage(first, changes + [next]) && InOffice(first, changes + [next]) == next.who
    ensures forall a :: WasInOffice(first, changes, a) ==> WasInOffice(first, changes + [next], a)
  {
    var longer := changes + [next];
    forall i | 0 <= i < |longer|
      ensures if longer[i].Accepted? then longer[i].word == InOffice(first, longer[..i]) else WasInOffice(first, longer[..i], longer[i].word)
    {
      if i < |changes| {
        assert longer[..i] == changes[..i];
      } else {
        assert longer[..i] == changes;
      }
    }
    forall a | WasInOffice(first, changes, a)
      ensures WasInOffice(first, longer, a)
    {
      if a != first {
        var i :| 0 <= i < |changes| && changes[i].who == a;
        assert longer[i].who == a;
      }
    }
  }

  lemma AttemptKeepsLineage(first: Address, s: Role, now: nat, c: Call)
    requires LineageOk(first, s) && Attempt(s, now, c).Some?
    ensures LineageOk(first, Attempt(s, now, c).value)
  {
    match c
    case Accept(caller) => LineageGrows(first, s.changes, Accepted(now, caller, s.proposer));
    case Revoke(_, newAdmin) => LineageGrows(first, s.changes, Revoked(now, newAdmin, s.sponsor));
    case Appoint(caller, _) => SitterWasInOffice(first, s.changes);
    case Propose(_, _) =>
  }

  lemma SitterWasInOffice(first: Address, changes: seq<Change>)
    ensures WasInOffice(first, changes, InOffice(first, changes))
  {
    if changes != [] {
      assert changes[|changes| - 1].who == InOffice(first, changes);
    }
  }

  /**
   In every run each change of the administrator rests on an administrator's word: a handover on a proposal
   by the one in office, a revocation on a multisig that somebody had appointed while in office.
   */
  lemma {:induction false} ChangesAreAuthorised(first: Address, calls: seq<(nat, Call)>)
    ensures LineageOk(first, Run(Initial(first), calls))
  {
    if calls != [] {
      ChangesAreAuthorised(first, calls[..|calls| - 1]);
      var before := Run(Initial(first), calls[..|calls| - 1]);
      var (now, c) := calls[|calls| - 1];
      if Attempt(before, now, c).Some? {
        AttemptKeepsLineage(first, before, now, c);
      }
    }
  }

  // ---------------------------------------------------------------- the object

  class AdminRole {
    var admin: Address
    var multisig: Option<Address>
    var lastChange: nat
    var pending: Option<Transfer>
    ghost var changes: seq<Change>
    ghost var proposer: Address
    ghost var sponsor: Address

    ghost function View(): Role
      reads this
    {
      Role(admin, multisig, lastChange, pending, changes, proposer, sponsor)
    }

    constructor (first: Address)
      ensures View() == Initial(first)
    {
      admin, multisig, lastChange, pending := first, None, 0, None;
      changes, proposer, sponsor := [], first, first;
    }

    method ProposeAdminChange(caller: Address, newAdmin: Address, now: nat) returns (ok: bool)
      modifies this
      ensures ok == ProposeChange(old(View()), now, caller, newAdmin).Some?
      ensures View() == ProposeChange(old(View()), now, caller, newAdmin).GetOr(old(View()))
    {
      if caller != admin { return false; }
      if now < lastChange + COOLING_OFF { return false; }
      pending := Some(Transfer(newAdmin, now + ADMIN_TIMELOCK));
      proposer := caller;
      return true;
    }

    method AcceptAdminRole(caller: Address, now: nat) returns (ok: bool)
      modifies this
      ensures ok == AcceptRole(old(View()), now, caller).Some?
      ensures View() == AcceptRole(old(View()), now, caller).GetOr(old(View()))
    {
      if pending.None? || pending.value.newAdmin != caller { return false; }
      if now < pending.value.effectiveAt { return false; }
      admin := caller;
      lastChange := now;
      pending := None;
      changes := changes + [Accepted(now, caller, proposer)];
      return true;
    }

    method RevokeAdminEmergency(caller: Address, newAdmin: Address, now: nat) returns (ok: bool)
      modifies this
      ensures ok == RevokeAdmin(old(View()), now, caller, newAdmin).Some?
      ensures View() == RevokeAdmin(old(View()), now, caller, newAdmin).GetOr(old(View()))
    {
      if multisig != Some(caller) { return false; }
      admin := newAdmin;
      pending := None;
      changes := changes + [Revoked(now, newAdmin, sponsor)];
      return true;
    }

    method SetMultisigAdmin(caller: Address, newMultisig: Address) returns (ok: bool)
      modifies this
      ensures ok == AppointMultisig(old(View()), caller, newMultisig).Some?
      ensures View() == AppointMultisig(old(View()), caller, newMultisig).GetOr(old(View()))
    {
      if caller != admin { return false; }
      multisig := Some(newMultisig);
      sponsor := caller;
      return true;
    }
  }
}
