/** The anomaly detector: fixed-window counters per user, and a hold that stays until the admin clears it. */
module DetectorModel {
  import opened Options
  import opened Ledger
  import opened FixedWindows

  const HOUR := 3600
  const DAY := 24 * HOUR
  const U32_MAX := 0xFFFF_FFFF
  const I128_MAX := 0x7FFF_FFFF_FFFF_FFFF_FFFF_FFFF_FFFF_FFFF
  const DEFAULT_CONFIG := Config(10, 3, 50000 * 1000000)

  datatype Action = CreateEscrow | OpenDispute | LargeTransfer

  datatype Verdict = Clear | Warning | Hold

  datatype Config = Config(escrowWarnPerHour: nat, disputeHoldPerDay: nat, volumeHoldPerHour: int)

  datatype Metrics = Metrics(escrows: nat, escrowStart: nat, disputes: nat, disputeStart: nat, volume: int, volumeStart: nat)

  datatype Detector = Detector(now: nat, admin: Address, config: Config, metrics: map<Address, Metrics>, holds: set<Address>,
                               index: seq<Address>)

  function Initial(now: nat, admin: Address): Detector {
    Detector(now, admin, DEFAULT_CONFIG, map[], {}, [])
  }

  /** A user without metrics starts all windows now. */
  function MetricsOf(d: Detector, user: Address): Metrics {
    if user in d.metrics then d.metrics[user] else Metrics(0, d.now, 0, d.now, 0, d.now)
  }

  function Increment(n: nat): nat {
    if n >= U32_MAX then U32_MAX else n + 1
  }

  function AddVolume(a: int, b: int): int {
    if a + b > I128_MAX then I128_MAX else if a + b < -I128_MAX - 1 then -I128_MAX - 1 else a + b
  }

  /** Count one action, restarting its window first if it has run out. */
  function Count(m: Metrics, action: Action, amount: int, now: nat): Metrics {
    match action
    case CreateEscrow =>
      if now >= m.escrowStart + HOUR then m.(escrows := 1, escrowStart := now) else m.(escrows := Increment(m.escrows))
    case OpenDispute =>
      if now >= m.disputeStart + DAY then m.(disputes := 1, disputeStart := now) else m.(disputes := Increment(m.disputes))
    case LargeTransfer =>
      if now >= m.volumeStart + HOUR then m.(volume := AddVolume(0, amount), volumeStart := now)
      else m.(volume := AddVolume(m.volume, amount))
  }

  function Judge(c: Config, m: Metrics, action: Action): Verdict {
    match action
    case CreateEscrow => if m.escrows > c.escrowWarnPerHour then Warning else Clear
    case OpenDispute => if m.disputes > c.disputeHoldPerDay then Hold else Clear
    case LargeTransfer => if m.volume > c.volumeHoldPerHour then Hold else Clear
  }

  /** The index is extended only if the metrics, just stored, are missing. */
  function Check(d: Detector, user: Address, action: Action, amount: int): (Detector, Verdict) {
    if user in d.holds then (d, Hold)
    else
      var m := Count(MetricsOf(d, user), action, amount, d.now);
      var metrics := d.metrics[user := m];
      var verdict := Judge(d.config, m, action);
      (d.(metrics := metrics, index := if user !in metrics then d.index + [user] else d.index,
          holds := if verdict == Hold then d.holds + {user} else d.holds), verdict)
  }

  function ClearHold(d: Detector, caller: Address, user: Address): Option<Detector> {
    if caller != d.admin then None else Some(d.(holds := d.holds - {user}))
  }

  function SetThresholds(d: Detector, caller: Address, config: Config): Option<Detector> {
    if caller != d.admin then None else Some(d.(config := config))
  }

  datatype Call =
    | CallCheck(user: Address, action: Action, amount: int)
    | CallClearHold(caller: Address, user: Address)
    | CallSetThresholds(caller: Address, config: Config)
    | CallTimePasses(secs: nat)

  function Step(d: Detector, c: Call): Detector {
    match c
    case CallCheck(user, action, amount) => Check(d, user, action, amount).0
    case CallClearHold(caller, user) => ClearHold(d, caller, user).GetOr(d)
    case CallSetThresholds(caller, config) => SetThresholds(d, caller, config).GetOr(d)
    case CallTimePasses(secs) => d.(now := d.now + secs)
  }

  function Run(d: Detector, calls: seq<Call>): Detector {
    if calls == [] then d else Step(Run(d, calls[..|calls| - 1]), calls[|calls| - 1])
  }

  predicate IsPass(d: Detector, c: Call, user: Address) {
    c.CallCheck? && c.user == user && c.action == OpenDispute && Check(d, user, OpenDispute, c.amount).1 != Hold
  }

  /** The disputes of a user that were let through, one each: when, in which window, and as which of its window. */
  function Passes(d: Detector, calls: seq<Call>, user: Address): seq<Entry> {
    if calls == [] then []
    else
      var before := Run(d, calls[..|calls| - 1]);
      var c := calls[|calls| - 1];
      Passes(d, calls[..|calls| - 1], user)
        + if IsPass(before, c, user)
          then [Entry(before.now, MetricsOf(Step(before, c), user).disputeStart, 1, MetricsOf(Step(before, c), user).disputes)] else []
  }
}

/** How many disputes the detector can let through in a day. */
module DetectorBounds {
  import opened Ledger
  import opened FixedWindows
  import opened DetectorModel

  /** Every threshold in force during the run is at most `limit`. */
  predicate Limited(d: Detector, calls: seq<Call>, limit: nat) {
    && d.config.disputeHoldPerDay <= limit
    && forall i :: 0 <= i < |calls| && calls[i].CallSetThresholds? ==> calls[i].config.disputeHoldPerDay <= limit
  }

  /** The metrics stand at or after the last pass of the window they are in. */
  predicate Tracks(d: Detector, user: Address, ps: seq<Entry>) {
    && (user in d.metrics ==> d.metrics[user].disputeStart <= d.now)
    && (ps != [] ==>
          && user in d.metrics
          && var last := ps[|ps| - 1]; var m := d.metrics[user];
             || (m.disputeStart == last.windowStart && m.disputes >= last.total)
             || last.windowStart + DAY <= m.disputeStart)
  }

  lemma StepTracks(d: Detector, c: Call, user: Address, ps: seq<Entry>, limit: nat)
    requires Tracks(d, user, ps) && Windowed(ps, DAY, limit) && d.config.disputeHoldPerDay <= limit < U32_MAX
    ensures !IsPass(d, c, user) ==> Tracks(Step(d, c), user, ps)
    ensures IsPass(d, c, user) ==>
      var m := MetricsOf(Step(d, c), user); var p := Entry(d.now, m.disputeStart, 1, m.disputes);
      Tracks(Step(d, c), user, ps + [p]) && Windowed(ps + [p], DAY, limit)
  {
    if IsPass(d, c, user) {
      var m := MetricsOf(Step(d, c), user);
      Extend(ps, Entry(d.now, m.disputeStart, 1, m.disputes), DAY, limit);
    }
  }

  lemma {:induction false} PassesWindowed(d: Detector, calls: seq<Call>, user: Address, limit: nat)
    requires d.metrics == map[] && Limited(d, calls, limit) && limit < U32_MAX
    ensures Windowed(Passes(d, calls, user), DAY, limit) && Tracks(Run(d, calls), user, Passes(d, calls, user))
    ensures Run(d, calls).config.disputeHoldPerDay <= limit
    ensures forall i :: 0 <= i < |Passes(d, calls, user)| ==> Passes(d, calls, user)[i].amount == 1
  {
    if calls != [] {
      var shorter := calls[..|calls| - 1];
      PassesWindowed(d, shorter, user, limit);
      StepTracks(Run(d, shorter), calls[|calls| - 1], user, Passes(d, shorter, user), limit);
    }
  }

  /**
   In every run, holds cleared and thresholds changed along the way included, any half-open period of 24
   hours sees at most twice the largest dispute threshold in disputes that are let through for a user.
   */
  lemma DisputesPerDay(d: Detector, calls: seq<Call>, user: Address, limit: nat, t: nat)
    requires d.metrics == map[] && Limited(d, calls, limit) && limit < U32_MAX
    ensures |Within(Passes(d, calls, user), t, DAY)| <= 2 * limit
  {
    var ps := Passes(d, calls, user);
    PassesWindowed(d, calls, user, limit);
    TwiceTheLimit(ps, t, DAY, limit);
    WithinElements(ps, t, DAY);
    forall i | 0 <= i < |Within(ps, t, DAY)|
      ensures Within(ps, t, DAY)[i].amount == 1
    {
      assert Within(ps, t, DAY)[i] in ps;
    }
    OneEach(Within(ps, t, DAY));
  }

  // ---------------------------------------------------------------- the bound is exact, and so is its condition

  function Disputes(user: Address, n: nat): seq<Call> {
    seq(n, _ => CallCheck(user, OpenDispute, 0))
  }

  /** At the largest 32-bit threshold the saturating counter never exceeds it: no number of disputes is held. */
  lemma {:induction false} LargestThresholdNeverHolds(d: Detector, user: Address, n: nat)
    requires d.metrics == map[] && d.holds == {} && d.config.disputeHoldPerDay == U32_MAX
    ensures |Passes(d, Disputes(user, n), user)| == n
    ensures |Within(Passes(d, Disputes(user, n), user), d.now, DAY)| == n
    ensures var s := Run(d, Disputes(user, n));
      s.now == d.now && s.config == d.config && s.holds == {} && (user in s.metrics ==> s.metrics[user].disputes <= U32_MAX)
  {
    if n > 0 {
      LargestThresholdNeverHolds(d, user, n - 1);
      assert Disputes(user, n)[..n - 1] == Disputes(user, n - 1);
      var p := Passes(d, Disputes(user, n), user);
      assert p[..|p| - 1] == Passes(d, Disputes(user, n - 1), user);
    }
  }

  lemma OneMoreCall(d: Detector, calls: seq<Call>, user: Address, c: Call, before: Detector, ps: seq<Entry>)
    requires Run(d, calls) == before && Passes(d, calls, user) == ps
    ensures Run(d, calls + [c]) == Step(before, c)
    ensures Passes(d, calls + [c], user) == ps
      + if IsPass(before, c, user) then [Entry(before.now, MetricsOf(Step(before, c), user).disputeStart, 1, MetricsOf(Step(before, c), user).disputes)] else []
  {
    assert (calls + [c])[..|calls|] == calls;
  }

  lemma FirstCheck(d: Detector, user: Address)
    requires user !in d.metrics && user !in d.holds
    ensures Step(d, CallCheck(user, CreateEscrow, 0)) == d.(metrics := d.metrics[user := Metrics(1, d.now, 0, d.now, 0, d.now)])
  {
  }

  lemma DisputeCheck(d: Detector, user: Address, m: Metrics)
    requires user in d.metrics && d.metrics[user] == m && user !in d.holds && d.config.disputeHoldPerDay == 1
    requires m.disputes == 0 || d.now >= m.disputeStart + DAY
    ensures var start := if d.now >= m.disputeStart + DAY then d.now else m.disputeStart;
      Step(d, CallCheck(user, OpenDispute, 0)) == d.(metrics := d.metrics[user := m.(disputes := 1, disputeStart := start)])
      && IsPass(d, CallCheck(user, OpenDispute, 0), user)
  {
  }

  /** With a threshold of one, two disputes a second apart straddle two windows and both pass. */
  lemma BoundIsReached(d: Detector, user: Address)
    requires d.metrics == map[] && d.holds == {} && d.config.disputeHoldPerDay == 1
    ensures var calls := [CallCheck(user, CreateEscrow, 0), CallTimePasses(DAY - 1), CallCheck(user, OpenDispute, 0),
                          CallTimePasses(1), CallCheck(user, OpenDispute, 0)];
      |Within(Passes(d, calls, user), d.now + DAY - 1, DAY)| == 2
  {
    var open, dispute := CallCheck(user, CreateEscrow, 0), CallCheck(user, OpenDispute, 0);
    var m := Metrics(1, d.now, 0, d.now, 0, d.now);
    FirstCheck(d, user);
    OneMoreCall(d, [], user, open, d, []);
    var d1 := d.(metrics := d.metrics[user := m]);
    OneMoreCall(d, [open], user, CallTimePasses(DAY - 1), d1, []);
    var d2 := d1.(now := d.now + DAY - 1);
    DisputeCheck(d2, user, m);
    OneMoreCall(d, [open] + [CallTimePasses(DAY - 1)], user, dispute, d2, []);
    var d3 := d2.(metrics := d2.metrics[user := m.(disputes := 1)]);
    var first := Entry(d2.now, d.now, 1, 1);
    OneMoreCall(d, [open] + [CallTimePasses(DAY - 1)] + [dispute], user, CallTimePasses(1), d3, [first]);
    var d4 := d3.(now := d.now + DAY);
    DisputeCheck(d4, user, m.(disputes := 1));
    OneMoreCall(d, [open] + [CallTimePasses(DAY - 1)] + [dispute] + [CallTimePasses(1)], user, dispute, d4, [first]);
    TwoWithin(first, Entry(d4.now, d4.now, 1, 1), d.now + DAY - 1);
    assert [open] + [CallTimePasses(DAY - 1)] + [dispute] + [CallTimePasses(1)] + [dispute]
        == [open, CallTimePasses(DAY - 1), dispute, CallTimePasses(1), dispute];
  }

  lemma TwoWithin(p: Entry, q: Entry, t: nat)
    requires t <= p.at < t + DAY && t <= q.at < t + DAY
    ensures |Within([p] + [q], t, DAY)| == 2
  {
    assert ([p] + [q])[..1] == [p] && [p][..0] == [];
    assert Within([p], t, DAY) == [p];
  }

  /** The list of monitored users stays empty in every run: the metrics are stored before they are looked for. */
  lemma {:induction false} NobodyIsIndexed(now: nat, admin: Address, calls: seq<Call>)
    ensures Run(Initial(now, admin), calls).index == []
  {
    if calls != [] {
      NobodyIsIndexed(now, admin, calls[..|calls| - 1]);
    }
  }
}

/** The detector as an object. */
module DetectorContract {
  import opened Ledger
  import opened M = DetectorModel

  class Contract {
    var now: nat
    var admin: Address
    var config: Config
    var metrics: map<Address, Metrics>
    var holds: set<Address>
    var index: seq<Address>

    ghost function View(): Detector
      reads this
    {
      Detector(now, admin, config, metrics, holds, index)
    }

    constructor (ledgerTime: nat, first: Address)
      ensures View() == Initial(ledgerTime, first)
    {
      now, admin, config, metrics, holds, index := ledgerTime, first, DEFAULT_CONFIG, map[], {}, [];
    }

    method CheckAnomaly(user: Address, action: Action, amount: int) returns (verdict: Verdict)
      modifies this
      ensures (View(), verdict) == Check(old(View()), user, action, amount)
    {
      if user in holds { return Hold; }
      var m := if user in metrics then metrics[user] else Metrics(0, now, 0, now, 0, now);
      verdict := Clear;
      match action {
        case CreateEscrow =>
          if now >= m.escrowStart + HOUR {
            m := m.(escrows := 0, escrowStart := now);
          }
          m := m.(escrows := Increment(m.escrows));
          if m.escrows > config.escrowWarnPerHour { verdict := Warning; }
        case OpenDispute =>
          if now >= m.disputeStart + DAY {
            m := m.(disputes := 0, disputeStart := now);
          }
          m := m.(disputes := Increment(m.disputes));
          if m.disputes > config.disputeHoldPerDay { verdict := Hold; }
        case LargeTransfer =>
          if now >= m.volumeStart + HOUR {
            m := m.(volume := 0, volumeStart := now);
          }
          m := m.(volume := AddVolume(m.volume, amount));
          if m.volume > config.volumeHoldPerHour { verdict := Hold; }
      }
      metrics := metrics[user := m];
      index := if user !in metrics then index + [user] else index;
      if verdict == Hold {
        holds := holds + {user};
      }
    }

    method ClearHold(caller: Address, user: Address) returns (ok: bool)
      modifies this
      ensures ok == M.ClearHold(old(View()), caller, user).Some?
      ensures View() == M.ClearHold(old(View()), caller, user).GetOr(old(View()))
    {
      if caller != admin { return false; }
      holds := holds - {user};
      return true;
    }

    method SetThresholds(caller: Address, next: Config) returns (ok: bool)
      modifies this
      ensures ok == M.SetThresholds(old(View()), caller, next).Some?
      ensures View() == M.SetThresholds(old(View()), caller, next).GetOr(old(View()))
    {
      if caller != admin { return false; }
      config := next;
      return true;
    }
  }
}
