/** Recurring allowances: a spender may pull a bounded amount once per period, a bounded number of times. */
module AllowanceModel {
  import opened Options
  import opened Ledger

  const U64_MAX := 0xFFFF_FFFF_FFFF_FFFF

  datatype Key = Key(owner: Address, spender: Address, token: Address)

  datatype Record = Record(amountPerPeriod: int, maxPeriods: nat, periodSeconds: nat, periodsUsed: nat, lastPull: nat)

  datatype Pull = Pull(at: nat, amount: int)

  /** `pulls` is history: the pulls under the authorisation in force. */
  datatype Allowances = Allowances(records: map<Key, Record>, pulls: map<Key, seq<Pull>>)

  function PullsOf(s: Allowances, k: Key): seq<Pull> {
    if k in s.pulls then s.pulls[k] else []
  }

  /** A new authorisation replaces the old one and its usage. */
  function Authorize(s: Allowances, k: Key, amountPerPeriod: int, maxPeriods: nat, periodSeconds: nat): Option<Allowances> {
    if amountPerPeriod <= 0 || maxPeriods == 0 || periodSeconds == 0 then None
    else Some(s.(records := s.records[k := Record(amountPerPeriod, maxPeriods, periodSeconds, 0, 0)], pulls := s.pulls[k := []]))
  }

  /** `paused` is the guardian's answer and `transferred` the token contract's. */
  function PullPayment(s: Allowances, k: Key, amount: int, now: nat, paused: bool, transferred: bool): Option<Allowances> {
    if paused || amount <= 0 || k !in s.records then None
    else
      var r := s.records[k];
      if r.periodsUsed >= r.maxPeriods || amount > r.amountPerPeriod then None
      else if r.periodsUsed > 0 && (r.lastPull + r.periodSeconds > U64_MAX || now < r.lastPull + r.periodSeconds) then None
      else if !transferred then None
      else Some(s.(records := s.records[k := r.(periodsUsed := r.periodsUsed + 1, lastPull := now)],
                   pulls := s.pulls[k := PullsOf(s, k) + [Pull(now, amount)]]))
  }

  function Revoke(s: Allowances, k: Key): Option<Allowances> {
    if k !in s.records then None else Some(s.(records := s.records - {k}, pulls := s.pulls - {k}))
  }

  datatype Call =
    | CallAuthorize(k: Key, amountPerPeriod: int, maxPeriods: nat, periodSeconds: nat)
    | CallPull(k: Key, amount: int, now: nat, paused: bool, transferred: bool)
    | CallRevoke(k: Key)

  function Attempt(s: Allowances, c: Call): Option<Allowances> {
    match c
    case CallAuthorize(k, amount, periods, seconds) => Authorize(s, k, amount, periods, seconds)
    case CallPull(k, amount, now, paused, transferred) => PullPayment(s, k, amount, now, paused, transferred)
    case CallRevoke(k) => Revoke(s, k)
  }

  function Run(s: Allowances, calls: seq<Call>): Allowances {
    if calls == [] then s
    else
      var before := Run(s, calls[..|calls| - 1]);
      Attempt(before, calls[|calls| - 1]).GetOr(before)
  }

  const NONE := Allowances(map[], map[])
}

/** Rate and total of every authorisation. */
module AllowanceBounds {
  import opened Sums
  import opened Lists
  import opened AllowanceModel

  function Amounts(ps: seq<Pull>): seq<int> {
    seq(|ps|, i requires 0 <= i < |ps| => ps[i].amount)
  }

  function TimesOf(ps: seq<Pull>): seq<nat> {
    seq(|ps|, i requires 0 <= i < |ps| => ps[i].at)
  }

  /** The record counts its pulls, and they keep to its terms. */
  predicate RecordOk(r: Record, ps: seq<Pull>) {
    && r.amountPerPeriod > 0 && r.periodSeconds > 0
    && r.periodsUsed == |ps| <= r.maxPeriods
    && (ps != [] ==> r.lastPull == ps[|ps| - 1].at)
    && SpacedApart(TimesOf(ps), r.periodSeconds)
    && (forall i :: 0 <= i < |ps| ==> 0 < ps[i].amount <= r.amountPerPeriod)
    && 0 <= Sum(Amounts(ps)) <= r.periodsUsed * r.amountPerPeriod
  }

  ghost predicate Inv(s: Allowances) {
    && (forall k :: k in s.records ==> RecordOk(s.records[k], PullsOf(s, k)))
    && (forall k :: k in s.pulls ==> k in s.records)
  }

  lemma OneMoreAmount(ps: seq<Pull>, p: Pull, used: nat, cap: int)
    requires 0 <= Sum(Amounts(ps)) <= used * cap && 0 < p.amount <= cap
    ensures 0 <= Sum(Amounts(ps + [p])) <= (used + 1) * cap
  {
    assert Amounts(ps + [p]) == Amounts(ps) + [p.amount];
    SumAppend(Amounts(ps), p.amount);
    OneMoreStep(used, cap);
  }

  lemma OneMorePull(r: Record, ps: seq<Pull>, p: Pull)
    requires RecordOk(r, ps) && r.periodsUsed < r.maxPeriods && 0 < p.amount <= r.amountPerPeriod
    requires ps != [] ==> p.at >= r.lastPull + r.periodSeconds
    ensures RecordOk(r.(periodsUsed := r.periodsUsed + 1, lastPull := p.at), ps + [p])
  {
    assert TimesOf(ps + [p]) == TimesOf(ps) + [p.at];
    OneMoreTime(TimesOf(ps), p.at, r.periodSeconds);
    OneMoreAmount(ps, p, r.periodsUsed, r.amountPerPeriod);
  }

  lemma AttemptKeeps(s: Allowances, c: Call)
    requires Inv(s) && Attempt(s, c).Some?
    ensures Inv(Attempt(s, c).value)
  {
    if c.CallPull? {
      OneMorePull(s.records[c.k], PullsOf(s, c.k), Pull(c.now, c.amount));
    }
  }

  lemma {:induction false} RunKeeps(calls: seq<Call>)
    ensures Inv(Run(NONE, calls))
  {
    if calls != [] {
      RunKeeps(calls[..|calls| - 1]);
      var before := Run(NONE, calls[..|calls| - 1]);
      if Attempt(before, calls[|calls| - 1]).Some? {
        AttemptKeeps(before, calls[|calls| - 1]);
      }
    }
  }

  /**
   In every run and under every authorisation: at most `maxPeriods` pulls, together at most
   `periodsUsed * amountPerPeriod`, and any k of them that follow each other span at least k - 1 periods.
   */
  lemma AllowanceOnEveryRun(calls: seq<Call>, k: Key)
    requires k in Run(NONE, calls).records
    ensures var s := Run(NONE, calls); var r := s.records[k]; var ps := PullsOf(s, k);
      && r.periodsUsed == |ps| <= r.maxPeriods
      && Sum(Amounts(ps)) <= r.periodsUsed * r.amountPerPeriod
      && forall i, j :: 0 <= i <= j < |ps| ==> (j - i) * r.periodSeconds <= ps[j].at - ps[i].at
  {
    RunKeeps(calls);
    var s := Run(NONE, calls);
    TimesSpan(PullsOf(s, k), s.records[k].periodSeconds);
  }

  lemma TimesSpan(ps: seq<Pull>, period: nat)
    requires SpacedApart(TimesOf(ps), period)
    ensures forall i, j :: 0 <= i <= j < |ps| ==> (j - i) * period <= ps[j].at - ps[i].at
  {
    forall i, j | 0 <= i <= j < |ps|
      ensures (j - i) * period <= ps[j].at - ps[i].at
    {
      if i < j {
        assert TimesOf(ps)[i] + (j - i) * period <= TimesOf(ps)[j];
      }
    }
  }

  /** Authorising again starts over: a pull before and a pull after need no time between them. */
  lemma ReauthorisingResets(k: Key, amount: int, now: nat)
    requires amount > 0
    ensures var a := CallAuthorize(k, amount, 1, 1000); var p := CallPull(k, amount, now, false, true);
      PullsOf(Run(NONE, [a, p]), k) == [Pull(now, amount)] && PullsOf(Run(NONE, [a, p, a, p]), k) == [Pull(now, amount)]
      && PullsOf(Run(NONE, [a, p, p]), k) == [Pull(now, amount)]
  {
    var a, p := CallAuthorize(k, amount, 1, 1000), CallPull(k, amount, now, false, true);
    var calls := [a, p, a, p];
    RunStep(calls, 0);
    RunStep(calls, 1);
    RunStep(calls, 2);
    RunStep(calls, 3);
    assert calls[..2] == [a, p] && calls[..4] == calls;
    assert [a, p, p][..2] == [a, p];
    RunStep([a, p, p], 2);
    assert [a, p, p][..3] == [a, p, p];
  }

  lemma RunStep(calls: seq<Call>, n: nat)
    requires n < |calls|
    ensures Run(NONE, calls[..n + 1]) == Attempt(Run(NONE, calls[..n]), calls[n]).GetOr(Run(NONE, calls[..n]))
  {
    assert calls[..n + 1][..n] == calls[..n];
  }
}

/** The allowance contract as an object. */
module AllowanceContract {
  import opened Options
  import opened M = AllowanceModel

  class Contract {
    var records: map<Key, Record>
    ghost var pulls: map<Key, seq<Pull>>

    ghost function View(): Allowances
      reads this
    {
      Allowances(records, pulls)
    }

    ghost predicate Commits(ok: bool, before: Allowances, spec: Option<Allowances>)
      reads this
    {
      ok == spec.Some? && View() == spec.GetOr(before)
    }

    constructor ()
      ensures View() == NONE
    {
      records, pulls := map[], map[];
    }

    method Authorize(k: Key, amountPerPeriod: int, maxPeriods: nat, periodSeconds: nat) returns (ok: bool)
      modifies this
      ensures Commits(ok, old(View()), M.Authorize(old(View()), k, amountPerPeriod, maxPeriods, periodSeconds))
    {
      if amountPerPeriod <= 0 || maxPeriods == 0 || periodSeconds == 0 { return false; }
      records := records[k := Record(amountPerPeriod, maxPeriods, periodSeconds, 0, 0)];
      pulls := pulls[k := []];
      return true;
    }

    method PullPayment(k: Key, amount: int, now: nat, paused: bool, transferred: bool) returns (ok: bool)
      modifies this
      ensures Commits(ok, old(View()), M.PullPayment(old(View()), k, amount, now, paused, transferred))
    {
      if paused || amount <= 0 || k !in records { return false; }
      var r := records[k];
      if r.periodsUsed >= r.maxPeriods || amount > r.amountPerPeriod { return false; }
      if r.periodsUsed > 0 {
        var earliest := r.lastPull + r.periodSeconds;
        if earliest > U64_MAX || now < earliest { return false; }
      }
      if !transferred { return false; }
      r := r.(periodsUsed := r.periodsUsed + 1, lastPull := now);
      records := records[k := r];
      pulls := pulls[k := PullsOf(View(), k) + [Pull(now, amount)]];
      return true;
    }

    method Revoke(k: Key) returns (ok: bool)
      modifies this
      ensures Commits(ok, old(View()), M.Revoke(old(View()), k))
    {
      if k !in records { return false; }
      records := records - {k};
      pulls := pulls - {k};
      return true;
    }
  }
}
