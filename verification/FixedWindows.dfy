/** What a limit per fixed window allows in an arbitrary period of the same length. */
module FixedWindows {

  /** Something admitted: when, in the window that started when, how much, and the window's total with it. */
  datatype Entry = Entry(at: nat, windowStart: nat, amount: int, total: int)

  predicate InWindow(e: Entry, period: nat, limit: int) {
    e.windowStart <= e.at < e.windowStart + period && 0 <= e.amount <= e.total <= limit
  }

  /** A later entry counts on top of an earlier one of its window, or its window starts a period or more after. */
  predicate Later(e: Entry, f: Entry, period: nat) {
    (f.windowStart == e.windowStart && e.total + f.amount <= f.total) || e.windowStart + period <= f.windowStart
  }

  predicate Windowed(es: seq<Entry>, period: nat, limit: int) {
    && (forall i :: 0 <= i < |es| ==> InWindow(es[i], period, limit))
    && (forall i, j :: 0 <= i < j < |es| ==> Later(es[i], es[j], period))
  }

  function Amount(es: seq<Entry>): int {
    if es == [] then 0 else Amount(es[..|es| - 1]) + es[|es| - 1].amount
  }

  /** The entries of the half-open period that starts at t. */
  function Within(es: seq<Entry>, t: nat, period: nat): seq<Entry> {
    if es == [] then []
    else
      var last := es[|es| - 1];
      Within(es[..|es| - 1], t, period) + if t <= last.at < t + period then [last] else []
  }

  /** The entries of the window that starts at `start`. */
  function OfWindow(es: seq<Entry>, start: nat): seq<Entry> {
    if es == [] then []
    else OfWindow(es[..|es| - 1], start) + if es[|es| - 1].windowStart == start then [es[|es| - 1]] else []
  }

  lemma Extend(es: seq<Entry>, e: Entry, period: nat, limit: int)
    requires Windowed(es, period, limit) && InWindow(e, period, limit) && (es != [] ==> Later(es[|es| - 1], e, period))
    ensures Windowed(es + [e], period, limit)
  {
    forall i, j | 0 <= i < j < |es + [e]|
      ensures Later((es + [e])[i], (es + [e])[j], period)
    {
      if j == |es| && i < |es| - 1 {
        assert Later(es[i], es[|es| - 1], period) && InWindow(es[|es| - 1], period, limit);
      }
    }
  }

  lemma HigherLimit(es: seq<Entry>, period: nat, low: int, high: int)
    requires Windowed(es, period, low) && low <= high
    ensures Windowed(es, period, high)
  {
  }

  lemma AmountAppend(es: seq<Entry>, e: Entry)
    ensures Amount(es + [e]) == Amount(es) + e.amount
  {
    assert (es + [e])[..|es|] == es;
  }

  lemma {:induction false} OneEach(es: seq<Entry>)
    requires forall i :: 0 <= i < |es| ==> es[i].amount == 1
    ensures Amount(es) == |es|
  {
    if es != [] {
      OneEach(es[..|es| - 1]);
    }
  }

  lemma OfWindowAppend(es: seq<Entry>, e: Entry, start: nat)
    ensures OfWindow(es + [e], start) == OfWindow(es, start) + if e.windowStart == start then [e] else []
  {
    assert (es + [e])[..|es|] == es;
  }

  /** A window that starts a period or more after the last one has no entries yet. */
  lemma {:induction false} NothingYet(es: seq<Entry>, start: nat, period: nat, limit: int)
    requires Windowed(es, period, limit) && period > 0 && (es != [] ==> es[|es| - 1].windowStart + period <= start)
    ensures OfWindow(es, start) == []
  {
    if es != [] {
      var init := es[..|es| - 1];
      assert InWindow(es[|es| - 1], period, limit);
      if init != [] {
        assert Later(es[|es| - 2], es[|es| - 1], period);
      }
      NothingYet(init, start, period, limit);
    }
  }

  /** The last entry carries the total of its window, which is the sum of the entries there. */
  predicate Totals(es: seq<Entry>) {
    es != [] ==> var last := es[|es| - 1]; last.total == Amount(OfWindow(es, last.windowStart))
  }

  lemma SameWindowTotals(es: seq<Entry>, e: Entry)
    requires Totals(es) && es != [] && e.windowStart == es[|es| - 1].windowStart && e.total == es[|es| - 1].total + e.amount
    ensures Totals(es + [e])
  {
    OfWindowAppend(es, e, e.windowStart);
    AmountAppend(OfWindow(es, e.windowStart), e);
  }

  lemma NewWindowTotals(es: seq<Entry>, e: Entry, period: nat, limit: int)
    requires Windowed(es, period, limit) && period > 0 && e.total == e.amount
    requires es != [] ==> es[|es| - 1].windowStart + period <= e.windowStart
    ensures Totals(es + [e])
  {
    NothingYet(es, e.windowStart, period, limit);
    OfWindowAppend(es, e, e.windowStart);
    AmountAppend([], e);
  }

  lemma {:induction false} WithinElements(es: seq<Entry>, t: nat, period: nat)
    ensures forall e :: e in Within(es, t, period) ==> e in es && t <= e.at < t + period
  {
    if es != [] {
      WithinElements(es[..|es| - 1], t, period);
    }
  }

  lemma {:induction false} WithinWindowed(es: seq<Entry>, t: nat, period: nat, limit: int)
    requires Windowed(es, period, limit)
    ensures Windowed(Within(es, t, period), period, limit)
  {
    if es != [] {
      var init, last := es[..|es| - 1], es[|es| - 1];
      var inside := Within(init, t, period);
      WithinWindowed(init, t, period, limit);
      WithinElements(init, t, period);
      if inside != [] {
        assert inside[|inside| - 1] in init;
        var i :| 0 <= i < |init| && init[i] == inside[|inside| - 1];
        assert Later(es[i], last, period);
      }
      Extend(inside, last, period, limit);
    }
  }

  /** Entries of one window come to its total at most. */
  lemma {:induction false} OneWindow(es: seq<Entry>, period: nat, limit: int)
    requires Windowed(es, period, limit) && forall i :: 0 <= i < |es| ==> es[i].windowStart == es[0].windowStart
    ensures es != [] ==> Amount(es) <= es[|es| - 1].total <= limit
  {
    if es != [] {
      var init := es[..|es| - 1];
      OneWindow(init, period, limit);
      assert InWindow(es[|es| - 1], period, limit);
      if init != [] {
        assert Later(es[|es| - 2], es[|es| - 1], period);
      }
    }
  }

  /** Within a period entries belong to two windows at most. */
  lemma TwoWindows(es: seq<Entry>, t: nat, period: nat, limit: int, k: nat)
    requires Windowed(es, period, limit) && (forall i :: 0 <= i < |es| ==> t <= es[i].at < t + period)
    requires k < |es| && es[k].windowStart != es[0].windowStart
    ensures forall i :: k <= i < |es| ==> es[i].windowStart == es[k].windowStart
  {
    forall i | k < i < |es|
      ensures es[i].windowStart == es[k].windowStart
    {
      assert Later(es[0], es[k], period) && Later(es[k], es[i], period);
      assert InWindow(es[0], period, limit) && InWindow(es[i], period, limit);
    }
  }

  lemma {:induction false} AmountSplit(es: seq<Entry>, k: nat)
    requires k <= |es|
    ensures Amount(es) == Amount(es[..k]) + Amount(es[k..])
  {
    if k == |es| {
      assert es[..k] == es;
    } else {
      AmountSplit(es[..|es| - 1], k);
      assert es[..|es| - 1][..k] == es[..k] && es[k..][..|es| - 1 - k] == es[..|es| - 1][k..];
    }
  }

  lemma {:induction false} PeriodHoldsTwoWindows(es: seq<Entry>, t: nat, period: nat, limit: nat, k: nat)
    requires Windowed(es, period, limit) && (forall i :: 0 <= i < |es| ==> t <= es[i].at < t + period)
    requires k <= |es| && forall i :: 0 <= i < k ==> es[i].windowStart == es[0].windowStart
    ensures Amount(es) <= 2 * limit
    decreases |es| - k
  {
    if k == |es| {
      OneWindow(es, period, limit);
    } else if es[k].windowStart == es[0].windowStart {
      PeriodHoldsTwoWindows(es, t, period, limit, k + 1);
    } else {
      TwoWindows(es, t, period, limit, k);
      OneWindow(es[..k], period, limit);
      OneWindow(es[k..], period, limit);
      AmountSplit(es, k);
    }
  }

  /** A limit per window admits at most twice the limit in any period of a window's length. */
  lemma TwiceTheLimit(es: seq<Entry>, t: nat, period: nat, limit: nat)
    requires Windowed(es, period, limit)
    ensures Amount(Within(es, t, period)) <= 2 * limit
  {
    WithinWindowed(es, t, period, limit);
    WithinElements(es, t, period);
    forall i | 0 <= i < |Within(es, t, period)|
      ensures t <= Within(es, t, period)[i].at < t + period
    {
      assert Within(es, t, period)[i] in Within(es, t, period);
    }
    PeriodHoldsTwoWindows(Within(es, t, period), t, period, limit, 0);
  }
}
