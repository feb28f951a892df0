/** Shared vocabulary: optional results (a contract panic is `None`), sums, and the token ledger. */
module Options {

  /** A call that may panic. A panic reverts the whole transaction, so it carries no state. */
  datatype Option<+T> = None | Some(value: T) {
    predicate IsFailure() {
      None?
    }

    function PropagateFailure<U>(): Option<U>
      requires None?
    {
      None
    }

    function Extract(): T
      requires Some?
    {
      value
    }

    function GetOr(default: T): T {
      if Some? then value else default
    }
  }
}

module Sums {

  function Sum(s: seq<int>): int {
    if s == [] then 0 else Sum(s[..|s| - 1]) + s[|s| - 1]
  }

  /** f(1) + ... + f(n), the shape of a loop over ids 1..=n. */
  function SumTo(f: nat -> int, n: nat): int {
    if n == 0 then 0 else SumTo(f, n - 1) + f(n)
  }

  lemma {:induction false} SumToAgree(f: nat -> int, g: nat -> int, n: nat)
    requires forall i: nat :: 1 <= i <= n ==> f(i) == g(i)
    ensures SumTo(f, n) == SumTo(g, n)
  {
    if n > 0 {
      SumToAgree(f, g, n - 1);
    }
  }

  /** Changing one term changes the sum by the same amount. */
  lemma {:induction false} SumToUpdate(f: nat -> int, g: nat -> int, n: nat, k: nat)
    requires 1 <= k <= n
    requires forall i: nat :: 1 <= i <= n && i != k ==> f(i) == g(i)
    ensures SumTo(g, n) == SumTo(f, n) - f(k) + g(k)
  {
    if n == k {
      SumToAgree(f, g, n - 1);
    } else {
      SumToUpdate(f, g, n - 1, k);
    }
  }

  lemma {:induction false} SumToBounds(f: nat -> int, n: nat, k: nat)
    requires forall i: nat :: 1 <= i <= n ==> f(i) >= 0
    ensures SumTo(f, n) >= 0
    ensures 1 <= k <= n ==> f(k) <= SumTo(f, n)
  {
    if n > 0 {
      SumToBounds(f, n - 1, k);
    }
  }

  lemma {:induction false} SumAppend(s: seq<int>, x: int)
    ensures Sum(s + [x]) == Sum(s) + x
  {
    assert (s + [x])[..|s|] == s;
  }

  lemma {:induction false} SumUpdate(s: seq<int>, i: nat, x: int)
    requires i < |s|
    ensures Sum(s[i := x]) == Sum(s) - s[i] + x
  {
    var last := |s| - 1;
    if i == last {
      assert s[i := x][..last] == s[..last];
    } else {
      SumUpdate(s[..last], i, x);
      assert s[i := x][..last] == s[..last][i := x];
    }
  }

  /** A sum of non-negative terms bounds each term. */
  lemma {:induction false} SumBounds(s: seq<int>)
    requires forall i :: 0 <= i < |s| ==> s[i] >= 0
    ensures Sum(s) >= 0
    ensures forall i :: 0 <= i < |s| ==> s[i] <= Sum(s)
  {
    if s != [] {
      SumBounds(s[..|s| - 1]);
      forall i | 0 <= i < |s|
        ensures s[i] <= Sum(s)
      {
        if i < |s| - 1 {
          assert s[..|s| - 1][i] == s[i];
        }
      }
    }
  }

  lemma {:induction false} SumZero(s: seq<int>)
    requires forall i :: 0 <= i < |s| ==> s[i] == 0
    ensures Sum(s) == 0
  {
    if s != [] {
      SumZero(s[..|s| - 1]);
    }
  }

  lemma {:induction false} SumSplit(a: seq<int>, b: seq<int>, c: seq<int>)
    requires |a| == |b| == |c|
    requires forall i :: 0 <= i < |a| ==> a[i] == b[i] + c[i]
    ensures Sum(a) == Sum(b) + Sum(c)
  {
    if a != [] {
      SumSplit(a[..|a| - 1], b[..|a| - 1], c[..|a| - 1]);
    }
  }

  lemma {:induction false} SumMonotone(a: seq<int>, b: seq<int>)
    requires |a| == |b|
    requires forall i :: 0 <= i < |a| ==> a[i] <= b[i]
    ensures Sum(a) <= Sum(b)
  {
    if a != [] {
      SumMonotone(a[..|a| - 1], b[..|a| - 1]);
    }
  }
}

/** Lists without repetitions, and lists of times that keep their distance. */
module Lists {

  predicate Distinct<T(==)>(s: seq<T>) {
    forall i, j :: 0 <= i < j < |s| ==> s[i] != s[j]
  }

  lemma LastIsNew<T>(s: seq<T>)
    requires s != []
    ensures Distinct(s) <==> Distinct(s[..|s| - 1]) && s[|s| - 1] !in s[..|s| - 1]
  {
    var init, last := s[..|s| - 1], s[|s| - 1];
    if last in init {
      var i :| 0 <= i < |init| && init[i] == last;
      assert s[i] == s[|s| - 1];
    }
  }

  /** A list has as many members as entries exactly when nothing repeats. */
  lemma {:induction false} DistinctIff<T>(s: seq<T>)
    ensures |set a | a in s| <= |s|
    ensures |set a | a in s| == |s| <==> Distinct(s)
  {
    if s != [] {
      var init, last := s[..|s| - 1], s[|s| - 1];
      DistinctIff(init);
      LastIsNew(s);
      assert (set a | a in s) == (set a | a in init) + {last};
      assert last in init <==> last in (set a | a in init);
    }
  }

  /** Any two entries are at least `gap` apart for every step between them. */
  predicate SpacedApart(times: seq<nat>, gap: nat) {
    forall i, j :: 0 <= i < j < |times| ==> times[i] + (j - i) * gap <= times[j]
  }

  lemma OneMoreStep(n: int, gap: int)
    ensures (n + 1) * gap == n * gap + gap
  {
  }

  lemma SpacedFurther(times: seq<nat>, t: nat, gap: nat, i: nat)
    requires SpacedApart(times, gap) && i < |times| && times[|times| - 1] + gap <= t
    ensures times[i] + (|times| - i) * gap <= t
  {
    OneMoreStep(|times| - 1 - i, gap);
    assert times[i] + (|times| - 1 - i) * gap <= times[|times| - 1];
  }

  /** It is enough to keep the distance from the last entry. */
  lemma OneMoreTime(times: seq<nat>, t: nat, gap: nat)
    requires SpacedApart(times, gap) && (times != [] ==> times[|times| - 1] + gap <= t)
    ensures SpacedApart(times + [t], gap)
  {
    var longer := times + [t];
    forall i, j | 0 <= i < j < |longer|
      ensures longer[i] + (j - i) * gap <= longer[j]
    {
      if j == |times| {
        SpacedFurther(times, t, gap, i);
      } else {
        assert longer[i] == times[i] && longer[j] == times[j];
      }
    }
  }
}

/** Token contracts reduced to one map of balances; `SELF` is the contract under study. */
module Ledger {
  import opened Options

  datatype Address = Address(id: nat)

  const SELF := Address(0)

  /** (token, holder) -> balance; an absent entry is a zero balance. */
  type Bank = map<(Address, Address), nat>

  function Balance(bank: Bank, token: Address, who: Address): nat {
    if (token, who) in bank then bank[(token, who)] else 0
  }

  /** `token.transfer(from, to, amount)`: it traps on a negative amount or a short balance. */
  function Transfer(bank: Bank, token: Address, from: Address, to: Address, amount: int): Option<Bank> {
    if amount < 0 || amount > Balance(bank, token, from) then None
    else
      var debited := bank[(token, from) := Balance(bank, token, from) - amount];
      Some(debited[(token, to) := Balance(debited, token, to) + amount])
  }

  /** What a transfer does to every balance of every token, a self-transfer included. */
  lemma TransferMoves(bank: Bank, token: Address, from: Address, to: Address, amount: int)
    requires Transfer(bank, token, from, to, amount).Some?
    ensures var after := Transfer(bank, token, from, to, amount).value;
      forall t, who ::
        Balance(after, t, who) == Balance(bank, t, who)
          + (if t == token && who == to then amount else 0)
          - (if t == token && who == from then amount else 0)
  {
    var after := Transfer(bank, token, from, to, amount).value;
    forall t, who
      ensures Balance(after, t, who) == Balance(bank, t, who)
          + (if t == token && who == to then amount else 0)
          - (if t == token && who == from then amount else 0)
    {
      assert (t, who) == (token, to) <==> t == token && who == to;
    }
  }
}
