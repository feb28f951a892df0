/** Party indexes, paging over them, and session ids that can be used once. */
module EscrowIndex {
  import opened Options
  import opened Ledger
  import opened Fees
  import opened EscrowModel
  import opened EscrowFrames
  import opened EscrowFunds

  datatype Role = Mentor | Learner

  function Party(e: Escrow, role: Role): Address {
    match role
    case Mentor => e.mentor
    case Learner => e.learner
  }

  function Index(w: World, role: Role, who: Address): seq<nat> {
    match role
    case Mentor => Lookup(w.byMentor, who, [])
    case Learner => Lookup(w.byLearner, who, [])
  }

  /** The reference: ids 1..n in ascending order whose record names `who` in that role. */
  function IdsOf(escrows: map<nat, Escrow>, n: nat, role: Role, who: Address): seq<nat> {
    if n == 0 then []
    else IdsOf(escrows, n - 1, role, who) + if n in escrows && Party(escrows[n], role) == who then [n] else []
  }

  ghost predicate IndexOk(w: World, role: Role, who: Address) {
    Index(w, role, who) == IdsOf(w.vault.escrows, w.vault.escrowCount, role, who)
  }

  /** Session ids of existing escrows are spent, pairwise different, and cover every open session key. */
  ghost predicate SessionsOk(w: World) {
    && (forall id :: id in w.vault.escrows ==> w.vault.escrows[id].sessionId in w.usedNonces)
    && (forall i, j :: i in w.vault.escrows && j in w.vault.escrows && i != j ==> w.vault.escrows[i].sessionId != w.vault.escrows[j].sessionId)
    && (forall s :: s in w.usedNonces ==> exists id :: id in w.vault.escrows && w.vault.escrows[id].sessionId == s)
    && w.openSessions <= w.usedNonces
  }

  // ---------------------------------------------------------------- one step

  lemma {:induction false} IdsAgree(m: map<nat, Escrow>, m': map<nat, Escrow>, n: nat, role: Role, who: Address)
    requires forall id :: 1 <= id <= n ==> (id in m <==> id in m') && (id in m ==> Party(m[id], role) == Party(m'[id], role))
    ensures IdsOf(m, n, role, who) == IdsOf(m', n, role, who)
  {
    if n > 0 {
      IdsAgree(m, m', n - 1, role, who);
    }
  }

  lemma CreateIndexes(w: World, mentor: Address, learner: Address, amount: int, session: Symbol, token: Address, sessionEnd: nat,
                      usd: int, quoted: int, send: Address, dest: Address, n: nat, role: Role, who: Address)
    requires IdsOk(w.vault) && IndexOk(w, role, who)
    requires CreateInternal(w, mentor, learner, amount, session, token, sessionEnd, usd, quoted, send, dest, n).Some?
    ensures IndexOk(CreateInternal(w, mentor, learner, amount, session, token, sessionEnd, usd, quoted, send, dest, n).value, role, who)
  {
    var w' := CreateInternal(w, mentor, learner, amount, session, token, sessionEnd, usd, quoted, send, dest, n).value;
    var id := w'.vault.escrowCount;
    assert w'.vault.escrows == w.vault.escrows[id := w'.vault.escrows[id]] && id == w.vault.escrowCount + 1;
    assert Index(w', role, who) == Index(w, role, who) + if Party(w'.vault.escrows[id], role) == who then [id] else [];
    IdsAgree(w.vault.escrows, w'.vault.escrows, w.vault.escrowCount, role, who);
  }

  lemma CreateSessions(w: World, mentor: Address, learner: Address, amount: int, session: Symbol, token: Address, sessionEnd: nat,
                       usd: int, quoted: int, send: Address, dest: Address, n: nat)
    requires IdsOk(w.vault) && SessionsOk(w)
    requires CreateInternal(w, mentor, learner, amount, session, token, sessionEnd, usd, quoted, send, dest, n).Some?
    ensures SessionsOk(CreateInternal(w, mentor, learner, amount, session, token, sessionEnd, usd, quoted, send, dest, n).value)
  {
    var w' := CreateInternal(w, mentor, learner, amount, session, token, sessionEnd, usd, quoted, send, dest, n).value;
    var v, v' := w.vault, w'.vault;
    var id := v'.escrowCount;
    assert id !in v.escrows && v'.escrows == v.escrows[id := v'.escrows[id]] && v'.escrows[id].sessionId == session;
    assert w'.usedNonces == w.usedNonces + {session};
    forall s | s in w'.usedNonces
      ensures exists k :: k in v'.escrows && v'.escrows[k].sessionId == s
    {
      if s == session {
        assert v'.escrows[id].sessionId == s;
      } else {
        var k :| k in v.escrows && v.escrows[k].sessionId == s;
        assert v'.escrows[k] == v.escrows[k];
      }
    }
  }

  lemma CreatesIndex(w: World, c: Call, role: Role, who: Address)
    requires IdsOk(w.vault) && Creates(c) && AttemptCreate(w, c).Some? && IndexOk(w, role, who) && SessionsOk(w)
    ensures IndexOk(AttemptCreate(w, c).value, role, who) && SessionsOk(AttemptCreate(w, c).value)
  {
    match c
    case CallCreate(mentor, learner, amount, session, token, end, n) =>
      CreateIndexes(w, mentor, learner, amount, session, token, end, 0, amount, token, token, n, role, who);
      CreateSessions(w, mentor, learner, amount, session, token, end, 0, amount, token, token, n);
    case CallCreateUsd(mentor, learner, usd, token, n, oracle) =>
      var amount := usd * 10000000 / oracle.price;
      CreateIndexes(w, mentor, learner, amount, USD_SESSION, token, w.now, usd, amount, token, token, n, role, who);
      CreateSessions(w, mentor, learner, amount, USD_SESSION, token, w.now, usd, amount, token, token, n);
    case CallCreatePath(learner, mentor, send, sendMax, token, amount, n) =>
      CreateIndexes(w, mentor, learner, amount, PATH_SESSION, token, 0, 0, amount, send, token, n, role, who);
      CreateSessions(w, mentor, learner, amount, PATH_SESSION, token, 0, 0, amount, send, token, n);
    case CallCreateMilestones(mentor, learner, amounts, token) =>
      MilestonesDoNotIndex(w, mentor, learner, amounts, token);
  }

  lemma MilestonesDoNotIndex(w: World, mentor: Address, learner: Address, amounts: seq<int>, token: Address)
    requires CreateMilestones(w, mentor, learner, amounts, token).Some?
    ensures var w' := CreateMilestones(w, mentor, learner, amounts, token).value;
      NoCreation(w, w') && w'.vault.escrows == w.vault.escrows
  {
  }

  /** A step that creates nothing keeps every party and session id, so the indexes stay right. */
  lemma QuietStepIndexes(w: World, w': World, role: Role, who: Address)
    requires NoCreation(w, w') && IdsOk(w.vault) && IdsOk(w'.vault) && IndexOk(w, role, who) && SessionsOk(w)
    requires forall id :: EscrowEvolves(w.vault, w'.vault, id)
    ensures IndexOk(w', role, who) && SessionsOk(w')
  {
    var v, v' := w.vault, w'.vault;
    forall id | id in v.escrows
      ensures id in v'.escrows && Evolves(v.escrows[id], v'.escrows[id])
    {
      assert EscrowEvolves(v, v', id);
    }
    IdsAgree(v.escrows, v'.escrows, v.escrowCount, role, who);
  }

  lemma AttemptIndexes(w: World, c: Call, role: Role, who: Address)
    requires Inv(w) && Attempt(w, c).Some? && IndexOk(w, role, who) && SessionsOk(w)
    ensures IndexOk(Attempt(w, c).value, role, who) && SessionsOk(Attempt(w, c).value)
  {
    if Creates(c) {
      CreatesIndex(w, c, role, who);
    } else {
      AttemptKeeps(w, c);
      forall id ensures EscrowEvolves(w.vault, Attempt(w, c).value.vault, id) { AttemptEvolves(w, c, id); }
      if Releases(c) {
        ReleasesFrame(w, c);
      } else if Settles(c) {
        SettlesFrame(w, c);
      } else if Configures(c) {
        ConfiguresFrame(w, c);
      } else {
        OtherFrame(w, c);
      }
      QuietStepIndexes(w, Attempt(w, c).value, role, who);
    }
  }

  // ---------------------------------------------------------------- every run

  /** In every run each party's index is exactly the ascending list of ids whose record names that party. */
  lemma {:induction false} IndexesOnEveryRun(w: World, calls: seq<Call>, role: Role, who: Address)
    requires Inv(w) && IndexOk(w, role, who) && SessionsOk(w)
    ensures IndexOk(Run(w, calls), role, who) && SessionsOk(Run(w, calls))
  {
    if calls != [] {
      var before := Run(w, calls[..|calls| - 1]);
      IndexesOnEveryRun(w, calls[..|calls| - 1], role, who);
      RunKeeps(w, calls[..|calls| - 1]);
      if Attempt(before, calls[|calls| - 1]).Some? {
        AttemptIndexes(before, calls[|calls| - 1], role, who);
      }
    }
  }

  /**
   A session id funds at most one escrow in the whole life of the contract. The oracle-priced and the
   path-payment constructors pass a constant id, so each of them can succeed at most once, for anyone.
   */
  lemma SessionIdsAreSpentForever(w: World, calls: seq<Call>, i: nat, j: nat)
    requires Inv(w) && SessionsOk(w) && IndexOk(w, Mentor, SELF)
    requires var v := Run(w, calls).vault; i in v.escrows && j in v.escrows && v.escrows[i].sessionId == v.escrows[j].sessionId
    ensures i == j
    ensures var now := Run(w, calls);
      forall mentor, learner, usd, token, n, oracle :: now.vault.escrows[i].sessionId == USD_SESSION
        ==> CreateEscrowUsd(now, mentor, learner, usd, token, n, oracle).None?
    ensures var now := Run(w, calls);
      forall learner, mentor, send, max, dest, amount, n :: now.vault.escrows[i].sessionId == PATH_SESSION
        ==> CreatePathPayment(now, learner, mentor, send, max, dest, amount, n).None?
  {
    IndexesOnEveryRun(w, calls, Mentor, SELF);
  }

  // ---------------------------------------------------------------- paging

  const MAX_PAGE_SIZE := 50
  const U32_MAX := 0xFFFF_FFFF

  function PageSize(size: nat): nat {
    Min(size, MAX_PAGE_SIZE)
  }

  /** The records behind `ids`, in order. */
  function Records(escrows: map<nat, Escrow>, ids: seq<nat>): seq<Escrow> {
    if ids == [] then []
    else Records(escrows, ids[..|ids| - 1]) + if ids[|ids| - 1] in escrows then [escrows[ids[|ids| - 1]]] else []
  }

  /** One page; the page offset is computed in 32 bits and aborts beyond them. */
  function Page(escrows: map<nat, Escrow>, ids: seq<nat>, page: nat, size: nat): Option<seq<Escrow>> {
    var start := page * PageSize(size);
    if start > U32_MAX then None
    else if start >= |ids| then Some([])
    else Some(Records(escrows, ids[start..Min(start + PageSize(size), |ids|)]))
  }

  /** The first `pages` pages, one after the other. */
  function Pages(escrows: map<nat, Escrow>, ids: seq<nat>, pages: nat, size: nat): Option<seq<Escrow>> {
    if pages == 0 then Some([])
    else
      var earlier :- Pages(escrows, ids, pages - 1, size);
      var last :- Page(escrows, ids, pages - 1, size);
      Some(earlier + last)
  }

  lemma {:induction false} RecordsConcat(escrows: map<nat, Escrow>, a: seq<nat>, b: seq<nat>)
    ensures Records(escrows, a + b) == Records(escrows, a) + Records(escrows, b)
  {
    if b == [] {
      assert a + b == a;
    } else {
      assert (a + b)[..|a + b| - 1] == a + b[..|b| - 1];
      RecordsConcat(escrows, a, b[..|b| - 1]);
    }
  }

  /** The ids before position `n`, or all of them. */
  function Upto(ids: seq<nat>, n: nat): seq<nat> {
    ids[..Min(n, |ids|)]
  }

  lemma SliceExtends(escrows: map<nat, Escrow>, ids: seq<nat>, start: nat, step: nat)
    ensures Records(escrows, Upto(ids, start + step)) == Records(escrows, Upto(ids, start))
      + if start >= |ids| then [] else Records(escrows, ids[start..Min(start + step, |ids|)])
  {
    if start < |ids| {
      assert Upto(ids, start + step) == ids[..start] + ids[start..Min(start + step, |ids|)];
      RecordsConcat(escrows, ids[..start], ids[start..Min(start + step, |ids|)]);
    }
  }

  /** Where page `page` starts, by repeated addition. */
  function Offset(page: nat, step: nat): nat {
    if page == 0 then 0 else Offset(page - 1, step) + step
  }

  lemma {:induction false} OffsetIsProduct(page: nat, step: nat)
    ensures Offset(page, step) == page * step
  {
    if page > 0 {
      OffsetIsProduct(page - 1, step);
      assert page * step == (page - 1) * step + step;
    }
  }

  lemma PageAt(escrows: map<nat, Escrow>, ids: seq<nat>, page: nat, size: nat, start: nat)
    requires start == Offset(page, PageSize(size)) <= U32_MAX
    ensures Page(escrows, ids, page, size)
      == Some(if start >= |ids| then [] else Records(escrows, ids[start..Min(start + PageSize(size), |ids|)]))
  {
    OffsetIsProduct(page, PageSize(size));
  }

  lemma PagesStep(escrows: map<nat, Escrow>, ids: seq<nat>, page: nat, size: nat, start: nat, step: nat)
    requires Pages(escrows, ids, page, size) == Some(Records(escrows, Upto(ids, start)))
    requires Page(escrows, ids, page, size) == Some(if start >= |ids| then [] else Records(escrows, ids[start..Min(start + step, |ids|)]))
    ensures Pages(escrows, ids, page + 1, size) == Some(Records(escrows, Upto(ids, start + step)))
  {
    SliceExtends(escrows, ids, start, step);
  }

  lemma PagesNext(escrows: map<nat, Escrow>, ids: seq<nat>, page: nat, size: nat, start: nat, step: nat)
    requires step == PageSize(size) && start == Offset(page, step) <= U32_MAX
    requires Pages(escrows, ids, page, size) == Some(Records(escrows, Upto(ids, start)))
    ensures Pages(escrows, ids, page + 1, size) == Some(Records(escrows, Upto(ids, start + step)))
  {
    PageAt(escrows, ids, page, size, start);
    PagesStep(escrows, ids, page, size, start, step);
  }

  lemma {:induction false} PagesUpto(escrows: map<nat, Escrow>, ids: seq<nat>, pages: nat, size: nat, step: nat, end: nat)
    requires step == PageSize(size) && end == Offset(pages, step) <= U32_MAX
    ensures Pages(escrows, ids, pages, size) == Some(Records(escrows, Upto(ids, end)))
  {
    if pages > 0 {
      PagesUpto(escrows, ids, pages - 1, size, step, end - step);
      PagesNext(escrows, ids, pages - 1, size, end - step, step);
    }
  }

  /** k pages of any size show exactly the first k * min(size, 50) ids of the index. */
  lemma PagesArePrefixes(escrows: map<nat, Escrow>, ids: seq<nat>, pages: nat, size: nat)
    requires pages * PageSize(size) <= U32_MAX
    ensures Pages(escrows, ids, pages, size) == Some(Records(escrows, Upto(ids, pages * PageSize(size))))
  {
    OffsetIsProduct(pages, PageSize(size));
    PagesUpto(escrows, ids, pages, size, PageSize(size), pages * PageSize(size));
  }

  lemma {:induction false} AllRecords(escrows: map<nat, Escrow>, ids: seq<nat>)
    requires forall i :: 0 <= i < |ids| ==> ids[i] in escrows
    ensures |Records(escrows, ids)| == |ids| && forall i :: 0 <= i < |ids| ==> Records(escrows, ids)[i] == escrows[ids[i]]
  {
    if ids != [] {
      AllRecords(escrows, ids[..|ids| - 1]);
    }
  }

  lemma {:induction false} IdsExist(escrows: map<nat, Escrow>, n: nat, role: Role, who: Address)
    ensures forall i :: 0 <= i < |IdsOf(escrows, n, role, who)| ==>
      var id := IdsOf(escrows, n, role, who)[i]; 1 <= id <= n && id in escrows && Party(escrows[id], role) == who
    ensures forall i, j :: 0 <= i < j < |IdsOf(escrows, n, role, who)| ==> IdsOf(escrows, n, role, who)[i] < IdsOf(escrows, n, role, who)[j]
    ensures forall id :: 1 <= id <= n && id in escrows && Party(escrows[id], role) == who ==> id in IdsOf(escrows, n, role, who)
  {
    if n > 0 {
      IdsExist(escrows, n - 1, role, who);
      var shorter := IdsOf(escrows, n - 1, role, who);
      forall id | 1 <= id <= n && id in escrows && Party(escrows[id], role) == who
        ensures id in IdsOf(escrows, n, role, who)
      {
        if id == n {
          assert IdsOf(escrows, n, role, who)[|shorter|] == n;
        } else {
          assert id in shorter;
        }
      }
    }
  }

  /** The records behind an index are exactly the party's records, one for each id, in ascending order. */
  lemma RecordsOfParty(escrows: map<nat, Escrow>, n: nat, role: Role, who: Address)
    ensures var ids := IdsOf(escrows, n, role, who);
      && |Records(escrows, ids)| == |ids|
      && forall i :: 0 <= i < |ids| ==> ids[i] in escrows && Records(escrows, ids)[i] == escrows[ids[i]]
  {
    IdsExist(escrows, n, role, who);
    AllRecords(escrows, IdsOf(escrows, n, role, who));
  }

  /** In every run, enough pages of any size list each escrow of the party exactly once, oldest first. */
  lemma PagesListTheParty(w: World, calls: seq<Call>, role: Role, who: Address, pages: nat, size: nat)
    requires Inv(w) && IndexOk(w, role, who) && SessionsOk(w)
    requires |Index(Run(w, calls), role, who)| <= pages * PageSize(size) <= U32_MAX
    ensures var v := Run(w, calls).vault;
      Pages(v.escrows, Index(Run(w, calls), role, who), pages, size)
        == Some(Records(v.escrows, IdsOf(v.escrows, v.escrowCount, role, who)))
  {
    var ids := Index(Run(w, calls), role, who);
    IndexesOnEveryRun(w, calls, role, who);
    PagesArePrefixes(Run(w, calls).vault.escrows, ids, pages, size);
    assert Upto(ids, pages * PageSize(size)) == ids;
  }

  /** Page size 0 is the one size that shows nothing, however many pages are read. */
  lemma SizeZeroShowsNothing(escrows: map<nat, Escrow>, ids: seq<nat>, pages: nat)
    ensures Pages(escrows, ids, pages, 0) == Some([])
  {
    assert pages * PageSize(0) == 0;
    PagesArePrefixes(escrows, ids, pages, 0);
  }
}
