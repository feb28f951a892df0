/** The run theorems of the escrow contract, from the storage that initialisation leaves behind. */
module EscrowGenesis {
  import opened Options
  import opened Ledger
  import opened EscrowModel
  import Authority = EscrowAuthority
  import Funds = EscrowFunds
  import Index = EscrowIndex
  import Log = EscrowLog
  import Recovery = EscrowRecovery

  /** Whatever the ledger holds and whoever initialises, the starting point of every run theorem is met. */
  lemma GenesisReady(now: nat, bank: Bank, admin: Address, treasury: Address, feeBps: nat, approved: set<Address>, delay: nat,
                     role: Index.Role, who: Address)
    requires Genesis(now, bank, admin, treasury, feeBps, approved, delay).Some?
    ensures var w := Genesis(now, bank, admin, treasury, feeBps, approved, delay).value;
      && Funds.Inv(w) && Index.IndexOk(w, role, who) && Index.SessionsOk(w) && Recovery.EmergencyOk(w)
      && w.vault.escrows == map[] && w.vault.milestones == map[] && w.log == map[] && w.failures == map[] && w.lowFee == map[]
      && w.emergency == Emergency(0, map[], {}, {}, None)
  {
    Funds.GenesisOk(now, bank, admin, treasury, feeBps, approved, delay);
  }

  /**
   So in every run of an initialised contract all the invariants hold together: funds, indexes, session ids, logs,
   retries, emergency votes, the breaker and the low-fee counter.
   */
  lemma EverythingOnEveryRun(now: nat, bank: Bank, admin: Address, treasury: Address, feeBps: nat, approved: set<Address>, delay: nat,
                             calls: seq<Call>, id: nat, role: Index.Role, who: Address, pair: (Address, Address))
    requires Genesis(now, bank, admin, treasury, feeBps, approved, delay).Some?
    ensures var w0 := Genesis(now, bank, admin, treasury, feeBps, approved, delay).value; var w := Run(w0, calls);
      && Funds.Inv(w) && Index.IndexOk(w, role, who) && Index.SessionsOk(w) && Recovery.EmergencyOk(w)
      && Log.LogOk(Log.LogOf(w, id), Log.EscrowStatus(w.vault, id), Log.MilestoneEscrowStatus(w.vault, id), w.now)
      && Recovery.RetryOk(w, Recovery.FailureTimes(w0, calls, id), id)
      && Recovery.BreakerOk(w.emergency.circuit, w.now, Recovery.Executions(w0, calls), Recovery.LargestPool(w0, calls) / 10)
      && Authority.LowFeeReleases(w0, calls, pair) == Lookup(w.lowFee, pair, 0) <= MAX_LOW_FEE_SESSIONS_PER_PAIR
  {
    GenesisReady(now, bank, admin, treasury, feeBps, approved, delay, role, who);
    var w0 := Genesis(now, bank, admin, treasury, feeBps, approved, delay).value;
    Funds.RunKeeps(w0, calls);
    Index.IndexesOnEveryRun(w0, calls, role, who);
    Log.LogsOnEveryRun(w0, calls, id);
    Recovery.RetriesOnEveryRun(w0, calls, id);
    Recovery.EmergencyOnEveryRun(w0, calls);
    Recovery.BreakerCounts(w0, calls);
    Authority.LowFeeReleasesOnEveryRun(w0, calls, pair);
  }
}
