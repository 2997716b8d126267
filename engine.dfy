/** The program's shared state as one object: the array of collector records,
    the global ledger and the flag, updated in place by start-up, by the
    workers' transactions and by the controller, and read back by the final
    reconciliation. */
module Engine {
  import opened Ledger

  class Economy {
    var collectors: array<Collector>
    var globalBalance: real
    var globalInCounter: nat
    var globalOutCounter: nat
    var cancelPhase: bool

    /** The current contents as a value of the specification. */
    function Snapshot(): State
      reads this, collectors
    {
      State(collectors[..], globalBalance, globalInCounter, globalOutCounter, cancelPhase)
    }

    ghost predicate Valid()
      reads this, collectors
    {
      Consistent(Snapshot())
    }

    /** Start-up: the ledger is set to `funds * n` with zero counters and
        transactions blocked, then every collector is given its id and
        `funds`. */
    constructor Init(n: nat, funds: int)
      ensures fresh(collectors)
      ensures Snapshot() == Initial(n, funds)
      ensures Valid() && cancelPhase
      ensures Sums(collectors[..]).balance == globalBalance == (funds * n) as real
      ensures funds >= 0 ==> Solvent(collectors[..])
    {
      globalBalance := (funds * n) as real;
      globalInCounter := 0;
      globalOutCounter := 0;
      cancelPhase := true;
      var cs := new Collector[n];
      for i := 0 to n
        invariant forall k :: 0 <= k < i ==> cs[k] == Collector(k, funds as real, 0, 0)
      {
        cs[i] := Collector(i, funds as real, 0, 0);
      }
      collectors := cs;
      new;
      assert collectors[..] == Initial(n, funds).collectors;
      InitialConsistent(n, funds);
    }

    /** One transaction attempt of worker `myID` with `partnerID`, done while
        both collectors are locked: if the partner keeps at least the
        threshold after halving and transactions are allowed, half the
        partner's balance moves to `myID` and the four counters advance. */
    method Transact(myID: nat, partnerID: nat)
      requires Valid()
      requires myID < collectors.Length && partnerID < collectors.Length && myID != partnerID
      modifies collectors, `globalInCounter, `globalOutCounter
      ensures Valid()
      ensures Snapshot() == Transaction(old(Snapshot()), myID, partnerID)
    {
      if collectors[partnerID].balance / 2.0 >= Threshold && !cancelPhase {
        collectors[myID] := collectors[myID].(balance := collectors[myID].balance + collectors[partnerID].balance / 2.0);
        collectors[partnerID] := collectors[partnerID].(balance := collectors[partnerID].balance / 2.0);
        collectors[partnerID] := collectors[partnerID].(outCounter := collectors[partnerID].outCounter + 1);
        collectors[myID] := collectors[myID].(inCounter := collectors[myID].inCounter + 1);
        globalInCounter := globalInCounter + 1;
        globalOutCounter := globalOutCounter + 1;
      }
      TransactionPreservesConsistency(old(Snapshot()), myID, partnerID);
    }

    /** The controller clears the flag once the workers are running and sets
        it again before cancelling them. */
    method SetCancelPhase(flag: bool)
      requires Valid()
      modifies `cancelPhase
      ensures Valid()
      ensures Snapshot() == old(Snapshot()).(cancelPhase := flag)
    {
      cancelPhase := flag;
    }

    /** Final reconciliation, after every worker has been joined: sum the
        balances and counters of all collectors.  On a consistent state the
        sums equal the ledger. */
    method Reconcile() returns (balanceSum: real, inCountSum: nat, outCountSum: nat)
      ensures Totals(balanceSum, inCountSum, outCountSum) == Sums(collectors[..])
      ensures Valid() ==>
        balanceSum == globalBalance &&
        inCountSum == globalInCounter == globalOutCounter == outCountSum
    {
      balanceSum, inCountSum, outCountSum := 0.0, 0, 0;
      for i := 0 to collectors.Length
        invariant Totals(balanceSum, inCountSum, outCountSum) == Sums(collectors[..i])
      {
        assert collectors[..i + 1][..i] == collectors[..i];
        balanceSum := balanceSum + collectors[i].balance;
        inCountSum := inCountSum + collectors[i].inCounter;
        outCountSum := outCountSum + collectors[i].outCounter;
      }
      assert collectors[..collectors.Length] == collectors[..];
    }
  }

  /** Attempts that name two different existing collectors. */
  predicate ValidPairs(pairs: seq<(nat, nat)>, n: nat)
  {
    forall i :: 0 <= i < |pairs| ==> pairs[i].0 < n && pairs[i].1 < n && pairs[i].0 != pairs[i].1
  }

  /** The main program with the timed concurrent run replaced by one
      interleaving of the workers' attempts: start-up, attempts before the
      flag is cleared, the attempts of the run, attempts after the flag is
      set again, then reconciliation.  The reconciled sums match the ledger:
      the money adds up to `funds * n` and all four counts agree.  The final
      records are what the per-collector report prints; with non-negative
      funds nobody ends in debt. */
  method Simulate(n: nat, funds: int, beforeStart: seq<(nat, nat)>,
                  running: seq<(nat, nat)>, afterStop: seq<(nat, nat)>)
    returns (expected: real, balanceSum: real, inCountSum: nat, outCountSum: nat,
             globalIn: nat, globalOut: nat, final: seq<Collector>)
    requires ValidPairs(beforeStart, n) && ValidPairs(running, n) && ValidPairs(afterStop, n)
    ensures expected == (funds * n) as real
    ensures balanceSum == expected
    ensures inCountSum == globalIn == globalOut == outCountSum
    ensures globalIn <= |running|
    ensures |final| == n && Sums(final) == Totals(balanceSum, inCountSum, outCountSum)
    ensures funds >= 0 ==> Solvent(final)
  {
    var economy := new Economy.Init(n, funds);
    for j := 0 to |beforeStart|
      invariant economy.Valid() && economy.collectors.Length == n && fresh(economy.collectors)
      invariant economy.Snapshot() == Initial(n, funds)
    {
      IneligibleIsNoOp(economy.Snapshot(), beforeStart[j].0, beforeStart[j].1);
      economy.Transact(beforeStart[j].0, beforeStart[j].1);
    }
    economy.SetCancelPhase(false);
    for j := 0 to |running|
      invariant economy.Valid() && economy.collectors.Length == n && fresh(economy.collectors)
      invariant economy.globalBalance == (funds * n) as real
      invariant economy.globalInCounter <= j
      invariant funds >= 0 ==> Solvent(economy.collectors[..])
    {
      TransactionSums(economy.Snapshot(), running[j].0, running[j].1);
      TransactionPreservesSolvency(economy.Snapshot(), running[j].0, running[j].1);
      economy.Transact(running[j].0, running[j].1);
    }
    economy.SetCancelPhase(true);
    ghost var stopped := economy.Snapshot();
    for j := 0 to |afterStop|
      invariant economy.Valid() && economy.collectors.Length == n && fresh(economy.collectors)
      invariant economy.Snapshot() == stopped
    {
      IneligibleIsNoOp(economy.Snapshot(), afterStop[j].0, afterStop[j].1);
      economy.Transact(afterStop[j].0, afterStop[j].1);
    }
    balanceSum, inCountSum, outCountSum := economy.Reconcile();
    final := economy.collectors[..];
    expected := economy.globalBalance;
    globalIn, globalOut := economy.globalInCounter, economy.globalOutCounter;
  }
}
