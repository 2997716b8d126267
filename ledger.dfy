/** The shared state of the tax-collector simulation as a value, and the
    transaction every worker performs, as one atomic step on that value.
    Each transaction runs with both collectors' locks held, so no other
    worker can observe it half done; the lock protocol itself is not part
    of this module. */
module Ledger {

  /** A partner is only collected from if half its balance is at least this. */
  const Threshold: real := 100.0

  /** One collector's record: its id, its money and how many times it
      collected (`inCounter`) and got collected (`outCounter`). */
  datatype Collector = Collector(id: int, balance: real, inCounter: nat, outCounter: nat)

  /** Everything the workers share: the collectors, the expected total
      `globalBalance`, the two global counters and the flag that forbids
      transactions while set. */
  datatype State = State(
    collectors: seq<Collector>,
    globalBalance: real,
    globalInCounter: nat,
    globalOutCounter: nat,
    cancelPhase: bool)

  /** Balance, in-count and out-count summed over a run of collectors. */
  datatype Totals = Totals(balance: real, inCount: nat, outCount: nat)

  /** The three sums, accumulated from the first collector to the last. */
  function Sums(cs: seq<Collector>): Totals
  {
    if cs == [] then Totals(0.0, 0, 0)
    else
      var t := Sums(cs[..|cs| - 1]);
      var c := cs[|cs| - 1];
      Totals(t.balance + c.balance, t.inCount + c.inCounter, t.outCount + c.outCounter)
  }

  /** What holds whenever no transaction is in progress: ids are the
      positions, money adds up to the expected total, the per-collector
      counters add up to the global ones, and the two global counters agree. */
  ghost predicate Consistent(st: State)
  {
    (forall i :: 0 <= i < |st.collectors| ==> st.collectors[i].id == i) &&
    Sums(st.collectors) == Totals(st.globalBalance, st.globalInCounter, st.globalOutCounter) &&
    st.globalInCounter == st.globalOutCounter
  }

  /** No collector is in debt. */
  ghost predicate Solvent(cs: seq<Collector>)
  {
    forall i :: 0 <= i < |cs| ==> cs[i].balance >= 0.0
  }

  /** The state right after start-up with `n` collectors of `funds` each;
      transactions are still blocked. */
  function Initial(n: nat, funds: int): State
  {
    State(seq(n, i => Collector(i, funds as real, 0, 0)), (funds * n) as real, 0, 0, true)
  }

  /** Changing one record changes each sum by the difference between the new
      record and the old one. */
  lemma {:induction false} SumsUpdate(cs: seq<Collector>, i: nat, c: Collector)
    requires i < |cs|
    ensures Sums(cs[i := c]).balance == Sums(cs).balance - cs[i].balance + c.balance
    ensures Sums(cs[i := c]).inCount + cs[i].inCounter == Sums(cs).inCount + c.inCounter
    ensures Sums(cs[i := c]).outCount + cs[i].outCounter == Sums(cs).outCount + c.outCounter
  {
    var last := |cs| - 1;
    if i == last {
      assert cs[i := c][..last] == cs[..last];
    } else {
      assert cs[i := c][..last] == cs[..last][i := c];
      SumsUpdate(cs[..last], i, c);
    }
  }

  /** `n` collectors of `funds` each hold `funds * n` in total and have
      counted nothing yet. */
  lemma {:induction false} SumsOfFreshCollectors(n: nat, funds: int)
    ensures Sums(Initial(n, funds).collectors) == Totals((funds * n) as real, 0, 0)
  {
    if n > 0 {
      SumsOfFreshCollectors(n - 1, funds);
      assert Initial(n, funds).collectors[..n - 1] == Initial(n - 1, funds).collectors;
    }
  }

  /** Start-up establishes the invariant with every counter at zero, blocks
      transactions and, for non-negative funds, leaves nobody in debt. */
  lemma InitialConsistent(n: nat, funds: int)
    ensures Consistent(Initial(n, funds))
    ensures Initial(n, funds).cancelPhase
    ensures Sums(Initial(n, funds).collectors) == Totals((funds * n) as real, 0, 0)
    ensures Initial(n, funds).globalInCounter == Initial(n, funds).globalOutCounter == 0
    ensures funds >= 0 ==> Solvent(Initial(n, funds).collectors)
  {
    SumsOfFreshCollectors(n, funds);
  }

  /** A transaction may move money only if the partner keeps at least the
      threshold after halving and transactions are not blocked. */
  predicate Eligible(st: State, partnerID: nat)
    requires partnerID < |st.collectors|
  {
    st.collectors[partnerID].balance / 2.0 >= Threshold && !st.cancelPhase
  }

  /** One transaction of worker `myID` with `partnerID`, in the order the
      updates are made: my balance grows by half the partner's, the partner's
      is halved, then the partner's out-count, my in-count and the two global
      counters are each incremented.  An ineligible attempt changes nothing. */
  function Transaction(st: State, myID: nat, partnerID: nat): (r: State)
    requires myID < |st.collectors| && partnerID < |st.collectors|
    ensures |r.collectors| == |st.collectors|
  {
    if !Eligible(st, partnerID) then st
    else
      var cs0 := st.collectors;
      var cs1 := cs0[myID := cs0[myID].(balance := cs0[myID].balance + cs0[partnerID].balance / 2.0)];
      var cs2 := cs1[partnerID := cs1[partnerID].(balance := cs1[partnerID].balance / 2.0)];
      var cs3 := cs2[partnerID := cs2[partnerID].(outCounter := cs2[partnerID].outCounter + 1)];
      var cs4 := cs3[myID := cs3[myID].(inCounter := cs3[myID].inCounter + 1)];
      st.(collectors := cs4,
          globalInCounter := st.globalInCounter + 1,
          globalOutCounter := st.globalOutCounter + 1)
  }

  /** An attempt that is not eligible, in particular any attempt while
      `cancelPhase` is set, leaves the whole state as it was. */
  lemma IneligibleIsNoOp(st: State, myID: nat, partnerID: nat)
    requires myID < |st.collectors| && partnerID < |st.collectors|
    requires st.cancelPhase || st.collectors[partnerID].balance / 2.0 < Threshold
    ensures Transaction(st, myID, partnerID) == st
  {
  }

  /** The effect on the two collectors involved: the donor ends with exactly
      half its old balance, which is at least the threshold; the collector
      gains that same half, read before the donor was halved; each of their
      counters on the relevant side grows by one. */
  lemma TransferEffect(st: State, myID: nat, partnerID: nat)
    requires myID < |st.collectors| && partnerID < |st.collectors| && myID != partnerID
    requires Eligible(st, partnerID)
    ensures var r := Transaction(st, myID, partnerID);
      var half := st.collectors[partnerID].balance / 2.0;
      r.collectors[partnerID].balance == half >= Threshold &&
      r.collectors[myID].balance == st.collectors[myID].balance + half &&
      r.collectors[partnerID].outCounter == st.collectors[partnerID].outCounter + 1 &&
      r.collectors[partnerID].inCounter == st.collectors[partnerID].inCounter &&
      r.collectors[myID].inCounter == st.collectors[myID].inCounter + 1 &&
      r.collectors[myID].outCounter == st.collectors[myID].outCounter &&
      r.collectors[myID].id == st.collectors[myID].id &&
      r.collectors[partnerID].id == st.collectors[partnerID].id &&
      r.globalInCounter == st.globalInCounter + 1 &&
      r.globalOutCounter == st.globalOutCounter + 1
  {
  }

  /** Nothing outside the two collectors and the two global counters
      changes: every other collector, the expected total and the flag stay. */
  lemma TransactionFrame(st: State, myID: nat, partnerID: nat)
    requires myID < |st.collectors| && partnerID < |st.collectors|
    ensures var r := Transaction(st, myID, partnerID);
      (forall k :: 0 <= k < |st.collectors| && k != myID && k != partnerID ==>
         r.collectors[k] == st.collectors[k]) &&
      (forall k :: 0 <= k < |st.collectors| ==> r.collectors[k].id == st.collectors[k].id) &&
      r.globalBalance == st.globalBalance &&
      r.cancelPhase == st.cancelPhase
  {
  }

  /** A transaction between two different collectors moves money without
      creating or destroying any, and adds exactly one to the in-sum, the
      out-sum and each global counter when it succeeds. */
  lemma TransactionSums(st: State, myID: nat, partnerID: nat)
    requires myID < |st.collectors| && partnerID < |st.collectors| && myID != partnerID
    ensures var r := Transaction(st, myID, partnerID);
      var step := if Eligible(st, partnerID) then 1 else 0;
      Sums(r.collectors).balance == Sums(st.collectors).balance &&
      Sums(r.collectors).inCount == Sums(st.collectors).inCount + step &&
      Sums(r.collectors).outCount == Sums(st.collectors).outCount + step &&
      r.globalInCounter == st.globalInCounter + step &&
      r.globalOutCounter == st.globalOutCounter + step
  {
    if Eligible(st, partnerID) {
      var cs0 := st.collectors;
      var half := cs0[partnerID].balance / 2.0;
      var me := cs0[myID];
      var partner := cs0[partnerID];
      var cs1 := cs0[myID := me.(balance := me.balance + half)];
      var cs2 := cs1[partnerID := partner.(balance := half)];
      var cs3 := cs2[partnerID := partner.(balance := half, outCounter := partner.outCounter + 1)];
      var cs4 := cs3[myID := me.(balance := me.balance + half, inCounter := me.inCounter + 1)];
      assert Transaction(st, myID, partnerID).collectors == cs4;
      SumsUpdate(cs0, myID, cs1[myID]);
      SumsUpdate(cs1, partnerID, cs2[partnerID]);
      SumsUpdate(cs2, partnerID, cs3[partnerID]);
      SumsUpdate(cs3, myID, cs4[myID]);
    }
  }

  /** Every transaction keeps the invariant. */
  lemma TransactionPreservesConsistency(st: State, myID: nat, partnerID: nat)
    requires myID < |st.collectors| && partnerID < |st.collectors| && myID != partnerID
    requires Consistent(st)
    ensures Consistent(Transaction(st, myID, partnerID))
  {
    TransactionSums(st, myID, partnerID);
    TransactionFrame(st, myID, partnerID);
  }

  /** Balances never go negative, and no counter ever decreases. */
  lemma TransactionPreservesSolvency(st: State, myID: nat, partnerID: nat)
    requires myID < |st.collectors| && partnerID < |st.collectors| && myID != partnerID
    ensures var r := Transaction(st, myID, partnerID);
      (Solvent(st.collectors) ==> Solvent(r.collectors)) &&
      (forall k :: 0 <= k < |st.collectors| ==>
         r.collectors[k].inCounter >= st.collectors[k].inCounter &&
         r.collectors[k].outCounter >= st.collectors[k].outCounter) &&
      r.globalInCounter >= st.globalInCounter &&
      r.globalOutCounter >= st.globalOutCounter
  {
    TransactionFrame(st, myID, partnerID);
    if Eligible(st, partnerID) {
      TransferEffect(st, myID, partnerID);
    }
  }

  /** Why a worker never trades with itself: if the two ids were the same,
      reading half the balance, adding it and then halving would leave three
      quarters of the money, so the total would shrink. */
  lemma SelfTransactionLosesMoney(st: State, myID: nat)
    requires myID < |st.collectors|
    requires Eligible(st, myID)
    ensures Transaction(st, myID, myID).collectors[myID].balance == st.collectors[myID].balance * 3.0 / 4.0
    ensures Sums(Transaction(st, myID, myID).collectors).balance < Sums(st.collectors).balance
  {
    var cs := st.collectors;
    var b := cs[myID].balance;
    var r := Transaction(st, myID, myID).collectors;
    assert r == cs[myID := cs[myID].(balance := (b + b / 2.0) / 2.0,
                                    inCounter := cs[myID].inCounter + 1,
                                    outCounter := cs[myID].outCounter + 1)];
    SumsUpdate(cs, myID, r[myID]);
  }

  /** What can happen to the shared state between start-up and
      reconciliation: a transaction attempt, or the controller setting or
      clearing the flag. */
  datatype Event = Attempt(myID: nat, partnerID: nat) | SetCancelPhase(flag: bool)

  /** An attempt names two different collectors that exist. */
  predicate WellFormed(e: Event, n: nat)
  {
    e.Attempt? ==> e.myID < n && e.partnerID < n && e.myID != e.partnerID
  }

  function Step(st: State, e: Event): (r: State)
    requires WellFormed(e, |st.collectors|)
    ensures |r.collectors| == |st.collectors|
  {
    match e
    case Attempt(myID, partnerID) => Transaction(st, myID, partnerID)
    case SetCancelPhase(flag) => st.(cancelPhase := flag)
  }

  /** The state after the events happen one after another. */
  function Run(st: State, events: seq<Event>): (r: State)
    requires forall i :: 0 <= i < |events| ==> WellFormed(events[i], |st.collectors|)
    ensures |r.collectors| == |st.collectors|
    decreases |events|
  {
    if events == [] then st else Run(Step(st, events[0]), events[1..])
  }

  /** The invariant, and with it conservation of money and agreement of the
      counters, holds after any interleaving of transactions and flag
      changes. */
  lemma {:induction false} RunPreservesConsistency(st: State, events: seq<Event>)
    requires forall i :: 0 <= i < |events| ==> WellFormed(events[i], |st.collectors|)
    requires Consistent(st)
    ensures Consistent(Run(st, events))
    ensures Run(st, events).globalBalance == st.globalBalance
    decreases |events|
  {
    if events != [] {
      match events[0]
      case Attempt(myID, partnerID) =>
        TransactionPreservesConsistency(st, myID, partnerID);
        TransactionFrame(st, myID, partnerID);
      case SetCancelPhase(flag) =>
    }
    if events != [] {
      RunPreservesConsistency(Step(st, events[0]), events[1..]);
    }
  }

  /** Without debt at the start there is none later, and no counter of any
      collector nor either global counter ever decreases. */
  lemma {:induction false} RunPreservesSolvency(st: State, events: seq<Event>)
    requires forall i :: 0 <= i < |events| ==> WellFormed(events[i], |st.collectors|)
    ensures Solvent(st.collectors) ==> Solvent(Run(st, events).collectors)
    ensures var r := Run(st, events);
      (forall k :: 0 <= k < |st.collectors| ==>
         r.collectors[k].inCounter >= st.collectors[k].inCounter &&
         r.collectors[k].outCounter >= st.collectors[k].outCounter) &&
      r.globalInCounter >= st.globalInCounter &&
      r.globalOutCounter >= st.globalOutCounter
    decreases |events|
  {
    if events != [] {
      match events[0]
      case Attempt(myID, partnerID) =>
        TransactionPreservesSolvency(st, myID, partnerID);
      case SetCancelPhase(flag) =>
    }
    if events != [] {
      RunPreservesSolvency(Step(st, events[0]), events[1..]);
    }
  }

  /** While the flag stays set (during set-up and during wind-down), any
      number of attempts leave the state exactly as it was. */
  lemma {:induction false} BlockedAttemptsChangeNothing(st: State, events: seq<Event>)
    requires forall i :: 0 <= i < |events| ==> WellFormed(events[i], |st.collectors|)
    requires st.cancelPhase
    requires forall i :: 0 <= i < |events| ==> events[i].Attempt?
    ensures Run(st, events) == st
    decreases |events|
  {
    if events != [] {
      IneligibleIsNoOp(st, events[0].myID, events[0].partnerID);
      BlockedAttemptsChangeNothing(st, events[1..]);
    }
  }

  /** The whole life of the program: start-up with `n` collectors of `funds`
      each, attempts while blocked, the flag cleared, any interleaving of
      attempts and flag changes, the flag set, more attempts.  At the end the
      money adds up to `funds * n`, all four counts agree, and with
      non-negative funds nobody is in debt. */
  lemma Lifecycle(n: nat, funds: int, setup: seq<Event>, running: seq<Event>, windDown: seq<Event>)
    requires forall i :: 0 <= i < |setup| ==> setup[i].Attempt? && WellFormed(setup[i], n)
    requires forall i :: 0 <= i < |running| ==> WellFormed(running[i], n)
    requires forall i :: 0 <= i < |windDown| ==> windDown[i].Attempt? && WellFormed(windDown[i], n)
    ensures
      var st0 := Run(Initial(n, funds), setup);
      var st1 := Run(Run(st0.(cancelPhase := false), running).(cancelPhase := true), windDown);
      var t := Sums(st1.collectors);
      st0 == Initial(n, funds) &&
      st1 == Run(st0.(cancelPhase := false), running).(cancelPhase := true) &&
      t.balance == st1.globalBalance == (funds * n) as real &&
      t.inCount == st1.globalInCounter == st1.globalOutCounter == t.outCount &&
      (funds >= 0 ==> Solvent(st1.collectors))
  {
    var init := Initial(n, funds);
    InitialConsistent(n, funds);
    BlockedAttemptsChangeNothing(init, setup);
    var st := init.(cancelPhase := false);
    RunPreservesConsistency(st, running);
    var ran := Run(st, running);
    var stopped := ran.(cancelPhase := true);
    BlockedAttemptsChangeNothing(stopped, windDown);
    if funds >= 0 {
      RunPreservesSolvency(st, running);
    }
  }
}
