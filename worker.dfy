/** The sequential pieces of one worker's iteration that come before the
    transaction itself: drawing a partner and choosing the order in which the
    two collectors' locks are taken. */
module Worker {

  /** The pair (first lock, second lock) taken for a transaction between
      `myID` and `partnerID`: the smaller id is always locked first. */
  function LockOrder(myID: int, partnerID: int): (order: (int, int))
    ensures order.0 <= order.1
    ensures multiset{order.0, order.1} == multiset{myID, partnerID}
    ensures myID != partnerID ==> order.0 < order.1
  {
    if partnerID < myID then (partnerID, myID) else (myID, partnerID)
  }

  /** Which collector is "mine" and which is the partner does not matter:
      two workers that meet over the same pair take the two locks in the
      same order. */
  lemma LockOrderIgnoresRoles(a: int, b: int)
    ensures LockOrder(a, b) == LockOrder(b, a)
    ensures LockOrder(a, b).0 == (if a <= b then a else b)
    ensures LockOrder(a, b).1 == (if a <= b then b else a)
  {
    var (x, y) := LockOrder(a, b);
    var (u, v) := LockOrder(b, a);
    assert x in multiset{a, b} && y in multiset{a, b};
    assert u in multiset{a, b} && v in multiset{a, b};
  }

  /** Draw partner ids until one differs from `myID`.  `roll(k)` is the k-th
      value the worker's generator yields, always in [0, collectorCount);
      `draws` is how many values the loop consumed. */
  method ChoosePartner(myID: int, collectorCount: nat, roll: nat -> int)
    returns (partnerID: int, draws: nat)
    requires forall k :: 0 <= roll(k) < collectorCount
    requires exists k :: roll(k) != myID
    ensures 0 <= partnerID < collectorCount && partnerID != myID
    ensures 0 < draws && partnerID == roll(draws - 1)
    ensures forall k: nat :: k < draws - 1 ==> roll(k) == myID
  {
    ghost var later: nat :| roll(later) != myID;
    partnerID := roll(0);
    draws := 1;
    while partnerID == myID
      invariant 0 < draws <= later + 1
      invariant partnerID == roll(draws - 1)
      invariant forall k: nat :: k < draws - 1 ==> roll(k) == myID
      decreases later + 1 - draws
    {
      partnerID := roll(draws);
      draws := draws + 1;
    }
  }
}
