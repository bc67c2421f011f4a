/** Ledger arithmetic on the abstract view of a bank: a map from account id
    to balance. A transfer moves an amount from one entry to another; the
    lemmas here show that it leaves the ledger's total unchanged. */
module Sums {

  /** The total of all balances in a ledger view. */
  ghost function Sum(m: map<string, int>): int
    decreases |m|
  {
    if m == map[] then 0
    else
      var k :| k in m;
      m[k] + Sum(m - {k})
  }

  /** Any entry can be split off the total, whichever key Sum happened to pick. */
  lemma {:induction false} SumRemove(m: map<string, int>, k: string)
    requires k in m
    ensures Sum(m) == m[k] + Sum(m - {k})
    decreases |m|
  {
    var j :| j in m && Sum(m) == m[j] + Sum(m - {j});
    if j != k {
      var mj, mk := m - {j}, m - {k};
      assert k in mj && j in mk;
      SumRemove(mj, k);
      SumRemove(mk, j);
      assert mj - {k} == mk - {j};
    }
  }

  /** Overwriting one entry changes the total by exactly the difference. */
  lemma SumUpdate(m: map<string, int>, k: string, v: int)
    requires k in m
    ensures Sum(m[k := v]) == Sum(m) - m[k] + v
  {
    SumRemove(m, k);
    SumRemove(m[k := v], k);
    assert m[k := v] - {k} == m - {k};
  }

  /** The ledger view after `amount` moves from account `src` to account `dst`
      of the same ledger (a withdraw followed by a deposit). */
  function Transfer(m: map<string, int>, src: string, dst: string, amount: int): (r: map<string, int>)
    requires src in m && dst in m
    ensures r.Keys == m.Keys
    ensures src != dst ==> r[src] == m[src] - amount && r[dst] == m[dst] + amount
    ensures src == dst ==> r == m
    ensures forall k | k in m && k != src && k != dst :: r[k] == m[k]
  {
    var afterWithdraw := m[src := m[src] - amount];
    afterWithdraw[dst := afterWithdraw[dst] + amount]
  }

  /** A transfer inside one ledger conserves its total. */
  lemma TransferConserves(m: map<string, int>, src: string, dst: string, amount: int)
    requires src in m && dst in m
    ensures Sum(Transfer(m, src, dst, amount)) == Sum(m)
  {
    var afterWithdraw := m[src := m[src] - amount];
    var afterDeposit := afterWithdraw[dst := afterWithdraw[dst] + amount];
    assert Transfer(m, src, dst, amount) == afterDeposit;
    SumUpdate(m, src, m[src] - amount);
    SumUpdate(afterWithdraw, dst, afterWithdraw[dst] + amount);
  }
}
