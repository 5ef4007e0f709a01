/**
 * Worked examples of `calculateBalances` on small groups, evaluated step by
 * step: three friends sharing a dinner, the same after one of them has paid
 * back, a group where sub-cent leftovers add up to more than a cent that
 * no suggested payment covers, a cycle of transfers that cancels out, and a
 * fare split into shares of 3.33, 3.33 and 3.34.
 */
module Scenarios {
  import opened Types
  import opened NetBalances
  import opened Settlement
  import opened Balances

  const Alice := Person(1, "Alice")
  const Bob := Person(2, "Bob")
  const Carol := Person(3, "Carol")

  /** Alice pays 30 for a dinner split evenly between the three of them. */
  const Dinner := Expense("e1", "2024-01-01", 1, 30.0, "dinner",
    [ExpenseShare(1, 10.0), ExpenseShare(2, 10.0), ExpenseShare(3, 10.0)])

  const DinnerGroup := Group("g1", "dinner", [Alice, Bob, Carol], [Dinner], [])

  /** The same, after Bob has paid Alice back. */
  const PaidBackGroup := Group("g1", "dinner", [Alice, Bob, Carol], [Dinner],
    [Transfer("t1", "2024-01-02", 2, 1, 10.0)])

  /** All three start at zero, in the order listed. */
  lemma DinnerStart()
    ensures InitPeople(DinnerGroup.people) == Ledger([1, 2, 3], map[1 := 0.0, 2 := 0.0, 3 := 0.0])
  {
    var ps := DinnerGroup.people;
    assert ps == [Person(1, "Alice"), Person(2, "Bob"), Person(3, "Carol")];
    assert ps[..2][..1] == [Person(1, "Alice")];
    assert ps[..2] == [Person(1, "Alice"), Person(2, "Bob")];
    assert InitPeople(ps[..1]) == Ledger([1], map[1 := 0.0]);
    assert InitPeople(ps[..2]) == Ledger([1, 2], map[1 := 0.0, 2 := 0.0]);
  }

  /** The three shares of the dinner, once Alice is credited with the bill. */
  lemma DinnerShares(l: Ledger)
    requires l == Ledger([1, 2, 3], map[1 := 30.0, 2 := 0.0, 3 := 0.0])
    ensures ApplyShares(l, Dinner.shares) == Ledger([1, 2, 3], map[1 := 20.0, 2 := -10.0, 3 := -10.0])
  {
    var sh := Dinner.shares;
    assert sh[..2][..1] == [ExpenseShare(1, 10.0)];
    assert sh[..2] == [ExpenseShare(1, 10.0), ExpenseShare(2, 10.0)];
    assert ApplyShares(l, sh[..1]) == Ledger([1, 2, 3], map[1 := 20.0, 2 := 0.0, 3 := 0.0]);
    assert ApplyShares(l, sh[..2]) == Ledger([1, 2, 3], map[1 := 20.0, 2 := -10.0, 3 := 0.0]);
  }

  /** The dinner leaves Alice owed 20 and each of the others owing 10. */
  lemma DinnerNet()
    ensures Net(DinnerGroup) == Ledger([1, 2, 3], map[1 := 20.0, 2 := -10.0, 3 := -10.0])
  {
    DinnerStart();
    var l0 := InitPeople(DinnerGroup.people);
    var l1 := l0.Credit(1, 30.0);
    assert l1 == Ledger([1, 2, 3], map[1 := 30.0, 2 := 0.0, 3 := 0.0]);
    DinnerShares(l1);
    assert DinnerGroup.expenses[..0] == [];
    assert ApplyExpenses(l0, DinnerGroup.expenses) == ApplyExpense(l0, Dinner);
  }

  /** Bob and then Carol each pay Alice 10. */
  lemma DinnerPayments()
    ensures Payments(DinnerGroup) == [Balance(2, 1, 10.0), Balance(3, 1, 10.0)]
  {
    DinnerNet();
    var net := Net(DinnerGroup);
    var ids := net.order;
    assert ids[..2][..1] == [1] && ids[..2] == [1, 2] && ids[..1] == [1];
    assert DebtorsOf(ids[..1], net) == [];
    assert DebtorsOf(ids[..2], net) == [Party(2, 10.0)];
    assert Debtors(net) == [Party(2, 10.0), Party(3, 10.0)];
    assert CreditorsOf(ids[..1], net) == [Party(1, 20.0)];
    assert CreditorsOf(ids[..2], net) == [Party(1, 20.0)];
    assert Creditors(net) == [Party(1, 20.0)];
    RoundCentsWhole(1000);
    assert Pay([Party(2, 10.0), Party(3, 10.0)], 10.0) == [Party(3, 10.0)];
    assert Pay([Party(1, 20.0)], 10.0) == [Party(1, 10.0)];
    assert Pay([Party(3, 10.0)], 10.0) == [];
    assert Settle([Party(3, 10.0)], [Party(1, 10.0)]) == [Balance(3, 1, 10.0)];
  }

  /** After Bob's transfer only Carol owes anything: 10, to Alice. */
  lemma PaidBackNet()
    ensures Net(PaidBackGroup) == Ledger([1, 2, 3], map[1 := 10.0, 2 := 0.0, 3 := -10.0])
  {
    DinnerNet();
    var l := ApplyExpenses(InitPeople(PaidBackGroup.people), PaidBackGroup.expenses);
    assert l == Net(DinnerGroup);
    assert PaidBackGroup.transfers[..0] == [];
  }

  /** Bob, now even, is neither a debtor nor a creditor. */
  lemma PaidBackParties()
    ensures Debtors(Net(PaidBackGroup)) == [Party(3, 10.0)]
    ensures Creditors(Net(PaidBackGroup)) == [Party(1, 10.0)]
  {
    PaidBackNet();
    var net := Net(PaidBackGroup);
    var ids := net.order;
    assert ids[..2][..1] == [1] && ids[..2] == [1, 2] && ids[..1] == [1];
    assert DebtorsOf(ids[..1], net) == [];
    assert DebtorsOf(ids[..2], net) == [];
    assert Debtors(net) == [Party(3, 10.0)];
    assert CreditorsOf(ids[..1], net) == [Party(1, 10.0)];
    assert CreditorsOf(ids[..2], net) == [Party(1, 10.0)];
    assert Creditors(net) == [Party(1, 10.0)];
  }

  /** Bob, now even, appears in no payment; Carol pays Alice 10. */
  lemma PaidBackPayments()
    ensures Payments(PaidBackGroup) == [Balance(3, 1, 10.0)]
  {
    PaidBackParties();
    RoundCentsWhole(1000);
    assert Pay([Party(3, 10.0)], 10.0) == [];
    assert Pay([Party(1, 10.0)], 10.0) == [];
  }

  /**
   * Net balances that add up to zero: persons 1 and 2 are each owed 5.009,
   * persons 3 and 4 each owe 5, and person 5 owes 0.018 (as four transfers
   * would leave them: 1 to 3 and 2 to 4 of 5 each, 1 to 5 and 2 to 5 of
   * 0.009 each).
   */
  const LeftoverNet := Ledger([1, 2, 3, 4, 5], map[1 := 5.009, 2 := 5.009, 3 := -5.0, 4 := -5.0, 5 := -0.018])

  /** Persons 3, 4 and 5 owe, in map order. */
  lemma LeftoverDebtors()
    ensures Debtors(LeftoverNet) == [Party(3, 5.0), Party(4, 5.0), Party(5, 0.018)]
  {
    var net := LeftoverNet;
    assert [1][..0] == [] && [1, 2][..1] == [1] && [1, 2, 3][..2] == [1, 2];
    assert [1, 2, 3, 4][..3] == [1, 2, 3] && [1, 2, 3, 4, 5][..4] == [1, 2, 3, 4];
    assert DebtorsOf([1], net) == [];
    assert DebtorsOf([1, 2], net) == [];
    assert DebtorsOf([1, 2, 3], net) == [Party(3, 5.0)];
    assert DebtorsOf([1, 2, 3, 4], net) == [Party(3, 5.0), Party(4, 5.0)];
  }

  /** Persons 1 and 2 are owed, in map order. */
  lemma LeftoverCreditors()
    ensures Creditors(LeftoverNet) == [Party(1, 5.009), Party(2, 5.009)]
  {
    var net := LeftoverNet;
    assert [1][..0] == [] && [1, 2][..1] == [1] && [1, 2, 3][..2] == [1, 2];
    assert [1, 2, 3, 4][..3] == [1, 2, 3] && [1, 2, 3, 4, 5][..4] == [1, 2, 3, 4];
    assert CreditorsOf([1], net) == [Party(1, 5.009)];
    assert CreditorsOf([1, 2], net) == [Party(1, 5.009), Party(2, 5.009)];
    assert CreditorsOf([1, 2, 3], net) == [Party(1, 5.009), Party(2, 5.009)];
    assert CreditorsOf([1, 2, 3, 4], net) == [Party(1, 5.009), Party(2, 5.009)];
  }

  /**
   * Each creditor is dropped with 0.009 still owed to them, so the
   * creditors run out while person 5 still owes 0.018: the balances sum to
   * zero, yet the two payments leave person 5 more than a cent in debt.
   */
  lemma LeftoverPayments()
    ensures LeftoverNet.Total() == 0.0
    ensures Settle(Debtors(LeftoverNet), Creditors(LeftoverNet)) == [Balance(3, 1, 5.0), Balance(4, 2, 5.0)]
  {
    LeftoverDebtors();
    LeftoverCreditors();
    var net := LeftoverNet;
    assert [1][..0] == [] && [1, 2][..1] == [1] && [1, 2, 3][..2] == [1, 2];
    assert [1, 2, 3, 4][..3] == [1, 2, 3] && [1, 2, 3, 4, 5][..4] == [1, 2, 3, 4];
    assert net.SumOf([1]) == 5.009;
    assert net.SumOf([1, 2]) == 10.018;
    assert net.SumOf([1, 2, 3]) == 5.018;
    assert net.SumOf([1, 2, 3, 4]) == 0.018;
    RoundCentsWhole(500);
    assert Pay([Party(3, 5.0), Party(4, 5.0), Party(5, 0.018)], 5.0) == [Party(4, 5.0), Party(5, 0.018)];
    assert Pay([Party(1, 5.009), Party(2, 5.009)], 5.0) == [Party(2, 5.009)];
    assert Pay([Party(4, 5.0), Party(5, 0.018)], 5.0) == [Party(5, 0.018)];
    assert Pay([Party(2, 5.009)], 5.0) == [];
  }

  /** Alice pays Bob 5, Bob pays Carol 5, and Carol pays Alice 5: a cycle that cancels out. */
  const Cycle := Group("g2", "cycle", [Alice, Bob, Carol], [],
    [Transfer("t1", "2024-02-01", 1, 2, 5.0), Transfer("t2", "2024-02-02", 2, 3, 5.0),
     Transfer("t3", "2024-02-03", 3, 1, 5.0)])

  /** The three transfers of the cycle, from three zero balances. */
  lemma CycleTransfers(l: Ledger)
    requires l == Ledger([1, 2, 3], map[1 := 0.0, 2 := 0.0, 3 := 0.0])
    ensures ApplyTransfers(l, Cycle.transfers) == l
  {
    var ts := Cycle.transfers;
    assert ts[..2][..1] == ts[..1] && ts[..1][..0] == [];
    assert ApplyTransfers(l, ts[..1]) == Ledger([1, 2, 3], map[1 := 5.0, 2 := -5.0, 3 := 0.0]);
    assert ApplyTransfers(l, ts[..2]) == Ledger([1, 2, 3], map[1 := 5.0, 2 := 0.0, 3 := -5.0]);
  }

  /** After the cycle everyone is back at zero. */
  lemma CycleNet()
    ensures Net(Cycle) == Ledger([1, 2, 3], map[1 := 0.0, 2 := 0.0, 3 := 0.0])
  {
    DinnerStart();
    var l0 := InitPeople(Cycle.people);
    assert l0 == InitPeople(DinnerGroup.people);
    assert ApplyExpenses(l0, Cycle.expenses) == l0;
    CycleTransfers(l0);
  }

  /** A cycle of equal transfers needs no payment. */
  lemma CyclePayments()
    ensures Payments(Cycle) == []
  {
    CycleNet();
    var net := Net(Cycle);
    assert [1, 2, 3][..2] == [1, 2] && [1, 2][..1] == [1] && [1][..0] == [];
    assert Debtors(net) == [];
  }

  /** Alice pays 10 for a taxi; the shares are 3.33, 3.33 and 3.34. */
  const Taxi := Expense("e2", "2024-03-01", 1, 10.0, "taxi",
    [ExpenseShare(1, 3.33), ExpenseShare(2, 3.33), ExpenseShare(3, 3.34)])

  const TaxiGroup := Group("g3", "taxi", [Alice, Bob, Carol], [Taxi], [])

  /** The three shares of the taxi, once Alice is credited with the fare. */
  lemma TaxiShares(l: Ledger)
    requires l == Ledger([1, 2, 3], map[1 := 10.0, 2 := 0.0, 3 := 0.0])
    ensures ApplyShares(l, Taxi.shares) == Ledger([1, 2, 3], map[1 := 6.67, 2 := -3.33, 3 := -3.34])
  {
    var sh := Taxi.shares;
    assert sh[..2][..1] == [ExpenseShare(1, 3.33)];
    assert sh[..2] == [ExpenseShare(1, 3.33), ExpenseShare(2, 3.33)];
    assert ApplyShares(l, sh[..1]) == Ledger([1, 2, 3], map[1 := 6.67, 2 := 0.0, 3 := 0.0]);
    assert ApplyShares(l, sh[..2]) == Ledger([1, 2, 3], map[1 := 6.67, 2 := -3.33, 3 := 0.0]);
  }

  /** Alice is owed 6.67; Bob owes 3.33 and Carol 3.34. */
  lemma TaxiNet()
    ensures Net(TaxiGroup) == Ledger([1, 2, 3], map[1 := 6.67, 2 := -3.33, 3 := -3.34])
  {
    DinnerStart();
    var l0 := InitPeople(TaxiGroup.people);
    assert l0 == InitPeople(DinnerGroup.people);
    var l1 := l0.Credit(1, 10.0);
    assert l1 == Ledger([1, 2, 3], map[1 := 10.0, 2 := 0.0, 3 := 0.0]);
    TaxiShares(l1);
    assert TaxiGroup.expenses[..0] == [];
    assert ApplyExpenses(l0, TaxiGroup.expenses) == ApplyExpense(l0, Taxi);
  }

  /** Bob and Carol owe, in map order; Alice is the only creditor. */
  lemma TaxiParties()
    ensures Debtors(Net(TaxiGroup)) == [Party(2, 3.33), Party(3, 3.34)]
    ensures Creditors(Net(TaxiGroup)) == [Party(1, 6.67)]
  {
    TaxiNet();
    var net := Net(TaxiGroup);
    assert [1, 2, 3][..2] == [1, 2] && [1, 2][..1] == [1] && [1][..0] == [];
    assert DebtorsOf([1, 2], net) == [Party(2, 3.33)];
    assert CreditorsOf([1, 2], net) == [Party(1, 6.67)];
  }

  /** Bob pays Alice 3.33 and Carol pays her 3.34, both already whole cents. */
  lemma TaxiPayments()
    ensures Payments(TaxiGroup) == [Balance(2, 1, 3.33), Balance(3, 1, 3.34)]
  {
    TaxiParties();
    RoundCentsWhole(333);
    RoundCentsWhole(334);
    assert Pay([Party(2, 3.33), Party(3, 3.34)], 3.33) == [Party(3, 3.34)];
    assert Pay([Party(1, 6.67)], 3.33) == [Party(1, 3.34)];
    assert Pay([Party(3, 3.34)], 3.34) == [];
    assert Pay([Party(1, 3.34)], 3.34) == [];
  }
}
