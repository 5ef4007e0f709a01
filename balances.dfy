/**
 * `calculateBalances`: the suggested payments that settle a group. The net
 * balances of `NetBalances` are split into debtors and creditors and matched
 * greedily by `Settlement`; this module composes the stages and states what
 * the result means for the group.
 */
module Balances {
  import opened Types
  import opened NetBalances
  import opened Settlement
  import opened SettlementTotals

  /** The payments suggested for a group; every one of them is at least a cent. */
  function Payments(g: Group): (r: seq<Balance>)
    ensures forall b :: b in r ==> b.amount >= Tolerance
  {
    var net := Net(g);
    ClassifySeparates(net);
    SettleAmounts(Debtors(net), Creditors(net));
    Settle(Debtors(net), Creditors(net))
  }

  /**
   * The whole of `calculateBalances`: aggregate, classify into two arrays of
   * `{ id, amount }` entries, and match them in place.
   */
  method CalculateBalances(g: Group) returns (balances: seq<Balance>)
    ensures balances == Payments(g)
  {
    var net := Aggregate(g);
    var creditors, debtors := Classify(net);
    ClassifySeparates(net);
    var ds := new Party[|debtors|](k requires 0 <= k < |debtors| => debtors[k]);
    var cs := new Party[|creditors|](k requires 0 <= k < |creditors| => creditors[k]);
    assert ds[..] == debtors;
    assert cs[..] == creditors;
    assert Outstanding(ds[..]) by {
      forall k | 0 <= k < ds.Length ensures ds[k].amount >= Tolerance {
        assert ds[k] in debtors;
      }
    }
    assert Outstanding(cs[..]) by {
      forall k | 0 <= k < cs.Length ensures cs[k].amount >= Tolerance {
        assert cs[k] in creditors;
      }
    }
    balances := Match(ds, cs);
  }

  /** Outside the map's keys a balance reads as zero. */
  lemma NetGetOutside(g: Group, x: PersonId)
    requires x !in Net(g).order
    ensures Net(g).Get(x) == 0.0
  {
    NetKeys(g);
  }

  /** The classified lists hold only people with a balance beyond a cent, each once. */
  lemma {:induction false} ClassifyCount(ids: seq<PersonId>, net: Ledger)
    ensures |CreditorsOf(ids, net)| + |DebtorsOf(ids, net)| <= |ids|
  {
    if ids != [] {
      ClassifyCount(ids[..|ids| - 1], net);
    }
  }

  /**
   * Every payment goes from someone who owes more than a cent to someone
   * who is owed more than a cent, so never from a person to themselves.
   */
  lemma PaymentsParties(g: Group)
    ensures forall b :: b in Payments(g) ==>
      && Position(g, b.fromPersonId) < -Tolerance
      && Position(g, b.toPersonId) > Tolerance
      && b.fromPersonId != b.toPersonId
  {
    var net := Net(g);
    SettleParties(Debtors(net), Creditors(net));
    forall b | b in Payments(g)
      ensures Position(g, b.fromPersonId) < -Tolerance && Position(g, b.toPersonId) > Tolerance
    {
      var d :| d in Debtors(net) && d.id == b.fromPersonId;
      var c :| c in Creditors(net) && c.id == b.toPersonId;
      DebtorsMembership(net.order, net, d);
      CreditorsMembership(net.order, net, c);
      NetIsPosition(g, d.id);
      NetIsPosition(g, c.id);
    }
  }

  /**
   * There are fewer payments than people in the balance map, and none at
   * all when nobody owes or nobody is owed more than a cent.
   */
  lemma PaymentsCount(g: Group)
    ensures Payments(g) != [] ==> |Payments(g)| < |Net(g).order|
  {
    var net := Net(g);
    ClassifyCount(net.order, net);
    SettleCount(Debtors(net), Creditors(net));
  }

  /** Someone owes more than a cent exactly when the debtor list is not empty. */
  lemma DebtorsExist(g: Group)
    ensures Debtors(Net(g)) != [] <==> exists x :: Position(g, x) < -Tolerance
  {
    var net := Net(g);
    if Debtors(net) != [] {
      var d := Debtors(net)[0];
      DebtorsMembership(net.order, net, d);
      NetIsPosition(g, d.id);
    }
    if x :| Position(g, x) < -Tolerance {
      NetIsPosition(g, x);
      if x !in net.order {
        NetGetOutside(g, x);
      }
      DebtorsMembership(net.order, net, Party(x, -net.Get(x)));
    }
  }

  /** Someone is owed more than a cent exactly when the creditor list is not empty. */
  lemma CreditorsExist(g: Group)
    ensures Creditors(Net(g)) != [] <==> exists x :: Position(g, x) > Tolerance
  {
    var net := Net(g);
    if Creditors(net) != [] {
      var c := Creditors(net)[0];
      CreditorsMembership(net.order, net, c);
      NetIsPosition(g, c.id);
    }
    if x :| Position(g, x) > Tolerance {
      NetIsPosition(g, x);
      if x !in net.order {
        NetGetOutside(g, x);
      }
      CreditorsMembership(net.order, net, Party(x, net.Get(x)));
    }
  }

  /**
   * No payment is suggested exactly when the group is settled to within a
   * cent on one side: nobody owes more than a cent, or nobody is owed more
   * than a cent.
   */
  lemma NoPaymentsWhenSettled(g: Group)
    ensures Payments(g) == [] <==>
      (forall x :: Position(g, x) >= -Tolerance) || (forall x :: Position(g, x) <= Tolerance)
  {
    var net := Net(g);
    DebtorsExist(g);
    CreditorsExist(g);
    SettleCount(Debtors(net), Creditors(net));
  }

  // ---------------------------------------------------------------------
  // What the payments add up to, person by person

  /** What a person owes beyond a cent: their debt when they are a debtor, else 0. */
  function Debt(g: Group, x: PersonId): real {
    if Position(g, x) < -Tolerance then -Position(g, x) else 0.0
  }

  /** What a person is owed beyond a cent: their credit when they are a creditor, else 0. */
  function Owed(g: Group, x: PersonId): real {
    if Position(g, x) > Tolerance then Position(g, x) else 0.0
  }

  /** The suggested payments before each amount is rounded to cents. */
  ghost function RawPayments(g: Group): seq<Balance> {
    SettleRaw(Debtors(Net(g)), Creditors(Net(g)))
  }

  /**
   * The suggested payments are the unrounded ones with each amount rounded
   * to cents, so each is within half a cent of it.
   */
  lemma PaymentsRounded(g: Group)
    ensures |Payments(g)| == |RawPayments(g)|
    ensures forall k :: 0 <= k < |Payments(g)| ==>
      Payments(g)[k] == RawPayments(g)[k].(amount := RoundCents(RawPayments(g)[k].amount))
  {
    SettleRounded(Debtors(Net(g)), Creditors(Net(g)));
  }

  /** The debtor and creditor lists hold each person once, with their debt and their credit. */
  lemma ClassifiedAmounts(g: Group, x: PersonId)
    ensures DistinctIds(Debtors(Net(g))) && DistinctIds(Creditors(Net(g)))
    ensures Outstanding(Debtors(Net(g))) && Outstanding(Creditors(Net(g)))
    ensures AmountOf(Debtors(Net(g)), x) == Debt(g, x)
    ensures AmountOf(Creditors(Net(g)), x) == Owed(g, x)
  {
    var net := Net(g);
    NetKeys(g);
    NetIsPosition(g, x);
    if x !in net.order {
      NetGetOutside(g, x);
    }
    DebtorsAmountOf(net.order, net, x);
    CreditorsAmountOf(net.order, net, x);
    ClassifySeparates(net);
    var ds, cs := Debtors(net), Creditors(net);
    forall k | 0 <= k < |ds| ensures ds[k].amount >= Tolerance {
      assert ds[k] in ds;
    }
    forall k | 0 <= k < |cs| ensures cs[k].amount >= Tolerance {
      assert cs[k] in cs;
    }
  }

  /**
   * Before rounding, a person pays in total no more than their debt and
   * nothing at all unless they are a debtor; what is left of the debt is
   * the difference.
   */
  lemma PaymentsCoverDebts(g: Group, x: PersonId)
    ensures 0.0 <= PaidBy(RawPayments(g), x) <= Debt(g, x)
  {
    var ds, cs := Debtors(Net(g)), Creditors(Net(g));
    ClassifiedAmounts(g, x);
    ConservedDebts(ds, cs, x);
    LeftoverShape(ds, cs);
    ResidueAmountOf(Leftover(ds, cs).0, ds, x);
  }

  /**
   * Before rounding, a person receives in total no more than their credit
   * and nothing at all unless they are a creditor.
   */
  lemma PaymentsCoverCredits(g: Group, x: PersonId)
    ensures 0.0 <= PaidTo(RawPayments(g), x) <= Owed(g, x)
  {
    var ds, cs := Debtors(Net(g)), Creditors(Net(g));
    ClassifiedAmounts(g, x);
    ConservedCredits(ds, cs, x);
    LeftoverShape(ds, cs);
    ResidueAmountOf(Leftover(ds, cs).1, cs, x);
  }

  /**
   * Before rounding, on one side at least everyone is settled to under a
   * cent: every debtor pays all but less than a cent of their debt, or
   * every creditor receives all but less than a cent of their credit.
   */
  lemma PaymentsClearOneSide(g: Group)
    ensures (forall x :: Debt(g, x) - PaidBy(RawPayments(g), x) < Tolerance)
         || (forall x :: Owed(g, x) - PaidTo(RawPayments(g), x) < Tolerance)
  {
    var ds, cs := Debtors(Net(g)), Creditors(Net(g));
    var rest := Leftover(ds, cs);
    ClassifiedAmounts(g, 0);
    LeftoverShape(ds, cs);
    if Cleared(rest.0) {
      ResidueDistinct(rest.0, ds);
      forall x ensures Debt(g, x) - PaidBy(RawPayments(g), x) < Tolerance {
        ClassifiedAmounts(g, x);
        ConservedDebts(ds, cs, x);
        ClearedAmountOf(rest.0, x);
      }
    } else {
      ResidueDistinct(rest.1, cs);
      forall x ensures Owed(g, x) - PaidTo(RawPayments(g), x) < Tolerance {
        ClassifiedAmounts(g, x);
        ConservedCredits(ds, cs, x);
        ClearedAmountOf(rest.1, x);
      }
    }
  }
}
