/**
 * What the greedy matching pays, person by person. Before each amount is
 * rounded to cents, what a debtor pays plus what is left of their debt is
 * exactly their debt, and likewise for creditors; what is left is never
 * negative and never more than the debt or credit, and on one side at
 * least it is under a cent for everyone.
 */
module SettlementTotals {
  import opened Types
  import opened NetBalances
  import opened Settlement

  /** The payments of `Settle` before each amount is rounded to cents. */
  ghost function SettleRaw(ds: seq<Party>, cs: seq<Party>): seq<Balance>
    decreases |ds| + |cs|
  {
    if ds == [] || cs == [] then []
    else
      var amount := Min(ds[0].amount, cs[0].amount);
      [Balance(ds[0].id, cs[0].id, amount)] + SettleRaw(Pay(ds, amount), Pay(cs, amount))
  }

  /**
   * A list after one step, with the head put back when the step dropped
   * it: `rest` is what is left of `Pay(ps, amount)`, and the result what is
   * left of `ps`.
   */
  ghost function Unpay(ps: seq<Party>, amount: real, rest: seq<Party>): seq<Party>
    requires ps != []
  {
    var left := ps[0].amount - amount;
    if left < Tolerance then [Party(ps[0].id, left)] + rest else rest
  }

  /**
   * What is left of every entry of the two lists once the matching stops,
   * dropped entries included, in list order.
   */
  ghost function Leftover(ds: seq<Party>, cs: seq<Party>): (seq<Party>, seq<Party>)
    decreases |ds| + |cs|
  {
    if ds == [] || cs == [] then (ds, cs)
    else
      var amount := Min(ds[0].amount, cs[0].amount);
      var rest := Leftover(Pay(ds, amount), Pay(cs, amount));
      (Unpay(ds, amount, rest.0), Unpay(cs, amount, rest.1))
  }

  /** What the entries for `x` in a list add up to. */
  function AmountOf(ps: seq<Party>, x: PersonId): real {
    if ps == [] then 0.0 else (if ps[0].id == x then ps[0].amount else 0.0) + AmountOf(ps[1..], x)
  }

  /** What `x` pays in a list of payments. */
  function PaidBy(bs: seq<Balance>, x: PersonId): real {
    if bs == [] then 0.0 else (if bs[0].fromPersonId == x then bs[0].amount else 0.0) + PaidBy(bs[1..], x)
  }

  /** What `x` receives in a list of payments. */
  function PaidTo(bs: seq<Balance>, x: PersonId): real {
    if bs == [] then 0.0 else (if bs[0].toPersonId == x then bs[0].amount else 0.0) + PaidTo(bs[1..], x)
  }

  /** No id is listed twice. */
  ghost predicate DistinctIds(ps: seq<Party>) {
    forall a, b :: 0 <= a < b < |ps| ==> ps[a].id != ps[b].id
  }

  // ---------------------------------------------------------------------
  // Rounding

  /** `Settle` pays the same people in the same order as `SettleRaw`, each amount rounded to cents. */
  lemma {:induction false} SettleRounded(ds: seq<Party>, cs: seq<Party>)
    ensures |Settle(ds, cs)| == |SettleRaw(ds, cs)|
    ensures forall k :: 0 <= k < |Settle(ds, cs)| ==>
      Settle(ds, cs)[k] == SettleRaw(ds, cs)[k].(amount := RoundCents(SettleRaw(ds, cs)[k].amount))
    decreases |ds| + |cs|
  {
    if ds != [] && cs != [] {
      var amount := Min(ds[0].amount, cs[0].amount);
      var ds', cs' := Pay(ds, amount), Pay(cs, amount);
      SettleRounded(ds', cs');
      var s, r := Settle(ds, cs), SettleRaw(ds, cs);
      assert s[1..] == Settle(ds', cs') && r[1..] == SettleRaw(ds', cs');
      forall k | 0 < k < |s| ensures s[k] == r[k].(amount := RoundCents(r[k].amount)) {
        assert s[k] == s[1..][k - 1] && r[k] == r[1..][k - 1];
      }
    }
  }

  // ---------------------------------------------------------------------
  // Conservation

  lemma AmountOfCons(p: Party, ps: seq<Party>, x: PersonId)
    ensures AmountOf([p] + ps, x) == (if p.id == x then p.amount else 0.0) + AmountOf(ps, x)
  {
    assert ([p] + ps)[1..] == ps;
  }

  /** One step, seen from `x`: the head's payment leaves `x`'s total lowered by what `x` paid. */
  lemma UnpayPay(ps: seq<Party>, amount: real, rest: seq<Party>, x: PersonId)
    requires ps != []
    ensures AmountOf(Unpay(ps, amount, rest), x) - AmountOf(rest, x) + AmountOf(Pay(ps, amount), x)
         == AmountOf(ps, x) - (if ps[0].id == x then amount else 0.0)
  {
    var left := ps[0].amount - amount;
    if left < Tolerance {
      AmountOfCons(Party(ps[0].id, left), rest, x);
    } else {
      AmountOfCons(Party(ps[0].id, left), ps[1..], x);
    }
  }

  /** Before rounding, what a debtor pays plus what is left of their debt is their debt. */
  lemma {:induction false} ConservedDebts(ds: seq<Party>, cs: seq<Party>, x: PersonId)
    ensures PaidBy(SettleRaw(ds, cs), x) + AmountOf(Leftover(ds, cs).0, x) == AmountOf(ds, x)
    decreases |ds| + |cs|
  {
    if ds != [] && cs != [] {
      var amount := Min(ds[0].amount, cs[0].amount);
      var ds', cs' := Pay(ds, amount), Pay(cs, amount);
      ConservedDebts(ds', cs', x);
      var raw := SettleRaw(ds, cs);
      assert raw[1..] == SettleRaw(ds', cs');
      UnpayPay(ds, amount, Leftover(ds', cs').0, x);
    }
  }

  /** Before rounding, what a creditor receives plus what is left of their credit is their credit. */
  lemma {:induction false} ConservedCredits(ds: seq<Party>, cs: seq<Party>, x: PersonId)
    ensures PaidTo(SettleRaw(ds, cs), x) + AmountOf(Leftover(ds, cs).1, x) == AmountOf(cs, x)
    decreases |ds| + |cs|
  {
    if ds != [] && cs != [] {
      var amount := Min(ds[0].amount, cs[0].amount);
      var ds', cs' := Pay(ds, amount), Pay(cs, amount);
      ConservedCredits(ds', cs', x);
      var raw := SettleRaw(ds, cs);
      assert raw[1..] == SettleRaw(ds', cs');
      UnpayPay(cs, amount, Leftover(ds', cs').1, x);
    }
  }

  // ---------------------------------------------------------------------
  // What is left

  lemma UnpayResidue(ps: seq<Party>, amount: real, rest: seq<Party>)
    requires ps != [] && 0.0 <= amount <= ps[0].amount
    requires Residue(rest, Pay(ps, amount))
    ensures Residue(Unpay(ps, amount, rest), ps)
  {
    var left := ps[0].amount - amount;
    var r := Unpay(ps, amount, rest);
    if left < Tolerance {
      forall k | 0 < k < |r| ensures r[k].id == ps[k].id && 0.0 <= r[k].amount <= ps[k].amount {
        assert r[k] == rest[k - 1] && ps[k] == ps[1..][k - 1];
      }
    } else {
      forall k | 0 < k < |r| ensures r[k].id == ps[k].id && 0.0 <= r[k].amount <= ps[k].amount {
        assert ps[k] == Pay(ps, amount)[k];
      }
    }
  }

  lemma UnpayCleared(ps: seq<Party>, amount: real, rest: seq<Party>)
    requires ps != [] && Cleared(rest)
    ensures Cleared(Unpay(ps, amount, rest))
  {
    var r := Unpay(ps, amount, rest);
    if ps[0].amount - amount < Tolerance {
      forall k | 0 < k < |r| ensures r[k].amount < Tolerance {
        assert r[k] == rest[k - 1];
      }
    }
  }

  /**
   * When every debt and credit is at least a cent, what is left of each
   * entry lies between zero and what it was, and on one side everyone is
   * left with under a cent.
   */
  lemma {:induction false} LeftoverShape(ds: seq<Party>, cs: seq<Party>)
    requires Outstanding(ds) && Outstanding(cs)
    ensures Residue(Leftover(ds, cs).0, ds) && Residue(Leftover(ds, cs).1, cs)
    ensures Cleared(Leftover(ds, cs).0) || Cleared(Leftover(ds, cs).1)
    decreases |ds| + |cs|
  {
    if ds != [] && cs != [] {
      var amount := Min(ds[0].amount, cs[0].amount);
      var ds', cs' := Pay(ds, amount), Pay(cs, amount);
      LeftoverShape(ds', cs');
      var rest := Leftover(ds', cs');
      UnpayResidue(ds, amount, rest.0);
      UnpayResidue(cs, amount, rest.1);
      if Cleared(rest.0) {
        UnpayCleared(ds, amount, rest.0);
      } else {
        UnpayCleared(cs, amount, rest.1);
      }
    }
  }

  // ---------------------------------------------------------------------
  // Per-person totals of a list

  lemma {:induction false} AmountOfAppend(a: seq<Party>, b: seq<Party>, x: PersonId)
    ensures AmountOf(a + b, x) == AmountOf(a, x) + AmountOf(b, x)
  {
    if a == [] {
      assert a + b == b;
    } else {
      AmountOfAppend(a[1..], b, x);
      assert (a + b)[1..] == a[1..] + b;
    }
  }

  lemma {:induction false} AmountOfAbsent(ps: seq<Party>, x: PersonId)
    requires forall k :: 0 <= k < |ps| ==> ps[k].id != x
    ensures AmountOf(ps, x) == 0.0
  {
    if ps != [] {
      AmountOfAbsent(ps[1..], x);
    }
  }

  /** What is left of a list is, person by person, between zero and what was there. */
  lemma {:induction false} ResidueAmountOf(ps: seq<Party>, p0: seq<Party>, x: PersonId)
    requires Residue(ps, p0)
    ensures 0.0 <= AmountOf(ps, x) <= AmountOf(p0, x)
  {
    if ps != [] {
      assert Residue(ps[1..], p0[1..]) by {
        forall k | 0 <= k < |ps[1..]| ensures ps[1..][k].id == p0[1..][k].id && 0.0 <= ps[1..][k].amount <= p0[1..][k].amount {
          assert ps[1..][k] == ps[k + 1] && p0[1..][k] == p0[k + 1];
        }
      }
      ResidueAmountOf(ps[1..], p0[1..], x);
    }
  }

  /** In a cleared list with no id twice, everyone has under a cent. */
  lemma {:induction false} ClearedAmountOf(ps: seq<Party>, x: PersonId)
    requires Cleared(ps) && DistinctIds(ps)
    ensures AmountOf(ps, x) < Tolerance
  {
    if ps != [] {
      if ps[0].id == x {
        forall k | 0 <= k < |ps[1..]| ensures ps[1..][k].id != x {
          assert ps[1..][k] == ps[k + 1];
        }
        AmountOfAbsent(ps[1..], x);
      } else {
        ClearedAmountOf(ps[1..], x);
      }
    }
  }

  /** A list whose ids are listed once each keeps that property in what is left of it. */
  lemma ResidueDistinct(ps: seq<Party>, p0: seq<Party>)
    requires Residue(ps, p0) && DistinctIds(p0)
    ensures DistinctIds(ps)
  {
  }

  // ---------------------------------------------------------------------
  // The classified lists, person by person

  /**
   * Among ids listed once each, the debtor list holds each person once,
   * with their debt: the negated balance when it is below minus a cent.
   */
  lemma {:induction false} DebtorsAmountOf(ids: seq<PersonId>, net: Ledger, x: PersonId)
    requires forall a, b :: 0 <= a < b < |ids| ==> ids[a] != ids[b]
    ensures DistinctIds(DebtorsOf(ids, net))
    ensures AmountOf(DebtorsOf(ids, net), x) == if x in ids && net.Get(x) < -Tolerance then -net.Get(x) else 0.0
  {
    if ids != [] {
      var init, y := ids[..|ids| - 1], ids[|ids| - 1];
      DebtorsAmountOf(init, net, x);
      var rest := DebtorsOf(init, net);
      assert x in ids <==> x in init || x == y;
      if net.Get(y) < -Tolerance {
        var p := Party(y, -net.Get(y));
        AmountOfAppend(rest, [p], x);
        AmountOfCons(p, [], x);
        forall k | 0 <= k < |rest| ensures rest[k].id != y {
          DebtorsMembership(init, net, rest[k]);
        }
      }
    }
  }

  /**
   * Among ids listed once each, the creditor list holds each person once,
   * with their credit: the balance when it exceeds a cent.
   */
  lemma {:induction false} CreditorsAmountOf(ids: seq<PersonId>, net: Ledger, x: PersonId)
    requires forall a, b :: 0 <= a < b < |ids| ==> ids[a] != ids[b]
    ensures DistinctIds(CreditorsOf(ids, net))
    ensures AmountOf(CreditorsOf(ids, net), x) == if x in ids && net.Get(x) > Tolerance then net.Get(x) else 0.0
  {
    if ids != [] {
      var init, y := ids[..|ids| - 1], ids[|ids| - 1];
      CreditorsAmountOf(init, net, x);
      var rest := CreditorsOf(init, net);
      assert x in ids <==> x in init || x == y;
      if net.Get(y) > Tolerance {
        var p := Party(y, net.Get(y));
        AmountOfAppend(rest, [p], x);
        AmountOfCons(p, [], x);
        forall k | 0 <= k < |rest| ensures rest[k].id != y {
          CreditorsMembership(init, net, rest[k]);
        }
      }
    }
  }
}
