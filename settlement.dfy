/**
 * Second stage of `calculateBalances`: split the net balances into creditors
 * (owed more than a cent) and debtors (owing more than a cent), then walk both
 * lists with one cursor each, emitting one suggested payment per step from
 * the current debtor to the current creditor.
 */
module Settlement {
  import opened Types
  import opened NetBalances

  /** Balances within one cent of zero count as settled. */
  const Tolerance: real := 0.01

  /**
   * `Math.round(x * 100) / 100`. JavaScript's `Math.round` rounds to the
   * nearest integer with halves going up, which is `floor(y + 0.5)`.
   */
  function RoundCents(x: real): (r: real)
    ensures x - 0.005 < r <= x + 0.005
    ensures (r * 100.0).Floor as real == r * 100.0
  {
    var y := x * 100.0 + 0.5;
    assert y - 1.0 < y.Floor as real <= y;
    (y.Floor as real) / 100.0
  }

  /** A whole number of cents is left as it is. */
  lemma RoundCentsWhole(n: int)
    ensures RoundCents(n as real / 100.0) == n as real / 100.0
  {
    var y := (n as real / 100.0) * 100.0 + 0.5;
    assert y == n as real + 0.5;
    assert y.Floor == n;
  }

  /** A value of at least one cent rounds to at least one cent. */
  lemma RoundCentsAtLeastCent(x: real)
    requires x >= Tolerance
    ensures RoundCents(x) >= Tolerance
  {
    var y := x * 100.0 + 0.5;
    assert y >= 1.5;
    assert y.Floor >= 1;
  }

  /** An entry `{ id, amount }` of the creditor or debtor list. */
  datatype Party = Party(id: PersonId, amount: real)

  function Ids(ps: seq<Party>): set<PersonId> {
    set p | p in ps :: p.id
  }

  /** Every entry still has at least a cent to pay or receive. */
  ghost predicate Outstanding(ps: seq<Party>) {
    forall k :: 0 <= k < |ps| ==> ps[k].amount >= Tolerance
  }

  function AmountSum(ps: seq<Party>): real {
    if ps == [] then 0.0 else AmountSum(ps[..|ps| - 1]) + ps[|ps| - 1].amount
  }

  // ---------------------------------------------------------------------
  // Classification (app/balances.ts, lines 41-47)

  /** The creditors among `ids`, in the order given, each at their balance. */
  function CreditorsOf(ids: seq<PersonId>, net: Ledger): seq<Party> {
    if ids == [] then []
    else
      var id := ids[|ids| - 1];
      var rest := CreditorsOf(ids[..|ids| - 1], net);
      if net.Get(id) > Tolerance then rest + [Party(id, net.Get(id))] else rest
  }

  /** The debtors among `ids`, in the order given, each at the negated balance. */
  function DebtorsOf(ids: seq<PersonId>, net: Ledger): seq<Party> {
    if ids == [] then []
    else
      var id := ids[|ids| - 1];
      var rest := DebtorsOf(ids[..|ids| - 1], net);
      if net.Get(id) > Tolerance then rest
      else if net.Get(id) < -Tolerance then rest + [Party(id, -net.Get(id))]
      else rest
  }

  function Creditors(net: Ledger): seq<Party> {
    CreditorsOf(net.order, net)
  }

  function Debtors(net: Ledger): seq<Party> {
    DebtorsOf(net.order, net)
  }

  /**
   * The `netBalances.forEach` loop: every balance above the tolerance is
   * pushed onto `creditors`, every one below minus the tolerance onto
   * `debtors`, in the map's iteration order.
   */
  method Classify(net: Ledger) returns (creditors: seq<Party>, debtors: seq<Party>)
    ensures creditors == Creditors(net) && debtors == Debtors(net)
  {
    creditors, debtors := [], [];
    var k := 0;
    while k < |net.order|
      invariant 0 <= k <= |net.order|
      invariant creditors == CreditorsOf(net.order[..k], net)
      invariant debtors == DebtorsOf(net.order[..k], net)
    {
      var personId := net.order[k];
      var balance := net.Get(personId);
      assert net.order[..k + 1][..k] == net.order[..k];
      if balance > Tolerance {
        creditors := creditors + [Party(personId, balance)];
      } else if balance < -Tolerance {
        debtors := debtors + [Party(personId, -balance)];
      }
      k := k + 1;
    }
    assert net.order[..k] == net.order;
  }

  /** Creditors hold exactly the ids whose balance exceeds a cent, at that balance. */
  lemma {:induction false} CreditorsMembership(ids: seq<PersonId>, net: Ledger, p: Party)
    ensures p in CreditorsOf(ids, net) <==> p.id in ids && net.Get(p.id) > Tolerance && p.amount == net.Get(p.id)
  {
    if ids != [] {
      CreditorsMembership(ids[..|ids| - 1], net, p);
      assert ids == ids[..|ids| - 1] + [ids[|ids| - 1]];
    }
  }

  /** Debtors hold exactly the ids whose balance is below minus a cent, at the negated balance. */
  lemma {:induction false} DebtorsMembership(ids: seq<PersonId>, net: Ledger, p: Party)
    ensures p in DebtorsOf(ids, net) <==> p.id in ids && net.Get(p.id) < -Tolerance && p.amount == -net.Get(p.id)
  {
    if ids != [] {
      DebtorsMembership(ids[..|ids| - 1], net, p);
      assert ids == ids[..|ids| - 1] + [ids[|ids| - 1]];
    }
  }

  /** Classification keeps the iteration order: it distributes over concatenation. */
  lemma {:induction false} ClassifyKeepsOrder(xs: seq<PersonId>, ys: seq<PersonId>, net: Ledger)
    ensures CreditorsOf(xs + ys, net) == CreditorsOf(xs, net) + CreditorsOf(ys, net)
    ensures DebtorsOf(xs + ys, net) == DebtorsOf(xs, net) + DebtorsOf(ys, net)
  {
    if ys == [] {
      assert xs + ys == xs;
    } else {
      var init, id := ys[..|ys| - 1], ys[|ys| - 1];
      ClassifyKeepsOrder(xs, init, net);
      assert xs + ys == (xs + init) + [id];
      assert (xs + ys)[..|xs + ys| - 1] == xs + init;
      var c, d := CreditorsOf(xs, net), DebtorsOf(xs, net);
      if net.Get(id) > Tolerance {
        assert c + CreditorsOf(ys, net) == (c + CreditorsOf(init, net)) + [Party(id, net.Get(id))];
      } else if net.Get(id) < -Tolerance {
        assert d + DebtorsOf(ys, net) == (d + DebtorsOf(init, net)) + [Party(id, -net.Get(id))];
      }
    }
  }

  /** No id is both a creditor and a debtor, and every entry is more than a cent. */
  lemma ClassifySeparates(net: Ledger)
    ensures Ids(Creditors(net)) !! Ids(Debtors(net))
    ensures forall p :: p in Creditors(net) ==> p.amount > Tolerance
    ensures forall p :: p in Debtors(net) ==> p.amount > Tolerance
  {
    forall p | p in Creditors(net) ensures p.amount > Tolerance && net.Get(p.id) > Tolerance {
      CreditorsMembership(net.order, net, p);
    }
    forall p | p in Debtors(net) ensures p.amount > Tolerance && net.Get(p.id) < -Tolerance {
      DebtorsMembership(net.order, net, p);
    }
  }

  // ---------------------------------------------------------------------
  // Greedy matching (app/balances.ts, lines 50-68)

  function Min(a: real, b: real): real {
    if a <= b then a else b
  }

  /**
   * The head of a list after it has paid or received `amount`: reduced by
   * it, and dropped (its cursor advanced) once under a cent. Every entry
   * left still has at least a cent if every entry had.
   */
  function Pay(ps: seq<Party>, amount: real): (r: seq<Party>)
    requires ps != []
    ensures Outstanding(ps) ==> Outstanding(r)
  {
    var left := ps[0].amount - amount;
    if left < Tolerance then ps[1..] else [Party(ps[0].id, left)] + ps[1..]
  }

  /**
   * The payments the two-cursor loop emits when its cursors stand at the
   * heads of `ds` (remaining debts) and `cs` (remaining credits).
   */
  function Settle(ds: seq<Party>, cs: seq<Party>): seq<Balance>
    decreases |ds| + |cs|
  {
    if ds == [] || cs == [] then []
    else
      var amount := Min(ds[0].amount, cs[0].amount);
      [Balance(ds[0].id, cs[0].id, RoundCents(amount))] + Settle(Pay(ds, amount), Pay(cs, amount))
  }

  /**
   * One list under its cursor `i`, against its state `p0` before the loop:
   * ids unchanged, no amount grown; the entries behind the cursor settled
   * to under a cent but not below zero; the one under it and those ahead
   * still at least a cent, and those ahead untouched.
   */
  ghost predicate Cursor(ps: seq<Party>, p0: seq<Party>, i: int) {
    && |ps| == |p0| && 0 <= i <= |ps|
    && (forall k :: 0 <= k < |ps| ==> ps[k].id == p0[k].id && ps[k].amount <= p0[k].amount)
    && (forall k :: 0 <= k < i ==> 0.0 <= ps[k].amount < Tolerance)
    && (forall k :: i <= k < |ps| ==> Tolerance <= ps[k].amount)
    && (forall k :: i < k < |ps| ==> ps[k] == p0[k])
  }

  /**
   * One step on one list: reduce the entry under the cursor by at most its
   * amount, and advance the cursor if it falls under a cent.
   */
  lemma CursorStep(ps: seq<Party>, p0: seq<Party>, i: int, amount: real)
    requires Cursor(ps, p0, i) && i < |ps| && 0.0 <= amount <= ps[i].amount
    ensures var ps' := ps[i := ps[i].(amount := ps[i].amount - amount)];
            var i' := if ps'[i].amount < Tolerance then i + 1 else i;
            && Cursor(ps', p0, i')
            && ps'[i'..] == Pay(ps[i..], amount)
            && AmountSum(ps') == AmountSum(ps) - amount
  {
    var ps' := ps[i := ps[i].(amount := ps[i].amount - amount)];
    AmountSumUpdate(ps, i, ps'[i]);
    CursorKept(ps, p0, i, ps');
    PayAtCursor(ps, i, amount, ps');
  }

  /** The reduced entry stays at or above zero, and the cursor moves past it once under a cent. */
  lemma CursorKept(ps: seq<Party>, p0: seq<Party>, i: int, ps': seq<Party>)
    requires Cursor(ps, p0, i) && i < |ps|
    requires |ps'| == |ps| && 0.0 <= ps'[i].amount <= ps[i].amount && ps'[i].id == ps[i].id
    requires forall k :: 0 <= k < |ps| && k != i ==> ps'[k] == ps[k]
    ensures Cursor(ps', p0, if ps'[i].amount < Tolerance then i + 1 else i)
  {
  }

  /** The list ahead of the cursor after one step is the head paid by `amount`. */
  lemma PayAtCursor(ps: seq<Party>, i: int, amount: real, ps': seq<Party>)
    requires 0 <= i < |ps|
    requires ps' == ps[i := ps[i].(amount := ps[i].amount - amount)]
    ensures ps'[(if ps'[i].amount < Tolerance then i + 1 else i)..] == Pay(ps[i..], amount)
  {
    assert ps[i..][0] == ps[i] && ps[i..][1..] == ps[i + 1..] == ps'[i + 1..];
    if ps'[i].amount >= Tolerance {
      assert ps'[i..] == [ps'[i]] + ps'[i + 1..];
    }
  }

  /**
   * The loop's state: both cursors in order, the payments emitted so far
   * followed by those still to come are all the payments, and the debtors
   * have given up as much as the creditors.
   */
  ghost predicate Matching(ds: seq<Party>, cs: seq<Party>, i: int, j: int, balances: seq<Balance>,
                           d0: seq<Party>, c0: seq<Party>)
  {
    && Cursor(ds, d0, i) && Cursor(cs, c0, j)
    && balances + Settle(ds[i..], cs[j..]) == Settle(d0, c0)
    && AmountSum(d0) - AmountSum(ds) == AmountSum(c0) - AmountSum(cs)
  }

  /** The first payment of a settlement, and what follows it. */
  lemma SettleHead(ds: seq<Party>, cs: seq<Party>, amount: real)
    requires ds != [] && cs != [] && amount == Min(ds[0].amount, cs[0].amount)
    ensures Settle(ds, cs)
         == [Balance(ds[0].id, cs[0].id, RoundCents(amount))] + Settle(Pay(ds, amount), Pay(cs, amount))
  {
  }

  /**
   * One pass of the loop body keeps the loop's state and moves at least
   * one cursor: `ds'`, `cs'`, `i'` and `j'` are the lists and cursors after
   * paying `amount` from the current debtor to the current creditor.
   */
  lemma MatchStep(ds: seq<Party>, cs: seq<Party>, i: int, j: int, balances: seq<Balance>,
                  d0: seq<Party>, c0: seq<Party>,
                  amount: real, ds': seq<Party>, cs': seq<Party>, i': int, j': int)
    requires Matching(ds, cs, i, j, balances, d0, c0) && i < |ds| && j < |cs|
    requires amount == Min(ds[i].amount, cs[j].amount)
    requires ds' == ds[i := ds[i].(amount := ds[i].amount - amount)]
    requires cs' == cs[j := cs[j].(amount := cs[j].amount - amount)]
    requires i' == if ds'[i].amount < Tolerance then i + 1 else i
    requires j' == if cs'[j].amount < Tolerance then j + 1 else j
    ensures i + j < i' + j'
    ensures Matching(ds', cs', i', j', balances + [Balance(ds[i].id, cs[j].id, RoundCents(amount))], d0, c0)
  {
    var payment := Balance(ds[i].id, cs[j].id, RoundCents(amount));
    CursorStep(ds, d0, i, amount);
    CursorStep(cs, c0, j, amount);
    var rest := Settle(ds'[i'..], cs'[j'..]);
    assert ds[i..][0] == ds[i] && cs[j..][0] == cs[j];
    SettleHead(ds[i..], cs[j..], amount);
    AppendAssoc(balances, [payment], rest);
  }

  /** What is left of a list `p0` after matching: same people, no amount grown or below zero. */
  ghost predicate Residue(ps: seq<Party>, p0: seq<Party>) {
    && |ps| == |p0|
    && forall k :: 0 <= k < |ps| ==> ps[k].id == p0[k].id && 0.0 <= ps[k].amount <= p0[k].amount
  }

  /** Everyone in the list is within a cent of settled. */
  ghost predicate Cleared(ps: seq<Party>) {
    forall k :: 0 <= k < |ps| ==> ps[k].amount < Tolerance
  }

  /** When the loop stops, one list is cleared and both are residues of what they were. */
  lemma MatchDone(ds: seq<Party>, cs: seq<Party>, i: int, j: int, balances: seq<Balance>,
                  d0: seq<Party>, c0: seq<Party>)
    requires Outstanding(d0) && Outstanding(c0)
    requires Matching(ds, cs, i, j, balances, d0, c0) && (i == |ds| || j == |cs|)
    ensures balances == Settle(d0, c0)
    ensures Residue(ds, d0) && Residue(cs, c0)
    ensures Cleared(ds) || Cleared(cs)
  {
    assert Settle(ds[i..], cs[j..]) == [];
    assert balances + [] == balances;
  }

  /**
   * The `while` loop over the two lists, updating the remaining amounts in
   * place. Afterwards no one is left over-paid, and one side is settled to
   * under a cent per person; what the debtors gave up equals what the
   * creditors gave up.
   */
  method Match(debtors: array<Party>, creditors: array<Party>) returns (balances: seq<Balance>)
    requires debtors != creditors
    requires Outstanding(debtors[..]) && Outstanding(creditors[..])
    modifies debtors, creditors
    ensures balances == Settle(old(debtors[..]), old(creditors[..]))
    ensures Residue(debtors[..], old(debtors[..])) && Residue(creditors[..], old(creditors[..]))
    ensures Cleared(debtors[..]) || Cleared(creditors[..])
    ensures AmountSum(old(debtors[..])) - AmountSum(debtors[..])
         == AmountSum(old(creditors[..])) - AmountSum(creditors[..])
  {
    ghost var d0, c0 := debtors[..], creditors[..];
    balances := [];
    var i, j := 0, 0;
    while i < debtors.Length && j < creditors.Length
      invariant 0 <= i <= debtors.Length && 0 <= j <= creditors.Length
      invariant Matching(debtors[..], creditors[..], i, j, balances, d0, c0)
      decreases debtors.Length - i + creditors.Length - j
    {
      ghost var ds, cs := debtors[..], creditors[..];
      var debt := debtors[i].amount;
      var credit := creditors[j].amount;
      var amount := Min(debt, credit);
      ghost var i0, j0, before := i, j, balances;
      balances := balances + [Balance(debtors[i].id, creditors[j].id, RoundCents(amount))];
      debtors[i] := debtors[i].(amount := debtors[i].amount - amount);
      ghost var ds' := debtors[..];
      assert ds' == ds[i := ds[i].(amount := ds[i].amount - amount)];
      creditors[j] := creditors[j].(amount := creditors[j].amount - amount);
      assert creditors[..] == cs[j := cs[j].(amount := cs[j].amount - amount)];
      assert debtors[..] == ds';
      if debtors[i].amount < Tolerance {
        i := i + 1;
      }
      if creditors[j].amount < Tolerance {
        j := j + 1;
      }
      MatchStep(ds, cs, i0, j0, before, d0, c0, amount, debtors[..], creditors[..], i, j);
    }
    MatchDone(debtors[..], creditors[..], i, j, balances, d0, c0);
  }

  lemma AppendAssoc<T>(a: seq<T>, b: seq<T>, c: seq<T>)
    ensures (a + b) + c == a + (b + c)
  {
  }

  lemma {:induction false} AmountSumUpdate(ps: seq<Party>, k: nat, p: Party)
    requires k < |ps|
    ensures AmountSum(ps[k := p]) == AmountSum(ps) - ps[k].amount + p.amount
  {
    if k < |ps| - 1 {
      AmountSumUpdate(ps[..|ps| - 1], k, p);
      assert ps[k := p][..|ps| - 1] == ps[..|ps| - 1][k := p];
    } else {
      assert ps[k := p][..|ps| - 1] == ps[..|ps| - 1];
    }
  }

  // ---------------------------------------------------------------------
  // Properties of the matching

  /** Paying the head of a list introduces no new id. */
  lemma PayIds(ps: seq<Party>, amount: real)
    requires ps != []
    ensures Ids(Pay(ps, amount)) <= Ids(ps)
  {
    forall x | x in Ids(Pay(ps, amount)) ensures x in Ids(ps) {
      var p :| p in Pay(ps, amount) && p.id == x;
      if p !in ps[1..] {
        assert p.id == ps[0].id;
      }
    }
  }

  /** Every payment goes from a listed debtor to a listed creditor. */
  lemma {:induction false} SettleParties(ds: seq<Party>, cs: seq<Party>)
    ensures forall b :: b in Settle(ds, cs) ==> b.fromPersonId in Ids(ds) && b.toPersonId in Ids(cs)
    decreases |ds| + |cs|
  {
    if ds != [] && cs != [] {
      var amount := Min(ds[0].amount, cs[0].amount);
      SettleParties(Pay(ds, amount), Pay(cs, amount));
      PayIds(ds, amount);
      PayIds(cs, amount);
    }
  }

  /**
   * At most one payment fewer than there are people on both sides, and
   * none exactly when a side is empty.
   */
  lemma {:induction false} SettleCount(ds: seq<Party>, cs: seq<Party>)
    ensures Settle(ds, cs) == [] <==> ds == [] || cs == []
    ensures ds != [] && cs != [] ==> |Settle(ds, cs)| <= |ds| + |cs| - 1
    decreases |ds| + |cs|
  {
    if ds != [] && cs != [] {
      var amount := Min(ds[0].amount, cs[0].amount);
      SettleCount(Pay(ds, amount), Pay(cs, amount));
    }
  }

  /** When every debt and credit exceeds a cent, every payment is at least a cent. */
  lemma {:induction false} SettleAmounts(ds: seq<Party>, cs: seq<Party>)
    requires Outstanding(ds) && Outstanding(cs)
    ensures forall b :: b in Settle(ds, cs) ==> b.amount >= Tolerance
    decreases |ds| + |cs|
  {
    if ds != [] && cs != [] {
      var amount := Min(ds[0].amount, cs[0].amount);
      RoundCentsAtLeastCent(amount);
      SettleAmounts(Pay(ds, amount), Pay(cs, amount));
    }
  }
}
