/**
 * First stage of `calculateBalances`: fold every expense and transfer of a
 * group into one signed net balance per person (positive: the person is owed
 * money; negative: the person owes money).
 *
 * The source keeps the balances in a JavaScript `Map`, which iterates in
 * insertion order; `Ledger` is that map as a value: the keys in insertion
 * order plus the key-to-balance map. The specification functions fold from
 * the end of each list so that a loop that has processed a prefix is exactly
 * the fold of that prefix.
 */
module NetBalances {
  import opened Types

  /** An insertion-ordered map from person id to net balance. */
  datatype Ledger = Ledger(order: seq<PersonId>, amounts: map<PersonId, real>)
  {
    /** The keys are listed once each, and the listed keys are exactly the mapped ones. */
    ghost predicate Valid() {
      && (forall a, b :: 0 <= a < b < |order| ==> order[a] != order[b])
      && (forall id :: id in amounts <==> id in order)
    }

    /** The balance of an id; a missing key reads as zero. */
    function Get(id: PersonId): real {
      if id in amounts then amounts[id] else 0.0
    }

    /**
     * Store a balance: a new key goes to the end of the iteration order, an
     * existing key keeps its place.
     */
    function Set(id: PersonId, v: real): Ledger {
      Ledger(if id in order then order else order + [id], amounts[id := v])
    }

    /** Add to a balance, a missing one reading as zero. */
    function Credit(id: PersonId, amount: real): Ledger {
      Set(id, Get(id) + amount)
    }

    /** Subtract from a balance, a missing one reading as zero. */
    function Debit(id: PersonId, amount: real): Ledger {
      Set(id, Get(id) - amount)
    }

    /** The sum of the balances of the listed ids. */
    function SumOf(ids: seq<PersonId>): real {
      if ids == [] then 0.0 else SumOf(ids[..|ids| - 1]) + Get(ids[|ids| - 1])
    }

    /** The sum of all balances in the map. */
    function Total(): real {
      SumOf(order)
    }
  }

  const Empty := Ledger([], map[])

  /** `set` then `get`: the key reads the new value, every other key its old one. */
  lemma SetGet(l: Ledger, id: PersonId, v: real, x: PersonId)
    ensures l.Set(id, v).Get(x) == if x == id then v else l.Get(x)
  {
  }

  /** `set` adds the key to the key set and keeps the map well formed. */
  lemma SetValid(l: Ledger, id: PersonId, v: real)
    ensures l.Set(id, v).amounts.Keys == l.amounts.Keys + {id}
    ensures l.Valid() ==> l.Set(id, v).Valid()
  {
  }

  // ---------------------------------------------------------------------
  // The aggregation, as functions

  /** Every person starts at 0 (app/balances.ts, lines 8-10). */
  function InitPeople(people: seq<Person>): Ledger {
    if people == [] then Empty
    else InitPeople(people[..|people| - 1]).Set(people[|people| - 1].id, 0.0)
  }

  /** Each share holder is debited their share. */
  function ApplyShares(l: Ledger, shares: seq<ExpenseShare>): Ledger {
    if shares == [] then l
    else
      var s := shares[|shares| - 1];
      ApplyShares(l, shares[..|shares| - 1]).Debit(s.personId, s.amount)
  }

  /** The payer is credited the full amount, then every share is debited. */
  function ApplyExpense(l: Ledger, e: Expense): Ledger {
    ApplyShares(l.Credit(e.paidById, e.amount), e.shares)
  }

  function ApplyExpenses(l: Ledger, es: seq<Expense>): Ledger {
    if es == [] then l else ApplyExpense(ApplyExpenses(l, es[..|es| - 1]), es[|es| - 1])
  }

  /** The payer is credited, the recipient debited, by the same amount. */
  function ApplyTransfer(l: Ledger, t: Transfer): Ledger {
    l.Credit(t.paidById, t.amount).Debit(t.paidToId, t.amount)
  }

  function ApplyTransfers(l: Ledger, ts: seq<Transfer>): Ledger {
    if ts == [] then l else ApplyTransfer(ApplyTransfers(l, ts[..|ts| - 1]), ts[|ts| - 1])
  }

  /**
   * The net-balance map that `calculateBalances` builds for a group. Its
   * iteration order is every person in list order, then every id the
   * expenses and transfers mention, each at the point it is first met.
   */
  function Net(g: Group): (r: Ledger)
    ensures r.order == FirstOccurrences(PersonIdList(g.people) + ExpenseMentions(g.expenses) + TransferMentions(g.transfers))
  {
    InitPeopleOrder(g.people);
    ApplyExpensesOrder(InitPeople(g.people), PersonIdList(g.people), g.expenses);
    ApplyTransfersOrder(ApplyExpenses(InitPeople(g.people), g.expenses), PersonIdList(g.people) + ExpenseMentions(g.expenses), g.transfers);
    ApplyTransfers(ApplyExpenses(InitPeople(g.people), g.expenses), g.transfers)
  }

  // ---------------------------------------------------------------------
  // The aggregation, as the source runs it

  /**
   * The three `forEach` loops of app/balances.ts, lines 5-34, each
   * `netBalances.set` a reassignment of the local map value.
   */
  method Aggregate(g: Group) returns (net: Ledger)
    ensures net == Net(g)
  {
    net := ZeroPeople(g.people);
    net := CreditExpenses(net, g.expenses);
    net := CreditTransfers(net, g.transfers);
  }

  /** The first `forEach` of app/balances.ts, lines 8-10: every person at 0. */
  method ZeroPeople(people: seq<Person>) returns (net: Ledger)
    ensures net == InitPeople(people)
  {
    net := Empty;
    var k := 0;
    while k < |people|
      invariant 0 <= k <= |people|
      invariant net == InitPeople(people[..k])
    {
      assert people[..k + 1][..k] == people[..k];
      net := net.Set(people[k].id, 0.0);
      k := k + 1;
    }
    assert people[..k] == people;
  }

  /** The second `forEach` of app/balances.ts, lines 13-23: credit each payer, debit each share. */
  method CreditExpenses(l: Ledger, expenses: seq<Expense>) returns (net: Ledger)
    ensures net == ApplyExpenses(l, expenses)
  {
    net := l;
    var k := 0;
    while k < |expenses|
      invariant 0 <= k <= |expenses|
      invariant net == ApplyExpenses(l, expenses[..k])
    {
      var expense := expenses[k];
      net := net.Credit(expense.paidById, expense.amount);
      net := DebitShares(net, expense.shares);
      assert expenses[..k + 1][..k] == expenses[..k];
      k := k + 1;
    }
    assert expenses[..k] == expenses;
  }

  /** The third `forEach` of app/balances.ts, lines 26-34: credit each sender, debit each recipient. */
  method CreditTransfers(l: Ledger, transfers: seq<Transfer>) returns (net: Ledger)
    ensures net == ApplyTransfers(l, transfers)
  {
    net := l;
    var k := 0;
    while k < |transfers|
      invariant 0 <= k <= |transfers|
      invariant net == ApplyTransfers(l, transfers[..k])
    {
      var transfer := transfers[k];
      net := net.Credit(transfer.paidById, transfer.amount);
      net := net.Debit(transfer.paidToId, transfer.amount);
      assert transfers[..k + 1][..k] == transfers[..k];
      k := k + 1;
    }
    assert transfers[..k] == transfers;
  }

  /** The inner `forEach` of app/balances.ts, lines 19-22: debit every share holder. */
  method DebitShares(l: Ledger, shares: seq<ExpenseShare>) returns (net: Ledger)
    ensures net == ApplyShares(l, shares)
  {
    net := l;
    var m := 0;
    while m < |shares|
      invariant 0 <= m <= |shares|
      invariant net == ApplyShares(l, shares[..m])
    {
      var share := shares[m];
      assert shares[..m + 1][..m] == shares[..m];
      net := net.Debit(share.personId, share.amount);
      m := m + 1;
    }
    assert shares[..m] == shares;
  }

  // ---------------------------------------------------------------------
  // The iteration order of the map

  /** The distinct elements of `xs`, each where it first occurs. */
  function FirstOccurrences(xs: seq<PersonId>): seq<PersonId> {
    if xs == [] then []
    else
      var init := xs[..|xs| - 1];
      if xs[|xs| - 1] in init then FirstOccurrences(init) else FirstOccurrences(init) + [xs[|xs| - 1]]
  }

  /** The first occurrences list every element of `xs`, and each once. */
  lemma {:induction false} FirstOccurrencesMembers(xs: seq<PersonId>)
    ensures forall x :: x in FirstOccurrences(xs) <==> x in xs
    ensures forall a, b :: 0 <= a < b < |FirstOccurrences(xs)| ==> FirstOccurrences(xs)[a] != FirstOccurrences(xs)[b]
  {
    if xs != [] {
      var init := xs[..|xs| - 1];
      FirstOccurrencesMembers(init);
      assert xs == init + [xs[|xs| - 1]];
    }
  }

  /** The ids of a list of people, in list order. */
  function PersonIdList(people: seq<Person>): (r: seq<PersonId>)
    ensures |r| == |people|
    ensures forall k :: 0 <= k < |r| ==> r[k] == people[k].id
  {
    if people == [] then [] else PersonIdList(people[..|people| - 1]) + [people[|people| - 1].id]
  }

  /** The share holders of one expense, in list order. */
  function ShareMentions(shares: seq<ExpenseShare>): seq<PersonId> {
    if shares == [] then [] else ShareMentions(shares[..|shares| - 1]) + [shares[|shares| - 1].personId]
  }

  /** The ids the expenses mention in the order the aggregation meets them: each payer, then its share holders. */
  function ExpenseMentions(es: seq<Expense>): seq<PersonId> {
    if es == [] then []
    else ExpenseMentions(es[..|es| - 1]) + [es[|es| - 1].paidById] + ShareMentions(es[|es| - 1].shares)
  }

  /** The ids the transfers mention in the order the aggregation meets them: each payer, then its recipient. */
  function TransferMentions(ts: seq<Transfer>): seq<PersonId> {
    if ts == [] then [] else TransferMentions(ts[..|ts| - 1]) + [ts[|ts| - 1].paidById, ts[|ts| - 1].paidToId]
  }

  /** Listing more elements only extends the first occurrences of the earlier ones. */
  lemma {:induction false} FirstOccurrencesPrefix(xs: seq<PersonId>, ys: seq<PersonId>)
    ensures FirstOccurrences(xs) <= FirstOccurrences(xs + ys)
  {
    if ys == [] {
      assert xs + ys == xs;
    } else {
      var init := ys[..|ys| - 1];
      FirstOccurrencesPrefix(xs, init);
      assert (xs + ys)[..|xs + ys| - 1] == xs + init;
    }
  }

  lemma AppendAssoc(a: seq<PersonId>, b: seq<PersonId>, c: seq<PersonId>)
    ensures a + (b + c) == (a + b) + c
  {
  }

  /** A `set` on a map ordered by the first occurrences of `xs` orders it by those of `xs + [id]`. */
  lemma SetOrder(l: Ledger, xs: seq<PersonId>, id: PersonId, v: real)
    requires l.order == FirstOccurrences(xs)
    ensures l.Set(id, v).order == FirstOccurrences(xs + [id])
  {
    FirstOccurrencesMembers(xs);
    assert (xs + [id])[..|xs|] == xs;
  }

  /** The people come first, in list order, a repeated id at its first place only. */
  lemma {:induction false} InitPeopleOrder(people: seq<Person>)
    ensures InitPeople(people).order == FirstOccurrences(PersonIdList(people))
  {
    if people != [] {
      var prefix := people[..|people| - 1];
      InitPeopleOrder(prefix);
      SetOrder(InitPeople(prefix), PersonIdList(prefix), people[|people| - 1].id, 0.0);
    }
  }

  lemma {:induction false} ApplySharesOrder(l: Ledger, xs: seq<PersonId>, shares: seq<ExpenseShare>)
    requires l.order == FirstOccurrences(xs)
    ensures ApplyShares(l, shares).order == FirstOccurrences(xs + ShareMentions(shares))
  {
    if shares != [] {
      var prefix := shares[..|shares| - 1];
      var s := shares[|shares| - 1];
      ApplySharesOrder(l, xs, prefix);
      var l1 := ApplyShares(l, prefix);
      SetOrder(l1, xs + ShareMentions(prefix), s.personId, l1.Get(s.personId) - s.amount);
      assert xs + ShareMentions(shares) == (xs + ShareMentions(prefix)) + [s.personId];
    } else {
      assert xs + ShareMentions(shares) == xs;
    }
  }

  lemma ApplyExpenseOrder(l: Ledger, xs: seq<PersonId>, e: Expense)
    requires l.order == FirstOccurrences(xs)
    ensures ApplyExpense(l, e).order == FirstOccurrences(xs + ([e.paidById] + ShareMentions(e.shares)))
  {
    SetOrder(l, xs, e.paidById, l.Get(e.paidById) + e.amount);
    ApplySharesOrder(l.Credit(e.paidById, e.amount), xs + [e.paidById], e.shares);
    assert xs + ([e.paidById] + ShareMentions(e.shares)) == (xs + [e.paidById]) + ShareMentions(e.shares);
  }

  lemma ExpenseMentionsLast(xs: seq<PersonId>, es: seq<Expense>)
    requires es != []
    ensures xs + ExpenseMentions(es)
         == (xs + ExpenseMentions(es[..|es| - 1])) + ([es[|es| - 1].paidById] + ShareMentions(es[|es| - 1].shares))
  {
    var e := es[|es| - 1];
    AppendAssoc(ExpenseMentions(es[..|es| - 1]), [e.paidById], ShareMentions(e.shares));
    AppendAssoc(xs, ExpenseMentions(es[..|es| - 1]), [e.paidById] + ShareMentions(e.shares));
  }

  /** The expenses only append to the order: each payer, then its share holders, when first met. */
  lemma {:induction false} ApplyExpensesOrder(l: Ledger, xs: seq<PersonId>, es: seq<Expense>)
    requires l.order == FirstOccurrences(xs)
    ensures ApplyExpenses(l, es).order == FirstOccurrences(xs + ExpenseMentions(es))
  {
    if es != [] {
      var prefix := es[..|es| - 1];
      var e := es[|es| - 1];
      ApplyExpensesOrder(l, xs, prefix);
      var l1 := ApplyExpenses(l, prefix);
      var ys := xs + ExpenseMentions(prefix);
      ApplyExpenseOrder(l1, ys, e);
      ExpenseMentionsLast(xs, es);
    } else {
      assert xs + ExpenseMentions(es) == xs;
    }
  }

  lemma TransferMentionsLast(xs: seq<PersonId>, ts: seq<Transfer>)
    requires ts != []
    ensures xs + TransferMentions(ts) == (xs + TransferMentions(ts[..|ts| - 1]) + [ts[|ts| - 1].paidById]) + [ts[|ts| - 1].paidToId]
  {
    var t := ts[|ts| - 1];
    AppendAssoc(xs, TransferMentions(ts[..|ts| - 1]), [t.paidById, t.paidToId]);
    assert [t.paidById, t.paidToId] == [t.paidById] + [t.paidToId];
    AppendAssoc(xs + TransferMentions(ts[..|ts| - 1]), [t.paidById], [t.paidToId]);
  }

  /** The transfers only append to the order: each payer, then its recipient, when first met. */
  lemma {:induction false} ApplyTransfersOrder(l: Ledger, xs: seq<PersonId>, ts: seq<Transfer>)
    requires l.order == FirstOccurrences(xs)
    ensures ApplyTransfers(l, ts).order == FirstOccurrences(xs + TransferMentions(ts))
  {
    if ts != [] {
      var prefix := ts[..|ts| - 1];
      var t := ts[|ts| - 1];
      ApplyTransfersOrder(l, xs, prefix);
      var l1 := ApplyTransfers(l, prefix);
      var ys := xs + TransferMentions(prefix);
      SetOrder(l1, ys, t.paidById, l1.Get(t.paidById) + t.amount);
      var l2 := l1.Credit(t.paidById, t.amount);
      SetOrder(l2, ys + [t.paidById], t.paidToId, l2.Get(t.paidToId) - t.amount);
      TransferMentionsLast(xs, ts);
    } else {
      assert xs + TransferMentions(ts) == xs;
    }
  }

  /**
   * Each stage of the aggregation keeps the order of the one before as a
   * prefix: the people first, then the ids new in expenses, then the ids
   * new in transfers.
   */
  lemma NetOrderExtends(g: Group)
    ensures InitPeople(g.people).order <= ApplyExpenses(InitPeople(g.people), g.expenses).order <= Net(g).order
  {
    var people := PersonIdList(g.people);
    var withExpenses := people + ExpenseMentions(g.expenses);
    InitPeopleOrder(g.people);
    ApplyExpensesOrder(InitPeople(g.people), people, g.expenses);
    FirstOccurrencesPrefix(people, ExpenseMentions(g.expenses));
    FirstOccurrencesPrefix(withExpenses, TransferMentions(g.transfers));
  }

  // ---------------------------------------------------------------------
  // An independent account of each person's position

  /** What `x` paid for expenses. */
  function PaidFor(es: seq<Expense>, x: PersonId): real {
    if es == [] then 0.0
    else PaidFor(es[..|es| - 1], x) + (if es[|es| - 1].paidById == x then es[|es| - 1].amount else 0.0)
  }

  /** What `x` is responsible for within one expense. */
  function ShareOf(shares: seq<ExpenseShare>, x: PersonId): real {
    if shares == [] then 0.0
    else ShareOf(shares[..|shares| - 1], x) + (if shares[|shares| - 1].personId == x then shares[|shares| - 1].amount else 0.0)
  }

  /** What `x` is responsible for across all expenses. */
  function ConsumedBy(es: seq<Expense>, x: PersonId): real {
    if es == [] then 0.0 else ConsumedBy(es[..|es| - 1], x) + ShareOf(es[|es| - 1].shares, x)
  }

  /** What `x` handed over in transfers. */
  function SentBy(ts: seq<Transfer>, x: PersonId): real {
    if ts == [] then 0.0
    else SentBy(ts[..|ts| - 1], x) + (if ts[|ts| - 1].paidById == x then ts[|ts| - 1].amount else 0.0)
  }

  /** What `x` received in transfers. */
  function ReceivedBy(ts: seq<Transfer>, x: PersonId): real {
    if ts == [] then 0.0
    else ReceivedBy(ts[..|ts| - 1], x) + (if ts[|ts| - 1].paidToId == x then ts[|ts| - 1].amount else 0.0)
  }

  /** A person's net position: paid minus consumed, plus sent minus received. */
  function Position(g: Group, x: PersonId): real {
    PaidFor(g.expenses, x) - ConsumedBy(g.expenses, x) + SentBy(g.transfers, x) - ReceivedBy(g.transfers, x)
  }

  /** The ids of the people of a group. */
  function PeopleIds(people: seq<Person>): set<PersonId> {
    set p | p in people :: p.id
  }

  /** The ids an expense list mentions: payers and share holders. */
  function ExpenseIds(es: seq<Expense>): set<PersonId> {
    if es == [] then {}
    else ExpenseIds(es[..|es| - 1]) + {es[|es| - 1].paidById} + set s | s in es[|es| - 1].shares :: s.personId
  }

  /** The ids a transfer list mentions: payers and recipients. */
  function TransferIds(ts: seq<Transfer>): set<PersonId> {
    if ts == [] then {} else TransferIds(ts[..|ts| - 1]) + {ts[|ts| - 1].paidById, ts[|ts| - 1].paidToId}
  }

  /** What the expenses put into the pot beyond what their shares take out. */
  function Unshared(es: seq<Expense>): real {
    if es == [] then 0.0
    else Unshared(es[..|es| - 1]) + (es[|es| - 1].amount - ShareTotal(es[|es| - 1].shares))
  }

  function ShareTotal(shares: seq<ExpenseShare>): real {
    if shares == [] then 0.0 else ShareTotal(shares[..|shares| - 1]) + shares[|shares| - 1].amount
  }

  /** Every expense's shares add up to its amount (checked by the entry forms, not here). */
  ghost predicate SharesBalanced(es: seq<Expense>) {
    forall e :: e in es ==> ShareTotal(e.shares) == e.amount
  }

  // ---------------------------------------------------------------------
  // Lemmas: each stage against the independent account

  lemma {:induction false} InitPeopleKeys(people: seq<Person>)
    ensures InitPeople(people).Valid()
    ensures InitPeople(people).amounts.Keys == PeopleIds(people)
  {
    if people != [] {
      var prefix := people[..|people| - 1];
      InitPeopleKeys(prefix);
      SetValid(InitPeople(prefix), people[|people| - 1].id, 0.0);
      assert people == prefix + [people[|people| - 1]];
      assert PeopleIds(people) == PeopleIds(prefix) + {people[|people| - 1].id};
    }
  }

  lemma {:induction false} InitPeopleZero(people: seq<Person>, x: PersonId)
    ensures InitPeople(people).Get(x) == 0.0
  {
    if people != [] {
      var prefix := people[..|people| - 1];
      InitPeopleZero(prefix, x);
      SetGet(InitPeople(prefix), people[|people| - 1].id, 0.0, x);
    }
  }

  lemma {:induction false} ApplySharesGet(l: Ledger, shares: seq<ExpenseShare>, x: PersonId)
    ensures ApplyShares(l, shares).Get(x) == l.Get(x) - ShareOf(shares, x)
  {
    if shares != [] {
      var prefix := shares[..|shares| - 1];
      var s := shares[|shares| - 1];
      ApplySharesGet(l, prefix, x);
      var p := ApplyShares(l, prefix);
      SetGet(p, s.personId, p.Get(s.personId) - s.amount, x);
    }
  }

  lemma {:induction false} ApplySharesKeys(l: Ledger, shares: seq<ExpenseShare>)
    ensures ApplyShares(l, shares).amounts.Keys == l.amounts.Keys + set s | s in shares :: s.personId
    ensures l.Valid() ==> ApplyShares(l, shares).Valid()
  {
    if shares != [] {
      var prefix := shares[..|shares| - 1];
      var s := shares[|shares| - 1];
      ApplySharesKeys(l, prefix);
      var p := ApplyShares(l, prefix);
      SetValid(p, s.personId, p.Get(s.personId) - s.amount);
      assert shares == prefix + [s];
      assert (set s | s in shares :: s.personId) == (set s | s in prefix :: s.personId) + {s.personId};
    }
  }

  lemma {:induction false} ApplyExpensesGet(l: Ledger, es: seq<Expense>, x: PersonId)
    ensures ApplyExpenses(l, es).Get(x) == l.Get(x) + PaidFor(es, x) - ConsumedBy(es, x)
  {
    if es != [] {
      var prefix := es[..|es| - 1];
      var e := es[|es| - 1];
      ApplyExpensesGet(l, prefix, x);
      var before := ApplyExpenses(l, prefix);
      SetGet(before, e.paidById, before.Get(e.paidById) + e.amount, x);
      ApplySharesGet(before.Credit(e.paidById, e.amount), e.shares, x);
    }
  }

  lemma {:induction false} ApplyExpensesKeys(l: Ledger, es: seq<Expense>)
    ensures ApplyExpenses(l, es).amounts.Keys == l.amounts.Keys + ExpenseIds(es)
  {
    if es != [] {
      var prefix := es[..|es| - 1];
      var e := es[|es| - 1];
      ApplyExpensesKeys(l, prefix);
      var before := ApplyExpenses(l, prefix);
      SetValid(before, e.paidById, before.Get(e.paidById) + e.amount);
      ApplySharesKeys(before.Credit(e.paidById, e.amount), e.shares);
    }
  }

  lemma {:induction false} ApplyExpensesValid(l: Ledger, es: seq<Expense>)
    requires l.Valid()
    ensures ApplyExpenses(l, es).Valid()
  {
    if es != [] {
      var prefix := es[..|es| - 1];
      var e := es[|es| - 1];
      ApplyExpensesValid(l, prefix);
      var before := ApplyExpenses(l, prefix);
      SetValid(before, e.paidById, before.Get(e.paidById) + e.amount);
      ApplySharesKeys(before.Credit(e.paidById, e.amount), e.shares);
    }
  }

  lemma {:induction false} ApplyTransfersGet(l: Ledger, ts: seq<Transfer>, x: PersonId)
    ensures ApplyTransfers(l, ts).Get(x) == l.Get(x) + SentBy(ts, x) - ReceivedBy(ts, x)
  {
    if ts != [] {
      var t := ts[|ts| - 1];
      ApplyTransfersGet(l, ts[..|ts| - 1], x);
      var before := ApplyTransfers(l, ts[..|ts| - 1]);
      SetGet(before, t.paidById, before.Get(t.paidById) + t.amount, x);
      var l1 := before.Credit(t.paidById, t.amount);
      SetGet(l1, t.paidToId, l1.Get(t.paidToId) - t.amount, x);
    }
  }

  lemma {:induction false} ApplyTransfersKeys(l: Ledger, ts: seq<Transfer>)
    ensures ApplyTransfers(l, ts).amounts.Keys == l.amounts.Keys + TransferIds(ts)
    ensures l.Valid() ==> ApplyTransfers(l, ts).Valid()
  {
    if ts != [] {
      var t := ts[|ts| - 1];
      ApplyTransfersKeys(l, ts[..|ts| - 1]);
      var before := ApplyTransfers(l, ts[..|ts| - 1]);
      SetValid(before, t.paidById, before.Get(t.paidById) + t.amount);
      var l1 := before.Credit(t.paidById, t.amount);
      SetValid(l1, t.paidToId, l1.Get(t.paidToId) - t.amount);
    }
  }

  /**
   * The map holds exactly the group's people and every id an expense or
   * transfer mentions, each listed once.
   */
  lemma NetKeys(g: Group)
    ensures Net(g).Valid()
    ensures Net(g).amounts.Keys == PeopleIds(g.people) + ExpenseIds(g.expenses) + TransferIds(g.transfers)
  {
    InitPeopleKeys(g.people);
    ApplyExpensesKeys(InitPeople(g.people), g.expenses);
    ApplyExpensesValid(InitPeople(g.people), g.expenses);
    ApplyTransfersKeys(ApplyExpenses(InitPeople(g.people), g.expenses), g.transfers);
  }

  /**
   * Each person's balance is their net position: paid minus consumed, plus
   * transferred out minus received.
   */
  lemma NetIsPosition(g: Group, x: PersonId)
    ensures Net(g).Get(x) == Position(g, x)
  {
    InitPeopleZero(g.people, x);
    ApplyExpensesGet(InitPeople(g.people), g.expenses, x);
    ApplyTransfersGet(ApplyExpenses(InitPeople(g.people), g.expenses), g.transfers, x);
  }

  /** A person whom no expense or transfer mentions is listed, at exactly 0. */
  lemma UninvolvedPersonIsSettled(g: Group, p: Person)
    requires p in g.people
    requires p.id !in ExpenseIds(g.expenses) && p.id !in TransferIds(g.transfers)
    ensures p.id in Net(g).amounts && Net(g).amounts[p.id] == 0.0
  {
    NetKeys(g);
    NetIsPosition(g, p.id);
    NotMentionedPaidNothing(g.expenses, g.transfers, p.id);
  }

  lemma {:induction false} NotMentionedPaidNothing(es: seq<Expense>, ts: seq<Transfer>, x: PersonId)
    requires x !in ExpenseIds(es) && x !in TransferIds(ts)
    decreases |es| + |ts|
    ensures PaidFor(es, x) == 0.0 && ConsumedBy(es, x) == 0.0
    ensures SentBy(ts, x) == 0.0 && ReceivedBy(ts, x) == 0.0
  {
    if es != [] {
      NotMentionedPaidNothing(es[..|es| - 1], [], x);
      NotMentionedShareless(es[|es| - 1].shares, x);
    }
    if ts != [] {
      NotMentionedPaidNothing([], ts[..|ts| - 1], x);
    }
  }

  lemma {:induction false} NotMentionedShareless(shares: seq<ExpenseShare>, x: PersonId)
    requires forall s :: s in shares ==> s.personId != x
    ensures ShareOf(shares, x) == 0.0
  {
    if shares != [] {
      NotMentionedShareless(shares[..|shares| - 1], x);
    }
  }

  // ---------------------------------------------------------------------
  // Lemmas: conservation of money

  /** Changing one listed balance changes the sum of a duplicate-free id list by the difference. */
  lemma {:induction false} SumOfSet(l: Ledger, ids: seq<PersonId>, id: PersonId, v: real)
    requires forall a, b :: 0 <= a < b < |ids| ==> ids[a] != ids[b]
    ensures l.Set(id, v).SumOf(ids) == l.SumOf(ids) + (if id in ids then v - l.Get(id) else 0.0)
  {
    if ids != [] {
      var prefix := ids[..|ids| - 1];
      SumOfSet(l, prefix, id, v);
      assert id in ids <==> id in prefix || id == ids[|ids| - 1];
    }
  }

  /** `set` changes the total of the map by exactly the change it makes to the one balance. */
  lemma SetTotal(l: Ledger, id: PersonId, v: real)
    requires l.Valid()
    ensures l.Set(id, v).Total() == l.Total() - l.Get(id) + v
  {
    var l' := l.Set(id, v);
    if id in l.order {
      SumOfSet(l, l.order, id, v);
    } else {
      SumOfSet(l, l.order, id, v);
      assert l'.order[..|l'.order| - 1] == l.order;
    }
  }

  /** Crediting or debiting a balance moves the total by exactly that amount. */
  lemma CreditDebitTotal(l: Ledger, id: PersonId, amount: real)
    requires l.Valid()
    ensures l.Credit(id, amount).Total() == l.Total() + amount
    ensures l.Debit(id, amount).Total() == l.Total() - amount
  {
    SetTotal(l, id, l.Get(id) + amount);
    SetTotal(l, id, l.Get(id) - amount);
  }

  lemma {:induction false} InitPeopleTotal(people: seq<Person>)
    ensures InitPeople(people).Total() == 0.0
  {
    if people != [] {
      var prefix := people[..|people| - 1];
      var id := people[|people| - 1].id;
      InitPeopleTotal(prefix);
      InitPeopleKeys(prefix);
      InitPeopleZero(prefix, id);
      SetTotal(InitPeople(prefix), id, 0.0);
    }
  }

  lemma {:induction false} ApplySharesTotal(l: Ledger, shares: seq<ExpenseShare>)
    requires l.Valid()
    ensures ApplyShares(l, shares).Total() == l.Total() - ShareTotal(shares)
  {
    if shares != [] {
      var prefix := shares[..|shares| - 1];
      var s := shares[|shares| - 1];
      ApplySharesTotal(l, prefix);
      ApplySharesKeys(l, prefix);
      CreditDebitTotal(ApplyShares(l, prefix), s.personId, s.amount);
    }
  }

  lemma {:induction false} ApplyExpensesTotal(l: Ledger, es: seq<Expense>)
    requires l.Valid()
    ensures ApplyExpenses(l, es).Total() == l.Total() + Unshared(es)
  {
    if es != [] {
      var prefix := es[..|es| - 1];
      var e := es[|es| - 1];
      ApplyExpensesTotal(l, prefix);
      ApplyExpensesValid(l, prefix);
      var before := ApplyExpenses(l, prefix);
      CreditDebitTotal(before, e.paidById, e.amount);
      SetValid(before, e.paidById, before.Get(e.paidById) + e.amount);
      ApplySharesTotal(before.Credit(e.paidById, e.amount), e.shares);
    }
  }

  lemma {:induction false} ApplyTransfersTotal(l: Ledger, ts: seq<Transfer>)
    requires l.Valid()
    ensures ApplyTransfers(l, ts).Total() == l.Total()
  {
    if ts != [] {
      var prefix := ts[..|ts| - 1];
      var t := ts[|ts| - 1];
      ApplyTransfersTotal(l, prefix);
      ApplyTransfersKeys(l, prefix);
      var before := ApplyTransfers(l, prefix);
      CreditDebitTotal(before, t.paidById, t.amount);
      SetValid(before, t.paidById, before.Get(t.paidById) + t.amount);
      CreditDebitTotal(before.Credit(t.paidById, t.amount), t.paidToId, t.amount);
    }
  }

  /**
   * The balances add up to what the expenses paid beyond their shares;
   * transfers move money between people and never change the total.
   */
  lemma NetTotal(g: Group)
    ensures Net(g).Total() == Unshared(g.expenses)
  {
    InitPeopleKeys(g.people);
    InitPeopleTotal(g.people);
    ApplyExpensesTotal(InitPeople(g.people), g.expenses);
    ApplyExpensesValid(InitPeople(g.people), g.expenses);
    ApplyTransfersTotal(ApplyExpenses(InitPeople(g.people), g.expenses), g.transfers);
  }

  lemma {:induction false} UnsharedZero(es: seq<Expense>)
    requires SharesBalanced(es)
    ensures Unshared(es) == 0.0
  {
    if es != [] {
      UnsharedZero(es[..|es| - 1]);
    }
  }

  /** Zero-sum: when every expense's shares cover its amount, the balances sum to 0. */
  lemma NetZeroSum(g: Group)
    requires SharesBalanced(g.expenses)
    ensures Net(g).Total() == 0.0
  {
    NetTotal(g);
    UnsharedZero(g.expenses);
  }
}
