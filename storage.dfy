/**
 * The storage layer: a list of groups kept under one `localStorage` key,
 * read whole, changed, and written back whole. `GroupStore.groups` is that
 * list; every operation reads it, looks its group up by id with `find`, and
 * writes the changed group back through `saveGroup`.
 *
 * Fresh record ids (random UUIDs and hexadecimal group ids) are parameters.
 */
module Storage {
  import opened Types
  import opened JsArrays
  import opened NetBalances

  // ---------------------------------------------------------------------
  // The callbacks handed to `find`, `findIndex`, `some` and `filter`

  function HasGroupId(id: string): Group -> bool { (g: Group) => g.id == id }
  function OtherGroup(id: string): Group -> bool { (g: Group) => g.id != id }
  function HasPersonId(id: PersonId): Person -> bool { (p: Person) => p.id == id }
  function OtherPerson(id: PersonId): Person -> bool { (p: Person) => p.id != id }
  function HasExpenseId(id: string): Expense -> bool { (e: Expense) => e.id == id }
  function OtherExpense(id: string): Expense -> bool { (e: Expense) => e.id != id }
  function HasTransferId(id: string): Transfer -> bool { (t: Transfer) => t.id == id }
  function OtherTransfer(id: string): Transfer -> bool { (t: Transfer) => t.id != id }
  function IsShareOf(personId: PersonId): ExpenseShare -> bool { (s: ExpenseShare) => s.personId == personId }

  /** The expense is paid by the person or has a share of theirs. */
  function ExpenseInvolves(personId: PersonId): Expense -> bool {
    (e: Expense) => e.paidById == personId || Any(e.shares, IsShareOf(personId))
  }

  /** The transfer is from or to the person. */
  function TransferInvolves(personId: PersonId): Transfer -> bool {
    (t: Transfer) => t.paidById == personId || t.paidToId == personId
  }

  // ---------------------------------------------------------------------
  // The table operations on values

  /**
   * The list after `saveGroup`: with the id present the length is kept and
   * only the first group with it is replaced; otherwise the group is
   * appended.
   */
  function Upsert(gs: seq<Group>, g: Group): (r: seq<Group>)
    ensures Any(gs, HasGroupId(g.id)) ==>
      var i := FindIndex(gs, HasGroupId(g.id));
      && |r| == |gs| && gs[i].id == g.id && r[i] == g
      && forall k :: 0 <= k < |gs| && k != i ==> r[k] == gs[k]
    ensures !Any(gs, HasGroupId(g.id)) ==> r == gs + [g]
  {
    var index := FindIndex(gs, HasGroupId(g.id));
    if index >= 0 then gs[index := g] else gs + [g]
  }

  /** `Math.max` of the ids of a non-empty list of people. */
  function MaxId(people: seq<Person>): (r: PersonId)
    requires people != []
    ensures forall k :: 0 <= k < |people| ==> people[k].id <= r
    ensures exists k :: 0 <= k < |people| && people[k].id == r
  {
    if |people| == 1 then people[0].id
    else
      var m := MaxId(people[1..]);
      if people[0].id > m then people[0].id else m
  }

  /** The id `addPerson` gives a new person: one more than the largest, or 1 for the first. */
  function NextPersonId(people: seq<Person>): (r: PersonId)
    ensures forall k :: 0 <= k < |people| ==> people[k].id < r
    ensures people == [] ==> r == 1
  {
    if |people| > 0 then MaxId(people) + 1 else 1
  }

  /**
   * `deletePerson`'s guard: the person pays or shares an expense, or sends
   * or receives a transfer. It refuses exactly the people some expense or
   * transfer mentions.
   */
  function Involved(g: Group, personId: PersonId): (r: bool)
    ensures r <==> personId in ExpenseIds(g.expenses) || personId in TransferIds(g.transfers)
  {
    ExpenseIdsInvolved(g.expenses, personId);
    TransferIdsInvolved(g.transfers, personId);
    Any(g.expenses, ExpenseInvolves(personId)) || Any(g.transfers, TransferInvolves(personId))
  }

  /** The group after `deletePerson` has dropped the person. */
  function WithoutPerson(g: Group, personId: PersonId): Group {
    g.(people := Filter(g.people, OtherPerson(personId)))
  }

  /** Every id an expense or transfer mentions belongs to a person of the group. */
  ghost predicate ReferencesKnown(g: Group) {
    ExpenseIds(g.expenses) + TransferIds(g.transfers) <= PeopleIds(g.people)
  }

  // ---------------------------------------------------------------------
  // Lemmas about the table operations

  /**
   * After `saveGroup`, `getGroup` finds the saved group under its id and
   * finds for every other id what it found before.
   */
  lemma UpsertFinds(gs: seq<Group>, g: Group)
    ensures Find(Upsert(gs, g), HasGroupId(g.id)) == Some(g)
    ensures forall id :: id != g.id ==> Find(Upsert(gs, g), HasGroupId(id)) == Find(gs, HasGroupId(id))
  {
    var i := FindIndex(gs, HasGroupId(g.id));
    if i >= 0 {
      FindAfterReplace(gs, HasGroupId(g.id), g);
      forall id | id != g.id
        ensures Find(Upsert(gs, g), HasGroupId(id)) == Find(gs, HasGroupId(id))
      {
        FindOtherAfterReplace(gs, i, g, HasGroupId(id));
      }
    } else {
      FindAppendHit(gs, g, HasGroupId(g.id));
      forall id | id != g.id
        ensures Find(Upsert(gs, g), HasGroupId(id)) == Find(gs, HasGroupId(id))
      {
        FindAppendMiss(gs, g, HasGroupId(id));
      }
    }
  }

  /** The ids mentioned by a list of expenses are those some expense involves. */
  lemma {:induction false} ExpenseIdsInvolved(es: seq<Expense>, x: PersonId)
    ensures x in ExpenseIds(es) <==> Any(es, ExpenseInvolves(x))
  {
    if es != [] {
      var init, e := es[..|es| - 1], es[|es| - 1];
      ExpenseIdsInvolved(init, x);
      assert es == init + [e];
      assert forall k :: 0 <= k < |init| ==> es[k] == init[k];
      ShareIdsInvolved(e.shares, x);
    }
  }

  /** The ids holding shares of an expense are those the share guard fires for. */
  lemma ShareIdsInvolved(shares: seq<ExpenseShare>, x: PersonId)
    ensures (x in set s | s in shares :: s.personId) <==> Any(shares, IsShareOf(x))
  {
    if Any(shares, IsShareOf(x)) {
      var k :| 0 <= k < |shares| && IsShareOf(x)(shares[k]);
      assert shares[k] in shares;
    }
  }

  /** The ids mentioned by a list of transfers are those some transfer involves. */
  lemma {:induction false} TransferIdsInvolved(ts: seq<Transfer>, x: PersonId)
    ensures x in TransferIds(ts) <==> Any(ts, TransferInvolves(x))
  {
    if ts != [] {
      var init, t := ts[..|ts| - 1], ts[|ts| - 1];
      TransferIdsInvolved(init, x);
      assert ts == init + [t];
      assert forall k :: 0 <= k < |init| ==> ts[k] == init[k];
    }
  }

  /**
   * A deletion the guard lets through removes only that person's id and
   * leaves no expense or transfer pointing at someone who is not there.
   */
  lemma DeletePersonKeepsReferences(g: Group, personId: PersonId)
    requires ReferencesKnown(g) && !Involved(g, personId)
    ensures PeopleIds(WithoutPerson(g, personId).people) == PeopleIds(g.people) - {personId}
    ensures ReferencesKnown(WithoutPerson(g, personId))
  {
    var people := g.people;
    var kept := Filter(people, OtherPerson(personId));
    forall x | x in PeopleIds(people) - {personId} ensures x in PeopleIds(kept) {
      var p :| p in people && p.id == x;
      var k :| 0 <= k < |people| && people[k] == p;
      assert OtherPerson(personId)(people[k]);
    }
    forall x | x in PeopleIds(kept) ensures x in PeopleIds(people) - {personId} {
      var p :| p in kept && p.id == x;
      var k :| 0 <= k < |kept| && kept[k] == p;
      assert OtherPerson(personId)(kept[k]);
    }
  }

  /** A person the guard lets `deletePerson` remove has a net balance of exactly zero. */
  lemma DeletedPersonWasSettled(g: Group, p: Person)
    requires p in g.people && !Involved(g, p.id)
    ensures p.id in Net(g).amounts && Net(g).amounts[p.id] == 0.0
  {
    UninvolvedPersonIsSettled(g, p);
  }

  // ---------------------------------------------------------------------
  // The store

  class GroupStore {
    /** The stored groups, in storage order. */
    var groups: seq<Group>

    constructor (groups: seq<Group>)
      ensures this.groups == groups
    {
      this.groups := groups;
    }

    /** `getGroup`: the first group with the id, if any. */
    function GetGroup(id: string): (r: Option<Group>)
      reads this
      ensures r.None? <==> forall k :: 0 <= k < |groups| ==> groups[k].id != id
      ensures r.Some? ==> r.value in groups && r.value.id == id
    {
      FindIsFirst(groups, HasGroupId(id));
      Find(groups, HasGroupId(id))
    }

    /** `getExpense`: the first expense with the id in the group, if both exist. */
    function GetExpense(groupId: string, expenseId: string): (r: Option<Expense>)
      reads this
      ensures r.Some? ==> GetGroup(groupId).Some? && r.value in GetGroup(groupId).value.expenses
      ensures r.Some? ==> r.value.id == expenseId
      ensures GetGroup(groupId).Some? && r.None? ==>
        forall e :: e in GetGroup(groupId).value.expenses ==> e.id != expenseId
    {
      var group := GetGroup(groupId);
      if group.None? then None
      else
        FindIsFirst(group.value.expenses, HasExpenseId(expenseId));
        Find(group.value.expenses, HasExpenseId(expenseId))
    }

    /** `getTransfer`: the first transfer with the id in the group, if both exist. */
    function GetTransfer(groupId: string, transferId: string): (r: Option<Transfer>)
      reads this
      ensures r.Some? ==> GetGroup(groupId).Some? && r.value in GetGroup(groupId).value.transfers
      ensures r.Some? ==> r.value.id == transferId
      ensures GetGroup(groupId).Some? && r.None? ==>
        forall t :: t in GetGroup(groupId).value.transfers ==> t.id != transferId
    {
      var group := GetGroup(groupId);
      if group.None? then None
      else
        FindIsFirst(group.value.transfers, HasTransferId(transferId));
        Find(group.value.transfers, HasTransferId(transferId))
    }

    /** `saveGroup`: replace the first group with the same id, or append. */
    method SaveGroup(group: Group)
      modifies this
      ensures groups == Upsert(old(groups), group)
      ensures GetGroup(group.id) == Some(group)
      ensures forall id :: id != group.id ==> GetGroup(id) == old(GetGroup(id))
    {
      UpsertFinds(groups, group);
      var index := FindIndex(groups, HasGroupId(group.id));
      if index >= 0 {
        groups := groups[index := group];
      } else {
        groups := groups + [group];
      }
    }

    /** `createGroup`, with the generated id as a parameter. */
    method CreateGroup(id: string, name: string) returns (group: Group)
      modifies this
      ensures group == Group(id, name, [], [], [])
      ensures groups == Upsert(old(groups), group)
      ensures GetGroup(id) == Some(group)
    {
      group := Group(id, name, [], [], []);
      SaveGroup(group);
    }

    /** `addPerson`: append a person with the next free id to the group, if it exists. */
    method AddPerson(groupId: string, name: string) returns (person: Option<Person>)
      modifies this
      ensures old(GetGroup(groupId)).None? ==> person.None? && groups == old(groups)
      ensures old(GetGroup(groupId)).Some? ==>
        var g := old(GetGroup(groupId)).value;
        && person == Some(Person(NextPersonId(g.people), name))
        && groups == Upsert(old(groups), g.(people := g.people + [person.value]))
        && GetGroup(groupId) == Some(g.(people := g.people + [person.value]))
        && forall k :: 0 <= k < |g.people| ==> g.people[k].id != person.value.id
    {
      var group := GetGroup(groupId);
      if group.None? {
        return None;
      }
      var g := group.value;
      var p := Person(NextPersonId(g.people), name);
      g := g.(people := g.people + [p]);
      SaveGroup(g);
      return Some(p);
    }

    /** `addExpense`, with the generated id as a parameter. */
    method AddExpense(groupId: string, draft: ExpenseDraft, id: string) returns (expense: Option<Expense>)
      modifies this
      ensures old(GetGroup(groupId)).None? ==> expense.None? && groups == old(groups)
      ensures old(GetGroup(groupId)).Some? ==>
        var g := old(GetGroup(groupId)).value;
        && expense == Some(draft.WithId(id))
        && groups == Upsert(old(groups), g.(expenses := g.expenses + [expense.value]))
        && GetGroup(groupId) == Some(g.(expenses := g.expenses + [expense.value]))
    {
      var group := GetGroup(groupId);
      if group.None? {
        return None;
      }
      var g := group.value;
      var e := draft.WithId(id);
      g := g.(expenses := g.expenses + [e]);
      SaveGroup(g);
      return Some(e);
    }

    /** `addTransfer`, with the generated id as a parameter. */
    method AddTransfer(groupId: string, draft: TransferDraft, id: string) returns (transfer: Option<Transfer>)
      modifies this
      ensures old(GetGroup(groupId)).None? ==> transfer.None? && groups == old(groups)
      ensures old(GetGroup(groupId)).Some? ==>
        var g := old(GetGroup(groupId)).value;
        && transfer == Some(draft.WithId(id))
        && groups == Upsert(old(groups), g.(transfers := g.transfers + [transfer.value]))
        && GetGroup(groupId) == Some(g.(transfers := g.transfers + [transfer.value]))
    {
      var group := GetGroup(groupId);
      if group.None? {
        return None;
      }
      var g := group.value;
      var t := draft.WithId(id);
      g := g.(transfers := g.transfers + [t]);
      SaveGroup(g);
      return Some(t);
    }

    /** `updateGroupName` */
    method UpdateGroupName(groupId: string, name: string) returns (ok: bool)
      modifies this
      ensures ok <==> old(GetGroup(groupId)).Some?
      ensures !ok ==> groups == old(groups)
      ensures ok ==>
        var g := old(GetGroup(groupId)).value.(name := name);
        groups == Upsert(old(groups), g) && GetGroup(groupId) == Some(g)
    {
      var group := GetGroup(groupId);
      if group.None? {
        return false;
      }
      var g := group.value.(name := name);
      SaveGroup(g);
      return true;
    }

    /**
     * `updatePersonName`. The person `find` returns is the list's own
     * element, so renaming it rewrites the slot of the first person with
     * that id.
     */
    method UpdatePersonName(groupId: string, personId: PersonId, name: string) returns (ok: bool)
      modifies this
      ensures ok <==> old(GetGroup(groupId)).Some? && Any(old(GetGroup(groupId)).value.people, HasPersonId(personId))
      ensures !ok ==> groups == old(groups)
      ensures ok ==>
        var g := old(GetGroup(groupId)).value;
        var i := FindIndex(g.people, HasPersonId(personId));
        && 0 <= i && g.people[i].id == personId
        && groups == Upsert(old(groups), g.(people := g.people[i := g.people[i].(name := name)]))
    {
      var group := GetGroup(groupId);
      if group.None? {
        return false;
      }
      var g := group.value;
      var index := FindIndex(g.people, HasPersonId(personId));
      if index < 0 {
        return false;
      }
      g := g.(people := g.people[index := g.people[index].(name := name)]);
      SaveGroup(g);
      return true;
    }

    /** `updateExpense`: overwrite the first expense with the id, keeping the id. */
    method UpdateExpense(groupId: string, expenseId: string, draft: ExpenseDraft) returns (ok: bool)
      modifies this
      ensures ok <==> old(GetGroup(groupId)).Some? && Any(old(GetGroup(groupId)).value.expenses, HasExpenseId(expenseId))
      ensures !ok ==> groups == old(groups)
      ensures ok ==>
        var g := old(GetGroup(groupId)).value;
        var i := FindIndex(g.expenses, HasExpenseId(expenseId));
        && 0 <= i
        && groups == Upsert(old(groups), g.(expenses := g.expenses[i := draft.WithId(expenseId)]))
        && GetExpense(groupId, expenseId) == Some(draft.WithId(expenseId))
    {
      var group := GetGroup(groupId);
      if group.None? {
        return false;
      }
      var g := group.value;
      var index := FindIndex(g.expenses, HasExpenseId(expenseId));
      if index == -1 {
        return false;
      }
      FindAfterReplace(g.expenses, HasExpenseId(expenseId), draft.WithId(expenseId));
      g := g.(expenses := g.expenses[index := draft.WithId(expenseId)]);
      SaveGroup(g);
      return true;
    }

    /** `updateTransfer`: overwrite the first transfer with the id, keeping the id. */
    method UpdateTransfer(groupId: string, transferId: string, draft: TransferDraft) returns (ok: bool)
      modifies this
      ensures ok <==> old(GetGroup(groupId)).Some? && Any(old(GetGroup(groupId)).value.transfers, HasTransferId(transferId))
      ensures !ok ==> groups == old(groups)
      ensures ok ==>
        var g := old(GetGroup(groupId)).value;
        var i := FindIndex(g.transfers, HasTransferId(transferId));
        && 0 <= i
        && groups == Upsert(old(groups), g.(transfers := g.transfers[i := draft.WithId(transferId)]))
        && GetTransfer(groupId, transferId) == Some(draft.WithId(transferId))
    {
      var group := GetGroup(groupId);
      if group.None? {
        return false;
      }
      var g := group.value;
      var index := FindIndex(g.transfers, HasTransferId(transferId));
      if index == -1 {
        return false;
      }
      FindAfterReplace(g.transfers, HasTransferId(transferId), draft.WithId(transferId));
      g := g.(transfers := g.transfers[index := draft.WithId(transferId)]);
      SaveGroup(g);
      return true;
    }

    /** `deleteGroup`: drop every group with the id; report whether there was one. */
    method DeleteGroup(groupId: string) returns (ok: bool)
      modifies this
      ensures ok <==> old(GetGroup(groupId)).Some?
      ensures !ok ==> groups == old(groups)
      ensures ok ==> groups == Filter(old(groups), OtherGroup(groupId)) && GetGroup(groupId).None?
    {
      var filtered := Filter(groups, OtherGroup(groupId));
      FilterLength(groups, OtherGroup(groupId));
      if |filtered| == |groups| {
        return false;
      }
      groups := filtered;
      return true;
    }

    /**
     * `deletePerson`: refuse when an expense or transfer involves the
     * person; otherwise drop every person with the id and report success,
     * also when there was no such person.
     */
    method DeletePerson(groupId: string, personId: PersonId) returns (ok: bool)
      modifies this
      ensures ok <==> old(GetGroup(groupId)).Some? && !Involved(old(GetGroup(groupId)).value, personId)
      ensures !ok ==> groups == old(groups)
      ensures ok ==>
        var g := WithoutPerson(old(GetGroup(groupId)).value, personId);
        groups == Upsert(old(groups), g) && GetGroup(groupId) == Some(g)
    {
      var group := GetGroup(groupId);
      if group.None? {
        return false;
      }
      var g := group.value;
      var hasExpenses := Any(g.expenses, ExpenseInvolves(personId));
      var hasTransfers := Any(g.transfers, TransferInvolves(personId));
      if hasExpenses || hasTransfers {
        return false;
      }
      g := g.(people := Filter(g.people, OtherPerson(personId)));
      SaveGroup(g);
      return true;
    }

    /** `deleteExpense`: drop every expense with the id; report whether there was one. */
    method DeleteExpense(groupId: string, expenseId: string) returns (ok: bool)
      modifies this
      ensures ok <==> old(GetGroup(groupId)).Some? && Any(old(GetGroup(groupId)).value.expenses, HasExpenseId(expenseId))
      ensures !ok ==> groups == old(groups)
      ensures ok ==>
        var g := old(GetGroup(groupId)).value;
        && groups == Upsert(old(groups), g.(expenses := Filter(g.expenses, OtherExpense(expenseId))))
        && GetExpense(groupId, expenseId).None?
    {
      var group := GetGroup(groupId);
      if group.None? {
        return false;
      }
      var g := group.value;
      var initialLength := |g.expenses|;
      FilterLength(g.expenses, OtherExpense(expenseId));
      g := g.(expenses := Filter(g.expenses, OtherExpense(expenseId)));
      if |g.expenses| == initialLength {
        return false;
      }
      SaveGroup(g);
      return true;
    }

    /** `deleteTransfer`: drop every transfer with the id; report whether there was one. */
    method DeleteTransfer(groupId: string, transferId: string) returns (ok: bool)
      modifies this
      ensures ok <==> old(GetGroup(groupId)).Some? && Any(old(GetGroup(groupId)).value.transfers, HasTransferId(transferId))
      ensures !ok ==> groups == old(groups)
      ensures ok ==>
        var g := old(GetGroup(groupId)).value;
        && groups == Upsert(old(groups), g.(transfers := Filter(g.transfers, OtherTransfer(transferId))))
        && GetTransfer(groupId, transferId).None?
    {
      var group := GetGroup(groupId);
      if group.None? {
        return false;
      }
      var g := group.value;
      var initialLength := |g.transfers|;
      FilterLength(g.transfers, OtherTransfer(transferId));
      g := g.(transfers := Filter(g.transfers, OtherTransfer(transferId)));
      if |g.transfers| == initialLength {
        return false;
      }
      SaveGroup(g);
      return true;
    }
  }
}
