/**
 * The records of the shared-expense tracker: people, expenses with their
 * shares, transfers, the group that owns them, and the suggested settlement
 * payments (balances) computed from a group.
 *
 * Monetary amounts are exact reals in one implicit currency unit; person ids
 * are integers, record ids are strings.
 */
module Types {

  type PersonId = int

  /** A value that may be absent (`null` or `undefined`). */
  datatype Option<T> = None | Some(value: T)

  datatype Person = Person(id: PersonId, name: string)

  /** The part of one expense that one person is responsible for. */
  datatype ExpenseShare = ExpenseShare(personId: PersonId, amount: real)

  datatype Expense = Expense(
    id: string,
    date: string,
    paidById: PersonId,
    amount: real,
    description: string,
    shares: seq<ExpenseShare>)

  /** An expense as the data-entry layer hands it over: everything but the id. */
  datatype ExpenseDraft = ExpenseDraft(
    date: string,
    paidById: PersonId,
    amount: real,
    description: string,
    shares: seq<ExpenseShare>)
  {
    /** The record `{ ...draft, id }`. */
    function WithId(id: string): Expense
    {
      Expense(id, date, paidById, amount, description, shares)
    }
  }

  /** A direct payment from one person to another. */
  datatype Transfer = Transfer(
    id: string,
    date: string,
    paidById: PersonId,
    paidToId: PersonId,
    amount: real)

  datatype TransferDraft = TransferDraft(
    date: string,
    paidById: PersonId,
    paidToId: PersonId,
    amount: real)
  {
    /** The record `{ ...draft, id }`. */
    function WithId(id: string): Transfer
    {
      Transfer(id, date, paidById, paidToId, amount)
    }
  }

  datatype Group = Group(
    id: string,
    name: string,
    people: seq<Person>,
    expenses: seq<Expense>,
    transfers: seq<Transfer>)

  /** A suggested payment: `fromPersonId` owes `toPersonId` the amount. */
  datatype Balance = Balance(fromPersonId: PersonId, toPersonId: PersonId, amount: real)
}
