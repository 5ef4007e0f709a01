# trueup: settlement, initials and group storage in Dafny

trueup is a small app for sharing costs inside a group of people. A
`Group` holds people, expenses and transfers:

- An expense has one payer and a list of shares, one per person who consumed part of it.
- A transfer is a direct payment from one person to another.

This project models the parts of the app that compute something, and proves
what they compute.

- **`calculateBalances`** (`app/balances.ts`) in two stages.
  - Aggregation builds a net balance per person. The payer of an expense is credited, each share holder is debited, and a transfer credits its sender and debits its recipient. It works on an insertion-ordered JavaScript `Map`, modelled by `NetBalances.Ledger`.
  - Classification and greedy matching, in `Settlement`.
    - People owed more than a cent become creditors; people owing more than a cent become debtors. Both lists keep the map's order.
    - A two-cursor loop pairs the current debtor with the current creditor. It emits a payment of the smaller remaining amount, rounded to cents, and subtracts that amount from both sides in place.
  - Each stage is an imperative method proved against a recursive specification function:
    - `NetBalances.Aggregate` against `Net`;
    - `Settlement.Classify` against `Creditors`/`Debtors`;
    - `Settlement.Match`, which works in place on two arrays, against `Settle`.
  - `SettlementTotals` adds up the payments person by person: before rounding, what each debtor pays plus what is left of their debt is their debt, and likewise for creditors.
  - `Balances.CalculateBalances` composes the stages. The lemmas in `Balances` state what the payments mean for the group.
- **The initials helpers** `getPersonAvatarFallback` and its copy `getInitials`, plus the `show`/`remaining` slice of the avatar group.
  - They are modelled as pure functions over the JavaScript string operations they use (`JsStrings`): the exact `\s` whitespace set, `trim`, `split(/\s+/)` with its empty end pieces, `filter(Boolean)`, and ASCII upper-casing.
  - They are proved equal to an independent description: the upper-cased first characters of the first two words.
- **The storage layer** (`app/storage.ts`) as a class `Storage.GroupStore`.
  - Its field `groups` stands for the list kept in `localStorage`. Each operation is a method that reassigns it.
  - The `find`, `findIndex`, `some` and `filter` callbacks are modelled in `JsArrays`.

Money is `real`. The one-cent tolerance is the constant `Settlement.Tolerance`.
`Math.round(x * 100) / 100` is `Settlement.RoundCents`, which rounds half
up, as `Math.round` does on the values it meets here.

## What the code does not guarantee

- **Settlement closure.** Applying the suggested payments does not always leave everyone within a cent of zero.
  - Before rounding, nobody pays more than their debt or receives more than their credit (`Balances.PaymentsCoverDebts`, `Balances.PaymentsCoverCredits`). On one side at least, everyone is left with under a cent (`Balances.PaymentsClearOneSide`).
  - The other side can be left with more. Each party is dropped as soon as less than a cent remains, so several sub-cent leftovers can add up to more than a cent that nobody pays.
  - `Scenarios.LeftoverPayments` exhibits this. The nets sum to zero: persons 1 and 2 are owed 5.009 each, persons 3 and 4 owe 5 each, and person 5 owes 0.018.
  - The code suggests only 3→1 and 4→2 for 5 each. Person 5 is left owing 0.018.
- **Zero-sum.** The net balances sum to zero when every expense's shares add up to its amount (`NetBalances.NetZeroSum`). In general the sum is each expense's amount minus its shares, added over all expenses (`NetBalances.NetTotal`). Nothing in the calculation checks the shares.
- **`deletePerson` and an unknown person id.** `deletePerson` returns `true` and saves the group, its content unchanged, when the person id is not in the group.

## Model

| member | source | states |
|---|---|---|
| NetBalances.SetGet | app/balances.ts:15-16 | after `set`, `get` reads the new value for that key and the old value for every other key, a missing key reading 0 |
| NetBalances.SetValid | app/balances.ts:9 | `set` adds the key to the map's keys and keeps every key listed exactly once in iteration order |
| NetBalances.Net | app/balances.ts:5-34 | the map's iteration order is the people in list order, then each id an expense or transfer mentions, in the order the loops meet it, each at its first occurrence only |
| NetBalances.FirstOccurrencesMembers | app/balances.ts:9 | the first occurrences of a list hold exactly its elements, each once |
| NetBalances.FirstOccurrencesPrefix | app/balances.ts:16 | listing more ids only appends to the first occurrences of the earlier ones |
| NetBalances.SetOrder | app/balances.ts:9 | `set` orders the keys by the first occurrences of the ids set so far: a new key goes last, a known key stays where it is |
| NetBalances.InitPeopleOrder | app/balances.ts:8-10 | after the first loop the order is the people's ids in list order, a repeated id at its first place only |
| NetBalances.ApplySharesOrder | app/balances.ts:19-22 | the shares append their holders' ids, when new, in list order |
| NetBalances.ApplyExpenseOrder | app/balances.ts:14-22 | one expense appends its payer and then its share holders, when new |
| NetBalances.ApplyExpensesOrder | app/balances.ts:13-23 | the expense loop only appends to the order: each payer, then its share holders, when first met |
| NetBalances.ApplyTransfersOrder | app/balances.ts:26-34 | the transfer loop only appends to the order: each sender, then its recipient, when first met |
| NetBalances.NetOrderExtends | app/balances.ts:5-34 | the order after the people is a prefix of the order after the expenses, which is a prefix of the final order |
| NetBalances.Aggregate | app/balances.ts:5-34 | the three `forEach` loops compute exactly `Net(g)`: people at 0, then every expense, then every transfer, each in list order |
| NetBalances.ZeroPeople | app/balances.ts:8-10 | the first loop builds exactly `InitPeople`: every person at 0, in list order |
| NetBalances.CreditExpenses | app/balances.ts:13-23 | the expense loop computes exactly `ApplyExpenses` on the map it starts from |
| NetBalances.DebitShares | app/balances.ts:19-22 | the inner share loop computes exactly `ApplyShares` on the map it starts from |
| NetBalances.CreditTransfers | app/balances.ts:26-34 | the transfer loop computes exactly `ApplyTransfers` on the map it starts from |
| NetBalances.InitPeopleKeys | app/balances.ts:8-10 | before any expense, the map's keys are exactly the ids of the group's people, each once |
| NetBalances.InitPeopleZero | app/balances.ts:8-10 | before any expense, every id reads 0 |
| NetBalances.ApplySharesGet | app/balances.ts:19-22 | after the shares of an expense, each id's balance has dropped by the sum of that id's shares |
| NetBalances.ApplySharesKeys | app/balances.ts:19-22 | applying shares adds the share holders' ids to the keys, including ids that are not among the people |
| NetBalances.ApplyExpensesGet | app/balances.ts:13-23 | after the expenses, each id's balance has risen by what the id paid and dropped by what it consumed |
| NetBalances.ApplyExpensesKeys | app/balances.ts:13-23 | the expenses add exactly the payer and share-holder ids to the keys |
| NetBalances.ApplyExpensesValid | app/balances.ts:13-23 | the expense loop keeps every key listed once |
| NetBalances.ApplyTransfersGet | app/balances.ts:26-34 | after the transfers, each id's balance has risen by what it sent and dropped by what it received |
| NetBalances.ApplyTransfersKeys | app/balances.ts:26-34 | the transfers add exactly the sender and recipient ids to the keys |
| NetBalances.NetKeys | app/balances.ts:5-34 | the net map's keys are the people's ids plus every id an expense or transfer mentions, each once |
| NetBalances.NetIsPosition | app/balances.ts:5-34 | each net balance equals paid minus consumed plus sent minus received, an independent per-person formula |
| NetBalances.UninvolvedPersonIsSettled | app/balances.ts:8-34 | a person whom no expense or transfer mentions is in the map with balance exactly 0 |
| NetBalances.NotMentionedPaidNothing | app/balances.ts:13-34 | an id that no expense or transfer mentions has paid, consumed, sent and received nothing |
| NetBalances.NotMentionedShareless | app/balances.ts:19-22 | an id with no share has a share total of 0 |
| NetBalances.SumOfSet | app/balances.ts:16 | setting a key changes a sum over distinct ids by the change at that key, if the key is listed |
| NetBalances.SetTotal | app/balances.ts:16 | setting a key changes the total of all balances by exactly the change at that key |
| NetBalances.CreditDebitTotal | app/balances.ts:15-16 | crediting an amount raises the total by that amount; debiting lowers it by that amount |
| NetBalances.InitPeopleTotal | app/balances.ts:8-10 | the initial balances total 0 |
| NetBalances.ApplySharesTotal | app/balances.ts:19-22 | an expense's shares lower the total by the sum of the shares |
| NetBalances.ApplyExpensesTotal | app/balances.ts:13-23 | the expenses change the total by the sum of (amount minus shares) |
| NetBalances.ApplyTransfersTotal | app/balances.ts:26-34 | transfers leave the total of all balances unchanged |
| NetBalances.NetTotal | app/balances.ts:13-34 | the net balances total the sum over expenses of amount minus shares |
| NetBalances.UnsharedZero | app/balances.ts:13-23 | when every expense's shares add up to its amount, nothing is left unshared |
| NetBalances.NetZeroSum | app/balances.ts:13-34 | when every expense's shares add up to its amount, the net balances sum to 0 |
| Settlement.RoundCents | app/balances.ts:60 | the result is a whole number of cents within half a cent of the value |
| Settlement.RoundCentsWhole | app/balances.ts:60 | a whole number of cents rounds to itself |
| Settlement.RoundCentsAtLeastCent | app/balances.ts:60 | an amount of at least a cent rounds to at least a cent |
| Settlement.Classify | app/balances.ts:41-47 | the `forEach` over the map builds exactly the creditor and debtor lists, in map order |
| Settlement.CreditorsMembership | app/balances.ts:41-43 | an entry is a creditor iff its id is a key with balance above 0.01, at that balance |
| Settlement.DebtorsMembership | app/balances.ts:44-45 | an entry is a debtor iff its id is a key with balance below -0.01, at the negated balance |
| Settlement.ClassifyKeepsOrder | app/balances.ts:41-47 | classifying a concatenation of key lists concatenates the results, so map order is kept |
| Settlement.ClassifySeparates | app/balances.ts:41-47 | no id is both creditor and debtor, and every entry's amount exceeds a cent |
| Settlement.CursorStep | app/balances.ts:63-67 | subtracting at most the remaining amount keeps it non-negative, and the cursor moves past it once below a cent |
| Settlement.CursorKept | app/balances.ts:63-67 | an entry reduced but not below zero keeps the cursor's invariant, the cursor passing it once under a cent |
| Settlement.PayAtCursor | app/balances.ts:63-67 | the entries from the cursor on, after one step, are the head of the old ones paid by the amount |
| Settlement.MatchStep | app/balances.ts:52-67 | every iteration advances at least one cursor and keeps the loop invariant: the payments so far plus the greedy result on the rest equal the greedy result on the original lists |
| Settlement.MatchDone | app/balances.ts:52-68 | when a cursor reaches its end the payments are the whole greedy result, all remaining amounts lie between 0 and their start, and one side is below a cent throughout |
| Settlement.Match | app/balances.ts:50-68 | the in-place loop returns the greedy payments `Settle`; remaining amounts stay between 0 and their start; one side ends below a cent everywhere; both sides lose the same total |
| Settlement.AmountSumUpdate | app/balances.ts:63-64 | changing one entry's amount changes the total by the difference |
| Settlement.PayIds | app/balances.ts:63-67 | paying the head of a list introduces no new id |
| Settlement.Pay | app/balances.ts:63-67 | after a step, the entries still in the list each have at least a cent left, if they all had |
| Settlement.Settle | app/balances.ts:50-68 | the greedy loop as a recursion on the remaining lists: the current debtor pays the current creditor the smaller amount, rounded to cents, and each side moves on once under a cent; its properties are stated by the lemmas below |
| Settlement.SettleParties | app/balances.ts:41-61 | every payment goes from a debtor's id to a creditor's id |
| Settlement.SettleCount | app/balances.ts:50-68 | no payment iff a list is empty; otherwise at most debtors + creditors - 1 payments |
| Settlement.SettleAmounts | app/balances.ts:55-66 | every payment is at least a cent |
| Balances.CalculateBalances | app/balances.ts:3-71 | the whole function returns `Payments(g)`, the greedy settlement of the group's net balances |
| Balances.NetGetOutside | app/balances.ts:15 | an id that is not a key reads 0 |
| Balances.ClassifyCount | app/balances.ts:41-47 | creditors and debtors together number at most the map's keys |
| Balances.PaymentsParties | app/balances.ts:41-61 | each payment is from someone owing more than a cent to someone owed more than a cent, never to oneself |
| Balances.Payments | app/balances.ts:53-66 | each suggested payment is at least a cent |
| Balances.PaymentsCount | app/balances.ts:41-68 | there are fewer payments than people in the balance map |
| Balances.DebtorsExist | app/balances.ts:44-45 | the debtor list is non-empty iff someone owes more than a cent |
| Balances.CreditorsExist | app/balances.ts:42-43 | the creditor list is non-empty iff someone is owed more than a cent |
| Balances.NoPaymentsWhenSettled | app/balances.ts:41-68 | no payment is suggested iff nobody owes more than a cent or nobody is owed more than a cent |
| Balances.PaymentsRounded | app/balances.ts:57-61 | the payments are the unrounded greedy payments, same people and order, each amount rounded to cents |
| Balances.ClassifiedAmounts | app/balances.ts:41-47 | the debtor list holds each person once with their debt, the creditor list each person once with their credit, each at least a cent |
| Balances.PaymentsCoverDebts | app/balances.ts:50-68 | before rounding, what a person pays in total lies between 0 and their debt |
| Balances.PaymentsCoverCredits | app/balances.ts:50-68 | before rounding, what a person receives in total lies between 0 and their credit |
| Balances.PaymentsClearOneSide | app/balances.ts:50-68 | before rounding, every debtor is left owing under a cent, or every creditor is left owed under a cent |
| SettlementTotals.SettleRounded | app/balances.ts:57-61 | `Settle` emits the unrounded payments with each amount rounded to cents, nothing else changed |
| SettlementTotals.UnpayPay | app/balances.ts:63-67 | one step lowers a person's remaining total by exactly what that person paid or received in it |
| SettlementTotals.ConservedDebts | app/balances.ts:50-68 | before rounding, what a debtor pays plus what is left of their debt is their debt |
| SettlementTotals.ConservedCredits | app/balances.ts:50-68 | before rounding, what a creditor receives plus what is left of their credit is their credit |
| SettlementTotals.UnpayResidue | app/balances.ts:63-67 | a step pays at most the head's amount, so what is left of it lies between 0 and what it was |
| SettlementTotals.UnpayCleared | app/balances.ts:66-67 | a head dropped by a step has under a cent left |
| SettlementTotals.LeftoverShape | app/balances.ts:50-68 | what is left of every entry lies between 0 and its start, and one side ends under a cent everywhere |
| SettlementTotals.ResidueAmountOf | app/balances.ts:63-64 | what is left of a list is, person by person, between 0 and what was there |
| SettlementTotals.ClearedAmountOf | app/balances.ts:66-67 | in a list cleared to under a cent with each id once, everyone has under a cent |
| SettlementTotals.DebtorsAmountOf | app/balances.ts:44-45 | over ids listed once, the debtor list has each id once, at the negated balance when below -0.01 and otherwise absent |
| SettlementTotals.CreditorsAmountOf | app/balances.ts:42-43 | over ids listed once, the creditor list has each id once, at the balance when above 0.01 and otherwise absent |
| Scenarios.DinnerStart | app/balances.ts:8-10 | three people start at 0, in list order |
| Scenarios.DinnerShares | app/balances.ts:19-22 | a 30 dinner split three ways debits each share holder 10 |
| Scenarios.DinnerNet | app/balances.ts:5-34 | the payer of a 30 dinner split three ways is owed 20; the others owe 10 each |
| Scenarios.DinnerPayments | app/balances.ts:3-71 | that dinner gives the payments 2→1 and 3→1 of 10 each |
| Scenarios.PaidBackNet | app/balances.ts:26-34 | after Bob pays Alice 10, Bob is even |
| Scenarios.PaidBackParties | app/balances.ts:41-47 | after the transfer only Carol is a debtor and only Alice a creditor |
| Scenarios.PaidBackPayments | app/balances.ts:3-71 | then only Carol pays Alice 10 |
| Scenarios.LeftoverDebtors | app/balances.ts:44-45 | in the leftover example, persons 3, 4 and 5 owe, in map order |
| Scenarios.LeftoverCreditors | app/balances.ts:42-43 | in the leftover example, persons 1 and 2 are owed, in map order |
| Scenarios.LeftoverPayments | app/balances.ts:50-68 | balances summing to zero can be settled by payments that leave a debtor more than a cent in debt |
| Scenarios.CycleTransfers | app/balances.ts:26-34 | three equal transfers round a cycle bring every balance back to 0 |
| Scenarios.CycleNet | app/balances.ts:5-34 | a group with only a cycle of equal transfers nets to 0 for everyone |
| Scenarios.CyclePayments | app/balances.ts:3-71 | such a group gets no payment |
| Scenarios.TaxiShares | app/balances.ts:19-22 | a 10 fare with shares 3.33, 3.33 and 3.34 debits each holder their share |
| Scenarios.TaxiNet | app/balances.ts:5-34 | the payer of that fare is owed 6.67; the others owe 3.33 and 3.34 |
| Scenarios.TaxiParties | app/balances.ts:41-47 | the debtors are Bob then Carol and the only creditor is Alice |
| Scenarios.TaxiPayments | app/balances.ts:3-71 | the payments are 2→1 of 3.33 and 3→1 of 3.34, already whole cents |
| JsStrings.StripSpecial | app/components/app/PeopleAvatarGroup.tsx:14 | exactly the ASCII letters, digits and whitespace of the name survive, and the result is no longer than the name |
| JsStrings.StripSpecialChar | app/components/app/PeopleAvatarGroup.tsx:14 | one character is kept iff it is an ASCII letter or digit or whitespace |
| JsStrings.StripSpecialAppend | app/components/app/PeopleAvatarGroup.tsx:14 | stripping a concatenation concatenates the stripped parts, so the kept characters stay in order |
| JsStrings.TrimStart | app/components/app/PeopleAvatarGroup.tsx:14 | the result is a suffix; only whitespace was dropped; it does not start with whitespace |
| JsStrings.TrimEnd | app/components/app/PeopleAvatarGroup.tsx:14 | the result is a prefix; only whitespace was dropped; it does not end with whitespace |
| JsStrings.TakeWord | app/components/app/PeopleAvatarGroup.tsx:16 | the longest whitespace-free prefix |
| JsStrings.SplitWs | app/components/app/PeopleAvatarGroup.tsx:16 | `split(/\s+/)` yields at least one piece, the first being the leading word |
| JsStrings.NonEmpty | app/components/app/PeopleAvatarGroup.tsx:16 | `filter(Boolean)` keeps exactly the non-empty pieces |
| JsStrings.Heads | app/components/app/PeopleAvatarGroup.tsx:18-21 | one first character per piece, in order |
| JsStrings.Upper | app/components/app/PeopleAvatarGroup.tsx:18-22 | upper-casing acts character by character and keeps the length |
| JsStrings.UpperCharAlnum | app/components/app/PeopleAvatarGroup.tsx:18-22 | an ASCII letter or digit upper-cases to an upper-case letter or digit |
| JsStrings.WordStartsChars | app/components/app/PeopleAvatarGroup.tsx:14-16 | word starts are non-whitespace characters of the string |
| JsStrings.WordStartsEmpty | app/components/app/PeopleAvatarGroup.tsx:14-15 | a string has no word start iff it is all whitespace |
| JsStrings.WordStartsAtSpace | app/components/app/PeopleAvatarGroup.tsx:16 | a string that starts with whitespace has the same word starts whatever came before it |
| JsStrings.WordStartsSpaces | app/components/app/PeopleAvatarGroup.tsx:16 | a run of whitespace has no word starts |
| JsStrings.WordStartsAppend | app/components/app/PeopleAvatarGroup.tsx:16 | the word starts of a concatenation are those of each part, the second read after the first's last character |
| JsStrings.WordStartsTrimStart | app/components/app/PeopleAvatarGroup.tsx:14 | dropping leading whitespace keeps the word starts |
| JsStrings.WordStartsTrimEnd | app/components/app/PeopleAvatarGroup.tsx:14 | dropping trailing whitespace keeps the word starts |
| JsStrings.WordStartsTrim | app/components/app/PeopleAvatarGroup.tsx:14 | `trim` keeps the word starts |
| JsStrings.WordStartsWord | app/components/app/PeopleAvatarGroup.tsx:16 | a word followed by whitespace contributes exactly its first character |
| JsStrings.WordStartsNoSpace | app/components/app/PeopleAvatarGroup.tsx:16 | inside a word there is no further word start |
| JsStrings.TrimmedHasWord | app/components/app/PeopleAvatarGroup.tsx:15-16 | a non-empty trimmed string splits into at least one non-empty piece, so `parts[0]` exists |
| JsStrings.HeadsCons | app/components/app/PeopleAvatarGroup.tsx:16 | a non-empty piece in front adds its first character; an empty one adds nothing |
| JsStrings.SplitHeads | app/components/app/PeopleAvatarGroup.tsx:16-21 | the first characters of the non-empty pieces of `split(/\s+/)` are exactly the word starts |
| PeopleAvatarGroup.FirstTwo | app/components/app/PeopleAvatarGroup.tsx:17-22 | the first two elements, or all when fewer |
| PeopleAvatarGroup.InitialsOfWords | app/components/app/PeopleAvatarGroup.tsx:17-22 | the one-word and two-or-more-word branches both take the first two pieces' first characters |
| PeopleAvatarGroup.PersonAvatarFallback | app/components/app/PeopleAvatarGroup.tsx:11-23 | the fallback is the upper-cased first two word starts of the stripped name, covering all four branches |
| PeopleAvatarGroup.FallbackShape | app/components/app/PeopleAvatarGroup.tsx:14-22 | one character per word up to two, each an upper-case ASCII letter or a digit |
| PeopleAvatarGroup.FallbackEmpty | app/components/app/PeopleAvatarGroup.tsx:12-15 | the fallback is empty iff the name has no ASCII letter or digit |
| PeopleAvatarGroup.SliceEnd | app/components/app/PeopleAvatarGroup.tsx:30 | `slice`'s end resolves within the length |
| PeopleAvatarGroup.Show | app/components/app/PeopleAvatarGroup.tsx:30 | `show` is a prefix of `people`: all of it without `max`, `min(max, length)` for a non-negative `max`, and counted from the end for a negative one |
| PeopleAvatarGroup.Remaining | app/components/app/PeopleAvatarGroup.tsx:31 | `remaining` lies between 0 and the length, and the shown people plus the last `remaining` people are the whole list |
| Home.GetInitials | app/routes/home.tsx:36-48 | equals the avatar fallback on every name, and is the upper-cased first two word starts of the stripped name |
| Home.InitialsShape | app/routes/home.tsx:36-48 | the initials are at most two characters, each an upper-case ASCII letter or a digit |
| JsArrays.FindIndex | app/storage.ts:18 | `findIndex` returns -1 iff nothing matches, and otherwise the first matching index |
| JsArrays.Any | app/storage.ts:161-166 | `some` holds iff some element satisfies the callback |
| JsArrays.Filter | app/storage.ts:146 | `filter` keeps exactly the elements that pass |
| JsArrays.FindIsFirst | app/storage.ts:13 | `find` gives nothing iff nothing matches, and otherwise the element at `findIndex` |
| JsArrays.FilterLength | app/storage.ts:146-150 | filtering keeps the length iff every element passes, which is the "not found" test |
| JsArrays.FilterAppend | app/storage.ts:146 | filtering distributes over concatenation, so the survivors keep their order |
| JsArrays.FindAfterReplace | app/storage.ts:114-120 | writing a matching element over the first match makes `find` return it |
| JsArrays.FindOtherAfterReplace | app/storage.ts:18-20 | overwriting a non-matching slot with a non-matching element leaves `find` unchanged |
| JsArrays.FindAppendHit | app/storage.ts:22 | pushing a match onto a list without one makes `find` return it |
| JsArrays.FindAppendMiss | app/storage.ts:22 | pushing a non-match leaves `find` unchanged |
| Storage.MaxId | app/storage.ts:44-45 | `Math.max` of the ids is one of the ids and at least every id |
| Storage.NextPersonId | app/storage.ts:44-46 | the new id exceeds every existing id, and is 1 for the first person |
| Storage.Upsert | app/storage.ts:16-25 | with the id present the length is kept and only the first slot with that id is replaced; otherwise the group is appended |
| Storage.UpsertFinds | app/storage.ts:16-25 | after saving, `getGroup` finds the saved group under its id and the same as before under every other id |
| Storage.ExpenseIdsInvolved | app/storage.ts:161-163 | the expense guard fires for exactly the ids some expense mentions as payer or share holder |
| Storage.ShareIdsInvolved | app/storage.ts:162 | the inner `some` over shares fires for exactly the share holders' ids |
| Storage.TransferIdsInvolved | app/storage.ts:164-166 | the transfer guard fires for exactly the ids some transfer mentions as sender or recipient |
| Storage.Involved | app/storage.ts:161-166 | `deletePerson` refuses exactly the people some expense or transfer mentions |
| Storage.DeletePersonKeepsReferences | app/storage.ts:156-175 | a deletion the guard allows removes exactly that id and leaves no dangling reference |
| Storage.DeletedPersonWasSettled | app/storage.ts:156-175 | a person the guard lets go has a net balance of exactly 0 |
| Storage.GroupStore.GetGroup | app/storage.ts:11-14 | null iff no group has the id; otherwise a stored group with that id |
| Storage.GroupStore.GetExpense | app/storage.ts:207-211 | an expense of the group with that id, or null when the group or the expense is missing |
| Storage.GroupStore.GetTransfer | app/storage.ts:213-217 | a transfer of the group with that id, or null when the group or the transfer is missing |
| Storage.GroupStore.SaveGroup | app/storage.ts:16-25 | the list becomes the upsert; the group is then found under its id and every other lookup is unchanged |
| Storage.GroupStore.CreateGroup | app/storage.ts:27-38 | an empty group with the given id and name is saved and returned |
| Storage.GroupStore.AddPerson | app/storage.ts:40-51 | null and no change for an unknown group; otherwise one person with a fresh id is appended and saved |
| Storage.GroupStore.AddExpense | app/storage.ts:53-67 | null and no change for an unknown group; otherwise exactly the new expense is appended and saved |
| Storage.GroupStore.AddTransfer | app/storage.ts:69-83 | null and no change for an unknown group; otherwise exactly the new transfer is appended and saved |
| Storage.GroupStore.UpdateGroupName | app/storage.ts:85-92 | false and no change for an unknown group; otherwise the renamed group is saved |
| Storage.GroupStore.UpdatePersonName | app/storage.ts:94-104 | true iff group and person exist; then only the first person with the id is renamed |
| Storage.GroupStore.UpdateExpense | app/storage.ts:106-123 | true iff group and expense exist; then only the first expense with the id is replaced, keeping the id, and `getExpense` returns the new one |
| Storage.GroupStore.UpdateTransfer | app/storage.ts:125-142 | true iff group and transfer exist; then only the first transfer with the id is replaced, keeping the id, and `getTransfer` returns the new one |
| Storage.GroupStore.DeleteGroup | app/storage.ts:144-154 | true iff a group had the id; then every such group is removed and the rest keep their order |
| Storage.GroupStore.DeletePerson | app/storage.ts:156-175 | false iff the group is missing or the person is mentioned; otherwise every person with the id is dropped and the group saved |
| Storage.GroupStore.DeleteExpense | app/storage.ts:177-190 | true iff the group has an expense with the id; then all of them are removed and `getExpense` finds none |
| Storage.GroupStore.DeleteTransfer | app/storage.ts:192-205 | true iff the group has a transfer with the id; then all of them are removed and `getTransfer` finds none |

## Left out

- IEEE-754 doubles: amounts are exact reals. Float sums, the float error in `amount * 100`, and `Math.round` on a value that is not exactly representable are not modelled.
- Settlement.RoundCents: it models `Math.round(x * 100) / 100` as floor(100x + 0.5) / 100 on reals; it does not model double rounding.
- A missing key read through `get(id) || 0` is 0. `NaN` and `undefined` amounts are not modelled, since amounts are reals.
- `localStorage`, `JSON.parse`/`JSON.stringify` and the `typeof window` check of `getAllGroups` (app/storage.ts:5-9, 24, 152): the stored list is the field `GroupStore.groups`, read and written directly.
- `generateId` and `crypto.randomUUID` (app/storage.ts:62, 78, 219-223): the new id is a parameter of `CreateGroup`, `AddExpense` and `AddTransfer`. So uniqueness of generated ids is not modelled.
- Storage.GroupStore.AddPerson: it does not model `Math.max` of an empty spread, which the length check rules out, nor ids above 2^53.
- The React components, JSX, routes, forms and the timeline's date sort: UI code with no computation to prove.
- `toUpperCase` beyond ASCII: only ASCII letters and digits reach it after stripping, so the ASCII mapping is exact for these callers. Strings are sequences of characters, not of UTF-16 code units.
- PeopleAvatarGroup.Show: `max` is an optional integer. `NaN`, fractional and infinite values of `max` are not modelled.
- Worked examples of the initials helpers on concrete names are not included. The contract of `PeopleAvatarGroup.PersonAvatarFallback` states the general result.
- Aliasing between groups: the source reads a fresh copy of the list on every call, which the value-typed `groups` field models. There is no sharing to capture.
