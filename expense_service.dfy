/** expenseService.ts: read, create, list, update and delete expenses. Every mutation writes the
    expense row and moves its wallet's balance the opposite way to an income, in one transaction:
    `- amount` on create, `old - new` on update, `+ amount` on delete. */
module ExpenseService {
  import opened Models
  import opened Store
  import opened Ledger
  import opened EntryService

  /** getExpense: the row stored under `expenseId`, if any. The store rejects a key that is the
      empty string, and the call throws. */
  method GetExpense(db: Database, expenseId: string) returns (r: Result<Option<Entry>>)
    requires db.Valid()
    ensures r.Failed? <==> expenseId == ""
    ensures r.Ok? ==> (r.value.Some? <==> expenseId in db.expenses)
    ensures r.Ok? && r.value.Some? ==> r.value.value == db.expenses[expenseId] && r.value.value.id == expenseId
  {
    if expenseId == "" {
      r := Failed;
    } else {
      r := Ok(if expenseId in db.expenses then Some(db.expenses[expenseId]) else None);
    }
  }

  /** createExpense: store the new row under `id` (the generated id) and take its amount from the
      wallet. The transaction fails, and nothing changes, when the wallet does not exist. */
  method CreateExpense(db: Database, walletId: string, userId: string, data: EntryData, id: string, ts: Timestamp, available: bool)
    returns (r: Result<Entry>)
    requires db.Valid()
    modifies db
    ensures db.Valid()
    ensures r.Ok? <==> available && walletId in old(db.wallets)
    ensures r.Ok? ==> (&& r.value == NewEntry(walletId, userId, data, id, ts)
                       && db.expenses == old(db.expenses)[id := r.value]
                       && db.incomes == old(db.incomes)
                       && db.wallets == old(db.wallets)[walletId := old(db.wallets[walletId]).Credited(-data.amount, ts)])
    ensures r.Failed? ==> db.Snapshot() == old(db.Snapshot())
    ensures (r.Ok? && Consistent(old(db.Snapshot())) && id !in old(db.expenses)) ==> Consistent(db.Snapshot())
  {
    ghost var before := db.Snapshot();
    CreateCommits(before, Expense, walletId, userId, data, id, ts);
    var ok := db.TransactWrite(CreateItems(Expense, walletId, userId, data, id, ts), available);
    if ok {
      r := Ok(NewEntry(walletId, userId, data, id, ts));
      if Consistent(before) && id !in before.expenses {
        CreateKeepsConsistent(before, Expense, r.value, ts);
      }
    } else {
      r := Failed;
    }
  }

  /** getExpenses: exactly the expenses of wallet `walletId` (a scan filtered on walletId). */
  method GetExpenses(db: Database, walletId: string) returns (rows: map<string, Entry>)
    ensures forall k :: k in rows <==> k in db.expenses && db.expenses[k].walletId == walletId
    ensures forall k | k in rows :: rows[k] == db.expenses[k]
  {
    rows := OfWallet(db.expenses, walletId);
  }

  /** updateExpense: set name, type and amount of row `expenseId` and move wallet `walletId` by
      `existing.amount - data.amount`; the result is `existing` with those fields replaced. */
  method UpdateExpense(db: Database, expenseId: string, walletId: string, data: EntryData, existing: Entry, ts: Timestamp, available: bool)
    returns (r: Result<Entry>)
    requires db.Valid()
    modifies db
    ensures db.Valid()
    ensures r.Ok? <==> available && walletId in old(db.wallets)
    ensures r.Ok? ==> (&& r.value == existing.Revised(data, ts)
                       && db.expenses == Revise(old(db.Snapshot()), Expense, expenseId, data, ts).expenses
                       && db.incomes == old(db.incomes)
                       && db.wallets == old(db.wallets)[walletId := old(db.wallets[walletId]).Credited(existing.amount - data.amount, ts)])
    ensures r.Failed? ==> db.Snapshot() == old(db.Snapshot())
    ensures (r.Ok? && Consistent(old(db.Snapshot())) && expenseId in old(db.expenses) && old(db.expenses[expenseId]) == existing
             && walletId == existing.walletId) ==> Consistent(db.Snapshot())
  {
    ghost var before := db.Snapshot();
    UpdateCommits(before, Expense, expenseId, walletId, data, existing, ts);
    var ok := db.TransactWrite(UpdateItems(Expense, expenseId, walletId, data, existing, ts), available);
    if ok {
      r := Ok(existing.Revised(data, ts));
      if Consistent(before) && expenseId in before.expenses && before.expenses[expenseId] == existing && walletId == existing.walletId {
        UpdateKeepsConsistent(before, Expense, existing, data, ts);
      }
    } else {
      r := Failed;
    }
  }

  /** deleteExpense: remove row `expenseId` and give `existing.amount` back to wallet `walletId`. */
  method DeleteExpense(db: Database, expenseId: string, walletId: string, existing: Entry, ts: Timestamp, available: bool)
    returns (ok: bool)
    requires db.Valid()
    modifies db
    ensures db.Valid()
    ensures ok <==> available && walletId in old(db.wallets)
    ensures ok ==> (&& db.expenses == old(db.expenses) - {expenseId}
                    && db.incomes == old(db.incomes)
                    && db.wallets == old(db.wallets)[walletId := old(db.wallets[walletId]).Credited(existing.amount, ts)])
    ensures !ok ==> db.Snapshot() == old(db.Snapshot())
    ensures (ok && Consistent(old(db.Snapshot())) && expenseId in old(db.expenses) && old(db.expenses[expenseId]) == existing
             && walletId == existing.walletId) ==> Consistent(db.Snapshot())
  {
    ghost var before := db.Snapshot();
    DeleteCommits(before, Expense, expenseId, walletId, existing, ts);
    ok := db.TransactWrite(DeleteItems(Expense, expenseId, walletId, existing, ts), available);
    if ok && Consistent(before) && expenseId in before.expenses && before.expenses[expenseId] == existing && walletId == existing.walletId {
      DeleteKeepsConsistent(before, Expense, existing, ts);
    }
  }

  /** A wallet at 100: an expense of 30 takes it to 70, raising that expense to 50 takes it to 50,
      and deleting the expense brings it back to 100. */
  lemma WorkedExample(wallet: Wallet, userId: string, id: string, ts: Timestamp)
    requires wallet.currentBalance == 100
    ensures var db0 := Db(map[wallet.id := wallet], map[], map[]);
            var row := NewEntry(wallet.id, userId, EntryData("groceries", "food", 30), id, ts);
            var db1 := AfterCreate(db0, Expense, row, ts);
            var db2 := AfterUpdate(db1, Expense, id, wallet.id, EntryData("groceries", "food", 50), UpdateDelta(Expense, 30, 50), ts);
            var db3 := AfterDelete(db2, Expense, id, wallet.id, 50, ts);
            && db1.wallets[wallet.id].currentBalance == 70
            && db2.wallets[wallet.id].currentBalance == 50 && db2.expenses[id].amount == 50
            && db3.wallets[wallet.id].currentBalance == 100 && db3.expenses == map[]
  {
    var db0 := Db(map[wallet.id := wallet], map[], map[]);
    var row := NewEntry(wallet.id, userId, EntryData("groceries", "food", 30), id, ts);
    var db1 := AfterCreate(db0, Expense, row, ts);
    var db2 := AfterUpdate(db1, Expense, id, wallet.id, EntryData("groceries", "food", 50), UpdateDelta(Expense, 30, 50), ts);
    assert db2.expenses == map[id := row.Revised(EntryData("groceries", "food", 50), ts)];
    var db3 := AfterDelete(db2, Expense, id, wallet.id, 50, ts);
    assert db3.expenses == map[];
  }
}
