/** expenseLambda.ts: the HTTP handlers for the expenses of a wallet. The caller's user id, the
    path parameters `walletId` and `expenseId` and the parsed body are inputs. */
module ExpenseLambda {
  import opened Models
  import opened Store
  import opened Http
  import opened Access
  import opened EntryService
  import opened ExpenseService

  const CreateFailed := Reply(500, "Error creating expense")

  /** handlerCreate: the caller's wallet gets a new expense under `id` and its balance shrinks by
      the amount. A missing or empty walletId is not checked: the wallet read throws and the
      handler answers 500. */
  method HandleCreate(db: Database, userId: string, walletId: Option<string>, data: EntryData, id: string, ts: Timestamp, available: bool)
    returns (resp: Response)
    requires db.Valid()
    modifies db
    ensures db.Valid()
    ensures resp.statusCode == 200 <==> (&& Present(walletId) && walletId.value in old(db.wallets)
                                         && old(db.wallets)[walletId.value].userId == userId && available)
    ensures resp.statusCode == 200 ==>
              var row := NewEntry(walletId.value, userId, data, id, ts);
              && resp.body == OneEntry(row)
              && db.expenses == old(db.expenses)[id := row]
              && db.incomes == old(db.incomes)
              && db.wallets == old(db.wallets)[walletId.value := old(db.wallets)[walletId.value].Credited(-data.amount, ts)]
    ensures resp.statusCode != 200 ==> resp.body.Message? && db.Snapshot() == old(db.Snapshot())
    ensures WalletAccess(old(db.wallets), walletId, userId, CreateFailed).Deny? ==> resp == WalletAccess(old(db.wallets), walletId, userId, CreateFailed).response
    ensures WalletAccess(old(db.wallets), walletId, userId, CreateFailed).Grant? && !available ==> resp == CreateFailed
    ensures (Sound(old(db.Snapshot())) && id !in old(db.expenses)) ==> Sound(db.Snapshot())
  {
    ghost var before := db.Snapshot();
    var v := WalletAccess(db.wallets, walletId, userId, CreateFailed);
    if v.Deny? {
      resp := v.response;
      return;
    }
    var r := CreateExpense(db, walletId.value, userId, data, id, ts, available);
    if r.Ok? {
      resp := Response(200, OneEntry(r.value));
      if Sound(before) && id !in before.expenses {
        SoundAfterCreate(before, Expense, r.value, ts);
      }
    } else {
      resp := CreateFailed;
    }
  }

  /** handlerRead: the expense, when it belongs to the wallet in the path and to the caller. */
  method HandleRead(db: Database, userId: string, walletId: Option<string>, expenseId: Option<string>) returns (resp: Response)
    ensures resp.statusCode == 200 <==> EntryAccess(db.expenses, Expense, walletId, expenseId, userId, WalletIdMissingText).Grant?
    ensures resp.statusCode == 200 ==> resp.body == OneEntry(db.expenses[expenseId.value])
    ensures resp.statusCode != 200 ==> resp == EntryAccess(db.expenses, Expense, walletId, expenseId, userId, WalletIdMissingText).response
  {
    var v := EntryAccess(db.expenses, Expense, walletId, expenseId, userId, WalletIdMissingText);
    resp := if v.Grant? then Response(200, OneEntry(v.row)) else v.response;
  }

  /** handlerGetAll: the expenses of the caller's wallet. */
  method HandleGetAll(db: Database, userId: string, walletId: Option<string>) returns (resp: Response)
    ensures resp.statusCode == 200 <==> Present(walletId) && walletId.value in db.wallets && db.wallets[walletId.value].userId == userId
    ensures resp.statusCode == 200 ==> (&& resp.body.Entries?
                                        && (forall k :: k in resp.body.entries <==> k in db.expenses && db.expenses[k].walletId == walletId.value)
                                        && (forall k | k in resp.body.entries :: resp.body.entries[k] == db.expenses[k]))
    ensures resp.statusCode != 200 ==> resp == WalletAccess(db.wallets, walletId, userId, WalletIdMissing).response
  {
    var v := WalletAccess(db.wallets, walletId, userId, WalletIdMissing);
    if v.Deny? {
      resp := v.response;
      return;
    }
    var rows := GetExpenses(db, walletId.value);
    resp := Response(200, Entries(rows));
  }

  /** handlerUpdate: new name, type and amount for the caller's expense; its wallet's balance
      moves by the change of the amount, the opposite way to an income. */
  method HandleUpdate(db: Database, userId: string, walletId: Option<string>, expenseId: Option<string>, data: EntryData, ts: Timestamp, available: bool)
    returns (resp: Response)
    requires db.Valid()
    modifies db
    ensures db.Valid()
    ensures resp.statusCode == 200 <==> (&& EntryAccess(old(db.expenses), Expense, walletId, expenseId, userId, WalletIdMissingText).Grant?
                                         && walletId.value in old(db.wallets) && available)
    ensures resp.statusCode == 200 ==>
              var existing := old(db.expenses)[expenseId.value];
              && resp.body == OneEntry(existing.Revised(data, ts))
              && db.expenses == old(db.expenses)[expenseId.value := existing.Revised(data, ts)]
              && db.incomes == old(db.incomes)
              && db.wallets == old(db.wallets)[walletId.value := old(db.wallets)[walletId.value].Credited(existing.amount - data.amount, ts)]
    ensures resp.statusCode != 200 ==> resp.body.Message? && db.Snapshot() == old(db.Snapshot())
    ensures EntryAccess(old(db.expenses), Expense, walletId, expenseId, userId, WalletIdMissingText).Deny? ==> resp == EntryAccess(old(db.expenses), Expense, walletId, expenseId, userId, WalletIdMissingText).response
    ensures EntryAccess(old(db.expenses), Expense, walletId, expenseId, userId, WalletIdMissingText).Grant? && !(walletId.value in old(db.wallets) && available)
            ==> resp == Reply(500, "Error updating expense")
    ensures Sound(old(db.Snapshot())) ==> Sound(db.Snapshot())
  {
    ghost var before := db.Snapshot();
    var v := EntryAccess(db.expenses, Expense, walletId, expenseId, userId, WalletIdMissingText);
    if v.Deny? {
      resp := v.response;
      return;
    }
    var r := UpdateExpense(db, expenseId.value, walletId.value, data, v.row, ts, available);
    if r.Ok? {
      resp := Response(200, OneEntry(r.value));
      if Sound(before) {
        SoundAfterUpdate(before, Expense, v.row, data, ts);
      }
    } else {
      resp := Reply(500, "Error updating expense");
    }
  }

  /** handlerDelete: remove the caller's expense and give its amount back to its wallet. An
      absent walletId is answered with the message of an absent expenseId. */
  method HandleDelete(db: Database, userId: string, walletId: Option<string>, expenseId: Option<string>, ts: Timestamp, available: bool)
    returns (resp: Response)
    requires db.Valid()
    modifies db
    ensures db.Valid()
    ensures resp.statusCode == 200 <==> (&& EntryAccess(old(db.expenses), Expense, walletId, expenseId, userId, IdMissing(Expense)).Grant?
                                         && walletId.value in old(db.wallets) && available)
    ensures resp.statusCode == 200 ==>
              var existing := old(db.expenses)[expenseId.value];
              && resp == Reply(200, "Expense deleted")
              && db.expenses == old(db.expenses) - {expenseId.value}
              && db.incomes == old(db.incomes)
              && db.wallets == old(db.wallets)[walletId.value := old(db.wallets)[walletId.value].Credited(existing.amount, ts)]
    ensures resp.statusCode != 200 ==> resp.body.Message? && db.Snapshot() == old(db.Snapshot())
    ensures EntryAccess(old(db.expenses), Expense, walletId, expenseId, userId, IdMissing(Expense)).Deny? ==> resp == EntryAccess(old(db.expenses), Expense, walletId, expenseId, userId, IdMissing(Expense)).response
    ensures EntryAccess(old(db.expenses), Expense, walletId, expenseId, userId, IdMissing(Expense)).Grant? && !(walletId.value in old(db.wallets) && available)
            ==> resp == Reply(500, "Error deleting expense")
    ensures Sound(old(db.Snapshot())) ==> Sound(db.Snapshot())
  {
    ghost var before := db.Snapshot();
    var v := EntryAccess(db.expenses, Expense, walletId, expenseId, userId, IdMissing(Expense));
    if v.Deny? {
      resp := v.response;
      return;
    }
    var ok := DeleteExpense(db, expenseId.value, walletId.value, v.row, ts, available);
    if ok {
      resp := Reply(200, "Expense deleted");
      if Sound(before) {
        SoundAfterDelete(before, Expense, v.row, ts);
      }
    } else {
      resp := Reply(500, "Error deleting expense");
    }
  }
}
