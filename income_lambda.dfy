/** incomeLambda.ts: the HTTP handlers for the incomes of a wallet. The caller's user id, the path
    parameters `walletId` and `incomeId` and the parsed body are inputs. */
module IncomeLambda {
  import opened Models
  import opened Store
  import opened Http
  import opened Access
  import opened EntryService
  import opened IncomeService

  const CreateFailed := Reply(500, "Error creating income")

  /** A value as JavaScript passes it: a string, or the object parsed from the body. Arguments
      are bound by position and their types are not checked. */
  datatype Arg = Text(text: string) | Parsed(data: EntryData)

  /** `createIncome(walletId, userId, incomeData)` called with whatever values land in its
      parameters. Only a string wallet key and the body object in the third parameter make a
      valid transaction: a wallet key that is not a string, or an amount read from a string
      (undefined), makes the store reject it. The `userId` parameter receives a string at every
      call site. */
  method CallCreateIncome(db: Database, walletArg: Arg, user: string, dataArg: Arg, id: string, ts: Timestamp, available: bool)
    returns (r: Result<Entry>)
    requires db.Valid()
    modifies db
    ensures db.Valid()
    ensures r.Ok? ==> walletArg.Text? && dataArg.Parsed?
    ensures !(walletArg.Text? && dataArg.Parsed?) ==> r.Failed? && db.Snapshot() == old(db.Snapshot())
    ensures (walletArg.Text? && dataArg.Parsed?) ==>
              && (r.Ok? <==> available && walletArg.text in old(db.wallets))
              && (r.Ok? ==> (&& r.value == NewEntry(walletArg.text, user, dataArg.data, id, ts)
                             && db.Snapshot() == AfterCreate(old(db.Snapshot()), Income, r.value, ts)))
              && (r.Failed? ==> db.Snapshot() == old(db.Snapshot()))
  {
    if walletArg.Text? && dataArg.Parsed? {
      ghost var before := db.Snapshot();
      r := CreateIncome(db, walletArg.text, user, dataArg.data, id, ts, available);
      if r.Ok? {
        assert db.Snapshot() == AfterCreate(before, Income, r.value, ts);
      }
    } else {
      r := Failed;
    }
  }

  /** handlerCreate as written: after the wallet checks it calls
      `createIncome(incomeData, walletId, userId)`, so the body lands in the walletId parameter
      and no income is ever created; every request ends in an error and changes nothing. */
  method HandleCreateAsWritten(db: Database, userId: string, walletId: Option<string>, data: EntryData, id: string, ts: Timestamp, available: bool)
    returns (resp: Response)
    requires db.Valid()
    modifies db
    ensures db.Valid()
    ensures resp.statusCode != 200 && resp.body.Message?
    ensures db.Snapshot() == old(db.Snapshot())
    ensures resp == CreateFailed <==> !Present(walletId) || WalletAccess(old(db.wallets), walletId, userId, CreateFailed).Grant?
    ensures WalletAccess(old(db.wallets), walletId, userId, CreateFailed).Deny? ==> resp == WalletAccess(old(db.wallets), walletId, userId, CreateFailed).response
  {
    var v := WalletAccess(db.wallets, walletId, userId, CreateFailed);
    if v.Deny? {
      resp := v.response;
      return;
    }
    var r := CallCreateIncome(db, Parsed(data), walletId.value, Text(userId), id, ts, available);
    resp := RowReply(r, CreateFailed);
  }

  /** handlerCreate with the arguments in the order `createIncome` declares them: the caller's
      wallet gets a new income under `id` and its balance grows by the amount. A missing or empty
      walletId is not checked: the wallet read throws and the handler answers 500. */
  method HandleCreate(db: Database, userId: string, walletId: Option<string>, data: EntryData, id: string, ts: Timestamp, available: bool)
    returns (resp: Response)
    requires db.Valid()
    modifies db
    ensures db.Valid()
    ensures resp.statusCode == 200 <==> (&& Present(walletId) && walletId.value in old(db.wallets)
                                         && old(db.wallets)[walletId.value].userId == userId && available)
    ensures resp.statusCode == 200 ==>
              var row := NewEntry(walletId.value, userId, data, id, ts);
              && resp.body == OneEntry(row)
              && db.incomes == old(db.incomes)[id := row]
              && db.expenses == old(db.expenses)
              && db.wallets == old(db.wallets)[walletId.value := old(db.wallets)[walletId.value].Credited(data.amount, ts)]
    ensures resp.statusCode != 200 ==> resp.body.Message? && db.Snapshot() == old(db.Snapshot())
    ensures WalletAccess(old(db.wallets), walletId, userId, CreateFailed).Deny? ==> resp == WalletAccess(old(db.wallets), walletId, userId, CreateFailed).response
    ensures WalletAccess(old(db.wallets), walletId, userId, CreateFailed).Grant? && !available ==> resp == CreateFailed
    ensures (Sound(old(db.Snapshot())) && id !in old(db.incomes)) ==> Sound(db.Snapshot())
  {
    ghost var before := db.Snapshot();
    var v := WalletAccess(db.wallets, walletId, userId, CreateFailed);
    if v.Deny? {
      resp := v.response;
      return;
    }
    var r := CallCreateIncome(db, Text(walletId.value), userId, Parsed(data), id, ts, available);
    if r.Ok? {
      resp := Response(200, OneEntry(r.value));
      if Sound(before) && id !in before.incomes {
        SoundAfterCreate(before, Income, r.value, ts);
      }
    } else {
      resp := CreateFailed;
    }
  }

  /** handlerRead: the income, when it belongs to the wallet in the path and to the caller. */
  method HandleRead(db: Database, userId: string, walletId: Option<string>, incomeId: Option<string>) returns (resp: Response)
    ensures resp.statusCode == 200 <==> EntryAccess(db.incomes, Income, walletId, incomeId, userId, WalletIdMissingText).Grant?
    ensures resp.statusCode == 200 ==> resp.body == OneEntry(db.incomes[incomeId.value])
    ensures resp.statusCode != 200 ==> resp == EntryAccess(db.incomes, Income, walletId, incomeId, userId, WalletIdMissingText).response
  {
    var v := EntryAccess(db.incomes, Income, walletId, incomeId, userId, WalletIdMissingText);
    resp := if v.Grant? then Response(200, OneEntry(v.row)) else v.response;
  }

  /** handlerGetAll: the incomes of the caller's wallet. */
  method HandleGetAll(db: Database, userId: string, walletId: Option<string>) returns (resp: Response)
    ensures resp.statusCode == 200 <==> Present(walletId) && walletId.value in db.wallets && db.wallets[walletId.value].userId == userId
    ensures resp.statusCode == 200 ==> (&& resp.body.Entries?
                                        && (forall k :: k in resp.body.entries <==> k in db.incomes && db.incomes[k].walletId == walletId.value)
                                        && (forall k | k in resp.body.entries :: resp.body.entries[k] == db.incomes[k]))
    ensures resp.statusCode != 200 ==> resp == WalletAccess(db.wallets, walletId, userId, WalletIdMissing).response
  {
    var v := WalletAccess(db.wallets, walletId, userId, WalletIdMissing);
    if v.Deny? {
      resp := v.response;
      return;
    }
    var rows := GetIncomes(db, walletId.value);
    resp := Response(200, Entries(rows));
  }

  /** handlerUpdate: new name, type and amount for the caller's income; its wallet's balance
      moves by the change of the amount. */
  method HandleUpdate(db: Database, userId: string, walletId: Option<string>, incomeId: Option<string>, data: EntryData, ts: Timestamp, available: bool)
    returns (resp: Response)
    requires db.Valid()
    modifies db
    ensures db.Valid()
    ensures resp.statusCode == 200 <==> (&& EntryAccess(old(db.incomes), Income, walletId, incomeId, userId, WalletIdMissingText).Grant?
                                         && walletId.value in old(db.wallets) && available)
    ensures resp.statusCode == 200 ==>
              var existing := old(db.incomes)[incomeId.value];
              && resp.body == OneEntry(existing.Revised(data, ts))
              && db.incomes == old(db.incomes)[incomeId.value := existing.Revised(data, ts)]
              && db.expenses == old(db.expenses)
              && db.wallets == old(db.wallets)[walletId.value := old(db.wallets)[walletId.value].Credited(data.amount - existing.amount, ts)]
    ensures resp.statusCode != 200 ==> resp.body.Message? && db.Snapshot() == old(db.Snapshot())
    ensures EntryAccess(old(db.incomes), Income, walletId, incomeId, userId, WalletIdMissingText).Deny? ==> resp == EntryAccess(old(db.incomes), Income, walletId, incomeId, userId, WalletIdMissingText).response
    ensures EntryAccess(old(db.incomes), Income, walletId, incomeId, userId, WalletIdMissingText).Grant? && !(walletId.value in old(db.wallets) && available)
            ==> resp == Reply(500, "Error updating income")
    ensures Sound(old(db.Snapshot())) ==> Sound(db.Snapshot())
  {
    ghost var before := db.Snapshot();
    var v := EntryAccess(db.incomes, Income, walletId, incomeId, userId, WalletIdMissingText);
    if v.Deny? {
      resp := v.response;
      return;
    }
    var r := UpdateIncome(db, incomeId.value, walletId.value, data, v.row, ts, available);
    if r.Ok? {
      resp := Response(200, OneEntry(r.value));
      if Sound(before) {
        SoundAfterUpdate(before, Income, v.row, data, ts);
      }
    } else {
      resp := Reply(500, "Error updating income");
    }
  }

  /** handlerDelete: remove the caller's income and take its amount back from its wallet. */
  method HandleDelete(db: Database, userId: string, walletId: Option<string>, incomeId: Option<string>, ts: Timestamp, available: bool)
    returns (resp: Response)
    requires db.Valid()
    modifies db
    ensures db.Valid()
    ensures resp.statusCode == 200 <==> (&& EntryAccess(old(db.incomes), Income, walletId, incomeId, userId, WalletIdMissingText).Grant?
                                         && walletId.value in old(db.wallets) && available)
    ensures resp.statusCode == 200 ==>
              var existing := old(db.incomes)[incomeId.value];
              && resp == Reply(200, "Income deleted")
              && db.incomes == old(db.incomes) - {incomeId.value}
              && db.expenses == old(db.expenses)
              && db.wallets == old(db.wallets)[walletId.value := old(db.wallets)[walletId.value].Credited(-existing.amount, ts)]
    ensures resp.statusCode != 200 ==> resp.body.Message? && db.Snapshot() == old(db.Snapshot())
    ensures EntryAccess(old(db.incomes), Income, walletId, incomeId, userId, WalletIdMissingText).Deny? ==> resp == EntryAccess(old(db.incomes), Income, walletId, incomeId, userId, WalletIdMissingText).response
    ensures EntryAccess(old(db.incomes), Income, walletId, incomeId, userId, WalletIdMissingText).Grant? && !(walletId.value in old(db.wallets) && available)
            ==> resp == Reply(500, "Error deleting income")
    ensures Sound(old(db.Snapshot())) ==> Sound(db.Snapshot())
  {
    ghost var before := db.Snapshot();
    var v := EntryAccess(db.incomes, Income, walletId, incomeId, userId, WalletIdMissingText);
    if v.Deny? {
      resp := v.response;
      return;
    }
    var ok := DeleteIncome(db, incomeId.value, walletId.value, v.row, ts, available);
    if ok {
      resp := Reply(200, "Income deleted");
      if Sound(before) {
        SoundAfterDelete(before, Income, v.row, ts);
      }
    } else {
      resp := Reply(500, "Error deleting income");
    }
  }
}
