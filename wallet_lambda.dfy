/** walletLambda.ts: the HTTP handlers for wallets. The caller's user id (the token's `sub`), the
    path parameter `walletId` and the parsed body are inputs; the handlers repeat the store calls
    of walletService.ts inline, so they are modelled by calling `WalletService`. */
module WalletLambda {
  import opened Models
  import opened Store
  import opened Http
  import opened Access
  import opened WalletService

  /** handlerCreate: store a new wallet of the caller, whose current balance is the starting
      balance, and return it. */
  method HandleCreate(db: Database, userId: string, data: WalletData, id: string, ts: Timestamp, available: bool)
    returns (resp: Response)
    requires db.Valid()
    modifies db
    ensures db.Valid()
    ensures resp.statusCode == 200 <==> available
    ensures resp.statusCode == 200 ==> (&& resp.body == OneWallet(NewWallet(data, userId, id, ts))
                                        && db.Snapshot() == old(db.Snapshot()).(wallets := old(db.wallets)[id := NewWallet(data, userId, id, ts)]))
    ensures resp.statusCode != 200 ==> resp == Reply(500, "Error creating wallet") && db.Snapshot() == old(db.Snapshot())
    ensures (Sound(old(db.Snapshot())) && id !in old(db.wallets)) ==> Sound(db.Snapshot())
  {
    ghost var before := db.Snapshot();
    var r := CreateWallet(db, data, userId, id, ts, available);
    if r.Ok? {
      resp := Response(200, OneWallet(r.value));
      if Sound(before) && id !in before.wallets {
        SoundAfterCreateWallet(before, r.value);
      }
    } else {
      resp := Reply(500, "Error creating wallet");
    }
  }

  /** handlerRead: the wallet, to its owner only. */
  method HandleRead(db: Database, userId: string, walletId: Option<string>) returns (resp: Response)
    ensures resp.statusCode == 200 <==> Present(walletId) && walletId.value in db.wallets && db.wallets[walletId.value].userId == userId
    ensures resp.statusCode == 200 ==> resp.body == OneWallet(db.wallets[walletId.value])
    ensures !Present(walletId) ==> resp == WalletIdMissing
    ensures Present(walletId) && walletId.value !in db.wallets ==> resp == Reply(404, "Wallet not found")
    ensures (Present(walletId) && walletId.value in db.wallets && db.wallets[walletId.value].userId != userId)
            ==> resp == Reply(401, "Unauthorized")
  {
    var v := WalletAccess(db.wallets, walletId, userId, WalletIdMissing);
    resp := if v.Grant? then Response(200, OneWallet(v.row)) else v.response;
  }

  /** handlerGetAll: every wallet of the caller, and no other. */
  method HandleGetAll(db: Database, userId: string) returns (resp: Response)
    ensures resp.statusCode == 200 && resp.body.Wallets?
    ensures forall k :: k in resp.body.wallets <==> k in db.wallets && db.wallets[k].userId == userId
    ensures forall k | k in resp.body.wallets :: resp.body.wallets[k] == db.wallets[k]
  {
    var rows := GetWallets(db, userId);
    resp := Response(200, Wallets(rows));
  }

  /** handlerUpdate: re-base the caller's wallet on the body's starting balance and return the
      updated row. Anything but a 200 leaves the tables as they were. */
  method HandleUpdate(db: Database, userId: string, walletId: Option<string>, data: WalletData, ts: Timestamp, available: bool)
    returns (resp: Response)
    requires db.Valid()
    modifies db
    ensures db.Valid()
    ensures resp.statusCode == 200 <==> (&& Present(walletId) && walletId.value in old(db.wallets)
                                         && old(db.wallets)[walletId.value].userId == userId && available)
    ensures resp.statusCode == 200 ==>
              var w := old(db.wallets)[walletId.value];
              var updated := w.Rebased(data, StartingBalanceDiff(w, data), ts);
              resp.body == OneWallet(updated) && db.Snapshot() == old(db.Snapshot()).(wallets := old(db.wallets)[walletId.value := updated])
    ensures resp.statusCode != 200 ==> resp.body.Message? && db.Snapshot() == old(db.Snapshot())
    ensures WalletAccess(old(db.wallets), walletId, userId, WalletIdMissing).Deny? ==> resp == WalletAccess(old(db.wallets), walletId, userId, WalletIdMissing).response
    ensures resp == Reply(500, "Error updating wallet") <==> WalletAccess(old(db.wallets), walletId, userId, WalletIdMissing).Grant? && !available
    ensures Sound(old(db.Snapshot())) ==> Sound(db.Snapshot())
  {
    ghost var before := db.Snapshot();
    var v := WalletAccess(db.wallets, walletId, userId, WalletIdMissing);
    if v.Deny? {
      resp := v.response;
      return;
    }
    var r := UpdateWallet(db, data, v.row, walletId.value, ts, available);
    if r.Ok? {
      resp := Response(200, OneWallet(r.value));
      if Sound(before) {
        SoundAfterUpdateWallet(before, walletId.value, data, ts);
      }
    } else {
      resp := Reply(500, "Error updating wallet");
    }
  }

  /** handlerDelete: delete the caller's wallet with all its incomes and expenses, in one
      transaction. */
  method HandleDelete(db: Database, userId: string, walletId: Option<string>, available: bool) returns (resp: Response)
    requires db.Valid()
    modifies db
    ensures db.Valid()
    ensures resp.statusCode == 200 <==> (&& Present(walletId) && walletId.value in old(db.wallets)
                                         && old(db.wallets)[walletId.value].userId == userId && available)
    ensures resp.statusCode == 200 ==> (&& resp == Reply(200, "Wallet with incomes and expenses deleted")
                                        && db.Snapshot() == Cascaded(old(db.Snapshot()), walletId.value))
    ensures resp.statusCode != 200 ==> resp.body.Message? && db.Snapshot() == old(db.Snapshot())
    ensures WalletAccess(old(db.wallets), walletId, userId, WalletIdMissing).Deny? ==> resp == WalletAccess(old(db.wallets), walletId, userId, WalletIdMissing).response
    ensures resp == Reply(500, "Error deleting wallet") <==> WalletAccess(old(db.wallets), walletId, userId, WalletIdMissing).Grant? && !available
    ensures Sound(old(db.Snapshot())) ==> Sound(db.Snapshot())
  {
    ghost var before := db.Snapshot();
    var v := WalletAccess(db.wallets, walletId, userId, WalletIdMissing);
    if v.Deny? {
      resp := v.response;
      return;
    }
    var ok := DeleteWallet(db, walletId.value, available);
    if ok {
      resp := Reply(200, "Wallet with incomes and expenses deleted");
      if Sound(before) {
        SoundAfterDeleteWallet(before, walletId.value);
      }
    } else {
      resp := Reply(500, "Error deleting wallet");
    }
  }
}
