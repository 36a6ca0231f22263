/** walletService.ts: create, read, list, re-base and delete wallets. A wallet delete removes the
    wallet together with all its incomes and expenses in one transaction. */
module WalletService {
  import opened Models
  import opened Store
  import opened Ledger

  /** The row createWallet stores. The body's fields come first and are then overridden, so a
      `currentBalance` sent by the client is replaced by the starting balance. */
  function NewWallet(data: WalletData, userId: string, id: string, ts: Timestamp): (w: Wallet)
    ensures w.id == id && w.userId == userId
    ensures w.currentBalance == w.startingBalance == data.startingBalance
    ensures w.name == data.name && w.description == data.description
    ensures w.createdAt == w.updatedAt == ts
  {
    Wallet(id, userId, data.name, data.description, data.startingBalance, data.startingBalance, ts, ts)
  }

  /** `startingBalanceDiff`: re-basing by it keeps what the entries have added to the balance. */
  function StartingBalanceDiff(existing: Wallet, data: WalletData): (d: int)
    ensures var w := existing.Rebased(data, d, existing.updatedAt);
            w.currentBalance - w.startingBalance == existing.currentBalance - existing.startingBalance
  {
    -existing.startingBalance + data.startingBalance
  }

  /** The tables after a committed deleteWallet: the wallet and every income and expense of it
      are gone; every other row is untouched. */
  function Cascaded(db: Db, walletId: string): (r: Db)
    ensures forall k :: k in r.wallets <==> k in db.wallets && k != walletId
    ensures forall k | k in r.wallets :: r.wallets[k] == db.wallets[k]
    ensures forall k :: k in r.incomes <==> k in db.incomes && db.incomes[k].walletId != walletId
    ensures forall k | k in r.incomes :: r.incomes[k] == db.incomes[k]
    ensures forall k :: k in r.expenses <==> k in db.expenses && db.expenses[k].walletId != walletId
    ensures forall k | k in r.expenses :: r.expenses[k] == db.expenses[k]
  {
    Db(db.wallets - {walletId},
       db.incomes - OfWallet(db.incomes, walletId).Keys,
       db.expenses - OfWallet(db.expenses, walletId).Keys)
  }

  method CreateWallet(db: Database, data: WalletData, userId: string, id: string, ts: Timestamp, available: bool)
    returns (r: Result<Wallet>)
    requires db.Valid()
    modifies db
    ensures db.Valid()
    ensures r.Ok? <==> available
    ensures r.Ok? ==> (r.value == NewWallet(data, userId, id, ts)
                       && db.Snapshot() == old(db.Snapshot()).(wallets := old(db.wallets)[id := r.value]))
    ensures r.Failed? ==> db.Snapshot() == old(db.Snapshot())
  {
    var wallet := NewWallet(data, userId, id, ts);
    var ok := db.Write(PutWalletRow(wallet), available);
    r := if ok then Ok(wallet) else Failed;
  }

  /** getWallet: the row stored under `walletId`, if any. The store rejects a key that is the
      empty string, and the call throws. */
  method GetWallet(db: Database, walletId: string) returns (r: Result<Option<Wallet>>)
    requires db.Valid()
    ensures r.Failed? <==> walletId == ""
    ensures r.Ok? ==> (r.value.Some? <==> walletId in db.wallets)
    ensures r.Ok? && r.value.Some? ==> r.value.value == db.wallets[walletId] && r.value.value.id == walletId
  {
    if walletId == "" {
      r := Failed;
    } else {
      r := Ok(if walletId in db.wallets then Some(db.wallets[walletId]) else None);
    }
  }

  /** getWallets: exactly the wallets whose owner is `userId`. */
  method GetWallets(db: Database, userId: string) returns (rows: map<string, Wallet>)
    ensures forall k :: k in rows <==> k in db.wallets && db.wallets[k].userId == userId
    ensures forall k | k in rows :: rows[k] == db.wallets[k]
  {
    rows := OfUser(db.wallets, userId);
  }

  /** updateWallet: name, description and starting balance from the body; the current balance
      moves by the change of the starting balance (relative to `existing`, the row the caller
      read); `id`, `userId` and `createdAt` stay. The store returns the new row. */
  method UpdateWallet(db: Database, data: WalletData, existing: Wallet, walletId: string, ts: Timestamp, available: bool)
    returns (r: Result<Wallet>)
    requires db.Valid()
    modifies db
    ensures db.Valid()
    ensures r.Ok? <==> available && walletId in old(db.wallets)
    ensures r.Ok? ==> (r.value == old(db.wallets[walletId]).Rebased(data, StartingBalanceDiff(existing, data), ts)
                       && db.Snapshot() == old(db.Snapshot()).(wallets := old(db.wallets)[walletId := r.value]))
    ensures r.Failed? ==> db.Snapshot() == old(db.Snapshot())
  {
    var diff := StartingBalanceDiff(existing, data);
    var ok := db.Write(SetWalletFields(walletId, data, diff, ts), available);
    r := if ok then Ok(db.wallets[walletId]) else Failed;
  }

  /** getAllIncomesForWallet: the incomes of `walletId`, by the walletId index. */
  method IncomesForWallet(db: Database, walletId: string) returns (rows: map<string, Entry>)
    ensures forall k :: k in rows <==> k in db.incomes && db.incomes[k].walletId == walletId
    ensures forall k | k in rows :: rows[k] == db.incomes[k]
  {
    rows := OfWallet(db.incomes, walletId);
  }

  /** getAllExpensesForWallet: the expenses of `walletId`, by the walletId index. */
  method ExpensesForWallet(db: Database, walletId: string) returns (rows: map<string, Entry>)
    ensures forall k :: k in rows <==> k in db.expenses && db.expenses[k].walletId == walletId
    ensures forall k | k in rows :: rows[k] == db.expenses[k]
  {
    rows := OfWallet(db.expenses, walletId);
  }

  /** One delete of `kind` per key, in order. */
  function Deletes(kind: Kind, keys: seq<string>): (items: seq<Item>)
    ensures |items| == |keys|
    ensures forall i | 0 <= i < |keys| :: items[i] == DeleteEntryRow(kind, keys[i])
  {
    if keys == [] then [] else [DeleteEntryRow(kind, keys[0])] + Deletes(kind, keys[1..])
  }

  lemma {:induction false} DeletesAppend(kind: Kind, keys: seq<string>, k: string)
    ensures Deletes(kind, keys + [k]) == Deletes(kind, keys) + [DeleteEntryRow(kind, k)]
    decreases |keys|
  {
    if keys != [] {
      assert (keys + [k])[1..] == keys[1..] + [k];
      DeletesAppend(kind, keys[1..], k);
    }
  }

  /** Deleting keys one at a time removes all of them (`gone`), whatever the order and whether or
      not a row is there. */
  lemma {:induction false} ApplyDeletes(db: Db, kind: Kind, keys: seq<string>, gone: set<string>)
    requires forall k :: k in keys <==> k in gone
    ensures ApplyItems(db, Deletes(kind, keys)) == Some(db.WithRows(kind, db.Rows(kind) - gone))
    decreases |keys|
  {
    if keys == [] {
      assert db.Rows(kind) - gone == db.Rows(kind);
      assert db.WithRows(kind, db.Rows(kind)) == db by {
        if kind == Income { } else { }
      }
    } else {
      var next := db.WithRows(kind, db.Rows(kind) - {keys[0]});
      var rest := set k | k in keys[1..];
      assert Deletes(kind, keys)[1..] == Deletes(kind, keys[1..]);
      ApplyDeletes(next, kind, keys[1..], rest);
      assert next.Rows(kind) - rest == db.Rows(kind) - gone by {
        if kind == Income { } else { }
      }
      assert next.WithRows(kind, db.Rows(kind) - gone) == db.WithRows(kind, db.Rows(kind) - gone) by {
        if kind == Income { } else { }
      }
    }
  }

  /** One step of `PushDeletes`: appending the delete of a key not seen yet. */
  lemma PushOne(items: seq<Item>, kind: Kind, rows: set<string>, keys: seq<string>, pending: set<string>, k: string, id: string)
    requires (forall j :: j in keys <==> j in rows && j !in pending) && |keys| + |pending| == |rows|
    requires k in pending && k in rows && id == k
    ensures items + Deletes(kind, keys) + [DeleteEntryRow(kind, id)] == items + Deletes(kind, keys + [k])
    ensures (forall j :: j in keys + [k] <==> j in rows && j !in pending - {k}) && |keys + [k]| + |pending - {k}| == |rows|
  {
    DeletesAppend(kind, keys, k);
  }

  /** A delete of each listed row of `kind`, appended to `items` one at a time (the `forEach` with
      `push` of deleteWallet); `keys` is the order in which the rows were visited. */
  method PushDeletes(items: seq<Item>, kind: Kind, rows: map<string, Entry>) returns (out: seq<Item>, ghost keys: seq<string>)
    requires forall k | k in rows :: rows[k].id == k
    ensures |keys| == |rows| && (forall k :: k in keys <==> k in rows)
    ensures out == items + Deletes(kind, keys)
  {
    out := items;
    keys := [];
    var pending := rows.Keys;
    while pending != {}
      invariant pending <= rows.Keys
      invariant forall j :: j in keys <==> j in rows.Keys && j !in pending
      invariant |keys| + |pending| == |rows.Keys|
      invariant out == items + Deletes(kind, keys)
      decreases pending
    {
      var k :| k in pending;
      var id := rows[k].id;
      PushOne(items, kind, rows.Keys, keys, pending, k, id);
      out := out + [DeleteEntryRow(kind, id)];
      keys := keys + [k];
      pending := pending - {k};
    }
  }

  /** Deleting the listed incomes, then the listed expenses, then the wallet, in any visiting
      order, leaves the tables `Cascaded`. */
  lemma CascadeApplies(db: Db, walletId: string, incomeKeys: seq<string>, expenseKeys: seq<string>)
    requires forall k :: k in incomeKeys <==> k in OfWallet(db.incomes, walletId)
    requires forall k :: k in expenseKeys <==> k in OfWallet(db.expenses, walletId)
    ensures ApplyItems(db, Deletes(Income, incomeKeys) + Deletes(Expense, expenseKeys) + [DeleteWalletRow(walletId)])
         == Some(Cascaded(db, walletId))
  {
    var last := [DeleteWalletRow(walletId)];
    var mid := db.(incomes := db.incomes - OfWallet(db.incomes, walletId).Keys);
    var before := mid.(expenses := db.expenses - OfWallet(db.expenses, walletId).Keys);
    ApplyDeletes(db, Income, incomeKeys, OfWallet(db.incomes, walletId).Keys);
    ApplyDeletes(mid, Expense, expenseKeys, OfWallet(db.expenses, walletId).Keys);
    assert Deletes(Income, incomeKeys) + Deletes(Expense, expenseKeys) + last
        == Deletes(Income, incomeKeys) + (Deletes(Expense, expenseKeys) + last);
    ApplyConcat(db, Deletes(Income, incomeKeys), Deletes(Expense, expenseKeys) + last);
    ApplyConcat(mid, Deletes(Expense, expenseKeys), last);
    assert last[1..] == [];
  }

  /** The transaction of deleteWallet: one delete per listed income, then one per listed expense,
      then the wallet's own delete, last. The ghost outputs are the orders in which the two
      listings were visited. */
  method CascadeItems(walletId: string, incomes: map<string, Entry>, expenses: map<string, Entry>)
    returns (items: seq<Item>, ghost incomeKeys: seq<string>, ghost expenseKeys: seq<string>)
    requires forall k | k in incomes :: incomes[k].id == k
    requires forall k | k in expenses :: expenses[k].id == k
    ensures (forall k :: k in incomeKeys <==> k in incomes) && |incomeKeys| == |incomes|
    ensures (forall k :: k in expenseKeys <==> k in expenses) && |expenseKeys| == |expenses|
    ensures items == Deletes(Income, incomeKeys) + Deletes(Expense, expenseKeys) + [DeleteWalletRow(walletId)]
    ensures |items| == |incomes| + |expenses| + 1 && items[|items| - 1] == DeleteWalletRow(walletId)
  {
    var withIncomes;
    withIncomes, incomeKeys := PushDeletes([], Income, incomes);
    var withExpenses;
    withExpenses, expenseKeys := PushDeletes(withIncomes, Expense, expenses);
    assert withIncomes == Deletes(Income, incomeKeys);
    items := withExpenses + [DeleteWalletRow(walletId)];
    assert items[|withExpenses|] == DeleteWalletRow(walletId);
  }

  /** deleteWallet: list the wallet's incomes and expenses, then delete them and the wallet in one
      transaction. When the store rejects it, nothing is deleted. */
  method DeleteWallet(db: Database, walletId: string, available: bool) returns (ok: bool)
    requires db.Valid()
    modifies db
    ensures db.Valid()
    ensures ok <==> available
    ensures ok ==> db.Snapshot() == Cascaded(old(db.Snapshot()), walletId)
    ensures !ok ==> db.Snapshot() == old(db.Snapshot())
  {
    var incomes := IncomesForWallet(db, walletId);
    var expenses := ExpensesForWallet(db, walletId);
    var items, incomeKeys, expenseKeys := CascadeItems(walletId, incomes, expenses);
    CascadeApplies(db.Snapshot(), walletId, incomeKeys, expenseKeys);
    ok := db.TransactWrite(items, available);
  }

  /** A wallet with an unused id starts balanced: no entry refers to it yet. */
  lemma CreateWalletKeepsConsistent(db: Db, wallet: Wallet)
    requires Consistent(db) && wallet.id !in db.wallets && wallet.currentBalance == wallet.startingBalance
    ensures Consistent(db.(wallets := db.wallets[wallet.id := wallet]))
  {
    TotalIgnores(db.incomes, map[], wallet.id);
    TotalIgnores(db.expenses, map[], wallet.id);
  }

  /** Re-basing a wallet by `StartingBalanceDiff` of its current row keeps it balanced. */
  lemma UpdateWalletKeepsConsistent(db: Db, walletId: string, data: WalletData, ts: Timestamp)
    requires Consistent(db) && walletId in db.wallets
    ensures var r := ApplyItem(db, SetWalletFields(walletId, data, StartingBalanceDiff(db.wallets[walletId], data), ts));
            r.Some? && Consistent(r.value)
  {
  }

  /** Deleting a wallet with all its entries keeps every remaining wallet balanced and leaves no
      entry pointing at a missing wallet. */
  lemma DeleteWalletKeepsConsistent(db: Db, walletId: string)
    requires Consistent(db)
    ensures Consistent(Cascaded(db, walletId))
  {
    var r := Cascaded(db, walletId);
    forall w | w in r.wallets
      ensures r.wallets[w].currentBalance == r.wallets[w].startingBalance + Net(r, w)
    {
      TotalIgnores(db.incomes, r.incomes, w);
      TotalIgnores(db.expenses, r.expenses, w);
    }
  }
}
