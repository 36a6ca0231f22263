/** What incomeService.ts and expenseService.ts have in common: each mutation pairs a write of the
    income/expense row with an update of its wallet's balance in one transaction. The two files
    differ only in the sign of the balance change, so the transactions and their effects are
    defined once here for both kinds. */
module EntryService {
  import opened Models
  import opened Store
  import opened Ledger

  /** Balance change of a create: `+ amount` for an income, `- amount` for an expense. */
  function CreateDelta(kind: Kind, amount: int): (d: int)
    ensures kind == Income ==> d == amount
    ensures kind == Expense ==> d == -amount
  {
    if kind == Income then amount else -amount
  }

  /** Balance change of an update: `-existing + new` for an income, `existing - new` for an
      expense. It is the change of deleting the old row and creating the new one. */
  function UpdateDelta(kind: Kind, before: int, after: int): (d: int)
    ensures d == DeleteDelta(kind, before) + CreateDelta(kind, after)
  {
    if kind == Income then -before + after else before - after
  }

  /** Balance change of a delete: it undoes the create. */
  function DeleteDelta(kind: Kind, amount: int): (d: int)
    ensures d == -CreateDelta(kind, amount)
  {
    if kind == Income then -amount else amount
  }

  /** The row a create stores: the body's name, type and amount under the generated id, with the
      wallet and user taken from the arguments and one time stamp for both dates. */
  function NewEntry(walletId: string, userId: string, data: EntryData, id: string, ts: Timestamp): (e: Entry)
    ensures e.id == id && e.walletId == walletId && e.userId == userId
    ensures e.createdAt == ts && e.updatedAt == ts
    ensures e.Revised(data, ts) == e
  {
    Entry(id, walletId, userId, data.name, data.category, data.amount, ts, ts)
  }

  /** The transaction of a create: put the row, then add its amount to the wallet. */
  function CreateItems(kind: Kind, walletId: string, userId: string, data: EntryData, id: string, ts: Timestamp): seq<Item> {
    [PutEntryRow(kind, NewEntry(walletId, userId, data, id, ts)), AddToBalance(walletId, CreateDelta(kind, data.amount), ts)]
  }

  /** The transaction of an update: revise the row, then move the wallet by the difference. */
  function UpdateItems(kind: Kind, entryId: string, walletId: string, data: EntryData, existing: Entry, ts: Timestamp): seq<Item> {
    [SetEntryFields(kind, entryId, data, ts), AddToBalance(walletId, UpdateDelta(kind, existing.amount, data.amount), ts)]
  }

  /** The transaction of a delete: remove the row, then take its amount back from the wallet. */
  function DeleteItems(kind: Kind, entryId: string, walletId: string, existing: Entry, ts: Timestamp): seq<Item> {
    [DeleteEntryRow(kind, entryId), AddToBalance(walletId, DeleteDelta(kind, existing.amount), ts)]
  }

  /** The wallet table of `r` is that of `db` with only wallet `walletId` changed, and there only
      its balance (by `delta`) and its `updatedAt`. */
  predicate Moved(db: Db, r: Db, walletId: string, delta: int, ts: Timestamp) {
    walletId in db.wallets && r.wallets == db.wallets[walletId := db.wallets[walletId].Credited(delta, ts)]
  }

  /** The tables after a committed create. */
  function AfterCreate(db: Db, kind: Kind, row: Entry, ts: Timestamp): (r: Db)
    requires row.walletId in db.wallets
    ensures r.Rows(kind) == db.Rows(kind)[row.id := row]
    ensures r.Rows(Opposite(kind)) == db.Rows(Opposite(kind))
    ensures Moved(db, r, row.walletId, CreateDelta(kind, row.amount), ts)
  {
    Adjust(db.WithRows(kind, db.Rows(kind)[row.id := row]), row.walletId, CreateDelta(kind, row.amount), ts)
  }

  /** The tables after a committed update of row `entryId`, charged to wallet `walletId`. */
  function AfterUpdate(db: Db, kind: Kind, entryId: string, walletId: string, data: EntryData, delta: int, ts: Timestamp): (r: Db)
    requires walletId in db.wallets
    ensures r.Rows(kind) == Revise(db, kind, entryId, data, ts).Rows(kind)
    ensures entryId in db.Rows(kind) ==> r.Rows(kind) == db.Rows(kind)[entryId := db.Rows(kind)[entryId].Revised(data, ts)]
    ensures r.Rows(Opposite(kind)) == db.Rows(Opposite(kind))
    ensures Moved(db, r, walletId, delta, ts)
    ensures kind == Expense ==> r.expenses == Revise(db, kind, entryId, data, ts).expenses && r.incomes == db.incomes
    ensures kind == Income ==> r.incomes == Revise(db, kind, entryId, data, ts).incomes && r.expenses == db.expenses
  {
    Adjust(Revise(db, kind, entryId, data, ts), walletId, delta, ts)
  }

  /** The tables after a committed delete of row `entryId`, charged to wallet `walletId`. */
  function AfterDelete(db: Db, kind: Kind, entryId: string, walletId: string, amount: int, ts: Timestamp): (r: Db)
    requires walletId in db.wallets
    ensures r.Rows(kind) == db.Rows(kind) - {entryId}
    ensures r.Rows(Opposite(kind)) == db.Rows(Opposite(kind))
    ensures Moved(db, r, walletId, DeleteDelta(kind, amount), ts)
  {
    Adjust(db.WithRows(kind, db.Rows(kind) - {entryId}), walletId, DeleteDelta(kind, amount), ts)
  }

  /** A create commits exactly when its wallet exists, with the effect `AfterCreate`. */
  lemma CreateCommits(db: Db, kind: Kind, walletId: string, userId: string, data: EntryData, id: string, ts: Timestamp)
    ensures var r := ApplyItems(db, CreateItems(kind, walletId, userId, data, id, ts));
            (r.Some? <==> walletId in db.wallets)
            && (r.Some? ==> r.value == AfterCreate(db, kind, NewEntry(walletId, userId, data, id, ts), ts))
  {
    var items := CreateItems(kind, walletId, userId, data, id, ts);
    ApplyPair(db, items[0], items[1]);
  }

  /** An update commits exactly when the wallet it names exists, with the effect `AfterUpdate`. */
  lemma UpdateCommits(db: Db, kind: Kind, entryId: string, walletId: string, data: EntryData, existing: Entry, ts: Timestamp)
    ensures var r := ApplyItems(db, UpdateItems(kind, entryId, walletId, data, existing, ts));
            (r.Some? <==> walletId in db.wallets)
            && (r.Some? ==> r.value == AfterUpdate(db, kind, entryId, walletId, data, UpdateDelta(kind, existing.amount, data.amount), ts))
  {
    var items := UpdateItems(kind, entryId, walletId, data, existing, ts);
    ApplyPair(db, items[0], items[1]);
  }

  /** A delete commits exactly when the wallet it names exists, with the effect `AfterDelete`. */
  lemma DeleteCommits(db: Db, kind: Kind, entryId: string, walletId: string, existing: Entry, ts: Timestamp)
    ensures var r := ApplyItems(db, DeleteItems(kind, entryId, walletId, existing, ts));
            (r.Some? <==> walletId in db.wallets)
            && (r.Some? ==> r.value == AfterDelete(db, kind, entryId, walletId, existing.amount, ts))
  {
    var items := DeleteItems(kind, entryId, walletId, existing, ts);
    ApplyPair(db, items[0], items[1]);
  }

  /** Replacing the rows of `kind` moves every wallet's net sum by the change in that table. */
  lemma NetWithRows(db: Db, kind: Kind, rows: map<string, Entry>, walletId: string)
    ensures kind == Income ==> Net(db.WithRows(kind, rows), walletId)
                                == Net(db, walletId) + (Total(rows, walletId) - Total(db.Rows(kind), walletId))
    ensures kind == Expense ==> Net(db.WithRows(kind, rows), walletId)
                                 == Net(db, walletId) - (Total(rows, walletId) - Total(db.Rows(kind), walletId))
  {
  }

  /** With a fresh id and an existing wallet, a create keeps every balance equal to its sums. */
  lemma CreateKeepsConsistent(db: Db, kind: Kind, row: Entry, ts: Timestamp)
    requires Consistent(db) && row.walletId in db.wallets && row.id !in db.Rows(kind)
    ensures Consistent(AfterCreate(db, kind, row, ts))
  {
    var r := AfterCreate(db, kind, row, ts);
    var rows := db.Rows(kind)[row.id := row];
    forall w | w in r.wallets
      ensures r.wallets[w].currentBalance == r.wallets[w].startingBalance + Net(r, w)
    {
      TotalPut(db.Rows(kind), w, row.id, row);
      NetWithRows(db, kind, rows, w);
    }
    assert Linked(r) by {
      assert r.wallets.Keys == db.wallets.Keys;
      forall k | k in r.Rows(kind) ensures r.Rows(kind)[k].walletId in r.wallets {
      }
      assert kind == Income || kind == Expense;
    }
  }

  /** An update of the current row `existing`, charged to its own wallet, keeps every balance
      equal to its sums. */
  lemma UpdateKeepsConsistent(db: Db, kind: Kind, existing: Entry, data: EntryData, ts: Timestamp)
    requires Consistent(db) && existing.id in db.Rows(kind) && db.Rows(kind)[existing.id] == existing
    ensures existing.walletId in db.wallets
    ensures Consistent(AfterUpdate(db, kind, existing.id, existing.walletId, data, UpdateDelta(kind, existing.amount, data.amount), ts))
  {
    assert existing.walletId in db.wallets by {
      if kind == Income { assert db.incomes[existing.id].walletId in db.wallets; }
      else { assert db.expenses[existing.id].walletId in db.wallets; }
    }
    var delta := UpdateDelta(kind, existing.amount, data.amount);
    var r := AfterUpdate(db, kind, existing.id, existing.walletId, data, delta, ts);
    var row := existing.Revised(data, ts);
    var rows := db.Rows(kind)[existing.id := row];
    forall w | w in r.wallets
      ensures r.wallets[w].currentBalance == r.wallets[w].startingBalance + Net(r, w)
    {
      TotalPut(db.Rows(kind), w, existing.id, row);
      NetWithRows(db, kind, rows, w);
    }
    assert Linked(r) by {
      forall k | k in r.Rows(kind) ensures r.Rows(kind)[k].walletId in r.wallets {
      }
      assert kind == Income || kind == Expense;
    }
  }

  /** A delete of the current row `existing`, charged to its own wallet, keeps every balance
      equal to its sums. */
  lemma DeleteKeepsConsistent(db: Db, kind: Kind, existing: Entry, ts: Timestamp)
    requires Consistent(db) && existing.id in db.Rows(kind) && db.Rows(kind)[existing.id] == existing
    ensures existing.walletId in db.wallets
    ensures Consistent(AfterDelete(db, kind, existing.id, existing.walletId, existing.amount, ts))
  {
    assert existing.walletId in db.wallets by {
      if kind == Income { assert db.incomes[existing.id].walletId in db.wallets; }
      else { assert db.expenses[existing.id].walletId in db.wallets; }
    }
    var r := AfterDelete(db, kind, existing.id, existing.walletId, existing.amount, ts);
    var rows := db.Rows(kind) - {existing.id};
    forall w | w in r.wallets
      ensures r.wallets[w].currentBalance == r.wallets[w].startingBalance + Net(r, w)
    {
      TotalRemove(db.Rows(kind), w, existing.id);
      NetWithRows(db, kind, rows, w);
    }
    assert Linked(r) by {
      forall k | k in r.Rows(kind) ensures r.Rows(kind)[k].walletId in r.wallets {
      }
      assert kind == Income || kind == Expense;
    }
  }

  /** Creating an entry and then deleting it gives back the wallet's balance and, when the id was
      fresh, the entry table as it was. */
  lemma CreateThenDeleteRestores(db: Db, kind: Kind, walletId: string, userId: string, data: EntryData, id: string, ts: Timestamp, ts': Timestamp)
    requires walletId in db.wallets
    ensures var row := NewEntry(walletId, userId, data, id, ts);
            var r := AfterDelete(AfterCreate(db, kind, row, ts), kind, id, walletId, row.amount, ts');
            && r.wallets[walletId].currentBalance == db.wallets[walletId].currentBalance
            && r.Rows(Opposite(kind)) == db.Rows(Opposite(kind))
            && (id !in db.Rows(kind) ==> r.Rows(kind) == db.Rows(kind))
  {
    var row := NewEntry(walletId, userId, data, id, ts);
    if id !in db.Rows(kind) {
      assert db.Rows(kind)[id := row] - {id} == db.Rows(kind);
    }
  }

  /** Ids are random numbers below 1000000, and a put replaces a row stored under the same id.
      A create whose id is taken therefore drops the old row from the sums while its amount stays
      in the balance: here an expense of 30 is replaced by one of 10, and the wallet's balance 60
      no longer equals 100 - 10. */
  lemma CollidingIdBreaksBalance()
    ensures exists db: Db, row: Entry, ts: Timestamp
              :: && Consistent(db) && row.walletId in db.wallets && row.id in db.expenses
                 && !Consistent(AfterCreate(db, Expense, row, ts))
  {
    var wallet := Wallet("w", "u", "cash", "", 100, 70, "t0", "t0");
    var first := Entry("1", "w", "u", "rent", "home", 30, "t0", "t0");
    var second := Entry("1", "w", "u", "food", "home", 10, "t1", "t1");
    var db := Db(map["w" := wallet], map[], map["1" := first]);
    TotalRemove(db.expenses, "w", "1");
    assert db.expenses - {"1"} == map[];
    assert Net(db, "w") == -30;
    assert Consistent(db);
    var r := AfterCreate(db, Expense, second, "t1");
    assert r.expenses == map["1" := second];
    TotalRemove(r.expenses, "w", "1");
    assert r.expenses - {"1"} == map[];
    assert r.wallets["w"].currentBalance == 60 && Net(r, "w") == -10;
    assert !Consistent(r);
  }
}
