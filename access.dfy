/** The checks the handlers make before they touch the store: path parameters present, row found,
    row owned by the caller. A wallet is owned through its `userId`; an income or expense is checked
    against its own `walletId` and `userId`, never against its wallet's owner. */
module Access {
  import opened Models
  import opened Store
  import opened Ledger
  import opened Http
  import opened EntryService
  import opened WalletService

  /** The message of the 400 answer for an absent or empty walletId path parameter. */
  const WalletIdMissingText := "Wallet ID is missing in the request"

  /** The 400 answer for an absent or empty walletId path parameter. */
  const WalletIdMissing := Reply(400, WalletIdMissingText)

  /** The wallet checks of the wallet handlers and of the create and list handlers of incomes and
      expenses. `missing` is what the handler returns when the walletId path parameter is absent
      or empty: a 400, or a 500 where the handler does not check and the store read throws. */
  function WalletAccess(wallets: map<string, Wallet>, walletId: Option<string>, userId: string, missing: Response): (v: Verdict<Wallet>)
    ensures v.Grant? <==> Present(walletId) && walletId.value in wallets && wallets[walletId.value].userId == userId
    ensures v.Grant? ==> v.row == wallets[walletId.value]
    ensures !Present(walletId) ==> v == Deny(missing)
    ensures Present(walletId) && walletId.value !in wallets ==> v == Deny(Reply(404, "Wallet not found"))
    ensures (Present(walletId) && walletId.value in wallets && wallets[walletId.value].userId != userId)
            ==> v == Deny(Reply(401, "Unauthorized"))
  {
    if !Present(walletId) then Deny(missing)
    else if walletId.value !in wallets then Deny(Reply(404, "Wallet not found"))
    else if wallets[walletId.value].userId != userId then Deny(Reply(401, "Unauthorized"))
    else Grant(wallets[walletId.value])
  }

  /** The 400 answer for an absent or empty entry id. */
  function IdMissing(kind: Kind): string {
    if kind == Income then "Income ID is missing in the request" else "Expense ID is missing in the request"
  }

  /** The 404 answer for an entry id with no row. */
  function NotFound(kind: Kind): string {
    if kind == Income then "Income not found" else "Expense not found"
  }

  /** The 401 answer for a row of another wallet than the one in the path. */
  function OtherWallet(kind: Kind): string {
    if kind == Income then "Income does not pertain to requested wallet" else "Expense does not pertain to requested wallet"
  }

  /** The checks of the read, update and delete handlers of incomes and expenses, in the order
      the handlers make them. `walletMissing` is the message for an absent walletId. */
  function EntryAccess(rows: map<string, Entry>, kind: Kind, walletId: Option<string>, entryId: Option<string>, userId: string, walletMissing: string)
    : (v: Verdict<Entry>)
    ensures v.Grant? <==> (&& Present(walletId) && Present(entryId) && entryId.value in rows
                           && rows[entryId.value].walletId == walletId.value && rows[entryId.value].userId == userId)
    ensures v.Grant? ==> v.row == rows[entryId.value]
    ensures !Present(walletId) ==> v == Deny(Reply(400, walletMissing))
    ensures Present(walletId) && !Present(entryId) ==> v == Deny(Reply(400, IdMissing(kind)))
    ensures (Present(walletId) && Present(entryId) && entryId.value !in rows)
            ==> v == Deny(Reply(404, NotFound(kind)))
    ensures (Present(walletId) && Present(entryId) && entryId.value in rows && rows[entryId.value].walletId != walletId.value)
            ==> v == Deny(Reply(401, OtherWallet(kind)))
    ensures (Present(walletId) && Present(entryId) && entryId.value in rows && rows[entryId.value].walletId == walletId.value
             && rows[entryId.value].userId != userId)
            ==> v == Deny(Reply(401, "Unauthorized"))
  {
    if !Present(walletId) then Deny(Reply(400, walletMissing))
    else if !Present(entryId) then Deny(Reply(400, IdMissing(kind)))
    else if entryId.value !in rows then Deny(Reply(404, NotFound(kind)))
    else if rows[entryId.value].walletId != walletId.value then Deny(Reply(401, OtherWallet(kind)))
    else if rows[entryId.value].userId != userId then Deny(Reply(401, "Unauthorized"))
    else Grant(rows[entryId.value])
  }

  /** Every row of `rows` whose wallet exists carries that wallet's owner as its `userId`. */
  ghost predicate RowsOwned(rows: map<string, Entry>, wallets: map<string, Wallet>) {
    forall k | k in rows && rows[k].walletId in wallets :: wallets[rows[k].walletId].userId == rows[k].userId
  }

  /** Every income and expense has the owner of its wallet as its `userId`. */
  ghost predicate Owned(db: Db) {
    RowsOwned(db.incomes, db.wallets) && RowsOwned(db.expenses, db.wallets)
  }

  /** Wallets that keep their owners (and gain no new ids) keep every row owned. */
  lemma RowsOwnedByKeptOwners(rows: map<string, Entry>, wallets: map<string, Wallet>, next: map<string, Wallet>)
    requires RowsOwned(rows, wallets)
    requires forall w | w in next :: w in wallets && next[w].userId == wallets[w].userId
    ensures RowsOwned(rows, next)
  {
  }

  /** A row of the wallet's owner can be stored under any key. */
  lemma RowsOwnedPut(rows: map<string, Entry>, wallets: map<string, Wallet>, key: string, row: Entry)
    requires RowsOwned(rows, wallets)
    requires row.walletId in wallets ==> wallets[row.walletId].userId == row.userId
    ensures RowsOwned(rows[key := row], wallets)
  {
  }

  /** Removing rows keeps the rest owned. */
  lemma RowsOwnedRemove(rows: map<string, Entry>, wallets: map<string, Wallet>, key: string)
    requires RowsOwned(rows, wallets)
    ensures RowsOwned(rows - {key}, wallets)
  {
  }

  /** What every handler keeps: balances match their entries, and entries belong to their
      wallets' owners. */
  ghost predicate Sound(db: Db) {
    Consistent(db) && Owned(db)
  }

  /** The entry handlers check the entry's `userId`, not the wallet's owner; while the tables are
      `Sound` that is the same check, so an entry request is only granted to the owner of an
      existing wallet. */
  lemma EntryGrantImpliesWalletOwner(db: Db, kind: Kind, walletId: Option<string>, entryId: Option<string>, userId: string, text: string)
    requires Sound(db)
    requires EntryAccess(db.Rows(kind), kind, walletId, entryId, userId, text).Grant?
    ensures walletId.value in db.wallets && db.wallets[walletId.value].userId == userId
  {
    var e := db.Rows(kind)[entryId.value];
    if kind == Income {
      assert db.incomes[entryId.value] == e;
    } else {
      assert db.expenses[entryId.value] == e;
    }
  }

  /** A new wallet under an unused id, with its current balance equal to its starting balance. */
  lemma SoundAfterCreateWallet(db: Db, wallet: Wallet)
    requires Sound(db) && wallet.id !in db.wallets && wallet.currentBalance == wallet.startingBalance
    ensures Sound(db.(wallets := db.wallets[wallet.id := wallet]))
  {
    CreateWalletKeepsConsistent(db, wallet);
  }

  /** Re-basing a wallet by the change of its starting balance. */
  lemma SoundAfterUpdateWallet(db: Db, walletId: string, data: WalletData, ts: Timestamp)
    requires Sound(db) && walletId in db.wallets
    ensures var r := ApplyItem(db, SetWalletFields(walletId, data, StartingBalanceDiff(db.wallets[walletId], data), ts));
            r.Some? && Sound(r.value)
  {
    UpdateWalletKeepsConsistent(db, walletId, data, ts);
  }

  /** Deleting a wallet together with its incomes and expenses. */
  lemma SoundAfterDeleteWallet(db: Db, walletId: string)
    requires Sound(db)
    ensures Sound(Cascaded(db, walletId))
  {
    DeleteWalletKeepsConsistent(db, walletId);
  }

  /** A create keeps entries with their wallets' owners when the new row's user owns its wallet. */
  lemma OwnedAfterCreate(db: Db, kind: Kind, row: Entry, ts: Timestamp)
    requires Owned(db) && row.walletId in db.wallets && db.wallets[row.walletId].userId == row.userId
    ensures Owned(AfterCreate(db, kind, row, ts))
  {
    var r := AfterCreate(db, kind, row, ts);
    RowsOwnedPut(db.Rows(kind), db.wallets, row.id, row);
    RowsOwnedByKeptOwners(r.Rows(kind), db.wallets, r.wallets);
    RowsOwnedByKeptOwners(r.Rows(Opposite(kind)), db.wallets, r.wallets);
    if kind == Income { } else { }
  }

  /** An update leaves every entry's wallet and user as they were. */
  lemma OwnedAfterUpdate(db: Db, kind: Kind, existing: Entry, data: EntryData, delta: int, ts: Timestamp)
    requires Owned(db) && existing.id in db.Rows(kind) && existing.walletId in db.wallets
    ensures Owned(AfterUpdate(db, kind, existing.id, existing.walletId, data, delta, ts))
  {
    var r := AfterUpdate(db, kind, existing.id, existing.walletId, data, delta, ts);
    var rows := db.Rows(kind);
    RowsOwnedPut(rows, db.wallets, existing.id, rows[existing.id].Revised(data, ts));
    RowsOwnedByKeptOwners(r.Rows(kind), db.wallets, r.wallets);
    RowsOwnedByKeptOwners(r.Rows(Opposite(kind)), db.wallets, r.wallets);
    if kind == Income { } else { }
  }

  /** A delete only removes rows. */
  lemma OwnedAfterDelete(db: Db, kind: Kind, entryId: string, walletId: string, amount: int, ts: Timestamp)
    requires Owned(db) && walletId in db.wallets
    ensures Owned(AfterDelete(db, kind, entryId, walletId, amount, ts))
  {
    var r := AfterDelete(db, kind, entryId, walletId, amount, ts);
    RowsOwnedRemove(db.Rows(kind), db.wallets, entryId);
    RowsOwnedByKeptOwners(r.Rows(kind), db.wallets, r.wallets);
    RowsOwnedByKeptOwners(r.Rows(Opposite(kind)), db.wallets, r.wallets);
    if kind == Income { } else { }
  }

  /** A new entry under an unused id, in a wallet of the entry's own user. */
  lemma SoundAfterCreate(db: Db, kind: Kind, row: Entry, ts: Timestamp)
    requires Sound(db) && row.walletId in db.wallets && row.id !in db.Rows(kind)
    requires db.wallets[row.walletId].userId == row.userId
    ensures Sound(AfterCreate(db, kind, row, ts))
  {
    CreateKeepsConsistent(db, kind, row, ts);
    OwnedAfterCreate(db, kind, row, ts);
  }

  /** An update of the current row `existing`, charged to its own wallet. */
  lemma SoundAfterUpdate(db: Db, kind: Kind, existing: Entry, data: EntryData, ts: Timestamp)
    requires Sound(db) && existing.id in db.Rows(kind) && db.Rows(kind)[existing.id] == existing
    ensures existing.walletId in db.wallets
    ensures Sound(AfterUpdate(db, kind, existing.id, existing.walletId, data, UpdateDelta(kind, existing.amount, data.amount), ts))
  {
    UpdateKeepsConsistent(db, kind, existing, data, ts);
    OwnedAfterUpdate(db, kind, existing, data, UpdateDelta(kind, existing.amount, data.amount), ts);
  }

  /** A delete of the current row `existing`, charged to its own wallet. */
  lemma SoundAfterDelete(db: Db, kind: Kind, existing: Entry, ts: Timestamp)
    requires Sound(db) && existing.id in db.Rows(kind) && db.Rows(kind)[existing.id] == existing
    ensures existing.walletId in db.wallets
    ensures Sound(AfterDelete(db, kind, existing.id, existing.walletId, existing.amount, ts))
  {
    DeleteKeepsConsistent(db, kind, existing, ts);
    OwnedAfterDelete(db, kind, existing.id, existing.walletId, existing.amount, ts);
  }
}
