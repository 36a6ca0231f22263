/** The balance rule the services keep: every wallet's `currentBalance` equals its
    `startingBalance` plus the amounts of its incomes minus the amounts of its expenses, and every
    income and expense belongs to a wallet that exists. */
module Ledger {
  import opened Models
  import opened Store

  /** What a row contributes to the sum of wallet `walletId`. */
  function Share(e: Entry, walletId: string): int {
    if e.walletId == walletId then e.amount else 0
  }

  /** Sum of the amounts of the rows of `rows` that belong to `walletId`. */
  ghost function Total(rows: map<string, Entry>, walletId: string): int
    decreases |rows|
  {
    if rows == map[] then 0
    else
      var k :| k in rows;
      Share(rows[k], walletId) + Total(rows - {k}, walletId)
  }

  /** The sum can be split at any key, not only at the one `Total` happens to pick. */
  lemma {:induction false} TotalRemove(rows: map<string, Entry>, walletId: string, k: string)
    requires k in rows
    ensures Total(rows, walletId) == Share(rows[k], walletId) + Total(rows - {k}, walletId)
    decreases |rows|
  {
    var j :| j in rows && Total(rows, walletId) == Share(rows[j], walletId) + Total(rows - {j}, walletId);
    if j != k {
      var rest := rows - {j} - {k};
      assert rows - {k} - {j} == rest;
      TotalRemove(rows - {j}, walletId, k);
      TotalRemove(rows - {k}, walletId, j);
    }
  }

  /** Storing `e` under `k` replaces whatever `k` held before. */
  lemma TotalPut(rows: map<string, Entry>, walletId: string, k: string, e: Entry)
    ensures Total(rows[k := e], walletId) == Share(e, walletId) + Total(rows - {k}, walletId)
    ensures k !in rows ==> Total(rows[k := e], walletId) == Share(e, walletId) + Total(rows, walletId)
    ensures k in rows ==> Total(rows[k := e], walletId) == Share(e, walletId) - Share(rows[k], walletId) + Total(rows, walletId)
  {
    TotalRemove(rows[k := e], walletId, k);
    assert rows[k := e] - {k} == rows - {k};
    if k !in rows {
      assert rows - {k} == rows;
    } else {
      TotalRemove(rows, walletId, k);
    }
  }

  /** Dropping rows that belong to other wallets leaves the sum of `walletId` as it was. */
  lemma {:induction false} TotalIgnores(rows: map<string, Entry>, kept: map<string, Entry>, walletId: string)
    requires kept.Keys <= rows.Keys
    requires forall k | k in kept :: kept[k] == rows[k]
    requires forall k | k in rows && k !in kept :: rows[k].walletId != walletId
    ensures Total(kept, walletId) == Total(rows, walletId)
    decreases |rows|
  {
    if rows.Keys == kept.Keys {
      assert rows == kept;
    } else {
      var k :| k in rows && k !in kept;
      TotalRemove(rows, walletId, k);
      TotalIgnores(rows - {k}, kept, walletId);
    }
  }

  /** Net effect of the entries of wallet `walletId` on its balance. */
  ghost function Net(db: Db, walletId: string): int {
    Total(db.incomes, walletId) - Total(db.expenses, walletId)
  }

  /** Every income and expense refers to an existing wallet. */
  ghost predicate Linked(db: Db) {
    && (forall k | k in db.incomes :: db.incomes[k].walletId in db.wallets)
    && (forall k | k in db.expenses :: db.expenses[k].walletId in db.wallets)
  }

  /** `currentBalance == startingBalance + sum(incomes) - sum(expenses)` for every wallet. */
  ghost predicate Balanced(db: Db) {
    forall w | w in db.wallets :: db.wallets[w].currentBalance == db.wallets[w].startingBalance + Net(db, w)
  }

  ghost predicate Consistent(db: Db) {
    Linked(db) && Balanced(db)
  }

  /** A listing of a wallet's rows carries every amount that counts towards its balance, so a
      client can recompute the balance from the two listings. */
  lemma ListingCarriesTotal(rows: map<string, Entry>, walletId: string)
    ensures Total(OfWallet(rows, walletId), walletId) == Total(rows, walletId)
  {
    TotalIgnores(rows, OfWallet(rows, walletId), walletId);
  }

  lemma BalanceFromListings(db: Db, walletId: string)
    requires Balanced(db) && walletId in db.wallets
    ensures db.wallets[walletId].currentBalance
         == db.wallets[walletId].startingBalance
          + Total(OfWallet(db.incomes, walletId), walletId) - Total(OfWallet(db.expenses, walletId), walletId)
  {
    ListingCarriesTotal(db.incomes, walletId);
    ListingCarriesTotal(db.expenses, walletId);
  }
}
