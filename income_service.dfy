/** incomeService.ts: read, create, list, update and delete incomes. Every mutation writes the
    income row and moves its wallet's balance in one transaction: `+ amount` on create,
    `- old + new` on update, `- amount` on delete. */
module IncomeService {
  import opened Models
  import opened Store
  import opened Ledger
  import opened EntryService

  /** getIncome: the row stored under `incomeId`, if any. The store rejects a key that is the
      empty string, and the call throws. */
  method GetIncome(db: Database, incomeId: string) returns (r: Result<Option<Entry>>)
    requires db.Valid()
    ensures r.Failed? <==> incomeId == ""
    ensures r.Ok? ==> (r.value.Some? <==> incomeId in db.incomes)
    ensures r.Ok? && r.value.Some? ==> r.value.value == db.incomes[incomeId] && r.value.value.id == incomeId
  {
    if incomeId == "" {
      r := Failed;
    } else {
      r := Ok(if incomeId in db.incomes then Some(db.incomes[incomeId]) else None);
    }
  }

  /** createIncome: store the new row under `id` (the generated id) and add its amount to the
      wallet. The transaction fails, and nothing changes, when the wallet does not exist. */
  method CreateIncome(db: Database, walletId: string, userId: string, data: EntryData, id: string, ts: Timestamp, available: bool)
    returns (r: Result<Entry>)
    requires db.Valid()
    modifies db
    ensures db.Valid()
    ensures r.Ok? <==> available && walletId in old(db.wallets)
    ensures r.Ok? ==> (&& r.value == NewEntry(walletId, userId, data, id, ts)
                       && db.incomes == old(db.incomes)[id := r.value]
                       && db.expenses == old(db.expenses)
                       && db.wallets == old(db.wallets)[walletId := old(db.wallets[walletId]).Credited(data.amount, ts)])
    ensures r.Failed? ==> db.Snapshot() == old(db.Snapshot())
    ensures r.Ok? && Consistent(old(db.Snapshot())) && id !in old(db.incomes) ==> Consistent(db.Snapshot())
  {
    ghost var before := db.Snapshot();
    CreateCommits(before, Income, walletId, userId, data, id, ts);
    var ok := db.TransactWrite(CreateItems(Income, walletId, userId, data, id, ts), available);
    if ok {
      r := Ok(NewEntry(walletId, userId, data, id, ts));
      if Consistent(before) && id !in before.incomes {
        CreateKeepsConsistent(before, Income, r.value, ts);
      }
    } else {
      r := Failed;
    }
  }

  /** getIncomes: exactly the incomes of wallet `walletId` (a scan filtered on walletId). */
  method GetIncomes(db: Database, walletId: string) returns (rows: map<string, Entry>)
    ensures forall k :: k in rows <==> k in db.incomes && db.incomes[k].walletId == walletId
    ensures forall k | k in rows :: rows[k] == db.incomes[k]
  {
    rows := OfWallet(db.incomes, walletId);
  }

  /** updateIncome: set name, type and amount of row `incomeId` and move wallet `walletId` by
      `-existing.amount + data.amount`; the result is `existing` with those fields replaced. */
  method UpdateIncome(db: Database, incomeId: string, walletId: string, data: EntryData, existing: Entry, ts: Timestamp, available: bool)
    returns (r: Result<Entry>)
    requires db.Valid()
    modifies db
    ensures db.Valid()
    ensures r.Ok? <==> available && walletId in old(db.wallets)
    ensures r.Ok? ==> (&& r.value == existing.Revised(data, ts)
                       && db.incomes == Revise(old(db.Snapshot()), Income, incomeId, data, ts).incomes
                       && db.expenses == old(db.expenses)
                       && db.wallets == old(db.wallets)[walletId := old(db.wallets[walletId]).Credited(data.amount - existing.amount, ts)])
    ensures r.Failed? ==> db.Snapshot() == old(db.Snapshot())
    ensures (r.Ok? && Consistent(old(db.Snapshot())) && incomeId in old(db.incomes) && old(db.incomes[incomeId]) == existing
             && walletId == existing.walletId) ==> Consistent(db.Snapshot())
  {
    ghost var before := db.Snapshot();
    UpdateCommits(before, Income, incomeId, walletId, data, existing, ts);
    var ok := db.TransactWrite(UpdateItems(Income, incomeId, walletId, data, existing, ts), available);
    if ok {
      r := Ok(existing.Revised(data, ts));
      if Consistent(before) && incomeId in before.incomes && before.incomes[incomeId] == existing && walletId == existing.walletId {
        UpdateKeepsConsistent(before, Income, existing, data, ts);
      }
    } else {
      r := Failed;
    }
  }

  /** deleteIncome: remove row `incomeId` and take `existing.amount` back from wallet `walletId`. */
  method DeleteIncome(db: Database, incomeId: string, walletId: string, existing: Entry, ts: Timestamp, available: bool)
    returns (ok: bool)
    requires db.Valid()
    modifies db
    ensures db.Valid()
    ensures ok <==> available && walletId in old(db.wallets)
    ensures ok ==> (&& db.incomes == old(db.incomes) - {incomeId}
                    && db.expenses == old(db.expenses)
                    && db.wallets == old(db.wallets)[walletId := old(db.wallets[walletId]).Credited(-existing.amount, ts)])
    ensures !ok ==> db.Snapshot() == old(db.Snapshot())
    ensures (ok && Consistent(old(db.Snapshot())) && incomeId in old(db.incomes) && old(db.incomes[incomeId]) == existing
             && walletId == existing.walletId) ==> Consistent(db.Snapshot())
  {
    ghost var before := db.Snapshot();
    DeleteCommits(before, Income, incomeId, walletId, existing, ts);
    ok := db.TransactWrite(DeleteItems(Income, incomeId, walletId, existing, ts), available);
    if ok && Consistent(before) && incomeId in before.incomes && before.incomes[incomeId] == existing && walletId == existing.walletId {
      DeleteKeepsConsistent(before, Income, existing, ts);
    }
  }
}
