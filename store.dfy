/** The document store behind the services: three tables (wallets, incomes, expenses), each keyed
    by the row's `id`. A write is described by an `Item`; `put`/`update`/`delete` apply one item,
    `transactWrite` applies a list of items all or nothing. */
module Store {
  import opened Models

  /** A snapshot of the three tables. */
  datatype Db = Db(wallets: map<string, Wallet>, incomes: map<string, Entry>, expenses: map<string, Entry>)
  {
    /** The table that holds entries of `kind`. */
    function Rows(kind: Kind): map<string, Entry> {
      if kind == Income then incomes else expenses
    }

    /** This snapshot with the table of `kind` replaced by `rows`. */
    function WithRows(kind: Kind, rows: map<string, Entry>): Db {
      if kind == Income then this.(incomes := rows) else this.(expenses := rows)
    }
  }

  /** Every row is stored under its own `id` (the tables' partition key is the `id` attribute). */
  predicate Keyed(db: Db) {
    && (forall k | k in db.wallets :: db.wallets[k].id == k)
    && (forall k | k in db.incomes :: db.incomes[k].id == k)
    && (forall k | k in db.expenses :: db.expenses[k].id == k)
  }

  /** One write of a transaction (or a single put/update/delete). */
  datatype Item =
    | PutWalletRow(wallet: Wallet)
      // `SET name, description, startingBalance, currentBalance = currentBalance + diff, updatedAt`
    | SetWalletFields(walletId: string, walletData: WalletData, diff: int, ts: Timestamp)
    | DeleteWalletRow(walletId: string)
    | PutEntryRow(kind: Kind, entry: Entry)
      // `SET name, type, amount, updatedAt` on an income or expense row
    | SetEntryFields(kind: Kind, entryId: string, entryData: EntryData, ts: Timestamp)
      // `SET currentBalance = currentBalance + delta, updatedAt` on a wallet row
    | AddToBalance(walletId: string, delta: int, ts: Timestamp)
    | DeleteEntryRow(kind: Kind, entryId: string)

  /** The wallet `walletId` with its balance moved by `delta`. */
  function Adjust(db: Db, walletId: string, delta: int, ts: Timestamp): (r: Db)
    requires walletId in db.wallets
    ensures walletId in r.wallets && r.incomes == db.incomes && r.expenses == db.expenses
    ensures r.wallets[walletId].currentBalance == db.wallets[walletId].currentBalance + delta
    ensures r.wallets[walletId].startingBalance == db.wallets[walletId].startingBalance
    ensures forall k | k != walletId :: (k in r.wallets <==> k in db.wallets) && (k in r.wallets ==> r.wallets[k] == db.wallets[k])
  {
    db.(wallets := db.wallets[walletId := db.wallets[walletId].Credited(delta, ts)])
  }

  /** The row `entryId` of `kind` with name, type, amount and updatedAt replaced. An update of an
      absent key creates the row (the store has no condition on it); the attributes it does not set
      are absent from such a row and read here as "". */
  function Revise(db: Db, kind: Kind, entryId: string, data: EntryData, ts: Timestamp): Db {
    var rows := db.Rows(kind);
    var row := if entryId in rows then rows[entryId].Revised(data, ts)
               else Entry(entryId, "", "", data.name, data.category, data.amount, "", ts);
    db.WithRows(kind, rows[entryId := row])
  }

  /** The effect of one item, or None when the store rejects it: an update expression that adds to
      `currentBalance` refers to an attribute of a row that does not exist. */
  function ApplyItem(db: Db, item: Item): Option<Db> {
    match item
    case PutWalletRow(w) => Some(db.(wallets := db.wallets[w.id := w]))
    case SetWalletFields(id, data, diff, ts) =>
      if id in db.wallets then Some(db.(wallets := db.wallets[id := db.wallets[id].Rebased(data, diff, ts)]))
      else None
    case DeleteWalletRow(id) => Some(db.(wallets := db.wallets - {id}))
    case PutEntryRow(kind, e) => Some(db.WithRows(kind, db.Rows(kind)[e.id := e]))
    case SetEntryFields(kind, id, data, ts) => Some(Revise(db, kind, id, data, ts))
    case AddToBalance(id, delta, ts) => if id in db.wallets then Some(Adjust(db, id, delta, ts)) else None
    case DeleteEntryRow(kind, id) => Some(db.WithRows(kind, db.Rows(kind) - {id}))
  }

  /** The items applied in order; None as soon as one is rejected. */
  function ApplyItems(db: Db, items: seq<Item>): Option<Db>
    decreases |items|
  {
    if items == [] then Some(db)
    else
      match ApplyItem(db, items[0])
      case None => None
      case Some(next) => ApplyItems(next, items[1..])
  }

  /** Applying `a + b` is applying `a`, then `b` to its result. */
  lemma {:induction false} ApplyConcat(db: Db, a: seq<Item>, b: seq<Item>)
    ensures ApplyItems(db, a + b) == match ApplyItems(db, a) case None => None case Some(mid) => ApplyItems(mid, b)
    decreases |a|
  {
    if a == [] {
      assert a + b == b;
    } else {
      assert (a + b)[0] == a[0];
      assert (a + b)[1..] == a[1..] + b;
      match ApplyItem(db, a[0])
      case None =>
      case Some(next) => ApplyConcat(next, a[1..], b);
    }
  }

  /** A two-item transaction: the second item sees the first one's effect. */
  lemma ApplyPair(db: Db, first: Item, second: Item)
    ensures ApplyItems(db, [first, second]) == match ApplyItem(db, first) case None => None case Some(mid) => ApplyItem(mid, second)
  {
    assert [first, second][1..] == [second];
    match ApplyItem(db, first)
    case None =>
    case Some(mid) =>
      assert [second][1..] == [];
      match ApplyItem(mid, second)
      case None =>
      case Some(last) => assert ApplyItems(last, []) == Some(last);
  }

  /** No item moves a row away from its own key. */
  lemma ApplyItemKeepsKeyed(db: Db, item: Item)
    requires Keyed(db) && ApplyItem(db, item).Some?
    ensures Keyed(ApplyItem(db, item).value)
  {
    match item
    case PutWalletRow(w) =>
    case SetWalletFields(id, data, diff, ts) =>
    case DeleteWalletRow(id) =>
    case PutEntryRow(kind, e) =>
      if kind == Income { } else { }
    case SetEntryFields(kind, id, data, ts) =>
      if kind == Income { } else { }
    case AddToBalance(id, delta, ts) =>
    case DeleteEntryRow(kind, id) =>
      if kind == Income { } else { }
  }

  lemma {:induction false} ApplyItemsKeepsKeyed(db: Db, items: seq<Item>)
    requires Keyed(db) && ApplyItems(db, items).Some?
    ensures Keyed(ApplyItems(db, items).value)
    decreases |items|
  {
    if items != [] {
      ApplyItemKeepsKeyed(db, items[0]);
      ApplyItemsKeepsKeyed(ApplyItem(db, items[0]).value, items[1..]);
    }
  }

  /** The rows of `rows` that belong to wallet `walletId` (a query on the walletId index, or a
      scan with a filter on walletId). */
  function OfWallet(rows: map<string, Entry>, walletId: string): (r: map<string, Entry>)
    ensures forall k :: k in r <==> k in rows && rows[k].walletId == walletId
    ensures forall k | k in r :: r[k] == rows[k]
  {
    map k | k in rows && rows[k].walletId == walletId :: rows[k]
  }

  /** The wallets of user `userId` (a scan with a filter on userId). */
  function OfUser(wallets: map<string, Wallet>, userId: string): (r: map<string, Wallet>)
    ensures forall k :: k in r <==> k in wallets && wallets[k].userId == userId
    ensures forall k | k in r :: r[k] == wallets[k]
  {
    map k | k in wallets && wallets[k].userId == userId :: wallets[k]
  }

  /** The in-memory store: the three tables, changed in place by the writes. */
  class Database {
    var wallets: map<string, Wallet>
    var incomes: map<string, Entry>
    var expenses: map<string, Entry>

    constructor ()
      ensures Snapshot() == Db(map[], map[], map[]) && Valid()
    {
      wallets, incomes, expenses := map[], map[], map[];
    }

    function Snapshot(): Db
      reads this
    {
      Db(wallets, incomes, expenses)
    }

    predicate Valid()
      reads this
    {
      Keyed(Snapshot())
    }

    /** A single `put`, `update` or `delete`; `available` is false when the store fails the call
        for its own reasons (throttling, unavailability). */
    method Write(item: Item, available: bool) returns (ok: bool)
      requires Valid()
      modifies this
      ensures Valid()
      ensures ok <==> available && ApplyItem(old(Snapshot()), item).Some?
      ensures ok ==> Snapshot() == ApplyItem(old(Snapshot()), item).value
      ensures !ok ==> Snapshot() == old(Snapshot())
    {
      var next := ApplyItem(Snapshot(), item);
      if available && next.Some? {
        ApplyItemKeepsKeyed(Snapshot(), item);
        wallets, incomes, expenses := next.value.wallets, next.value.incomes, next.value.expenses;
        ok := true;
      } else {
        ok := false;
      }
    }

    /** `transactWrite`: every item takes effect, or none does. */
    method TransactWrite(items: seq<Item>, available: bool) returns (ok: bool)
      requires Valid()
      modifies this
      ensures Valid()
      ensures ok <==> available && ApplyItems(old(Snapshot()), items).Some?
      ensures ok ==> Snapshot() == ApplyItems(old(Snapshot()), items).value
      ensures !ok ==> Snapshot() == old(Snapshot())
    {
      var next := ApplyItems(Snapshot(), items);
      if available && next.Some? {
        ApplyItemsKeepsKeyed(Snapshot(), items);
        wallets, incomes, expenses := next.value.wallets, next.value.incomes, next.value.expenses;
        ok := true;
      } else {
        ok := false;
      }
    }
  }
}
