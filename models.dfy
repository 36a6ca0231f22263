/** Record shapes of the wallet store (server/models/wallet.ts, income.ts, expense.ts).
    Amounts are integers; timestamps are opaque ISO strings supplied by the caller. */
module Models {

  datatype Option<T> = None | Some(value: T)

  /** Outcome of a service call: the value it returns, or the exception the store raised. */
  datatype Result<T> = Ok(value: T) | Failed

  /** An ISO-8601 time stamp; only compared for equality. */
  type Timestamp = string

  /** The body fields of a wallet (IBaseWallet). */
  datatype WalletData = WalletData(name: string, description: string, startingBalance: int, currentBalance: int)

  /** A stored wallet row (IWalletDB). */
  datatype Wallet = Wallet(
    id: string,
    userId: string,
    name: string,
    description: string,
    startingBalance: int,
    currentBalance: int,
    createdAt: Timestamp,
    updatedAt: Timestamp)
  {
    /** The row after the update expression of updateWallet: new name, description and starting
        balance, the current balance moved by `diff`. */
    function Rebased(data: WalletData, diff: int, ts: Timestamp): (w: Wallet)
      ensures w.id == id && w.userId == userId && w.createdAt == createdAt
    {
      this.(name := data.name, description := data.description, startingBalance := data.startingBalance,
            currentBalance := currentBalance + diff, updatedAt := ts)
    }

    /** The row after `SET currentBalance = currentBalance + delta, updatedAt = ts`. */
    function Credited(delta: int, ts: Timestamp): Wallet {
      this.(currentBalance := currentBalance + delta, updatedAt := ts)
    }
  }

  /** Incomes and expenses share one shape and live in two tables. */
  datatype Kind = Income | Expense

  /** The other of the two entry tables. */
  function Opposite(kind: Kind): Kind {
    if kind == Income then Expense else Income
  }

  /** The body fields of an income or expense (IBaseIncome / IBaseExpense); `category` is the
      source's `type` field, a reserved word here. */
  datatype EntryData = EntryData(name: string, category: string, amount: int)

  /** A stored income or expense row (IIncomeDB / IExpenseDB). */
  datatype Entry = Entry(
    id: string,
    walletId: string,
    userId: string,
    name: string,
    category: string,
    amount: int,
    createdAt: Timestamp,
    updatedAt: Timestamp)
  {
    /** The row after `SET name, type, amount, updatedAt`. */
    function Revised(data: EntryData, ts: Timestamp): (e: Entry)
      ensures e.id == id && e.walletId == walletId && e.userId == userId && e.createdAt == createdAt
    {
      this.(name := data.name, category := data.category, amount := data.amount, updatedAt := ts)
    }
  }
}
