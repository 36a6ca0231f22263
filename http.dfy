/** The responses the request handlers return: a status code and a JSON body. */
module Http {
  import opened Models

  /** What a handler serialises into the body. A listing is keyed by row id; the order of the
      scanned rows is not modelled. A 500 body also carries the caught error, which is not
      modelled. */
  datatype Body =
    | Message(text: string)
    | OneWallet(wallet: Wallet)
    | Wallets(wallets: map<string, Wallet>)
    | OneEntry(entry: Entry)
    | Entries(entries: map<string, Entry>)

  datatype Response = Response(statusCode: int, body: Body)

  /** The outcome of a handler's checks before it touches the store: the error response it
      returns, or the row it may act on. */
  datatype Verdict<T> = Deny(response: Response) | Grant(row: T)

  /** `if (!param)` in a handler passes exactly the path parameters that are present and not the
      empty string. */
  predicate Present(param: Option<string>) {
    param.Some? && param.value != ""
  }

  /** `{ statusCode, body: JSON.stringify({ message: text }) }` */
  function Reply(statusCode: int, text: string): Response {
    Response(statusCode, Message(text))
  }

  /** The answer to a call that returns the stored row: 200 with the row, or `failed` when the
      call threw. */
  function RowReply(r: Result<Entry>, failed: Response): Response {
    match r
    case Ok(row) => Response(200, OneEntry(row))
    case Failed => failed
  }
}
