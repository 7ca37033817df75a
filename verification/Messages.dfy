/** Wallets known to the service and the messages of the hot wallet, decoded. The jetton bodies are those of
    TEP-74 ("Jetton wallet smart contract"); only the fields the service looks at are kept. */
module Messages {
  import opened Prelude

  datatype WalletType = TonHot | JettonHot | TonDeposit | JettonDeposit | JettonOwner

  datatype AddressInfo = AddressInfo(kind: WalletType, owner: Option<Address>, userId: string)

  type Book = map<Address, AddressInfo>

  predicate IsKind(book: Book, a: Address, kind: WalletType)
  {
    a in book && book[a].kind == kind
  }

  /** The text comment of a message: the text of a uuid the service drew, or anything else. */
  datatype Comment = OfMemo(memo: Memo) | Text(text: string)

  /** Payloads are told apart by their first 32 bits, so a body is of one kind only. Forward is what the
      proxy contract of a jetton deposit takes: a reference to the message to send on. */
  datatype Body =
    | Plain(comment: Comment)
    | Transfer(amount: int, destination: Address, note: Comment)
    | Forward(inner: Message)

  datatype Message = Message(to: Address, value: int, body: Body)

  /** What identifies a message of a batch: the address that receives the value. */
  function Recipient(m: Message): Address
  {
    if m.body.Transfer? then m.body.destination else m.to
  }

  function TotalValue(ms: seq<Message>): int
  {
    if ms == [] then 0 else TotalValue(ms[..|ms| - 1]) + ms[|ms| - 1].value
  }
}
