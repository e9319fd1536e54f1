/** Data types and constants shared by the screens and the controller
    (src/types.ts and src/constants.ts). */
module Types {

  /** `None` stands for JavaScript's `null`, or for `NaN` where a parsed number is meant. */
  datatype Option<+T> = None | Some(value: T)

  /** The five mutually exclusive views of the application. */
  datatype Screen = Home | Transfer | Confirmation | Completion | History

  datatype User = User(id: string, name: string, initials: string)

  datatype TxnType = Debit | Credit

  /** A confirmed transfer; `kind` is the source's `type` field. */
  datatype Transaction = Transaction(id: string, amount: real, recipient: User, date: string, kind: TxnType)

  /** The staging record filled by the transfer form and read by the confirm handler. */
  datatype PendingTransaction = PendingTransaction(amount: real, recipient: Option<User>)

  /** The fixed list of recipients offered by the dropdown. */
  const MockUsers: seq<User> := [
    User("1", "Alice Walker", "AW"),
    User("2", "Bob Johnson", "BJ"),
    User("3", "Charlie Davis", "CD"),
    User("4", "Diana Prince", "DP")
  ]

  const InitialBalance: real := 10000.0
}
