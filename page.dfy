/** The application controller of src/app/page.tsx: four pieces of state
    overwritten by the handlers, and the callbacks each screen is wired to. */
module Page {
  import opened Types
  import Flow

  /** The controller. The handlers `NavigateTo`, `StartTransfer`,
      `ConfirmTransaction` and `Reset` do exactly what the source's closures
      do and assume nothing about the screen; in the source they are reached
      only through the screens' callbacks, and here `Dispatch` is that route
      and the only entry point that keeps `Valid()`. */
  class App {
    var screen: Screen
    var balance: real
    var history: seq<Transaction>     // newest first
    var pending: PendingTransaction

    function State(): Flow.AppState
      reads this
    {
      Flow.AppState(screen, balance, history, pending)
    }

    /** The controller is in a state the flow keeps (see Flow.Inv). */
    ghost predicate Valid()
      reads this
    {
      Flow.Inv(State())
    }

    constructor ()
      ensures Valid() && State() == Flow.Initial()
      ensures screen == Home && balance == InitialBalance && history == []
      ensures pending == Flow.NoPending
    {
      screen := Home;
      balance := InitialBalance;
      history := [];
      pending := Flow.NoPending;
    }

    method NavigateTo(next: Screen)
      modifies this
      ensures screen == next
      ensures balance == old(balance) && history == old(history) && pending == old(pending)
    {
      screen := next;
    }

    /** Stages the transfer the form let through and shows the review screen. */
    method StartTransfer(amount: real, recipient: User)
      modifies this
      ensures pending == PendingTransaction(amount, Some(recipient)) && screen == Confirmation
      ensures balance == old(balance) && history == old(history)
    {
      pending := PendingTransaction(amount, Some(recipient));
      NavigateTo(Confirmation);
    }

    /** Debits the staged amount and records it, newest first; silently does
        nothing without a recipient or with a non-positive amount. The id and
        the date are the clock readings the source takes. */
    method ConfirmTransaction(id: string, date: string)
      modifies this
      ensures old(pending.recipient.None? || pending.amount <= 0.0) ==>
                screen == old(screen) && balance == old(balance)
                && history == old(history) && pending == old(pending)
      ensures old(pending.recipient.Some? && pending.amount > 0.0) ==>
                && balance == old(balance) - old(pending.amount)
                && history == [Transaction(id, old(pending.amount), old(pending.recipient.value), date, Debit)]
                              + old(history)
                && screen == Completion && pending == old(pending)
    {
      if pending.recipient.None? || pending.amount <= 0.0 {
        return;
      }
      var newBalance := balance - pending.amount;
      balance := newBalance;
      var newTxn := Transaction(id, pending.amount, pending.recipient.value, date, Debit);
      history := [newTxn] + history;
      NavigateTo(Completion);
    }

    /** Clears the staged transfer and returns home. */
    method Reset()
      modifies this
      ensures pending == Flow.NoPending && screen == Home
      ensures balance == old(balance) && history == old(history)
    {
      pending := Flow.NoPending;
      NavigateTo(Home);
    }

    /** The callback wiring of the screen switch: the mounted screen raises an
        intent and the controller runs the handler it is wired to. */
    method Dispatch(i: Flow.Intent)
      requires Valid() && Flow.Offered(State(), i)
      modifies this
      ensures Valid()
      ensures State() == Flow.Apply(old(State()), i)
    {
      Flow.ApplyPreservesInv(State(), i);
      match i
      case Send => NavigateTo(Transfer);
      case OpenHistory => NavigateTo(History);
      case TransferBack => NavigateTo(Home);
      case Next(amount, recipient) => StartTransfer(amount, recipient);
      case ConfirmationBack => NavigateTo(Transfer);
      case Confirm(id, date) => ConfirmTransaction(id, date);
      case Done => Reset();
      case HistoryBack => NavigateTo(Home);
    }
  }
}
