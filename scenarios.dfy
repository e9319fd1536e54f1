/** Three user sessions driven through the mounted screens. */
module Scenarios {
  import opened Types
  import TransferScreen
  import Flow
  import Mounting

  /** Send 3000 to Bob Johnson from a fresh session. */
  method SendToBob(id: string, date: string) returns (balance: real, latest: Transaction, screen: Screen)
    ensures balance == 7000.0 && screen == Completion
    ensures latest == Transaction(id, 3000.0, User("2", "Bob Johnson", "BJ"), date, Debit)
  {
    var session := new Mounting.Session();
    session.Raise(Flow.Send);
    var form := session.draft;
    form.ToggleDropdown();
    form.ChooseUser(1);
    form.EnterAmount(Some(3000.0));
    var raised := session.Review();
    session.Raise(Flow.Confirm(id, date));
    balance, latest, screen := session.app.balance, session.app.history[0], session.app.screen;
  }

  /** Asking to send 15000 out of 10000: the label shows, the button stays
      disabled, and the controller stays on the transfer screen untouched. */
  method Overdraft() returns (raised: bool, warned: bool, balance: real, screen: Screen)
    ensures !raised && warned
    ensures balance == 10000.0 && screen == Transfer
  {
    var session := new Mounting.Session();
    session.Raise(Flow.Send);
    var form := session.draft;
    form.ToggleDropdown();
    form.ChooseUser(1);
    form.EnterAmount(Some(15000.0));
    warned := TransferScreen.InsufficientFunds(form.amount, session.app.balance);
    raised := session.Review();
    balance, screen := session.app.balance, session.app.screen;
  }

  /** Filling in the form, going back home and entering the transfer screen
      again: the form is empty and the button is disabled. */
  method DraftDiscarded() returns (amount: Option<real>, recipient: Option<User>, enabled: bool)
    ensures amount == None && recipient == None && !enabled
  {
    var session := new Mounting.Session();
    session.Raise(Flow.Send);
    var form := session.draft;
    form.ToggleDropdown();
    form.ChooseUser(1);
    form.EnterAmount(Some(3000.0));
    session.Raise(Flow.TransferBack);
    session.Raise(Flow.Send);
    amount, recipient := session.draft.amount, session.draft.selectedUser;
    enabled := TransferScreen.CanProceed(amount, recipient, session.app.balance);
  }
}
