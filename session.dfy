/** The mounted component tree of src/app/page.tsx: the controller together
    with the transfer form, which exists exactly while the transfer screen is
    showing and is mounted afresh (TransferScreen.tsx:16-18) every time the
    controller switches to it. */
module Mounting {
  import opened Types
  import TransferScreen
  import Flow
  import Page

  class Session {
    const app: Page.App
    var draft: TransferScreen.Draft?

    /** The form is mounted iff the transfer screen shows. */
    ghost predicate Valid()
      reads this, app, draft
    {
      && app.Valid()
      && (draft != null <==> app.screen == Transfer)
      && (draft != null ==> draft.Valid())
    }

    constructor ()
      ensures Valid() && fresh(app)
      ensures app.State() == Flow.Initial() && draft == null
    {
      app := new Page.App();
      draft := null;
    }

    /** A callback of the mounted screen other than the form's "Review
        Transfer". Switching to the transfer screen mounts a fresh form;
        leaving it unmounts the form. */
    method Raise(i: Flow.Intent)
      requires Valid() && !i.Next? && Flow.Offered(app.State(), i)
      modifies this, app
      ensures Valid()
      ensures app.State() == Flow.Apply(old(app.State()), i)
      ensures app.screen == Transfer ==>
                fresh(draft) && draft.amount == None && draft.selectedUser == None && !draft.isDropdownOpen
    {
      app.Dispatch(i);
      if app.screen == Transfer {
        draft := new TransferScreen.Draft();
      } else {
        draft := null;
      }
    }

    /** The form's "Review Transfer" button: when the form's guard holds, its
        amount and recipient are staged and the form is unmounted; otherwise
        nothing happens. */
    method Review() returns (raised: bool)
      requires Valid() && app.screen == Transfer
      modifies this, app
      ensures Valid()
      ensures raised <==> old(TransferScreen.CanProceed(draft.amount, draft.selectedUser, app.balance))
      ensures raised ==> app.State() == Flow.StartTransfer(old(app.State()), old(draft.amount.value),
                                                            old(draft.selectedUser.value))
      ensures !raised ==> app.State() == old(app.State()) && draft == old(draft)
    {
      var intent := draft.ReviewTransfer(app.balance);
      if intent.Some? {
        app.Dispatch(Flow.Next(intent.value.amount, intent.value.recipient));
        draft := null;
        raised := true;
      } else {
        raised := false;
      }
    }
  }
}
