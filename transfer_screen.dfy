/** The transfer form (src/components/TransferScreen.tsx): the guard that
    enables the "Review Transfer" button, the insufficient-funds label, and
    the form's local draft state. */
module TransferScreen {
  import opened Types

  /** The parsed amount is a number, positive, and no more than the balance.
      `numericAmount` is `parseFloat` of the input text, `None` for `NaN`. */
  function IsValidAmount(numericAmount: Option<real>, balance: real): (valid: bool)
    ensures valid ==> numericAmount.Some? && numericAmount.value > 0.0
  {
    numericAmount.Some? && 0.0 < numericAmount.value <= balance
  }

  /** The "Review Transfer" button is enabled exactly when this holds. */
  function CanProceed(numericAmount: Option<real>, selectedUser: Option<User>, balance: real): (ok: bool)
    ensures ok ==> selectedUser.Some? && !InsufficientFunds(numericAmount, balance)
  {
    IsValidAmount(numericAmount, balance) && selectedUser.Some?
  }

  /** Whether the "Insufficient funds" label is shown; a comparison with
      `NaN` is false, so nothing is shown for empty or unparsable input. */
  function InsufficientFunds(numericAmount: Option<real>, balance: real): (shown: bool)
    ensures shown ==> numericAmount.Some? && !IsValidAmount(numericAmount, balance)
  {
    numericAmount.Some? && numericAmount.value > balance
  }

  /** The guard holds iff the amount is a number, 0 < amount <= balance, and a
      recipient is selected. */
  lemma CanProceedIff(numericAmount: Option<real>, selectedUser: Option<User>, balance: real)
    ensures CanProceed(numericAmount, selectedUser, balance) <==>
            (numericAmount.Some? && 0.0 < numericAmount.value && numericAmount.value <= balance
             && selectedUser.Some?)
  {
  }

  /** Boundaries: the whole balance may be sent; zero, negative and NaN amounts never. */
  lemma GuardBoundaries(amount: real, user: User, balance: real)
    ensures balance > 0.0 ==> CanProceed(Some(balance), Some(user), balance)
    ensures amount <= 0.0 ==> !CanProceed(Some(amount), Some(user), balance)
    ensures !CanProceed(None, Some(user), balance)
    ensures !CanProceed(Some(amount), None, balance)
  {
  }

  /** The label depends only on the amount and the balance, never on the
      recipient. When it shows, no choice of recipient enables the button;
      when a positive amount does not raise it, every recipient does. */
  lemma InsufficientFundsIff(numericAmount: Option<real>, balance: real)
    ensures InsufficientFunds(numericAmount, balance) <==>
            (numericAmount.Some? && numericAmount.value > balance)
    ensures numericAmount.None? ==> !InsufficientFunds(numericAmount, balance)
    ensures InsufficientFunds(numericAmount, balance) ==>
              forall user: Option<User> :: !CanProceed(numericAmount, user, balance)
    ensures numericAmount.Some? && numericAmount.value > 0.0 && !InsufficientFunds(numericAmount, balance) ==>
              forall user: User :: CanProceed(numericAmount, Some(user), balance)
  {
  }

  /** What the "Review Transfer" button hands to `onNext`. */
  datatype NextIntent = NextIntent(amount: real, recipient: User)

  /** The form's local state while the transfer screen is mounted. The amount
      field holds the input as `parseFloat` reads it. */
  class Draft {
    var amount: Option<real>
    var selectedUser: Option<User>
    var isDropdownOpen: bool

    /** A selected recipient always comes from the dropdown's list. */
    ghost predicate Valid()
      reads this
    {
      selectedUser.Some? ==> selectedUser.value in MockUsers
    }

    /** Mounting the screen: empty input (parsed as NaN), no recipient, dropdown closed.
        Every entry to the transfer screen mounts it afresh, so a draft never
        survives leaving the screen. */
    constructor ()
      ensures Valid()
      ensures amount == None && selectedUser == None && !isDropdownOpen
    {
      amount := None;
      selectedUser := None;
      isDropdownOpen := false;
    }

    /** The amount input's change handler, given the new text as `parseFloat` reads it. */
    method EnterAmount(parsed: Option<real>)
      requires Valid()
      modifies this
      ensures Valid()
      ensures amount == parsed
      ensures selectedUser == old(selectedUser) && isDropdownOpen == old(isDropdownOpen)
    {
      amount := parsed;
    }

    /** The recipient button flips the dropdown. */
    method ToggleDropdown()
      requires Valid()
      modifies this
      ensures Valid()
      ensures isDropdownOpen == !old(isDropdownOpen)
      ensures amount == old(amount) && selectedUser == old(selectedUser)
    {
      isDropdownOpen := !isDropdownOpen;
    }

    /** Clicking entry `k` of the open dropdown selects that user and closes the list. */
    method ChooseUser(k: nat)
      requires Valid()
      requires isDropdownOpen && k < |MockUsers|
      modifies this
      ensures Valid()
      ensures selectedUser == Some(MockUsers[k]) && !isDropdownOpen
      ensures amount == old(amount)
    {
      selectedUser := Some(MockUsers[k]);
      isDropdownOpen := false;
    }

    /** The "Review Transfer" button: `onNext` is raised exactly when the
        button is enabled, with the parsed amount and the selected user. */
    method ReviewTransfer(balance: real) returns (intent: Option<NextIntent>)
      requires Valid()
      ensures intent.Some? <==> CanProceed(amount, selectedUser, balance)
      ensures intent.Some? ==> amount == Some(intent.value.amount)
      ensures intent.Some? ==> selectedUser == Some(intent.value.recipient)
      ensures intent.Some? ==> intent.value.recipient in MockUsers
                               && 0.0 < intent.value.amount <= balance
    {
      var enabled := CanProceed(amount, selectedUser, balance);
      if enabled && selectedUser.Some? {
        intent := Some(NextIntent(amount.value, selectedUser.value));
      } else {
        intent := None;
      }
    }
  }
}
