# mock-pay: a verified model of the transfer flow

mock-pay is a single-page mobile-payment prototype. All its state is in memory:
a balance, a newest-first history of transfers, a staged "pending" transfer,
and which of five screens is showing (home, transfer, confirmation,
completion, history). This project models the two pieces of logic in it:

- the application controller (`src/app/page.tsx`), a small state machine
  whose handlers overwrite its four state variables;
- the transfer form (`src/components/TransferScreen.tsx`), whose guard
  enables the "Review Transfer" button, and its local draft state.

Modules:

- `Types` (`types.dfy`): users, transactions, the pending record, screens,
  the four mock users and the initial balance of 10000.
- `TransferScreen` (`transfer_screen.dfy`): `IsValidAmount`, `CanProceed`,
  `InsufficientFunds` as functions, and the class `Draft` holding the form's
  `amount`, `selectedUser` and `isDropdownOpen`, with one method per handler.
- `Flow` (`flow.dfy`): the controller as functions on a state value. It has
  the user intents each screen raises (`Intent`, `Offered`), how they are
  wired to handlers (`Apply`), runs of intents (`Run`, `Admissible`), the
  invariant the flow keeps (`Inv`), and the lemmas about all of these.
- `Page` (`page.dfy`): the class `App` with the four state fields and one
  method per handler. `Dispatch` is the screen switch's callback wiring. It
  is proved to keep `Inv` and to follow `Flow.Apply`.
- `Mounting` (`session.dfy`): the class `Session`, the mounted component
  tree. It owns the `App` and a `Draft` that exists exactly while the
  transfer screen shows. Every switch to the transfer screen mounts a fresh
  `Draft`, and `Next` can only come from the mounted form's button.
- `Scenarios` (`scenarios.dfy`): three sessions driven through `Session`.
  One sends 3000 to Bob Johnson and ends with a balance of 7000. One tries
  to send 15000 and is refused. One fills in the form, goes back home and
  returns, and finds the form empty.

Modelling choices:

- Amounts are `real`, because the number input accepts fractions.
- The parsed amount is an `Option<real>`. `None` stands for `parseFloat`
  returning `NaN`. `Draft.amount` holds the input as `parseFloat` reads it.
- The transaction id and date come from the clock in the source. Here they
  are parameters of the confirm handler and of the `Confirm` intent.
- A screen can raise only the callbacks it renders (`Flow.Offered`).
  - The transfer screen raises `Next` only with a user from its dropdown,
    and only when `CanProceed` holds.
  - The confirmation screen renders nothing when no recipient is staged.
- Mounting the transfer screen is `Draft`'s constructor. `Mounting.Session`
  calls it on every entry to the transfer screen and drops the form on
  leaving, so a draft never survives leaving the screen.

The confirm handler does not compare the amount with the balance. It checks
only for a recipient and a positive amount (src/app/page.tsx:29). That the
debit never overdraws follows from the transfer form's guard: `Flow.Inv`
carries it from `Next` to `Confirm`. Backing out of the confirmation screen
also discards the form's draft, because the transfer screen is mounted again.

## Model

| member | source | states |
|---|---|---|
| `TransferScreen.IsValidAmount` | src/components/TransferScreen.tsx:20-21 | a valid amount is a parsed number and is positive |
| `TransferScreen.CanProceed` | src/components/TransferScreen.tsx:22 | when the button is enabled, a recipient is selected and the insufficient-funds label is hidden |
| `TransferScreen.InsufficientFunds` | src/components/TransferScreen.tsx:92 | the label shows only for a parsed number, and never for an amount the guard accepts |
| `TransferScreen.CanProceedIff` | src/components/TransferScreen.tsx:20-22 | the guard holds iff the amount is a number, 0 < amount <= balance, and a recipient is selected |
| `TransferScreen.GuardBoundaries` | src/components/TransferScreen.tsx:21-22 | the whole balance is accepted; zero, negative and NaN amounts and a missing recipient are rejected |
| `TransferScreen.InsufficientFundsIff` | src/components/TransferScreen.tsx:92 | the label shows iff the parsed amount exceeds the balance, whatever the recipient; never for NaN |
| `TransferScreen.Draft.constructor` | src/components/TransferScreen.tsx:16-18 | a freshly mounted form has an empty amount (NaN), no recipient and a closed dropdown |
| `TransferScreen.Draft.EnterAmount` | src/components/TransferScreen.tsx:80-86 | typing replaces the amount and nothing else |
| `TransferScreen.Draft.ToggleDropdown` | src/components/TransferScreen.tsx:38-39 | the recipient button flips the dropdown and changes nothing else |
| `TransferScreen.Draft.ChooseUser` | src/components/TransferScreen.tsx:55-63 | picking entry k of the open list selects MOCK_USERS[k] and closes the list; the selection is always a listed user |
| `TransferScreen.Draft.ReviewTransfer` | src/components/TransferScreen.tsx:101-104 | onNext is raised iff the guard holds, with exactly the parsed amount and the selected user |
| `Flow.NavigateTo` | src/app/page.tsx:19-21 | switching screens changes the screen and nothing else |
| `Flow.StartTransfer` | src/app/page.tsx:23-26 | staging shows CONFIRMATION with pending exactly {amount, recipient}, balance and history kept, and arms confirm iff the amount is positive |
| `Flow.Reset` | src/app/page.tsx:48-51 | returning home clears pending to {0, null}, so a later confirm does nothing; balance and history kept |
| `Flow.Offered` | src/app/page.tsx:53-98 | a screen raises only the callbacks it renders; Next only with a listed user and when CanProceed holds (src/components/TransferScreen.tsx:103-104); the confirmation screen raises nothing without a staged recipient (src/components/ConfirmationScreen.tsx:22) |
| `Flow.Apply` | src/app/page.tsx:53-98 | each callback runs the handler it is wired to: all but confirm keep balance and history and land on the transition table's screen; confirm lands on COMPLETION or changes nothing |
| `Flow.ConfirmTransaction` | src/app/page.tsx:28-46 | confirm conserves balance plus spending, adds one entry iff the guard holds, keeps the old history as the tail, and is a no-op when the guard fails |
| `Flow.InitialInv` | src/app/page.tsx:14-17 | the initial state is HOME, balance 10000, empty history, pending {0, null}, and satisfies the invariant |
| `Flow.Transitions` | src/app/page.tsx:48-92 | every offered intent lands on the screen of the transition table; navigation changes only the screen; Done also clears pending; Next stages exactly (amount, recipient) |
| `Flow.BackAndReenter` | src/app/page.tsx:59-67 | back from the transfer screen then Send returns the controller to the same state |
| `Flow.TransferThenConfirm` | src/app/page.tsx:23-46 | Next then Confirm debits exactly the amount, prepends a matching debit entry and shows COMPLETION |
| `Flow.PreviewMatchesConfirm` | src/components/ConfirmationScreen.tsx:24 | the "Balance After" preview is the balance confirming leaves, and it is not negative |
| `Flow.ApplyPreservesInv` | src/app/page.tsx:23-51 | every offered intent keeps the invariant (no overdraft, positive debits to listed users, staged amount within the balance) |
| `Flow.RunPreservesInv` | src/app/page.tsx:53-98 | every admissible run of intents keeps the invariant |
| `Flow.Reachable` | src/app/page.tsx:14-46 | from the initial state the balance never goes negative, a staged amount never exceeds it, and balance plus history total is 10000 |
| `Flow.RunConserves` | src/app/page.tsx:32-43 | along any run the balance plus the total of the history is unchanged |
| `Flow.ApplyKeepsReady` | src/app/page.tsx:23-29 | while on CONFIRMATION the staged amount is positive, so confirm takes effect |
| `Flow.ApplyHistory` | src/app/page.tsx:36-43 | a confirm prepends one entry with its id; every other intent leaves the history alone |
| `Flow.RunHistory` | src/app/page.tsx:36-45 | one entry per confirm, old history kept as the tail, new entries newest first |
| `Page.App.constructor` | src/app/page.tsx:14-17 | initial state HOME, 10000, empty history, pending {0, null} |
| `Page.App.NavigateTo` | src/app/page.tsx:19-21 | only the screen changes |
| `Page.App.StartTransfer` | src/app/page.tsx:23-26 | pending becomes exactly {amount, recipient} and the screen CONFIRMATION; balance and history unchanged |
| `Page.App.ConfirmTransaction` | src/app/page.tsx:28-46 | with no recipient or amount <= 0 nothing changes; otherwise debit, prepend a debit entry with the pending amount and recipient, show COMPLETION |
| `Page.App.Reset` | src/app/page.tsx:48-51 | pending becomes {0, null} and the screen HOME; balance and history unchanged |
| `Page.App.Dispatch` | src/app/page.tsx:53-98 | each screen's callback runs its handler as `Flow.Apply` says, and the invariant is kept |
| `Mounting.Session.constructor` | src/app/page.tsx:13-17 | a fresh session is the initial controller state with no form mounted |
| `Mounting.Session.Raise` | src/app/page.tsx:53-98 | a screen callback runs as `Flow.Apply` says and keeps the invariant; entering the transfer screen mounts a fresh, empty form (src/components/TransferScreen.tsx:16-18) and leaving it unmounts the form |
| `Mounting.Session.Review` | src/components/TransferScreen.tsx:101-104 | the mounted form's button stages its amount and recipient iff its guard holds, and otherwise changes nothing |
| `Scenarios.DraftDiscarded` | src/components/TransferScreen.tsx:16-17 | after filling the form, going back and re-entering, the form has no amount, no recipient and a disabled button |
| `Scenarios.SendToBob` | src/app/page.tsx:23-46 | sending 3000 to Bob Johnson from 10000 leaves 7000 and a debit entry of 3000 to user 2 |
| `Scenarios.Overdraft` | src/components/TransferScreen.tsx:92-104 | 15000 out of 10000 shows the label, raises no onNext, and leaves the controller on TRANSFER with 10000 |

## Left out

- Rendering: all JSX, Tailwind styling, the Button, Layout, Home, History and Completion screens, icons. None of them holds state.
- Number formatting with `toLocaleString` and `toLocaleDateString`: locale-dependent library code.
- `parseFloat` and floating point: text parsing and rounding are not modelled. Amounts are exact reals and the parsed value is an input. Infinity is not modelled.
- `Date.now()` and `new Date().toISOString()`: the id and the date are parameters. Ids from the clock may repeat within a millisecond; the model does not claim uniqueness.
- React's update batching, stale closures and double clicks: framework and concurrency behaviour.
- `prisma/seed.ts`: database I/O that the user interface never reads.
- The `credit` transaction type: declared in `src/types.ts`, never produced.
