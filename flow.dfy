/** The screen/transaction state machine of the application controller
    (src/app/page.tsx), written as functions on a state value, with the
    invariants the flow keeps and the lemmas about runs of user intents. */
module Flow {
  import opened Types
  import TransferScreen

  datatype AppState = AppState(screen: Screen, balance: real, history: seq<Transaction>, pending: PendingTransaction)

  /** The empty staging record `{amount: 0, recipient: null}`. */
  const NoPending: PendingTransaction := PendingTransaction(0.0, None)

  function Initial(): AppState
  {
    AppState(Home, InitialBalance, [], NoPending)
  }

  /** The sum of the amounts in a history. */
  function Spent(history: seq<Transaction>): real
  {
    if history == [] then 0.0 else history[0].amount + Spent(history[1..])
  }

  /** Switching screens changes nothing but the screen. */
  function NavigateTo(s: AppState, next: Screen): (r: AppState)
    ensures r.screen == next
    ensures r.balance == s.balance && r.history == s.history && r.pending == s.pending
  {
    s.(screen := next)
  }

  /** Staging a transfer shows the review screen, leaves balance and history
      alone, and arms the confirm handler exactly when the amount is positive. */
  function StartTransfer(s: AppState, amount: real, recipient: User): (r: AppState)
    ensures r.screen == Confirmation && r.pending == PendingTransaction(amount, Some(recipient))
    ensures r.balance == s.balance && r.history == s.history
    ensures ConfirmFires(r) <==> amount > 0.0
  {
    s.(pending := PendingTransaction(amount, Some(recipient)), screen := Confirmation)
  }

  /** The confirm handler's guard: a recipient and a positive amount are staged. */
  predicate ConfirmFires(s: AppState)
  {
    s.pending.recipient.Some? && s.pending.amount > 0.0
  }

  /** Confirming debits the staged amount and prepends a debit entry; when the
      guard fails nothing changes. Either way the balance plus everything spent
      is conserved and the old history stays the tail of the new one. */
  function ConfirmTransaction(s: AppState, id: string, date: string): (r: AppState)
    ensures r.balance + Spent(r.history) == s.balance + Spent(s.history)
    ensures |r.history| == |s.history| + (if ConfirmFires(s) then 1 else 0)
    ensures r.history[|r.history| - |s.history|..] == s.history
    ensures !ConfirmFires(s) ==> r == s
  {
    if !ConfirmFires(s) then s
    else
      var txn := Transaction(id, s.pending.amount, s.pending.recipient.value, date, Debit);
      var h := [txn] + s.history;
      assert h[1..] == s.history;
      s.(balance := s.balance - s.pending.amount, history := h, screen := Completion)
  }

  /** Returning home clears the staged transfer, so a confirm after it does
      nothing; balance and history are kept. */
  function Reset(s: AppState): (r: AppState)
    ensures r.screen == Home && r.pending == NoPending && !ConfirmFires(r)
    ensures r.balance == s.balance && r.history == s.history
  {
    s.(pending := NoPending, screen := Home)
  }

  /** The "Balance After" preview the confirmation screen shows. */
  function PreviewBalance(s: AppState): real
  {
    s.balance - s.pending.amount
  }

  /** The callbacks the screens raise. */
  datatype Intent =
    | Send                                      // home: "Send Money"
    | OpenHistory                               // home: "History"
    | TransferBack                              // transfer: back arrow
    | Next(amount: real, recipient: User)       // transfer: "Review Transfer"
    | ConfirmationBack                          // confirmation: back arrow
    | Confirm(id: string, date: string)         // confirmation: "Confirm & Send"
    | Done                                      // completion: "Done"
    | HistoryBack                               // history: back arrow

  /** Whether the mounted screen can raise the intent. The transfer screen
      raises `Next` only with a user from its dropdown and when its guard
      holds; the confirmation screen renders nothing without a recipient. */
  function Offered(s: AppState, i: Intent): (ok: bool)
    ensures ok ==> s.screen == Origin(i)
    ensures ok && i.Next? ==> i.recipient in MockUsers && 0.0 < i.amount <= s.balance
    ensures ok && Origin(i) == Confirmation ==> s.pending.recipient.Some?
    ensures (s.screen == Origin(i) && !i.Next?
             && (Origin(i) == Confirmation ==> s.pending.recipient.Some?)) ==> ok
  {
    match i
    case Send => s.screen == Home
    case OpenHistory => s.screen == Home
    case TransferBack => s.screen == Transfer
    case Next(amount, recipient) =>
      s.screen == Transfer && recipient in MockUsers
      && TransferScreen.CanProceed(Some(amount), Some(recipient), s.balance)
    case ConfirmationBack => s.screen == Confirmation && s.pending.recipient.Some?
    case Confirm(_, _) => s.screen == Confirmation && s.pending.recipient.Some?
    case Done => s.screen == Completion
    case HistoryBack => s.screen == History
  }

  /** The screen that renders each callback, as an independent reference. */
  function Origin(i: Intent): Screen
  {
    match i
    case Send => Home
    case OpenHistory => Home
    case TransferBack => Transfer
    case Next(_, _) => Transfer
    case ConfirmationBack => Confirmation
    case Confirm(_, _) => Confirmation
    case Done => Completion
    case HistoryBack => History
  }

  /** Which handler each callback is wired to. Every callback but a confirm
      leaves balance and history alone and lands where the transition table
      says; a confirm either lands on COMPLETION or changes nothing. */
  function Apply(s: AppState, i: Intent): (r: AppState)
    ensures !i.Confirm? ==> r.screen == Destination(i) && r.balance == s.balance && r.history == s.history
    ensures i.Confirm? ==> r.screen == Destination(i) || r == s
  {
    match i
    case Send => NavigateTo(s, Transfer)
    case OpenHistory => NavigateTo(s, History)
    case TransferBack => NavigateTo(s, Home)
    case Next(amount, recipient) => StartTransfer(s, amount, recipient)
    case ConfirmationBack => NavigateTo(s, Transfer)
    case Confirm(id, date) => ConfirmTransaction(s, id, date)
    case Done => Reset(s)
    case HistoryBack => NavigateTo(s, Home)
  }

  /** The transition table of the state machine, as an independent reference. */
  function Destination(i: Intent): Screen
  {
    match i
    case Send => Transfer
    case OpenHistory => History
    case TransferBack => Home
    case Next(_, _) => Confirmation
    case ConfirmationBack => Transfer
    case Confirm(_, _) => Completion
    case Done => Home
    case HistoryBack => Home
  }

  predicate IsNavigation(i: Intent)
  {
    i.Send? || i.OpenHistory? || i.TransferBack? || i.ConfirmationBack? || i.HistoryBack?
  }

  function Run(s: AppState, trace: seq<Intent>): AppState
    decreases |trace|
  {
    if trace == [] then s else Run(Apply(s, trace[0]), trace[1..])
  }

  /** Every intent of the trace is raised by the screen mounted at that point. */
  predicate Admissible(s: AppState, trace: seq<Intent>)
    decreases |trace|
  {
    trace == [] || (Offered(s, trace[0]) && Admissible(Apply(s, trace[0]), trace[1..]))
  }

  /** The ids of the confirm intents of a trace, in the order they are raised. */
  function ConfirmIds(trace: seq<Intent>): seq<string>
  {
    if trace == [] then []
    else (if trace[0].Confirm? then [trace[0].id] else []) + ConfirmIds(trace[1..])
  }

  predicate WellFormedDebit(t: Transaction)
  {
    t.kind == Debit && t.amount > 0.0 && t.recipient in MockUsers
  }

  /** What the flow keeps: no overdraft, every entry a positive debit to a listed user, a
      staged transfer within the balance while it awaits confirmation, and
      the completion screen describing the newest entry. */
  predicate Inv(s: AppState)
  {
    && s.balance >= 0.0
    && (forall k :: 0 <= k < |s.history| ==> WellFormedDebit(s.history[k]))
    && (s.screen == Confirmation ==>
          s.pending.recipient.Some? && s.pending.recipient.value in MockUsers
          && 0.0 < s.pending.amount <= s.balance)
    && (s.screen == Completion ==>
          s.pending.recipient.Some? && |s.history| > 0
          && s.history[0].amount == s.pending.amount
          && s.history[0].recipient == s.pending.recipient.value)
  }

  lemma InitialInv()
    ensures Inv(Initial())
    ensures Initial().screen == Home && Initial().balance == InitialBalance
    ensures Initial().history == [] && Initial().pending == NoPending
  {
  }

  /** Every offered intent lands on the screen the transition table names;
      pure navigation changes only the screen, and "Done" also clears the
      staged transfer. */
  lemma Transitions(s: AppState, i: Intent)
    requires Inv(s) && Offered(s, i)
    ensures Apply(s, i).screen == Destination(i)
    ensures IsNavigation(i) ==> Apply(s, i) == s.(screen := Destination(i))
    ensures i.Done? ==> Apply(s, i) == s.(screen := Home, pending := NoPending)
    ensures i.Next? ==> Apply(s, i) == s.(screen := Confirmation,
                                          pending := PendingTransaction(i.amount, Some(i.recipient)))
  {
  }

  /** Backing out of the transfer screen and entering it again leaves the
      controller as it was; the form's draft is not kept, since the form is
      mounted afresh (Mounting.Session.Raise). */
  lemma BackAndReenter(s: AppState)
    requires s.screen == Transfer
    ensures Admissible(s, [TransferBack, Send])
    ensures Run(s, [TransferBack, Send]) == s
  {
    assert [TransferBack, Send][1..] == [Send];
  }

  /** A transfer the form lets through and then confirms debits exactly its amount. */
  lemma TransferThenConfirm(s: AppState, amount: real, recipient: User, id: string, date: string)
    requires Inv(s) && Offered(s, Next(amount, recipient))
    ensures Admissible(s, [Next(amount, recipient), Confirm(id, date)])
    ensures Run(s, [Next(amount, recipient), Confirm(id, date)]) ==
            AppState(Completion, s.balance - amount,
                     [Transaction(id, amount, recipient, date, Debit)] + s.history,
                     PendingTransaction(amount, Some(recipient)))
  {
    var mid := StartTransfer(s, amount, recipient);
    assert [Next(amount, recipient), Confirm(id, date)][1..] == [Confirm(id, date)];
    assert Run(mid, [Confirm(id, date)]) == ConfirmTransaction(mid, id, date);
  }

  /** The confirmation screen's "Balance After" is the balance confirming leaves,
      and it is never negative. */
  lemma PreviewMatchesConfirm(s: AppState, id: string, date: string)
    requires Inv(s) && Offered(s, Confirm(id, date))
    ensures ConfirmTransaction(s, id, date).balance == PreviewBalance(s)
    ensures PreviewBalance(s) >= 0.0
  {
  }

  lemma ApplyPreservesInv(s: AppState, i: Intent)
    requires Inv(s) && Offered(s, i)
    ensures Inv(Apply(s, i))
  {
    if i.Confirm? {
      var r := ConfirmTransaction(s, i.id, i.date);
      assert r.history[1..] == s.history;
      forall k | 0 <= k < |r.history|
        ensures WellFormedDebit(r.history[k])
      {
        if k > 0 { assert r.history[k] == s.history[k - 1]; }
      }
    }
  }

  lemma {:induction false} RunPreservesInv(s: AppState, trace: seq<Intent>)
    requires Inv(s) && Admissible(s, trace)
    ensures Inv(Run(s, trace))
    decreases |trace|
  {
    if trace != [] {
      ApplyPreservesInv(s, trace[0]);
      RunPreservesInv(Apply(s, trace[0]), trace[1..]);
    }
  }

  /** From the initial state, whatever the user does through the screens, the
      balance never goes negative, a staged transfer never exceeds it, and the
      balance plus everything in the history is the initial balance. */
  lemma Reachable(trace: seq<Intent>)
    requires Admissible(Initial(), trace)
    ensures Run(Initial(), trace).balance >= 0.0
    ensures Run(Initial(), trace).balance + Spent(Run(Initial(), trace).history) == InitialBalance
    ensures Run(Initial(), trace).screen == Confirmation ==>
              Run(Initial(), trace).pending.amount <= Run(Initial(), trace).balance
  {
    InitialInv();
    RunPreservesInv(Initial(), trace);
    RunConserves(Initial(), trace);
  }

  /** Along any trace, admissible or not, the balance plus everything spent is conserved. */
  lemma {:induction false} RunConserves(s: AppState, trace: seq<Intent>)
    ensures Run(s, trace).balance + Spent(Run(s, trace).history) == s.balance + Spent(s.history)
    decreases |trace|
  {
    if trace != [] {
      RunConserves(Apply(s, trace[0]), trace[1..]);
    }
  }

  /** The part of the invariant that makes every offered confirm take effect. */
  predicate ConfirmReady(s: AppState)
  {
    s.screen == Confirmation ==> s.pending.amount > 0.0
  }

  lemma ApplyKeepsReady(s: AppState, i: Intent)
    requires ConfirmReady(s) && Offered(s, i)
    ensures ConfirmReady(Apply(s, i))
  {
  }

  /** One offered intent adds a history entry exactly when it is a confirm,
      with that confirm's id, in front of the old history. */
  lemma ApplyHistory(s: AppState, i: Intent)
    requires ConfirmReady(s) && Offered(s, i)
    ensures i.Confirm? ==> |Apply(s, i).history| == |s.history| + 1
                           && Apply(s, i).history[0].id == i.id
                           && Apply(s, i).history[1..] == s.history
    ensures !i.Confirm? ==> Apply(s, i).history == s.history
  {
  }

  /** Along an admissible trace every confirm adds exactly one entry, the old
      history is kept unchanged as the tail, and the new entries are listed
      newest first. */
  lemma {:induction false} RunHistory(s: AppState, trace: seq<Intent>)
    requires ConfirmReady(s) && Admissible(s, trace)
    ensures |Run(s, trace).history| == |s.history| + |ConfirmIds(trace)|
    ensures Run(s, trace).history[|ConfirmIds(trace)|..] == s.history
    ensures forall k :: 0 <= k < |ConfirmIds(trace)| ==>
              Run(s, trace).history[k].id == ConfirmIds(trace)[|ConfirmIds(trace)| - 1 - k]
    decreases |trace|
  {
    if trace != [] {
      var i, rest := trace[0], trace[1..];
      var s' := Apply(s, i);
      ApplyKeepsReady(s, i);
      ApplyHistory(s, i);
      RunHistory(s', rest);
      var h := Run(s', rest).history;
      assert Run(s, trace).history == h;
      var c', c := ConfirmIds(rest), ConfirmIds(trace);
      assert c == (if i.Confirm? then [i.id] else []) + c';
      if i.Confirm? {
        assert h[|c|..] == h[|c'|..][1..];
        forall k | 0 <= k < |c|
          ensures h[k].id == c[|c| - 1 - k]
        {
          if k == |c'| {
            assert h[k] == s'.history[0];
          }
        }
      }
    }
  }
}
