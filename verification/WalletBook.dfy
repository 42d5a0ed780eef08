/** The double-entry book beside the wallet, flashsale/pay/models/user.py and
    flashsale/xiaolumm/models/account.py: what it says about cash-outs and rebates, and how its purse
    follows the stored balance. */
module WalletBook {
  import opened PyText
  import opened Wallet

  // ---- The book ----

  /** What the book says about cash-outs and rebates is what the logs say, and it sums to nothing. */
  predicate Booked(st: State) {
    && Balance(st.entries, CashoutPending) == Total(st.logs, OfPendingCashout)
    && Balance(st.entries, CashoutConfirmed) == Total(st.logs, OfConfirmedCashout)
    && Balance(st.entries, Fanli) == -Total(st.logs, OfRebate)
    && Grand(st.entries) == 0
  }

  /** How one subject's balance moves when the entries of one operation are added. */
  ghost predicate Posts(added: seq<Entry>, was: int, becomes: int, subject: Subject) {
    Balance(added, subject) == becomes - was && Grand(added) == 0
  }

  /** The entries move each of these subjects from the share of one log to that of another. */
  ghost predicate PostsChange(added: seq<Entry>, was: Log, log: Log) {
    && Posts(added, PendingCashoutOf(was), PendingCashoutOf(log), CashoutPending)
    && Posts(added, ConfirmedCashoutOf(was), ConfirmedCashoutOf(log), CashoutConfirmed)
    && Posts(added, -RebateOf(was), -RebateOf(log), Fanli)
  }

  lemma EntriesAppend(entries: seq<Entry>, added: seq<Entry>)
    ensures Balance(entries + added, CashoutPending)
         == Balance(entries, CashoutPending) + Balance(added, CashoutPending)
    ensures Balance(entries + added, CashoutConfirmed)
         == Balance(entries, CashoutConfirmed) + Balance(added, CashoutConfirmed)
    ensures Balance(entries + added, Fanli) == Balance(entries, Fanli) + Balance(added, Fanli)
    ensures Grand(entries + added) == Grand(entries) + Grand(added)
  {
    BalanceAppend(entries, added, CashoutPending);
    BalanceAppend(entries, added, CashoutConfirmed);
    BalanceAppend(entries, added, Fanli);
  }

  lemma BookedUpdate(st: State, k: nat, log: Log, added: seq<Entry>, budget: Option<Budget>)
    requires Booked(st) && k < |st.logs| && PostsChange(added, st.logs[k], log)
    ensures Booked(State(st.logs[k := log], budget, st.entries + added))
  {
    EntriesAppend(st.entries, added);
    TotalUpdate(st.logs, k, log, OfPendingCashout);
    TotalUpdate(st.logs, k, log, OfConfirmedCashout);
    TotalUpdate(st.logs, k, log, OfRebate);
  }

  lemma BookedAppend(st: State, log: Log, added: seq<Entry>, budget: Option<Budget>)
    requires Booked(st) && PostsChange(added, log.(status := Canceled), log)
    ensures Booked(State(st.logs + [log], budget, st.entries + added))
  {
    EntriesAppend(st.entries, added);
    TotalAppend(st.logs, log, OfPendingCashout);
    TotalAppend(st.logs, log, OfConfirmedCashout);
    TotalAppend(st.logs, log, OfRebate);
  }

  lemma PairPosts(debit: Subject, lender: Subject, amount: int)
    requires debit != lender
    ensures Grand(Pair(debit, lender, amount)) == 0
    ensures Balance(Pair(debit, lender, amount), CashoutPending)
         == if lender == CashoutPending then amount else if debit == CashoutPending then -amount else 0
    ensures Balance(Pair(debit, lender, amount), CashoutConfirmed)
         == if lender == CashoutConfirmed then amount else if debit == CashoutConfirmed then -amount else 0
    ensures Balance(Pair(debit, lender, amount), Fanli)
         == if lender == Fanli then amount else if debit == Fanli then -amount else 0
    ensures Balance(Pair(debit, lender, amount), Purse)
         == if lender == Purse then amount else if debit == Purse then -amount else 0
  {
    BalancePair(debit, lender, amount, CashoutPending);
    BalancePair(debit, lender, amount, CashoutConfirmed);
    BalancePair(debit, lender, amount, Fanli);
    BalancePair(debit, lender, amount, Purse);
  }

  lemma CreatePosts(dir: Direction, kind: Kind, flow: int, status: Status, balance: int)
    requires status != Canceled
    ensures var log := Log(dir, kind, flow, status, balance);
      PostsChange(CreateEntries(dir, kind, status, flow), log.(status := Canceled), log)
  {
    if dir == In {
      PairPosts(Fanli, Purse, flow);
      PairPosts(IncomeRefund, Purse, flow);
      PairPosts(MamaConfirm, Purse, flow);
      PairPosts(Envelopes, Purse, flow);
    } else {
      PairPosts(Purse, Receipts, flow);
      PairPosts(Purse, CashoutPending, flow);
      PairPosts(Purse, CashoutConfirmed, flow);
    }
  }

  lemma ConfirmPosts(log: Log, seen: Status, balance: int)
    requires seen != Confirmed
    requires seen == log.status || (log.status == Canceled && seen == Pending && log.kind == Consum)
    ensures PostsChange(ConfirmEntries(log, seen), log, log.(status := Confirmed, balance := balance))
  {
    PairPosts(Fanli, Purse, log.flow);
    PairPosts(CashoutPending, CashoutConfirmed, log.flow);
    PairPosts(Purse, CashoutConfirmed, log.flow);
  }

  lemma CancelPosts(log: Log, balance: int)
    requires log.status != Canceled
    ensures PostsChange(CancelEntries(log), log, log.(status := Canceled, balance := balance))
  {
    PairPosts(Purse, Fanli, log.flow);
    PairPosts(CashoutPending, Purse, log.flow);
    PairPosts(CashoutConfirmed, Purse, log.flow);
  }

  lemma ConfirmBooked(st: State, k: nat, seen: Status)
    requires Booked(st) && k < |st.logs|
    requires seen == st.logs[k].status
          || (st.logs[k].status == Canceled && seen == Pending && st.logs[k].kind == Consum)
    ensures Booked(ConfirmAs(st, k, seen))
  {
    var end := ConfirmAs(st, k, seen);
    if seen != Confirmed && st.budget.Some? {
      ConfirmPosts(st.logs[k], seen, end.logs[k].balance);
      BookedUpdate(st, k, end.logs[k], ConfirmEntries(st.logs[k], seen), end.budget);
    }
  }

  lemma CreateBooked(st: State, dir: Direction, flow: int, kind: Kind, status: Option<Status>)
    requires Booked(st)
    ensures var r := Create(st, dir, flow, kind, status); r.Some? ==> Booked(r.value)
  {
    var r := Create(st, dir, flow, kind, status);
    if r.Some? {
      var log := r.value.logs[|st.logs|];
      CreatePosts(dir, kind, flow, log.status, log.balance);
      BookedAppend(st, log, CreateEntries(dir, kind, log.status, flow), r.value.budget);
    }
  }

  /** Every operation, even the one that forgets to charge, keeps the book in step with the logs: what
      is pending and what is paid out as cash, what was paid as rebates, and nothing out of thin air. */
  lemma StepBooked(st: State, op: Op)
    requires Booked(st) && Enabled(st, op)
    ensures Booked(Apply(st, op))
  {
    match op
    case OpCreate(dir, flow, kind, status) => CreateBooked(st, dir, flow, kind, status);
    case OpConfirm(k) => ConfirmBooked(st, k, st.logs[k].status);
    case OpCancel(k) =>
      var end := Cancel(st, k);
      if end != st {
        CancelPosts(st.logs[k], end.logs[k].balance);
        BookedUpdate(st, k, end.logs[k], CancelEntries(st.logs[k]), end.budget);
      }
    case OpCharge(k) => ConfirmBooked(st, k, if st.logs[k].status == Canceled then Pending else st.logs[k].status);
    case OpRevise(k, amount) =>
      var log := st.logs[k].(flow := amount);
      TotalUpdate(st.logs, k, log, OfPendingCashout);
      TotalUpdate(st.logs, k, log, OfConfirmedCashout);
      TotalUpdate(st.logs, k, log, OfRebate);
    case OpTask => TaskBooked(st);
  }

  lemma TaskBooked(st: State)
    requires Booked(st)
    ensures Booked(Recompute(st))
  {
    var due := Due(st.logs);
    var delta := if st.budget.Some? then due.amount - st.budget.value.amount else 0;
    var added := Recompute(st).entries[|st.entries|..];
    assert Recompute(st).entries == st.entries + added;
    PairPosts(Receipts, Purse, delta);
    PairPosts(Purse, Receipts, -delta);
    EntriesAppend(st.entries, added);
  }

  /** The book stays in step with the logs over every run. */
  lemma {:induction false} RunBooked(st: State, ops: seq<Op>)
    requires Booked(st) && IsRun(st, ops)
    ensures Booked(End(st, ops))
    decreases |ops|
  {
    if ops != [] {
      StepBooked(st, ops[0]);
      RunBooked(Apply(st, ops[0]), ops[1..]);
    }
  }

  // ---- Which subject receives what ----

  predicate AskedConfirmed(status: Option<Status>) {
    status == None || status == Some(Confirmed)
  }

  /** What a new log is to book on each subject but the purse. */
  function CreateBooking(dir: Direction, flow: int, kind: Kind, status: Option<Status>, subject: Subject): int {
    match subject
    case Fanli =>
      if dir == In && AskedConfirmed(status) && (kind == Click || kind == Order || kind == Award) then -flow else 0
    case IncomeRefund => if dir == In && AskedConfirmed(status) && kind == Refund then -flow else 0
    case MamaConfirm => if dir == In && AskedConfirmed(status) && kind == MamaCash then -flow else 0
    case Envelopes => if dir == In && AskedConfirmed(status) && kind == Envelope then -flow else 0
    case Receipts => if dir == Out && status != Some(Canceled) && kind == Consum then flow else 0
    case CashoutPending => if dir == Out && status == Some(Pending) && kind == Cashout then flow else 0
    case CashoutConfirmed => if dir == Out && AskedConfirmed(status) && kind == Cashout then flow else 0
    case Purse => 0
  }

  /** What a log is to book that is confirmed from the given status. */
  function ConfirmBooking(log: Log, seen: Status, subject: Subject): int {
    if seen == Confirmed then 0
    else if subject == Fanli && log.dir == In && IsRebate(log.kind) then -log.flow
    else if subject == CashoutPending && log.dir == Out && log.kind == Cashout && seen == Pending then -log.flow
    else if subject == CashoutConfirmed && log.dir == Out && log.kind == Cashout then log.flow
    else 0
  }

  /** What a log is to book that is canceled. */
  function CancelBooking(log: Log, subject: Subject): int {
    if subject == Fanli && log.dir == In && IsRebate(log.kind) && log.status == Confirmed then log.flow
    else if subject == CashoutPending && log.dir == Out && log.kind == Cashout && log.status == Pending
    then -log.flow
    else if subject == CashoutConfirmed && log.dir == Out && log.kind == Cashout && log.status == Confirmed
    then -log.flow
    else 0
  }

  function Booking(st: State, op: Op, subject: Subject): int
    requires Enabled(st, op)
  {
    match op
    case OpCreate(dir, flow, kind, status) => CreateBooking(dir, flow, kind, status, subject)
    case OpConfirm(k) => if st.budget.None? then 0 else ConfirmBooking(st.logs[k], st.logs[k].status, subject)
    case OpCancel(k) => if st.budget.None? then 0 else CancelBooking(st.logs[k], subject)
    case OpCharge(_) => 0
    case OpRevise(_, _) => 0
    case OpTask =>
      if subject == Receipts && st.budget.Some? then st.budget.value.amount - Due(st.logs).amount else 0
  }

  lemma StepBooks(st: State, op: Op, subject: Subject)
    requires Enabled(st, op) && subject != Purse
    ensures Balance(Apply(st, op).entries, subject) == Balance(st.entries, subject) + Booking(st, op, subject)
  {
    match op
    case OpCreate(dir, flow, kind, status) =>
      if status != Some(Canceled) {
        var s := if status.Some? then status.value else Confirmed;
        CreateBooks(dir, kind, status, flow, subject);
        BalanceAppend(st.entries, CreateEntries(dir, kind, s, flow), subject);
      }
    case OpConfirm(k) => ConfirmBooks(st, k, st.logs[k].status, subject);
    case OpCancel(k) =>
      CancelBooks(st.logs[k], subject);
      BalanceAppend(st.entries, CancelEntries(st.logs[k]), subject);
    case OpCharge(k) =>
      ConfirmBooks(st, k, if st.logs[k].status == Canceled then Pending else st.logs[k].status, subject);
    case OpRevise(_, _) =>
    case OpTask => TaskBooks(st, subject);
  }

  lemma CreateBooks(dir: Direction, kind: Kind, status: Option<Status>, flow: int, subject: Subject)
    requires status != Some(Canceled) && subject != Purse
    ensures Balance(CreateEntries(dir, kind, if status.Some? then status.value else Confirmed, flow), subject)
         == CreateBooking(dir, flow, kind, status, subject)
  {
    if dir == In {
      BalancePair(Fanli, Purse, flow, subject);
      BalancePair(IncomeRefund, Purse, flow, subject);
      BalancePair(MamaConfirm, Purse, flow, subject);
      BalancePair(Envelopes, Purse, flow, subject);
    } else {
      BalancePair(Purse, Receipts, flow, subject);
      BalancePair(Purse, CashoutPending, flow, subject);
      BalancePair(Purse, CashoutConfirmed, flow, subject);
    }
  }

  lemma ConfirmBooks(st: State, k: nat, seen: Status, subject: Subject)
    requires k < |st.logs| && subject != Purse
    ensures Balance(ConfirmAs(st, k, seen).entries, subject) == Balance(st.entries, subject)
      + if st.budget.None? then 0 else ConfirmBooking(st.logs[k], seen, subject)
  {
    var log := st.logs[k];
    BalancePair(Fanli, Purse, log.flow, subject);
    BalancePair(CashoutPending, CashoutConfirmed, log.flow, subject);
    BalancePair(Purse, CashoutConfirmed, log.flow, subject);
    BalanceAppend(st.entries, ConfirmEntries(log, seen), subject);
  }

  lemma CancelBooks(log: Log, subject: Subject)
    requires subject != Purse
    ensures Balance(CancelEntries(log), subject) == CancelBooking(log, subject)
  {
    BalancePair(Purse, Fanli, log.flow, subject);
    BalancePair(CashoutPending, Purse, log.flow, subject);
    BalancePair(CashoutConfirmed, Purse, log.flow, subject);
  }

  lemma TaskBooks(st: State, subject: Subject)
    requires subject != Purse
    ensures Balance(Recompute(st).entries, subject)
         == Balance(st.entries, subject) + Booking(st, OpTask, subject)
  {
    var delta := if st.budget.Some? then Due(st.logs).amount - st.budget.value.amount else 0;
    var added := Recompute(st).entries[|st.entries|..];
    assert Recompute(st).entries == st.entries + added;
    BalancePair(Receipts, Purse, delta, subject);
    BalancePair(Purse, Receipts, -delta, subject);
    BalanceAppend(st.entries, added, subject);
  }

  function Bookings(st: State, ops: seq<Op>, subject: Subject): int
    requires IsRun(st, ops)
    decreases |ops|
  {
    if ops == [] then 0 else Booking(st, ops[0], subject) + Bookings(Apply(st, ops[0]), ops[1..], subject)
  }

  /** Over every run each subject but the purse holds the sum of what the operations are to book on it. As
      all entries sum to nothing, the purse holds the opposite of the rest. */
  lemma {:induction false} RunBooks(st: State, ops: seq<Op>, subject: Subject)
    requires IsRun(st, ops) && subject != Purse
    ensures Balance(End(st, ops).entries, subject) == Balance(st.entries, subject) + Bookings(st, ops, subject)
    decreases |ops|
  {
    if ops != [] {
      StepBooks(st, ops[0], subject);
      RunBooks(Apply(st, ops[0]), ops[1..], subject);
    }
  }

  // ---- The purse in the book ----

  function AmountOrZero(st: State): int {
    if st.budget.Some? then st.budget.value.amount else 0
  }

  /** The operation moves the balance and writes no entry for it. */
  predicate MovesUnbooked(st: State, op: Op)
    requires Enabled(st, op)
  {
    match op
    case OpCreate(dir, flow, kind, status) =>
      && status != Some(Canceled)
      && flow != 0
      && (if dir == Out then kind != Consum && kind != Cashout
          else status != Some(Pending) && (kind == Consum || kind == Cashout || kind == Other))
    case OpConfirm(k) =>
      var log := st.logs[k];
      && log.flow != 0
      && (if log.dir == Out then log.status == Canceled && log.kind != Cashout
          else log.status != Confirmed && !IsRebate(log.kind))
    case OpCancel(k) =>
      var log := st.logs[k];
      && log.flow != 0
      && (if log.dir == Out then log.status != Canceled && log.kind != Cashout
          else log.status == Confirmed && !IsRebate(log.kind))
    case OpCharge(k) =>
      var log := st.logs[k];
      log.flow != 0 && log.dir == In && log.status != Confirmed
    case OpRevise(_, _) => false
    case OpTask => false
  }

  lemma PurseAppend(entries: seq<Entry>, added: seq<Entry>)
    ensures Balance(entries + added, Purse) == Balance(entries, Purse) + Balance(added, Purse)
  {
    BalanceAppend(entries, added, Purse);
  }

  /** The purse of the book moves with the stored balance exactly when the operation is not one of those
      that have no entry. */
  lemma PurseFollows(st: State, op: Op)
    requires st.budget.Some? && Enabled(st, op)
    ensures var end := Apply(st, op);
      Balance(end.entries, Purse) - Balance(st.entries, Purse) == AmountOrZero(end) - AmountOrZero(st)
      <==> !MovesUnbooked(st, op)
  {
    match op
    case OpCreate(dir, flow, kind, status) =>
      var s := if status.Some? then status.value else Confirmed;
      PurseOfCreate(dir, kind, s, flow);
      PurseAppend(st.entries, CreateEntries(dir, kind, s, flow));
    case OpConfirm(k) => PurseOfConfirm(st, k, st.logs[k].status);
    case OpCancel(k) =>
      PurseOfCancel(st.logs[k]);
      PurseAppend(st.entries, CancelEntries(st.logs[k]));
    case OpCharge(k) => PurseOfConfirm(st, k, if st.logs[k].status == Canceled then Pending else st.logs[k].status);
    case OpRevise(k, amount) =>
    case OpTask => TaskRepairs(st);
  }

  lemma PurseOfCancel(log: Log)
    ensures Balance(CancelEntries(log), Purse)
      == if log.dir == In then if log.status == Confirmed && IsRebate(log.kind) then -log.flow else 0
         else if log.kind == Cashout && log.status != Canceled then log.flow else 0
  {
    PairPosts(Purse, Fanli, log.flow);
    PairPosts(CashoutPending, Purse, log.flow);
    PairPosts(CashoutConfirmed, Purse, log.flow);
  }

  lemma PurseOfCreate(dir: Direction, kind: Kind, status: Status, flow: int)
    ensures Balance(CreateEntries(dir, kind, status, flow), Purse)
      == if dir == In
         then if status == Confirmed && kind != Consum && kind != Cashout && kind != Other then flow else 0
         else if kind == Consum || (kind == Cashout && status != Canceled) then -flow else 0
  {
    if dir == In {
      PairPosts(Fanli, Purse, flow);
      PairPosts(IncomeRefund, Purse, flow);
      PairPosts(MamaConfirm, Purse, flow);
      PairPosts(Envelopes, Purse, flow);
    } else {
      PairPosts(Purse, Receipts, flow);
      PairPosts(Purse, CashoutPending, flow);
      PairPosts(Purse, CashoutConfirmed, flow);
    }
  }

  lemma PurseOfConfirm(st: State, k: nat, seen: Status)
    requires st.budget.Some? && k < |st.logs|
    ensures var log, end := st.logs[k], ConfirmAs(st, k, seen);
      Balance(end.entries, Purse) - Balance(st.entries, Purse) == AmountOrZero(end) - AmountOrZero(st)
      <==> log.flow == 0 || seen == Confirmed
           || (if log.dir == In then IsRebate(log.kind) else seen == Pending || log.kind == Cashout)
  {
    var log := st.logs[k];
    PairPosts(Fanli, Purse, log.flow);
    PairPosts(CashoutPending, CashoutConfirmed, log.flow);
    PairPosts(Purse, CashoutConfirmed, log.flow);
    PurseAppend(st.entries, ConfirmEntries(log, seen));
  }
}
