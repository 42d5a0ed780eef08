/** The wallet of one customer: budget logs, the stored balance that every log keeps up to date on its
    own (flashsale/pay/models/user.py), the double-entry book beside it, and the task that recomputes
    the balance from the logs (flashsale/pay/tasks.py). Amounts are cents. */
module Wallet {
  import opened PyText

  datatype Direction = In | Out

  datatype Status = Confirmed | Canceled | Pending

  datatype Kind = Consum | Cashout | Click | Order | Award | Refund | MamaCash | Envelope | Other

  datatype Log = Log(dir: Direction, kind: Kind, flow: int, status: Status, balance: int)

  datatype Budget = Budget(amount: int, income: int, expense: int)

  /** The subjects of the book; `Purse` is the customer's wallet. */
  datatype Subject =
    | Purse
    | Receipts
    | CashoutPending
    | CashoutConfirmed
    | Fanli
    | IncomeRefund
    | MamaConfirm
    | Envelopes

  datatype Entry = Entry(subject: Subject, amount: int)

  datatype State = State(logs: seq<Log>, budget: Option<Budget>, entries: seq<Entry>)

  // ---- The operations ----

  predicate IsRebate(kind: Kind) {
    kind == Click || kind == Order || kind == Award
  }

  /** `AccountEntry.create`: always two entries. */
  function Pair(debit: Subject, lender: Subject, amount: int): seq<Entry> {
    [Entry(debit, -amount), Entry(lender, amount)]
  }

  function CreateEntries(dir: Direction, kind: Kind, status: Status, flow: int): seq<Entry> {
    if dir == In then
      if status != Confirmed then []
      else if IsRebate(kind) then Pair(Fanli, Purse, flow)
      else if kind == Refund then Pair(IncomeRefund, Purse, flow)
      else if kind == MamaCash then Pair(MamaConfirm, Purse, flow)
      else if kind == Envelope then Pair(Envelopes, Purse, flow)
      else []
    else if kind == Consum then Pair(Purse, Receipts, flow)
    else if kind == Cashout && status == Pending then Pair(Purse, CashoutPending, flow)
    else if kind == Cashout && status == Confirmed then Pair(Purse, CashoutConfirmed, flow)
    else []
  }

  function Earn(b: Budget, flow: int): Budget {
    Budget(b.amount + flow, b.income + flow, b.expense)
  }

  function Spend(b: Budget, flow: int): Budget {
    Budget(b.amount - flow, b.income, b.expense + flow)
  }

  /** `BudgetLog.create`; `None` is the exception for a canceled log. A missing status means confirmed. */
  function Create(st: State, dir: Direction, flow: int, kind: Kind, status: Option<Status>): Option<State> {
    var s := if status.Some? then status.value else Confirmed;
    if s == Canceled then None
    else
      var b := if st.budget.Some? then st.budget.value else Budget(0, 0, 0);
      var c := if dir == Out then Spend(b, flow) else if s == Confirmed then Earn(b, flow) else b;
      Some(State(st.logs + [Log(dir, kind, flow, s, c.amount)], Some(c),
                 st.entries + CreateEntries(dir, kind, s, flow)))
  }

  function ConfirmEntries(log: Log, seen: Status): seq<Entry> {
    if log.dir == In then if IsRebate(log.kind) then Pair(Fanli, Purse, log.flow) else []
    else if log.kind == Cashout && seen == Pending then Pair(CashoutPending, CashoutConfirmed, log.flow)
    else if log.kind == Cashout && seen == Canceled then Pair(Purse, CashoutConfirmed, log.flow)
    else []
  }

  /** `confirm_budget_log` on a log whose status in memory is `seen`. Without a budget row it raises. */
  function ConfirmAs(st: State, k: nat, seen: Status): State
    requires k < |st.logs|
  {
    if seen == Confirmed || st.budget.None? then st
    else
      var log, b := st.logs[k], st.budget.value;
      var c := if log.dir == In then Earn(b, log.flow) else if seen == Canceled then Spend(b, log.flow) else b;
      State(st.logs[k := log.(status := Confirmed, balance := c.amount)], Some(c),
            st.entries + ConfirmEntries(log, seen))
  }

  function Confirm(st: State, k: nat): State
    requires k < |st.logs|
  {
    ConfirmAs(st, k, st.logs[k].status)
  }

  /** `charge_confirm`: a canceled payment is first put back to pending, in memory only. */
  function ChargeConfirm(st: State, k: nat): State
    requires k < |st.logs|
  {
    ConfirmAs(st, k, if st.logs[k].status == Canceled then Pending else st.logs[k].status)
  }

  function CancelEntries(log: Log): seq<Entry> {
    if log.dir == In then if log.status == Confirmed && IsRebate(log.kind) then Pair(Purse, Fanli, log.flow) else []
    else if log.kind == Cashout && log.status == Pending then Pair(CashoutPending, Purse, log.flow)
    else if log.kind == Cashout && log.status == Confirmed then Pair(CashoutConfirmed, Purse, log.flow)
    else []
  }

  /** `cancel_budget_log`. */
  function Cancel(st: State, k: nat): State
    requires k < |st.logs|
  {
    var log := st.logs[k];
    if log.status == Canceled || st.budget.None? then st
    else
      var b := st.budget.value;
      var c :=
        if log.dir == Out then Spend(b, -log.flow) else if log.status == Confirmed then Earn(b, -log.flow) else b;
      State(st.logs[k := log.(status := Canceled, balance := c.amount)], Some(c), st.entries + CancelEntries(log))
  }

  /** `chnage_peding_income_amount`. */
  function Revise(st: State, k: nat, amount: int): State
    requires k < |st.logs|
  {
    var log := st.logs[k];
    if log.status != Pending || log.dir != In then st else st.(logs := st.logs[k := log.(flow := amount)])
  }

  // ---- What each operation does to the logs and to the amount ----

  function Stored(st: State): Budget {
    if st.budget.Some? then st.budget.value else Budget(0, 0, 0)
  }

  /** The stored budget moves by these amounts. */
  predicate Moves(st: State, end: State, amount: int, income: int, expense: int) {
    && Stored(end).amount == Stored(st).amount + amount
    && Stored(end).income == Stored(st).income + income
    && Stored(end).expense == Stored(st).expense + expense
  }

  /** All logs but number `k` are as they were. */
  predicate OnlyLog(st: State, end: State, k: nat) {
    |end.logs| == |st.logs| && forall j :: 0 <= j < |st.logs| && j != k ==> end.logs[j] == st.logs[j]
  }

  /** A created log stands behind the others and is as asked for, confirmed if nothing was said; what comes
      in counts when it is confirmed, what goes out at once. */
  lemma CreatedLog(st: State, dir: Direction, flow: int, kind: Kind, status: Option<Status>)
    ensures Create(st, dir, flow, kind, status).Some? <==> status != Some(Canceled)
    ensures status != Some(Canceled) ==>
              var end := Create(st, dir, flow, kind, status).value;
              && |end.logs| == |st.logs| + 1 && end.logs[..|st.logs|] == st.logs && end.budget.Some?
              && var log := end.logs[|st.logs|];
              && log.dir == dir && log.kind == kind && log.flow == flow && log.balance == Stored(end).amount
              && log.status == (if status == Some(Pending) then Pending else Confirmed)
              && (dir == In && status != Some(Pending) ==> Moves(st, end, flow, flow, 0))
              && (dir == In && status == Some(Pending) ==> Moves(st, end, 0, 0, 0))
              && (dir == Out ==> Moves(st, end, -flow, 0, flow))
  {
  }

  /** Confirming changes the log's status and balance only; a pending payment has been counted before. */
  lemma ConfirmedLog(st: State, k: nat, seen: Status)
    requires k < |st.logs|
    ensures var end, log := ConfirmAs(st, k, seen), st.logs[k];
      && (seen == Confirmed || st.budget.None? ==> end == st)
      && (seen != Confirmed && st.budget.Some? ==>
            && end.budget.Some? && OnlyLog(st, end, k)
            && end.logs[k] == Log(log.dir, log.kind, log.flow, Confirmed, Stored(end).amount)
            && (log.dir == In ==> Moves(st, end, log.flow, log.flow, 0))
            && (log.dir == Out && seen == Pending ==> Moves(st, end, 0, 0, 0))
            && (log.dir == Out && seen == Canceled ==> Moves(st, end, -log.flow, 0, log.flow)))
  {
  }

  /** Canceling too; it takes back what the log has counted for. */
  lemma CanceledLog(st: State, k: nat)
    requires k < |st.logs|
    ensures var end, log := Cancel(st, k), st.logs[k];
      && (log.status == Canceled || st.budget.None? ==> end == st)
      && (log.status != Canceled && st.budget.Some? ==>
            && end.budget.Some? && OnlyLog(st, end, k)
            && end.logs[k] == Log(log.dir, log.kind, log.flow, Canceled, Stored(end).amount)
            && (log.dir == In && log.status == Confirmed ==> Moves(st, end, -log.flow, -log.flow, 0))
            && (log.dir == In && log.status == Pending ==> Moves(st, end, 0, 0, 0))
            && (log.dir == Out ==> Moves(st, end, log.flow, 0, -log.flow)))
  {
  }

  /** Only a pending income is revised, and only in its amount. */
  lemma RevisedLog(st: State, k: nat, amount: int)
    requires k < |st.logs|
    ensures var end, log := Revise(st, k, amount), st.logs[k];
      && end.budget == st.budget && end.entries == st.entries && OnlyLog(st, end, k)
      && end.logs[k] == (if log.dir == In && log.status == Pending
                         then Log(In, log.kind, amount, Pending, log.balance) else log)
  {
  }

  // ---- Totals over the logs ----

  /** Income counts once confirmed, expense unless canceled. */
  function IncomeOf(log: Log): int {
    if log.dir == In && log.status == Confirmed then log.flow else 0
  }

  function ExpenseOf(log: Log): int {
    if log.dir == Out && log.status != Canceled then log.flow else 0
  }

  function PendingCashoutOf(log: Log): int {
    if log.dir == Out && log.kind == Cashout && log.status == Pending then log.flow else 0
  }

  function ConfirmedCashoutOf(log: Log): int {
    if log.dir == Out && log.kind == Cashout && log.status == Confirmed then log.flow else 0
  }

  function RebateOf(log: Log): int {
    if log.dir == In && IsRebate(log.kind) && log.status == Confirmed then log.flow else 0
  }

  function GroupOf(dir: Direction, status: Status, log: Log): int {
    if log.dir == dir && log.status == status then log.flow else 0
  }

  /** The shares of a log that are added up. */
  datatype Measure =
    | OfIncome
    | OfExpense
    | OfPendingCashout
    | OfConfirmedCashout
    | OfRebate
    | OfGroup(dir: Direction, status: Status)

  function Share(m: Measure, log: Log): int {
    match m
    case OfIncome => IncomeOf(log)
    case OfExpense => ExpenseOf(log)
    case OfPendingCashout => PendingCashoutOf(log)
    case OfConfirmedCashout => ConfirmedCashoutOf(log)
    case OfRebate => RebateOf(log)
    case OfGroup(dir, status) => GroupOf(dir, status, log)
  }

  function Total(logs: seq<Log>, m: Measure): int {
    if logs == [] then 0 else Share(m, logs[0]) + Total(logs[1..], m)
  }

  function Income(logs: seq<Log>): int {
    Total(logs, OfIncome)
  }

  function Expense(logs: seq<Log>): int {
    Total(logs, OfExpense)
  }

  lemma {:induction false} TotalAppend(logs: seq<Log>, log: Log, m: Measure)
    ensures Total(logs + [log], m) == Total(logs, m) + Share(m, log)
  {
    if logs == [] {
      assert logs + [log] == [log];
    } else {
      assert (logs + [log])[1..] == logs[1..] + [log];
      TotalAppend(logs[1..], log, m);
    }
  }

  lemma {:induction false} TotalUpdate(logs: seq<Log>, k: nat, log: Log, m: Measure)
    requires k < |logs|
    ensures Total(logs[k := log], m) == Total(logs, m) + Share(m, log) - Share(m, logs[k])
  {
    if k == 0 {
      assert logs[k := log][1..] == logs[1..];
    } else {
      assert logs[k := log][1..] == logs[1..][k - 1 := log];
      TotalUpdate(logs[1..], k - 1, log, m);
    }
  }

  /** What the stored budget ought to be. */
  function Due(logs: seq<Log>): Budget {
    Budget(Income(logs) - Expense(logs), Income(logs), Expense(logs))
  }

  /** The stored budget agrees with the logs; a customer without one has no logs. */
  predicate Balanced(st: State) {
    if st.budget.Some? then st.budget.value == Due(st.logs) else st.logs == []
  }

  // ---- The recomputing task ----

  /** `task_budgetlog_update_userbudget`. */
  function Recompute(st: State): State {
    var due := Due(st.logs);
    var delta := if st.budget.Some? then due.amount - st.budget.value.amount else 0;
    var added :=
      if delta > 0 then Pair(Receipts, Purse, delta) else if delta < 0 then Pair(Purse, Receipts, -delta) else [];
    State(st.logs, Some(due), st.entries + added)
  }

  /** `_check_user_budget` for a customer with a budget. */
  predicate Check(st: State)
    requires st.budget.Some?
  {
    st.budget.value.amount == Due(st.logs).amount
  }

  // ---- Runs ----

  datatype Op =
    | OpCreate(dir: Direction, flow: int, kind: Kind, status: Option<Status>)
    | OpConfirm(k: nat)
    | OpCancel(k: nat)
    | OpCharge(k: nat)
    | OpRevise(k: nat, amount: int)
    | OpTask

  /** The log exists; `charge_confirm` looks for a log of kind `Consum`. */
  predicate Enabled(st: State, op: Op) {
    match op
    case OpCreate(_, _, _, _) => true
    case OpConfirm(k) => k < |st.logs|
    case OpCancel(k) => k < |st.logs|
    case OpCharge(k) => k < |st.logs| && st.logs[k].kind == Consum
    case OpRevise(k, _) => k < |st.logs|
    case OpTask => true
  }

  function Apply(st: State, op: Op): State
    requires Enabled(st, op)
  {
    match op
    case OpCreate(dir, flow, kind, status) =>
      var r := Create(st, dir, flow, kind, status);
      if r.Some? then r.value else st
    case OpConfirm(k) => Confirm(st, k)
    case OpCancel(k) => Cancel(st, k)
    case OpCharge(k) => ChargeConfirm(st, k)
    case OpRevise(k, amount) => Revise(st, k, amount)
    case OpTask => Recompute(st)
  }

  predicate IsRun(st: State, ops: seq<Op>)
    decreases |ops|
  {
    ops == [] || (Enabled(st, ops[0]) && IsRun(Apply(st, ops[0]), ops[1..]))
  }

  function End(st: State, ops: seq<Op>): State
    requires IsRun(st, ops)
    decreases |ops|
  {
    if ops == [] then st else End(Apply(st, ops[0]), ops[1..])
  }

  // ---- The stored balance agrees with the logs ----

  /** Confirming the payment of an order whose wallet payment was canceled and given back. */
  predicate ForgetsToCharge(st: State, op: Op)
    requires Enabled(st, op)
  {
    op.OpCharge? && var log := st.logs[op.k]; log.status == Canceled && log.dir == Out && log.flow != 0
  }

  lemma ConfirmBalance(st: State, k: nat, seen: Status)
    requires Balanced(st) && k < |st.logs|
    requires seen == st.logs[k].status || (seen == Pending && st.logs[k].status == Canceled)
    ensures Balanced(ConfirmAs(st, k, seen))
      <==> !(seen != st.logs[k].status && st.logs[k].dir == Out && st.logs[k].flow != 0)
  {
    var end := ConfirmAs(st, k, seen);
    if seen != Confirmed {
      TotalUpdate(st.logs, k, end.logs[k], OfIncome);
      TotalUpdate(st.logs, k, end.logs[k], OfExpense);
    }
  }

  lemma CancelBalance(st: State, k: nat)
    requires Balanced(st) && k < |st.logs|
    ensures Balanced(Cancel(st, k))
  {
    var end := Cancel(st, k);
    if end != st {
      TotalUpdate(st.logs, k, end.logs[k], OfIncome);
      TotalUpdate(st.logs, k, end.logs[k], OfExpense);
    }
  }

  lemma CreateBalance(st: State, dir: Direction, flow: int, kind: Kind, status: Option<Status>)
    requires Balanced(st)
    ensures var r := Create(st, dir, flow, kind, status);
      && (r.None? <==> status == Some(Canceled))
      && (r.Some? ==> Balanced(r.value))
  {
    var r := Create(st, dir, flow, kind, status);
    if r.Some? {
      var log := r.value.logs[|st.logs|];
      TotalAppend(st.logs, log, OfIncome);
      TotalAppend(st.logs, log, OfExpense);
    }
  }

  lemma ReviseBalance(st: State, k: nat, amount: int)
    requires Balanced(st) && k < |st.logs|
    ensures Balanced(Revise(st, k, amount))
  {
    var log := st.logs[k].(flow := amount);
    TotalUpdate(st.logs, k, log, OfIncome);
    TotalUpdate(st.logs, k, log, OfExpense);
  }

  /** One step keeps balance and logs in agreement, except for exactly one case: a canceled payment
      that is confirmed after all is not taken out of the wallet again. */
  lemma StepBalance(st: State, op: Op)
    requires Balanced(st) && Enabled(st, op)
    ensures Balanced(Apply(st, op)) <==> !ForgetsToCharge(st, op)
  {
    match op
    case OpCreate(dir, flow, kind, status) => CreateBalance(st, dir, flow, kind, status);
    case OpConfirm(k) => ConfirmBalance(st, k, st.logs[k].status);
    case OpCancel(k) => CancelBalance(st, k);
    case OpCharge(k) => ConfirmBalance(st, k, if st.logs[k].status == Canceled then Pending else st.logs[k].status);
    case OpRevise(k, amount) => ReviseBalance(st, k, amount);
    case OpTask =>
  }

  /** The log that an operation touches keeps the balance as it is right after it. */
  predicate LogShowsBalance(st: State, k: nat) {
    k < |st.logs| && st.budget.Some? && st.logs[k].balance == st.budget.value.amount
  }

  /** The operation writes the balance into log `k`: it makes it, or changes its status. */
  predicate Touches(st: State, op: Op, k: nat)
    requires Enabled(st, op)
  {
    && Apply(st, op) != st
    && match op
      case OpCreate(_, _, _, _) => k == |st.logs|
      case OpConfirm(j) => k == j
      case OpCancel(j) => k == j
      case OpCharge(j) => k == j
      case _ => false
  }

  lemma StepLogs(st: State, op: Op, k: nat)
    requires Enabled(st, op) && k < |Apply(st, op).logs|
    ensures if Touches(st, op, k) then LogShowsBalance(Apply(st, op), k)
      else k < |st.logs| && Apply(st, op).logs[k].balance == st.logs[k].balance
  {
  }

  /** The amount right after the last operation of a run that touched log `k`. */
  function AmountAtLastTouch(st: State, ops: seq<Op>, k: nat): Option<int>
    requires IsRun(st, ops)
    decreases |ops|
  {
    if ops == [] then None
    else
      var next := Apply(st, ops[0]);
      var later := AmountAtLastTouch(next, ops[1..], k);
      if later.Some? then later
      else if Touches(st, ops[0], k) then Some(Amount(next))
      else None
  }

  /** Over every run each log keeps the balance as it was right after the last operation that touched it,
      whatever happened to other logs, to its amount or to the budget since. */
  lemma {:induction false} LogsShowLastBalance(st: State, ops: seq<Op>, k: nat)
    requires IsRun(st, ops) && k < |End(st, ops).logs|
    ensures var last := AmountAtLastTouch(st, ops, k);
      if last.Some? then End(st, ops).logs[k].balance == last.value
      else k < |st.logs| && End(st, ops).logs[k].balance == st.logs[k].balance
    decreases |ops|
  {
    if ops != [] {
      LogsShowLastBalance(Apply(st, ops[0]), ops[1..], k);
      if k < |Apply(st, ops[0]).logs| {
        StepLogs(st, ops[0], k);
      }
    }
  }

  predicate NeverForgets(st: State, ops: seq<Op>)
    requires IsRun(st, ops)
    decreases |ops|
  {
    ops == [] || (!ForgetsToCharge(st, ops[0]) && NeverForgets(Apply(st, ops[0]), ops[1..]))
  }

  /** Over every such run, the amount is confirmed income less non-canceled expense, although no step
      but the task ever looks at more than one log; the periodic check then passes. */
  lemma {:induction false} RunBalance(st: State, ops: seq<Op>)
    requires Balanced(st) && IsRun(st, ops) && NeverForgets(st, ops)
    ensures Balanced(End(st, ops))
    ensures End(st, ops).budget.Some? ==> Check(End(st, ops))
    decreases |ops|
  {
    if ops != [] {
      StepBalance(st, ops[0]);
      RunBalance(Apply(st, ops[0]), ops[1..]);
    }
  }

  predicate BalancedThroughout(st: State, ops: seq<Op>)
    requires IsRun(st, ops)
    decreases |ops|
  {
    Balanced(st) && (ops == [] || BalancedThroughout(Apply(st, ops[0]), ops[1..]))
  }

  /** The agreement holds throughout a run exactly when no payment is forgotten in it. */
  lemma {:induction false} BalancedThroughoutIff(st: State, ops: seq<Op>)
    requires Balanced(st) && IsRun(st, ops)
    ensures BalancedThroughout(st, ops) <==> NeverForgets(st, ops)
    decreases |ops|
  {
    if ops != [] {
      StepBalance(st, ops[0]);
      if !ForgetsToCharge(st, ops[0]) {
        BalancedThroughoutIff(Apply(st, ops[0]), ops[1..]);
      }
    }
  }

  // ---- The case is reached ----

  /** A payment of `flow` from the wallet that is opened, canceled, and confirmed after all. */
  function Payment(status: Status, flow: int, balance: int): Log {
    Log(Out, Consum, flow, status, balance)
  }

  const EMPTY := State([], None, [])

  lemma PaymentOpened(flow: int)
    ensures var st := Apply(EMPTY, OpCreate(Out, flow, Consum, Some(Pending)));
      st.logs == [Payment(Pending, flow, -flow)] && st.budget == Some(Budget(-flow, 0, flow))
  {
  }

  lemma PaymentCanceled(st: State, flow: int)
    requires st.logs == [Payment(Pending, flow, -flow)] && st.budget == Some(Budget(-flow, 0, flow))
    ensures var after := Apply(st, OpCancel(0));
      after.logs == [Payment(Canceled, flow, 0)] && after.budget == Some(Budget(0, 0, 0))
  {
  }

  lemma PaymentForgotten(st: State, flow: int)
    requires st.logs == [Payment(Canceled, flow, 0)] && st.budget == Some(Budget(0, 0, 0))
    ensures var after := Apply(st, OpCharge(0));
      && after.logs == [Payment(Confirmed, flow, 0)]
      && after.budget == Some(Budget(0, 0, 0))
      && Due(after.logs) == Budget(-flow, 0, flow)
  {
    OnePayment(Payment(Confirmed, flow, 0));
  }

  lemma OnePayment(log: Log)
    requires log.dir == Out && log.status == Confirmed
    ensures Due([log]) == Budget(-log.flow, 0, log.flow)
  {
    assert [] + [log] == [log];
    TotalAppend([], log, OfIncome);
    TotalAppend([], log, OfExpense);
  }

  /** From an empty wallet these three operations end with a confirmed payment that nobody has paid: the
      wallet agrees with its logs only if the payment was of nothing. */
  lemma ForgottenPayment(flow: int)
    ensures var ops := [OpCreate(Out, flow, Consum, Some(Pending)), OpCancel(0), OpCharge(0)];
      && IsRun(EMPTY, ops)
      && (Balanced(End(EMPTY, ops)) <==> flow == 0)
  {
    var ops := [OpCreate(Out, flow, Consum, Some(Pending)), OpCancel(0), OpCharge(0)];
    var one := Apply(EMPTY, ops[0]);
    PaymentOpened(flow);
    var two := Apply(one, ops[1]);
    PaymentCanceled(one, flow);
    var three := Apply(two, ops[2]);
    PaymentForgotten(two, flow);
    EndOfThree(EMPTY, ops[0], ops[1], ops[2]);
    assert Balanced(three) <==> flow == 0;
  }

  lemma EndOfThree(st: State, a: Op, b: Op, c: Op)
    requires Enabled(st, a) && Enabled(Apply(st, a), b) && Enabled(Apply(Apply(st, a), b), c)
    ensures IsRun(st, [a, b, c]) && End(st, [a, b, c]) == Apply(Apply(Apply(st, a), b), c)
  {
    var one, two, three := Apply(st, a), Apply(Apply(st, a), b), Apply(Apply(Apply(st, a), b), c);
    assert [a, b, c][1..] == [b, c] && [b, c][1..] == [c] && [c][1..] == [];
    assert IsRun(three, []) && End(three, []) == three;
    assert IsRun(two, [c]) && End(two, [c]) == three;
    assert IsRun(one, [b, c]) && End(one, [b, c]) == three;
  }

  // ---- The task ----

  function Balance(entries: seq<Entry>, subject: Subject): int {
    if entries == [] then 0
    else (if entries[0].subject == subject then entries[0].amount else 0) + Balance(entries[1..], subject)
  }

  function Grand(entries: seq<Entry>): int {
    if entries == [] then 0 else entries[0].amount + Grand(entries[1..])
  }

  lemma {:induction false} BalanceAppend(a: seq<Entry>, b: seq<Entry>, subject: Subject)
    ensures Balance(a + b, subject) == Balance(a, subject) + Balance(b, subject)
    ensures Grand(a + b) == Grand(a) + Grand(b)
  {
    if a == [] {
      assert a + b == b;
    } else {
      assert (a + b)[1..] == a[1..] + b;
      BalanceAppend(a[1..], b, subject);
    }
  }

  lemma BalancePair(debit: Subject, lender: Subject, amount: int, subject: Subject)
    ensures Balance(Pair(debit, lender, amount), subject)
      == (if subject == lender then amount else 0) - (if subject == debit then amount else 0)
    ensures Grand(Pair(debit, lender, amount)) == 0
  {
    var last := [Entry(lender, amount)];
    assert Pair(debit, lender, amount)[1..] == last;
    assert Balance(last, subject) == if subject == lender then amount else 0;
    assert Grand(last) == amount;
  }

  function Amount(st: State): int
    requires st.budget.Some?
  {
    st.budget.value.amount
  }

  /** From any stored balance, right or wrong, the task restores the agreement and books the difference
      on the purse; a second run changes nothing; and a balance that agrees is left alone. */
  lemma TaskRepairs(st: State)
    ensures Balanced(Recompute(st)) && Check(Recompute(st))
    ensures Recompute(Recompute(st)) == Recompute(st)
    ensures st.budget.Some? && Balanced(st) ==> Recompute(st) == st
    ensures st.budget.Some? ==> var end := Recompute(st);
      Balance(end.entries, Purse) - Balance(st.entries, Purse) == Amount(end) - Amount(st)
  {
    var end := Recompute(st);
    var again := Recompute(end);
    assert again.entries == end.entries;
    if st.budget.Some? {
      var delta := Amount(end) - Amount(st);
      BalancePair(Receipts, Purse, delta, Purse);
      BalancePair(Purse, Receipts, -delta, Purse);
      BalanceAppend(st.entries, end.entries[|st.entries|..], Purse);
      assert end.entries == st.entries + end.entries[|st.entries|..];
      assert delta == 0 ==> end.entries == st.entries;
    }
  }

  /** Log changes that bypass the balance, each followed by the task. */
  function TaskRun(st: State, changes: seq<seq<Log>>): State
    decreases |changes|
  {
    if changes == [] then st else TaskRun(Recompute(st.(logs := changes[0])), changes[1..])
  }

  /** The signed purse entries of all those tasks telescope. */
  lemma {:induction false} TasksTelescope(st: State, changes: seq<seq<Log>>)
    requires st.budget.Some?
    ensures var end := TaskRun(st, changes);
      && end.budget.Some?
      && Balance(end.entries, Purse) - Balance(st.entries, Purse) == Amount(end) - Amount(st)
      && (changes != [] ==> Balanced(end) && end.logs == changes[|changes| - 1])
    decreases |changes|
  {
    if changes != [] {
      TaskRepairs(st.(logs := changes[0]));
      TasksTelescope(Recompute(st.(logs := changes[0])), changes[1..]);
    }
  }
}
