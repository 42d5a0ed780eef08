/** The wallet's tables, updated in place as flashsale/pay/models/user.py and flashsale/pay/tasks.py do. */
module WalletTables {
  import opened PyText
  import opened Wallet

  /** The grouped totals the database returns: one for each pair that occurs. */
  datatype Record = Record(dir: Direction, status: Status, total: int)

  function GroupTotal(logs: seq<Log>, dir: Direction, status: Status): int {
    Total(logs, OfGroup(dir, status))
  }

  predicate Occurs(logs: seq<Log>, dir: Direction, status: Status) {
    exists k :: 0 <= k < |logs| && logs[k].dir == dir && logs[k].status == status
  }

  function Group(logs: seq<Log>, dir: Direction, status: Status): seq<Record> {
    if Occurs(logs, dir, status) then [Record(dir, status, GroupTotal(logs, dir, status))] else []
  }

  function Records(logs: seq<Log>): seq<Record> {
    Group(logs, In, Confirmed) + Group(logs, In, Pending) + Group(logs, Out, Confirmed) + Group(logs, Out, Pending)
  }

  function InShare(r: Record): int {
    if r.dir == In && r.status == Confirmed then r.total else 0
  }

  function OutShare(r: Record): int {
    if r.dir == Out then r.total else 0
  }

  function RecordsIn(records: seq<Record>): int {
    if records == [] then 0 else InShare(records[0]) + RecordsIn(records[1..])
  }

  function RecordsOut(records: seq<Record>): int {
    if records == [] then 0 else OutShare(records[0]) + RecordsOut(records[1..])
  }

  lemma {:induction false} RecordsAppend(a: seq<Record>, b: seq<Record>)
    ensures RecordsIn(a + b) == RecordsIn(a) + RecordsIn(b)
    ensures RecordsOut(a + b) == RecordsOut(a) + RecordsOut(b)
  {
    if a == [] {
      assert a + b == b;
    } else {
      assert (a + b)[1..] == a[1..] + b;
      RecordsAppend(a[1..], b);
    }
  }

  lemma {:induction false} GroupSums(logs: seq<Log>)
    ensures GroupTotal(logs, In, Confirmed) == Income(logs)
    ensures GroupTotal(logs, Out, Confirmed) + GroupTotal(logs, Out, Pending) == Expense(logs)
  {
    if logs != [] {
      GroupSums(logs[1..]);
    }
  }

  lemma {:induction false} NoGroup(logs: seq<Log>, dir: Direction, status: Status)
    requires !Occurs(logs, dir, status)
    ensures GroupTotal(logs, dir, status) == 0
  {
    if logs != [] {
      forall k | 0 <= k < |logs[1..]|
        ensures !(logs[1..][k].dir == dir && logs[1..][k].status == status)
      {
        assert logs[1..][k] == logs[k + 1];
      }
      NoGroup(logs[1..], dir, status);
    }
  }

  lemma GroupShare(logs: seq<Log>, dir: Direction, status: Status)
    ensures RecordsIn(Group(logs, dir, status))
         == if dir == In && status == Confirmed then GroupTotal(logs, dir, status) else 0
    ensures RecordsOut(Group(logs, dir, status)) == if dir == Out then GroupTotal(logs, dir, status) else 0
  {
    if !Occurs(logs, dir, status) {
      NoGroup(logs, dir, status);
    }
  }

  lemma RecordsTotal(logs: seq<Log>)
    ensures RecordsIn(Records(logs)) == Income(logs)
    ensures RecordsOut(Records(logs)) == Expense(logs)
  {
    var a, b, c, d := Group(logs, In, Confirmed), Group(logs, In, Pending),
      Group(logs, Out, Confirmed), Group(logs, Out, Pending);
    RecordsAppend(a + b + c, d);
    RecordsAppend(a + b, c);
    RecordsAppend(a, b);
    GroupShare(logs, In, Confirmed);
    GroupShare(logs, In, Pending);
    GroupShare(logs, Out, Confirmed);
    GroupShare(logs, Out, Pending);
    GroupSums(logs);
  }

  /** The summing loop of the task and of the check. */
  method SumRecords(records: seq<Record>) returns (inAmount: int, outAmount: int)
    ensures inAmount == RecordsIn(records) && outAmount == RecordsOut(records)
  {
    inAmount, outAmount := 0, 0;
    for i := 0 to |records|
      invariant inAmount == RecordsIn(records[..i]) && outAmount == RecordsOut(records[..i])
    {
      assert records[..i + 1] == records[..i] + [records[i]];
      RecordsAppend(records[..i], [records[i]]);
      if records[i].dir == In && records[i].status == Confirmed {
        inAmount := inAmount + records[i].total;
      }
      if records[i].dir == Out {
        outAmount := outAmount + records[i].total;
      }
    }
    assert records[..|records|] == records;
  }

  class Account {
    var logs: seq<Log>
    var budget: Option<Budget>
    var entries: seq<Entry>

    function Now(): State
      reads this
    {
      State(logs, budget, entries)
    }

    method CreateEntry(debit: Subject, lender: Subject, amount: int)
      modifies this`entries
      ensures entries == old(entries) + Pair(debit, lender, amount)
    {
      entries := entries + [Entry(debit, -amount)] + [Entry(lender, amount)];
    }

    method CreateLog(dir: Direction, flow: int, kind: Kind, status: Option<Status>) returns (created: bool)
      modifies this
      ensures var r := Create(old(Now()), dir, flow, kind, status);
        created == r.Some? && Now() == if r.Some? then r.value else old(Now())
    {
      var s := if status.Some? then status.value else Confirmed;
      if s == Canceled {
        return false;
      }
      var b := if budget.Some? then budget.value else Budget(0, 0, 0);
      if dir == In {
        if s == Confirmed {
          b := Earn(b, flow);
          if IsRebate(kind) {
            CreateEntry(Fanli, Purse, flow);
          }
          if kind == Refund {
            CreateEntry(IncomeRefund, Purse, flow);
          }
          if kind == MamaCash {
            CreateEntry(MamaConfirm, Purse, flow);
          }
          if kind == Envelope {
            CreateEntry(Envelopes, Purse, flow);
          }
        }
      } else {
        b := Spend(b, flow);
        if kind == Consum {
          CreateEntry(Purse, Receipts, flow);
        }
        if kind == Cashout {
          if s == Pending {
            CreateEntry(Purse, CashoutPending, flow);
          } else {
            CreateEntry(Purse, CashoutConfirmed, flow);
          }
        }
      }
      budget := Some(b);
      logs := logs + [Log(dir, kind, flow, s, b.amount)];
      assert entries == old(entries) + CreateEntries(dir, kind, s, flow);
      created := true;
    }

    /** `confirm_budget_log`, on a log read with status `seen`. */
    method ConfirmLog(k: nat, seen: Status) returns (done: bool)
      requires k < |logs|
      modifies this
      ensures Now() == ConfirmAs(old(Now()), k, seen)
      ensures done <==> seen != Confirmed && old(budget).Some?
    {
      if seen == Confirmed || budget.None? {
        return false;
      }
      var log, b := logs[k], budget.value;
      if log.dir == In {
        b := Earn(b, log.flow);
        if IsRebate(log.kind) {
          CreateEntry(Fanli, Purse, log.flow);
        }
      } else {
        if seen == Canceled {
          b := Spend(b, log.flow);
        }
        if log.kind == Cashout {
          if seen == Pending {
            CreateEntry(CashoutPending, CashoutConfirmed, log.flow);
          } else {
            CreateEntry(Purse, CashoutConfirmed, log.flow);
          }
        }
      }
      budget := Some(b);
      logs := logs[k := log.(status := Confirmed, balance := b.amount)];
      assert entries == old(entries) + ConfirmEntries(log, seen);
      done := true;
    }

    method ConfirmCharge(k: nat) returns (done: bool)
      requires k < |logs|
      modifies this
      ensures Now() == ChargeConfirm(old(Now()), k)
    {
      var seen := logs[k].status;
      if seen == Canceled {
        seen := Pending;
      }
      done := ConfirmLog(k, seen);
    }

    method CancelLog(k: nat) returns (done: bool)
      requires k < |logs|
      modifies this
      ensures Now() == Cancel(old(Now()), k)
      ensures done <==> old(logs)[k].status != Canceled && old(budget).Some?
    {
      var log := logs[k];
      if log.status == Canceled || budget.None? {
        return false;
      }
      var b := budget.value;
      if log.dir == In {
        if log.status == Confirmed {
          b := Earn(b, -log.flow);
          if IsRebate(log.kind) {
            CreateEntry(Purse, Fanli, log.flow);
          }
        }
      } else {
        b := Spend(b, -log.flow);
        if log.kind == Cashout {
          if log.status == Pending {
            CreateEntry(CashoutPending, Purse, log.flow);
          } else {
            CreateEntry(CashoutConfirmed, Purse, log.flow);
          }
        }
      }
      budget := Some(b);
      logs := logs[k := log.(status := Canceled, balance := b.amount)];
      assert entries == old(entries) + CancelEntries(log);
      done := true;
    }

    method UpdateBudget()
      modifies this
      ensures Now() == Recompute(old(Now()))
    {
      var inAmount, outAmount := SumRecords(Records(logs));
      RecordsTotal(logs);
      var cash := inAmount - outAmount;
      if budget.None? {
        budget := Some(Budget(cash, inAmount, outAmount));
        assert entries == old(entries) + [];
      } else {
        var delta := cash - budget.value.amount;
        if delta > 0 {
          CreateEntry(Receipts, Purse, delta);
        }
        if delta < 0 {
          CreateEntry(Purse, Receipts, -delta);
        }
        assert delta == 0 ==> entries == old(entries) + [];
        budget := Some(Budget(cash, inAmount, outAmount));
      }
    }

    method CheckBudget() returns (ok: bool)
      requires budget.Some?
      ensures ok <==> Check(Now())
    {
      var inAmount, outAmount := SumRecords(Records(logs));
      RecordsTotal(logs);
      ok := budget.value.amount == inAmount - outAmount;
    }
  }
}
