/** Commissions in flashsale/clickrebeta/models.py: saving a line recomputes its order, and saving an
    order recomputes the agent's row of the day. Money is cents. */
module Commission {

  datatype Status = WaitSend | Finished | Refunded

  /** A commission line and the position of its order. */
  datatype Line = Line(order: nat, amount: int, rebate: int, status: Status)

  /** An order of an agent; the shop time is a day and the microseconds since midnight. */
  datatype Order =
    Order(link: int, buyer: string, day: int, micros: nat, price: int, amount: int, rebate: int, status: Status)

  datatype DayKey = DayKey(link: int, day: int)

  datatype DayRow = DayRow(buyers: nat, orders: nat, price: int, rebate: int)

  datatype State = State(lines: seq<Line>, orders: seq<Order>, days: map<DayKey, DayRow>)

  /** 23:59:59, the inclusive end of a day's range. */
  const LAST_MICRO := 86399000000

  // ---- From lines to an order ----

  predicate IsNormal(line: Line, o: nat) {
    line.order == o && line.status != Refunded
  }

  function NormalLines(lines: seq<Line>, o: nat): seq<Line> {
    if lines == [] then []
    else
      var last := lines[|lines| - 1];
      NormalLines(lines[..|lines| - 1], o) + if IsNormal(last, o) then [last] else []
  }

  function Amounts(lines: seq<Line>): int {
    if lines == [] then 0 else Amounts(lines[..|lines| - 1]) + lines[|lines| - 1].amount
  }

  function Rebates(lines: seq<Line>): int {
    if lines == [] then 0 else Rebates(lines[..|lines| - 1]) + lines[|lines| - 1].rebate
  }

  predicate AllFinished(lines: seq<Line>) {
    forall i :: 0 <= i < |lines| ==> lines[i].status == Finished
  }

  /** An order's totals are those of its lines that are not refunded, and it is finished exactly when
      all of those are. */
  predicate TotalsAgree(st: State, o: nat)
    requires o < |st.orders|
  {
    var normal := NormalLines(st.lines, o);
    && st.orders[o].amount == Amounts(normal)
    && st.orders[o].rebate == Rebates(normal)
    && (st.orders[o].status == Finished <==> AllFinished(normal))
    && st.orders[o].status != Refunded
  }

  // ---- From orders to a day ----

  function KeyOf(o: Order): DayKey {
    DayKey(o.link, o.day)
  }

  predicate IsCounted(o: Order, key: DayKey) {
    KeyOf(o) == key && o.micros <= LAST_MICRO && o.status != Refunded
  }

  function Counted(orders: seq<Order>, key: DayKey): seq<Order> {
    if orders == [] then []
    else
      var last := orders[|orders| - 1];
      Counted(orders[..|orders| - 1], key) + if IsCounted(last, key) then [last] else []
  }

  function Prices(orders: seq<Order>): int {
    if orders == [] then 0 else Prices(orders[..|orders| - 1]) + orders[|orders| - 1].price
  }

  function OrderRebates(orders: seq<Order>): int {
    if orders == [] then 0 else OrderRebates(orders[..|orders| - 1]) + orders[|orders| - 1].rebate
  }

  function Buyers(orders: seq<Order>): set<string> {
    set o | o in orders :: o.buyer
  }

  /** The fresh aggregate of an agent's day. */
  function Aggregate(orders: seq<Order>, key: DayKey): DayRow {
    var sel := Counted(orders, key);
    DayRow(|Buyers(sel)|, |sel|, Prices(sel), OrderRebates(sel))
  }

  // ---- The handlers ----

  /** `update_statistic_shopping_stat`, after order `i` was saved. */
  function UpdateDay(st: State, i: nat): State
    requires i < |st.orders|
  {
    var key := KeyOf(st.orders[i]);
    if key !in st.days then st else st.(days := st.days[key := Aggregate(st.orders, key)])
  }

  function SaveOrder(st: State, i: nat, o: Order): State
    requires i < |st.orders|
  {
    UpdateDay(st.(orders := st.orders[i := o]), i)
  }

  function AddOrder(st: State, o: Order): State {
    UpdateDay(st.(orders := st.orders + [o]), |st.orders|)
  }

  function Recalculated(st: State, o: nat): Order
    requires o < |st.orders|
  {
    var normal := NormalLines(st.lines, o);
    st.orders[o].(
      amount := Amounts(normal),
      rebate := Rebates(normal),
      status := if AllFinished(normal) then Finished else WaitSend)
  }

  /** An existing line is saved; `recalc_shopping_rebeta_amount` saves its order. */
  function SaveLine(st: State, k: nat, line: Line): State
    requires k < |st.lines| && line.order < |st.orders|
  {
    var changed := st.(lines := st.lines[k := line]);
    SaveOrder(changed, line.order, Recalculated(changed, line.order))
  }

  /** A new line recalculates nothing. */
  function AddLine(st: State, line: Line): State {
    st.(lines := st.lines + [line])
  }

  // ---- Runs ----

  datatype Op =
    | OpSaveOrder(i: nat, order: Order)
    | OpAddOrder(added: Order)
    | OpSaveLine(k: nat, line: Line)
    | OpAddLine(line: Line)

  /** An order keeps its agent and its shop time. */
  predicate Enabled(st: State, op: Op) {
    match op
    case OpSaveOrder(i, o) => i < |st.orders| && KeyOf(o) == KeyOf(st.orders[i]) && o.micros == st.orders[i].micros
    case OpAddOrder(_) => true
    case OpSaveLine(k, line) => k < |st.lines| && line.order < |st.orders|
    case OpAddLine(line) => line.order < |st.orders|
  }

  function Apply(st: State, op: Op): State
    requires Enabled(st, op)
  {
    match op
    case OpSaveOrder(i, o) => SaveOrder(st, i, o)
    case OpAddOrder(o) => AddOrder(st, o)
    case OpSaveLine(k, line) => SaveLine(st, k, line)
    case OpAddLine(line) => AddLine(st, line)
  }

  predicate IsRun(st: State, ops: seq<Op>)
    decreases |ops|
  {
    ops == [] || (Enabled(st, ops[0]) && IsRun(Apply(st, ops[0]), ops[1..]))
  }

  function End(st: State, ops: seq<Op>): State
    requires IsRun(st, ops)
    decreases |ops|
  {
    if ops == [] then st else End(Apply(st, ops[0]), ops[1..])
  }

  predicate DaysFresh(st: State) {
    forall key :: key in st.days ==> st.days[key] == Aggregate(st.orders, key)
  }

  lemma {:induction false} CountedUpdate(orders: seq<Order>, i: nat, o: Order, key: DayKey)
    requires i < |orders| && !IsCounted(orders[i], key) && !IsCounted(o, key)
    ensures Counted(orders[i := o], key) == Counted(orders, key)
  {
    var n := |orders| - 1;
    if i == n {
      assert orders[i := o][..n] == orders[..n];
    } else {
      assert orders[i := o][..n] == orders[..n][i := o];
      CountedUpdate(orders[..n], i, o, key);
    }
  }

  lemma SaveOrderKeepsFresh(st: State, i: nat, o: Order)
    requires DaysFresh(st) && i < |st.orders| && KeyOf(o) == KeyOf(st.orders[i])
    ensures DaysFresh(SaveOrder(st, i, o))
  {
    var after := SaveOrder(st, i, o);
    forall key | key in after.days && key != KeyOf(o)
      ensures after.days[key] == Aggregate(after.orders, key)
    {
      CountedUpdate(st.orders, i, o, key);
      assert st.days[key] == Aggregate(st.orders, key);
    }
  }

  lemma AddOrderKeepsFresh(st: State, o: Order)
    requires DaysFresh(st)
    ensures DaysFresh(AddOrder(st, o))
  {
    var after := AddOrder(st, o);
    assert after.orders[|st.orders|] == o;
    forall key | key in after.days && key != KeyOf(o)
      ensures after.days[key] == Aggregate(after.orders, key)
    {
      assert (st.orders + [o])[..|st.orders|] == st.orders;
      assert Counted(st.orders, key) + [] == Counted(st.orders, key);
      assert st.days[key] == Aggregate(st.orders, key);
    }
  }

  /** Over every run of saves of orders and lines, each existing row of a day equals the fresh aggregate
      of the agent's orders that day. */
  lemma {:induction false} RunKeepsFresh(st: State, ops: seq<Op>)
    requires DaysFresh(st) && IsRun(st, ops)
    ensures DaysFresh(End(st, ops))
    decreases |ops|
  {
    if ops != [] {
      match ops[0] {
        case OpSaveOrder(i, o) => SaveOrderKeepsFresh(st, i, o);
        case OpAddOrder(o) => AddOrderKeepsFresh(st, o);
        case OpSaveLine(k, line) =>
          var changed := st.(lines := st.lines[k := line]);
          SaveOrderKeepsFresh(changed, line.order, Recalculated(changed, line.order));
        case OpAddLine(line) =>
      }
      RunKeepsFresh(Apply(st, ops[0]), ops[1..]);
    }
  }

  /** A re-saved line leaves its order's totals in agreement with the lines, its day's row fresh, and
      every other order alone. An order whose lines are all refunded comes out as finished. */
  lemma SaveLineSpec(st: State, k: nat, line: Line)
    requires k < |st.lines| && line.order < |st.orders|
    ensures var after := SaveLine(st, k, line);
      && |after.orders| == |st.orders|
      && TotalsAgree(after, line.order)
      && (KeyOf(after.orders[line.order]) in st.days ==>
            var key := KeyOf(after.orders[line.order]); after.days[key] == Aggregate(after.orders, key))
      && (forall o :: 0 <= o < |st.orders| && o != line.order ==> after.orders[o] == st.orders[o])
      && (after.orders[line.order].status == Finished
          <==> forall i :: 0 <= i < |after.lines| && after.lines[i].order == line.order ==>
                 after.lines[i].status != WaitSend)
  {
    var after := SaveLine(st, k, line);
    NormalFinished(after.lines, line.order);
  }

  lemma {:induction false} NormalFinished(lines: seq<Line>, o: nat)
    ensures AllFinished(NormalLines(lines, o))
      <==> forall i :: 0 <= i < |lines| && lines[i].order == o ==> lines[i].status != WaitSend
  {
    if lines != [] {
      var n := |lines| - 1;
      NormalFinished(lines[..n], o);
      FinishedSnoc(NormalLines(lines[..n], o), lines[n]);
      assert forall i :: 0 <= i < n ==> lines[..n][i] == lines[i];
    }
  }

  lemma FinishedSnoc(lines: seq<Line>, line: Line)
    ensures AllFinished(lines + [line]) <==> AllFinished(lines) && line.status == Finished
    ensures AllFinished(lines + []) <==> AllFinished(lines)
  {
    if AllFinished(lines + [line]) {
      assert (lines + [line])[|lines|] == line;
      assert forall i :: 0 <= i < |lines| ==> (lines + [line])[i] == lines[i];
    }
    assert lines + [] == lines;
  }

  /** A new line is not counted until a line of the order is saved again: the totals stay in agreement
      exactly when it counts for nothing. */
  lemma NewLineCountsIff(st: State, line: Line)
    requires line.order < |st.orders| && TotalsAgree(st, line.order)
    ensures TotalsAgree(AddLine(st, line), line.order)
      <==> line.status == Refunded
           || (line.amount == 0 && line.rebate == 0
               && (line.status == Finished || st.orders[line.order].status == WaitSend))
  {
    var after := AddLine(st, line);
    var normal := NormalLines(st.lines, line.order);
    assert after.lines[..|st.lines|] == st.lines && after.lines[|st.lines|] == line;
    FinishedSnoc(normal, line);
    assert normal + [] == normal;
    assert (normal + [line])[..|normal|] == normal;
  }

  function AmountFor(line: Line, o: nat): int {
    if IsNormal(line, o) then line.amount else 0
  }

  function RebateFor(line: Line, o: nat): int {
    if IsNormal(line, o) then line.rebate else 0
  }

  lemma SumsSnoc(lines: seq<Line>, line: Line)
    ensures Amounts(lines + [line]) == Amounts(lines) + line.amount
    ensures Rebates(lines + [line]) == Rebates(lines) + line.rebate
    ensures lines + [] == lines
  {
    assert (lines + [line])[..|lines|] == lines;
  }

  lemma NormalSums(front: seq<Line>, last: Line, o: nat)
    ensures Amounts(NormalLines(front + [last], o)) == Amounts(NormalLines(front, o)) + AmountFor(last, o)
    ensures Rebates(NormalLines(front + [last], o)) == Rebates(NormalLines(front, o)) + RebateFor(last, o)
  {
    assert (front + [last])[..|front|] == front;
    SumsSnoc(NormalLines(front, o), last);
  }

  lemma {:induction false} LineLeaves(lines: seq<Line>, k: nat, line: Line, o: nat)
    requires k < |lines| && lines[k].order == o != line.order
    ensures Amounts(NormalLines(lines[k := line], o)) == Amounts(NormalLines(lines, o)) - AmountFor(lines[k], o)
    ensures Rebates(NormalLines(lines[k := line], o)) == Rebates(NormalLines(lines, o)) - RebateFor(lines[k], o)
  {
    var n := |lines| - 1;
    var front, last := lines[..n], lines[n];
    assert lines == front + [last];
    NormalSums(front, last, o);
    if k == n {
      assert lines[k := line] == front + [line];
      NormalSums(front, line, o);
    } else {
      assert lines[k := line] == front[k := line] + [last];
      NormalSums(front[k := line], last, o);
      LineLeaves(front, k, line, o);
    }
  }

  /** Another line of the order still waits. */
  predicate OtherWaits(lines: seq<Line>, k: nat, o: nat) {
    exists i :: 0 <= i < |lines| && i != k && lines[i].order == o && lines[i].status == WaitSend
  }

  /** A line that is saved under another order is summed up there, and not where it was: the totals of the
      order it left stay in agreement exactly when it counted for nothing and does not leave only finished
      lines behind. */
  lemma MovedLineIff(st: State, k: nat, line: Line)
    requires k < |st.lines| && line.order < |st.orders| && st.lines[k].order < |st.orders|
    requires line.order != st.lines[k].order && TotalsAgree(st, st.lines[k].order)
    ensures var was := st.lines[k];
      TotalsAgree(SaveLine(st, k, line), was.order)
      <==> was.status == Refunded
           || (was.amount == 0 && was.rebate == 0
               && (was.status == Finished || OtherWaits(st.lines, k, was.order)))
  {
    var o, after := st.lines[k].order, st.lines[k := line];
    LineLeaves(st.lines, k, line, o);
    NormalFinished(st.lines, o);
    NormalFinished(after, o);
    WaitsWithout(st.lines, k, line);
  }

  lemma WaitsWithout(lines: seq<Line>, k: nat, line: Line)
    requires k < |lines| && line.order != lines[k].order
    ensures var o, after := lines[k].order, lines[k := line];
      && (OtherWaits(lines, k, o)
          <==> !forall i :: 0 <= i < |after| && after[i].order == o ==> after[i].status != WaitSend)
      && (OtherWaits(lines, k, o) || lines[k].status == WaitSend
          <==> !forall i :: 0 <= i < |lines| && lines[i].order == o ==> lines[i].status != WaitSend)
  {
    var o, after := lines[k].order, lines[k := line];
    if i :| 0 <= i < |after| && after[i].order == o && after[i].status == WaitSend {
      assert i != k && lines[i] == after[i];
    }
    if i :| 0 <= i < |lines| && i != k && lines[i].order == o && lines[i].status == WaitSend {
      assert after[i] == lines[i];
    }
  }

  // ---- What the sums are sums of ----

  /** One more order of an agent's day, not refunded and not in the last second, counts as one order with its
      price and its commission, and as a buyer if none of the others has that one. Any other changes
      nothing, and no orders make an empty row. */
  lemma DayRowSnoc(orders: seq<Order>, o: Order, key: DayKey)
    ensures Aggregate([], key) == DayRow(0, 0, 0, 0)
    ensures var row, after := Aggregate(orders, key), Aggregate(orders + [o], key);
      if o.link == key.link && o.day == key.day && o.micros <= 86399000000 && o.status != Refunded then
        && after.orders == row.orders + 1
        && after.price == row.price + o.price
        && after.rebate == row.rebate + o.rebate
        && after.buyers == row.buyers + if BoughtBefore(orders, o.buyer, key) then 0 else 1
      else after == row
  {
    var sel := Counted(orders, key);
    assert (orders + [o])[..|orders|] == orders;
    assert sel + [] == sel && (sel + [o])[..|sel|] == sel;
    BuyersSnoc(sel, o);
    BuyersOf(orders, o.buyer, key);
  }

  predicate BoughtBefore(orders: seq<Order>, buyer: string, key: DayKey) {
    exists i :: 0 <= i < |orders| && orders[i].buyer == buyer && IsCounted(orders[i], key)
  }

  lemma BuyersSnoc(sel: seq<Order>, o: Order)
    ensures |Buyers(sel + [o])| == |Buyers(sel)| + if o.buyer in Buyers(sel) then 0 else 1
  {
    assert Buyers(sel + [o]) == Buyers(sel) + {o.buyer};
  }

  lemma {:induction false} BuyersOf(orders: seq<Order>, buyer: string, key: DayKey)
    ensures buyer in Buyers(Counted(orders, key)) <==> BoughtBefore(orders, buyer, key)
  {
    if orders != [] {
      var front, last := orders[..|orders| - 1], orders[|orders| - 1];
      BuyersOf(front, buyer, key);
      assert forall i :: 0 <= i < |front| ==> front[i] == orders[i];
      BuyersOfSnoc(Counted(front, key), last, buyer);
      assert Counted(front, key) + [] == Counted(front, key);
    }
  }

  lemma BuyersOfSnoc(sel: seq<Order>, o: Order, buyer: string)
    ensures buyer in Buyers(sel + [o]) <==> buyer in Buyers(sel) || buyer == o.buyer
  {
    assert Buyers(sel + [o]) == Buyers(sel) + {o.buyer};
  }

  /** One more line that is not refunded adds its amount and its commission to what its order is to hold; a
      line that is refunded or of another order adds nothing. */
  lemma OrderSumsSnoc(st: State, line: Line, o: nat)
    requires o < |st.orders|
    ensures var before, after := Recalculated(st, o), Recalculated(AddLine(st, line), o);
      && after.amount == before.amount + (if line.order == o && line.status != Refunded then line.amount else 0)
      && after.rebate == before.rebate + (if line.order == o && line.status != Refunded then line.rebate else 0)
    ensures st.lines == [] ==> Recalculated(st, o).amount == 0 && Recalculated(st, o).rebate == 0
  {
    NormalSums(st.lines, line, o);
  }

  // ---- Where a row goes stale ----

  /** An order that changes its agent or its day leaves a wrong row behind exactly when it was counted. */
  lemma MovedOrderStaleIff(st: State, i: nat, o: Order)
    requires DaysFresh(st) && i < |st.orders|
    requires KeyOf(o) != KeyOf(st.orders[i]) && KeyOf(st.orders[i]) in st.days
    ensures var key, after := KeyOf(st.orders[i]), SaveOrder(st, i, o);
      after.days[key] == Aggregate(after.orders, key) <==> !IsCounted(st.orders[i], key)
  {
    var key, after := KeyOf(st.orders[i]), SaveOrder(st, i, o);
    assert after.orders == st.orders[i := o] && after.days[key] == st.days[key];
    MovedAggregate(st.orders, i, o, key);
  }

  lemma MovedAggregate(orders: seq<Order>, i: nat, o: Order, key: DayKey)
    requires i < |orders| && KeyOf(o) != key
    ensures Aggregate(orders[i := o], key) == Aggregate(orders, key) <==> !IsCounted(orders[i], key)
  {
    if IsCounted(orders[i], key) {
      CountedLess(orders, i, o, key);
      assert Aggregate(orders[i := o], key).orders != Aggregate(orders, key).orders;
    } else {
      CountedUpdate(orders, i, o, key);
    }
  }

  lemma {:induction false} CountedLess(orders: seq<Order>, i: nat, o: Order, key: DayKey)
    requires i < |orders| && IsCounted(orders[i], key) && !IsCounted(o, key)
    ensures |Counted(orders[i := o], key)| == |Counted(orders, key)| - 1
  {
    var n := |orders| - 1;
    if i == n {
      assert orders[i := o][..n] == orders[..n];
    } else {
      assert orders[i := o][..n] == orders[..n][i := o];
      CountedLess(orders[..n], i, o, key);
    }
  }

  function OrdersOfDay(orders: seq<Order>, key: DayKey): nat {
    if orders == [] then 0
    else
      var last := orders[|orders| - 1];
      OrdersOfDay(orders[..|orders| - 1], key) + if KeyOf(last) == key && last.status != Refunded then 1 else 0
  }

  predicate InLastSecond(o: Order, key: DayKey) {
    KeyOf(o) == key && o.status != Refunded && o.micros > LAST_MICRO
  }

  /** The row counts all the orders of its day exactly when none falls behind 23:59:59. */
  lemma {:induction false} CountsAllIff(orders: seq<Order>, key: DayKey)
    ensures Aggregate(orders, key).orders <= OrdersOfDay(orders, key)
    ensures Aggregate(orders, key).orders == OrdersOfDay(orders, key)
      <==> forall i :: 0 <= i < |orders| ==> !InLastSecond(orders[i], key)
  {
    if orders != [] {
      var n := |orders| - 1;
      CountsAllIff(orders[..n], key);
      InTimeSnoc(orders, key);
    }
  }

  lemma InTimeSnoc(orders: seq<Order>, key: DayKey)
    requires orders != []
    ensures var n := |orders| - 1;
      (forall i :: 0 <= i < |orders| ==> !InLastSecond(orders[i], key))
      <==> (forall i :: 0 <= i < n ==> !InLastSecond(orders[..n][i], key)) && !InLastSecond(orders[n], key)
  {
    var n := |orders| - 1;
    assert forall i :: 0 <= i < n ==> orders[..n][i] == orders[i];
  }

  // ---- The tables, updated in place ----

  class RebateTables {
    var lines: seq<Line>
    var orders: seq<Order>
    var days: map<DayKey, DayRow>

    function Now(): State
      reads this
    {
      State(lines, orders, days)
    }

    /** Saves order `i`, with the signal that updates the day. */
    method WriteOrder(i: nat, o: Order)
      requires i < |orders|
      modifies this
      ensures Now() == SaveOrder(old(Now()), i, o)
    {
      orders := orders[i := o];
      var key := KeyOf(o);
      if key !in days {
        return;
      }
      var sel := Counted(orders, key);
      var row := days[key];
      row := row.(orders := |sel|);
      row := row.(buyers := |Buyers(sel)|);
      row := row.(price := Prices(sel));
      row := row.(rebate := OrderRebates(sel));
      days := days[key := row];
    }

    /** Saves line `k`, with the signal that sums up its order. */
    method WriteLine(k: nat, line: Line)
      requires k < |lines| && line.order < |orders|
      modifies this
      ensures Now() == SaveLine(old(Now()), k, line)
      ensures TotalsAgree(Now(), line.order)
    {
      lines := lines[k := line];
      var normal := NormalLines(lines, line.order);
      var amount, rebate, status := 0, 0, 1;
      for i := 0 to |normal|
        invariant lines == old(lines)[k := line] && orders == old(orders) && days == old(days)
        invariant amount == Amounts(normal[..i]) && rebate == Rebates(normal[..i])
        invariant status == if AllFinished(normal[..i]) then 1 else 0
      {
        assert normal[..i + 1] == normal[..i] + [normal[i]];
        FinishedSnoc(normal[..i], normal[i]);
        NormalAt(lines, line.order, i);
        amount := amount + normal[i].amount;
        rebate := rebate + normal[i].rebate;
        status := BitAnd(status, StatusCode(normal[i].status));
      }
      assert normal[..|normal|] == normal;
      var o := orders[line.order].(
        amount := amount,
        rebate := rebate,
        status := if status == 1 then Finished else WaitSend);
      WriteOrder(line.order, o);
      SaveLineSpec(old(Now()), k, line);
    }
  }

  function StatusCode(s: Status): int {
    match s
    case WaitSend => 0
    case Finished => 1
    case Refunded => 2
  }

  /** `&` of a bit and a status code that is a bit. */
  function BitAnd(a: int, b: int): int {
    if a == 1 && b == 1 then 1 else 0
  }

  lemma {:induction false} NormalAt(lines: seq<Line>, o: nat, i: nat)
    requires i < |NormalLines(lines, o)|
    ensures NormalLines(lines, o)[i].status != Refunded
  {
    var n := |lines| - 1;
    if i < |NormalLines(lines[..n], o)| {
      NormalAt(lines[..n], o, i);
    }
  }
}
