/** Merging and splitting of bills, flashsale/finance/models.py. A bill's id is its position in the
    table; money is cents. */
module Bills {
  import opened Lists
  import opened PyText

  datatype Type = Pay | Void | Receive

  datatype Status = Delay | Pending | Dealed | Completed

  datatype Method = SelfPay | Transfer | OtherMethod

  datatype Bill = Bill(kind: Type, status: Status, pay: Method, supplier: int, plan: int, amount: int)

  /** The object that a bill was made for. */
  datatype Target = Target(content: int, object: string, rtype: int)

  datatype Relation = Relation(bill: nat, target: Target)

  datatype State = State(bills: seq<Bill>, rels: seq<Relation>)

  function Sign(kind: Type): int {
    match kind
    case Pay => -1
    case Void => 0
    case Receive => 1
  }

  /** What a bill adds to the balance. */
  function Signed(b: Bill): int {
    Sign(b.kind) * b.plan
  }

  function SignedTotal(bills: seq<Bill>): int {
    if bills == [] then 0 else SignedTotal(bills[..|bills| - 1]) + Signed(bills[|bills| - 1])
  }

  function AmountTotal(bills: seq<Bill>): int {
    if bills == [] then 0 else AmountTotal(bills[..|bills| - 1]) + bills[|bills| - 1].amount
  }

  // ---- Merging ----

  datatype MergeError = IsVoid | Suppliers | IsCompleted | PaidBySelf

  predicate AnyVoid(bills: seq<Bill>) {
    exists i :: 0 <= i < |bills| && bills[i].kind == Void
  }

  predicate AnyCompleted(bills: seq<Bill>) {
    exists i :: 0 <= i < |bills| && bills[i].status == Completed
  }

  predicate AnySelfPay(bills: seq<Bill>) {
    exists i :: 0 <= i < |bills| && bills[i].pay == SelfPay
  }

  predicate OneSupplier(bills: seq<Bill>) {
    forall i, j :: 0 <= i < j < |bills| ==> bills[i].supplier == bills[j].supplier
  }

  /** `check_merge`, by set comprehensions over the bills; the first failing test names the error. */
  method CheckMerge(bills: seq<Bill>) returns (error: Option<MergeError>)
    ensures error.None? <==> !AnyVoid(bills) && OneSupplier(bills) && !AnyCompleted(bills) && !AnySelfPay(bills)
    ensures error == Some(IsVoid) <==> AnyVoid(bills)
    ensures error == Some(Suppliers) <==> !AnyVoid(bills) && !OneSupplier(bills)
    ensures error == Some(IsCompleted) <==> !AnyVoid(bills) && OneSupplier(bills) && AnyCompleted(bills)
  {
    if Void in (set b | b in bills :: b.kind) {
      return Some(IsVoid);
    }
    var suppliers := set b | b in bills :: b.supplier;
    OneElementIff(bills, suppliers);
    if |suppliers| > 1 {
      return Some(Suppliers);
    }
    if Completed in (set b | b in bills :: b.status) {
      return Some(IsCompleted);
    }
    if SelfPay in (set b | b in bills :: b.pay) {
      return Some(PaidBySelf);
    }
    return None;
  }

  lemma OneElementIff(bills: seq<Bill>, suppliers: set<int>)
    requires suppliers == set b | b in bills :: b.supplier
    ensures |suppliers| > 1 <==> !OneSupplier(bills)
  {
    if OneSupplier(bills) {
      if bills != [] {
        assert suppliers == {bills[0].supplier};
      } else {
        assert suppliers == {};
      }
    } else {
      var i, j :| 0 <= i < j < |bills| && bills[i].supplier != bills[j].supplier;
      assert bills[i] in bills && bills[j] in bills;
      var two := {bills[i].supplier, bills[j].supplier};
      assert two <= suppliers && |two| == 2;
      SubsetCount(two, suppliers);
    }
  }

  predicate AreBills(st: State, ids: seq<nat>) {
    forall i :: 0 <= i < |ids| ==> ids[i] < |st.bills|
  }

  function PlanOf(bills: seq<Bill>, ids: seq<nat>): int
    requires forall i :: 0 <= i < |ids| ==> ids[i] < |bills|
  {
    if ids == [] then 0 else PlanOf(bills, ids[..|ids| - 1]) + Signed(bills[ids[|ids| - 1]])
  }

  predicate AnyOpen(bills: seq<Bill>, ids: seq<nat>)
    requires forall i :: 0 <= i < |ids| ==> ids[i] < |bills|
  {
    exists i :: 0 <= i < |ids| && (bills[ids[i]].status == Pending || bills[ids[i]].status == Delay)
  }

  function MergedBill(bills: seq<Bill>, ids: seq<nat>): Bill
    requires ids != [] && forall i :: 0 <= i < |ids| ==> ids[i] < |bills|
  {
    var plan := PlanOf(bills, ids);
    Bill(if plan > 0 then Receive else if plan < 0 then Pay else Void,
         if AnyOpen(bills, ids) then Pending else Dealed,
         Transfer, bills[ids[0]].supplier, if plan < 0 then -plan else plan, 0)
  }

  /** The bills of the list are made void. */
  function VoidAll(bills: seq<Bill>, ids: seq<nat>): (r: seq<Bill>)
    ensures |r| == |bills|
  {
    seq(|bills|, i requires 0 <= i < |bills| => if i in ids then bills[i].(kind := Void) else bills[i])
  }

  function RelationsOf(rels: seq<Relation>, bill: nat): seq<Relation> {
    if rels == [] then []
    else
      var last := rels[|rels| - 1];
      RelationsOf(rels[..|rels| - 1], bill) + if last.bill == bill then [last] else []
  }

  /** `get_or_create` of each relation for another bill. */
  function MoveRelations(rels: seq<Relation>, source: seq<Relation>, bill: nat): seq<Relation> {
    if source == [] then rels
    else
      var before := MoveRelations(rels, source[..|source| - 1], bill);
      var r := Relation(bill, source[|source| - 1].target);
      if r in before then before else before + [r]
  }

  function MergeRelations(rels: seq<Relation>, ids: seq<nat>, bill: nat): seq<Relation> {
    if ids == [] then rels
    else
      var before := MergeRelations(rels, ids[..|ids| - 1], bill);
      MoveRelations(before, RelationsOf(before, ids[|ids| - 1]), bill)
  }

  /** `merge`: a new bill for the net amount, the others void. */
  function Merge(st: State, ids: seq<nat>): State
    requires ids != [] && AreBills(st, ids)
  {
    State(VoidAll(st.bills, ids) + [MergedBill(st.bills, ids)], MergeRelations(st.rels, ids, |st.bills|))
  }

  /** `split`: a copy with part of the amount; the bill keeps the rest. */
  function Split(st: State, k: nat, amount: int): State
    requires k < |st.bills|
  {
    var b := st.bills[k];
    State(st.bills[k := b.(amount := b.amount - amount)] + [b.(amount := amount)], st.rels)
  }

  // ---- Conservation ----

  lemma {:induction false} TotalsUpdate(bills: seq<Bill>, k: nat, b: Bill)
    requires k < |bills|
    ensures SignedTotal(bills[k := b]) == SignedTotal(bills) - Signed(bills[k]) + Signed(b)
    ensures AmountTotal(bills[k := b]) == AmountTotal(bills) - bills[k].amount + b.amount
  {
    var n := |bills| - 1;
    if k == n {
      assert bills[k := b][..n] == bills[..n];
    } else {
      assert bills[k := b][..n] == bills[..n][k := b];
      TotalsUpdate(bills[..n], k, b);
    }
  }

  lemma TotalsAppend(bills: seq<Bill>, b: Bill)
    ensures SignedTotal(bills + [b]) == SignedTotal(bills) + Signed(b)
    ensures AmountTotal(bills + [b]) == AmountTotal(bills) + b.amount
  {
    assert (bills + [b])[..|bills|] == bills;
  }

  /** What the bills that the list names again count for, a second time. */
  function Repeated(bills: seq<Bill>, ids: seq<nat>): int
    requires forall i :: 0 <= i < |ids| ==> ids[i] < |bills|
  {
    if ids == [] then 0
    else
      var front, last := ids[..|ids| - 1], ids[|ids| - 1];
      Repeated(bills, front) + if last in front then Signed(bills[last]) else 0
  }

  lemma {:induction false} DistinctRepeatsNothing(bills: seq<Bill>, ids: seq<nat>)
    requires Distinct(ids) && forall i :: 0 <= i < |ids| ==> ids[i] < |bills|
    ensures Repeated(bills, ids) == 0
  {
    if ids != [] {
      DistinctRepeatsNothing(bills, ids[..|ids| - 1]);
    }
  }

  lemma {:induction false} VoidTotals(bills: seq<Bill>, ids: seq<nat>)
    requires forall i :: 0 <= i < |ids| ==> ids[i] < |bills|
    ensures SignedTotal(VoidAll(bills, ids)) == SignedTotal(bills) - PlanOf(bills, ids) + Repeated(bills, ids)
    ensures AmountTotal(VoidAll(bills, ids)) == AmountTotal(bills)
  {
    if ids == [] {
      assert VoidAll(bills, ids) == bills;
    } else {
      var front, last := ids[..|ids| - 1], ids[|ids| - 1];
      VoidTotals(bills, front);
      VoidOneMore(bills, front, last);
      assert ids == front + [last];
      TotalsUpdate(VoidAll(bills, front), last, bills[last].(kind := Void));
    }
  }

  lemma VoidOneMore(bills: seq<Bill>, front: seq<nat>, last: nat)
    requires last < |bills|
    ensures VoidAll(bills, front + [last]) == VoidAll(bills, front)[last := bills[last].(kind := Void)]
    ensures VoidAll(bills, front)[last] == if last in front then bills[last].(kind := Void) else bills[last]
  {
    assert forall i :: i in front + [last] <==> i in front || i == last;
  }

  /** A merge keeps the balance over all bills, the net of zero included, but for what a list that names
      a bill again counts twice; it keeps the sum of the amounts; every merged bill is void, and no other
      bill changes. */
  lemma MergeConserves(st: State, ids: seq<nat>)
    requires ids != [] && AreBills(st, ids)
    ensures var after := Merge(st, ids);
      && SignedTotal(after.bills) == SignedTotal(st.bills) + Repeated(st.bills, ids)
      && (Distinct(ids) ==> SignedTotal(after.bills) == SignedTotal(st.bills))
      && AmountTotal(after.bills) == AmountTotal(st.bills)
      && (forall i :: 0 <= i < |ids| ==> after.bills[ids[i]].kind == Void)
      && (forall k :: 0 <= k < |st.bills| && k !in ids ==> after.bills[k] == st.bills[k])
  {
    MergeTotals(st.bills, ids);
    VoidAllAt(st.bills, ids, MergedBill(st.bills, ids));
    if Distinct(ids) {
      DistinctRepeatsNothing(st.bills, ids);
    }
  }

  lemma MergedSign(bills: seq<Bill>, ids: seq<nat>)
    requires ids != [] && forall i :: 0 <= i < |ids| ==> ids[i] < |bills|
    ensures Signed(MergedBill(bills, ids)) == PlanOf(bills, ids) && MergedBill(bills, ids).amount == 0
  {
  }

  lemma MergeTotals(bills: seq<Bill>, ids: seq<nat>)
    requires ids != [] && forall i :: 0 <= i < |ids| ==> ids[i] < |bills|
    ensures SignedTotal(VoidAll(bills, ids) + [MergedBill(bills, ids)]) == SignedTotal(bills) + Repeated(bills, ids)
    ensures AmountTotal(VoidAll(bills, ids) + [MergedBill(bills, ids)]) == AmountTotal(bills)
  {
    VoidTotals(bills, ids);
    MergedSign(bills, ids);
    TotalsAppend(VoidAll(bills, ids), MergedBill(bills, ids));
  }

  lemma VoidAllAt(bills: seq<Bill>, ids: seq<nat>, b: Bill)
    requires forall i :: 0 <= i < |ids| ==> ids[i] < |bills|
    ensures var after := VoidAll(bills, ids) + [b];
      && (forall i :: 0 <= i < |ids| ==> after[ids[i]].kind == Void)
      && (forall k :: 0 <= k < |bills| && k !in ids ==> after[k] == bills[k])
  {
  }

  /** A split keeps the sum of the amounts; the balance grows by the bill's plan, which is copied whole. */
  lemma SplitTotals(st: State, k: nat, amount: int)
    requires k < |st.bills|
    ensures var after := Split(st, k, amount);
      && AmountTotal(after.bills) == AmountTotal(st.bills)
      && SignedTotal(after.bills) == SignedTotal(st.bills) + Signed(st.bills[k])
  {
    var b := st.bills[k];
    var rest := b.(amount := b.amount - amount);
    TotalsUpdate(st.bills, k, rest);
    TotalsAppend(st.bills[k := rest], b.(amount := amount));
    assert Signed(rest) == Signed(b) && Signed(b.(amount := amount)) == Signed(b);
  }

  /** So a split keeps the balance exactly for a bill that has no part in it. */
  lemma SplitBalanceIff(st: State, k: nat, amount: int)
    requires k < |st.bills|
    ensures SignedTotal(Split(st, k, amount).bills) == SignedTotal(st.bills)
      <==> st.bills[k].kind == Void || st.bills[k].plan == 0
  {
    SplitTotals(st, k, amount);
  }

  function LiveAmount(bills: seq<Bill>): int {
    if bills == [] then 0
    else
      var last := bills[|bills| - 1];
      LiveAmount(bills[..|bills| - 1]) + if last.kind == Void then 0 else last.amount
  }

  /** The amounts of the live bills that a list names, each once. */
  function AmountsOf(bills: seq<Bill>, ids: seq<nat>): int
    requires forall i :: 0 <= i < |ids| ==> ids[i] < |bills|
  {
    if ids == [] then 0
    else
      var front, last := ids[..|ids| - 1], ids[|ids| - 1];
      AmountsOf(bills, front) + if last in front || bills[last].kind == Void then 0 else bills[last].amount
  }

  lemma {:induction false} LiveUpdate(bills: seq<Bill>, k: nat)
    requires k < |bills|
    ensures LiveAmount(bills[k := bills[k].(kind := Void)])
      == LiveAmount(bills) - if bills[k].kind == Void then 0 else bills[k].amount
  {
    var n := |bills| - 1;
    var after := bills[k := bills[k].(kind := Void)];
    if k == n {
      assert after[..n] == bills[..n];
    } else {
      assert after[..n] == bills[..n][k := bills[k].(kind := Void)];
      LiveUpdate(bills[..n], k);
    }
  }

  lemma {:induction false} VoidLive(bills: seq<Bill>, ids: seq<nat>)
    requires forall i :: 0 <= i < |ids| ==> ids[i] < |bills|
    ensures LiveAmount(VoidAll(bills, ids)) == LiveAmount(bills) - AmountsOf(bills, ids)
  {
    if ids == [] {
      assert VoidAll(bills, ids) == bills;
    } else {
      var front, last := ids[..|ids| - 1], ids[|ids| - 1];
      VoidLive(bills, front);
      assert ids == front + [last];
      VoidOneMore(bills, front, last);
      LiveUpdate(VoidAll(bills, front), last);
    }
  }

  /** The amounts already received do not move to the merged bill: they stay on void bills, and the
      amounts of the live bills keep their sum exactly when there was nothing to lose. */
  lemma MergeLiveAmountIff(st: State, ids: seq<nat>)
    requires ids != [] && AreBills(st, ids)
    ensures LiveAmount(Merge(st, ids).bills) == LiveAmount(st.bills) <==> AmountsOf(st.bills, ids) == 0
  {
    VoidLive(st.bills, ids);
    var b := MergedBill(st.bills, ids);
    assert (VoidAll(st.bills, ids) + [b])[..|st.bills|] == VoidAll(st.bills, ids);
  }

  /** The merged bill is a transfer to the first one's supplier that nothing has been paid on; it is pending
      exactly if some input was pending or delayed, and its type is the sign of the net. Of the inputs only
      the type changes. */
  lemma MergedFields(st: State, ids: seq<nat>)
    requires ids != [] && AreBills(st, ids)
    ensures var after := Merge(st, ids).bills;
      && |after| == |st.bills| + 1
      && var b := after[|st.bills|];
      && b.pay == Transfer && b.amount == 0 && b.supplier == st.bills[ids[0]].supplier && b.plan >= 0
      && (b.status == Pending
          <==> exists i :: 0 <= i < |ids| && (st.bills[ids[i]].status == Pending || st.bills[ids[i]].status == Delay))
      && (b.status == Dealed || b.status == Pending)
      && (b.kind == Receive <==> PlanOf(st.bills, ids) > 0)
      && (b.kind == Pay <==> PlanOf(st.bills, ids) < 0)
      && (forall k :: 0 <= k < |st.bills| ==>
            after[k] == if k in ids then st.bills[k].(kind := Void) else st.bills[k])
  {
  }

  /** A split adds a bill that is like the old one but for its amount, and takes that amount off the old one. */
  lemma SplitFields(st: State, k: nat, amount: int)
    requires k < |st.bills|
    ensures var after, b := Split(st, k, amount).bills, st.bills[k];
      && |after| == |st.bills| + 1
      && after[|st.bills|] == Bill(b.kind, b.status, b.pay, b.supplier, b.plan, amount)
      && after[k] == Bill(b.kind, b.status, b.pay, b.supplier, b.plan, b.amount - amount)
      && (forall j :: 0 <= j < |st.bills| && j != k ==> after[j] == st.bills[j])
      && Split(st, k, amount).rels == st.rels
  {
  }

  // ---- Relations ----

  /** Relations of one bill are added behind the old ones, each of them once. */
  predicate Added(rels: seq<Relation>, after: seq<Relation>, bill: nat) {
    && |rels| <= |after|
    && after[..|rels|] == rels
    && (forall i :: |rels| <= i < |after| ==> after[i].bill == bill)
    && (forall i, j :: 0 <= i < j < |after| && |rels| <= j ==> after[i] != after[j])
  }

  lemma AddedTwice(a: seq<Relation>, b: seq<Relation>, c: seq<Relation>, bill: nat)
    requires Added(a, b, bill) && Added(b, c, bill)
    ensures Added(a, c, bill)
  {
    assert c[..|a|] == c[..|b|][..|a|];
    forall i | |a| <= i < |c|
      ensures c[i].bill == bill
    {
      assert i < |b| ==> c[..|b|][i] == b[i];
    }
    forall i, j | 0 <= i < j < |c| && |a| <= j
      ensures c[i] != c[j]
    {
      assert j < |b| ==> c[..|b|][i] == b[i] && c[..|b|][j] == b[j];
    }
  }

  lemma {:induction false} RelationsOfSpec(rels: seq<Relation>, bill: nat)
    ensures forall r :: r in RelationsOf(rels, bill) <==> r in rels && r.bill == bill
  {
    if rels != [] {
      var n := |rels| - 1;
      RelationsOfSpec(rels[..n], bill);
      assert rels == rels[..n] + [rels[n]];
    }
  }

  lemma {:induction false} MoveAdds(rels: seq<Relation>, source: seq<Relation>, bill: nat)
    ensures Added(rels, MoveRelations(rels, source, bill), bill)
  {
    if source != [] {
      MoveAdds(rels, source[..|source| - 1], bill);
    }
  }

  predicate HasTarget(source: seq<Relation>, t: Target) {
    exists i :: 0 <= i < |source| && source[i].target == t
  }

  lemma {:induction false} MovedTarget(rels: seq<Relation>, source: seq<Relation>, bill: nat, t: Target)
    ensures Relation(bill, t) in MoveRelations(rels, source, bill)
      <==> Relation(bill, t) in rels || HasTarget(source, t)
  {
    if source != [] {
      var n := |source| - 1;
      MovedTarget(rels, source[..n], bill, t);
      assert HasTarget(source, t) <==> HasTarget(source[..n], t) || source[n].target == t;
    }
  }

  lemma {:induction false} MergeAdds(rels: seq<Relation>, ids: seq<nat>, bill: nat)
    ensures Added(rels, MergeRelations(rels, ids, bill), bill)
  {
    if ids != [] {
      var before := MergeRelations(rels, ids[..|ids| - 1], bill);
      MergeAdds(rels, ids[..|ids| - 1], bill);
      MoveAdds(before, RelationsOf(before, ids[|ids| - 1]), bill);
      AddedTwice(rels, before, MergeRelations(rels, ids, bill), bill);
    }
  }

  predicate Belongs(rels: seq<Relation>, ids: seq<nat>, t: Target) {
    exists i :: 0 <= i < |ids| && Relation(ids[i], t) in rels
  }

  lemma {:induction false} MergedTarget(rels: seq<Relation>, ids: seq<nat>, bill: nat, t: Target)
    requires bill !in ids && forall i :: 0 <= i < |rels| ==> rels[i].bill != bill
    ensures Relation(bill, t) in MergeRelations(rels, ids, bill) <==> Belongs(rels, ids, t)
  {
    if ids != [] {
      var n := |ids| - 1;
      var before := MergeRelations(rels, ids[..n], bill);
      var source := RelationsOf(before, ids[n]);
      MergedTarget(rels, ids[..n], bill, t);
      MergeAdds(rels, ids[..n], bill);
      MovedTarget(before, source, bill, t);
      SourceTarget(rels, before, bill, ids[n], t);
      assert Belongs(rels, ids, t) <==> Belongs(rels, ids[..n], t) || Relation(ids[n], t) in rels;
    }
  }

  lemma SourceTarget(rels: seq<Relation>, before: seq<Relation>, bill: nat, k: nat, t: Target)
    requires Added(rels, before, bill) && k != bill
    ensures HasTarget(RelationsOf(before, k), t) <==> Relation(k, t) in rels
  {
    RelationsOfSpec(before, k);
    assert before == rels + before[|rels|..];
    var source := RelationsOf(before, k);
    if HasTarget(source, t) {
      var i :| 0 <= i < |source| && source[i].target == t;
      assert source[i] in source && source[i] == Relation(k, t);
    }
    if Relation(k, t) in rels {
      assert Relation(k, t) in source;
    }
  }

  /** After a merge each target of the merged bills belongs to the new bill, exactly once, and nothing
      else does; the old relations stay. */
  lemma MergeRelationsSpec(st: State, ids: seq<nat>)
    requires ids != [] && AreBills(st, ids)
    requires RelationsInTable(st)
    ensures var after, bill := Merge(st, ids).rels, |st.bills|;
      && Added(st.rels, after, bill)
      && forall t :: Relation(bill, t) in after <==> Belongs(st.rels, ids, t)
  {
    MergeAdds(st.rels, ids, |st.bills|);
    forall t
      ensures Relation(|st.bills|, t) in Merge(st, ids).rels <==> Belongs(st.rels, ids, t)
    {
      MergedTarget(st.rels, ids, |st.bills|, t);
    }
  }

  // ---- Runs ----

  datatype Op = OpMerge(ids: seq<nat>) | OpSplit(k: nat, amount: int)

  predicate Enabled(st: State, op: Op) {
    match op
    case OpMerge(ids) => ids != [] && AreBills(st, ids)
    case OpSplit(k, _) => k < |st.bills|
  }

  function Apply(st: State, op: Op): State
    requires Enabled(st, op)
  {
    match op
    case OpMerge(ids) => Merge(st, ids)
    case OpSplit(k, amount) => Split(st, k, amount)
  }

  predicate IsRun(st: State, ops: seq<Op>)
    decreases |ops|
  {
    ops == [] || (Enabled(st, ops[0]) && IsRun(Apply(st, ops[0]), ops[1..]))
  }

  function End(st: State, ops: seq<Op>): State
    requires IsRun(st, ops)
    decreases |ops|
  {
    if ops == [] then st else End(Apply(st, ops[0]), ops[1..])
  }

  /** The plans that an operation brings in once more: a split copies its bill's plan, a merge counts a
      bill again that its list names again. */
  function Doubled(st: State, op: Op): int
    requires Enabled(st, op)
  {
    match op
    case OpMerge(ids) => Repeated(st.bills, ids)
    case OpSplit(k, _) => Signed(st.bills[k])
  }

  function AllDoubled(st: State, ops: seq<Op>): int
    requires IsRun(st, ops)
    decreases |ops|
  {
    if ops == [] then 0 else Doubled(st, ops[0]) + AllDoubled(Apply(st, ops[0]), ops[1..])
  }

  predicate MergesOfDistinct(ops: seq<Op>) {
    forall i :: 0 <= i < |ops| ==> ops[i].OpMerge? && Distinct(ops[i].ids)
  }

  /** Over any run the amounts keep their sum, and the balance moves by what is doubled; so merges of
      lists without repeats keep it. */
  lemma {:induction false} RunConserves(st: State, ops: seq<Op>)
    requires IsRun(st, ops)
    ensures AmountTotal(End(st, ops).bills) == AmountTotal(st.bills)
    ensures SignedTotal(End(st, ops).bills) == SignedTotal(st.bills) + AllDoubled(st, ops)
    ensures MergesOfDistinct(ops) ==> AllDoubled(st, ops) == 0
    decreases |ops|
  {
    if ops != [] {
      match ops[0] {
        case OpMerge(ids) =>
          MergeConserves(st, ids);
          if Distinct(ids) {
            DistinctRepeatsNothing(st.bills, ids);
          }
        case OpSplit(k, amount) => SplitTotals(st, k, amount);
      }
      RunConserves(Apply(st, ops[0]), ops[1..]);
      assert forall i :: 0 <= i < |ops[1..]| ==> ops[1..][i] == ops[i + 1];
    }
  }

  // ---- Relations over a run ----

  /** Every relation belongs to a bill of the table. */
  predicate RelationsInTable(st: State) {
    forall i :: 0 <= i < |st.rels| ==> st.rels[i].bill < |st.bills|
  }

  lemma {:induction false} AddedElsewhere(rels: seq<Relation>, more: seq<Relation>, bill: nat, k: nat)
    requires forall i :: 0 <= i < |more| ==> more[i].bill == bill
    requires k != bill
    ensures RelationsOf(rels + more, k) == RelationsOf(rels, k)
  {
    if more == [] {
      assert rels + more == rels;
    } else {
      var n := |more| - 1;
      AddedElsewhere(rels, more[..n], bill, k);
      assert (rels + more)[..|rels| + n] == rels + more[..n];
      assert RelationsOf(rels, k) + [] == RelationsOf(rels, k);
    }
  }

  /** An operation leaves the relations of all existing bills alone. */
  lemma StepKeepsRelations(st: State, op: Op, k: nat)
    requires RelationsInTable(st) && Enabled(st, op) && k < |st.bills|
    ensures RelationsInTable(Apply(st, op)) && |Apply(st, op).bills| > |st.bills|
    ensures RelationsOf(Apply(st, op).rels, k) == RelationsOf(st.rels, k)
  {
    if op.OpMerge? {
      var after := Merge(st, op.ids).rels;
      MergeAdds(st.rels, op.ids, |st.bills|);
      assert after == st.rels + after[|st.rels|..];
      AddedElsewhere(st.rels, after[|st.rels|..], |st.bills|, k);
      forall i | 0 <= i < |after|
        ensures after[i].bill <= |st.bills|
      {
        assert i < |st.rels| ==> after[i] == after[..|st.rels|][i];
      }
    }
  }

  lemma {:induction false} RunKeepsRelations(st: State, ops: seq<Op>, k: nat)
    requires RelationsInTable(st) && IsRun(st, ops) && k < |st.bills|
    ensures RelationsInTable(End(st, ops))
    ensures RelationsOf(End(st, ops).rels, k) == RelationsOf(st.rels, k)
    decreases |ops|
  {
    if ops != [] {
      StepKeepsRelations(st, ops[0], k);
      RunKeepsRelations(Apply(st, ops[0]), ops[1..], k);
    }
  }

  /** Whatever happens after a merge, its new bill keeps each target of the merged bills, exactly once, and
      nothing else. */
  lemma MergedTargetsStay(st: State, ids: seq<nat>, ops: seq<Op>)
    requires RelationsInTable(st) && ids != [] && AreBills(st, ids) && IsRun(Merge(st, ids), ops)
    ensures var own := RelationsOf(End(Merge(st, ids), ops).rels, |st.bills|);
      && Distinct(own)
      && forall t :: Relation(|st.bills|, t) in own <==> Belongs(st.rels, ids, t)
  {
    var merged := Merge(st, ids);
    if |st.bills| > 0 {
      StepKeepsRelations(st, OpMerge(ids), 0);
    }
    RunKeepsRelations(merged, ops, |st.bills|);
    MergeRelationsSpec(st, ids);
    RelationsOfSpec(merged.rels, |st.bills|);
    AddedAreDistinct(st.rels, merged.rels, |st.bills|);
  }

  lemma AddedAreDistinct(rels: seq<Relation>, after: seq<Relation>, bill: nat)
    requires Added(rels, after, bill) && forall i :: 0 <= i < |rels| ==> rels[i].bill != bill
    ensures Distinct(RelationsOf(after, bill))
  {
    assert after == rels + after[|rels|..];
    OwnRelations(rels, after[|rels|..], bill);
    assert RelationsOf(after, bill) == after[|rels|..];
  }

  lemma {:induction false} OwnRelations(rels: seq<Relation>, more: seq<Relation>, bill: nat)
    requires forall i :: 0 <= i < |rels| ==> rels[i].bill != bill
    requires forall i :: 0 <= i < |more| ==> more[i].bill == bill
    ensures RelationsOf(rels + more, bill) == more
    decreases |rels| + |more|
  {
    if more != [] {
      var n := |more| - 1;
      OwnRelations(rels, more[..n], bill);
      assert (rels + more)[..|rels| + n] == rels + more[..n];
    } else if rels != [] {
      assert rels + more == rels;
      OwnRelations(rels[..|rels| - 1], [], bill);
      assert rels[..|rels| - 1] + [] == rels[..|rels| - 1];
    }
  }

  // ---- The tables, updated in place ----

  lemma VoidWithMerged(bills: seq<Bill>, merged: Bill, k: nat)
    requires k < |bills|
    ensures (bills + [merged])[k := bills[k].(kind := Void)] == bills[k := bills[k].(kind := Void)] + [merged]
  {
  }

  lemma MergeStep(bills: seq<Bill>, rels: seq<Relation>, ids: seq<nat>, i: nat, bill: nat, merged: Bill)
    requires i < |ids| && ids[i] < |bills|
    ensures var now := VoidAll(bills, ids[..i]) + [merged];
      now[ids[i] := now[ids[i]].(kind := Void)] == VoidAll(bills, ids[..i + 1]) + [merged]
    ensures var before := MergeRelations(rels, ids[..i], bill);
      MergeRelations(rels, ids[..i + 1], bill) == MoveRelations(before, RelationsOf(before, ids[i]), bill)
  {
    assert ids[..i + 1] == ids[..i] + [ids[i]];
    assert ids[..i + 1][..i] == ids[..i];
    VoidOneMore(bills, ids[..i], ids[i]);
    VoidWithMerged(VoidAll(bills, ids[..i]), merged, ids[i]);
  }

  /** The bill for the net amount, with the sum over the list. */
  method NewBill(bills: seq<Bill>, ids: seq<nat>) returns (merged: Bill)
    requires ids != [] && forall i :: 0 <= i < |ids| ==> ids[i] < |bills|
    ensures merged == MergedBill(bills, ids)
  {
    var plan := 0;
    for i := 0 to |ids|
      invariant plan == PlanOf(bills, ids[..i])
    {
      assert ids[..i + 1][..i] == ids[..i];
      plan := plan + Signed(bills[ids[i]]);
    }
    assert ids[..|ids|] == ids;
    var kind := if plan == 0 then Void else if plan / Abs(plan) == 1 then Receive else Pay;
    var status := if AnyOpen(bills, ids) then Pending else Dealed;
    merged := Bill(kind, status, Transfer, bills[ids[0]].supplier, Abs(plan), 0);
  }

  class BillTables {
    var bills: seq<Bill>
    var rels: seq<Relation>

    function Now(): State
      reads this
    {
      State(bills, rels)
    }

    method MergeTo(k: nat, bill: nat)
      requires k < |bills|
      modifies this
      ensures bills == old(bills)[k := old(bills)[k].(kind := Void)]
      ensures rels == MoveRelations(old(rels), RelationsOf(old(rels), k), bill)
    {
      var source := RelationsOf(rels, k);
      ghost var before := rels;
      for i := 0 to |source|
        invariant bills == old(bills)
        invariant rels == MoveRelations(before, source[..i], bill)
      {
        assert source[..i + 1][..i] == source[..i];
        var r := Relation(bill, source[i].target);
        if r !in rels {
          rels := rels + [r];
        }
      }
      assert source[..|source|] == source;
      bills := bills[k := bills[k].(kind := Void)];
    }

    method MergeBills(ids: seq<nat>)
      requires ids != [] && AreBills(Now(), ids)
      modifies this
      ensures Now() == Merge(old(Now()), ids)
    {
      ghost var was := Now();
      var bill := |bills|;
      var merged := NewBill(bills, ids);
      bills := bills + [merged];
      assert VoidAll(was.bills, ids[..0]) == was.bills;
      for i := 0 to |ids|
        invariant bills == VoidAll(was.bills, ids[..i]) + [merged]
        invariant rels == MergeRelations(was.rels, ids[..i], bill)
      {
        MergeStep(was.bills, was.rels, ids, i, bill, merged);
        MergeTo(ids[i], bill);
      }
      assert ids[..|ids|] == ids;
    }

    method SplitBill(k: nat, amount: int)
      requires k < |bills|
      modifies this`bills
      ensures Now() == Split(old(Now()), k, amount)
    {
      var copy := bills[k].(amount := amount);
      bills := bills + [copy];
      bills := bills[k := bills[k].(amount := bills[k].amount - amount)];
    }
  }

  function Abs(x: int): int {
    if x < 0 then -x else x
  }
}
