/** The daily sales roll-up of statistics/tasks.py: order records feed SKU rows, and each saved row
    makes the task of its parent due, up to the total of the day. Tasks run in any order. */
module SaleStats {

  import opened PyText

  type Id = string

  /** A number of pieces and the money paid for them, in cents. */
  datatype Amount = Amount(num: int, pay: int)

  const ZERO := Amount(0, 0)

  function Plus(a: Amount, b: Amount): Amount {
    Amount(a.num + b.num, a.pay + b.pay)
  }

  /** Nothing is paid for no pieces. */
  predicate Sane(a: Amount) {
    a.num >= 0 && (a.num == 0 ==> a.pay == 0)
  }

  // ---- Levels ----

  datatype RecordType = Sku | Color | Model | Supplier | Bd | Agg | Snapshot

  function Code(t: RecordType): int {
    match t
    case Sku => 1
    case Color => 4
    case Model => 7
    case Supplier => 13
    case Bd => 14
    case Agg => 16
    case Snapshot => 17
  }

  const RECORD_TYPES := [Sku, Color, Model, Supplier, Bd, Agg, Snapshot]

  function ParentType(t: RecordType): RecordType
    requires t != Snapshot
  {
    match t
    case Sku => Color
    case Color => Model
    case Model => Supplier
    case Supplier => Bd
    case Bd => Agg
    case Agg => Snapshot
  }

  function Below(t: RecordType): RecordType
    requires t != Sku
  {
    match t
    case Color => Sku
    case Model => Color
    case Supplier => Model
    case Bd => Supplier
    case Agg => Bd
    case Snapshot => Agg
  }

  /** The next type is the least one above; so a climb over parents always rises. */
  method FindParentRecordType(t: RecordType) returns (r: Option<RecordType>)
    ensures r.None? <==> t == Snapshot
    ensures r.Some? ==> r.value == ParentType(t)
    ensures r.Some? ==> Code(r.value) > Code(t) && forall u :: Code(u) > Code(t) ==> Code(u) >= Code(r.value)
  {
    for i := 0 to |RECORD_TYPES|
      invariant i <= Index(t) + 1
    {
      assert RECORD_TYPES[i] == Nth(i);
      if Code(RECORD_TYPES[i]) > Code(t) {
        return Some(RECORD_TYPES[i]);
      }
    }
    return None;
  }

  function Index(t: RecordType): nat {
    match t
    case Sku => 0
    case Color => 1
    case Model => 2
    case Supplier => 3
    case Bd => 4
    case Agg => 5
    case Snapshot => 6
  }

  function Nth(i: nat): RecordType {
    if i == 0 then Sku else if i == 1 then Color else if i == 2 then Model else if i == 3 then Supplier
    else if i == 4 then Bd else if i == 5 then Agg else Snapshot
  }

  // ---- Records and rows ----

  const STATUSES := 5

  datatype Rec = Rec(sku: Id, date: int, status: int, amount: Amount)

  /** A row of the daily statistics; `parent == ""` stands for a missing parent. */
  datatype Row = Row(g: Group, status: int, parent: Id, amount: Amount)

  /** The five rows of one id on one day; also the task that recomputes them. */
  datatype Group = Group(rtype: RecordType, id: Id, date: int)

  /** Where the catalogue files an id: the product of a SKU, the model of a product, and so on; the
      parent of a buyer is the day. */
  type Catalogue = (RecordType, Id, int) -> Id

  datatype State = State(recs: seq<Rec>, rows: seq<Row>, pending: seq<Group>)

  predicate HasKey(row: Row, g: Group, status: int) {
    row.g == g && row.status == status
  }

  /** `filter(uni_key=…).first()`: its position, or the number of rows. */
  function FindRow(rows: seq<Row>, g: Group, status: int): (i: nat)
    ensures i <= |rows|
    ensures i < |rows| ==> HasKey(rows[i], g, status)
    ensures forall j :: 0 <= j < i ==> !HasKey(rows[j], g, status)
  {
    if rows == [] || HasKey(rows[0], g, status) then 0 else 1 + FindRow(rows[1..], g, status)
  }

  /** The stored amount, a missing row counting as nothing. */
  function RowAmount(rows: seq<Row>, g: Group, status: int): Amount {
    if rows == [] then ZERO
    else if HasKey(rows[0], g, status) then rows[0].amount
    else RowAmount(rows[1..], g, status)
  }

  lemma {:induction false} RowAmountFound(rows: seq<Row>, g: Group, status: int)
    ensures var i := FindRow(rows, g, status);
      RowAmount(rows, g, status) == if i < |rows| then rows[i].amount else ZERO
  {
    if rows != [] && !HasKey(rows[0], g, status) {
      RowAmountFound(rows[1..], g, status);
    }
  }

  /** The id under which a record counts at a level, following the catalogue; `""` if the chain breaks. */
  function Ancestor(up: Catalogue, t: RecordType, rec: Rec): Id
    decreases Code(t)
  {
    if t == Sku then rec.sku
    else
      var below := Ancestor(up, Below(t), rec);
      if below == "" && Below(t) != Sku then "" else up(Below(t), below, rec.date)
  }

  predicate CountsUnder(up: Catalogue, g: Group, status: int, rec: Rec) {
    rec.date == g.date && rec.status == status && Ancestor(up, g.rtype, rec) == g.id
  }

  function Nums(parts: seq<Amount>): int {
    if parts == [] then 0 else parts[0].num + Nums(parts[1..])
  }

  function Pays(parts: seq<Amount>): int {
    if parts == [] then 0 else parts[0].pay + Pays(parts[1..])
  }

  function Sum(parts: seq<Amount>): Amount {
    Amount(Nums(parts), Pays(parts))
  }

  function Part(up: Catalogue, g: Group, status: int, rec: Rec): Amount {
    if CountsUnder(up, g, status, rec) then rec.amount else ZERO
  }

  function Parts(up: Catalogue, recs: seq<Rec>, g: Group, status: int): seq<Amount> {
    seq(|recs|, k requires 0 <= k < |recs| => Part(up, g, status, recs[k]))
  }

  /** What the order records below a group add up to. */
  function RecTotal(up: Catalogue, recs: seq<Rec>, g: Group, status: int): Amount {
    Sum(Parts(up, recs, g, status))
  }

  predicate IsChild(row: Row, g: Group, status: int) {
    && g.rtype != Sku && row.g.rtype == Below(g.rtype) && row.parent == g.id && row.g.date == g.date
    && row.status == status
  }

  function RowPart(row: Row, g: Group, status: int): Amount {
    if IsChild(row, g, status) then row.amount else ZERO
  }

  function RowParts(rows: seq<Row>, g: Group, status: int): seq<Amount> {
    seq(|rows|, k requires 0 <= k < |rows| => RowPart(rows[k], g, status))
  }

  /** The sum of the rows one level lower that name the group as their parent. */
  function RowTotal(rows: seq<Row>, g: Group, status: int): Amount {
    Sum(RowParts(rows, g, status))
  }

  /** What a task computes: from the order records for a SKU, from the child rows above. */
  function Feed(up: Catalogue, st: State, g: Group, status: int): Amount {
    if g.rtype == Sku then RecTotal(up, st.recs, g, status) else RowTotal(st.rows, g, status)
  }

  // ---- The tasks ----

  /** Whether a task has to save the row of one status: it is new, for a positive number of pieces, or
      its amount has changed. */
  predicate Saves(rows: seq<Row>, g: Group, status: int, total: Amount) {
    var i := FindRow(rows, g, status);
    if i == |rows| then total.num > 0 else rows[i].amount != total
  }

  function SaveRow(rows: seq<Row>, g: Group, parent: Id, status: int, total: Amount): seq<Row> {
    var i := FindRow(rows, g, status);
    if i == |rows| then rows + [Row(g, status, parent, total)]
    else rows[i := rows[i].(amount := total)]
  }

  /** One status of a task. */
  function WriteRow(rows: seq<Row>, g: Group, parent: Id, status: int, total: Amount): seq<Row> {
    if Saves(rows, g, status, total) then SaveRow(rows, g, parent, status, total) else rows
  }

  /** The tasks that saving a row makes due. */
  function Triggers(g: Group, parent: Id): seq<Group> {
    if Code(g.rtype) < Code(Agg) && parent != "" then [Group(ParentType(g.rtype), parent, g.date)] else []
  }

  datatype Written = Written(rows: seq<Row>, due: seq<Group>)

  /** The first `n` statuses of a task. */
  function WriteRows(up: Catalogue, st: State, g: Group, n: nat): Written {
    if n == 0 then Written(st.rows, [])
    else
      var w := WriteRows(up, st, g, n - 1);
      var parent, total := up(g.rtype, g.id, g.date), Feed(up, st, g, n - 1);
      if Saves(w.rows, g, n - 1, total)
      then Written(SaveRow(w.rows, g, parent, n - 1, total), w.due + Triggers(g, parent))
      else w
  }

  function RunTask(up: Catalogue, st: State, i: nat): State
    requires i < |st.pending|
  {
    var w := WriteRows(up, st, st.pending[i], STATUSES);
    State(st.recs, w.rows, st.pending[..i] + st.pending[i + 1..] + w.due)
  }

  function AddRecord(st: State, rec: Rec): State {
    State(st.recs + [rec], st.rows, st.pending + [Group(Sku, rec.sku, rec.date)])
  }

  function SetStatus(st: State, k: nat, status: int): State
    requires k < |st.recs|
  {
    var rec := st.recs[k].(status := status);
    State(st.recs[k := rec], st.rows, st.pending + [Group(Sku, rec.sku, rec.date)])
  }

  // ---- The invariant ----

  predicate UniqueKeys(rows: seq<Row>) {
    forall i, j :: 0 <= i < j < |rows| ==>
      !HasKey(rows[j], rows[i].g, rows[i].status)
  }

  predicate ProperRow(up: Catalogue, row: Row) {
    && row.g.rtype != Snapshot && (row.g.rtype != Sku ==> row.g.id != "")
    && row.parent == up(row.g.rtype, row.g.id, row.g.date)
    && 0 <= row.status < STATUSES && Sane(row.amount)
  }

  predicate ProperRows(up: Catalogue, rows: seq<Row>) {
    UniqueKeys(rows) && forall i :: 0 <= i < |rows| ==> ProperRow(up, rows[i])
  }

  predicate ProperRec(rec: Rec) {
    0 <= rec.status < STATUSES && Sane(rec.amount)
  }

  predicate ProperGroup(g: Group) {
    g.rtype != Snapshot && (g.rtype != Sku ==> g.id != "")
  }

  predicate ProperTables(up: Catalogue, st: State) {
    ProperRows(up, st.rows) && forall k :: 0 <= k < |st.recs| ==> ProperRec(st.recs[k])
  }

  predicate Consistent(up: Catalogue, st: State, g: Group) {
    forall s :: 0 <= s < STATUSES ==> RowAmount(st.rows, g, s) == Feed(up, st, g, s)
  }

  /** Every group agrees with what feeds it, or its task is due. */
  ghost predicate Invariant(up: Catalogue, st: State) {
    && ProperTables(up, st)
    && (forall k :: 0 <= k < |st.pending| ==> ProperGroup(st.pending[k]))
    && (forall g :: ProperGroup(g) ==> Consistent(up, st, g) || g in st.pending)
  }

  // ---- Sums ----

  predicate AllSane(parts: seq<Amount>) {
    forall k :: 0 <= k < |parts| ==> Sane(parts[k])
  }

  /** Sane amounts cannot cancel out. */
  lemma {:induction false} SumIsSane(parts: seq<Amount>)
    requires AllSane(parts)
    ensures Sane(Sum(parts))
    ensures Sum(parts).num == 0 ==> forall k :: 0 <= k < |parts| ==> parts[k] == ZERO
  {
    if parts != [] {
      assert AllSane(parts[1..]) && Sane(parts[0]);
      SumIsSane(parts[1..]);
      if Nums(parts) == 0 {
        forall k | 0 <= k < |parts|
          ensures parts[k] == ZERO
        {
          assert k > 0 ==> parts[k] == parts[1..][k - 1];
        }
      }
    }
  }

  lemma {:induction false} SumZeros(parts: seq<Amount>)
    requires forall k :: 0 <= k < |parts| ==> parts[k] == ZERO
    ensures Sum(parts) == ZERO
  {
    if parts != [] {
      SumZeros(parts[1..]);
    }
  }

  lemma {:induction false} SumSplit(a: seq<Amount>, b: seq<Amount>, c: seq<Amount>)
    requires |a| == |b| == |c| && forall k :: 0 <= k < |c| ==> c[k] == Plus(a[k], b[k])
    ensures Sum(c) == Plus(Sum(a), Sum(b))
  {
    if c != [] {
      assert forall k :: 0 <= k < |c| - 1 ==> c[1..][k] == c[k + 1];
      SumSplit(a[1..], b[1..], c[1..]);
      assert c[0] == Plus(a[0], b[0]);
    }
  }

  lemma {:induction false} SumSnocZero(parts: seq<Amount>)
    ensures Sum(parts + [ZERO]) == Sum(parts)
  {
    if parts == [] {
      assert [ZERO][1..] == [];
    } else {
      assert (parts + [ZERO])[1..] == parts[1..] + [ZERO];
      SumSnocZero(parts[1..]);
    }
  }

  lemma SumFirst(parts: seq<Amount>)
    requires parts != []
    ensures Sum(parts) == Plus(parts[0], Sum(parts[1..]))
  {
  }

  lemma PartsAreSane(up: Catalogue, recs: seq<Rec>, g: Group, status: int)
    requires forall k :: 0 <= k < |recs| ==> ProperRec(recs[k])
    ensures AllSane(Parts(up, recs, g, status))
  {
    forall k | 0 <= k < |recs|
      ensures Sane(Parts(up, recs, g, status)[k])
    {
      assert ProperRec(recs[k]);
    }
  }

  lemma FeedIsSane(up: Catalogue, st: State, g: Group, status: int)
    requires ProperTables(up, st)
    ensures Sane(Feed(up, st, g, status))
  {
    if g.rtype == Sku {
      PartsAreSane(up, st.recs, g, status);
      SumIsSane(Parts(up, st.recs, g, status));
    } else {
      forall k | 0 <= k < |st.rows|
        ensures Sane(RowParts(st.rows, g, status)[k])
      {
        assert ProperRow(up, st.rows[k]);
      }
      SumIsSane(RowParts(st.rows, g, status));
    }
  }

  lemma RecTotalAppend(up: Catalogue, recs: seq<Rec>, rec: Rec, g: Group, status: int)
    requires !CountsUnder(up, g, status, rec)
    ensures RecTotal(up, recs + [rec], g, status) == RecTotal(up, recs, g, status)
  {
    assert Parts(up, recs + [rec], g, status) == Parts(up, recs, g, status) + [ZERO];
    SumSnocZero(Parts(up, recs, g, status));
  }

  lemma RecTotalUpdate(up: Catalogue, recs: seq<Rec>, k: nat, rec: Rec, g: Group, status: int)
    requires k < |recs| && !CountsUnder(up, g, status, rec) && !CountsUnder(up, g, status, recs[k])
    ensures RecTotal(up, recs[k := rec], g, status) == RecTotal(up, recs, g, status)
  {
    assert Parts(up, recs[k := rec], g, status) == Parts(up, recs, g, status);
  }

  lemma RowTotalAppend(rows: seq<Row>, row: Row, g: Group, status: int)
    requires !IsChild(row, g, status)
    ensures RowTotal(rows + [row], g, status) == RowTotal(rows, g, status)
  {
    assert RowParts(rows + [row], g, status) == RowParts(rows, g, status) + [ZERO];
    SumSnocZero(RowParts(rows, g, status));
  }

  lemma RowTotalUpdate(rows: seq<Row>, k: nat, row: Row, g: Group, status: int)
    requires k < |rows| && !IsChild(row, g, status) && !IsChild(rows[k], g, status)
    ensures RowTotal(rows[k := row], g, status) == RowTotal(rows, g, status)
  {
    assert RowParts(rows[k := row], g, status) == RowParts(rows, g, status);
  }

  // ---- One write ----

  /** In a table of unique keys the row of a key is wherever it is found. */
  lemma FindUnique(rows: seq<Row>, i: nat, g: Group, status: int)
    requires UniqueKeys(rows) && i < |rows| && HasKey(rows[i], g, status)
    ensures FindRow(rows, g, status) == i
  {
    var k := FindRow(rows, g, status);
    assert rows[k].g == g;
  }

  /** A write sets its own row to the total and leaves every other key and every other sum alone. */
  lemma WriteRowSpec(up: Catalogue, rows: seq<Row>, g: Group, status: int, total: Amount)
    requires ProperRows(up, rows) && ProperGroup(g) && 0 <= status < STATUSES && Sane(total)
    ensures var after := WriteRow(rows, g, up(g.rtype, g.id, g.date), status, total);
      && ProperRows(up, after)
      && RowAmount(after, g, status) == total
      && (forall s :: s != status ==> RowAmount(after, g, s) == RowAmount(rows, g, s))
      && OnlyChanges(up, rows, after, g)
  {
    var parent := up(g.rtype, g.id, g.date);
    var i := FindRow(rows, g, status);
    if i == |rows| {
      if total.num > 0 {
        AppendSpec(up, rows, Row(g, status, parent, total));
      }
    } else if rows[i].amount != total {
      assert ProperRow(up, rows[i]);
      UpdateSpec(up, rows, i, total);
    }
    RowAmountFound(rows, g, status);
  }

  /** For any amounts: a written row is right unless there was none and the total has money but no
      positive number of pieces, since such a row is not made. */
  lemma WriteRowIff(rows: seq<Row>, g: Group, parent: Id, status: int, total: Amount)
    ensures RowAmount(WriteRow(rows, g, parent, status, total), g, status) == total
      <==> FindRow(rows, g, status) < |rows| || total.num > 0 || total == ZERO
  {
    var i := FindRow(rows, g, status);
    RowAmountFound(rows, g, status);
    if Saves(rows, g, status, total) {
      var after := SaveRow(rows, g, parent, status, total);
      SavedRowFound(rows, g, parent, status, total);
      RowAmountFound(after, g, status);
    }
  }

  lemma {:induction false} SavedRowFound(rows: seq<Row>, g: Group, parent: Id, status: int, total: Amount)
    ensures var after := SaveRow(rows, g, parent, status, total);
      FindRow(after, g, status) == FindRow(rows, g, status) && FindRow(after, g, status) < |after|
  {
    var i, after := FindRow(rows, g, status), SaveRow(rows, g, parent, status, total);
    assert HasKey(after[i], g, status);
    assert forall j :: 0 <= j < i ==> after[j] == rows[j];
  }

  predicate Feeds(row: Row, h: Group) {
    h.rtype != Sku && row.g.rtype == Below(h.rtype) && row.parent == h.id && row.g.date == h.date
  }

  lemma AppendSpec(up: Catalogue, rows: seq<Row>, row: Row)
    requires ProperRows(up, rows) && ProperRow(up, row)
    requires FindRow(rows, row.g, row.status) == |rows|
    ensures ProperRows(up, rows + [row])
    ensures forall h, s ::
      RowAmount(rows + [row], h, s) == if HasKey(row, h, s) then row.amount else RowAmount(rows, h, s)
    ensures forall h, s :: !Feeds(row, h) ==> RowTotal(rows + [row], h, s) == RowTotal(rows, h, s)
  {
    var after := rows + [row];
    forall h, s
      ensures RowAmount(after, h, s) == if HasKey(row, h, s) then row.amount else RowAmount(rows, h, s)
    {
      var k, n := FindRow(after, h, s), FindRow(rows, h, s);
      RowAmountFound(after, h, s);
      RowAmountFound(rows, h, s);
      assert forall j :: 0 <= j < |rows| ==> after[j] == rows[j];
      if HasKey(row, h, s) {
        assert h == row.g && after[|rows|] == row;
        assert k == |rows|;
      } else if n < |rows| {
        assert k == n;
      } else {
        assert k == |after|;
      }
    }
    forall h, s | !Feeds(row, h)
      ensures RowTotal(after, h, s) == RowTotal(rows, h, s)
    {
      RowTotalAppend(rows, row, h, s);
    }
  }

  lemma UpdateSpec(up: Catalogue, rows: seq<Row>, i: nat, total: Amount)
    requires ProperRows(up, rows) && i < |rows| && Sane(total)
    ensures var after := rows[i := rows[i].(amount := total)];
      && ProperRows(up, after)
      && (forall h, s :: RowAmount(after, h, s)
            == if HasKey(rows[i], h, s) then total else RowAmount(rows, h, s))
      && (forall h, s :: !Feeds(rows[i], h) ==> RowTotal(after, h, s) == RowTotal(rows, h, s))
  {
    var row := rows[i].(amount := total);
    var after := rows[i := row];
    assert ProperRow(up, rows[i]);
    forall h, s
      ensures RowAmount(after, h, s) == if HasKey(rows[i], h, s) then total else RowAmount(rows, h, s)
    {
      assert forall j :: 0 <= j < |rows| ==> HasKey(after[j], h, s) == HasKey(rows[j], h, s);
      var k, n := FindRow(after, h, s), FindRow(rows, h, s);
      RowAmountFound(after, h, s);
      RowAmountFound(rows, h, s);
      assert k == n;
      if HasKey(rows[i], h, s) {
        FindUnique(rows, i, h, s);
      }
    }
    forall h, s | !Feeds(rows[i], h)
      ensures RowTotal(after, h, s) == RowTotal(rows, h, s)
    {
      RowTotalUpdate(rows, i, row, h, s);
    }
  }

  // ---- One task ----

  /** Rows that agree with a state but for one group, and for the sums that group feeds. */
  ghost predicate OnlyChanges(up: Catalogue, before: seq<Row>, rows: seq<Row>, g: Group) {
    && (forall h, s :: h != g ==> RowAmount(rows, h, s) == RowAmount(before, h, s))
    && (forall h: Group, s :: h.rtype != Snapshot && !FeedsGroup(up, g, h) ==>
          RowTotal(rows, h, s) == RowTotal(before, h, s))
  }

  /** Whether the rows of `g` are among the child rows of `h`. */
  predicate FeedsGroup(up: Catalogue, g: Group, h: Group) {
    g.rtype != Snapshot && h == Group(ParentType(g.rtype), up(g.rtype, g.id, g.date), g.date)
  }

  lemma {:induction false} WrittenRowsAreProper(up: Catalogue, st: State, g: Group, n: nat)
    requires ProperTables(up, st) && ProperGroup(g) && n <= STATUSES
    ensures ProperRows(up, WriteRows(up, st, g, n).rows)
  {
    if n > 0 {
      WrittenRowsAreProper(up, st, g, n - 1);
      WrittenRowIsProper(up, st, g, n - 1);
    }
  }

  lemma WrittenRowIsProper(up: Catalogue, st: State, g: Group, n: nat)
    requires ProperTables(up, st) && ProperGroup(g) && n < STATUSES
    requires ProperRows(up, WriteRows(up, st, g, n).rows)
    ensures ProperRows(up, WriteRows(up, st, g, n + 1).rows)
  {
    WriteRowsStep(up, st, g, n);
    FeedIsSane(up, st, g, n);
    WriteRowSpec(up, WriteRows(up, st, g, n).rows, g, n, Feed(up, st, g, n));
  }

  lemma WrittenStep(up: Catalogue, st: State, g: Group, n: nat)
    requires ProperTables(up, st) && ProperGroup(g) && n < STATUSES
    ensures var before, after := WriteRows(up, st, g, n).rows, WriteRows(up, st, g, n + 1).rows;
      && RowAmount(after, g, n) == Feed(up, st, g, n)
      && (forall s :: s != n ==> RowAmount(after, g, s) == RowAmount(before, g, s))
      && OnlyChanges(up, before, after, g)
  {
    WrittenRowsAreProper(up, st, g, n);
    WriteRowsStep(up, st, g, n);
    FeedIsSane(up, st, g, n);
    WriteRowSpec(up, WriteRows(up, st, g, n).rows, g, n, Feed(up, st, g, n));
  }

  lemma {:induction false} WrittenRowsAreRight(up: Catalogue, st: State, g: Group, n: nat, s: nat)
    requires ProperTables(up, st) && ProperGroup(g) && s < n <= STATUSES
    ensures RowAmount(WriteRows(up, st, g, n).rows, g, s) == Feed(up, st, g, s)
  {
    WrittenOwnRows(up, st, g, n - 1, s);
    if s < n - 1 {
      WrittenRowsAreRight(up, st, g, n - 1, s);
    }
  }

  lemma WrittenOwnRows(up: Catalogue, st: State, g: Group, n: nat, s: nat)
    requires ProperTables(up, st) && ProperGroup(g) && n < STATUSES
    ensures RowAmount(WriteRows(up, st, g, n + 1).rows, g, s)
         == if s == n then Feed(up, st, g, n) else RowAmount(WriteRows(up, st, g, n).rows, g, s)
  {
    WrittenStep(up, st, g, n);
  }

  lemma {:induction false} WritingOnlyChanges(up: Catalogue, st: State, g: Group, n: nat)
    requires ProperTables(up, st) && ProperGroup(g) && n <= STATUSES
    ensures OnlyChanges(up, st.rows, WriteRows(up, st, g, n).rows, g)
  {
    if n > 0 {
      WritingOnlyChanges(up, st, g, n - 1);
      WrittenOnlyChanges(up, st, g, n - 1);
      OnlyChangesTwice(up, st.rows, WriteRows(up, st, g, n - 1).rows, WriteRows(up, st, g, n).rows, g);
    }
  }

  lemma WrittenOnlyChanges(up: Catalogue, st: State, g: Group, n: nat)
    requires ProperTables(up, st) && ProperGroup(g) && n < STATUSES
    ensures OnlyChanges(up, WriteRows(up, st, g, n).rows, WriteRows(up, st, g, n + 1).rows, g)
  {
    WrittenStep(up, st, g, n);
  }

  lemma WriteRowsStep(up: Catalogue, st: State, g: Group, n: nat)
    ensures var w, total := WriteRows(up, st, g, n), Feed(up, st, g, n);
      var parent := up(g.rtype, g.id, g.date);
      && WriteRows(up, st, g, n + 1).rows == WriteRow(w.rows, g, parent, n, total)
      && WriteRows(up, st, g, n + 1).due
      == w.due + if Saves(w.rows, g, n, total) then Triggers(g, parent) else []
  {
  }

  lemma OnlyChangesTwice(up: Catalogue, a: seq<Row>, b: seq<Row>, c: seq<Row>, g: Group)
    requires OnlyChanges(up, a, b, g) && OnlyChanges(up, b, c, g)
    ensures OnlyChanges(up, a, c, g)
  {
  }

  /** The tasks made due by the first `n` statuses: one for each saved row, all for the parent. */
  lemma {:induction false} DueSpec(up: Catalogue, st: State, g: Group, n: nat)
    ensures var w := WriteRows(up, st, g, n);
      var triggers := Triggers(g, up(g.rtype, g.id, g.date));
      && (w.rows == st.rows || w.due != [] || triggers == [])
      && (forall k :: 0 <= k < |w.due| ==> triggers == [w.due[k]])
      && |w.due| <= n
  {
    if n > 0 {
      DueSpec(up, st, g, n - 1);
    }
  }

  /** After a task every group is as consistent as before, unless its own task is due. */
  lemma TaskKeepsGroup(up: Catalogue, st: State, i: nat, h: Group)
    requires ProperTables(up, st) && i < |st.pending| && ProperGroup(st.pending[i]) && ProperGroup(h)
    requires Consistent(up, st, h) || h in st.pending
    ensures Consistent(up, RunTask(up, st, i), h) || h in RunTask(up, st, i).pending
  {
    var g, after := st.pending[i], RunTask(up, st, i);
    var w := WriteRows(up, st, g, STATUSES);
    WritingOnlyChanges(up, st, g, STATUSES);
    DueSpec(up, st, g, STATUSES);
    if h in st.pending && h != g {
      var k :| 0 <= k < |st.pending| && st.pending[k] == h;
      assert h == if k < i then after.pending[k] else after.pending[k - 1];
    } else if h == g {
      assert !FeedsGroup(up, g, h);
      forall s | 0 <= s < STATUSES
        ensures RowAmount(after.rows, h, s) == Feed(up, after, h, s)
      {
        WrittenRowsAreRight(up, st, g, STATUSES, s);
      }
    } else if FeedsGroup(up, g, h) && w.due != [] {
      assert w.due[0] == h && w.due[0] in after.pending;
    } else if FeedsGroup(up, g, h) {
      assert after.rows == st.rows;
    }
  }

  lemma TaskKeepsInvariant(up: Catalogue, st: State, i: nat)
    requires Invariant(up, st) && i < |st.pending|
    ensures Invariant(up, RunTask(up, st, i))
  {
    var g, after := st.pending[i], RunTask(up, st, i);
    WrittenRowsAreProper(up, st, g, STATUSES);
    DueSpec(up, st, g, STATUSES);
    forall h | ProperGroup(h)
      ensures Consistent(up, after, h) || h in after.pending
    {
      assert Consistent(up, st, h) || h in st.pending;
      TaskKeepsGroup(up, st, i, h);
    }
    forall k | 0 <= k < |after.pending|
      ensures ProperGroup(after.pending[k])
    {
      if k < |st.pending| - 1 {
        assert after.pending[k] == st.pending[if k < i then k else k + 1];
      } else {
        var w := WriteRows(up, st, g, STATUSES);
        assert after.pending[k] == w.due[k - (|st.pending| - 1)];
      }
    }
  }

  lemma RecordKeepsInvariant(up: Catalogue, st: State, recs: seq<Rec>, sku: Id, date: int)
    requires Invariant(up, st)
    requires forall k :: 0 <= k < |recs| ==> ProperRec(recs[k])
    requires forall h: Group, s :: h.rtype == Sku && h != Group(Sku, sku, date) ==>
      RecTotal(up, recs, h, s) == RecTotal(up, st.recs, h, s)
    ensures Invariant(up, State(recs, st.rows, st.pending + [Group(Sku, sku, date)]))
  {
    var after := State(recs, st.rows, st.pending + [Group(Sku, sku, date)]);
    forall h | ProperGroup(h)
      ensures Consistent(up, after, h) || h in after.pending
    {
      if h == Group(Sku, sku, date) {
        assert after.pending[|st.pending|] == h;
      } else if h in st.pending {
        assert h in after.pending;
      } else {
        forall s | 0 <= s < STATUSES
          ensures RowAmount(after.rows, h, s) == Feed(up, after, h, s)
        {
          assert Consistent(up, st, h);
        }
      }
    }
  }

  lemma AddKeepsInvariant(up: Catalogue, st: State, rec: Rec)
    requires Invariant(up, st) && ProperRec(rec)
    ensures Invariant(up, AddRecord(st, rec))
  {
    forall h: Group, s | h.rtype == Sku && h != Group(Sku, rec.sku, rec.date)
      ensures RecTotal(up, st.recs + [rec], h, s) == RecTotal(up, st.recs, h, s)
    {
      RecTotalAppend(up, st.recs, rec, h, s);
    }
    RecordKeepsInvariant(up, st, st.recs + [rec], rec.sku, rec.date);
  }

  lemma SetStatusKeepsInvariant(up: Catalogue, st: State, k: nat, status: int)
    requires Invariant(up, st) && k < |st.recs| && 0 <= status < STATUSES
    ensures Invariant(up, SetStatus(st, k, status))
  {
    var rec := st.recs[k].(status := status);
    assert ProperRec(st.recs[k]);
    forall h: Group, s | h.rtype == Sku && h != Group(Sku, rec.sku, rec.date)
      ensures RecTotal(up, st.recs[k := rec], h, s) == RecTotal(up, st.recs, h, s)
    {
      RecTotalUpdate(up, st.recs, k, rec, h, s);
    }
    RecordKeepsInvariant(up, st, st.recs[k := rec], rec.sku, rec.date);
  }

  // ---- Runs ----

  datatype Op = Add(rec: Rec) | Change(k: nat, status: int) | Task(i: nat)

  predicate Enabled(st: State, op: Op) {
    match op
    case Add(rec) => ProperRec(rec)
    case Change(k, status) => k < |st.recs| && 0 <= status < STATUSES
    case Task(i) => i < |st.pending|
  }

  function Apply(up: Catalogue, st: State, op: Op): State
    requires Enabled(st, op)
  {
    match op
    case Add(rec) => AddRecord(st, rec)
    case Change(k, status) => SetStatus(st, k, status)
    case Task(i) => RunTask(up, st, i)
  }

  /** A run: each operation is possible where it happens. */
  predicate IsRun(up: Catalogue, st: State, ops: seq<Op>)
    decreases ops
  {
    ops == [] || (Enabled(st, ops[0]) && IsRun(up, Apply(up, st, ops[0]), ops[1..]))
  }

  function End(up: Catalogue, st: State, ops: seq<Op>): State
    requires IsRun(up, st, ops)
    decreases ops
  {
    if ops == [] then st else End(up, Apply(up, st, ops[0]), ops[1..])
  }

  lemma {:induction false} RunKeepsInvariant(up: Catalogue, st: State, ops: seq<Op>)
    requires Invariant(up, st) && IsRun(up, st, ops)
    ensures Invariant(up, End(up, st, ops))
    decreases ops
  {
    if ops != [] {
      match ops[0] {
        case Add(rec) => AddKeepsInvariant(up, st, rec);
        case Change(k, status) => SetStatusKeepsInvariant(up, st, k, status);
        case Task(i) => TaskKeepsInvariant(up, st, i);
      }
      RunKeepsInvariant(up, Apply(up, st, ops[0]), ops[1..]);
    }
  }

  // ---- The climb ends ----

  function Weight(g: Group): nat {
    match g.rtype
    case Sku => 7776
    case Color => 1296
    case Model => 216
    case Supplier => 36
    case Bd => 6
    case _ => 1
  }

  function Load(pending: seq<Group>): nat {
    if pending == [] then 0 else Weight(pending[0]) + Load(pending[1..])
  }

  lemma {:induction false} LoadAppend(a: seq<Group>, b: seq<Group>)
    ensures Load(a + b) == Load(a) + Load(b)
  {
    if a == [] {
      assert a + b == b;
    } else {
      assert (a + b)[1..] == a[1..] + b;
      LoadAppend(a[1..], b);
    }
  }

  lemma {:induction false} LoadBound(due: seq<Group>, w: nat)
    requires forall k :: 0 <= k < |due| ==> Weight(due[k]) == w
    ensures Load(due) == |due| * w
  {
    if due != [] {
      LoadBound(due[1..], w);
    }
  }

  /** Every task makes the load smaller, in whatever order the tasks run: the record type of what it
      makes due is strictly higher. */
  lemma TaskLowersLoad(up: Catalogue, st: State, i: nat)
    requires Invariant(up, st) && i < |st.pending|
    ensures Load(RunTask(up, st, i).pending) < Load(st.pending)
  {
    var g := st.pending[i];
    var w := WriteRows(up, st, g, STATUSES);
    var front, back := st.pending[..i], st.pending[i + 1..];
    assert Load(st.pending) == Load(front) + Weight(g) + Load(back) by {
      assert st.pending == front + ([g] + back) && ([g] + back)[1..] == back;
      LoadAppend(front, [g] + back);
    }
    LoadAppend(front + back, w.due);
    LoadAppend(front, back);
    DueIsLight(up, st, g);
  }

  lemma DueIsLight(up: Catalogue, st: State, g: Group)
    ensures Load(WriteRows(up, st, g, STATUSES).due) < Weight(g)
  {
    var w := WriteRows(up, st, g, STATUSES);
    DueSpec(up, st, g, STATUSES);
    if w.due != [] {
      var above := w.due[0];
      assert Triggers(g, up(g.rtype, g.id, g.date)) == [above];
      LoadBound(w.due, Weight(above));
      assert 6 * Weight(above) <= Weight(g);
      assert |w.due| * Weight(above) <= 5 * Weight(above);
    }
  }

  /** So without new saves a run of tasks has at most as many steps as the load it started with. */
  lemma {:induction false} TasksEnd(up: Catalogue, st: State, ops: seq<Op>)
    requires Invariant(up, st) && IsRun(up, st, ops)
    requires forall k :: 0 <= k < |ops| ==> ops[k].Task?
    ensures |ops| <= Load(st.pending)
    decreases ops
  {
    if ops != [] {
      TaskLowersLoad(up, st, ops[0].i);
      TaskKeepsInvariant(up, st, ops[0].i);
      TasksEnd(up, Apply(up, st, ops[0]), ops[1..]);
    }
  }

  // ---- What holds when nothing is due ----

  /** A record under an id is under the parent that the catalogue gives the id. */
  lemma UnderParent(up: Catalogue, g: Group, id: Id, rec: Rec)
    requires g.rtype != Sku && (Below(g.rtype) == Sku || id != "")
    ensures rec.date == g.date && Ancestor(up, Below(g.rtype), rec) == id ==>
      Ancestor(up, g.rtype, rec) == up(Below(g.rtype), id, g.date)
  {
  }

  /** The records below a group that count one level lower under one of some ids. */
  function PartsOneOf(up: Catalogue, recs: seq<Rec>, ids: set<Id>, g: Group, status: int): seq<Amount>
    requires g.rtype != Sku
  {
    seq(|recs|, k requires 0 <= k < |recs| => PartOneOf(up, ids, g, status, recs[k]))
  }

  function PartOneOf(up: Catalogue, ids: set<Id>, g: Group, status: int, rec: Rec): Amount
    requires g.rtype != Sku
  {
    if Ancestor(up, Below(g.rtype), rec) in ids then Part(up, g, status, rec) else ZERO
  }

  /** Adding one more id splits the records under it off. */
  lemma OneMoreId(up: Catalogue, recs: seq<Rec>, ids: set<Id>, id: Id, g: Group, status: int)
    requires g.rtype != Sku && id !in ids && (Below(g.rtype) != Sku ==> id != "")
    ensures Sum(PartsOneOf(up, recs, ids + {id}, g, status))
      == Plus(Sum(PartsOneOf(up, recs, ids, g, status)),
              if up(Below(g.rtype), id, g.date) == g.id
              then RecTotal(up, recs, Group(Below(g.rtype), id, g.date), status) else ZERO)
  {
    var h := Group(Below(g.rtype), id, g.date);
    var others, all := PartsOneOf(up, recs, ids, g, status), PartsOneOf(up, recs, ids + {id}, g, status);
    if up(h.rtype, id, g.date) == g.id {
      var own := Parts(up, recs, h, status);
      forall k | 0 <= k < |recs|
        ensures all[k] == Plus(others[k], own[k])
      {
        OneMorePart(up, ids, id, g, status, recs[k]);
      }
      SumSplit(others, own, all);
    } else {
      forall k | 0 <= k < |recs|
        ensures all[k] == others[k]
      {
        OneMorePart(up, ids, id, g, status, recs[k]);
        PlusZero(others[k]);
      }
      assert all == others;
    }
  }

  lemma PlusZero(a: Amount)
    ensures Plus(a, ZERO) == a && Plus(ZERO, a) == a
  {
  }

  lemma OneMorePart(up: Catalogue, ids: set<Id>, id: Id, g: Group, status: int, rec: Rec)
    requires g.rtype != Sku && id !in ids && (Below(g.rtype) != Sku ==> id != "")
    ensures var h := Group(Below(g.rtype), id, g.date);
      var own := if up(h.rtype, id, g.date) == g.id then Part(up, h, status, rec) else ZERO;
      PartOneOf(up, ids + {id}, g, status, rec) == Plus(PartOneOf(up, ids, g, status, rec), own)
  {
    var a, h := Ancestor(up, Below(g.rtype), rec), Group(Below(g.rtype), id, g.date);
    PlusZero(rec.amount);
    PlusZero(ZERO);
    UnderParent(up, g, id, rec);
    if a == id {
      assert PartOneOf(up, ids, g, status, rec) == ZERO;
      assert PartOneOf(up, ids + {id}, g, status, rec) == Part(up, g, status, rec);
      assert CountsUnder(up, h, status, rec) <==> rec.date == g.date && rec.status == status;
    } else {
      assert Part(up, h, status, rec) == ZERO;
      assert a in ids + {id} <==> a in ids;
    }
  }

  function IdsOf(rows: seq<Row>, t: RecordType, date: int, status: int): set<Id> {
    set k | 0 <= k < |rows| && Fits(rows[k], t, date, status) :: rows[k].g.id
  }

  /** A row one level lower, of the same day and status. */
  predicate InLevel(row: Row, g: Group, status: int)
    requires g.rtype != Sku
  {
    row.g.rtype == Below(g.rtype) && row.g.date == g.date && row.status == status
  }

  lemma FoundInIds(rows: seq<Row>, h: Group, status: int)
    ensures RowAmount(rows, h, status) == ZERO || h.id in IdsOf(rows, h.rtype, h.date, status)
  {
    var i := FindRow(rows, h, status);
    RowAmountFound(rows, h, status);
    if i < |rows| {
      assert rows[i].g.id in IdsOf(rows, h.rtype, h.date, status);
    }
  }

  /** If every row of the level below equals its records, the child rows of a group add up to the
      records under the ids that have a row. */
  lemma {:induction false} ChildrenTotal(up: Catalogue, recs: seq<Rec>, rows: seq<Row>, g: Group, status: int)
    requires g.rtype != Sku && ProperRows(up, rows)
    requires LevelExact(up, recs, rows, g, status)
    ensures RowTotal(rows, g, status)
         == Sum(PartsOneOf(up, recs, IdsOf(rows, Below(g.rtype), g.date, status), g, status))
    decreases rows
  {
    var t := Below(g.rtype);
    if rows == [] {
      assert IdsOf(rows, t, g.date, status) == {};
      SumZeros(PartsOneOf(up, recs, {}, g, status));
    } else {
      var row, rest := rows[0], rows[1..];
      var others := IdsOf(rest, t, g.date, status);
      RestIsProper(up, rows);
      assert LevelExact(up, recs, rest, g, status) by {
        assert forall k :: 0 <= k < |rest| ==> rest[k] == rows[k + 1];
      }
      ChildrenTotal(up, recs, rest, g, status);
      assert RowParts(rows, g, status)[1..] == RowParts(rest, g, status);
      SumFirst(RowParts(rows, g, status));
      IdsOfFirst(rows, t, g.date, status);
      assert ProperRow(up, row);
      if InLevel(row, g, status) {
        OneMoreId(up, recs, others, row.g.id, g, status);
        assert row.amount == RecTotal(up, recs, Group(t, row.g.id, g.date), status);
      } else {
        assert others + {} == others;
      }
    }
  }

  predicate LevelExact(up: Catalogue, recs: seq<Rec>, rows: seq<Row>, g: Group, status: int)
    requires g.rtype != Sku
  {
    forall k :: 0 <= k < |rows| && InLevel(rows[k], g, status) ==>
      rows[k].amount == RecTotal(up, recs, Group(Below(g.rtype), rows[k].g.id, g.date), status)
  }

  lemma RestIsProper(up: Catalogue, rows: seq<Row>)
    requires rows != [] && ProperRows(up, rows)
    ensures ProperRows(up, rows[1..])
  {
    var rest := rows[1..];
    forall i, j | 0 <= i < j < |rest|
      ensures !HasKey(rest[j], rest[i].g, rest[i].status)
    {
      assert rest[i] == rows[i + 1] && rest[j] == rows[j + 1];
    }
  }

  predicate Fits(row: Row, t: RecordType, date: int, status: int) {
    row.g.rtype == t && row.g.date == date && row.status == status
  }

  lemma IdsOfFirst(rows: seq<Row>, t: RecordType, date: int, status: int)
    requires rows != [] && UniqueKeys(rows)
    ensures var row := rows[0];
      && IdsOf(rows, t, date, status)
         == IdsOf(rows[1..], t, date, status) + (if Fits(row, t, date, status) then {row.g.id} else {})
      && (Fits(row, t, date, status) ==> row.g.id !in IdsOf(rows[1..], t, date, status))
  {
    if Fits(rows[0], t, date, status) {
      FirstIsOnly(rows, t, date, status);
    }
    var row, rest := rows[0], rows[1..];
    var a, b := IdsOf(rows, t, date, status), IdsOf(rest, t, date, status);
    forall id | id in b
      ensures id in a
    {
      var k :| 0 <= k < |rest| && Fits(rest[k], t, date, status) && rest[k].g.id == id;
      assert rows[k + 1] == rest[k];
    }
    forall id | id in a
      ensures id in b || (id == row.g.id && Fits(row, t, date, status))
    {
      var k :| 0 <= k < |rows| && Fits(rows[k], t, date, status) && rows[k].g.id == id;
      assert k > 0 ==> rest[k - 1] == rows[k];
    }
  }

  lemma FirstIsOnly(rows: seq<Row>, t: RecordType, date: int, status: int)
    requires rows != [] && UniqueKeys(rows) && Fits(rows[0], t, date, status)
    ensures rows[0].g.id !in IdsOf(rows[1..], t, date, status)
  {
    forall k | 0 <= k < |rows[1..]| && Fits(rows[1..][k], t, date, status)
      ensures rows[1..][k].g.id != rows[0].g.id
    {
      assert !HasKey(rows[k + 1], rows[0].g, rows[0].status);
    }
  }

  predicate LeftOut(up: Catalogue, ids: set<Id>, g: Group, status: int, rec: Rec)
    requires g.rtype != Sku
  {
    CountsUnder(up, g, status, rec) && Ancestor(up, Below(g.rtype), rec) !in ids
  }

  /** The records left out, whose ids have no row, weigh nothing. */
  lemma AllIds(up: Catalogue, recs: seq<Rec>, ids: set<Id>, g: Group, status: int)
    requires g.rtype != Sku
    requires forall k :: 0 <= k < |recs| && LeftOut(up, ids, g, status, recs[k]) ==> recs[k].amount == ZERO
    ensures Sum(PartsOneOf(up, recs, ids, g, status)) == RecTotal(up, recs, g, status)
  {
    assert PartsOneOf(up, recs, ids, g, status) == Parts(up, recs, g, status);
  }

  /** The groups of one day agree with what feeds them. */
  ghost predicate DayIsConsistent(up: Catalogue, st: State, date: int) {
    forall g :: ProperGroup(g) && g.date == date ==> Consistent(up, st, g)
  }

  lemma {:induction false} ConsistentMeansExact(up: Catalogue, st: State, g: Group, status: int)
    requires ProperTables(up, st) && DayIsConsistent(up, st, g.date) && ProperGroup(g) && 0 <= status < STATUSES
    ensures RowAmount(st.rows, g, status) == RecTotal(up, st.recs, g, status)
    decreases Code(g.rtype)
  {
    assert Consistent(up, st, g);
    if g.rtype != Sku {
      var t := Below(g.rtype);
      var ids := IdsOf(st.rows, t, g.date, status);
      forall k | 0 <= k < |st.rows| && InLevel(st.rows[k], g, status)
        ensures st.rows[k].amount == RecTotal(up, st.recs, Group(t, st.rows[k].g.id, g.date), status)
      {
        var h := Group(t, st.rows[k].g.id, g.date);
        assert ProperRow(up, st.rows[k]);
        ConsistentMeansExact(up, st, h, status);
        FindUnique(st.rows, k, h, status);
        RowAmountFound(st.rows, h, status);
      }
      ChildrenTotal(up, st.recs, st.rows, g, status);
      forall k | 0 <= k < |st.recs| && LeftOut(up, ids, g, status, st.recs[k])
        ensures st.recs[k].amount == ZERO
      {
        var h := Group(t, Ancestor(up, t, st.recs[k]), g.date);
        ConsistentMeansExact(up, st, h, status);
        FoundInIds(st.rows, h, status);
        PartsAreSane(up, st.recs, h, status);
        SumIsSane(Parts(up, st.recs, h, status));
        assert Parts(up, st.recs, h, status)[k] == st.recs[k].amount;
      }
      AllIds(up, st.recs, ids, g, status);
    }
  }

  /** When nothing is due, every row at every level equals the order records below it, a missing row
      counting as nothing. */
  lemma QuietMeansExact(up: Catalogue, st: State, g: Group, status: int)
    requires Invariant(up, st) && st.pending == [] && ProperGroup(g) && 0 <= status < STATUSES
    ensures RowAmount(st.rows, g, status) == RecTotal(up, st.recs, g, status)
  {
    forall h | ProperGroup(h) && h.date == g.date
      ensures Consistent(up, st, h)
    {
      assert Consistent(up, st, h) || h in st.pending;
    }
    ConsistentMeansExact(up, st, g, status);
  }

  const EMPTY := State([], [], [])

  /** Cascade repair: from an empty table, through any run of new records, status changes and tasks in
      any order, once no task is due every daily row equals the sum of the order records below it. */
  lemma CascadeIsExact(up: Catalogue, ops: seq<Op>, g: Group, status: int)
    requires IsRun(up, EMPTY, ops) && End(up, EMPTY, ops).pending == []
    requires ProperGroup(g) && 0 <= status < STATUSES
    ensures var end := End(up, EMPTY, ops);
      RowAmount(end.rows, g, status) == RecTotal(up, end.recs, g, status)
  {
    forall h | ProperGroup(h)
      ensures Consistent(up, EMPTY, h)
    {
    }
    RunKeepsInvariant(up, EMPTY, ops);
    QuietMeansExact(up, End(up, EMPTY, ops), g, status);
  }

  // ---- A record that changes its day ----

  /** Saving a record under another date, and perhaps another status, makes only the new day due. */
  function MoveDate(st: State, k: nat, date: int, status: int): State
    requires k < |st.recs|
  {
    var rec := st.recs[k].(date := date, status := status);
    State(st.recs[k := rec], st.rows, st.pending + [Group(Sku, rec.sku, date)])
  }

  lemma {:induction false} SumUpdate(parts: seq<Amount>, k: nat, a: Amount)
    requires k < |parts|
    ensures Sum(parts[k := a]) == Plus(Sum(parts), Amount(a.num - parts[k].num, a.pay - parts[k].pay))
  {
    if k == 0 {
      assert parts[k := a][1..] == parts[1..];
    } else {
      assert parts[k := a][1..] == parts[1..][k - 1 := a];
      SumUpdate(parts[1..], k - 1, a);
    }
  }

  lemma MovedAtOnce(up: Catalogue, st: State, k: nat, date: int, status: int)
    requires Invariant(up, st) && k < |st.recs| && date != st.recs[k].date
    requires Group(Sku, st.recs[k].sku, st.recs[k].date) !in st.pending
    ensures Consistent(up, MoveDate(st, k, date, status), Group(Sku, st.recs[k].sku, st.recs[k].date))
      <==> st.recs[k].amount == ZERO
  {
    var rec, g := st.recs[k], Group(Sku, st.recs[k].sku, st.recs[k].date);
    var after := MoveDate(st, k, date, status);
    assert ProperRec(rec) && Consistent(up, st, g);
    forall s | 0 <= s < STATUSES
      ensures Feed(up, after, g, s) == if s == rec.status
        then Plus(Feed(up, st, g, s), Amount(-rec.amount.num, -rec.amount.pay)) else Feed(up, st, g, s)
    {
      var parts := Parts(up, st.recs, g, s);
      assert Parts(up, after.recs, g, s) == parts[k := ZERO];
      SumUpdate(parts, k, ZERO);
    }
    if Consistent(up, after, g) {
      assert RowAmount(after.rows, g, rec.status) == Feed(up, after, g, rec.status);
      assert RowAmount(st.rows, g, rec.status) == Feed(up, st, g, rec.status);
    }
  }

  /** A save that concerns the SKU rows of `g`. */
  predicate Concerns(st: State, op: Op, g: Group)
    requires Enabled(st, op)
  {
    match op
    case Add(rec) => g == Group(Sku, rec.sku, rec.date)
    case Change(k, _) => g == Group(Sku, st.recs[k].sku, st.recs[k].date)
    case Task(_) => false
  }

  predicate NoneConcerns(up: Catalogue, st: State, ops: seq<Op>, g: Group)
    requires IsRun(up, st, ops)
    decreases ops
  {
    ops == [] || (!Concerns(st, ops[0], g) && NoneConcerns(up, Apply(up, st, ops[0]), ops[1..], g))
  }

  predicate ProperState(up: Catalogue, st: State) {
    ProperTables(up, st) && forall k :: 0 <= k < |st.pending| ==> ProperGroup(st.pending[k])
  }

  /** SKU rows that are not due are left alone, right or wrong: no other task makes theirs due. */
  lemma StepLeavesSku(up: Catalogue, st: State, op: Op, g: Group)
    requires ProperState(up, st) && Enabled(st, op) && !Concerns(st, op, g)
    requires g.rtype == Sku && g !in st.pending
    ensures var after := Apply(up, st, op);
      && ProperState(up, after)
      && g !in after.pending
      && (Consistent(up, after, g) <==> Consistent(up, st, g))
  {
    var after := Apply(up, st, op);
    forall s
      ensures RowAmount(after.rows, g, s) == RowAmount(st.rows, g, s)
      ensures RecTotal(up, after.recs, g, s) == RecTotal(up, st.recs, g, s)
    {
      match op {
        case Add(rec) => RecTotalAppend(up, st.recs, rec, g, s);
        case Change(k, status) => RecTotalUpdate(up, st.recs, k, st.recs[k].(status := status), g, s);
        case Task(i) => WritingOnlyChanges(up, st, st.pending[i], STATUSES);
      }
    }
    if op.Task? {
      TaskIsProper(up, st, op.i);
    }
  }

  lemma TaskIsProper(up: Catalogue, st: State, i: nat)
    requires ProperState(up, st) && i < |st.pending|
    ensures ProperState(up, RunTask(up, st, i))
    ensures forall h :: h in RunTask(up, st, i).pending ==> h in st.pending || h.rtype != Sku
  {
    var after := RunTask(up, st, i);
    var w := WriteRows(up, st, st.pending[i], STATUSES);
    WrittenRowsAreProper(up, st, st.pending[i], STATUSES);
    DueSpec(up, st, st.pending[i], STATUSES);
    forall k | 0 <= k < |after.pending|
      ensures ProperGroup(after.pending[k]) && (after.pending[k] in st.pending || after.pending[k].rtype != Sku)
    {
      if k < |st.pending| - 1 {
        assert after.pending[k] == st.pending[if k < i then k else k + 1];
      } else {
        assert after.pending[k] == w.due[k - (|st.pending| - 1)];
      }
    }
  }

  lemma {:induction false} RunLeavesSku(up: Catalogue, st: State, ops: seq<Op>, g: Group)
    requires ProperState(up, st) && IsRun(up, st, ops) && NoneConcerns(up, st, ops, g)
    requires g.rtype == Sku && g !in st.pending
    ensures Consistent(up, End(up, st, ops), g) <==> Consistent(up, st, g)
    decreases ops
  {
    if ops != [] {
      StepLeavesSku(up, st, ops[0], g);
      RunLeavesSku(up, Apply(up, st, ops[0]), ops[1..], g);
    }
  }

  lemma MovedWhileDue(up: Catalogue, st: State, k: nat, date: int, status: int)
    requires Invariant(up, st) && k < |st.recs| && 0 <= status < STATUSES
    requires Group(Sku, st.recs[k].sku, st.recs[k].date) in st.pending
    ensures Invariant(up, MoveDate(st, k, date, status))
  {
    var after := MoveDate(st, k, date, status);
    assert ProperRec(st.recs[k]);
    forall h | ProperGroup(h)
      ensures Consistent(up, after, h) || h in after.pending
    {
      if h in st.pending {
        assert h in after.pending;
      } else if h == Group(Sku, st.recs[k].sku, date) {
        assert after.pending[|st.pending|] == h;
      } else {
        assert Consistent(up, st, h);
        forall s | 0 <= s < STATUSES
          ensures RowAmount(after.rows, h, s) == Feed(up, after, h, s)
        {
          if h.rtype == Sku {
            RecTotalUpdate(up, st.recs, k, after.recs[k], h, s);
          }
        }
      }
    }
  }

  /** Once nothing is due, after whatever tasks and other saves in whatever order but no save of a record
      of the old day, the SKU rows of that day are right exactly if their task was due at the move or the
      record weighs nothing. */
  lemma MovedRecordIsLost(up: Catalogue, st: State, k: nat, date: int, status: int, ops: seq<Op>)
    requires Invariant(up, st) && k < |st.recs| && date != st.recs[k].date && 0 <= status < STATUSES
    requires IsRun(up, MoveDate(st, k, date, status), ops)
    requires NoneConcerns(up, MoveDate(st, k, date, status), ops, Group(Sku, st.recs[k].sku, st.recs[k].date))
    requires End(up, MoveDate(st, k, date, status), ops).pending == []
    ensures var g := Group(Sku, st.recs[k].sku, st.recs[k].date);
      Consistent(up, End(up, MoveDate(st, k, date, status), ops), g)
      <==> g in st.pending || st.recs[k].amount == ZERO
  {
    var g := Group(Sku, st.recs[k].sku, st.recs[k].date);
    assert ProperRec(st.recs[k]);
    if g in st.pending {
      MovedWhileDue(up, st, k, date, status);
      RunKeepsInvariant(up, MoveDate(st, k, date, status), ops);
    } else {
      MovedAtOnce(up, st, k, date, status);
      RunLeavesSku(up, MoveDate(st, k, date, status), ops, g);
    }
  }

  // ---- What one record changes ----

  /** A SKU's rows of a day and all that they are summed up in: product, model, supplier, buyer and total,
      as far as the catalogue goes. */
  function Climb(up: Catalogue, g: Group): seq<Group>
    requires g.rtype != Snapshot
    decreases 20 - Code(g.rtype)
  {
    var parent := up(g.rtype, g.id, g.date);
    [g] + if g.rtype == Agg || parent == "" then [] else Climb(up, Group(ParentType(g.rtype), parent, g.date))
  }

  function SkuGroup(rec: Rec): Group {
    Group(Sku, rec.sku, rec.date)
  }

  /** Behind a missing parent all ancestors are missing. */
  lemma {:induction false} BrokenChain(up: Catalogue, rec: Rec, t: RecordType, u: RecordType)
    requires t != Sku && Ancestor(up, t, rec) == "" && Code(t) <= Code(u)
    ensures Ancestor(up, u, rec) == ""
    decreases Code(u)
  {
    if u != t {
      BrokenChain(up, rec, t, Below(u));
    }
  }

  lemma {:induction false} ClimbIsAncestors(up: Catalogue, rec: Rec, from: Group, g: Group)
    requires from.rtype != Snapshot && from.date == rec.date && from.id == Ancestor(up, from.rtype, rec)
    requires from.rtype == Sku || from.id != ""
    requires ProperGroup(g) && Code(g.rtype) >= Code(from.rtype)
    ensures g in Climb(up, from) <==> g.date == rec.date && g.id == Ancestor(up, g.rtype, rec)
    decreases 20 - Code(from.rtype)
  {
    ClimbStep(up, from, g);
    if from.rtype != Agg && g.rtype != from.rtype {
      var t := ParentType(from.rtype);
      assert Below(t) == from.rtype && Ancestor(up, t, rec) == up(from.rtype, from.id, from.date);
      if up(from.rtype, from.id, from.date) == "" {
        BrokenChain(up, rec, t, g.rtype);
      } else {
        ClimbIsAncestors(up, rec, Group(t, up(from.rtype, from.id, from.date), from.date), g);
      }
    } else if from.rtype != Agg && up(from.rtype, from.id, from.date) != "" {
      ClimbRises(up, Group(ParentType(from.rtype), up(from.rtype, from.id, from.date), from.date), g);
    }
  }

  lemma ClimbStep(up: Catalogue, from: Group, g: Group)
    requires from.rtype != Snapshot
    ensures var parent := up(from.rtype, from.id, from.date);
      g in Climb(up, from) <==>
        g == from
        || (from.rtype != Agg && parent != "" && g in Climb(up, Group(ParentType(from.rtype), parent, from.date)))
  {
  }

  lemma {:induction false} ClimbRises(up: Catalogue, from: Group, g: Group)
    requires from.rtype != Snapshot
    ensures g in Climb(up, from) ==> Code(g.rtype) >= Code(from.rtype)
    decreases 20 - Code(from.rtype)
  {
    ClimbStep(up, from, g);
    if from.rtype != Agg {
      ClimbRises(up, Group(ParentType(from.rtype), up(from.rtype, from.id, from.date), from.date), g);
    }
  }

  lemma CountsIff(up: Catalogue, g: Group, status: int, rec: Rec)
    requires ProperGroup(g)
    ensures CountsUnder(up, g, status, rec) <==> status == rec.status && g in Climb(up, SkuGroup(rec))
  {
    ClimbIsAncestors(up, rec, SkuGroup(rec), g);
  }

  /** What a record weighs in the row of a group and a status. */
  function WeightIn(up: Catalogue, rec: Rec, g: Group, status: int): Amount {
    if status == rec.status && g in Climb(up, SkuGroup(rec)) then rec.amount else ZERO
  }

  lemma {:induction false} SumSnoc(parts: seq<Amount>, a: Amount)
    ensures Sum(parts + [a]) == Plus(Sum(parts), a)
  {
    if parts == [] {
      assert parts + [a] == [a] && [a][1..] == [];
    } else {
      assert (parts + [a])[1..] == parts[1..] + [a];
      SumSnoc(parts[1..], a);
    }
  }

  lemma {:induction false} TasksKeepRecords(up: Catalogue, st: State, ops: seq<Op>)
    requires IsRun(up, st, ops) && forall k :: 0 <= k < |ops| ==> ops[k].Task?
    ensures End(up, st, ops).recs == st.recs
    decreases ops
  {
    if ops != [] {
      assert forall k :: 0 <= k < |ops[1..]| ==> ops[1..][k] == ops[k + 1];
      TasksKeepRecords(up, Apply(up, st, ops[0]), ops[1..]);
    }
  }

  /** From a state in which nothing is due, saving a record and running tasks, in any order, until nothing
      is due again adds the record's amount to the row of its status of its SKU and of everything that it
      is summed up in, and changes no other row. */
  lemma SavedRecordShows(up: Catalogue, st: State, rec: Rec, ops: seq<Op>, g: Group, status: int)
    requires Invariant(up, st) && st.pending == [] && ProperRec(rec)
    requires IsRun(up, AddRecord(st, rec), ops) && forall k :: 0 <= k < |ops| ==> ops[k].Task?
    requires End(up, AddRecord(st, rec), ops).pending == []
    requires ProperGroup(g) && 0 <= status < STATUSES
    ensures RowAmount(End(up, AddRecord(st, rec), ops).rows, g, status)
         == Plus(RowAmount(st.rows, g, status), WeightIn(up, rec, g, status))
  {
    AddKeepsInvariant(up, st, rec);
    RunKeepsInvariant(up, AddRecord(st, rec), ops);
    TasksKeepRecords(up, AddRecord(st, rec), ops);
    QuietMeansExact(up, st, g, status);
    QuietMeansExact(up, End(up, AddRecord(st, rec), ops), g, status);
    CountsIff(up, g, status, rec);
    assert Parts(up, st.recs + [rec], g, status) == Parts(up, st.recs, g, status) + [Part(up, g, status, rec)];
    SumSnoc(Parts(up, st.recs, g, status), Part(up, g, status, rec));
  }

  function Minus(a: Amount, b: Amount): Amount {
    Amount(a.num - b.num, a.pay - b.pay)
  }

  /** A change of a record's status moves its amount from the rows of the old status to those of the new. */
  lemma ChangedStatusShows(up: Catalogue, st: State, k: nat, to: int, ops: seq<Op>, g: Group, status: int)
    requires Invariant(up, st) && st.pending == [] && k < |st.recs| && 0 <= to < STATUSES
    requires IsRun(up, SetStatus(st, k, to), ops) && forall i :: 0 <= i < |ops| ==> ops[i].Task?
    requires End(up, SetStatus(st, k, to), ops).pending == []
    requires ProperGroup(g) && 0 <= status < STATUSES
    ensures RowAmount(End(up, SetStatus(st, k, to), ops).rows, g, status)
         == Minus(Plus(RowAmount(st.rows, g, status), WeightIn(up, st.recs[k].(status := to), g, status)),
                  WeightIn(up, st.recs[k], g, status))
  {
    SetStatusKeepsInvariant(up, st, k, to);
    RunKeepsInvariant(up, SetStatus(st, k, to), ops);
    TasksKeepRecords(up, SetStatus(st, k, to), ops);
    QuietMeansExact(up, st, g, status);
    QuietMeansExact(up, End(up, SetStatus(st, k, to), ops), g, status);
    RecTotalChanged(up, st.recs, k, st.recs[k].(status := to), g, status);
  }

  lemma RecTotalChanged(up: Catalogue, recs: seq<Rec>, k: nat, rec: Rec, g: Group, status: int)
    requires k < |recs| && ProperGroup(g)
    ensures RecTotal(up, recs[k := rec], g, status)
         == Minus(Plus(RecTotal(up, recs, g, status), WeightIn(up, rec, g, status)),
                  WeightIn(up, recs[k], g, status))
  {
    var parts := Parts(up, recs, g, status);
    CountsIff(up, g, status, rec);
    CountsIff(up, g, status, recs[k]);
    assert Parts(up, recs[k := rec], g, status) == parts[k := Part(up, g, status, rec)];
    SumUpdate(parts, k, Part(up, g, status, rec));
  }

  /** Every group of the day agrees with what feeds it, or its task is due. */
  ghost predicate DayInvariant(up: Catalogue, st: State, date: int) {
    && ProperState(up, st)
    && forall g :: ProperGroup(g) && g.date == date ==> Consistent(up, st, g) || g in st.pending
  }

  lemma TaskKeepsDay(up: Catalogue, st: State, i: nat, date: int)
    requires DayInvariant(up, st, date) && i < |st.pending|
    ensures DayInvariant(up, RunTask(up, st, i), date)
  {
    TaskIsProper(up, st, i);
    forall h | ProperGroup(h) && h.date == date
      ensures Consistent(up, RunTask(up, st, i), h) || h in RunTask(up, st, i).pending
    {
      assert Consistent(up, st, h) || h in st.pending;
      TaskKeepsGroup(up, st, i, h);
    }
  }

  lemma {:induction false} TasksKeepDay(up: Catalogue, st: State, ops: seq<Op>, date: int)
    requires DayInvariant(up, st, date) && IsRun(up, st, ops) && forall k :: 0 <= k < |ops| ==> ops[k].Task?
    ensures DayInvariant(up, End(up, st, ops), date)
    decreases ops
  {
    if ops != [] {
      TaskKeepsDay(up, st, ops[0].i, date);
      assert forall k :: 0 <= k < |ops[1..]| ==> ops[1..][k] == ops[k + 1];
      TasksKeepDay(up, Apply(up, st, ops[0]), ops[1..], date);
    }
  }

  lemma MovedKeepsDay(up: Catalogue, st: State, k: nat, to: int, status: int, date: int)
    requires Invariant(up, st) && k < |st.recs| && 0 <= status < STATUSES && date != st.recs[k].date
    ensures DayInvariant(up, MoveDate(st, k, to, status), date)
  {
    var after := MoveDate(st, k, to, status);
    assert ProperRec(st.recs[k]);
    forall h | ProperGroup(h) && h.date == date
      ensures Consistent(up, after, h) || h in after.pending
    {
      if h in st.pending {
        assert h in after.pending;
      } else if h == Group(Sku, st.recs[k].sku, to) {
        assert after.pending[|st.pending|] == h;
      } else {
        assert Consistent(up, st, h);
        MovedElsewhere(up, st, k, to, status, h);
      }
    }
  }

  lemma MovedElsewhere(up: Catalogue, st: State, k: nat, to: int, status: int, h: Group)
    requires k < |st.recs| && h.date != st.recs[k].date && h != Group(Sku, st.recs[k].sku, to)
    requires Consistent(up, st, h)
    ensures Consistent(up, MoveDate(st, k, to, status), h)
  {
    forall s | 0 <= s < STATUSES && h.rtype == Sku
      ensures RecTotal(up, MoveDate(st, k, to, status).recs, h, s) == RecTotal(up, st.recs, h, s)
    {
      RecTotalUpdate(up, st.recs, k, MoveDate(st, k, to, status).recs[k], h, s);
    }
  }

  /** On every other day a moved record shows as it should: when the tasks have run out, the rows of its new
      day, status and ancestors have its amount, and no other row of any day but the old one has changed. */
  lemma MovedRecordShows(
    up: Catalogue, st: State, k: nat, to: int, status: int, ops: seq<Op>, g: Group, s: int)
    requires Invariant(up, st) && st.pending == [] && k < |st.recs| && 0 <= status < STATUSES
    requires IsRun(up, MoveDate(st, k, to, status), ops) && forall i :: 0 <= i < |ops| ==> ops[i].Task?
    requires End(up, MoveDate(st, k, to, status), ops).pending == []
    requires ProperGroup(g) && g.date != st.recs[k].date && 0 <= s < STATUSES
    ensures RowAmount(End(up, MoveDate(st, k, to, status), ops).rows, g, s)
         == Plus(RowAmount(st.rows, g, s), WeightIn(up, st.recs[k].(date := to, status := status), g, s))
  {
    var rec := st.recs[k].(date := to, status := status);
    var end := End(up, MoveDate(st, k, to, status), ops);
    MovedKeepsDay(up, st, k, to, status, g.date);
    TasksKeepDay(up, MoveDate(st, k, to, status), ops, g.date);
    TasksKeepRecords(up, MoveDate(st, k, to, status), ops);
    ConsistentMeansExact(up, end, g, s);
    QuietMeansExact(up, st, g, s);
    RecTotalChanged(up, st.recs, k, rec, g, s);
    CountsIff(up, g, s, st.recs[k]);
  }

  // ---- The unique key ----

  /** `make_sale_stat_uni_key` on the printed parts. */
  function UniKey(date: string, id: string, rtype: string, timely: string, status: string): string {
    date + "/" + id + "/" + rtype + "/" + timely + "/" + status
  }

  function Joined(parts: seq<string>): string {
    if parts == [] then ""
    else if |parts| == 1 then parts[0]
    else parts[0] + "/" + Joined(parts[1..])
  }

  /** The parts stand in the order date, id, record type, time type and status, with slashes between. */
  lemma UniKeyIsJoined(d: string, i: string, r: string, t: string, s: string)
    ensures UniKey(d, i, r, t, s) == Joined([d, i, r, t, s])
  {
    assert [d, i, r, t, s][1..] == [i, r, t, s] && [i, r, t, s][1..] == [r, t, s];
    assert [r, t, s][1..] == [t, s] && [t, s][1..] == [s];
    assert Joined([t, s]) == t + "/" + s;
    assert Joined([r, t, s]) == r + "/" + (t + "/" + s);
    assert Joined([i, r, t, s]) == i + "/" + (r + "/" + (t + "/" + s));
  }

  lemma SplitAtFirstSlash(a: string, b: string, x: string, y: string)
    requires '/' !in a && '/' !in b && a + "/" + x == b + "/" + y
    ensures a == b && x == y
  {
    var s := a + "/" + x;
    assert s[|a|] == '/' && s[|b|] == '/';
    assert forall i :: 0 <= i < |a| ==> s[i] == a[i] && a[i] in a;
    assert forall i :: 0 <= i < |b| ==> s[i] == b[i] && b[i] in b;
    assert |a| == |b|;
    assert a == s[..|a|] && x == s[|a| + 1..] && y == s[|b| + 1..];
  }

  lemma SplitAtLastSlash(a: string, b: string, x: string, y: string)
    requires '/' !in x && '/' !in y && a + "/" + x == b + "/" + y
    ensures a == b && x == y
  {
    var s := a + "/" + x;
    LastSlash(a, x);
    LastSlash(b, y);
    assert |a| == |b|;
    assert a == s[..|a|] && b == s[..|b|] && x == s[|a| + 1..] && y == s[|b| + 1..];
  }

  lemma LastSlash(a: string, x: string)
    requires '/' !in x
    ensures var s := a + "/" + x; s[|a|] == '/' && forall i :: |a| < i < |s| ==> s[i] != '/'
  {
    assert forall i :: |a| < i < |a| + 1 + |x| ==> (a + "/" + x)[i] == x[i - |a| - 1];
  }

  /** The joined key determines its parts, although SKU ids themselves contain slashes. */
  lemma UniKeyInjective(
    d: string, i: string, r: string, t: string, s: string,
    d': string, i': string, r': string, t': string, s': string)
    requires '/' !in d && '/' !in r && '/' !in t && '/' !in s
    requires '/' !in d' && '/' !in r' && '/' !in t' && '/' !in s'
    requires UniKey(d, i, r, t, s) == UniKey(d', i', r', t', s')
    ensures d == d' && i == i' && r == r' && t == t' && s == s'
  {
    SplitAtLastSlash(d + "/" + i + "/" + r + "/" + t, d' + "/" + i' + "/" + r' + "/" + t', s, s');
    SplitAtLastSlash(d + "/" + i + "/" + r, d' + "/" + i' + "/" + r', t, t');
    SplitAtLastSlash(d + "/" + i, d' + "/" + i', r, r');
    SplitAtFirstSlash(d, d', i, i');
  }

  // ---- The stored tables and the tasks on them ----

  datatype StatusTotal = StatusTotal(status: int, total: Amount)

  /** Whether a status occurs among what feeds a group. */
  predicate Occurs(up: Catalogue, st: State, g: Group, status: int) {
    if g.rtype == Sku then exists k :: 0 <= k < |st.recs| && CountsUnder(up, g, status, st.recs[k])
    else exists k :: 0 <= k < |st.rows| && IsChild(st.rows[k], g, status)
  }

  /** The grouping query: one entry for each of the first `n` statuses that occurs. */
  function StatusTotals(up: Catalogue, st: State, g: Group, n: nat): (r: seq<StatusTotal>)
    ensures forall e :: e in r <==> 0 <= e.status < n && Occurs(up, st, g, e.status)
                                    && e.total == Feed(up, st, g, e.status)
  {
    if n == 0 then []
    else
      StatusTotals(up, st, g, n - 1)
      + if Occurs(up, st, g, n - 1) then [StatusTotal(n - 1, Feed(up, st, g, n - 1))] else []
  }

  lemma FeedsNothing(up: Catalogue, st: State, g: Group, status: int)
    requires !Occurs(up, st, g, status)
    ensures Feed(up, st, g, status) == ZERO
  {
    if g.rtype == Sku {
      SumZeros(Parts(up, st.recs, g, status));
    } else {
      SumZeros(RowParts(st.rows, g, status));
    }
  }

  /** All five statuses, those that the query did not return with nothing. */
  method GenStatusDataMap(stats: seq<StatusTotal>) returns (data: map<int, Amount>)
    requires forall e :: e in stats ==> 0 <= e.status < STATUSES
    requires forall e, f :: e in stats && f in stats && e.status == f.status ==> e == f
    ensures DataOf(stats, data)
  {
    data := map[];
    for s := 0 to STATUSES
      invariant forall t :: t in data <==> 0 <= t < s
      invariant forall t :: t in data ==> data[t] == ZERO
    {
      data := data[s := ZERO];
    }
    for i := 0 to |stats|
      invariant DataOf(stats[..i], data)
    {
      assert stats[..i + 1] == stats[..i] + [stats[i]];
      data := data[stats[i].status := stats[i].total];
    }
    assert stats[..|stats|] == stats;
  }

  /** The five statuses with the queried totals, or nothing. */
  ghost predicate DataOf(stats: seq<StatusTotal>, data: map<int, Amount>) {
    && (forall s :: s in data <==> 0 <= s < STATUSES)
    && (forall e :: e in stats ==> e.status in data && data[e.status] == e.total)
    && (forall s :: s in data && (forall e :: e in stats ==> e.status != s) ==> data[s] == ZERO)
  }

  class SaleStatsStore {
    const up: Catalogue
    var recs: seq<Rec>
    var rows: seq<Row>
    var pending: seq<Group>

    ghost function Now(): State
      reads this
    {
      State(recs, rows, pending)
    }

    constructor (up: Catalogue)
      ensures this.up == up && Now() == EMPTY
    {
      this.up := up;
      recs, rows, pending := [], [], [];
    }

    /** Saving a new order record makes the task of its SKU due. */
    method SaveNew(rec: Rec)
      modifies this
      ensures Now() == AddRecord(old(Now()), rec)
    {
      recs := recs + [rec];
      pending := pending + [Group(Sku, rec.sku, rec.date)];
    }

    /** A record whose status is what it was is not saved. */
    method SaveStatus(k: nat, status: int)
      requires k < |recs|
      modifies this
      ensures Now() == if status == old(recs)[k].status then old(Now()) else SetStatus(old(Now()), k, status)
    {
      if recs[k].status != status {
        var rec := recs[k].(status := status);
        recs := recs[k := rec];
        pending := pending + [Group(Sku, rec.sku, rec.date)];
      }
    }

    /** One status of a task: the row is created, changed or left alone, and a saved row makes the task of
        its parent due. */
    method WriteStatus(g: Group, parent: Id, status: int, total: Amount)
      modifies this`rows, this`pending
      ensures rows == WriteRow(old(rows), g, parent, status, total)
      ensures pending == old(pending) + if Saves(old(rows), g, status, total) then Triggers(g, parent) else []
    {
      var k := FindRow(rows, g, status);
      if k == |rows| {
        if total.num > 0 {
          rows := rows + [Row(g, status, parent, total)];
          pending := pending + Triggers(g, parent);
        }
      } else if rows[k].amount != total {
        rows := rows[k := rows[k].(amount := total)];
        pending := pending + Triggers(g, parent);
      }
    }

    /** The loop over the statuses. */
    method WriteStatuses(ghost st: State, g: Group, data: map<int, Amount>)
      requires rows == st.rows && forall s :: 0 <= s < STATUSES ==> s in data && data[s] == Feed(up, st, g, s)
      modifies this`rows, this`pending
      ensures rows == WriteRows(up, st, g, STATUSES).rows
      ensures pending == old(pending) + WriteRows(up, st, g, STATUSES).due
    {
      var parent := up(g.rtype, g.id, g.date);
      for s := 0 to STATUSES
        invariant rows == WriteRows(up, st, g, s).rows
        invariant pending == old(pending) + WriteRows(up, st, g, s).due
      {
        StatusStep(up, st, g, s, old(pending));
        WriteStatus(g, parent, s, data[s]);
      }
    }

    /** `task_statsrecord_update_salestats` for a SKU, `task_update_parent_sale_stats` above. */
    method PerformTask(i: nat)
      requires i < |pending|
      modifies this
      ensures Now() == RunTask(up, old(Now()), i)
    {
      var st, g := State(recs, rows, pending), pending[i];
      var data := GenStatusDataMap(StatusTotals(up, st, g, STATUSES));
      DataIsFeed(up, st, g, data);
      pending := pending[..i] + pending[i + 1..];
      WriteStatuses(st, g, data);
    }
  }

  lemma StatusStep(up: Catalogue, st: State, g: Group, s: nat, others: seq<Group>)
    ensures var w, total := WriteRows(up, st, g, s), Feed(up, st, g, s);
      var parent := up(g.rtype, g.id, g.date);
      && WriteRows(up, st, g, s + 1).rows == WriteRow(w.rows, g, parent, s, total)
      && others + WriteRows(up, st, g, s + 1).due
         == others + w.due + if Saves(w.rows, g, s, total) then Triggers(g, parent) else []
  {
    WriteRowsStep(up, st, g, s);
    AssocDue(others, WriteRows(up, st, g, s).due, Triggers(g, up(g.rtype, g.id, g.date)));
  }

  lemma AssocDue(a: seq<Group>, b: seq<Group>, c: seq<Group>)
    ensures a + (b + c) == a + b + c
  {
  }

  lemma DataIsFeed(up: Catalogue, st: State, g: Group, data: map<int, Amount>)
    requires DataOf(StatusTotals(up, st, g, STATUSES), data)
    ensures forall s :: 0 <= s < STATUSES ==> data[s] == Feed(up, st, g, s)
  {
    var stats := StatusTotals(up, st, g, STATUSES);
    forall s | 0 <= s < STATUSES
      ensures data[s] == Feed(up, st, g, s)
    {
      if Occurs(up, st, g, s) {
        assert StatusTotal(s, Feed(up, st, g, s)) in stats;
      } else {
        FeedsNothing(up, st, g, s);
      }
    }
  }
}
