/** The per-row cache of core/ormcache: a queryset that reads through a key-value cache, and the hooks
    that invalidate it. */
module OrmCache {

  /** A table row: its primary key and its other columns. */
  datatype Row = Row(id: int, cols: map<string, int>)

  type Table = t: map<int, Row> | forall pk :: pk in t ==> t[pk].id == pk witness map[]

  /** The md5 digest of model name and primary key, taken to be injective. */
  datatype Key = Key(model: string, pk: int)

  datatype Db = Db(model: string, table: Table, cache: map<Key, Row>)

  /** One condition of a queryset: a column equal to a value, or anything else. */
  datatype Filter = Exact(column: string, value: int) | Other(holds: Row -> bool)

  datatype Query = Query(filters: seq<Filter>, negated: bool, deferred: bool)

  const UNFILTERED := Query([], false, false)

  datatype GetResult = Found(row: Row) | DoesNotExist | MultipleObjects

  function CacheKey(db: Db, pk: int): Key {
    Key(db.model, pk)
  }

  /** The spellings of the primary key. */
  predicate IsPk(lookup: string) {
    lookup == "pk" || lookup == "pk__exact" || lookup == "id" || lookup == "id__exact"
  }

  predicate ColumnIs(row: Row, column: string, value: int) {
    if IsPk(column) then row.id == value else column in row.cols && row.cols[column] == value
  }

  predicate FilterHolds(f: Filter, row: Row) {
    match f
    case Exact(column, value) => ColumnIs(row, column, value)
    case Other(holds) => holds(row)
  }

  /** A query without conditions selects everything. */
  predicate Selected(q: Query, row: Row) {
    q.filters == []
    || q.negated != forall i :: 0 <= i < |q.filters| ==> FilterHolds(q.filters[i], row)
  }

  predicate LookupsHold(row: Row, kwargs: map<string, int>) {
    forall k :: k in kwargs ==> ColumnIs(row, k, kwargs[k])
  }

  // ---- Django's own `get` ----

  function Candidates(table: Table, q: Query, kwargs: map<string, int>): set<int> {
    set pk | pk in table && Selected(q, table[pk]) && LookupsHold(table[pk], kwargs)
  }

  lemma OneElement(s: set<int>)
    requires |s| == 1
    ensures forall a, b :: a in s && b in s ==> a == b
  {
    forall a, b | a in s && b in s
      ensures a == b
    {
      assert |s - {a}| == 0;
      assert b == a || b in s - {a};
    }
  }

  function BaseGet(table: Table, q: Query, kwargs: map<string, int>): GetResult {
    var found := Candidates(table, q, kwargs);
    if found == {} then DoesNotExist
    else if |found| == 1 then
      OneElement(found);
      var pk :| pk in found;
      Found(table[pk])
    else MultipleObjects
  }

  /** `get` finds a row exactly if it is the only one that the queryset selects and the arguments fit. */
  lemma BaseGetFinds(table: Table, q: Query, kwargs: map<string, int>)
    ensures BaseGet(table, q, kwargs).DoesNotExist?
      <==> forall pk :: pk in table ==> !(Selected(q, table[pk]) && LookupsHold(table[pk], kwargs))
    ensures forall row :: BaseGet(table, q, kwargs) == Found(row) ==>
      && row.id in table && table[row.id] == row && Selected(q, row) && LookupsHold(row, kwargs)
      && forall pk :: pk in table && Selected(q, table[pk]) && LookupsHold(table[pk], kwargs) ==> pk == row.id
  {
    var found := Candidates(table, q, kwargs);
    forall pk | pk in table && Selected(q, table[pk]) && LookupsHold(table[pk], kwargs)
      ensures found != {}
    {
      assert pk in found;
    }
    forall row | BaseGet(table, q, kwargs) == Found(row)
      ensures row.id in table && table[row.id] == row && row.id in found && forall pk :: pk in found ==> pk == row.id
    {
      OneElement(found);
    }
    assert forall pk :: pk in found <==> pk in table && Selected(q, table[pk]) && LookupsHold(table[pk], kwargs);
  }

  /** A negated queryset selects what the other one does not, unless there is nothing to negate. */
  lemma NegatedSelects(q: Query, row: Row)
    ensures q.filters != [] ==> (Selected(q.(negated := true), row) <==> !Selected(q.(negated := false), row))
    ensures Selected(q.(negated := false), row)
      <==> forall i :: 0 <= i < |q.filters| ==> FilterHolds(q.filters[i], row)
  {
  }

  // ---- The cached `get` ----

  /** The primary key under which `get` consults the cache, if it does. */
  datatype CacheUse = Bypass | Use(pk: int)

  function PkOf(kwargs: map<string, int>): CacheUse {
    if "pk" in kwargs then Use(kwargs["pk"])
    else if "pk__exact" in kwargs then Use(kwargs["pk__exact"])
    else if "id" in kwargs then Use(kwargs["id"])
    else if "id__exact" in kwargs then Use(kwargs["id__exact"])
    else Bypass
  }

  predicate SingleExact(q: Query, kwargs: map<string, int>) {
    |q.filters| == 1 && kwargs == map[] && !q.negated && q.filters[0].Exact?
  }

  /** With a single exact filter and no arguments the filter is read as the argument. */
  function CacheUseOf(q: Query, kwargs: map<string, int>): CacheUse {
    var single := SingleExact(q, kwargs);
    var kwargs := if single then map[q.filters[0].column := q.filters[0].value] else kwargs;
    if q.filters != [] && !single then Bypass
    else if q.deferred then Bypass
    else PkOf(kwargs)
  }

  function GetRow(db: Db, q: Query, kwargs: map<string, int>, cacheDown: bool): GetResult {
    var use := CacheUseOf(q, kwargs);
    if use.Use? && !cacheDown && CacheKey(db, use.pk) in db.cache
    then Found(db.cache[CacheKey(db, use.pk)])
    else BaseGet(db.table, q, kwargs)
  }

  function AfterGet(db: Db, q: Query, kwargs: map<string, int>, cacheDown: bool): Db {
    var use := CacheUseOf(q, kwargs);
    var result := BaseGet(db.table, q, kwargs);
    if use.Use? && !cacheDown && CacheKey(db, use.pk) !in db.cache && result.Found?
    then db.(cache := db.cache[CacheKey(db, use.pk) := result.row])
    else db
  }

  /** The key under which an unfiltered queryset looks into the cache: of several spellings of the primary
      key the first one counts, in the order `pk`, `pk__exact`, `id`, `id__exact`. Without any of them, and
      with deferred columns, the cache is not asked. */
  lemma KeyOfArguments(q: Query, kwargs: map<string, int>)
    requires q.filters == []
    ensures CacheUseOf(q, kwargs).Use? <==> !q.deferred && exists k :: k in kwargs && IsPk(k)
    ensures var use := CacheUseOf(q, kwargs);
      use.Use? ==>
        && ("pk" in kwargs ==> use.pk == kwargs["pk"])
        && ("pk" !in kwargs && "pk__exact" in kwargs ==> use.pk == kwargs["pk__exact"])
        && ("pk" !in kwargs && "pk__exact" !in kwargs && "id" in kwargs ==> use.pk == kwargs["id"])
        && ("pk" !in kwargs && "pk__exact" !in kwargs && "id" !in kwargs ==>
              "id__exact" in kwargs && use.pk == kwargs["id__exact"])
  {
    assert IsPk("pk") && IsPk("pk__exact") && IsPk("id") && IsPk("id__exact");
  }

  // ---- Coherence ----

  /** Every cached entry of the model is the current row of its key. */
  ghost predicate Coherent(db: Db) {
    forall pk :: CacheKey(db, pk) in db.cache ==>
      pk in db.table && db.cache[CacheKey(db, pk)] == db.table[pk]
  }

  /** When the cache is consulted for a key, the underlying query can only find the row of that key. */
  lemma BaseGetByPk(table: Table, q: Query, kwargs: map<string, int>)
    requires CacheUseOf(q, kwargs).Use?
    ensures var pk := CacheUseOf(q, kwargs).pk;
      BaseGet(table, q, kwargs)
      == if pk in table && LookupsHold(table[pk], kwargs) then Found(table[pk]) else DoesNotExist
  {
    var pk := CacheUseOf(q, kwargs).pk;
    var found := Candidates(table, q, kwargs);
    forall k | k in table
      ensures k in found <==> k == pk && LookupsHold(table[k], kwargs)
    {
      SelectsByPk(q, kwargs, table[k]);
    }
    if pk in table && LookupsHold(table[pk], kwargs) {
      assert found == {pk};
    } else {
      assert found == {};
    }
  }

  lemma SelectsByPk(q: Query, kwargs: map<string, int>, row: Row)
    requires CacheUseOf(q, kwargs).Use?
    ensures Selected(q, row) && LookupsHold(row, kwargs)
      <==> row.id == CacheUseOf(q, kwargs).pk && LookupsHold(row, kwargs)
  {
    if SingleExact(q, kwargs) {
      assert IsPk(q.filters[0].column);
      assert Selected(q, row) == FilterHolds(q.filters[0], row);
    } else {
      assert Selected(q, row);
      if LookupsHold(row, kwargs) {
        assert forall k :: k in kwargs && IsPk(k) ==> row.id == kwargs[k] by {
          forall k | k in kwargs && IsPk(k)
            ensures row.id == kwargs[k]
          {
            assert ColumnIs(row, k, kwargs[k]);
          }
        }
      }
    }
  }

  /** In a coherent state `get` agrees with the plain query exactly when it does not hit the cache or
      the cached row meets all its arguments: extra arguments are not looked at on a hit. */
  lemma GetAgrees(db: Db, q: Query, kwargs: map<string, int>, cacheDown: bool)
    requires Coherent(db)
    ensures var use := CacheUseOf(q, kwargs);
      GetRow(db, q, kwargs, cacheDown) == BaseGet(db.table, q, kwargs)
      <==> !(use.Use? && !cacheDown && CacheKey(db, use.pk) in db.cache)
           || LookupsHold(db.cache[CacheKey(db, use.pk)], kwargs)
  {
    if CacheUseOf(q, kwargs).Use? {
      BaseGetByPk(db.table, q, kwargs);
    }
  }

  /** So `get(pk=…)` returns the stored row, or reports that there is none, whatever is cached. */
  lemma GetByPk(db: Db, pk: int, cacheDown: bool)
    requires Coherent(db)
    ensures GetRow(db, UNFILTERED, map["pk" := pk], cacheDown)
         == if pk in db.table then Found(db.table[pk]) else DoesNotExist
  {
    GetAgrees(db, UNFILTERED, map["pk" := pk], cacheDown);
    BaseGetByPk(db.table, UNFILTERED, map["pk" := pk]);
  }

  // ---- Bulk get ----

  /** The stored rows of a list of ids: in order, repeats kept, missing ids dropped. */
  function RowsOf(table: Table, ids: seq<int>): seq<Row> {
    if ids == [] then []
    else (if ids[0] in table then [table[ids[0]]] else []) + RowsOf(table, ids[1..])
  }

  /** The ids that have to be read from the table are put into the cache. */
  function AfterFromIds(db: Db, ids: seq<int>): Db {
    db.(cache := db.cache + Fetched(db, ids))
  }

  function Fetched(db: Db, ids: seq<int>): map<Key, Row> {
    map k: Key | k in FetchedKeys(db, ids) :: db.table[k.pk]
  }

  function FetchedKeys(db: Db, ids: seq<int>): (keys: set<Key>)
    ensures forall k :: k in keys <==>
      k.model == db.model && k.pk in ids && k !in db.cache && k.pk in db.table
  {
    set pk | pk in ids && CacheKey(db, pk) !in db.cache && pk in db.table :: CacheKey(db, pk)
  }

  /** `cache.get_many`, keyed by the rows' own ids. */
  function CachedRows(model: string, cache: map<Key, Row>, ids: seq<int>): (r: map<int, Row>)
    ensures forall id :: id in r <==> id in ids && Key(model, id) in cache
    ensures forall id :: id in r ==> r[id] == cache[Key(model, id)]
  {
    map id | id in ids && Key(model, id) in cache :: cache[Key(model, id)]
  }

  /** The query for the ids that were not cached. */
  function TableRows(table: Table, ids: set<int>): (r: map<int, Row>)
    ensures forall id :: id in r <==> id in ids && id in table
    ensures forall id :: id in r ==> r[id] == table[id]
  {
    map id | id in ids && id in table :: table[id]
  }

  function KeyedRows(model: string, rows: map<int, Row>): (r: map<Key, Row>)
    ensures forall k :: k in r <==> k.model == model && k.pk in rows
    ensures forall k :: k in r ==> r[k] == rows[k.pk]
  {
    var keys := set pk | pk in rows :: Key(model, pk);
    map k | k in keys :: rows[k.pk]
  }

  lemma FetchedRows(db: Db, ids: seq<int>, fetched: map<int, Row>)
    requires forall id :: id in fetched <==> id in ids && CacheKey(db, id) !in db.cache && id in db.table
    requires forall id :: id in fetched ==> fetched[id] == db.table[id]
    ensures KeyedRows(db.model, fetched) == Fetched(db, ids)
    ensures fetched == map[] ==> db.cache + Fetched(db, ids) == db.cache
  {
    var a, b := KeyedRows(db.model, fetched), Fetched(db, ids);
    assert forall k :: k in a <==> k in b;
    assert forall k :: k in a ==> a[k] == b[k];
  }

  function Missing(ids: seq<int>, cached: map<int, Row>): set<int> {
    (set id | id in ids) - cached.Keys
  }

  /** The dictionary has the stored row of each id that has one. */
  predicate HoldsRows(table: Table, ids: seq<int>, rows: map<int, Row>) {
    && (forall i :: 0 <= i < |ids| ==> (ids[i] in rows <==> ids[i] in table))
    && (forall id :: id in rows ==> id in table && rows[id] == table[id])
  }

  lemma MergedRows(table: Table, ids: seq<int>, cached: map<int, Row>, fetched: map<int, Row>)
    requires forall id :: id in ids ==> (id in cached || id in fetched <==> id in table)
    requires forall id :: id in cached ==> id in table && cached[id] == table[id]
    requires forall id :: id in fetched ==> id in table && fetched[id] == table[id]
    ensures HoldsRows(table, ids, cached + fetched)
    ensures fetched == map[] ==> HoldsRows(table, ids, cached)
  {
    forall i | 0 <= i < |ids|
      ensures ids[i] in cached + fetched <==> ids[i] in table
    {
      var id := ids[i];
      assert id in ids;
      assert id in cached + fetched <==> id in cached || id in fetched;
    }
    assert fetched == map[] ==> cached + fetched == cached;
  }

  /** The cached rows and those fetched for the rest are the stored rows of the ids. */
  lemma ReadThroughRows(db: Db, ids: seq<int>, cached: map<int, Row>, fetched: map<int, Row>)
    requires Coherent(db) && cached == CachedRows(db.model, db.cache, ids)
    requires fetched == TableRows(db.table, Missing(ids, cached))
    ensures HoldsRows(db.table, ids, cached + fetched)
    ensures fetched == map[] ==> HoldsRows(db.table, ids, cached)
  {
    assert forall id :: id in cached ==> CacheKey(db, id) in db.cache;
    MergedRows(db.table, ids, cached, fetched);
  }

  /** Those fetched are what the cache gains. */
  lemma ReadThroughCache(db: Db, ids: seq<int>, cached: map<int, Row>, fetched: map<int, Row>)
    requires cached == CachedRows(db.model, db.cache, ids)
    requires fetched == TableRows(db.table, Missing(ids, cached))
    ensures AfterFromIds(db, ids) == db.(cache := db.cache + KeyedRows(db.model, fetched))
    ensures Missing(ids, cached) == {} ==> fetched == map[] && AfterFromIds(db, ids) == db
  {
    FetchedRows(db, ids, fetched);
  }

  lemma {:induction false} RowsOfSnoc(table: Table, ids: seq<int>, pk: int)
    ensures RowsOf(table, ids + [pk]) == RowsOf(table, ids) + if pk in table then [table[pk]] else []
  {
    if ids == [] {
      assert [pk][1..] == [];
    } else {
      assert (ids + [pk])[1..] == ids[1..] + [pk];
      RowsOfSnoc(table, ids[1..], pk);
    }
  }

  // ---- Writes ----

  function Invalidate(db: Db, pk: int): Db {
    db.(cache := db.cache - {CacheKey(db, pk)})
  }

  function AfterSave(db: Db, row: Row): Db {
    Invalidate(db.(table := db.table[row.id := row]), row.id)
  }

  function AfterDelete(db: Db, pk: int): Db {
    Invalidate(db.(table := db.table - {pk}), pk)
  }

  function Assigned(row: Row, values: map<string, int>): Row {
    row.(cols := row.cols + values)
  }

  function UpdatedTable(table: Table, q: Query, values: map<string, int>): Table {
    map pk | pk in table :: if Selected(q, table[pk]) then Assigned(table[pk], values) else table[pk]
  }

  /** The id list is a lazy query: it runs after the write, on the changed rows. */
  function LookupIds(table: Table, q: Query): set<int> {
    set pk | pk in table && Selected(q, table[pk])
  }

  function AfterUpdate(db: Db, q: Query, values: map<string, int>): Db {
    var table := UpdatedTable(db.table, q, values);
    var ids := LookupIds(table, q);
    db.(table := table, cache := map k | k in db.cache && !(k.model == db.model && k.pk in ids) :: db.cache[k])
  }

  /** No cached row that the update changes falls out of the selection by it. */
  ghost predicate KeepsSelection(db: Db, q: Query, values: map<string, int>) {
    forall pk ::
      (&& CacheKey(db, pk) in db.cache && pk in db.table && Selected(q, db.table[pk])
       && Assigned(db.table[pk], values) != db.table[pk])
      ==> Selected(q, Assigned(db.table[pk], values))
  }

  /** An update keeps the cache coherent exactly when no changed row falls out of its selection. */
  lemma UpdateCoherentIff(db: Db, q: Query, values: map<string, int>)
    requires Coherent(db)
    ensures Coherent(AfterUpdate(db, q, values)) <==> KeepsSelection(db, q, values)
  {
    var after := AfterUpdate(db, q, values);
    var ids := LookupIds(after.table, q);
    if Coherent(after) {
      forall pk | CacheKey(db, pk) in db.cache && pk in db.table && Selected(q, db.table[pk])
          && Assigned(db.table[pk], values) != db.table[pk]
        ensures Selected(q, Assigned(db.table[pk], values))
      {
        assert after.table[pk] == Assigned(db.table[pk], values);
        assert pk in ids || CacheKey(after, pk) in after.cache;
      }
    }
    if KeepsSelection(db, q, values) {
      forall pk | CacheKey(after, pk) in after.cache
        ensures pk in after.table && after.cache[CacheKey(after, pk)] == after.table[pk]
      {
        assert CacheKey(db, pk) in db.cache && pk !in ids;
      }
    }
  }

  /** The columns an update must leave alone for its filters to be unaffected. */
  predicate DisjointColumns(q: Query, values: map<string, int>) {
    forall i :: 0 <= i < |q.filters| ==>
      q.filters[i].Exact? && q.filters[i].column !in values
  }

  lemma DisjointKeepsSelection(db: Db, q: Query, values: map<string, int>)
    requires DisjointColumns(q, values)
    ensures KeepsSelection(db, q, values)
  {
    forall pk | pk in db.table
      ensures Selected(q, Assigned(db.table[pk], values)) == Selected(q, db.table[pk])
    {
      var row := db.table[pk];
      forall i | 0 <= i < |q.filters|
        ensures FilterHolds(q.filters[i], Assigned(row, values)) == FilterHolds(q.filters[i], row)
      {
      }
    }
  }

  // ---- Runs ----

  datatype Op =
    | Get(q: Query, kwargs: map<string, int>, cacheDown: bool)
    | FromIds(ids: seq<int>)
    | Save(row: Row)
    | Delete(pk: int)
    | Update(q: Query, values: map<string, int>)
    | Evict(key: Key)

  function Apply(db: Db, op: Op): Db {
    match op
    case Get(q, kwargs, cacheDown) => AfterGet(db, q, kwargs, cacheDown)
    case FromIds(ids) => AfterFromIds(db, ids)
    case Save(row) => AfterSave(db, row)
    case Delete(pk) => AfterDelete(db, pk)
    case Update(q, values) => AfterUpdate(db, q, values)
    case Evict(key) => db.(cache := db.cache - {key})
  }

  function ApplyAll(db: Db, ops: seq<Op>): Db
    decreases ops
  {
    if ops == [] then db else ApplyAll(Apply(db, ops[0]), ops[1..])
  }

  predicate Proper(op: Op) {
    op.Update? ==> DisjointColumns(op.q, op.values)
  }

  /** The operation leaves no stale entry: only an update can, and only by a changed cached row that falls
      out of its selection. */
  ghost predicate KeepsUp(db: Db, op: Op) {
    op.Update? ==> KeepsSelection(db, op.q, op.values)
  }

  lemma StepCoherentIff(db: Db, op: Op)
    requires Coherent(db)
    ensures Coherent(Apply(db, op)) <==> KeepsUp(db, op)
  {
    match op
    case Get(q, kwargs, _) =>
      if CacheUseOf(q, kwargs).Use? {
        BaseGetByPk(db.table, q, kwargs);
      }
    case Update(q, values) => UpdateCoherentIff(db, q, values);
    case _ =>
  }

  ghost predicate CoherentThroughout(db: Db, ops: seq<Op>)
    decreases ops
  {
    Coherent(db) && (ops == [] || CoherentThroughout(Apply(db, ops[0]), ops[1..]))
  }

  ghost predicate AllKeepUp(db: Db, ops: seq<Op>)
    decreases ops
  {
    ops == [] || (KeepsUp(db, ops[0]) && AllKeepUp(Apply(db, ops[0]), ops[1..]))
  }

  /** Over a run the cache is coherent throughout exactly when every update keeps its selection. */
  lemma {:induction false} RunCoherentIff(db: Db, ops: seq<Op>)
    requires Coherent(db)
    ensures CoherentThroughout(db, ops) <==> AllKeepUp(db, ops)
    decreases ops
  {
    if ops != [] {
      StepCoherentIff(db, ops[0]);
      if KeepsUp(db, ops[0]) {
        RunCoherentIff(Apply(db, ops[0]), ops[1..]);
      }
    }
  }

  /** An update of the column it filters on, after a read of the row it changes: from then on `get` returns
      the row as it was. */
  lemma StaleAfterUpdate(model: string, pk: int, column: string, a: int, b: int)
    requires !IsPk(column) && a != b
    ensures var db := ApplyAll(Db(model, map[], map[]), StaleRun(pk, column, a, b));
      && db.table == map[pk := Row(pk, map[column := b])]
      && GetRow(db, UNFILTERED, map["pk" := pk], false) == Found(Row(pk, map[column := a]))
  {
    var row, after := Row(pk, map[column := a]), Row(pk, map[column := b]);
    var q, ops := Query([Exact(column, a)], false, false), StaleRun(pk, column, a, b);
    var one, two := Db(model, map[pk := row], map[]), Db(model, map[pk := row], map[Key(model, pk) := row]);
    assert Apply(Db(model, map[], map[]), ops[0]) == one;
    BaseGetByPk(one.table, UNFILTERED, map["pk" := pk]);
    assert Apply(one, ops[1]) == two;
    assert !FilterHolds(q.filters[0], after);
    OneRowUpdated(two, q, row, map[column := b], after);
    assert ops[1..] == [ops[1], ops[2]] && [ops[1], ops[2]][1..] == [ops[2]] && [ops[2]][1..] == [];
    assert ApplyAll(Apply(two, ops[2]), []) == Apply(two, ops[2]);
    assert ApplyAll(one, [ops[1], ops[2]]) == ApplyAll(two, [ops[2]]) == Apply(two, ops[2]);
  }

  /** The row is saved, read, and updated. */
  function StaleRun(pk: int, column: string, a: int, b: int): seq<Op> {
    [Save(Row(pk, map[column := a])),
     Get(UNFILTERED, map["pk" := pk], false),
     Update(Query([Exact(column, a)], false, false), map[column := b])]
  }

  lemma OneRowUpdated(db: Db, q: Query, row: Row, values: map<string, int>, after: Row)
    requires db.table == map[row.id := row] && Selected(q, row) && Assigned(row, values) == after
    requires !Selected(q, after)
    ensures AfterUpdate(db, q, values) == db.(table := map[row.id := after])
  {
    assert UpdatedTable(db.table, q, values) == map[row.id := after];
    assert LookupIds(map[row.id := after], q) == {};
  }

  lemma StepKeepsCoherence(db: Db, op: Op)
    requires Coherent(db) && Proper(op)
    ensures Coherent(Apply(db, op))
  {
    StepCoherentIff(db, op);
    if op.Update? {
      DisjointKeepsSelection(db, op.q, op.values);
    }
  }

  /** Cache coherence over every run: reads, saves, deletes, updates that leave their filter columns
      alone, and evictions at any moment. After it `get` and `from_ids` answer from the table. */
  lemma {:induction false} RunKeepsCoherence(db: Db, ops: seq<Op>)
    requires Coherent(db) && forall i :: 0 <= i < |ops| ==> Proper(ops[i])
    ensures Coherent(ApplyAll(db, ops))
    decreases ops
  {
    if ops != [] {
      StepKeepsCoherence(db, ops[0]);
      RunKeepsCoherence(Apply(db, ops[0]), ops[1..]);
    }
  }

  // ---- The queryset and its hooks ----

  /** The list that `from_ids` returns, from its dictionary. */
  method PickRows(ghost table: Table, ids: seq<int>, cached: map<int, Row>) returns (rows: seq<Row>)
    requires HoldsRows(table, ids, cached)
    ensures rows == RowsOf(table, ids)
  {
    rows := [];
    for i := 0 to |ids|
      invariant rows == RowsOf(table, ids[..i])
    {
      assert ids[..i + 1] == ids[..i] + [ids[i]];
      RowsOfSnoc(table, ids[..i], ids[i]);
      if ids[i] in cached {
        rows := rows + [cached[ids[i]]];
      }
    }
    assert ids[..|ids|] == ids;
  }

  /** One model's manager together with the stores it works on. */
  class CachedQuerySet {
    const model: string
    var table: Table
    var cache: map<Key, Row>

    ghost function Now(): Db
      reads this
    {
      Db(model, table, cache)
    }

    constructor (model: string, table: Table)
      ensures Now() == Db(model, table, map[])
      ensures Coherent(Now())
    {
      this.model, this.table, this.cache := model, table, map[];
    }

    method Get(q: Query, kwargs: map<string, int>, cacheDown: bool) returns (r: GetResult)
      modifies this`cache
      ensures r == GetRow(old(Now()), q, kwargs, cacheDown)
      ensures Now() == AfterGet(old(Now()), q, kwargs, cacheDown)
    {
      var lookups, ignoreFilter := kwargs, false;
      if |q.filters| == 1 && kwargs == map[] && !q.negated {
        if q.filters[0].Exact? {
          ignoreFilter := true;
          lookups := lookups[q.filters[0].column := q.filters[0].value];
        }
      }
      if q.filters != [] && !ignoreFilter {
        r := BaseGet(table, q, kwargs);
        return;
      }
      if q.deferred {
        r := BaseGet(table, q, kwargs);
        return;
      }
      var use := PkOf(lookups);
      if use.Bypass? || cacheDown {
        r := BaseGet(table, q, kwargs);
        return;
      }
      var key := Key(model, use.pk);
      if key !in cache {
        r := BaseGet(table, q, kwargs);
        if r.Found? {
          cache := cache[key := r.row];
        }
      } else {
        r := Found(cache[key]);
      }
    }

    /** `from_ids` with the default lookup, whatever part of the ids is cached. */
    method FromIds(ids: seq<int>) returns (rows: seq<Row>)
      requires Coherent(Now())
      modifies this`cache
      ensures rows == RowsOf(table, ids)
      ensures Now() == AfterFromIds(old(Now()), ids)
    {
      var cached := ReadThrough(ids);
      rows := PickRows(table, ids, cached);
    }

    /** The dictionary of `from_ids`: the cached rows, and the rest from the table, which is cached. */
    method ReadThrough(ids: seq<int>) returns (cached: map<int, Row>)
      requires Coherent(Now())
      modifies this`cache
      ensures HoldsRows(table, ids, cached)
      ensures Now() == AfterFromIds(old(Now()), ids)
    {
      ghost var db := Now();
      cached := CachedRows(model, cache, ids);
      var uncached := Missing(ids, cached);
      var fetched := TableRows(table, uncached);
      ReadThroughRows(db, ids, cached, fetched);
      ReadThroughCache(db, ids, cached, fetched);
      if uncached != {} {
        cached := cached + fetched;
        cache := cache + KeyedRows(model, fetched);
      }
    }

    method DropFromCache(pk: int)
      modifies this`cache
      ensures Now() == Invalidate(old(Now()), pk)
    {
      cache := cache - {Key(model, pk)};
    }

    /** Writing a row, with the hook that follows it. */
    method Save(row: Row)
      modifies this
      ensures Now() == AfterSave(old(Now()), row)
      ensures old(Coherent(Now())) ==> Coherent(Now())
    {
      table := table[row.id := row];
      DropFromCache(row.id);
    }

    method Delete(pk: int)
      modifies this
      ensures Now() == AfterDelete(old(Now()), pk)
      ensures old(Coherent(Now())) ==> Coherent(Now())
    {
      table := table - {pk};
      DropFromCache(pk);
    }

    method Update(q: Query, values: map<string, int>)
      modifies this
      ensures Now() == AfterUpdate(old(Now()), q, values)
      ensures old(Coherent(Now())) ==> (Coherent(Now()) <==> KeepsSelection(old(Now()), q, values))
    {
      ghost var before := Now();
      table := UpdatedTable(table, q, values);
      var ids := LookupIds(table, q);
      var left := ids;
      while left != {}
        invariant left <= ids && table == UpdatedTable(before.table, q, values)
        invariant cache == map k | k in before.cache
            && !(k.model == model && k.pk in ids - left) :: before.cache[k]
        decreases left
      {
        var pk :| pk in left;
        DropFromCache(pk);
        left := left - {pk};
      }
      assert ids - left == ids;
      if Coherent(before) {
        UpdateCoherentIff(before, q, values);
      }
    }
  }
}
