/** The in-memory web table store behind `DatabaseService` on the web
    platform: a dictionary from table name to an array of records, driven by
    a dispatcher that looks only at the statement's leading keyword and at a
    few substrings of it. */
module WebDatabase {
  import opened Wrappers
  import opened Text
  import Seqs

  /** A JavaScript value as found in a record field or bound to a `?`. */
  datatype Value = Undefined | Null | Bool(b: bool) | Num(n: int) | Str(s: string)

  /** JavaScript truthiness. */
  predicate Truthy(v: Value) {
    match v
    case Undefined => false
    case Null => false
    case Bool(b) => b
    case Num(n) => n != 0
    case Str(s) => s != ""
  }

  /** A record of the store: its numeric `id` and its other fields. Every
      record the store holds was created by an insert or by the sample
      data, so its `id` is always a number. */
  datatype Row = Row(id: int, fields: map<string, Value>)

  type Store = map<string, seq<Row>>

  const CUSTOMERS := "customers"
  const TASKS := "tasks"
  const TASK_HISTORY := "task_history"

  predicate HasTables(store: Store) {
    CUSTOMERS in store && TASKS in store && TASK_HISTORY in store
  }

  /** The shapes of result the web branch returns: `{values}` for a select
      or an unsupported statement, `{changes: {lastId}}` for an insert,
      `{changes: {changes}}` for an update or a delete. */
  datatype QueryResult = Rows(values: seq<Row>) | LastId(lastId: Option<int>) | Changes(changes: int)

  /** `values[i]`: undefined past the end. */
  function At(values: seq<Value>, i: nat): Value {
    if i < |values| then values[i] else Undefined
  }

  /** `record.name`: undefined when the field is absent. */
  function Field(r: Row, name: string): Value {
    if name in r.fields then r.fields[name] else Undefined
  }

  /** `item.id === v` */
  predicate HasId(r: Row, v: Value) {
    v == Num(r.id)
  }

  /** The filters a select and a delete apply to a table. */
  function CarriesId(v: Value): Row -> bool {
    (r: Row) => HasId(r, v)
  }

  function LacksId(v: Value): Row -> bool {
    (r: Row) => !HasId(r, v)
  }

  predicate UniqueIds(rows: seq<Row>) {
    forall i, j :: 0 <= i < j < |rows| ==> rows[i].id != rows[j].id
  }

  // ---------------------------------------------------------------------
  // Which table a statement names

  /** The table whose name follows `verb` in the statement, tried in the
      order customers, tasks, task_history. */
  function TableNamed(statement: string, verb: string): (t: Option<string>)
    ensures t.Some? ==> t.value in {CUSTOMERS, TASKS, TASK_HISTORY}
    ensures t.Some? ==> Contains(statement, verb + t.value)
    ensures t.None? ==> !Contains(statement, verb + CUSTOMERS) && !Contains(statement, verb + TASKS)
                        && !Contains(statement, verb + TASK_HISTORY)
  {
    if Contains(statement, verb + CUSTOMERS) then Some(CUSTOMERS)
    else if Contains(statement, verb + TASKS) then Some(TASKS)
    else if Contains(statement, verb + TASK_HISTORY) then Some(TASK_HISTORY)
    else None
  }

  // ---------------------------------------------------------------------
  // Lookups

  /** `rows.findIndex(item => item.id === v)`, None for -1. */
  function FindIndex(rows: seq<Row>, v: Value): (r: Option<nat>)
    ensures r.Some? ==> r.value < |rows| && HasId(rows[r.value], v)
    ensures r.Some? ==> forall j :: 0 <= j < r.value ==> !HasId(rows[j], v)
    ensures r.None? ==> forall j :: 0 <= j < |rows| ==> !HasId(rows[j], v)
    decreases |rows|
  {
    if |rows| == 0 then None
    else if HasId(rows[0], v) then Some(0)
    else match FindIndex(rows[1..], v)
      case None => None
      case Some(k) => Some(k + 1)
  }

  /** `rows.find(item => item.id === v)`. */
  function FindById(rows: seq<Row>, v: Value): (r: Option<Row>)
    ensures r.Some? ==> exists k :: 0 <= k < |rows| && rows[k] == r.value
                                     && HasId(r.value, v) && forall j :: 0 <= j < k ==> !HasId(rows[j], v)
    ensures r.None? ==> forall j :: 0 <= j < |rows| ==> !HasId(rows[j], v)
  {
    match FindIndex(rows, v)
    case None => None
    case Some(k) => Some(rows[k])
  }

  /** The largest id of a non-empty table: `Math.max(...ids)`. */
  function MaxId(rows: seq<Row>): (m: int)
    requires |rows| > 0
    ensures forall i :: 0 <= i < |rows| ==> rows[i].id <= m
    ensures exists i :: 0 <= i < |rows| && rows[i].id == m
    decreases |rows|
  {
    if |rows| == 1 then rows[0].id
    else
      var rest := MaxId(rows[1..]);
      assert forall i :: 1 <= i < |rows| ==> rows[i] == rows[1..][i - 1];
      if rows[0].id >= rest then rows[0].id else rest
  }

  /** The id an insert assigns: 1 for an empty table, otherwise one more
      than the largest id, so it is larger than every id present. */
  function NewId(rows: seq<Row>): (id: int)
    ensures forall i :: 0 <= i < |rows| ==> rows[i].id < id
    ensures |rows| == 0 ==> id == 1
    ensures |rows| > 0 ==> exists i :: 0 <= i < |rows| && rows[i].id == id - 1
  {
    if |rows| > 0 then MaxId(rows) + 1 else 1
  }

  // ---------------------------------------------------------------------
  // Record layouts

  /** The fields of a new record, by table, from the bound values. */
  function NewFields(table: string, values: seq<Value>): map<string, Value> {
    if table == CUSTOMERS then
      map["name" := At(values, 0), "email" := At(values, 1), "phone" := At(values, 2)]
    else if table == TASKS then
      map["title" := At(values, 0), "type" := At(values, 1), "customerId" := At(values, 2),
          "frequency" := At(values, 3), "startDate" := At(values, 4),
          "notificationType" := At(values, 5), "notes" := At(values, 6),
          "isCompleted" := Bool(At(values, 7) == Num(1))]
    else
      map["taskId" := At(values, 0), "timestamp" := At(values, 1), "action" := At(values, 2),
          "details" := At(values, 3)]
  }

  /** The fields an update writes over the old record (spread first, then
      the listed fields); a task_history record is left as it is. */
  function UpdatedFields(table: string, old_: map<string, Value>, values: seq<Value>): map<string, Value> {
    if table == CUSTOMERS then
      old_ + map["name" := At(values, 0), "email" := At(values, 1), "phone" := At(values, 2)]
    else if table == TASKS then
      old_ + map["title" := At(values, 0), "type" := At(values, 1), "customerId" := At(values, 2),
                 "frequency" := At(values, 3), "startDate" := At(values, 4),
                 "notificationType" := At(values, 5), "notes" := At(values, 6),
                 "isCompleted" := Bool(At(values, 7) == Num(1)), "lastCompletedDate" := At(values, 8)]
    else old_
  }

  // ---------------------------------------------------------------------
  // The handlers, as functions of the store

  const JOIN_SELECT := "SELECT t.*, c.name as customerName"
  const JOIN_FROM := "FROM tasks t"
  const JOIN_ON := "LEFT JOIN customers c ON t.customerId = c.id"

  predicate IsJoin(statement: string) {
    Contains(statement, JOIN_SELECT) && Contains(statement, JOIN_FROM) && Contains(statement, JOIN_ON)
  }

  /** The `customerName` a joined task gets: the name of the first customer
      whose id is the task's `customerId`, or null. */
  function CustomerName(customers: seq<Row>, task: Row): (v: Value)
    ensures !Truthy(Field(task, "customerId")) ==> v == Null
    ensures FindById(customers, Field(task, "customerId")).None? ==> v == Null
    ensures Truthy(Field(task, "customerId")) && FindById(customers, Field(task, "customerId")).Some? ==>
      v == Field(FindById(customers, Field(task, "customerId")).value, "name")
  {
    var cid := Field(task, "customerId");
    if Truthy(cid) then
      match FindById(customers, cid)
      case Some(c) => Field(c, "name")
      case None => Null
    else Null
  }

  /** `{...task, customerName}` */
  function Joined(customers: seq<Row>, task: Row): Row {
    Row(task.id, task.fields["customerName" := CustomerName(customers, task)])
  }

  /** The join over all tasks, in task order. */
  function JoinedAll(customers: seq<Row>, tasks: seq<Row>): seq<Row> {
    seq(|tasks|, i requires 0 <= i < |tasks| => Joined(customers, tasks[i]))
  }

  /** Comparator of `ORDER BY t.startDate`: `new Date(a.startDate).getTime()
      - new Date(b.startDate).getTime()`, with date parsing given. */
  function StartDateOrder(parseDate: Value -> int): (Row, Row) -> bool {
    (a: Row, b: Row) => parseDate(Field(a, "startDate")) <= parseDate(Field(b, "startDate"))
  }

  /** Whether the generic select path filters by id. */
  predicate FiltersById(statement: string, values: seq<Value>) {
    |values| > 0 && Contains(statement, "WHERE") && Contains(statement, "id = ?")
  }

  /** `handleWebSelect` */
  function Select(store: Store, parseDate: Value -> int, statement: string, values: seq<Value>): seq<Row>
    requires HasTables(store)
  {
    if IsJoin(statement) && Contains(statement, "WHERE t.id = ?") && |values| > 0 then
      match FindById(store[TASKS], values[0])
      case None => []
      case Some(task) => [Joined(store[CUSTOMERS], task)]
    else if IsJoin(statement) then
      var joined := JoinedAll(store[CUSTOMERS], store[TASKS]);
      if Contains(statement, "ORDER BY t.startDate") then Seqs.SortBy(StartDateOrder(parseDate), joined)
      else joined
    else
      match TableNamed(statement, "FROM ")
      case None => []
      case Some(t) =>
        if FiltersById(statement, values) then Seqs.Filter(CarriesId(values[0]), store[t])
        else store[t]
  }

  /** `handleWebInsert`: appends one record with a fresh id to the named
      table; every other record and table is left as it was. */
  function Insert(store: Store, statement: string, values: seq<Value>): (res: (Store, QueryResult))
    requires HasTables(store)
    ensures HasTables(res.0) && res.0.Keys == store.Keys && res.1.LastId?
    ensures res.1.lastId.None? <==> TableNamed(statement, "INTO ").None?
    ensures res.1.lastId.None? ==> res.0 == store
    ensures res.1.lastId.Some? ==>
      var t := TableNamed(statement, "INTO ").value;
      var id := res.1.lastId.value;
      && |res.0[t]| == |store[t]| + 1
      && res.0[t][..|store[t]|] == store[t]
      && res.0[t][|store[t]|] == Row(id, NewFields(t, values))
      && id == NewId(store[t])
      && (forall i :: 0 <= i < |store[t]| ==> store[t][i].id < id)
      && (forall u :: u in store && u != t ==> res.0[u] == store[u])
  {
    match TableNamed(statement, "INTO ")
    case None => (store, LastId(None))
    case Some(t) =>
      var id := NewId(store[t]);
      var rows := store[t] + [Row(id, NewFields(t, values))];
      assert rows[..|store[t]|] == store[t];
      (store[t := rows], LastId(Some(id)))
  }

  /** The id an update targets: the last bound value. */
  function UpdateTarget(values: seq<Value>): Value {
    if |values| == 0 then Undefined else values[|values| - 1]
  }

  /** `handleWebUpdate`: rewrites the first record with the target id,
      keeping its id and its unlisted fields. */
  function Update(store: Store, statement: string, values: seq<Value>): (res: (Store, QueryResult))
    requires HasTables(store)
    ensures HasTables(res.0) && res.0.Keys == store.Keys && res.1.Changes?
    ensures res.1.changes == 0 || res.1.changes == 1
    ensures res.1.changes == 0 ==> res.0 == store
    ensures res.1.changes == 1 <==>
      TableNamed(statement, "UPDATE ").Some? &&
      exists k :: 0 <= k < |store[TableNamed(statement, "UPDATE ").value]| &&
        HasId(store[TableNamed(statement, "UPDATE ").value][k], UpdateTarget(values))
  {
    match TableNamed(statement, "UPDATE ")
    case None => (store, Changes(0))
    case Some(t) =>
      match FindIndex(store[t], UpdateTarget(values))
      case None => (store, Changes(0))
      case Some(i) =>
        var r := store[t][i];
        (store[t := store[t][i := Row(r.id, UpdatedFields(t, r.fields, values))]], Changes(1))
  }

  /** `handleWebDelete`: keeps the records whose id differs from the first
      bound value, and reports how many were removed. */
  function Delete(store: Store, statement: string, values: seq<Value>): (res: (Store, QueryResult))
    requires HasTables(store)
    ensures HasTables(res.0) && res.0.Keys == store.Keys && res.1.Changes?
    ensures TableNamed(statement, "FROM ").None? || |values| == 0 ==> res == (store, Changes(0))
    ensures TableNamed(statement, "FROM ").Some? && |values| > 0 ==>
      var t := TableNamed(statement, "FROM ").value;
      && (forall i :: 0 <= i < |res.0[t]| ==> !HasId(res.0[t][i], values[0]))
      && (forall i :: 0 <= i < |store[t]| && !HasId(store[t][i], values[0]) ==> store[t][i] in res.0[t])
      && res.1.changes == |store[t]| - |res.0[t]| >= 0
      && (forall u :: u in store && u != t ==> res.0[u] == store[u])
  {
    match TableNamed(statement, "FROM ")
    case None => (store, Changes(0))
    case Some(t) =>
      if |values| == 0 then (store, Changes(0))
      else
        var kept := Seqs.Filter(LacksId(values[0]), store[t]);
        (store[t := kept], Changes(|store[t]| - |kept|))
  }

  // ---------------------------------------------------------------------
  // The dispatcher

  datatype Kind = SelectStatement | InsertStatement | UpdateStatement | DeleteStatement | Unsupported

  /** The statement is trimmed and upper-cased, and its leading keyword
      picks the handler. */
  function KindOf(statement: string): (k: Kind)
    ensures k == SelectStatement <==> StartsWith(ToUpper(Trim(statement)), "SELECT")
    ensures k == InsertStatement <==>
      !StartsWith(ToUpper(Trim(statement)), "SELECT") && StartsWith(ToUpper(Trim(statement)), "INSERT")
    ensures k == UpdateStatement <==>
      !StartsWith(ToUpper(Trim(statement)), "SELECT") && !StartsWith(ToUpper(Trim(statement)), "INSERT") &&
      StartsWith(ToUpper(Trim(statement)), "UPDATE")
    ensures k == DeleteStatement <==>
      !StartsWith(ToUpper(Trim(statement)), "SELECT") && !StartsWith(ToUpper(Trim(statement)), "INSERT") &&
      !StartsWith(ToUpper(Trim(statement)), "UPDATE") && StartsWith(ToUpper(Trim(statement)), "DELETE")
    ensures k == Unsupported <==>
      !StartsWith(ToUpper(Trim(statement)), "SELECT") && !StartsWith(ToUpper(Trim(statement)), "INSERT") &&
      !StartsWith(ToUpper(Trim(statement)), "UPDATE") && !StartsWith(ToUpper(Trim(statement)), "DELETE")
  {
    var head := ToUpper(Trim(statement));
    if StartsWith(head, "SELECT") then SelectStatement
    else if StartsWith(head, "INSERT") then InsertStatement
    else if StartsWith(head, "UPDATE") then UpdateStatement
    else if StartsWith(head, "DELETE") then DeleteStatement
    else Unsupported
  }

  /** `executeWebQuery` as a function of the store: the new store and the
      result. */
  function Execute(store: Store, parseDate: Value -> int, statement: string, values: seq<Value>): (res: (Store, QueryResult))
    requires HasTables(store)
    ensures HasTables(res.0) && res.0.Keys == store.Keys
    ensures KindOf(statement) == Unsupported ==> res == (store, Rows([]))
    ensures KindOf(statement) == SelectStatement ==> res.0 == store && res.1.Rows?
  {
    match KindOf(statement)
    case SelectStatement => (store, Rows(Select(store, parseDate, statement, values)))
    case InsertStatement => Insert(store, statement, values)
    case UpdateStatement => Update(store, statement, values)
    case DeleteStatement => Delete(store, statement, values)
    case Unsupported => (store, Rows([]))
  }

  /** One entry of an `executeSet` batch. */
  datatype SetItem = SetItem(statement: Option<string>, values: Option<seq<Value>>)

  predicate HasStatement(item: SetItem) {
    item.statement.Some? && item.statement.value != ""
  }

  /** One item of an `executeSet` batch: an item without a statement
      contributes `{values: []}` and changes nothing. */
  function RunItem(store: Store, parseDate: Value -> int, item: SetItem): (res: (Store, QueryResult))
    requires HasTables(store)
    ensures HasTables(res.0) && res.0.Keys == store.Keys
    ensures !HasStatement(item) ==> res == (store, Rows([]))
  {
    if HasStatement(item) then Execute(store, parseDate, item.statement.value, item.values.GetOr([]))
    else (store, Rows([]))
  }

  /** The web branch of `executeSet`: the items run in order, each on the
      store the earlier ones left. */
  function RunSet(store: Store, parseDate: Value -> int, items: seq<SetItem>): (res: (Store, seq<QueryResult>))
    requires HasTables(store)
    ensures HasTables(res.0) && res.0.Keys == store.Keys && |res.1| == |items|
    decreases |items|
  {
    if |items| == 0 then (store, [])
    else
      var (s, rs) := RunSet(store, parseDate, items[..|items| - 1]);
      var (s2, r) := RunItem(s, parseDate, items[|items| - 1]);
      (s2, rs + [r])
  }

  /** One more item of a batch runs on the store the earlier items left. */
  lemma RunSetStep(store: Store, parseDate: Value -> int, items: seq<SetItem>, i: nat)
    requires HasTables(store) && i < |items|
    ensures var prev := RunSet(store, parseDate, items[..i]);
            var next := RunItem(prev.0, parseDate, items[i]);
            RunSet(store, parseDate, items[..i + 1]) == (next.0, prev.1 + [next.1])
  {
    assert items[..i + 1][..i] == items[..i];
  }

  // ---------------------------------------------------------------------
  // Initialisation

  const SAMPLE_CUSTOMER := Row(1, map["name" := Str("Sample Customer"), "email" := Str("sample@example.com"),
                                      "phone" := Str("123-456-7890")])

  /** `initializeEmptyWebStore` */
  function EmptyWebStore(): Store {
    map[CUSTOMERS := [SAMPLE_CUSTOMER], TASKS := [], TASK_HISTORY := []]
  }

  /** The table-ensuring part of `initializeWebDatabase`: a missing table is
      created empty, an existing one is kept as it is. */
  function EnsureTables(store: Store): (r: Store)
    ensures HasTables(r) && r.Keys == store.Keys + {CUSTOMERS, TASKS, TASK_HISTORY}
    ensures forall t :: t in store ==> r[t] == store[t]
    ensures forall t :: t in r && t !in store ==> r[t] == []
  {
    var s1 := if CUSTOMERS in store then store else store[CUSTOMERS := []];
    var s2 := if TASKS in s1 then s1 else s1[TASKS := []];
    if TASK_HISTORY in s2 then s2 else s2[TASK_HISTORY := []]
  }

  /** The store `initializeWebDatabase` produces from what local storage
      holds (None when nothing is stored or it does not parse). */
  function Initialized(stored: Option<Store>): (r: Store)
    ensures HasTables(r)
  {
    match stored
    case Some(m) => EnsureTables(m)
    case None => EnsureTables(EmptyWebStore())
  }

  /** Reloading a store that already has its tables gives it back. */
  lemma ReinitializeKeepsStore(store: Store)
    requires HasTables(store)
    ensures Initialized(Some(store)) == store
  {
  }

  // ---------------------------------------------------------------------
  // Properties of the handlers

  ghost predicate AllIdsUnique(store: Store) {
    forall t :: t in store ==> UniqueIds(store[t])
  }

  /** An insert keeps every table free of duplicate ids, because the new id
      exceeds every id already in its table. */
  lemma InsertPreservesUniqueIds(store: Store, statement: string, values: seq<Value>)
    requires HasTables(store) && AllIdsUnique(store)
    ensures AllIdsUnique(Insert(store, statement, values).0)
  {
    var res := Insert(store, statement, values);
    if res.1.lastId.Some? {
      var t := TableNamed(statement, "INTO ").value;
      var rows := res.0[t];
      forall i, j | 0 <= i < j < |rows| ensures rows[i].id != rows[j].id {
        if j < |store[t]| {
          assert rows[i] == store[t][i] && rows[j] == store[t][j];
        } else {
          assert rows[i] == store[t][i];
        }
      }
    }
  }

  /** An update keeps the id of the record it rewrites, so ids stay unique. */
  lemma UpdatePreservesUniqueIds(store: Store, statement: string, values: seq<Value>)
    requires HasTables(store) && AllIdsUnique(store)
    ensures AllIdsUnique(Update(store, statement, values).0)
  {
    var res := Update(store, statement, values);
    if res.1.changes == 1 {
      var t := TableNamed(statement, "UPDATE ").value;
      var i := FindIndex(store[t], UpdateTarget(values)).value;
      assert forall k :: 0 <= k < |res.0[t]| ==> res.0[t][k].id == store[t][k].id;
    }
  }

  /** A delete only drops records, so ids stay unique. */
  lemma DeletePreservesUniqueIds(store: Store, statement: string, values: seq<Value>)
    requires HasTables(store) && AllIdsUnique(store)
    ensures AllIdsUnique(Delete(store, statement, values).0)
  {
    var t := TableNamed(statement, "FROM ");
    if t.Some? && |values| > 0 {
      FilterKeepsUniqueIds(LacksId(values[0]), store[t.value]);
    }
  }

  lemma {:induction false} FilterKeepsUniqueIds(p: Row -> bool, rows: seq<Row>)
    requires UniqueIds(rows)
    ensures UniqueIds(Seqs.Filter(p, rows))
    decreases |rows|
  {
    if |rows| > 0 {
      FilterKeepsUniqueIds(p, rows[1..]);
      var rest := Seqs.Filter(p, rows[1..]);
      forall k | 0 <= k < |rest| ensures rest[k].id != rows[0].id {
        assert rest[k] in rows[1..];
      }
    }
  }

  /** Every statement the dispatcher accepts keeps ids unique in every table. */
  lemma ExecutePreservesUniqueIds(store: Store, parseDate: Value -> int, statement: string, values: seq<Value>)
    requires HasTables(store) && AllIdsUnique(store)
    ensures AllIdsUnique(Execute(store, parseDate, statement, values).0)
  {
    match KindOf(statement)
    case SelectStatement =>
    case InsertStatement => InsertPreservesUniqueIds(store, statement, values);
    case UpdateStatement => UpdatePreservesUniqueIds(store, statement, values);
    case DeleteStatement => DeletePreservesUniqueIds(store, statement, values);
    case Unsupported =>
  }

  /** A whole batch keeps ids unique in every table. */
  lemma {:induction false} RunSetPreservesUniqueIds(store: Store, parseDate: Value -> int, items: seq<SetItem>)
    requires HasTables(store) && AllIdsUnique(store)
    ensures AllIdsUnique(RunSet(store, parseDate, items).0)
    decreases |items|
  {
    if |items| > 0 {
      RunSetPreservesUniqueIds(store, parseDate, items[..|items| - 1]);
      var s := RunSet(store, parseDate, items[..|items| - 1]).0;
      var item := items[|items| - 1];
      if HasStatement(item) {
        ExecutePreservesUniqueIds(s, parseDate, item.statement.value, item.values.GetOr([]));
      }
    }
  }

  /** Deleting by the id an insert just returned restores the table (and so
      the whole store) to what it was before the insert. */
  lemma InsertThenDeleteRestores(store: Store, insert: string, values: seq<Value>, delete: string)
    requires HasTables(store)
    requires TableNamed(insert, "INTO ").Some?
    requires TableNamed(delete, "FROM ") == TableNamed(insert, "INTO ")
    ensures Delete(Insert(store, insert, values).0, delete, [Num(Insert(store, insert, values).1.lastId.value)])
              == (store, Changes(1))
  {
    var t := TableNamed(insert, "INTO ").value;
    var id := InsertAppends(store, insert, values);
    DeleteRestores(store, delete, t, Row(id, NewFields(t, values)));
  }

  /** Deleting a record just appended to a table, under an id above every
      other, gives back the store it was appended to. */
  lemma DeleteRestores(store: Store, delete: string, t: string, added: Row)
    requires HasTables(store) && TableNamed(delete, "FROM ") == Some(t) && t in store
    requires forall i :: 0 <= i < |store[t]| ==> store[t][i].id < added.id
    ensures Delete(store[t := store[t] + [added]], delete, [Num(added.id)]) == (store, Changes(1))
  {
    var inserted := store[t := store[t] + [added]];
    DeleteAppended(inserted, delete, t, store[t], added);
    assert inserted[t := store[t]] == store;
  }

  /** An insert into a named table appends one record whose id exceeds every
      id already there, and changes nothing else. */
  lemma InsertAppends(store: Store, insert: string, values: seq<Value>) returns (id: int)
    requires HasTables(store)
    requires TableNamed(insert, "INTO ").Some?
    ensures var t := TableNamed(insert, "INTO ").value;
            && Insert(store, insert, values) == (store[t := store[t] + [Row(id, NewFields(t, values))]], LastId(Some(id)))
            && forall i :: 0 <= i < |store[t]| ==> store[t][i].id < id
  {
    id := Insert(store, insert, values).1.lastId.value;
  }

  /** Deleting by the id of the last record of a table, when every other
      record has a smaller id, removes just that record. */
  lemma DeleteAppended(store: Store, delete: string, t: string, before: seq<Row>, added: Row)
    requires HasTables(store) && TableNamed(delete, "FROM ") == Some(t) && t in store && store[t] == before + [added]
    requires forall i :: 0 <= i < |before| ==> before[i].id < added.id
    ensures Delete(store, delete, [Num(added.id)]) == (store[t := before], Changes(1))
  {
    DropAppended(before, added);
  }

  /** Filtering out the id of a record appended after records with smaller
      ids gives back the records before it. */
  lemma DropAppended(rows: seq<Row>, added: Row)
    requires forall i :: 0 <= i < |rows| ==> rows[i].id < added.id
    ensures Seqs.Filter(LacksId(Num(added.id)), rows + [added]) == rows
  {
    var p := LacksId(Num(added.id));
    Seqs.FilterConcat(p, rows, [added]);
    Seqs.FilterAll(p, rows);
    assert Seqs.Filter(p, [added]) == [];
  }

  /** After an insert, a select by the returned id on that table finds
      exactly the new record. */
  lemma InsertThenSelectById(store: Store, parseDate: Value -> int, insert: string, values: seq<Value>, select: string)
    requires HasTables(store)
    requires TableNamed(insert, "INTO ").Some?
    requires !IsJoin(select) && Contains(select, "WHERE") && Contains(select, "id = ?")
    requires TableNamed(select, "FROM ") == TableNamed(insert, "INTO ")
    ensures var (s1, r1) := Insert(store, insert, values);
            Select(s1, parseDate, select, [Num(r1.lastId.value)]) ==
              [Row(r1.lastId.value, NewFields(TableNamed(insert, "INTO ").value, values))]
  {
    var t := TableNamed(insert, "INTO ").value;
    var (s1, r1) := Insert(store, insert, values);
    var id := r1.lastId.value;
    var p := CarriesId(Num(id));
    var added := Row(id, NewFields(t, values));
    assert s1[t] == store[t] + [added];
    Seqs.FilterConcat(p, store[t], [added]);
    NoneMatch(p, store[t]);
  }

  lemma {:induction false} NoneMatch(p: Row -> bool, rows: seq<Row>)
    requires forall i :: 0 <= i < |rows| ==> !p(rows[i])
    ensures Seqs.Filter(p, rows) == []
    decreases |rows|
  {
    if |rows| > 0 { NoneMatch(p, rows[1..]); }
  }

  /** An update rewrites exactly the first record carrying the target id:
      that record keeps its id and gains the listed fields, every other
      record of every table is unchanged; with unique ids no other record
      carries the target id. */
  lemma UpdateRewritesOnlyTarget(store: Store, statement: string, values: seq<Value>)
    requires HasTables(store)
    requires Update(store, statement, values).1.changes == 1
    ensures var t := TableNamed(statement, "UPDATE ").value;
            var res := Update(store, statement, values).0;
            exists k ::
              && 0 <= k < |store[t]| && HasId(store[t][k], UpdateTarget(values))
              && (forall j :: 0 <= j < k ==> !HasId(store[t][j], UpdateTarget(values)))
              && |res[t]| == |store[t]|
              && res[t][k] == Row(store[t][k].id, UpdatedFields(t, store[t][k].fields, values))
              && (forall j :: 0 <= j < |store[t]| && j != k ==> res[t][j] == store[t][j])
              && (UniqueIds(store[t]) ==> forall j :: 0 <= j < |store[t]| && j != k ==> !HasId(store[t][j], UpdateTarget(values)))
    ensures forall u :: u in store && u != TableNamed(statement, "UPDATE ").value ==>
              Update(store, statement, values).0[u] == store[u]
  {
    var t := TableNamed(statement, "UPDATE ").value;
    var k := FindIndex(store[t], UpdateTarget(values)).value;
    var res := Update(store, statement, values).0;
    assert res[t][k] == Row(store[t][k].id, UpdatedFields(t, store[t][k].fields, values));
  }

  /** An update of task_history finds its record and reports one change, but
      leaves the store as it was. */
  lemma UpdateTaskHistoryChangesNothing(store: Store, statement: string, values: seq<Value>)
    requires HasTables(store)
    requires TableNamed(statement, "UPDATE ") == Some(TASK_HISTORY)
    ensures Update(store, statement, values).0 == store
  {
    var rows := store[TASK_HISTORY];
    match FindIndex(rows, UpdateTarget(values))
    case None =>
    case Some(i) =>
      assert rows[i := Row(rows[i].id, rows[i].fields)] == rows;
  }

  /** A delete keeps the remaining records of the table in their original
      order: the new table lists, in order, exactly the records without the
      id, each as often as before. */
  lemma DeleteKeepsOrder(store: Store, statement: string, values: seq<Value>) returns (idx: seq<nat>)
    requires HasTables(store) && TableNamed(statement, "FROM ").Some? && |values| > 0
    ensures var t := TableNamed(statement, "FROM ").value;
            Seqs.SelectsInOrder(Delete(store, statement, values).0[t], store[t], idx, LacksId(values[0]))
    ensures var t := TableNamed(statement, "FROM ").value;
            forall r :: multiset(Delete(store, statement, values).0[t])[r] ==
              if HasId(r, values[0]) then 0 else multiset(store[t])[r]
  {
    var t := TableNamed(statement, "FROM ").value;
    idx := Seqs.FilterSelectsInOrder(LacksId(values[0]), store[t]);
    forall r ensures multiset(Delete(store, statement, values).0[t])[r] ==
                     if HasId(r, values[0]) then 0 else multiset(store[t])[r] {
      Seqs.FilterMultiset(LacksId(values[0]), store[t], r);
    }
  }

  /** A select by id on a table returns, in table order, exactly the
      records carrying the id. */
  lemma SelectById(store: Store, parseDate: Value -> int, statement: string, values: seq<Value>) returns (idx: seq<nat>)
    requires HasTables(store) && !IsJoin(statement) && TableNamed(statement, "FROM ").Some?
    requires FiltersById(statement, values)
    ensures Seqs.SelectsInOrder(Select(store, parseDate, statement, values),
                                store[TableNamed(statement, "FROM ").value], idx, CarriesId(values[0]))
  {
    idx := Seqs.FilterSelectsInOrder(CarriesId(values[0]), store[TableNamed(statement, "FROM ").value]);
  }

  /** A select on a table without an id filter returns the whole table, and
      a select naming no known table returns nothing. */
  lemma SelectWholeTable(store: Store, parseDate: Value -> int, statement: string, values: seq<Value>)
    requires HasTables(store) && !IsJoin(statement)
    ensures TableNamed(statement, "FROM ").None? ==> Select(store, parseDate, statement, values) == []
    ensures TableNamed(statement, "FROM ").Some? && !FiltersById(statement, values) ==>
      Select(store, parseDate, statement, values) == store[TableNamed(statement, "FROM ").value]
  {
  }

  /** The single-task join returns nothing for an unknown id, and otherwise
      the first task with the id, with its customer's name added. */
  lemma SelectJoinOne(store: Store, parseDate: Value -> int, statement: string, values: seq<Value>)
    requires HasTables(store) && IsJoin(statement) && Contains(statement, "WHERE t.id = ?") && |values| > 0
    ensures FindById(store[TASKS], values[0]).None? ==> Select(store, parseDate, statement, values) == []
    ensures FindById(store[TASKS], values[0]).Some? ==>
      var task := FindById(store[TASKS], values[0]).value;
      var r := Select(store, parseDate, statement, values);
      && |r| == 1 && HasId(task, values[0]) && r[0].id == task.id
      && r[0].fields == task.fields["customerName" := CustomerName(store[CUSTOMERS], task)]
  {
  }

  /** The join over all tasks gives one row per task: without ordering, row
      i is task i with its customer's name added; with `ORDER BY
      t.startDate` the same rows, sorted by start date. */
  lemma SelectJoinAll(store: Store, parseDate: Value -> int, statement: string, values: seq<Value>)
    requires HasTables(store) && IsJoin(statement) && !(Contains(statement, "WHERE t.id = ?") && |values| > 0)
    ensures |Select(store, parseDate, statement, values)| == |store[TASKS]|
    ensures !Contains(statement, "ORDER BY t.startDate") ==>
      var r := Select(store, parseDate, statement, values);
      var tasks := store[TASKS];
      forall i :: 0 <= i < |tasks| ==>
        r[i].id == tasks[i].id && r[i].fields == tasks[i].fields["customerName" := CustomerName(store[CUSTOMERS], tasks[i])]
    ensures Contains(statement, "ORDER BY t.startDate") ==>
      var r := Select(store, parseDate, statement, values);
      && multiset(r) == multiset(JoinedAll(store[CUSTOMERS], store[TASKS]))
      && Seqs.SortedBy(StartDateOrder(parseDate), r)
  {
    if Contains(statement, "ORDER BY t.startDate") {
      StartDateOrderTotal(parseDate);
      Seqs.SortBySorted(StartDateOrder(parseDate), JoinedAll(store[CUSTOMERS], store[TASKS]));
    }
  }

  /** Comparing start dates is a total preorder, so the sort orders the
      rows. */
  lemma StartDateOrderTotal(parseDate: Value -> int)
    ensures Seqs.TotalPreorder(StartDateOrder(parseDate))
  {
  }

  /** The count a delete reports is the number of records carrying the id;
      with unique ids it is 1 when such a record exists and 0 otherwise. */
  lemma DeleteCountsMatches(store: Store, statement: string, values: seq<Value>)
    requires HasTables(store) && TableNamed(statement, "FROM ").Some? && |values| > 0
    ensures var t := TableNamed(statement, "FROM ").value;
            Delete(store, statement, values).1.changes == |Seqs.Filter(CarriesId(values[0]), store[t])|
    ensures var t := TableNamed(statement, "FROM ").value;
            UniqueIds(store[t]) ==>
              Delete(store, statement, values).1.changes == (if FindIndex(store[t], values[0]).Some? then 1 else 0)
  {
    var t := TableNamed(statement, "FROM ").value;
    var p := CarriesId(values[0]);
    var q := LacksId(values[0]);
    FilterComplement(p, q, store[t]);
    if UniqueIds(store[t]) {
      AtMostOneMatch(store[t], values[0]);
    }
  }

  lemma {:induction false} FilterComplement(p: Row -> bool, q: Row -> bool, rows: seq<Row>)
    requires forall r :: q(r) == !p(r)
    ensures |Seqs.Filter(p, rows)| + |Seqs.Filter(q, rows)| == |rows|
    decreases |rows|
  {
    if |rows| > 0 { FilterComplement(p, q, rows[1..]); }
  }

  /** In a table with unique ids a select by id returns at most one record,
      and exactly one when the id is present. */
  lemma {:induction false} AtMostOneMatch(rows: seq<Row>, v: Value)
    requires UniqueIds(rows)
    ensures |Seqs.Filter(CarriesId(v), rows)| == if FindIndex(rows, v).Some? then 1 else 0
    decreases |rows|
  {
    if |rows| > 0 {
      AtMostOneMatch(rows[1..], v);
      if HasId(rows[0], v) {
        assert forall j :: 0 <= j < |rows[1..]| ==> !HasId(rows[1..][j], v);
        NoneMatch(CarriesId(v), rows[1..]);
      }
    }
  }

  // ---------------------------------------------------------------------
  // The service object

  /** The web side of `DatabaseService`: the store, what local storage
      holds, and date parsing (`new Date(v).getTime()`). */
  class WebDatabaseService {
    var store: Store
    var localStorage: Option<Store>
    const parseDate: Value -> int

    /** Every table exists, and local storage holds the current store (it is
        saved after every change). */
    ghost predicate Valid()
      reads this
    {
      HasTables(store) && localStorage == Some(store)
    }

    /** The constructor starts `initializeDatabase`, which on the web loads
        what local storage holds. */
    constructor (stored: Option<Store>, parseDate: Value -> int)
      ensures Valid() && store == Initialized(stored) && this.parseDate == parseDate
    {
      this.parseDate := parseDate;
      store := map[];
      localStorage := stored;
      new;
      InitializeWebDatabase();
    }

    method SaveWebStoreToLocalStorage()
      modifies this`localStorage
      ensures localStorage == Some(store)
    {
      localStorage := Some(store);
    }

    method InitializeEmptyWebStore()
      modifies this
      ensures store == EmptyWebStore() && localStorage == Some(store)
    {
      store := map[CUSTOMERS := [SAMPLE_CUSTOMER], TASKS := [], TASK_HISTORY := []];
      SaveWebStoreToLocalStorage();
    }

    /** Loads the stored tables (or the sample data when nothing is stored),
        creates any missing table and saves; run again on a valid service it
        changes nothing. */
    method InitializeWebDatabase()
      modifies this
      ensures Valid() && store == Initialized(old(localStorage))
      ensures old(Valid()) ==> store == old(store)
    {
      match localStorage {
        case Some(m) => store := m;
        case None => InitializeEmptyWebStore();
      }
      if CUSTOMERS !in store { store := store[CUSTOMERS := []]; }
      if TASKS !in store { store := store[TASKS := []]; }
      if TASK_HISTORY !in store { store := store[TASK_HISTORY := []]; }
      SaveWebStoreToLocalStorage();
    }

    method HandleWebSelect(statement: string, values: seq<Value>) returns (r: QueryResult)
      requires HasTables(store)
      ensures r == Rows(Select(store, parseDate, statement, values))
    {
      if IsJoin(statement) && Contains(statement, "WHERE t.id = ?") && |values| > 0 {
        var task := FindById(store[TASKS], values[0]);
        if task.None? {
          return Rows([]);
        }
        return Rows([Joined(store[CUSTOMERS], task.value)]);
      }
      if IsJoin(statement) {
        var joined := JoinedAll(store[CUSTOMERS], store[TASKS]);
        if Contains(statement, "ORDER BY t.startDate") {
          joined := Seqs.SortBy(StartDateOrder(parseDate), joined);
        }
        return Rows(joined);
      }
      var table := TableNamed(statement, "FROM ");
      if table.Some? {
        var t := table.value;
        if FiltersById(statement, values) {
          var id := values[0];
          return Rows(Seqs.Filter(CarriesId(id), store[t]));
        }
        return Rows(store[t]);
      }
      return Rows([]);
    }

    method HandleWebInsert(statement: string, values: seq<Value>) returns (r: QueryResult)
      requires HasTables(store)
      modifies this`store
      ensures (store, r) == Insert(old(store), statement, values)
    {
      var table := TableNamed(statement, "INTO ");
      if table.Some? {
        var t := table.value;
        var newId := NewId(store[t]);
        var newRecord := Row(newId, NewFields(t, values));
        store := store[t := store[t] + [newRecord]];
        return LastId(Some(newId));
      }
      return LastId(None);
    }

    method HandleWebUpdate(statement: string, values: seq<Value>) returns (r: QueryResult)
      requires HasTables(store)
      modifies this`store
      ensures (store, r) == Update(old(store), statement, values)
    {
      var table := TableNamed(statement, "UPDATE ");
      if table.Some? {
        var t := table.value;
        var id := UpdateTarget(values);
        var index := FindIndex(store[t], id);
        if index.Some? {
          var i := index.value;
          var current := store[t][i];
          if t == CUSTOMERS || t == TASKS {
            store := store[t := store[t][i := Row(current.id, UpdatedFields(t, current.fields, values))]];
          } else {
            assert Row(current.id, UpdatedFields(t, current.fields, values)) == current;
            assert store[t][i := current] == store[t];
            assert store[t := store[t]] == store;
          }
          return Changes(1);
        }
      }
      return Changes(0);
    }

    method HandleWebDelete(statement: string, values: seq<Value>) returns (r: QueryResult)
      requires HasTables(store)
      modifies this`store
      ensures (store, r) == Delete(old(store), statement, values)
    {
      var table := TableNamed(statement, "FROM ");
      if table.Some? && |values| > 0 {
        var t := table.value;
        var id := values[0];
        var initialLength := |store[t]|;
        store := store[t := Seqs.Filter(LacksId(id), store[t])];
        var removed := initialLength - |store[t]|;
        return Changes(removed);
      }
      return Changes(0);
    }

    /** `executeWebQuery`: dispatch on the trimmed, upper-cased statement's
        leading keyword, saving after every insert, update and delete. */
    method ExecuteWebQuery(statement: string, values: Option<seq<Value>>) returns (r: QueryResult)
      requires Valid()
      modifies this
      ensures Valid()
      ensures (store, r) == Execute(old(store), parseDate, statement, values.GetOr([]))
    {
      var vs := values.GetOr([]);
      var kind := KindOf(statement);
      if kind == SelectStatement {
        r := HandleWebSelect(statement, vs);
      } else if kind == InsertStatement {
        r := HandleWebInsert(statement, vs);
        SaveWebStoreToLocalStorage();
      } else if kind == UpdateStatement {
        r := HandleWebUpdate(statement, vs);
        SaveWebStoreToLocalStorage();
      } else if kind == DeleteStatement {
        r := HandleWebDelete(statement, vs);
        SaveWebStoreToLocalStorage();
      } else {
        r := Rows([]);
      }
    }

    /** The web branch of `executeSet`: runs the items in order and collects
        one result per item. */
    method ExecuteSet(items: seq<SetItem>) returns (results: seq<QueryResult>)
      requires Valid()
      modifies this
      ensures Valid()
      ensures (store, results) == RunSet(old(store), parseDate, items)
    {
      results := [];
      var i := 0;
      while i < |items|
        invariant 0 <= i <= |items|
        invariant Valid()
        invariant store == RunSet(old(store), parseDate, items[..i]).0
        invariant results == RunSet(old(store), parseDate, items[..i]).1
      {
        var item := items[i];
        ghost var before := store;
        var r: QueryResult;
        if item.statement.Some? && item.statement.value != "" {
          r := ExecuteWebQuery(item.statement.value, item.values);
        } else {
          r := Rows([]);
        }
        assert (store, r) == RunItem(before, parseDate, item);
        RunSetStep(old(store), parseDate, items, i);
        results := results + [r];
        i := i + 1;
      }
      assert items[..|items|] == items;
      SaveWebStoreToLocalStorage();
    }
  }
}
