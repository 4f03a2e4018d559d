/** The task-type service: the `task_types` table of the device database and
    the list of task types it keeps cached, sorted by name, and refreshes
    after every change. */
module TaskTypeService {
  import opened Wrappers
  import opened Text
  import Seqs

  /** A value bound to a statement parameter or stored in a column: the
      database keeps whatever it is given, and a missing value is NULL. */
  datatype SqlValue = SqlNull | SqlInt(i: int) | SqlText(s: string)

  /** The five columns besides the id. */
  datatype Columns = Columns(name: SqlValue, description: SqlValue, isDefault: SqlValue, icon: SqlValue, color: SqlValue)

  datatype TaskTypeRow = TaskTypeRow(id: int, columns: Columns)

  /** The argument of `addTaskType`: every field is present. */
  datatype NewTaskType = NewTaskType(name: string, description: string, isDefault: int, icon: string, color: string)

  /** The argument of `updateTaskType`: any field may be missing. */
  datatype TaskTypePatch = TaskTypePatch(name: Option<string>, description: Option<string>, isDefault: Option<int>,
                                         icon: Option<string>, color: Option<string>)

  const SELECT_ALL := "SELECT * FROM task_types ORDER BY name"
  const INSERT := "INSERT INTO task_types (name, description, isDefault, icon, color) VALUES (?, ?, ?, ?, ?)"
  const UPDATE := "UPDATE task_types SET name = ?, description = ?, isDefault = ?, icon = ?, color = ? WHERE id = ?"
  const SELECT_IS_DEFAULT := "SELECT isDefault FROM task_types WHERE id = ?"
  const DELETE := "DELETE FROM task_types WHERE id = ?"
  const DEFAULT_TYPE_ERROR := "Cannot delete a default task type"

  function TextParam(s: Option<string>): SqlValue {
    if s.Some? then SqlText(s.value) else SqlNull
  }

  function IntParam(n: Option<int>): SqlValue {
    if n.Some? then SqlInt(n.value) else SqlNull
  }

  /** The values `addTaskType` binds, in the order it lists them. */
  function InsertParams(t: NewTaskType): (ps: seq<SqlValue>)
    ensures |ps| == 5
  {
    [SqlText(t.name), SqlText(t.description), SqlInt(t.isDefault), SqlText(t.icon), SqlText(t.color)]
  }

  /** The values `updateTaskType` binds: the five fields, then the id. */
  function UpdateParams(id: int, patch: TaskTypePatch): (ps: seq<SqlValue>)
    ensures |ps| == 6 && ps[5] == SqlInt(id)
  {
    [TextParam(patch.name), TextParam(patch.description), IntParam(patch.isDefault),
     TextParam(patch.icon), TextParam(patch.color), SqlInt(id)]
  }

  /** How both statements read their first five parameters: into the
      columns name, description, isDefault, icon and color, in that order. */
  function ColumnsFromParams(ps: seq<SqlValue>): Columns
    requires |ps| >= 5
  {
    Columns(ps[0], ps[1], ps[2], ps[3], ps[4])
  }

  /** The row `addTaskType` asks for holds each field in its own column. */
  lemma InsertParamsFillColumns(t: NewTaskType)
    ensures var c := ColumnsFromParams(InsertParams(t));
            && c.name == SqlText(t.name) && c.description == SqlText(t.description)
            && c.isDefault == SqlInt(t.isDefault) && c.icon == SqlText(t.icon) && c.color == SqlText(t.color)
  {
  }

  /** `updateTaskType` writes all five columns of the row with that id; a
      field missing from the patch is written as NULL. */
  lemma UpdateParamsFillColumns(id: int, patch: TaskTypePatch)
    ensures var c := ColumnsFromParams(UpdateParams(id, patch));
            && c.name == TextParam(patch.name) && c.description == TextParam(patch.description)
            && c.isDefault == IntParam(patch.isDefault) && c.icon == TextParam(patch.icon)
            && c.color == TextParam(patch.color)
            && (patch.name.None? ==> c.name == SqlNull)
  {
  }

  // ---------------------------------------------------------------------
  // Ordering by name

  function Rank(v: SqlValue): nat {
    match v
    case SqlNull => 0
    case SqlInt(_) => 1
    case SqlText(_) => 2
  }

  /** The database's `ORDER BY` on one column: NULL first, then numbers in
      numeric order, then text in code-unit order. */
  predicate SqlLess(a: SqlValue, b: SqlValue) {
    Rank(a) < Rank(b)
    || (a.SqlInt? && b.SqlInt? && a.i < b.i)
    || (a.SqlText? && b.SqlText? && LexLess(a.s, b.s))
  }

  lemma SqlLessStrictWeakOrder(a: SqlValue, b: SqlValue, c: SqlValue)
    ensures !(SqlLess(a, b) && SqlLess(b, a))
    ensures SqlLess(a, c) ==> SqlLess(a, b) || SqlLess(b, c)
  {
    if a.SqlText? && b.SqlText? {
      LexLessAsymmetric(a.s, b.s);
    }
    if a.SqlText? && b.SqlText? && c.SqlText? && LexLess(a.s, c.s) && !LexLess(a.s, b.s) {
      LexLessTrichotomy(a.s, b.s);
      if a.s != b.s {
        LexLessTransitive(b.s, a.s, c.s);
      }
    }
  }

  /** Rows in name order. */
  predicate ByName(a: TaskTypeRow, b: TaskTypeRow) {
    !SqlLess(b.columns.name, a.columns.name)
  }

  lemma ByNameTotalPreorder()
    ensures Seqs.TotalPreorder(ByName)
  {
    forall a: TaskTypeRow, b: TaskTypeRow ensures ByName(a, b) || ByName(b, a) {
      SqlLessStrictWeakOrder(a.columns.name, b.columns.name, a.columns.name);
    }
    forall a: TaskTypeRow, b: TaskTypeRow, c: TaskTypeRow | ByName(a, b) && ByName(b, c) ensures ByName(a, c) {
      SqlLessStrictWeakOrder(c.columns.name, b.columns.name, a.columns.name);
    }
  }

  /** `SELECT * FROM task_types ORDER BY name`. */
  function SortedByName(rows: seq<TaskTypeRow>): seq<TaskTypeRow> {
    Seqs.SortBy(ByName, rows)
  }

  /** The cached list holds every row of the table, each as often as
      there, in name order. */
  lemma SortedByNameSpec(rows: seq<TaskTypeRow>)
    ensures multiset(SortedByName(rows)) == multiset(rows)
    ensures forall i, j :: 0 <= i < j < |SortedByName(rows)| ==>
              !SqlLess(SortedByName(rows)[j].columns.name, SortedByName(rows)[i].columns.name)
  {
    ByNameTotalPreorder();
    Seqs.SortBySorted(ByName, rows);
  }

  // ---------------------------------------------------------------------
  // The table

  predicate UniqueIds(rows: seq<TaskTypeRow>) {
    forall i, j :: 0 <= i < j < |rows| ==> rows[i].id != rows[j].id
  }

  function MaxTypeId(rows: seq<TaskTypeRow>): (m: int)
    ensures m >= 0
    ensures forall i :: 0 <= i < |rows| ==> rows[i].id <= m
  {
    if rows == [] then 0
    else
      var rest := MaxTypeId(rows[1..]);
      assert forall i :: 1 <= i < |rows| ==> rows[i] == rows[1..][i - 1];
      if rows[0].id > rest then rows[0].id else rest
  }

  /** The row id the database gives the next insert: one more than the
      largest id, so it is used by no row. */
  function NextTypeId(rows: seq<TaskTypeRow>): (id: int)
    ensures id >= 1
    ensures forall i :: 0 <= i < |rows| ==> rows[i].id < id
  {
    MaxTypeId(rows) + 1
  }

  /** `UPDATE … WHERE id = ?` on one row. */
  function UpdateRow(row: TaskTypeRow, ps: seq<SqlValue>): (r: TaskTypeRow)
    requires |ps| == 6
    ensures r.id == row.id
    ensures ps[5] != SqlInt(row.id) ==> r == row
    ensures ps[5] == SqlInt(row.id) ==> r.columns == ColumnsFromParams(ps)
  {
    if ps[5] == SqlInt(row.id) then TaskTypeRow(row.id, ColumnsFromParams(ps)) else row
  }

  function UpdateRows(rows: seq<TaskTypeRow>, ps: seq<SqlValue>): (r: seq<TaskTypeRow>)
    requires |ps| == 6
    ensures |r| == |rows| && forall i :: 0 <= i < |r| ==> r[i] == UpdateRow(rows[i], ps)
  {
    seq(|rows|, i requires 0 <= i < |rows| => UpdateRow(rows[i], ps))
  }

  predicate IdIsNot(id: int, row: TaskTypeRow) {
    row.id != id
  }

  /** `DELETE FROM task_types WHERE id = ?`: no row with that id is left and
      every other row is still there. */
  function WithoutId(rows: seq<TaskTypeRow>, id: int): (r: seq<TaskTypeRow>)
    ensures forall i :: 0 <= i < |r| ==> r[i].id != id && r[i] in rows
    ensures forall i :: 0 <= i < |rows| && rows[i].id != id ==> rows[i] in r
  {
    Seqs.Filter(row => IdIsNot(id, row), rows)
  }

  /** Deleting keeps ids distinct. */
  lemma {:induction false} WithoutIdKeepsUniqueIds(rows: seq<TaskTypeRow>, id: int)
    requires UniqueIds(rows)
    ensures UniqueIds(WithoutId(rows, id))
    decreases |rows|
  {
    if |rows| > 0 {
      WithoutIdKeepsUniqueIds(rows[1..], id);
      var rest := WithoutId(rows[1..], id);
      assert WithoutId(rows, id) == (if rows[0].id != id then [rows[0]] else []) + rest;
      forall k | 0 <= k < |rest| ensures rest[k].id != rows[0].id {
        assert rest[k] in rows[1..];
      }
    }
  }

  /** The position of the first row with that id. */
  function FindType(rows: seq<TaskTypeRow>, id: int): (r: Option<nat>)
    ensures r.Some? ==> r.value < |rows| && rows[r.value].id == id
    ensures r.Some? ==> forall j :: 0 <= j < r.value ==> rows[j].id != id
    ensures r.None? ==> forall j :: 0 <= j < |rows| ==> rows[j].id != id
  {
    if rows == [] then None
    else if rows[0].id == id then Some(0)
    else match FindType(rows[1..], id)
      case None => None
      case Some(i) => Some(i + 1)
  }

  /** `SELECT isDefault FROM task_types WHERE id = ?`: the first row's
      value, if any row has that id. */
  function FirstIsDefault(rows: seq<TaskTypeRow>, id: int): Option<SqlValue> {
    match FindType(rows, id)
    case None => None
    case Some(i) => Some(rows[i].columns.isDefault)
  }

  /** A type is protected when the first row with its id is marked
      `isDefault = 1`; a missing row or any other value is not. */
  predicate IsProtected(rows: seq<TaskTypeRow>, id: int) {
    var r := FirstIsDefault(rows, id);
    r.Some? && r.value == SqlInt(1)
  }

  /** With distinct ids, a type is protected exactly when its row says
      `isDefault = 1`, and a missing type never is. */
  lemma ProtectedIffDefaultRow(rows: seq<TaskTypeRow>, id: int)
    requires UniqueIds(rows)
    ensures IsProtected(rows, id) <==> exists i :: 0 <= i < |rows| && rows[i].id == id && rows[i].columns.isDefault == SqlInt(1)
    ensures (forall i :: 0 <= i < |rows| ==> rows[i].id != id) ==> !IsProtected(rows, id)
  {
    if exists i :: 0 <= i < |rows| && rows[i].id == id && rows[i].columns.isDefault == SqlInt(1) {
      var i :| 0 <= i < |rows| && rows[i].id == id && rows[i].columns.isDefault == SqlInt(1);
      var k := FindType(rows, id).value;
      assert k == i;
    }
  }

  /** A type just added is found under the id it got, and it can be
      deleted exactly when it was not added as a default type. */
  lemma AddedTypeProtection(rows: seq<TaskTypeRow>, t: NewTaskType)
    ensures var id := NextTypeId(rows);
            var after := rows + [TaskTypeRow(id, ColumnsFromParams(InsertParams(t)))];
            && FindType(after, id) == Some(|rows|)
            && (IsProtected(after, id) <==> t.isDefault == 1)
  {
    var id := NextTypeId(rows);
    var after := rows + [TaskTypeRow(id, ColumnsFromParams(InsertParams(t)))];
    var k := FindType(after, id);
    assert after[|rows|].id == id;
    assert k.Some?;
  }

  /** After an update of an existing type, the first row with its id holds
      the patch's fields, missing ones as NULL. */
  lemma UpdatedTypeReadsBack(rows: seq<TaskTypeRow>, id: int, patch: TaskTypePatch)
    requires exists i :: 0 <= i < |rows| && rows[i].id == id
    ensures var after := UpdateRows(rows, UpdateParams(id, patch));
            && FindType(after, id).Some?
            && after[FindType(after, id).value].columns
               == Columns(TextParam(patch.name), TextParam(patch.description), IntParam(patch.isDefault),
                          TextParam(patch.icon), TextParam(patch.color))
  {
    var after := UpdateRows(rows, UpdateParams(id, patch));
    var i :| 0 <= i < |rows| && rows[i].id == id;
    assert after[i].id == id;
    UpdateParamsFillColumns(id, patch);
  }

  class TaskTypeServiceState {
    /** The `task_types` table and the list the subject last published. */
    var rows: seq<TaskTypeRow>
    var taskTypes: seq<TaskTypeRow>

    /** Ids are distinct and the published list is the sorted table. */
    ghost predicate Valid()
      reads this
    {
      UniqueIds(rows) && taskTypes == SortedByName(rows)
    }

    /** The service loads the list as soon as it is created. */
    constructor (rows: seq<TaskTypeRow>)
      requires UniqueIds(rows)
      ensures Valid() && this.rows == rows
    {
      this.rows := rows;
      taskTypes := SortedByName(rows);
    }

    /** `loadTaskTypes` */
    method LoadTaskTypes()
      modifies this`taskTypes
      ensures taskTypes == SortedByName(rows)
    {
      taskTypes := SortedByName(rows);
    }

    /** `getTaskTypes`: refreshes the list and hands it out. */
    method GetTaskTypes() returns (r: seq<TaskTypeRow>)
      modifies this`taskTypes
      ensures r == taskTypes == SortedByName(rows)
    {
      LoadTaskTypes();
      r := taskTypes;
    }

    /** `addTaskType`: inserts the row and returns the id it got; the table
        gains exactly that row, holding the fields in their columns. */
    method AddTaskType(t: NewTaskType) returns (lastId: int)
      requires Valid()
      modifies this
      ensures Valid()
      ensures rows == old(rows) + [TaskTypeRow(lastId, ColumnsFromParams(InsertParams(t)))]
      ensures forall i :: 0 <= i < |old(rows)| ==> old(rows)[i].id != lastId
    {
      var ps := InsertParams(t);
      lastId := NextTypeId(rows);
      rows := rows + [TaskTypeRow(lastId, ColumnsFromParams(ps))];
      LoadTaskTypes();
    }

    /** `updateTaskType`: rewrites the five columns of the row with that id
        and refreshes the list. */
    method UpdateTaskType(id: int, patch: TaskTypePatch)
      requires Valid()
      modifies this
      ensures Valid()
      ensures rows == UpdateRows(old(rows), UpdateParams(id, patch))
    {
      rows := UpdateRows(rows, UpdateParams(id, patch));
      LoadTaskTypes();
    }

    /** `deleteTaskType`: refuses a default type and changes nothing;
        otherwise deletes the rows with that id and refreshes the list. */
    method DeleteTaskType(id: int) returns (r: Result<(), string>)
      requires Valid()
      modifies this
      ensures Valid()
      ensures IsProtected(old(rows), id) ==> r == Failure(DEFAULT_TYPE_ERROR) && rows == old(rows) && taskTypes == old(taskTypes)
      ensures !IsProtected(old(rows), id) ==> r.Success? && rows == WithoutId(old(rows), id)
    {
      var result := FirstIsDefault(rows, id);
      if result.Some? && result.value == SqlInt(1) {
        return Failure(DEFAULT_TYPE_ERROR);
      }
      WithoutIdKeepsUniqueIds(rows, id);
      rows := WithoutId(rows, id);
      LoadTaskTypes();
      r := Success(());
    }
  }
}
