/**
 * The database behind the app (`ToDoDbHelper.kt`): the declaration of the one
 * table `ToDo`, the rules that table imposes on an inserted row, and the
 * table's state with `onCreate` and `onUpgrade`.
 *
 * The table is abstracted to a map from row id to the five other columns, plus
 * the AUTOINCREMENT counter (SQLite keeps it in `sqlite_sequence`): a new row
 * gets the counter plus one, so an id is never handed out twice while the table
 * lives, even after its row was deleted.
 */
module DbHelper {
  import opened Wrappers
  import opened KotlinText

  /** The largest rowid SQLite hands out (a signed 64-bit integer). */
  const MaxRowId: int := 0x7FFF_FFFF_FFFF_FFFF

  datatype SqlType = Integer | Text

  /** A value in one column of a row; `Null` is SQL NULL. */
  datatype Value = Null | IntValue(i: int) | TextValue(s: string)

  /** A column declaration: name, type, key, NOT NULL and DEFAULT. */
  datatype Column = Column(name: string, sqlType: SqlType, autoIncrementKey: bool, notNull: bool, default: Value)

  /** The columns `onCreate` declares, in declaration order. */
  const ToDoTable: seq<Column> := [
    Column("id", Integer, true, false, Null),
    Column("name", Text, false, true, Null),
    Column("priority", Integer, false, true, Null),
    Column("deadline", Text, false, true, Null),
    Column("description", Text, false, false, Null),
    Column("status", Integer, false, true, IntValue(0))
  ]

  /** The columns a caller supplies values for; the id is the store's to assign. */
  const DataColumns: seq<Column> := ToDoTable[1..]

  function Names(columns: seq<Column>): (names: seq<string>)
    ensures |names| == |columns|
    ensures forall i | 0 <= i < |columns| :: names[i] == columns[i].name
  {
    if columns == [] then [] else [columns[0].name] + Names(columns[1..])
  }

  /** Column values given to an insert, by column name (Android's `ContentValues`). */
  type Values = map<string, Value>

  /** What an insert stores in column `c`: the supplied value, else the column's default. */
  function Stored(c: Column, supplied: Values): Value {
    if c.name in supplied then supplied[c.name] else c.default
  }

  /**
   * The values an insert stores in `columns`, in declaration order: one per
   * column, the supplied value where there is one and the column's default
   * elsewhere.
   */
  function Fill(columns: seq<Column>, supplied: Values): seq<Value>
  {
    seq(|columns|, i requires 0 <= i < |columns| => Stored(columns[i], supplied))
  }

  /** Whether every NOT NULL column among `columns` receives a value other than NULL. */
  predicate NotNullsMet(columns: seq<Column>, supplied: Values) {
    forall i | 0 <= i < |columns| :: columns[i].notNull ==> Stored(columns[i], supplied) != Null
  }

  /**
   * The five data columns an insert of `supplied` stores, or None when SQLite
   * refuses it: a value for a column the table does not have, or NULL (given
   * or by default) in a NOT NULL column. No other check is made: empty text is
   * a value like any other. A value for `id` is a column the table has and is
   * not refused here; which id the row then gets is not part of this model.
   */
  function CheckInsert(supplied: Values): (r: Option<seq<Value>>)
  {
    if exists k | k in supplied :: k !in Names(ToDoTable) then None
    else if !NotNullsMet(DataColumns, supplied) then None
    else Some(Fill(DataColumns, supplied))
  }

  /** `onCreate` declares exactly the six columns, and only `id` is the autoincrementing key. */
  lemma TableShape()
    ensures Names(ToDoTable) == ["id", "name", "priority", "deadline", "description", "status"]
    ensures forall i | 0 <= i < |ToDoTable| :: ToDoTable[i].autoIncrementKey <==> i == 0
  {
  }

  /** name, priority, deadline and status can never be NULL in an accepted row. */
  lemma {:induction false} NotNullColumnsRequired(supplied: Values)
    requires CheckInsert(supplied).Some?
    ensures "name" in supplied && supplied["name"] != Null
    ensures "priority" in supplied && supplied["priority"] != Null
    ensures "deadline" in supplied && supplied["deadline"] != Null
    ensures "status" in supplied ==> supplied["status"] != Null
  {
    assert DataColumns[0].name == "name" && DataColumns[1].name == "priority";
    assert DataColumns[2].name == "deadline" && DataColumns[4].name == "status";
    assert DataColumns[0] in DataColumns && DataColumns[1] in DataColumns;
    assert DataColumns[2] in DataColumns && DataColumns[4] in DataColumns;
  }

  /** A row without a status gets status 0. */
  lemma {:induction false} StatusDefaultsToZero(supplied: Values)
    requires "status" !in supplied
    requires CheckInsert(supplied).Some?
    ensures DataColumns[4].name == "status" && CheckInsert(supplied).value[4] == IntValue(0)
  {
    DataColumnsSpelledOut();
  }

  /** The data columns, spelled out. */
  lemma DataColumnsSpelledOut()
    ensures DataColumns == [
      Column("name", Text, false, true, Null),
      Column("priority", Integer, false, true, Null),
      Column("deadline", Text, false, true, Null),
      Column("description", Text, false, false, Null),
      Column("status", Integer, false, true, IntValue(0))]
    ensures Names(DataColumns) == ["name", "priority", "deadline", "description", "status"]
  {
  }

  /** The values of a row that gives only name, priority and deadline, all as empty as they can be. */
  function MinimalValues(priority: Int32): Values {
    map["name" := TextValue(""), "priority" := IntValue(priority), "deadline" := TextValue("")]
  }

  lemma MinimalValuesKnownColumns(priority: Int32)
    ensures forall k | k in MinimalValues(priority) :: k in Names(ToDoTable)
  {
    TableShape();
  }

  lemma MinimalValuesFill(priority: Int32)
    ensures NotNullsMet(DataColumns, MinimalValues(priority))
    ensures Fill(DataColumns, MinimalValues(priority)) == [TextValue(""), IntValue(priority), TextValue(""), Null, IntValue(0)]
  {
    DataColumnsSpelledOut();
    assert "description" !in MinimalValues(priority) && "status" !in MinimalValues(priority);
  }

  /**
   * Empty text is accepted in every text column, and a row may leave out the
   * description (stored as NULL) and the status (stored as 0).
   */
  lemma MinimalRowAccepted(priority: Int32)
    ensures CheckInsert(map["name" := TextValue(""), "priority" := IntValue(priority), "deadline" := TextValue("")])
      == Some([TextValue(""), IntValue(priority), TextValue(""), Null, IntValue(0)])
  {
    MinimalValuesKnownColumns(priority);
    MinimalValuesFill(priority);
  }

  /** The five columns of a stored row besides its id. */
  datatype Row = Row(name: string, description: string, priority: Int32, deadline: string, status: Int32)

  /** The values that write all five columns of `r`. */
  function RowValues(r: Row): Values {
    map["name" := TextValue(r.name), "description" := TextValue(r.description),
        "priority" := IntValue(r.priority), "deadline" := TextValue(r.deadline),
        "status" := IntValue(r.status)]
  }

  /** The columns of `r` in declaration order. */
  function RowColumns(r: Row): seq<Value> {
    [TextValue(r.name), IntValue(r.priority), TextValue(r.deadline), TextValue(r.description), IntValue(r.status)]
  }

  lemma RowValuesKnownColumns(r: Row)
    ensures forall k | k in RowValues(r) :: k in Names(ToDoTable)
  {
    TableShape();
  }

  lemma RowValuesNotNull(r: Row)
    ensures NotNullsMet(DataColumns, RowValues(r))
  {
    DataColumnsSpelledOut();
  }

  lemma RowValuesFill(r: Row)
    ensures Fill(DataColumns, RowValues(r)) == RowColumns(r)
  {
    DataColumnsSpelledOut();
  }

  /** Any row whose five columns are all given is accepted and stored as given. */
  lemma FullRowAccepted(r: Row)
    ensures CheckInsert(RowValues(r)) == Some(RowColumns(r))
  {
    RowValuesKnownColumns(r);
    RowValuesNotNull(r);
    RowValuesFill(r);
  }

  /** A value for a key no column of `columns` is named after changes nothing that is stored there. */
  lemma OtherKeyIgnored(columns: seq<Column>, supplied: Values, k: string, v: Value)
    requires forall i | 0 <= i < |columns| :: columns[i].name != k
    ensures Fill(columns, supplied[k := v]) == Fill(columns, supplied)
    ensures NotNullsMet(columns, supplied[k := v]) == NotNullsMet(columns, supplied)
  {
    var a, b := Fill(columns, supplied[k := v]), Fill(columns, supplied);
    forall i | 0 <= i < |columns| ensures a[i] == b[i] {
      assert Stored(columns[i], supplied[k := v]) == Stored(columns[i], supplied);
    }
  }

  lemma RowValuesWithIdKnownColumns(r: Row, id: int)
    ensures forall k | k in RowValues(r)["id" := IntValue(id)] :: k in Names(ToDoTable)
  {
    TableShape();
  }

  /**
   * An insert that also supplies an integer id is not refused by the table's
   * column rules, and stores the same five data columns.
   */
  lemma ExplicitIdNotRefused(r: Row, id: int)
    ensures CheckInsert(RowValues(r)["id" := IntValue(id)]) == Some(RowColumns(r))
  {
    RowValuesWithIdKnownColumns(r, id);
    DataColumnsSpelledOut();
    OtherKeyIgnored(DataColumns, RowValues(r), "id", IntValue(id));
    RowValuesNotNull(r);
    RowValuesFill(r);
  }

  /** A value for a column the table does not have makes the insert fail. */
  lemma UnknownColumnRefused(supplied: Values, k: string)
    requires k in supplied && k !in ["id", "name", "priority", "deadline", "description", "status"]
    ensures CheckInsert(supplied) == None
  {
    TableShape();
  }

  /**
   * The database file. `rows` and `sequence` are the table and its AUTOINCREMENT
   * counter; `issued` is every id handed out since the table was created;
   * `writeHandleOpen` says whether a writable handle is currently open.
   */
  class Database {
    var tableExists: bool
    var rows: map<int, Row>
    var sequence: int
    ghost var issued: set<int>
    var writeHandleOpen: bool

    ghost predicate Valid()
      reads this
    {
      && 0 <= sequence <= MaxRowId
      && rows.Keys <= issued
      && (forall id | id in issued :: 1 <= id <= sequence)
      && (!tableExists ==> rows == map[] && sequence == 0 && issued == {})
    }

    /** A new database file, before `onCreate` has run. */
    constructor ()
      ensures Valid() && !tableExists && !writeHandleOpen
    {
      tableExists := false;
      rows := map[];
      sequence := 0;
      issued := {};
      writeHandleOpen := false;
    }

    /** `onCreate`: the framework runs it on a database file that has no table yet. */
    method OnCreate()
      requires Valid() && !tableExists
      modifies this
      ensures Valid() && tableExists
      ensures rows == map[] && sequence == 0 && issued == {}
      ensures writeHandleOpen == old(writeHandleOpen)
    {
      tableExists := true;
    }

    /**
     * `insert("ToDo", null, values)` with all five columns given: the new row's
     * id, or -1 when the write fails. `ioFailure` stands for a failure of the
     * storage itself; the table's own rules never refuse such a row.
     */
    method Insert(row: Row, ioFailure: bool) returns (rowId: int)
      requires Valid() && tableExists && writeHandleOpen
      modifies this
      ensures Valid() && tableExists && writeHandleOpen == old(writeHandleOpen)
      ensures rowId == if ioFailure || old(sequence) == MaxRowId then -1 else old(sequence) + 1
      ensures rowId != -1 ==> sequence == rowId && rows == old(rows)[rowId := row] && issued == old(issued) + {rowId}
      ensures rowId == -1 ==> rows == old(rows) && sequence == old(sequence) && issued == old(issued)
    {
      var admitted := CheckInsert(RowValues(row));
      FullRowAccepted(row);
      if ioFailure || admitted.None? || sequence == MaxRowId {
        rowId := -1;
      } else {
        rowId := sequence + 1;
        sequence := rowId;
        rows := rows[rowId := row];
        issued := issued + {rowId};
      }
    }

    /**
     * `update("ToDo", values, "id = ?", [id])` with all five columns given:
     * the number of rows matched, 1 or 0. The matched row's five columns are
     * replaced; its id and every other row stay as they were.
     */
    method Update(id: int, row: Row) returns (matched: int)
      requires Valid() && tableExists && writeHandleOpen
      modifies this
      ensures Valid() && tableExists && writeHandleOpen
      ensures matched == if id in old(rows) then 1 else 0
      ensures rows == if id in old(rows) then old(rows)[id := row] else old(rows)
      ensures sequence == old(sequence) && issued == old(issued)
    {
      matched := if id in rows then 1 else 0;
      if matched > 0 {
        rows := rows[id := row];
      }
    }

    /**
     * `delete("ToDo", "id = ?", [id])`: the number of rows removed, 1 or 0.
     * The counter keeps its value, so the id is not handed out again.
     */
    method Delete(id: int) returns (removed: int)
      requires Valid() && tableExists && writeHandleOpen
      modifies this
      ensures Valid() && tableExists && writeHandleOpen
      ensures removed == if id in old(rows) then 1 else 0
      ensures rows == old(rows) - {id}
      ensures sequence == old(sequence) && issued == old(issued)
    {
      removed := if id in rows then 1 else 0;
      rows := rows - {id};
    }

    /** `DROP TABLE IF EXISTS ToDo`: the rows go, and so does the table's counter. */
    method DropTableIfExists()
      requires Valid()
      modifies this
      ensures Valid() && !tableExists
      ensures writeHandleOpen == old(writeHandleOpen)
    {
      tableExists := false;
      rows := map[];
      sequence := 0;
      issued := {};
    }

    /**
     * `onUpgrade`: drops the table and creates it again, whatever the two
     * versions. All rows are lost and ids start again from 1.
     */
    method OnUpgrade(oldVersion: int, newVersion: int)
      requires Valid()
      modifies this
      ensures Valid() && tableExists
      ensures rows == map[] && sequence == 0 && issued == {}
      ensures writeHandleOpen == old(writeHandleOpen)
    {
      DropTableIfExists();
      OnCreate();
    }
  }
}
