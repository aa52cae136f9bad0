/**
 * `ToDoController.kt`: insert, list, update and delete over the `ToDo` table.
 * Every write opens a writable handle, runs one statement and closes the
 * handle again on every path out.
 */
module Controller {
  import opened KotlinText
  import opened ToDoRecord
  import opened DbHelper

  /** The five columns insert and update write; the record's id is not one of them. */
  function RowOf(t: ToDo): Row {
    Row(t.name, t.description, t.priority, t.deadline, t.status)
  }

  /** The record the list builds from one row: all six columns copied. */
  function RecordOf(id: int, r: Row): ToDo {
    ToDo(id, r.name, r.description, r.priority, r.deadline, r.status)
  }

  /**
   * Writing a record and reading it back under its own id gives the record;
   * reading a row and writing it gives the row. What the table stores for a
   * record never depends on the record's id.
   */
  lemma RowRecordRoundTrip(t: ToDo, id: int, r: Row)
    ensures RecordOf(t.id, RowOf(t)) == t
    ensures RecordOf(id, r).id == id && RowOf(RecordOf(id, r)) == r
    ensures RowOf(t.(id := id)) == RowOf(t)
    ensures RecordOf(id, RowOf(t)) == t.(id := id)
  {
  }

  /** A non-empty set of ids has an element. */
  lemma HasElement(ids: set<int>)
    requires ids != {}
    ensures exists k :: k in ids
  {
    assert (forall k :: k !in ids) ==> ids == {};
  }

  /** No two records in the list share an id. */
  predicate DistinctIds(todos: seq<ToDo>) {
    forall i, j | 0 <= i < j < |todos| :: todos[i].id != todos[j].id
  }

  /** The records stored in `rows`, one per row. */
  function RecordsOf(rows: map<int, Row>): set<ToDo> {
    set id | id in rows :: RecordOf(id, rows[id])
  }

  /** A stored record is the row under its own id. */
  lemma InRecords(rows: map<int, Row>, t: ToDo)
    ensures t in RecordsOf(rows) <==> t.id in rows && rows[t.id] == RowOf(t)
  {
    if t.id in rows && rows[t.id] == RowOf(t) {
      assert RecordOf(t.id, rows[t.id]) == t;
    }
  }

  class ToDoController {
    const db: Database

    constructor (db: Database)
      ensures this.db == db
    {
      this.db := db;
    }

    ghost predicate Valid()
      reads this, db
    {
      db.Valid() && db.tableExists
    }

    /** Every stored record. */
    function Records(): set<ToDo>
      reads this, db
    {
      RecordsOf(db.rows)
    }

    /**
     * `insertToDo`: stores the record's five columns under a fresh id. The
     * caller's id is ignored. `ioFailure` stands for a write the backend
     * reports as failed (`insert` returning -1).
     */
    method InsertToDo(toDo: ToDo, ioFailure: bool) returns (ok: bool)
      requires Valid()
      modifies db
      ensures Valid() && !db.writeHandleOpen
      ensures ok == (!ioFailure && old(db.sequence) < MaxRowId)
      ensures ok ==> db.sequence == old(db.sequence) + 1
      ensures ok ==> db.rows == old(db.rows)[db.sequence := RowOf(toDo)]
      ensures ok ==> db.issued == old(db.issued) + {db.sequence}
      ensures ok ==> forall id | id in old(db.issued) :: id < db.sequence
      ensures ok ==> toDo.(id := db.sequence) in Records()
      ensures !ok ==> db.rows == old(db.rows) && db.sequence == old(db.sequence) && db.issued == old(db.issued)
    {
      db.writeHandleOpen := true;
      var result := db.Insert(RowOf(toDo), ioFailure);
      ok := result != -1;
      db.writeHandleOpen := false;
      if ok {
        InRecords(db.rows, toDo.(id := db.sequence));
      }
    }

    /**
     * `getAllToDos`: one record per stored row, in whatever order the table
     * yields them, and the empty list for an empty table.
     */
    method GetAllToDos() returns (todos: seq<ToDo>)
      requires Valid()
      ensures |todos| == |db.rows|
      ensures forall t | t in todos :: t in Records()
      ensures forall t | t in Records() :: t in todos
      ensures DistinctIds(todos)
    {
      todos := [];
      var remaining := db.rows.Keys;
      while remaining != {}
        invariant remaining <= db.rows.Keys
        invariant |todos| + |remaining| == |db.rows.Keys|
        invariant forall t | t in todos :: t.id in db.rows && t.id !in remaining && t == RecordOf(t.id, db.rows[t.id])
        invariant forall id | id in db.rows && id !in remaining :: RecordOf(id, db.rows[id]) in todos
        invariant DistinctIds(todos)
        decreases remaining
      {
        HasElement(remaining);
        var key :| key in remaining;
        todos := todos + [RecordOf(key, db.rows[key])];
        remaining := remaining - {key};
      }
      forall t | t in todos ensures t in Records() {
        InRecords(db.rows, t);
      }
    }

    /**
     * `updateToDo`: replaces the five columns of the row with the record's id.
     * True exactly when such a row exists; otherwise nothing changes.
     */
    method UpdateToDo(toDo: ToDo) returns (ok: bool)
      requires Valid()
      modifies db
      ensures Valid() && !db.writeHandleOpen
      ensures ok == (toDo.id in old(db.rows))
      ensures db.rows == if ok then old(db.rows)[toDo.id := RowOf(toDo)] else old(db.rows)
      ensures db.sequence == old(db.sequence) && db.issued == old(db.issued)
      ensures ok ==> toDo in Records()
    {
      db.writeHandleOpen := true;
      var matched := db.Update(toDo.id, RowOf(toDo));
      ok := matched > 0;
      db.writeHandleOpen := false;
      InRecords(db.rows, toDo);
    }

    /**
     * `deleteToDo`: removes the row with that id. True exactly when such a row
     * existed; otherwise nothing changes.
     */
    method DeleteToDo(id: int) returns (ok: bool)
      requires Valid()
      modifies db
      ensures Valid() && !db.writeHandleOpen
      ensures ok == (id in old(db.rows))
      ensures db.rows == old(db.rows) - {id}
      ensures db.sequence == old(db.sequence) && db.issued == old(db.issued)
      ensures forall t | t in Records() :: t.id != id
    {
      db.writeHandleOpen := true;
      var removed := db.Delete(id);
      ok := removed > 0;
      db.writeHandleOpen := false;
    }
  }

  /**
   * Deleting the same id twice: the second call reports false and leaves the
   * table as the first call left it.
   */
  method DeleteTwice(c: ToDoController, id: int) returns (first: bool, second: bool)
    requires c.Valid()
    modifies c.db
    ensures c.Valid()
    ensures first == (id in old(c.db.rows)) && !second
    ensures c.db.rows == old(c.db.rows) - {id}
    ensures c.db.sequence == old(c.db.sequence) && c.db.issued == old(c.db.issued)
  {
    first := c.DeleteToDo(id);
    ghost var between := c.db.rows;
    second := c.DeleteToDo(id);
    assert c.db.rows == between;
  }

  /** The only record of a one-row table is that row under its id. */
  lemma SingleRowListing(rows: map<int, Row>, id: int, todos: seq<ToDo>)
    requires id in rows && rows == map[id := rows[id]] && |todos| == 1
    requires forall t | t in todos :: t in RecordsOf(rows)
    ensures todos == [RecordOf(id, rows[id])]
  {
    InRecords(rows, todos[0]);
  }

  /**
   * On an empty table: insert a record, list, store it again as done under its
   * new id, list, delete it, list. The lists show the record with its new id,
   * then the same record with status 1 and nothing else changed, then nothing.
   */
  method InsertCompleteDelete(c: ToDoController, toDo: ToDo) returns (afterInsert: seq<ToDo>, afterUpdate: seq<ToDo>, afterDelete: seq<ToDo>)
    requires c.Valid() && c.db.rows == map[] && c.db.sequence < MaxRowId
    modifies c.db
    ensures c.Valid() && c.db.rows == map[]
    ensures afterInsert == [toDo.(id := c.db.sequence)]
    ensures afterUpdate == [toDo.(id := c.db.sequence, status := 1)]
    ensures afterDelete == []
  {
    var inserted := c.InsertToDo(toDo, false);
    var id := c.db.sequence;
    afterInsert := c.GetAllToDos();
    SingleRowListing(c.db.rows, id, afterInsert);
    RowRecordRoundTrip(toDo, id, c.db.rows[id]);
    var done := toDo.(id := id, status := 1);
    var updated := c.UpdateToDo(done);
    afterUpdate := c.GetAllToDos();
    SingleRowListing(c.db.rows, id, afterUpdate);
    RowRecordRoundTrip(done, id, c.db.rows[id]);
    var deleted := c.DeleteToDo(id);
    afterDelete := c.GetAllToDos();
  }
}
