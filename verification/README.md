# ToDoApp-DB in Dafny

A model of the record-management core of ToDoApp-DB, an Android to-do list
written in Kotlin. The app keeps to-do records in one SQLite table. It lists
open and done records on two screens, and edits them through an add dialog and
an edit dialog. The model covers:

- **the record** `ToDo` (`todo.dfy`, module `ToDoRecord`): six fields and the derived
  `isCompleted`;
- **the table** (`db_helper.dfy`, module `DbHelper`):
  - the `ToDo` schema as data, with the rules it imposes on an inserted row
    (no unknown column, NOT NULL, `status` DEFAULT 0);
  - a `Database` class whose state is the rows (a map from id to the five
    other columns) and the AUTOINCREMENT counter;
  - `onCreate` and `onUpgrade`, which drops the table and creates it again;
- **the store** `ToDoController` (`controller.dfy`): insert, list, update and
  delete as methods of a class over that `Database`, including the writable
  handle each write opens and closes;
- **the add dialog** (`add_dialog.dfy`) and **the edit dialog**
  (`edit_dialog.dfy`):
  - the priority parse with its fallback;
  - the edit dialog's digit filter;
  - `isFormValid`;
  - the record each dialog saves;
  - the dialog state the callbacks reassign, as a class;
- **the list screen** `ToDoScreen` (`todo_screen.dfy`): a class whose methods are
  the screen's callbacks. Toggling, deleting, add-save and edit-save each call
  the store and then re-read and re-filter the whole table.
- **the Kotlin library pieces** these rely on (`kotlin_text.dfy`):
  - `Int` range;
  - `isWhitespace` / `isBlank`;
  - `isDigit`;
  - `String.toIntOrNull`;
  - `Int.toString`, with the proof that parsing the printed form gives the number back.

Properties proved include:

- a new id is the counter plus one, so it is larger than every id handed out
  before and is never reused after a delete;
- `updateToDo` and `deleteToDo` return true exactly when a row with that id
  exists; otherwise the table is unchanged;
- the list holds exactly one record per stored row, with distinct ids;
- after every list-changing callback, the screen shows exactly the stored
  records that have its status;
- the digit filter keeps exactly the input's digits, in order, and is idempotent;
- saving an unedited edit dialog gives back the original record.

Two things the store does not do:

- It checks neither the priority nor the name. A priority outside 1..3 and an
  empty name are stored as given. The only checks are the table's NOT NULL
  constraints, which accept empty text (`DbHelper.MinimalRowAccepted`). The
  add dialog silently replaces a bad priority with 1 and still accepts the
  form (`AddDialog.BadPriorityTextAccepted`). The edit dialog keeps the
  record's old priority (`EditDialog.OutOfRangePriorityAccepted`).
- `updateToDo` and `deleteToDo` return false only when no row has the id. A
  write that fails inside SQLite throws an exception through their
  `try`/`finally`; it is not reported as false.

## Model

| member | source | states |
|---|---|---|
| ToDoRecord.WithoutId | app/src/main/java/com/example/todoapp/database/dataclass/ToDo.kt:14 | a record built without an id has id 0 and the given other fields |
| ToDoRecord.CompletedExactlyAtOne | app/src/main/java/com/example/todoapp/database/dataclass/ToDo.kt:24-25 | `isCompleted` holds exactly when status is 1; 0 and every other value read as open |
| ToDoRecord.EqualityIsFieldwise | app/src/main/java/com/example/todoapp/database/dataclass/ToDo.kt:13-25 | two records are equal iff all six constructor fields are; equal records agree on `isCompleted` |
| ToDoRecord.CopyChangesOnlyNamedField | app/src/main/java/com/example/todoapp/database/dataclass/ToDo.kt:13-20 | `copy(status = s)` sets status to s and leaves the other five fields as they were |
| KotlinText.NatToStringValue | app/src/main/java/com/example/todoapp/screen/EditToDialog.kt:59 | the decimal digits `toString` prints for a non-negative number have that number as their value |
| KotlinText.ParseIntToString | app/src/main/java/com/example/todoapp/screen/EditToDialog.kt:59-64 | `toIntOrNull` of `toString` of any `Int` gives that `Int` back |
| KotlinText.NonNumeralIsNull | app/src/main/java/com/example/todoapp/screen/AddToDialog.kt:40 | text containing a character that is neither a digit nor a leading sign parses to null |
| KotlinText.ParsedDigitsValue | app/src/main/java/com/example/todoapp/screen/AddToDialog.kt:40 | a parsed all-digit text has the value of its digits |
| DbHelper.TableShape | app/src/main/java/com/example/todoapp/database/ToDoDbHelper.kt:17-29 | the table has exactly the columns id, name, priority, deadline, description, status in that order, and only id is the autoincrementing key |
| DbHelper.NotNullColumnsRequired | app/src/main/java/com/example/todoapp/database/ToDoDbHelper.kt:22-26 | any accepted insert supplies non-NULL name, priority and deadline, and no NULL status |
| DbHelper.StatusDefaultsToZero | app/src/main/java/com/example/todoapp/database/ToDoDbHelper.kt:26 | an accepted insert without a status stores status 0 |
| DbHelper.MinimalRowAccepted | app/src/main/java/com/example/todoapp/database/ToDoDbHelper.kt:22-26 | empty text is accepted in every text column; a missing description is stored as NULL and a missing status as 0 |
| DbHelper.DataColumnsSpelledOut | app/src/main/java/com/example/todoapp/database/ToDoDbHelper.kt:22-26 | the five columns besides id, with their types, NOT NULL flags and defaults |
| DbHelper.FullRowAccepted | app/src/main/java/com/example/todoapp/database/controller/ToDoController.kt:27-34 | the five values the store puts for any record are always accepted and stored as given |
| DbHelper.Database.constructor | app/src/main/java/com/example/todoapp/database/ToDoDbHelper.kt:12 | a new database file has no table, no rows and counter 0 |
| DbHelper.Database.OnCreate | app/src/main/java/com/example/todoapp/database/ToDoDbHelper.kt:17-29 | creates the table empty, with counter 0 |
| DbHelper.ExplicitIdNotRefused | app/src/main/java/com/example/todoapp/database/ToDoDbHelper.kt:21-26 | an insert that also supplies an integer `id` passes the column rules and stores the same five data columns |
| DbHelper.UnknownColumnRefused | app/src/main/java/com/example/todoapp/database/ToDoDbHelper.kt:20-27 | a value for a column other than the six declared ones makes the insert fail |
| DbHelper.Database.Insert | app/src/main/java/com/example/todoapp/database/ToDoDbHelper.kt:21 | on an open write handle, returns counter+1 as the new id and stores the row under it, or returns -1 and changes nothing on a storage failure or when the counter is at the largest rowid |
| DbHelper.Database.Update | app/src/main/java/com/example/todoapp/database/controller/ToDoController.kt:103 | on an open write handle: 1 and the row's five columns replaced when a row has the id, 0 and nothing changed otherwise; the counter is untouched |
| DbHelper.Database.Delete | app/src/main/java/com/example/todoapp/database/controller/ToDoController.kt:80 | on an open write handle: 1 when a row had the id, 0 otherwise; only that row is removed and the counter keeps its value |
| DbHelper.Database.DropTableIfExists | app/src/main/java/com/example/todoapp/database/ToDoDbHelper.kt:36 | the table, its rows and its counter are gone |
| DbHelper.Database.OnUpgrade | app/src/main/java/com/example/todoapp/database/ToDoDbHelper.kt:35-38 | for any versions: the table exists, is empty and its ids start again from 1 |
| Controller.RowRecordRoundTrip | app/src/main/java/com/example/todoapp/database/controller/ToDoController.kt:53-60 | reading back the columns written for a record, under the record's id, gives the record; what is stored never depends on the record's id |
| Controller.InRecords | app/src/main/java/com/example/todoapp/database/controller/ToDoController.kt:46-65 | a record is among the stored records iff its id is a row whose columns are the record's |
| Controller.ToDoController.constructor | app/src/main/java/com/example/todoapp/database/controller/ToDoController.kt:15-16 | the store works on the given database |
| Controller.ToDoController.InsertToDo | app/src/main/java/com/example/todoapp/database/controller/ToDoController.kt:24-39 | true iff the backend does not report -1; on success the record, ignoring its own id, is stored under a new id larger than every id handed out before, and it is listed with that id; on failure nothing changes; the handle is closed either way |
| Controller.ToDoController.GetAllToDos | app/src/main/java/com/example/todoapp/database/controller/ToDoController.kt:46-66 | one record per stored row (as many records as rows, empty for an empty table), each with all six columns, ids distinct, in any order |
| Controller.ToDoController.UpdateToDo | app/src/main/java/com/example/todoapp/database/controller/ToDoController.kt:93-108 | true iff a row has the record's id; then exactly that row's five columns are replaced, otherwise nothing changes; the counter is untouched; the handle is closed |
| Controller.ToDoController.DeleteToDo | app/src/main/java/com/example/todoapp/database/controller/ToDoController.kt:77-85 | true iff a row has that id; only that row is removed; afterwards no record has the id; the handle is closed |
| Controller.DeleteTwice | app/src/main/java/com/example/todoapp/database/controller/ToDoController.kt:77-85 | deleting the same id again returns false and changes nothing; the counter and the ids handed out keep their values |
| Controller.InsertCompleteDelete | app/src/main/java/com/example/todoapp/database/controller/ToDoController.kt:24-108 | on an empty table, insert, update to done and delete list the record with its new id, then the same record with status 1, then nothing |
| AddDialog.Priority | app/src/main/java/com/example/todoapp/screen/AddToDialog.kt:40 | the computed priority is always in 1..3 |
| AddDialog.PriorityOfNumeral | app/src/main/java/com/example/todoapp/screen/AddToDialog.kt:40 | the text of 1, 2 or 3 gives that priority |
| AddDialog.PriorityFallsBackToOne | app/src/main/java/com/example/todoapp/screen/AddToDialog.kt:40 | text that does not parse, or parses outside 1..3, gives priority 1 |
| AddDialog.FormValidIffNotBlank | app/src/main/java/com/example/todoapp/screen/AddToDialog.kt:43 | the form is valid iff name, description, priority text and deadline are all non-blank; the range conjunct never matters |
| AddDialog.BadPriorityTextAccepted | app/src/main/java/com/example/todoapp/screen/AddToDialog.kt:40-43 | "7" and "abc" as priority text still give a valid form, with priority 1 |
| AddDialog.InitialFormInvalid | app/src/main/java/com/example/todoapp/screen/AddToDialog.kt:33-43 | the form as it opens is invalid |
| AddDialog.NewToDo | app/src/main/java/com/example/todoapp/screen/AddToDialog.kt:90-96 | the saved record has id 0, status 0, priority in 1..3 and name, description and deadline as entered |
| AddDialog.AddToDoDialog.constructor | app/src/main/java/com/example/todoapp/screen/AddToDialog.kt:33-37 | empty fields, priority text "1", picker closed, and the form invalid |
| AddDialog.AddToDoDialog.OnNameChange | app/src/main/java/com/example/todoapp/screen/AddToDialog.kt:52 | name becomes the typed text; nothing else changes |
| AddDialog.AddToDoDialog.OnDescriptionChange | app/src/main/java/com/example/todoapp/screen/AddToDialog.kt:58 | description becomes the typed text; nothing else changes |
| AddDialog.AddToDoDialog.OnPriorityChange | app/src/main/java/com/example/todoapp/screen/AddToDialog.kt:64 | the priority text becomes the typed text, unfiltered |
| AddDialog.AddToDoDialog.OnPickDate | app/src/main/java/com/example/todoapp/screen/AddToDialog.kt:72 | opens the picker; the form fields are unchanged |
| AddDialog.AddToDoDialog.OnDatePickerConfirm | app/src/main/java/com/example/todoapp/screen/EditToDialog.kt:185-191 | the deadline changes only when a date was picked; the picker closes either way |
| AddDialog.AddToDoDialog.OnDatePickerDismiss | app/src/main/java/com/example/todoapp/screen/AddToDialog.kt:83 | closes the picker and leaves the deadline as it was |
| AddDialog.AddToDoDialog.Confirm | app/src/main/java/com/example/todoapp/screen/AddToDialog.kt:88-100 | enabled only on a valid form; hands over the new record: id 0, status 0, priority in 1..3, the text fields as entered |
| EditDialog.FilterDigits | app/src/main/java/com/example/todoapp/screen/EditToDialog.kt:92 | the filtered text holds only digits and is no longer than the input |
| EditDialog.FilterDigitsAppend | app/src/main/java/com/example/todoapp/screen/EditToDialog.kt:92 | filtering distributes over concatenation, so the kept digits stay in order |
| EditDialog.FilterDigitsKeepsDigitText | app/src/main/java/com/example/todoapp/screen/EditToDialog.kt:92 | the filter leaves a text unchanged iff the text is all digits |
| EditDialog.FilterDigitsIdempotent | app/src/main/java/com/example/todoapp/screen/EditToDialog.kt:92 | filtering twice equals filtering once |
| EditDialog.FilterDigitsCounts | app/src/main/java/com/example/todoapp/screen/EditToDialog.kt:92 | each digit occurs in the result as often as in the input, and no other character occurs |
| EditDialog.FilteredBlankIffEmpty | app/src/main/java/com/example/todoapp/screen/EditToDialog.kt:67-92 | a filtered priority text is blank iff it is empty |
| EditDialog.Priority | app/src/main/java/com/example/todoapp/screen/EditToDialog.kt:64 | the priority is in 1..3 or is the record's original priority |
| EditDialog.PriorityOfNumeral | app/src/main/java/com/example/todoapp/screen/EditToDialog.kt:64 | the text of 1, 2 or 3 gives that priority, whatever the original |
| EditDialog.UneditedPriority | app/src/main/java/com/example/todoapp/screen/EditToDialog.kt:59-64 | the priority text the dialog opens with gives back the original priority, even one outside 1..3 |
| EditDialog.OutOfRangePriorityAccepted | app/src/main/java/com/example/todoapp/screen/EditToDialog.kt:64-67 | priority text "9" gives a valid form and keeps the original priority |
| EditDialog.Edited | app/src/main/java/com/example/todoapp/screen/EditToDialog.kt:122-127 | the saved record keeps the original id and status and replaces name, description, priority and deadline |
| EditDialog.UneditedSaveIsIdentity | app/src/main/java/com/example/todoapp/screen/EditToDialog.kt:57-127 | saving without editing anything gives a record equal to the original |
| EditDialog.EditToDoDialog.constructor | app/src/main/java/com/example/todoapp/screen/EditToDialog.kt:57-61 | the form opens with the record's values and the priority's decimal text, and would save the record unchanged |
| EditDialog.EditToDoDialog.OnNameChange | app/src/main/java/com/example/todoapp/screen/EditToDialog.kt:77 | name becomes the typed text; nothing else changes |
| EditDialog.EditToDoDialog.OnDescriptionChange | app/src/main/java/com/example/todoapp/screen/EditToDialog.kt:84 | description becomes the typed text; nothing else changes |
| EditDialog.EditToDoDialog.OnPriorityChange | app/src/main/java/com/example/todoapp/screen/EditToDialog.kt:91-93 | the priority text becomes the digits of the input and nothing else |
| EditDialog.EditToDoDialog.OnPickDate | app/src/main/java/com/example/todoapp/screen/EditToDialog.kt:102 | opens the picker; the form fields are unchanged |
| EditDialog.EditToDoDialog.OnDatePickerConfirm | app/src/main/java/com/example/todoapp/screen/EditToDialog.kt:110-114 | the deadline changes only when a date was picked; the picker closes either way |
| EditDialog.EditToDoDialog.OnDatePickerDismiss | app/src/main/java/com/example/todoapp/screen/EditToDialog.kt:114 | closes the picker and leaves the deadline as it was |
| EditDialog.EditToDoDialog.Confirm | app/src/main/java/com/example/todoapp/screen/EditToDialog.kt:118-131 | enabled only on a valid form; hands over the record with the original id and status and the edited fields |
| Screen.FilterByStatus | app/src/main/java/com/example/todoapp/screen/ToDoScreen.kt:65 | a record is kept iff it is in the list and has the given status |
| Screen.FilterKeepsDistinctIds | app/src/main/java/com/example/todoapp/screen/ToDoScreen.kt:65 | filtering a list with distinct ids leaves distinct ids |
| Screen.Toggled | app/src/main/java/com/example/todoapp/screen/ToDoScreen.kt:63-64 | the toggled copy differs only in status, which becomes 0 or 1 and always changes; `isCompleted` flips |
| Screen.ToggleTwice | app/src/main/java/com/example/todoapp/screen/ToDoScreen.kt:63-64 | toggling twice restores a record with status 0 or 1, and sets any other status to 0 |
| Screen.ToDoScreen.constructor | app/src/main/java/com/example/todoapp/screen/ToDoScreen.kt:45-55 | the screen shows the list it was given, with both dialogs closed and nothing to edit |
| Screen.ToDoScreen.Refresh | app/src/main/java/com/example/todoapp/screen/ToDoScreen.kt:65 | the list becomes exactly the stored records with the screen's status, each once |
| Screen.ToDoScreen.OnItemClicked | app/src/main/java/com/example/todoapp/screen/ToDoScreen.kt:62-66 | stores the toggled copy when the row exists; the counter keeps its value; the list is re-read and filtered, so the toggled item leaves this screen |
| Screen.ToDoScreen.OnDeleteClicked | app/src/main/java/com/example/todoapp/screen/ToDoScreen.kt:67-70 | removes the row; the counter keeps its value; the re-read list shows no record with that id |
| Screen.ToDoScreen.OnEditClicked | app/src/main/java/com/example/todoapp/screen/ToDoScreen.kt:71-74 | remembers the item and opens the edit dialog, which is then shown |
| Screen.ToDoScreen.OnAddClicked | app/src/main/java/com/example/todoapp/screen/ToDoScreen.kt:80 | opens the add dialog |
| Screen.ToDoScreen.OnAddDismiss | app/src/main/java/com/example/todoapp/screen/ToDoScreen.kt:95 | closes the add dialog; the list is unchanged |
| Screen.ToDoScreen.OnAddSave | app/src/main/java/com/example/todoapp/screen/ToDoScreen.kt:96-100 | inserts, and the counter moves exactly when there was no storage failure and the counter was below the largest rowid; re-reads the list whatever the outcome and closes the add dialog; a new record with the screen's status is then listed under its new id |
| Screen.ToDoScreen.OnEditDismiss | app/src/main/java/com/example/todoapp/screen/ToDoScreen.kt:108 | closes the edit dialog; the list is unchanged |
| Screen.ToDoScreen.OnEditSave | app/src/main/java/com/example/todoapp/screen/ToDoScreen.kt:109-113 | updates by id, the counter keeps its value, re-reads the list whatever the outcome and closes the edit dialog; an updated record with the screen's status is listed |
| Screen.DeleteThenAdd | app/src/main/java/com/example/todoapp/screen/ToDoScreen.kt:67-100 | after deleting a listed item and saving a new record from the add dialog, the new record never gets the deleted id and no listed record has it |

## Left out

- Controller.ToDoController.GetAllToDos: ids are unbounded integers. The source reads the id with `cursor.getInt`, which truncates ids above 2^31-1; the model does not capture that truncation. The table would need more than two billion inserts to reach it.
- Controller.ToDoController.GetAllToDos: the records come in no particular order. `SELECT *` without `ORDER BY` guarantees none, so the contract states the set of records, their count and distinct ids, not an order.
- The readable handle `getAllToDos` opens is never closed in the source. This is resource plumbing and is not modelled.
- An exception thrown by SQLite inside `updateToDo` or `deleteToDo` propagates to the caller after the handle is closed. The model has no exceptions. Only the insert's -1 result is modelled, through the `ioFailure` parameter.
- `onUpgrade`'s dispatch by `SQLiteOpenHelper` on the stored version is not modelled. `OnUpgrade` takes the two versions as parameters and ignores them, as the source does. Opening a database with the `Context` is not modelled either.
- DbHelper.CheckInsert: a supplied `id` is accepted as a column of the table, but its value is not checked and `Database.Insert` never stores a row under a caller's id. The store never supplies one, so this path is not modelled.
- KotlinText.IsDigit: only the ASCII digits '0'..'9' count. Kotlin's `isDigit` and `toIntOrNull` also accept other Unicode decimal digits.
- The date picker turns milliseconds into "MM/dd/yyyy" through `SimpleDateFormat` with the default locale and time zone. The model takes the picked deadline as an opaque string (`Option<string>`, `None` when no date was picked).
- Compose layout and styling are not part of this model: `ToDoItemCard`, the dialog widgets, `DashboardScreen`, `MainActivity` and the `AppNavHost` routes. AppNavHost's `filter { it.status == 0 }` / `filter { it.status == 1 }` is the screen's precondition that every record it is given has its status.
- Screen.ToDoScreen: recomposition is not modelled. Each callback is one method call on the screen's remembered state. The `ToDoController` the screen builds on each composition is one object over the same database.
- The dialogs call `onDismiss` right after `onSave`. That second close is covered by the dismiss methods and is not modelled separately.
