/**
 * The to-do record (`ToDo.kt`): an immutable value with six fields and the
 * derived flag `isCompleted`. Kotlin's `copy(field = v)` is Dafny's datatype
 * update `t.(field := v)`, and the data class's `equals` is Dafny's structural
 * equality over the six constructor fields.
 */
module ToDoRecord {
  import opened KotlinText

  /** The id a record gets when it is built without one. */
  const DefaultId: int := 0

  /**
   * One to-do. `priority` is documented as 1 (low) .. 3 (high) and `status` as
   * 0 (open) / 1 (done), but the type admits any `Int` for both.
   */
  datatype ToDo = ToDo(
    id: int,
    name: string,
    description: string,
    priority: Int32,
    deadline: string,
    status: Int32)

  /** The constructor call that leaves `id` out. */
  function WithoutId(name: string, description: string, priority: Int32, deadline: string, status: Int32): (t: ToDo)
    ensures t.id == 0
    ensures t.name == name && t.description == description && t.priority == priority
    ensures t.deadline == deadline && t.status == status
  {
    ToDo(DefaultId, name, description, priority, deadline, status)
  }

  /** `isCompleted`: derived from `status`, not stored. */
  predicate IsCompleted(t: ToDo) {
    t.status == 1
  }

  /** Only status 1 reads as completed; 0 and every other `Int` read as open. */
  lemma CompletedExactlyAtOne(t: ToDo)
    ensures IsCompleted(t) <==> t.status == 1
    ensures t.status == 0 ==> !IsCompleted(t)
    ensures t.status != 0 && t.status != 1 ==> !IsCompleted(t)
  {
  }

  /**
   * Equality is field by field over the six constructor fields, and two equal
   * records agree on the derived flag.
   */
  lemma EqualityIsFieldwise(a: ToDo, b: ToDo)
    ensures a == b <==>
      a.id == b.id && a.name == b.name && a.description == b.description &&
      a.priority == b.priority && a.deadline == b.deadline && a.status == b.status
    ensures a == b ==> IsCompleted(a) == IsCompleted(b)
  {
  }

  /** `copy(status = s)` changes `status` and nothing else. */
  lemma CopyChangesOnlyNamedField(t: ToDo, s: Int32)
    ensures t.(status := s).status == s
    ensures t.(status := s) == ToDo(t.id, t.name, t.description, t.priority, t.deadline, s)
  {
  }
}
