/**
 * `EditToDoDialog` (`EditToDialog.kt`): the form that edits an existing
 * record. The priority field accepts digits only; a priority outside 1..3, or
 * text that does not parse, falls back to the record's own priority; the saved
 * record keeps the original id and status.
 */
module EditDialog {
  import opened Wrappers
  import opened KotlinText
  import opened ToDoRecord

  /** `input.filter { it.isDigit() }` */
  function FilterDigits(s: string): (r: string)
    ensures AllDigits(r) && |r| <= |s|
  {
    if s == [] then []
    else if IsDigit(s[0]) then [s[0]] + FilterDigits(s[1..])
    else FilterDigits(s[1..])
  }

  /** Filtering splits over concatenation, so the digits keep their order. */
  lemma {:induction false} FilterDigitsAppend(a: string, b: string)
    ensures FilterDigits(a + b) == FilterDigits(a) + FilterDigits(b)
  {
    if a == [] {
      assert a + b == b;
    } else {
      assert (a + b)[0] == a[0] && (a + b)[1..] == a[1..] + b;
      FilterDigitsAppend(a[1..], b);
    }
  }

  /** Text made of digits only is left as it is, and only such text is. */
  lemma {:induction false} FilterDigitsKeepsDigitText(s: string)
    ensures FilterDigits(s) == s <==> AllDigits(s)
  {
    if s != [] && AllDigits(s) {
      assert AllDigits(s[1..]) by {
        forall i | 0 <= i < |s[1..]| ensures IsDigit(s[1..][i]) {
          assert s[1..][i] == s[i + 1];
        }
      }
      FilterDigitsKeepsDigitText(s[1..]);
    }
  }

  /** Filtering twice is filtering once. */
  lemma FilterDigitsIdempotent(s: string)
    ensures FilterDigits(FilterDigits(s)) == FilterDigits(s)
  {
    FilterDigitsKeepsDigitText(FilterDigits(s));
  }

  /** Every digit of the input survives, as often as it occurs; nothing else does. */
  lemma {:induction false} FilterDigitsCounts(s: string, c: char)
    ensures multiset(FilterDigits(s))[c] == if IsDigit(c) then multiset(s)[c] else 0
  {
    if s != [] {
      FilterDigitsCounts(s[1..], c);
      assert s == [s[0]] + s[1..];
    }
  }

  /** A filtered priority text is blank exactly when it is empty. */
  lemma FilteredBlankIffEmpty(s: string)
    ensures IsBlank(FilterDigits(s)) <==> FilterDigits(s) == []
  {
    var r := FilterDigits(s);
    if r != [] {
      assert IsDigit(r[0]) && !IsWhitespace(r[0]);
    }
  }

  /** `priorityText.toIntOrNull()?.takeIf { it in 1..3 } ?: toDo.priority` */
  function Priority(priorityText: string, original: Int32): (p: Int32)
    ensures 1 <= p <= 3 || p == original
  {
    match ToIntOrNull(priorityText)
    case Some(v) => if 1 <= v <= 3 then v else original
    case None => original
  }

  /** Text that denotes 1, 2 or 3 gives that priority, whatever the original was. */
  lemma PriorityOfNumeral(n: Int32, original: Int32)
    requires 1 <= n <= 3
    ensures Priority(IntToString(n), original) == n
  {
    ParseIntToString(n);
  }

  /** The text the field starts with gives back the original priority, in range or not. */
  lemma UneditedPriority(original: Int32)
    ensures Priority(IntToString(original), original) == original
  {
    ParseIntToString(original);
  }

  /** `isFormValid`: the four text fields are not blank; the priority's range is not checked. */
  predicate IsFormValid(name: string, description: string, priorityText: string, deadline: string) {
    !IsBlank(name) && !IsBlank(description) && !IsBlank(priorityText) && !IsBlank(deadline)
  }

  /** An out-of-range priority such as "9" still makes a valid form; the original priority is kept. */
  lemma OutOfRangePriorityAccepted(original: Int32)
    ensures IsFormValid("a", "b", "9", "c") && Priority("9", original) == original
  {
    assert !IsWhitespace("a"[0]) && !IsWhitespace("b"[0]) && !IsWhitespace("9"[0]) && !IsWhitespace("c"[0]);
    assert DigitsValue("9") == 9 by {
      assert "9"[..0] == [];
    }
  }

  /** The record the save button produces: `toDo.copy(name, description, priority, deadline)`. */
  function Edited(toDo: ToDo, name: string, description: string, priorityText: string, deadline: string): (t: ToDo)
    ensures t.id == toDo.id && t.status == toDo.status
    ensures t.name == name && t.description == description && t.deadline == deadline
    ensures t.priority == Priority(priorityText, toDo.priority)
  {
    toDo.(name := name, description := description, priority := Priority(priorityText, toDo.priority), deadline := deadline)
  }

  /** Saving the form as it opened gives back the original record. */
  lemma UneditedSaveIsIdentity(toDo: ToDo)
    ensures Edited(toDo, toDo.name, toDo.description, IntToString(toDo.priority), toDo.deadline) == toDo
  {
    UneditedPriority(toDo.priority);
  }

  /** The dialog's remembered state, reassigned by its callbacks. */
  class EditToDoDialog {
    const toDo: ToDo
    var name: string
    var description: string
    var priorityText: string
    var deadline: string
    var showDatePicker: bool

    /** The form opens with the record's own values; the priority as its decimal text. */
    constructor (toDo: ToDo)
      ensures this.toDo == toDo
      ensures name == toDo.name && description == toDo.description && deadline == toDo.deadline
      ensures priorityText == IntToString(toDo.priority) && !showDatePicker
      ensures Saved() == toDo
    {
      this.toDo := toDo;
      name, description, deadline := toDo.name, toDo.description, toDo.deadline;
      priorityText := IntToString(toDo.priority);
      showDatePicker := false;
      new;
      UneditedSaveIsIdentity(toDo);
    }

    /** Whether the save button is enabled. */
    predicate FormValid()
      reads this
    {
      IsFormValid(name, description, priorityText, deadline)
    }

    /** The record the save button would hand over now. */
    function Saved(): ToDo
      reads this
    {
      Edited(toDo, name, description, priorityText, deadline)
    }

    method OnNameChange(text: string)
      modifies this
      ensures name == text
      ensures description == old(description) && priorityText == old(priorityText)
      ensures deadline == old(deadline) && showDatePicker == old(showDatePicker)
    {
      name := text;
    }

    method OnDescriptionChange(text: string)
      modifies this
      ensures description == text
      ensures name == old(name) && priorityText == old(priorityText)
      ensures deadline == old(deadline) && showDatePicker == old(showDatePicker)
    {
      description := text;
    }

    /** The priority field keeps only the digits of what is typed. */
    method OnPriorityChange(input: string)
      modifies this
      ensures priorityText == FilterDigits(input) && AllDigits(priorityText)
      ensures name == old(name) && description == old(description)
      ensures deadline == old(deadline) && showDatePicker == old(showDatePicker)
    {
      priorityText := FilterDigits(input);
    }

    method OnPickDate()
      modifies this
      ensures showDatePicker
      ensures name == old(name) && description == old(description)
      ensures priorityText == old(priorityText) && deadline == old(deadline)
    {
      showDatePicker := true;
    }

    /**
     * The picker's OK button: `selected` is the formatted date when one was
     * picked. The deadline changes only then; the picker closes either way.
     */
    method OnDatePickerConfirm(selected: Option<string>)
      modifies this
      ensures deadline == if selected.Some? then selected.value else old(deadline)
      ensures !showDatePicker
      ensures name == old(name) && description == old(description) && priorityText == old(priorityText)
    {
      if selected.Some? {
        deadline := selected.value;
        showDatePicker := false;
      }
      showDatePicker := false;
    }

    /** The picker's cancel button: the deadline stays as it was. */
    method OnDatePickerDismiss()
      modifies this
      ensures !showDatePicker
      ensures deadline == old(deadline)
      ensures name == old(name) && description == old(description) && priorityText == old(priorityText)
    {
      showDatePicker := false;
    }

    /** The save button, enabled only while the form is valid. */
    method Confirm() returns (updated: ToDo)
      requires FormValid()
      ensures updated == Saved()
      ensures updated.id == toDo.id && updated.status == toDo.status
      ensures updated.name == name && updated.description == description && updated.deadline == deadline
      ensures updated.priority == Priority(priorityText, toDo.priority)
    {
      updated := toDo.(name := name, description := description,
                       priority := Priority(priorityText, toDo.priority), deadline := deadline);
    }
  }
}
