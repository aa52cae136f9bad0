/**
 * `AddToDoDialog` (`AddToDialog.kt`): the form that creates a new record.
 * The priority text is parsed, kept when it is 1..3 and replaced by 1
 * otherwise; the saved record is open (status 0) and has no id of its own yet.
 */
module AddDialog {
  import opened Wrappers
  import opened KotlinText
  import opened ToDoRecord

  const InitialPriorityText: string := "1"
  const FallbackPriority: Int32 := 1

  /** `priorityText.toIntOrNull()?.takeIf { it in 1..3 } ?: 1` */
  function Priority(priorityText: string): (p: Int32)
    ensures 1 <= p <= 3
  {
    match ToIntOrNull(priorityText)
    case Some(v) => if 1 <= v <= 3 then v else FallbackPriority
    case None => FallbackPriority
  }

  /** Text that denotes 1, 2 or 3 gives that priority. */
  lemma PriorityOfNumeral(n: Int32)
    requires 1 <= n <= 3
    ensures Priority(IntToString(n)) == n
  {
    ParseIntToString(n);
  }

  /** Text that is not a number, or a number outside 1..3, gives priority 1. */
  lemma PriorityFallsBackToOne(priorityText: string)
    requires ToIntOrNull(priorityText) == None || !(1 <= ToIntOrNull(priorityText).value <= 3)
    ensures Priority(priorityText) == 1
  {
  }

  /**
   * `isFormValid`. Its `priority in 1..3` conjunct always holds, since the
   * priority is already forced into that range.
   */
  predicate IsFormValid(name: string, description: string, priorityText: string, deadline: string) {
    !IsBlank(name) && !IsBlank(description) && !IsBlank(priorityText) &&
    1 <= Priority(priorityText) <= 3 && !IsBlank(deadline)
  }

  /** The form is valid exactly when its four text fields are not blank. */
  lemma FormValidIffNotBlank(name: string, description: string, priorityText: string, deadline: string)
    ensures IsFormValid(name, description, priorityText, deadline) <==>
      !IsBlank(name) && !IsBlank(description) && !IsBlank(priorityText) && !IsBlank(deadline)
  {
  }

  /** Out-of-range or non-numeric priority text still makes a valid form, with priority 1. */
  lemma BadPriorityTextAccepted()
    ensures IsFormValid("a", "b", "7", "c") && Priority("7") == 1
    ensures IsFormValid("a", "b", "abc", "c") && Priority("abc") == 1
  {
    assert !IsWhitespace("a"[0]) && !IsWhitespace("b"[0]) && !IsWhitespace("c"[0]);
    assert !IsWhitespace("7"[0]) && !IsWhitespace("abc"[0]);
    assert DigitsValue("7") == 7 by {
      assert "7"[..0] == [];
    }
    NonNumeralIsNull("abc");
  }

  /** The form as it first opens (empty name, description and deadline; priority "1") is invalid. */
  lemma InitialFormInvalid()
    ensures !IsFormValid("", "", InitialPriorityText, "")
  {
  }

  /** The record the confirm button saves: id 0, status 0, the fields as entered. */
  function NewToDo(name: string, description: string, priorityText: string, deadline: string): (t: ToDo)
    ensures t.id == 0 && t.status == 0 && !IsCompleted(t)
    ensures t.name == name && t.description == description && t.deadline == deadline
    ensures 1 <= t.priority <= 3 && t.priority == Priority(priorityText)
  {
    WithoutId(name, description, Priority(priorityText), deadline, 0)
  }

  /** The dialog's remembered state, reassigned by its callbacks. */
  class AddToDoDialog {
    var name: string
    var description: string
    var priorityText: string
    var deadline: string
    var showDatePicker: bool

    constructor ()
      ensures name == "" && description == "" && priorityText == InitialPriorityText && deadline == ""
      ensures !showDatePicker && !FormValid()
    {
      name, description, priorityText, deadline := "", "", InitialPriorityText, "";
      showDatePicker := false;
    }

    /** Whether the confirm button is enabled. */
    predicate FormValid()
      reads this
    {
      IsFormValid(name, description, priorityText, deadline)
    }

    method OnNameChange(text: string)
      modifies this
      ensures name == text
      ensures description == old(description) && priorityText == old(priorityText)
      ensures deadline == old(deadline) && showDatePicker == old(showDatePicker)
    {
      name := text;
    }

    method OnDescriptionChange(text: string)
      modifies this
      ensures description == text
      ensures name == old(name) && priorityText == old(priorityText)
      ensures deadline == old(deadline) && showDatePicker == old(showDatePicker)
    {
      description := text;
    }

    /** The priority field keeps whatever is typed: no filtering here. */
    method OnPriorityChange(text: string)
      modifies this
      ensures priorityText == text
      ensures name == old(name) && description == old(description)
      ensures deadline == old(deadline) && showDatePicker == old(showDatePicker)
    {
      priorityText := text;
    }

    method OnPickDate()
      modifies this
      ensures showDatePicker
      ensures name == old(name) && description == old(description)
      ensures priorityText == old(priorityText) && deadline == old(deadline)
    {
      showDatePicker := true;
    }

    /**
     * The picker's OK button: `selected` is the formatted date when one was
     * picked. The deadline changes only then; the picker closes either way.
     */
    method OnDatePickerConfirm(selected: Option<string>)
      modifies this
      ensures deadline == if selected.Some? then selected.value else old(deadline)
      ensures !showDatePicker
      ensures name == old(name) && description == old(description) && priorityText == old(priorityText)
    {
      if selected.Some? {
        deadline := selected.value;
        showDatePicker := false;
      }
      showDatePicker := false;
    }

    /** The picker's cancel button: the deadline stays as it was. */
    method OnDatePickerDismiss()
      modifies this
      ensures !showDatePicker
      ensures deadline == old(deadline)
      ensures name == old(name) && description == old(description) && priorityText == old(priorityText)
    {
      showDatePicker := false;
    }

    /** The confirm button, enabled only while the form is valid. */
    method Confirm() returns (newToDo: ToDo)
      requires FormValid()
      ensures newToDo == NewToDo(name, description, priorityText, deadline)
      ensures newToDo.id == 0 && newToDo.status == 0
      ensures newToDo.name == name && newToDo.description == description && newToDo.deadline == deadline
      ensures 1 <= newToDo.priority <= 3
    {
      newToDo := WithoutId(name, description, Priority(priorityText), deadline, 0);
    }
  }
}
