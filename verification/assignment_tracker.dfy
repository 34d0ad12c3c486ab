/** The assignment tracker component: its state, its event handlers and the
    list it renders. The browser storage slot is the `stored` field. */
module Tracker {
  import opened Types
  import opened AssignmentList

  /** The add form's contents. */
  datatype Draft = Draft(title: string, course: string, dueDate: string, description: string)

  /** The form inputs, by their `name` attribute. */
  datatype Field = Title | Course | DueDate | Description

  const EMPTY_DRAFT := Draft("", "", "", "")

  /** The add handler's check: title, course and due date are all non-empty. */
  predicate Complete(d: Draft) {
    d.title != "" && d.course != "" && d.dueDate != ""
  }

  /** The record an add builds: the draft's fields, the given id, not completed. */
  function NewAssignment(d: Draft, id: string): (a: Assignment)
    ensures a.id == id && !a.completed
    ensures Draft(a.title, a.course, a.dueDate, a.description) == d
  {
    Assignment(id, d.title, d.course, d.dueDate, d.description, false)
  }

  /** The text input `field` shows for draft `d`. */
  function Get(d: Draft, field: Field): string {
    match field
    case Title => d.title
    case Course => d.course
    case DueDate => d.dueDate
    case Description => d.description
  }

  /** The draft after typing `value` into input `field`: that input reads
      back `value`, and every other input keeps its text. */
  function WithField(d: Draft, field: Field, value: string): (r: Draft)
    ensures Get(r, field) == value
    ensures forall g :: g != field ==> Get(r, g) == Get(d, g)
  {
    match field
    case Title => d.(title := value)
    case Course => d.(course := value)
    case DueDate => d.(dueDate := value)
    case Description => d.(description := value)
  }

  class AssignmentTracker {
    var assignments: seq<Assignment>
    /** The storage slot: `None` while the key is absent. */
    var stored: Option<seq<Assignment>>
    var draft: Draft
    var showForm: bool
    var filter: Filter

    /** The stored copy equals the list in memory. */
    predicate Persisted()
      reads this
    {
      stored == Some(assignments)
    }

    /** The first render: an empty list, an empty hidden form, the pending tab. */
    constructor (slot: Option<seq<Assignment>>)
      ensures assignments == [] && stored == slot
      ensures draft == EMPTY_DRAFT && !showForm && filter == Pending
    {
      assignments := [];
      stored := slot;
      draft := EMPTY_DRAFT;
      showForm := false;
      filter := Pending;
    }

    /** The mount effect: adopts the stored list when the slot holds one. */
    method Load()
      modifies this
      ensures stored == old(stored) && draft == old(draft)
      ensures showForm == old(showForm) && filter == old(filter)
      ensures assignments == if stored.Some? then stored.value else old(assignments)
      ensures stored.Some? ==> Persisted()
    {
      if stored.Some? {
        assignments := stored.value;
      }
    }

    /** Writes the whole list to the slot. */
    method SaveAssignments(updated: seq<Assignment>)
      modifies this`stored
      ensures stored == Some(updated)
    {
      stored := Some(updated);
    }

    /** Typing into one form input. */
    method HandleInputChange(field: Field, value: string)
      modifies this`draft
      ensures draft == WithField(old(draft), field, value)
    {
      draft := WithField(draft, field, value);
    }

    /** The "Add Assignment" / "Cancel" button. */
    method ToggleForm()
      modifies this`showForm
      ensures showForm == !old(showForm)
    {
      showForm := !showForm;
    }

    /** One of the filter tabs. */
    method SetFilter(f: Filter)
      modifies this`filter
      ensures filter == f
    {
      filter := f;
    }

    /** Submitting the form. An incomplete draft changes nothing (the user is
        alerted); otherwise one new record is appended and saved, and the form
        is cleared and hidden. `id` stands for the creation timestamp. */
    method HandleAddAssignment(id: string) returns (added: bool)
      modifies this
      ensures added <==> Complete(old(draft))
      ensures !added ==> unchanged(this)
      ensures added ==> assignments == old(assignments) + [NewAssignment(old(draft), id)]
      ensures added ==> Persisted() && draft == EMPTY_DRAFT && !showForm && filter == old(filter)
    {
      if draft.title == "" || draft.course == "" || draft.dueDate == "" {
        return false;
      }
      var assignmentToAdd := NewAssignment(draft, id);
      var updated := assignments + [assignmentToAdd];
      assignments := updated;
      SaveAssignments(updated);
      draft := EMPTY_DRAFT;
      showForm := false;
      added := true;
    }

    /** Flips `completed` on the records carrying `id`, then saves. */
    method ToggleComplete(id: string)
      modifies this
      ensures assignments == Toggled(old(assignments), id) && Persisted()
      ensures draft == old(draft) && showForm == old(showForm) && filter == old(filter)
    {
      var updated := Toggled(assignments, id);
      assignments := updated;
      SaveAssignments(updated);
    }

    /** Removes the records carrying `id`, then saves. */
    method DeleteAssignment(id: string)
      modifies this
      ensures assignments == Without(old(assignments), id) && Persisted()
      ensures draft == old(draft) && showForm == old(showForm) && filter == old(filter)
    {
      var updated := Without(assignments, id);
      assignments := updated;
      SaveAssignments(updated);
    }

    /** The rendered list: the current tab's records, ascending by due date. */
    function Visible(): (v: seq<Assignment>)
      reads this
      ensures forall a :: a in v <==> a in assignments && Shows(filter, a)
      ensures Sorted(v)
    {
      ViewIsSortedFilter(assignments, filter, "");
      View(assignments, filter)
    }

    /** The count in tab `f`'s label. */
    function Count(f: Filter): (n: nat)
      reads this
      ensures n == |View(assignments, f)|
      ensures f == All ==> n == |assignments|
    {
      TabCountsAgree(assignments);
      TabCount(assignments, f)
    }
  }
}
