/**
 * The appointment store: the time slot picked on the calendar and whether the
 * appointment form is open. Each setter overwrites its own fields and leaves
 * the rest of the store as it was.
 */
module AppointmentStore {
  import opened Js

  datatype TimeSlot = TimeSlot(startHour: int, startMinute: int, endHour: int, endMinute: int)

  /** The data fields of the store. */
  datatype State = State(selectedTimeSlot: Option<TimeSlot>, isAppointmentFormOpen: bool)

  /** Nothing selected and the form closed. */
  const Initial := State(None, false)

  /** `set({ selectedTimeSlot: timeSlot })`. */
  function SelectTimeSlot(s: State, t: Option<TimeSlot>): (r: State)
    ensures r.selectedTimeSlot == t
    ensures r.isAppointmentFormOpen == s.isAppointmentFormOpen
  {
    s.(selectedTimeSlot := t)
  }

  /** `set({ isAppointmentFormOpen: isOpen })`. */
  function SetFormOpen(s: State, isOpen: bool): (r: State)
    ensures r.isAppointmentFormOpen == isOpen
    ensures r.selectedTimeSlot == s.selectedTimeSlot
  {
    s.(isAppointmentFormOpen := isOpen)
  }

  /** `set({ selectedTimeSlot: null, isAppointmentFormOpen: false })`. */
  function Clear(s: State): (r: State)
    ensures r.selectedTimeSlot.None? && !r.isAppointmentFormOpen
  {
    Initial
  }

  /** Clearing twice is clearing once, and clearing forgets whatever was set before. */
  lemma ClearIdempotent(s: State, t: Option<TimeSlot>, b: bool)
    ensures Clear(Clear(s)) == Clear(s)
    ensures Clear(SelectTimeSlot(s, t)) == Clear(s) && Clear(SetFormOpen(s, b)) == Clear(s)
  {
  }

  /** The two setters touch different fields, so their order does not matter. */
  lemma SettersCommute(s: State, t: Option<TimeSlot>, b: bool)
    ensures SelectTimeSlot(SetFormOpen(s, b), t) == SetFormOpen(SelectTimeSlot(s, t), b)
  {
  }

  /**
   * The store has no `selectedColumnId` field, so a component that reads one
   * gets `undefined`; `None` stands for it here.
   */
  function SelectedColumnId(s: State): (c: Option<int>)
    ensures c.None?
  {
    None
  }

  /** `useAppointmentStore`: one shared store object. */
  class Store {
    var selectedTimeSlot: Option<TimeSlot>
    var isAppointmentFormOpen: bool

    function Snapshot(): State
      reads this
    {
      State(selectedTimeSlot, isAppointmentFormOpen)
    }

    constructor ()
      ensures Snapshot() == Initial
    {
      selectedTimeSlot := None;
      isAppointmentFormOpen := false;
    }

    method SetSelectedTimeSlot(t: Option<TimeSlot>)
      modifies this
      ensures Snapshot() == SelectTimeSlot(old(Snapshot()), t)
    {
      selectedTimeSlot := t;
    }

    method SetAppointmentFormOpen(isOpen: bool)
      modifies this
      ensures Snapshot() == SetFormOpen(old(Snapshot()), isOpen)
    {
      isAppointmentFormOpen := isOpen;
    }

    method ClearSelection()
      modifies this
      ensures Snapshot() == Clear(old(Snapshot()))
    {
      selectedTimeSlot := None;
      isAppointmentFormOpen := false;
    }
  }
}
