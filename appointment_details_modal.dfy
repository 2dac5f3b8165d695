/**
 * The appointment details modal: when it asks its parent to close (a
 * mousedown outside it, the Escape key, a successful delete), which document
 * listeners it keeps registered, and whether it renders at all. Calls to
 * `onClose` are counted and delete requests recorded; the delete's outcome is
 * a parameter, since the hook that would perform it is not part of this model.
 */
module AppointmentDetailsModal {
  import opened Js

  /** The appointment prop; only the id matters to the rules modelled here. */
  datatype ModalAppointment = ModalAppointment(id: string, title: string, startTime: string, endTime: string)

  /** The two document listeners the modal installs. */
  datatype Listener = MouseDownListener | KeyDownListener

  /** The listeners installed by the effects after a render with this `isOpen`. */
  function ListenersFor(isOpen: bool): set<Listener> {
    if isOpen then {MouseDownListener, KeyDownListener} else {}
  }

  /** Props and what the modal has done so far. */
  datatype ModalState = ModalState(
    isOpen: bool, appointment: Option<ModalAppointment>, listeners: set<Listener>,
    closeCalls: nat, deleteRequests: seq<Num>)

  /** Listeners are installed exactly while the modal is open. */
  predicate ListenersMatch(s: ModalState) {
    s.listeners == ListenersFor(s.isOpen)
  }

  /** The first render: listeners as the effects install them, nothing closed or deleted yet. */
  function Mount(isOpen: bool, appointment: Option<ModalAppointment>): (s: ModalState)
    ensures ListenersMatch(s) && s.closeCalls == 0 && s.deleteRequests == []
  {
    ModalState(isOpen, appointment, ListenersFor(isOpen), 0, [])
  }

  /**
   * A re-render with new props: each effect's cleanup removes the listener it
   * added while open, then the effect adds it again if the modal is now open.
   */
  function Rerender(s: ModalState, isOpen: bool, appointment: Option<ModalAppointment>): (r: ModalState)
    ensures r.isOpen == isOpen && r.appointment == appointment
    ensures r.closeCalls == s.closeCalls && r.deleteRequests == s.deleteRequests
  {
    var removed := if s.isOpen then s.listeners - {MouseDownListener, KeyDownListener} else s.listeners;
    var added := if isOpen then removed + {MouseDownListener, KeyDownListener} else removed;
    ModalState(isOpen, appointment, added, s.closeCalls, s.deleteRequests)
  }

  /** The modal element exists (so `modalRef.current` is set) only while it is open with an appointment. */
  predicate Mounted(s: ModalState) {
    s.isOpen && s.appointment.Some?
  }

  /** `handleClickOutside`, run only when its listener is installed. */
  function MouseDown(s: ModalState, insideModal: bool): (r: ModalState)
    ensures r.(closeCalls := s.closeCalls) == s
  {
    if MouseDownListener in s.listeners && s.isOpen && Mounted(s) && !insideModal
    then s.(closeCalls := s.closeCalls + 1)
    else s
  }

  /** `handleKeyDown`, run only when its listener is installed. */
  function KeyDown(s: ModalState, key: string): (r: ModalState)
    ensures r.(closeCalls := s.closeCalls) == s
  {
    if KeyDownListener in s.listeners && s.isOpen && key == "Escape"
    then s.(closeCalls := s.closeCalls + 1)
    else s
  }

  /** `handleDelete`: nothing without an appointment; otherwise delete `parseInt(id)` and close on success. */
  function Delete(s: ModalState, succeeded: bool): (r: ModalState)
    ensures s.appointment.None? ==> r == s
    ensures s.appointment.Some? ==> r.deleteRequests == s.deleteRequests + [ParseInt(s.appointment.value.id)]
    ensures s.appointment.Some? ==> r.closeCalls == s.closeCalls + (if succeeded then 1 else 0)
  {
    match s.appointment
    case None => s
    case Some(a) =>
      var requested := s.(deleteRequests := s.deleteRequests + [ParseInt(a.id)]);
      if succeeded then requested.(closeCalls := s.closeCalls + 1) else requested
  }

  /** Every step keeps the listeners in line with `isOpen`. */
  lemma ListenersOnlyWhileOpen(s: ModalState, isOpen: bool, appointment: Option<ModalAppointment>,
                               inside: bool, key: string, succeeded: bool)
    requires ListenersMatch(s)
    ensures ListenersMatch(Rerender(s, isOpen, appointment))
    ensures ListenersMatch(MouseDown(s, inside)) && ListenersMatch(KeyDown(s, key))
    ensures ListenersMatch(Delete(s, succeeded))
  {
    var r := Rerender(s, isOpen, appointment);
    if !s.isOpen && isOpen {
      assert r.listeners == {} + {MouseDownListener, KeyDownListener};
    }
  }

  /** Escape closes an open modal once; any other key, or any key while closed, does nothing. */
  lemma EscapeCloses(s: ModalState, key: string)
    requires ListenersMatch(s)
    ensures KeyDown(s, key).closeCalls == s.closeCalls + (if s.isOpen && key == "Escape" then 1 else 0)
  {
  }

  /** A press outside an open modal closes it once; a press inside, or while closed, does nothing. */
  lemma OutsideClickCloses(s: ModalState, inside: bool)
    requires ListenersMatch(s) && s.appointment.Some?
    ensures MouseDown(s, inside).closeCalls == s.closeCalls + (if s.isOpen && !inside then 1 else 0)
  {
  }

  /** After the parent closes the modal, no event reaches `onClose` any more. */
  lemma ClosedModalIgnoresEvents(s: ModalState, appointment: Option<ModalAppointment>, inside: bool, key: string)
    requires ListenersMatch(s)
    ensures var c := Rerender(s, false, appointment);
      c.listeners == {} && MouseDown(c, inside) == c && KeyDown(c, key) == c
  {
    ListenersOnlyWhileOpen(s, false, appointment, inside, key, false);
  }

  /** The delete asks the server about the booking number the id was written from. */
  lemma DeleteSendsBookingNumber(s: ModalState, n: int, succeeded: bool)
    requires s.appointment.Some? && s.appointment.value.id == IntToString(n)
    ensures Delete(s, succeeded).deleteRequests == s.deleteRequests + [Fin(n)]
  {
    ParseIntOfIntToString(n);
  }

  /** What renders: nothing without an appointment, otherwise the presence wrapper showing the dialog while open. */
  datatype Rendered = Nothing | Presence(dialogShown: bool, layoutId: string)

  function Render(isOpen: bool, appointment: Option<ModalAppointment>): (v: Rendered)
    ensures appointment.None? <==> v.Nothing?
    ensures v.Presence? ==> (v.dialogShown <==> isOpen)
  {
    match appointment
    case None => Nothing
    case Some(a) => Presence(isOpen, "appointment-" + a.id)
  }

  /** One modal instance talking to its parent through `onClose`. */
  class Modal {
    var isOpen: bool
    var appointment: Option<ModalAppointment>
    var listeners: set<Listener>
    var closeCalls: nat
    var deleteRequests: seq<Num>

    function Snapshot(): ModalState
      reads this
    {
      ModalState(isOpen, appointment, listeners, closeCalls, deleteRequests)
    }

    constructor (open: bool, apt: Option<ModalAppointment>)
      ensures Snapshot() == Mount(open, apt)
    {
      isOpen := open;
      appointment := apt;
      listeners := if open then {MouseDownListener, KeyDownListener} else {};
      closeCalls := 0;
      deleteRequests := [];
    }

    /** New props arrive: the effects' cleanups run, then the effects. */
    method Update(open: bool, apt: Option<ModalAppointment>)
      modifies this
      ensures Snapshot() == Rerender(old(Snapshot()), open, apt)
    {
      if isOpen {
        listeners := listeners - {MouseDownListener};
        listeners := listeners - {KeyDownListener};
      }
      isOpen, appointment := open, apt;
      if open {
        listeners := listeners + {MouseDownListener};
        listeners := listeners + {KeyDownListener};
      }
    }

    method DispatchMouseDown(insideModal: bool)
      modifies this
      ensures Snapshot() == MouseDown(old(Snapshot()), insideModal)
    {
      if MouseDownListener in listeners && isOpen && appointment.Some? && !insideModal {
        closeCalls := closeCalls + 1;
      }
    }

    method DispatchKeyDown(key: string)
      modifies this
      ensures Snapshot() == KeyDown(old(Snapshot()), key)
    {
      if KeyDownListener in listeners && isOpen && key == "Escape" {
        closeCalls := closeCalls + 1;
      }
    }

    method HandleDelete(succeeded: bool)
      modifies this
      ensures Snapshot() == Delete(old(Snapshot()), succeeded)
    {
      if appointment.None? {
        return;
      }
      deleteRequests := deleteRequests + [ParseInt(appointment.value.id)];
      if succeeded {
        closeCalls := closeCalls + 1;
      }
    }
  }
}
