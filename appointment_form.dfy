/**
 * The "Add Appointment" dialog: its form fields, the 15-minute start and end
 * time options, the end time that follows a new start time, the create-customer
 * and submit handlers with their alerts, and the reset on close.
 */
module AppointmentForm {
  import opened Js
  import opened Clock
  import opened Types
  import AppointmentStore

  // ---------------------------------------------------------------- time options

  /** The k-th time option: 07:00 plus k quarter-hours. */
  function SlotTime(k: int): string {
    FormatClock(7 + k / 4, (k % 4) * 15)
  }

  /** Position k, with 15k minutes past 07:00 at `hour:minute`, holds that hour and minute. */
  lemma SlotPosition(k: int, hour: int, minute: int)
    requires minute in {0, 15, 30, 45} && k * 15 == (hour - 7) * 60 + minute
    ensures 7 + k / 4 == hour && (k % 4) * 15 == minute
  {
    assert k == (hour - 7) * 4 + minute / 15;
  }

  /** Entry k of `slots` is the k-th option, for every k. */
  predicate IsSlotPrefix(slots: seq<string>)
    decreases |slots|
  {
    slots == [] || (IsSlotPrefix(slots[..|slots| - 1]) && slots[|slots| - 1] == SlotTime(|slots| - 1))
  }

  /** A prefix of the options holds the k-th option at position k. */
  lemma {:induction false} SlotPrefixAt(slots: seq<string>, k: nat)
    requires IsSlotPrefix(slots) && k < |slots|
    ensures slots[k] == SlotTime(k)
    decreases |slots|
  {
    if k < |slots| - 1 {
      SlotPrefixAt(slots[..|slots| - 1], k);
    }
  }

  /** The option at position k is the time at `hour:minute` when k quarter-hours after 07:00 is that time. */
  lemma SlotTimeAt(k: int, hour: int, minute: int)
    requires minute in {0, 15, 30, 45} && k * 15 == (hour - 7) * 60 + minute
    ensures SlotTime(k) == FormatClock(hour, minute)
  {
    SlotPosition(k, hour, minute);
  }

  /** Appending the next option extends a prefix of the options. */
  lemma ExtendSlotPrefix(slots: seq<string>, time: string)
    requires IsSlotPrefix(slots) && time == SlotTime(|slots|)
    ensures IsSlotPrefix(slots + [time])
  {
    var t := slots + [time];
    assert t[..|t| - 1] == slots;
  }

  /** Appending the time at `hour:minute` extends a prefix of the options. */
  lemma AppendSlot(slots: seq<string>, hour: int, minute: int)
    requires minute in {0, 15, 30, 45} && |slots| * 15 == (hour - 7) * 60 + minute
    requires IsSlotPrefix(slots)
    ensures IsSlotPrefix(slots + [FormatClock(hour, minute)])
  {
    SlotTimeAt(|slots|, hour, minute);
    ExtendSlotPrefix(slots, FormatClock(hour, minute));
  }

  /** The `timeSlots` loops: hours 7 to 20, minutes 0, 15, 30 and 45, each written "HH:MM". */
  method TimeSlots() returns (slots: seq<string>)
    ensures |slots| == 56
    ensures forall k :: 0 <= k < 56 ==> slots[k] == SlotTime(k)
  {
    slots := [];
    var hour := 7;
    while hour < 21
      invariant 7 <= hour <= 21
      invariant |slots| * 15 == (hour - 7) * 60
      invariant IsSlotPrefix(slots)
    {
      var minute := 0;
      while minute < 60
        invariant minute in {0, 15, 30, 45, 60}
        invariant |slots| * 15 == (hour - 7) * 60 + minute
        invariant IsSlotPrefix(slots)
      {
        var time := FormatClock(hour, minute);
        AppendSlot(slots, hour, minute);
        slots := slots + [time];
        minute := minute + 15;
      }
      hour := hour + 1;
    }
    SlotPrefixAll(slots);
  }

  lemma SlotPrefixAll(slots: seq<string>)
    requires IsSlotPrefix(slots)
    ensures forall k :: 0 <= k < |slots| ==> slots[k] == SlotTime(k)
  {
    forall k | 0 <= k < |slots|
      ensures slots[k] == SlotTime(k)
    {
      SlotPrefixAt(slots, k);
    }
  }

  /** Option k is hour 7 + k / 4 and minute (k % 4) * 15: 15k minutes after 07:00. */
  lemma SlotArith(k: int)
    requires 0 <= k < 56
    ensures 7 <= 7 + k / 4 <= 20 && (k % 4) * 15 in {0, 15, 30, 45}
    ensures Minutes(7 + k / 4, (k % 4) * 15) == 420 + 15 * k
  {
  }

  /** Option k reads back as hour 7 + k / 4 and minute (k % 4) * 15. */
  lemma SlotTimeParts(k: int)
    requires 0 <= k < 56
    ensures ClockParts(SlotTime(k)) == (Fin(7 + k / 4), Fin((k % 4) * 15))
  {
    ClockRoundTrip(7 + k / 4, (k % 4) * 15);
  }

  /**
   * Every option reads back as an hour from 7 to 20 and a minute of 0, 15, 30
   * or 45, 15k minutes after 07:00: the first is 07:00 and the last 20:45.
   */
  lemma SlotTimeReads(k: int, h: int, m: int)
    requires 0 <= k < 56 && ClockParts(SlotTime(k)) == (Fin(h), Fin(m))
    ensures 7 <= h <= 20 && m in {0, 15, 30, 45} && Minutes(h, m) == 420 + 15 * k
  {
    SlotTimeParts(k);
    SlotArith(k);
  }

  /** Every option is written as five characters "DD:DD". */
  lemma SlotTimeShape(k: int)
    requires 0 <= k < 56
    ensures var t := SlotTime(k);
      |t| == 5 && t[2] == ':' && IsDigit(t[0]) && IsDigit(t[1]) && IsDigit(t[3]) && IsDigit(t[4])
  {
    SlotArith(k);
    ClockShape(7 + k / 4, (k % 4) * 15);
  }

  /** Options strictly increase in time of day, so no two are the same. */
  lemma SlotTimesIncrease(j: int, k: int)
    requires 0 <= j < k < 56
    ensures Minutes(7 + j / 4, (j % 4) * 15) < Minutes(7 + k / 4, (k % 4) * 15)
    ensures SlotTime(j) != SlotTime(k)
  {
    SlotArith(j);
    SlotArith(k);
    SlotTimeParts(j);
    SlotTimeParts(k);
  }

  // ---------------------------------------------------------------- end time from start time

  /** What choosing a start time does to the end time. */
  datatype EndUpdate = KeepEnd | SetEnd(time: string) | TypeError

  /**
   * The end for a start read as `hours` and `minutes` (`None` when the start
   * had no second part, so `minutes` is `undefined`): when `hours + 1 < 21` the
   * end becomes `(hours + 1):minutes`, zero-padded, and `minutes.toString()`
   * throws when `minutes` is `undefined`.
   */
  function EndAfterParts(hours: Num, minutes: Option<Num>): (u: EndUpdate)
    ensures u.SetEnd? ==> hours.Fin? && hours.v + 1 < 21 && minutes.Some?
    ensures u.KeepEnd? <==> !hours.Add(1).LessThan(21)
  {
    var endHours := hours.Add(1);
    if !endHours.LessThan(21) then KeepEnd
    else if minutes.None? then TypeError
    else SetEnd(PadStart(NumToString(endHours), 2, '0') + ":" + PadStart(NumToString(minutes.value), 2, '0'))
  }

  /** The start `onChange`: `newStartTime.split(":").map(Number)` read as `[hours, minutes]`. */
  function EndAfterStart(newStart: string): (u: EndUpdate)
    ensures ':' !in newStart ==> !u.SetEnd?
    ensures ':' !in newStart ==> (u.TypeError? <==> Number(newStart).Add(1).LessThan(21))
  {
    var parts := Split(newStart, ':');
    assert ':' !in newStart ==> parts == [newStart] by {
      if ':' !in newStart {
        SplitNoSeparator(newStart, ':');
      }
    }
    EndAfterParts(Number(parts[0]), if |parts| > 1 then Some(Number(parts[1])) else None)
  }

  /** Four positions on is the same minute one hour later. */
  lemma SlotShift(k: int)
    requires 0 <= k
    ensures 7 + (k + 4) / 4 == 7 + k / 4 + 1 && ((k + 4) % 4) * 15 == (k % 4) * 15
  {
  }

  /** A start written "HH:MM" is read as its hour and its minute. */
  lemma WrittenStartParts(h: nat, m: nat)
    ensures EndAfterStart(FormatClock(h, m)) == EndAfterParts(Fin(h), Some(Fin(m)))
  {
    ClockSplit(h, m);
  }

  /** An hour before 20 gives the end one hour later at the same minute. */
  lemma EndOneHourLater(h: nat, m: nat)
    requires h + 1 < 21
    ensures EndAfterParts(Fin(h), Some(Fin(m))) == SetEnd(FormatClock(h + 1, m))
  {
    assert NumToString(Fin(h + 1)) == IntToString(h + 1) && NumToString(Fin(m)) == IntToString(m);
  }

  /** A start written "HH:MM" before 20:00 moves the end one hour on, to the same minute. */
  lemma EndAfterWrittenStart(h: nat, m: nat)
    requires h + 1 < 21
    ensures EndAfterStart(FormatClock(h, m)) == SetEnd(FormatClock(h + 1, m))
  {
    WrittenStartParts(h, m);
    EndOneHourLater(h, m);
  }

  /** A start written "HH:MM" from 20:00 on leaves the end as it was. */
  lemma EndKeptAfterWrittenStart(h: nat, m: nat)
    requires h + 1 >= 21
    ensures EndAfterStart(FormatClock(h, m)) == KeepEnd
  {
    WrittenStartParts(h, m);
  }

  /** A start with no ':' and an hour before 20 throws instead of setting an end. */
  lemma StartWithoutColonThrows(s: string)
    requires ':' !in s && Number(s).Fin? && Number(s).v + 1 < 21
    ensures EndAfterStart(s) == TypeError
  {
    SplitNoSeparator(s, ':');
  }

  /** For a start option before 20:00 the end moves to the option one hour later, four positions on. */
  lemma EndFollowsStartOption(k: int)
    requires 0 <= k < 52
    ensures EndAfterStart(SlotTime(k)) == SetEnd(SlotTime(k + 4))
  {
    assert 7 <= 7 + k / 4 < 20 && 0 <= (k % 4) * 15 by {
      SlotArith(k);
    }
    SlotShift(k);
    EndAfterWrittenStart(7 + k / 4, (k % 4) * 15);
  }

  /** For a start option from 20:00 on the end is left as it was. */
  lemma EndKeptForLastHour(k: int)
    requires 52 <= k < 56
    ensures EndAfterStart(SlotTime(k)) == KeepEnd
  {
    assert 7 + k / 4 == 20 && 0 <= (k % 4) * 15 by {
      SlotArith(k);
    }
    EndKeptAfterWrittenStart(7 + k / 4, (k % 4) * 15);
  }

  // ---------------------------------------------------------------- form state

  /** The `useState` fields of the form; the open flag lives in the appointment store. */
  datatype FormState = FormState(
    selectedCustomer: Option<Customer>, showNewCustomerForm: bool,
    selectedDate: string, selectedTime: string, selectedEndTime: string,
    comment: string, columnId: Num, newCustomerName: string, newCustomerPhone: string,
    alert: Alert)

  /** `selectedColumnId || 1`: an absent or zero column falls back to 1. */
  function InitialColumn(selectedColumnId: Option<int>): (c: int)
    ensures selectedColumnId.Some? && selectedColumnId.value != 0 ==> c == selectedColumnId.value
    ensures selectedColumnId.None? || selectedColumnId.value == 0 ==> c == 1
  {
    if selectedColumnId.Some? && selectedColumnId.value != 0 then selectedColumnId.value else 1
  }

  /** The state on mount: `today` is `dayjs().format("YYYY-MM-DD")`. */
  function Initial(today: string, selectedColumnId: Option<int>): FormState {
    FormState(None, false, today, "09:00", "10:00", "", Fin(InitialColumn(selectedColumnId)), "", "", HiddenAlert)
  }

  /** The store never holds a column, so the form always starts on column 1. */
  lemma InitialColumnIsOne(store: AppointmentStore.State, today: string)
    ensures Initial(today, AppointmentStore.SelectedColumnId(store)).columnId == Fin(1)
  {
  }

  /** `handleClose`'s reset of the form fields (it also closes the form in the store). */
  function Reset(s: FormState, today: string): (r: FormState)
    ensures r.selectedCustomer.None? && !r.showNewCustomerForm
    ensures r.selectedDate == today && r.selectedTime == "09:00" && r.selectedEndTime == "10:00"
    ensures r.comment == "" && r.newCustomerName == "" && r.newCustomerPhone == ""
    ensures r.columnId == Fin(1) && !r.alert.show
  {
    FormState(None, false, today, "09:00", "10:00", "", Fin(1), "", "", HiddenAlert)
  }

  /** The reset does not depend on what was there before, and resetting twice is resetting once. */
  lemma ResetForgets(s: FormState, t: FormState, today: string)
    ensures Reset(s, today) == Reset(t, today)
    ensures Reset(Reset(s, today), today) == Reset(s, today)
  {
  }

  /** After a reset the form is in the state it was mounted in. */
  lemma ResetIsInitial(s: FormState, store: AppointmentStore.State, today: string)
    ensures Reset(s, today) == Initial(today, AppointmentStore.SelectedColumnId(store))
  {
  }

  /** `showAlert(type, message)`. */
  function ShowAlert(s: FormState, kind: AlertKind, message: string): (r: FormState)
    ensures r.alert == Alert(true, kind, message) && r == s.(alert := r.alert)
  {
    s.(alert := Alert(true, kind, message))
  }

  /** The start `onChange`: the start becomes the choice and the end follows it (a throw stops after the start). */
  function ChangeStart(s: FormState, newStart: string): (r: FormState)
    ensures r.selectedTime == newStart
    ensures r == s.(selectedTime := newStart, selectedEndTime := r.selectedEndTime)
    ensures EndAfterStart(newStart).SetEnd? ==> r.selectedEndTime == EndAfterStart(newStart).time
    ensures !EndAfterStart(newStart).SetEnd? ==> r.selectedEndTime == s.selectedEndTime
  {
    match EndAfterStart(newStart)
    case SetEnd(t) => s.(selectedTime := newStart, selectedEndTime := t)
    case _ => s.(selectedTime := newStart)
  }

  /** The column options. */
  const ColumnOptions: seq<int> := [1, 2, 3, 4, 5]

  /** The column `onChange`: `setColumnId(Number(e.target.value))`. */
  function ChangeColumn(s: FormState, value: string): (r: FormState)
    ensures r == s.(columnId := Number(value))
  {
    s.(columnId := Number(value))
  }

  /** Picking the option for column c sets the column to c. */
  lemma ColumnOptionChosen(s: FormState, c: int)
    requires c in ColumnOptions
    ensures ChangeColumn(s, NatToString(c)).columnId == Fin(c)
  {
    DigitsValueOfNatToString(c);
    NumberOfDigits(NatToString(c));
  }

  // ---------------------------------------------------------------- create customer

  /** The body `mutateAsync` receives when creating a customer. */
  datatype NewCustomer = NewCustomer(fullName: string, phoneNumber: string, salon: int)

  /** `!newCustomerName || !newCustomerPhone || !user?.salon`: the create handler returns at once. */
  predicate CreateCustomerBlocked(s: FormState, user: Option<User>) {
    s.newCustomerName == "" || s.newCustomerPhone == "" || !HasSalon(user)
  }

  /** The request the create handler sends, when it sends one. */
  function CreateCustomerRequest(s: FormState, user: Option<User>): (r: Option<NewCustomer>)
    ensures r.None? <==> CreateCustomerBlocked(s, user)
    ensures r.Some? ==> r.value == NewCustomer(s.newCustomerName, s.newCustomerPhone, user.value.salon.value)
  {
    if CreateCustomerBlocked(s, user) then None
    else Some(NewCustomer(s.newCustomerName, s.newCustomerPhone, user.value.salon.value))
  }

  /**
   * `handleCreateCustomer` once the request settles: `created` is the customer
   * the server returned, or `None` when the request failed.
   */
  function AfterCreateCustomer(s: FormState, user: Option<User>, created: Option<Customer>): (r: FormState)
    ensures CreateCustomerBlocked(s, user) ==> r == s
    ensures !CreateCustomerBlocked(s, user) && created.Some? ==>
      r == s.(selectedCustomer := created, showNewCustomerForm := false, newCustomerName := "",
              newCustomerPhone := "", alert := Alert(true, Success, "Created user successfully."))
    ensures !CreateCustomerBlocked(s, user) && created.None? ==>
      r == s.(alert := Alert(true, Error, "Failed to create a customer."))
  {
    if CreateCustomerBlocked(s, user) then s
    else if created.Some? then
      var t := s.(selectedCustomer := created, showNewCustomerForm := false, newCustomerName := "", newCustomerPhone := "");
      ShowAlert(t, Success, "Created user successfully.")
    else ShowAlert(s, Error, "Failed to create a customer.")
  }

  // ---------------------------------------------------------------- submit

  /** The appointment payload; `salon` and `user` are copied even when absent. */
  datatype Payload = Payload(
    salon: Option<int>, user: Option<int>, appointmentTime: string, endTime: string,
    customer: int, comment: string, columnId: Num)

  /** `${selectedDate}T${time}:00Z`. */
  function DateTime(date: string, time: string): (r: string)
    ensures |r| == |date| + |time| + 5
    ensures r[..|date|] == date && r[|date|] == 'T'
    ensures r[|date| + 1..|r| - 4] == time && r[|r| - 4..] == ":00Z"
  {
    date + "T" + time + ":00Z"
  }

  /** The date and the time are recovered by splitting at 'T' and dropping the ":00Z". */
  lemma DateTimeSplits(date: string, time: string)
    requires 'T' !in date && 'T' !in time
    ensures Split(DateTime(date, time), 'T') == [date, time + ":00Z"]
    ensures var second := Split(DateTime(date, time), 'T')[1]; second[..|second| - 4] == time
  {
    assert 'T' !in time + ":00Z";
    assert DateTime(date, time) == date + ['T'] + (time + ":00Z");
    SplitTwo(date, time + ":00Z", 'T');
  }

  /** `!selectedCustomer || !user`: the submit handler shows an error and returns. */
  predicate SubmitBlocked(s: FormState, user: Option<User>) {
    s.selectedCustomer.None? || user.None?
  }

  /** The payload built from the form and the signed-in user. */
  function PayloadOf(s: FormState, user: User, customer: Customer): (p: Payload)
    ensures p.appointmentTime == DateTime(s.selectedDate, s.selectedTime)
    ensures p.endTime == DateTime(s.selectedDate, s.selectedEndTime)
    ensures p.salon == user.salon && p.user == user.id && p.customer == customer.id
    ensures p.comment == s.comment && p.columnId == s.columnId
  {
    Payload(user.salon, user.id, DateTime(s.selectedDate, s.selectedTime),
      DateTime(s.selectedDate, s.selectedEndTime), customer.id, s.comment, s.columnId)
  }

  /** What `handleSubmit` sends, and the form and the scheduled close afterwards. */
  datatype SubmitResult = SubmitResult(state: FormState, sent: Option<Payload>, closeScheduled: bool)

  /** `handleSubmit`, with the create request's outcome as `created`. */
  function Submit(s: FormState, user: Option<User>, created: bool): (r: SubmitResult)
    ensures r.sent.None? <==> SubmitBlocked(s, user)
    ensures r.sent.Some? ==> r.sent.value == PayloadOf(s, user.value, s.selectedCustomer.value)
    ensures SubmitBlocked(s, user) ==>
      r.state == ShowAlert(s, Error, "Please select a customer") && !r.closeScheduled
    ensures !SubmitBlocked(s, user) && created ==>
      r.state == ShowAlert(s, Success, "Appointment created successfully!") && r.closeScheduled
    ensures !SubmitBlocked(s, user) && !created ==>
      r.state == ShowAlert(s, Error, "Failed to create appointment") && !r.closeScheduled
  {
    if SubmitBlocked(s, user) then SubmitResult(ShowAlert(s, Error, "Please select a customer"), None, false)
    else
      var p := PayloadOf(s, user.value, s.selectedCustomer.value);
      if created then SubmitResult(ShowAlert(s, Success, "Appointment created successfully!"), Some(p), true)
      else SubmitResult(ShowAlert(s, Error, "Failed to create appointment"), Some(p), false)
  }

  /** Nothing compares the two times: an end before the start is sent as it is. */
  lemma EndBeforeStartIsSent(s: FormState, user: User, c: Customer)
    requires s.selectedCustomer == Some(c) && s.selectedTime == "10:00" && s.selectedEndTime == "09:00"
    ensures var r := Submit(s, Some(user), true);
      r.sent.Some? && r.sent.value.appointmentTime == DateTime(s.selectedDate, "10:00") &&
      r.sent.value.endTime == DateTime(s.selectedDate, "09:00")
  {
  }

  // ---------------------------------------------------------------- the component

  /** The text inputs of the form, each set straight from its `onChange`. */
  datatype TextField = DateField | EndTimeField | CommentField | NameField | PhoneField

  function Edit(s: FormState, field: TextField, value: string): (r: FormState)
    ensures field == DateField ==> r == s.(selectedDate := value)
    ensures field == EndTimeField ==> r == s.(selectedEndTime := value)
    ensures field == CommentField ==> r == s.(comment := value)
    ensures field == NameField ==> r == s.(newCustomerName := value)
    ensures field == PhoneField ==> r == s.(newCustomerPhone := value)
  {
    match field
    case DateField => s.(selectedDate := value)
    case EndTimeField => s.(selectedEndTime := value)
    case CommentField => s.(comment := value)
    case NameField => s.(newCustomerName := value)
    case PhoneField => s.(newCustomerPhone := value)
  }

  /** One mounted form, with the appointment store it opens and closes. */
  class Form {
    var selectedCustomer: Option<Customer>
    var showNewCustomerForm: bool
    var selectedDate: string
    var selectedTime: string
    var selectedEndTime: string
    var comment: string
    var columnId: Num
    var newCustomerName: string
    var newCustomerPhone: string
    var alert: Alert
    const store: AppointmentStore.Store

    function Snapshot(): FormState
      reads this
    {
      FormState(selectedCustomer, showNewCustomerForm, selectedDate, selectedTime, selectedEndTime,
        comment, columnId, newCustomerName, newCustomerPhone, alert)
    }

    constructor (store: AppointmentStore.Store, today: string)
      ensures this.store == store
      ensures Snapshot() == Initial(today, AppointmentStore.SelectedColumnId(store.Snapshot()))
    {
      this.store := store;
      selectedCustomer, showNewCustomerForm := None, false;
      selectedDate, selectedTime, selectedEndTime := today, "09:00", "10:00";
      comment, columnId := "", Fin(1);
      newCustomerName, newCustomerPhone := "", "";
      alert := HiddenAlert;
    }

    /** `handleClose`: closes the form in the store and resets every field. */
    method HandleClose(today: string)
      modifies this, store
      ensures Snapshot() == Reset(old(Snapshot()), today)
      ensures store.Snapshot() == AppointmentStore.SetFormOpen(old(store.Snapshot()), false)
    {
      store.SetAppointmentFormOpen(false);
      selectedCustomer, showNewCustomerForm := None, false;
      selectedDate, selectedTime, selectedEndTime := today, "09:00", "10:00";
      comment, columnId := "", Fin(1);
      newCustomerName, newCustomerPhone := "", "";
      alert := HiddenAlert;
    }

    /** The start-time `onChange`. */
    method ChangeStartTime(newStart: string)
      modifies this
      ensures Snapshot() == ChangeStart(old(Snapshot()), newStart)
    {
      var next := ChangeStart(Snapshot(), newStart);
      selectedTime, selectedEndTime := next.selectedTime, next.selectedEndTime;
    }

    /** The "Add new customer" / "Cancel new customer" button. */
    method ToggleNewCustomerForm()
      modifies this
      ensures Snapshot() == old(Snapshot()).(showNewCustomerForm := !old(showNewCustomerForm))
    {
      showNewCustomerForm := !showNewCustomerForm;
    }

    /** The alert's dismiss button. */
    method DismissAlert()
      modifies this
      ensures Snapshot() == old(Snapshot()).(alert := HiddenAlert)
    {
      alert := HiddenAlert;
    }

    /** `onCustomerChange={setSelectedCustomer}`. */
    method OnCustomerChange(c: Option<Customer>)
      modifies this
      ensures Snapshot() == old(Snapshot()).(selectedCustomer := c)
    {
      selectedCustomer := c;
    }

    /** The `onChange` of a text input: date, end time, comment, or the new customer's name or phone. */
    method OnTextInput(field: TextField, value: string)
      modifies this
      ensures Snapshot() == Edit(old(Snapshot()), field, value)
    {
      match field
      case DateField => selectedDate := value;
      case EndTimeField => selectedEndTime := value;
      case CommentField => comment := value;
      case NameField => newCustomerName := value;
      case PhoneField => newCustomerPhone := value;
    }

    /** The column select's `onChange`. */
    method OnColumnChange(value: string)
      modifies this
      ensures Snapshot() == ChangeColumn(old(Snapshot()), value)
    {
      columnId := Number(value);
    }

    /** `handleCreateCustomer`, given the request's outcome. */
    method HandleCreateCustomer(user: Option<User>, created: Option<Customer>) returns (request: Option<NewCustomer>)
      modifies this
      ensures request == CreateCustomerRequest(old(Snapshot()), user)
      ensures Snapshot() == AfterCreateCustomer(old(Snapshot()), user, created)
    {
      request := CreateCustomerRequest(Snapshot(), user);
      if request.None? {
        return;
      }
      if created.Some? {
        selectedCustomer := created;
        showNewCustomerForm := false;
        newCustomerName := "";
        newCustomerPhone := "";
        alert := Alert(true, Success, "Created user successfully.");
      } else {
        alert := Alert(true, Error, "Failed to create a customer.");
      }
    }

    /** `handleSubmit`, given the create request's outcome; the delayed close is reported, not run. */
    method HandleSubmit(user: Option<User>, created: bool) returns (sent: Option<Payload>, closeScheduled: bool)
      modifies this
      ensures var r := Submit(old(Snapshot()), user, created);
        sent == r.sent && closeScheduled == r.closeScheduled && Snapshot() == r.state
    {
      if selectedCustomer.None? || user.None? {
        alert := Alert(true, Error, "Please select a customer");
        return None, false;
      }
      sent := Some(PayloadOf(Snapshot(), user.value, selectedCustomer.value));
      if created {
        alert := Alert(true, Success, "Appointment created successfully!");
        closeScheduled := true;
      } else {
        alert := Alert(true, Error, "Failed to create appointment");
        closeScheduled := false;
      }
    }
  }
}
