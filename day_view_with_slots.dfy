/**
 * The day grid: 14 hour rows from 07:00 to 21:00, each split into four
 * 15-minute grid rows (56 in all). Every appointment whose start hour is
 * inside business hours is placed at the row of its start time and spans
 * up to the row of its end time; the others are dropped. Colours cycle by
 * the appointment's position in the list it was given.
 */
module DayViewWithSlots {
  import opened Js
  import opened Clock
  import opened AppointmentSlot

  /** The appointment shape the day view receives; `date` is optional. */
  datatype Appointment = Appointment(id: string, date: Option<string>, startTime: string, endTime: string, title: string)

  /** One rendered `<li>`: the position of its appointment in the input, and what it shows. */
  datatype Slot = Slot(
    index: nat, id: string, startRow: Num, span: Num,
    color: Color, title: string, dateTime: string, timeText: string)

  /** `startHour < 7 || startHour >= 21`; a NaN hour passes neither test. */
  predicate OutsideBusinessHours(h: Num)
    ensures OutsideBusinessHours(h) <==> h.Fin? && !(7 <= h.v < 21)
  {
    h.LessThan(7) || h.AtLeast(21)
  }

  /** `((h - 7) * 4) + Math.floor(m / 15) + 1`; Dafny's `/` by 15 is the floor. */
  function Row(h: Num, m: Num): (r: Num)
    ensures r.Fin? <==> h.Fin? && m.Fin?
    ensures r.Fin? ==> r.v == Quarter(h.v, m.v) - Quarter(7, 0) + 1
  {
    if h.Fin? && m.Fin? then Fin((h.v - 7) * 4 + m.v / 15 + 1) else NaN
  }

  /** `endRow - startRow`, with no clamping. */
  function Span(startRow: Num, endRow: Num): (r: Num)
    ensures r.Fin? <==> startRow.Fin? && endRow.Fin?
    ensures r.Fin? ==> startRow.v + r.v == endRow.v
  {
    if startRow.Fin? && endRow.Fin? then Fin(endRow.v - startRow.v) else NaN
  }

  /** The `gridRow` style of a slot: `${startRow} / span ${span}`. */
  function GridRowText(s: Slot): string {
    NumToString(s.startRow) + " / span " + NumToString(s.span)
  }

  /** A signed decimal holds no space. */
  lemma IntToStringHasNoSpace(n: int)
    ensures ' ' !in IntToString(n)
  {
    var d := NatToString(if n < 0 then -n else n);
    assert forall i :: 0 <= i < |d| ==> d[i] != ' ';
    if n < 0 {
      assert IntToString(n) == ['-'] + d;
    }
  }

  /** Read at its spaces, the `gridRow` text gives back the start row and the span it was written from. */
  lemma GridRowReadsBack(s: Slot)
    requires s.startRow.Fin? && s.span.Fin?
    ensures var parts := Split(GridRowText(s), ' ');
      |parts| == 4 && parts[1] == "/" && parts[2] == "span" &&
      ParseInt(parts[0]) == s.startRow && ParseInt(parts[3]) == s.span
  {
    var a, b := IntToString(s.startRow.v), IntToString(s.span.v);
    var parts := [a, "/", "span", b];
    IntToStringHasNoSpace(s.startRow.v);
    IntToStringHasNoSpace(s.span.v);
    assert Join(parts, " ") == a + " / span " + b by {
      assert Join(parts[2..], " ") == "span " + b;
    }
    assert " " == [' '];
    JoinSplit(parts, ' ');
    ParseIntOfIntToString(s.startRow.v);
    ParseIntOfIntToString(s.span.v);
  }

  predicate Dropped(apt: Appointment) {
    OutsideBusinessHours(ClockParts(apt.startTime).0)
  }

  /** `apt.date || selectedDate`: an absent or empty date falls back to the selected one. */
  function SlotDate(apt: Appointment, selectedDate: string): string {
    if apt.date.Some? && apt.date.value != "" then apt.date.value else selectedDate
  }

  /** The slot of an appointment whose start and end have been read as hours and minutes. */
  function SlotFromParts(apt: Appointment, index: nat, selectedDate: string, sh: Num, sm: Num, eh: Num, em: Num): (r: Option<Slot>)
    ensures r.None? <==> OutsideBusinessHours(sh)
    ensures r.Some? ==> r.value.index == index && r.value.color == Palette[index % 8]
    ensures r.Some? ==> r.value.startRow == Row(sh, sm) && r.value.span == Span(Row(sh, sm), Row(eh, em))
  {
    if OutsideBusinessHours(sh) then None
    else
      var startRow := Row(sh, sm);
      var span := Span(startRow, Row(eh, em));
      Some(Slot(index, apt.id, startRow, span, GetColorScheme(index), apt.title, SlotDate(apt, selectedDate) + "T" + apt.startTime, apt.startTime))
  }

  /** The callback of `appointments.map((apt, index) => ...)`. */
  function SlotOf(apt: Appointment, index: nat, selectedDate: string): (r: Option<Slot>)
    ensures r.None? <==> Dropped(apt)
    ensures r.Some? ==> r.value.index == index && r.value.color == Palette[index % 8]
  {
    var (sh, sm) := ClockParts(apt.startTime);
    var (eh, em) := ClockParts(apt.endTime);
    SlotFromParts(apt, index, selectedDate, sh, sm, eh, em)
  }

  /** The `map` result before `null` entries are dropped: one entry per appointment. */
  function Mapped(apts: seq<Appointment>, selectedDate: string): (opts: seq<Option<Slot>>)
    ensures |opts| == |apts|
    ensures forall i :: 0 <= i < |apts| ==> opts[i] == SlotOf(apts[i], i, selectedDate)
  {
    seq(|apts|, i requires 0 <= i < |apts| => SlotOf(apts[i], i, selectedDate))
  }

  /** The positions of the present entries of `opts[from..]`, ascending. */
  function Kept<T>(opts: seq<Option<T>>, from: nat): (ks: seq<nat>)
    requires from <= |opts|
    ensures forall j :: 0 <= j < |ks| ==> from <= ks[j] < |opts| && opts[ks[j]].Some?
    ensures forall j, k :: 0 <= j < k < |ks| ==> ks[j] < ks[k]
    decreases |opts| - from
  {
    if from == |opts| then []
    else
      var rest := Kept(opts, from + 1);
      if opts[from].Some? then [from] + rest else rest
  }

  /** Every present entry of `opts[from..]` is kept. */
  lemma {:induction false} KeptComplete<T>(opts: seq<Option<T>>, from: nat, i: nat)
    requires from <= i < |opts| && opts[i].Some?
    ensures i in Kept(opts, from)
    decreases |opts| - from
  {
    if from < i {
      KeptComplete(opts, from + 1, i);
    }
  }

  /** Some slot of `r` comes from input position `i`. */
  predicate HasIndex(r: seq<Slot>, i: int) {
    exists j :: 0 <= j < |r| && r[j].index == i
  }

  /** The slots at the kept positions, in order. */
  function Pick(opts: seq<Option<Slot>>, ks: seq<nat>): (r: seq<Slot>)
    requires forall j :: 0 <= j < |ks| ==> ks[j] < |opts| && opts[ks[j]].Some?
    ensures |r| == |ks| && forall j :: 0 <= j < |ks| ==> Some(r[j]) == opts[ks[j]]
  {
    seq(|ks|, j requires 0 <= j < |ks| => opts[ks[j]].value)
  }

  /** Each slot shown is the slot of the appointment at its own index. */
  lemma LayoutCorrespondence(apts: seq<Appointment>, selectedDate: string)
    ensures var opts := Mapped(apts, selectedDate);
      var r := Pick(opts, Kept(opts, 0));
      forall j :: 0 <= j < |r| ==>
        r[j].index < |apts| && SlotOf(apts[r[j].index], r[j].index, selectedDate) == Some(r[j])
  {
    var opts := Mapped(apts, selectedDate);
    var ks := Kept(opts, 0);
    var r := Pick(opts, ks);
    forall j | 0 <= j < |r|
      ensures r[j].index == ks[j]
    {
      assert opts[ks[j]] == SlotOf(apts[ks[j]], ks[j], selectedDate);
    }
  }

  /** Every appointment with a slot has it shown. */
  lemma LayoutComplete(apts: seq<Appointment>, selectedDate: string, i: nat)
    requires i < |apts| && SlotOf(apts[i], i, selectedDate).Some?
    ensures var opts := Mapped(apts, selectedDate);
      HasIndex(Pick(opts, Kept(opts, 0)), i)
  {
    var opts := Mapped(apts, selectedDate);
    var ks := Kept(opts, 0);
    var r := Pick(opts, ks);
    KeptComplete(opts, 0, i);
    var j :| 0 <= j < |ks| && ks[j] == i;
    assert Some(r[j]) == SlotOf(apts[i], i, selectedDate);
  }

  /**
   * The `<li>` elements of the grid: the slot of every appointment that is not
   * dropped, in input order, each at its own input position.
   */
  function Layout(apts: seq<Appointment>, selectedDate: string): (r: seq<Slot>)
    ensures forall j :: 0 <= j < |r| ==>
      r[j].index < |apts| && SlotOf(apts[r[j].index], r[j].index, selectedDate) == Some(r[j])
    ensures forall j, k :: 0 <= j < k < |r| ==> r[j].index < r[k].index
    ensures forall i :: 0 <= i < |apts| ==> (SlotOf(apts[i], i, selectedDate).Some? <==> HasIndex(r, i))
  {
    var opts := Mapped(apts, selectedDate);
    LayoutCorrespondence(apts, selectedDate);
    forall i | 0 <= i < |apts| && SlotOf(apts[i], i, selectedDate).Some? {
      LayoutComplete(apts, selectedDate, i);
    }
    Pick(opts, Kept(opts, 0))
  }

  /** An appointment is shown exactly when its start hour is not outside business hours. */
  lemma ShownIffNotDropped(apts: seq<Appointment>, selectedDate: string, i: nat)
    requires i < |apts|
    ensures !Dropped(apts[i]) <==> HasIndex(Layout(apts, selectedDate), i)
  {
    var _ := SlotOf(apts[i], i, selectedDate);
  }

  /** A slot's `dateTime` is its appointment's own date when that is non-empty, otherwise the selected date, then 'T' and the start time. */
  lemma SlotDateTime(apt: Appointment, index: nat, selectedDate: string)
    requires !Dropped(apt)
    ensures var s := SlotOf(apt, index, selectedDate).value;
      (apt.date.Some? && apt.date.value != "" ==> s.dateTime == apt.date.value + "T" + apt.startTime) &&
      (apt.date.None? || apt.date.value == "" ==> s.dateTime == selectedDate + "T" + apt.startTime)
  {
    SlotOfReads(apt, index, selectedDate);
  }

  // ---------------------------------------------------------------- hour labels

  /** `Array.from({ length: 14 }, (_, i) => i + 7)`. */
  function Hours(): (hs: seq<int>)
    ensures |hs| == 14 && forall i :: 0 <= i < 14 ==> hs[i] == i + 7
  {
    seq(14, i => i + 7)
  }

  /** `formatTime(hour)`: a 12-hour label. */
  function FormatTime(hour: int): (r: string)
    ensures 0 <= hour < 24 ==> |r| > 3 && r[|r| - 3..] == (if hour < 12 then " AM" else " PM")
  {
    if hour == 0 then
      "12 AM"
    else if hour == 12 then
      "12 PM"
    else if hour > 12 then
      LabelReads(hour - 12, " PM"); IntToString(hour - 12) + " PM"
    else
      LabelReads(hour, " AM"); IntToString(hour) + " AM"
  }

  /** A label reads back as the hour on a twelve-hour clock, 12 for midnight and noon. */
  lemma FormatTimeReads(hour: int)
    requires 0 <= hour < 24
    ensures var r := FormatTime(hour);
      ParseInt(r[..|r| - 3]) == Fin(if hour % 12 == 0 then 12 else hour % 12)
  {
    var n := if hour % 12 == 0 then 12 else hour % 12;
    var suffix := if hour < 12 then " AM" else " PM";
    assert FormatTime(hour) == IntToString(n) + suffix by {
      if hour == 0 || hour == 12 {
        TwelveText();
      }
    }
    LabelReads(n, suffix);
  }

  /** The two midnight-and-noon labels, read as the number twelve and a suffix. */
  lemma TwelveText()
    ensures "12 AM" == IntToString(12) + " AM"
    ensures "12 PM" == IntToString(12) + " PM"
  {
    assert IntToString(12) == "12";
  }

  /** A number followed by a three-letter suffix reads back once the suffix is cut off. */
  lemma LabelReads(n: int, suffix: string)
    requires |suffix| == 3
    ensures var r := IntToString(n) + suffix;
      |r| > 3 && r[|r| - 3..] == suffix && ParseInt(r[..|r| - 3]) == Fin(n)
  {
    var d := IntToString(n);
    assert |d| > 0 by {
      if n < 0 {
        assert d[0] == '-';
      }
    }
    assert (d + suffix)[..|d|] == d;
    ParseIntOfIntToString(n);
  }

  /** The label of every grid hour, 7 to 20. */
  lemma HourLabels(hour: int)
    requires 7 <= hour <= 20
    ensures hour < 12 ==> FormatTime(hour) == NatToString(hour) + " AM"
    ensures hour == 12 ==> FormatTime(hour) == "12 PM"
    ensures hour > 12 ==> FormatTime(hour) == NatToString(hour - 12) + " PM"
  {
  }

  /** Different grid hours get different labels. */
  lemma HourLabelsDistinct(a: int, b: int)
    requires 7 <= a <= 20 && 7 <= b <= 20 && a != b
    ensures FormatTime(a) != FormatTime(b)
  {
    if FormatTime(a) == FormatTime(b) {
      var la, lb := FormatTime(a), FormatTime(b);
      var pa := if a >= 12 then (if a == 12 then 12 else a - 12) else a;
      var pb := if b >= 12 then (if b == 12 then 12 else b - 12) else b;
      assert la[|la| - 2] == (if a >= 12 then 'P' else 'A');
      assert lb[|lb| - 2] == (if b >= 12 then 'P' else 'A');
      assert (a >= 12) == (b >= 12);
      assert la[..|la| - 3] == NatToString(pa);
      assert lb[..|lb| - 3] == NatToString(pb);
      DigitsValueOfNatToString(pa);
      DigitsValueOfNatToString(pb);
      assert false;
    }
  }

  // ---------------------------------------------------------------- rows and spans

  /** Within business hours the start row lies on the 56-row grid. */
  lemma StartRowInGrid(h: int, m: int)
    requires 7 <= h < 21 && 0 <= m < 60
    ensures Row(Fin(h), Fin(m)).Fin? && 1 <= Row(Fin(h), Fin(m)).v <= 56
  {
  }

  /** The quarter-hour a time falls in, counted from midnight. */
  function Quarter(h: int, m: int): int {
    h * 4 + m / 15
  }

  /** Rows are quarter-hours shifted so that 07:00 is row 1. */
  lemma RowIsQuarter(h: int, m: int)
    ensures Row(Fin(h), Fin(m)) == Fin(Quarter(h, m) - 27)
  {
  }

  /** A later start never gets an earlier row. */
  lemma {:induction false} StartRowMonotone(h1: int, m1: int, h2: int, m2: int)
    requires 0 <= m1 < 60 && 0 <= m2 < 60
    requires Minutes(h1, m1) <= Minutes(h2, m2)
    ensures Row(Fin(h1), Fin(m1)).v <= Row(Fin(h2), Fin(m2)).v
  {
    QuarterMonotone(h1, m1, h2, m2);
  }

  lemma QuarterMonotone(h1: int, m1: int, h2: int, m2: int)
    requires 0 <= m1 < 60 && 0 <= m2 < 60
    requires Minutes(h1, m1) <= Minutes(h2, m2)
    ensures Quarter(h1, m1) <= Quarter(h2, m2)
  {
    if h1 < h2 {
      assert m1 / 15 <= 3 && m2 / 15 >= 0;
    } else {
      assert h1 == h2 && m1 <= m2;
    }
  }

  /** The span is the number of quarter-hour boundaries between start and end. */
  lemma SpanIsQuarterDifference(sh: int, sm: int, eh: int, em: int)
    ensures Span(Row(Fin(sh), Fin(sm)), Row(Fin(eh), Fin(em))) == Fin(Quarter(eh, em) - Quarter(sh, sm))
  {
  }

  /** An end no earlier than the start gives a span of at least 0 ... */
  lemma SpanNonNegative(sh: int, sm: int, eh: int, em: int)
    requires 0 <= sm < 60 && 0 <= em < 60 && Minutes(sh, sm) <= Minutes(eh, em)
    ensures Span(Row(Fin(sh), Fin(sm)), Row(Fin(eh), Fin(em))).v >= 0
  {
    QuarterMonotone(sh, sm, eh, em);
  }

  /** ... exactly 0 when both fall in the same quarter-hour ... */
  lemma SpanZeroInSameQuarter(sh: int, sm: int, eh: int, em: int)
    requires Quarter(sh, sm) == Quarter(eh, em)
    ensures Span(Row(Fin(sh), Fin(sm)), Row(Fin(eh), Fin(em))) == Fin(0)
  {
  }

  /** ... and negative when the end falls in an earlier quarter-hour. */
  lemma SpanNegative(sh: int, sm: int, eh: int, em: int)
    requires Quarter(eh, em) < Quarter(sh, sm)
    ensures Span(Row(Fin(sh), Fin(sm)), Row(Fin(eh), Fin(em))).v < 0
  {
  }

  // ---------------------------------------------------------------- whole appointments

  /** `SlotOf` reads both times and lays out what it read. */
  lemma SlotOfReads(apt: Appointment, index: nat, selectedDate: string)
    ensures var (sh, sm) := ClockParts(apt.startTime);
      var (eh, em) := ClockParts(apt.endTime);
      SlotOf(apt, index, selectedDate) == SlotFromParts(apt, index, selectedDate, sh, sm, eh, em)
  {
  }

  /** An appointment whose start reads as an hour inside business hours is placed, on the grid. */
  lemma PlacedWhenInBusinessHours(apt: Appointment, index: nat, selectedDate: string, h: int, m: int)
    requires ClockParts(apt.startTime) == (Fin(h), Fin(m)) && 7 <= h < 21 && 0 <= m < 60
    ensures SlotOf(apt, index, selectedDate).Some?
    ensures 1 <= SlotOf(apt, index, selectedDate).value.startRow.v <= 56
  {
    SlotOfReads(apt, index, selectedDate);
    StartRowInGrid(h, m);
  }

  /** An appointment whose start reads as an hour before 7 or from 21 on is dropped. */
  lemma DroppedOutsideBusinessHours(apt: Appointment, h: int, m: int)
    requires ClockParts(apt.startTime) == (Fin(h), Fin(m)) && (h < 7 || h >= 21)
    ensures Dropped(apt)
  {
  }

  /** A start time that is not a number is never dropped: both hour tests fail on NaN. */
  lemma UnreadableStartIsKept(apt: Appointment)
    requires ClockParts(apt.startTime).0 == NaN
    ensures !Dropped(apt)
  {
  }

  /** The slot of a placed appointment: row and span from the times read. */
  lemma SlotOfReadTimes(apt: Appointment, index: nat, selectedDate: string, sh: int, sm: int, eh: int, em: int)
    requires ClockParts(apt.startTime) == (Fin(sh), Fin(sm)) && ClockParts(apt.endTime) == (Fin(eh), Fin(em))
    requires 7 <= sh < 21
    ensures var s := SlotOf(apt, index, selectedDate);
      s.Some? && s.value.startRow == Fin(Quarter(sh, sm) - 27) &&
      s.value.span == Fin(Quarter(eh, em) - Quarter(sh, sm))
  {
    SlotOfReads(apt, index, selectedDate);
    RowIsQuarter(sh, sm);
    RowIsQuarter(eh, em);
  }

  /** An appointment read as 09:00 to 10:00 (as "09:00" and "10:00" are, by `ClockRoundTrip`) starts on row 9 and spans 4 rows. */
  lemma NineToTen(apt: Appointment)
    requires ClockParts(apt.startTime) == (Fin(9), Fin(0)) && ClockParts(apt.endTime) == (Fin(10), Fin(0))
    ensures var s := SlotOf(apt, 0, "");
      s.Some? && s.value.startRow == Fin(9) && s.value.span == Fin(4)
  {
    SlotOfReadTimes(apt, 0, "", 9, 0, 10, 0);
  }

  /** An appointment read as 09:00 to 09:10 stays within one quarter-hour: its span is 0, not 1. */
  lemma ShortAppointmentSpansZero(apt: Appointment)
    requires ClockParts(apt.startTime) == (Fin(9), Fin(0)) && ClockParts(apt.endTime) == (Fin(9), Fin(10))
    ensures var s := SlotOf(apt, 0, "");
      s.Some? && s.value.startRow == Fin(9) && s.value.span == Fin(0)
  {
    assert Quarter(9, 10) == 36;
    SlotOfReadTimes(apt, 0, "", 9, 0, 9, 10);
  }

  /** Slots sorted by position sit no earlier in the list than their position allows. */
  lemma {:induction false} IndexAtLeastPlace(r: seq<Slot>)
    requires forall j, k :: 0 <= j < k < |r| ==> r[j].index < r[k].index
    ensures forall j :: 0 <= j < |r| ==> r[j].index >= j
  {
    if |r| > 0 {
      IndexAtLeastPlace(r[..|r| - 1]);
      assert forall j :: 0 <= j < |r| - 1 ==> r[..|r| - 1][j] == r[j];
      if |r| > 1 {
        assert r[|r| - 2].index < r[|r| - 1].index;
      }
    }
  }

  /**
   * A dropped appointment still uses up its position: the `j`-th slot shown
   * belongs to input position `j` or later and takes that position's colour.
   */
  lemma ColourFollowsInputPosition(apts: seq<Appointment>, selectedDate: string, j: nat)
    requires j < |Layout(apts, selectedDate)|
    ensures var s := Layout(apts, selectedDate)[j];
      s.index >= j && s.color == Palette[s.index % 8]
  {
    IndexAtLeastPlace(Layout(apts, selectedDate));
  }

  /** When every entry is present, every position is kept, in order. */
  lemma {:induction false} KeptAll<T>(opts: seq<Option<T>>, from: nat)
    requires from <= |opts|
    requires forall i :: from <= i < |opts| ==> opts[i].Some?
    ensures |Kept(opts, from)| == |opts| - from
    ensures forall j :: 0 <= j < |opts| - from ==> Kept(opts, from)[j] == from + j
    decreases |opts| - from
  {
    if from < |opts| {
      KeptAll(opts, from + 1);
      var rest := Kept(opts, from + 1);
      var ks := Kept(opts, from);
      assert ks == [from] + rest;
      forall j | 0 < j < |opts| - from
        ensures ks[j] == from + j
      {
        assert ks[j] == rest[j - 1];
      }
    }
  }

  /** When no appointment is dropped, the grid shows every one of them, in input order. */
  lemma NothingDropped(apts: seq<Appointment>, selectedDate: string)
    requires forall i :: 0 <= i < |apts| ==> !Dropped(apts[i])
    ensures |Layout(apts, selectedDate)| == |apts|
    ensures forall j :: 0 <= j < |apts| ==> Some(Layout(apts, selectedDate)[j]) == SlotOf(apts[j], j, selectedDate)
  {
    KeptAll(Mapped(apts, selectedDate), 0);
  }
}
