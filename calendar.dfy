/** The personal calendar (src/components/CalendarView.jsx): the month grid,
    month navigation, the range of the events request, the events of a day
    and the add-event form. Dates are `GregorianDates.CalDate` values in local
    time; the remote calendar service is a parameter. */
module CalendarView {
  import opened Wrappers
  import opened GregorianDates

  // ---------------------------------------------------------------------
  // The month grid
  // ---------------------------------------------------------------------

  /** `k` empty cells. */
  function Blanks(k: nat): (cells: seq<Option<CalDate>>)
    ensures |cells| == k && forall i :: 0 <= i < k ==> cells[i] == None
  {
    seq(k, i => None)
  }

  /** The cells of days 1 to `k` of month `m` of year `y`, in order. */
  function MonthDays(y: int, m: int, k: nat): (cells: seq<Option<CalDate>>)
    ensures |cells| == k && forall i :: 0 <= i < k ==> cells[i] == Some(CalDate(y, m, i + 1))
  {
    seq(k, i requires 0 <= i < k => Some(CalDate(y, m, i + 1)))
  }

  /** The weekday on which month `month` of `year` (as `new Date` reads
      the year) starts. */
  function StartWeekday(year: int, month: int): (w: int)
    requires 0 <= month < 12
    ensures 0 <= w < 7
    ensures w == DayOfWeek(MakeMonth(year, month))
  {
    MakeMonthInYear(year, month);
    DayOfWeek(CalDate(DateYear(year), month, 1))
  }

  /** The grid for the month shown, in Gregorian terms: one empty cell per
      weekday before the first, then the month's days. */
  function MonthGrid(year: int, month: int): seq<Option<CalDate>>
    requires 0 <= month < 12
  {
    Blanks(StartWeekday(year, month)) + MonthDays(DateYear(year), month, DaysInMonth(DateYear(year), month))
  }

  /** Empty cells then days, laid out cell by cell. */
  lemma CellsAt(s: nat, y: int, m: int, n: nat)
    ensures var g := Blanks(s) + MonthDays(y, m, n);
      |g| == s + n &&
      forall i :: 0 <= i < s + n ==> g[i] == if i < s then None else Some(CalDate(y, m, i - s + 1))
  {
    var g, b, c := Blanks(s) + MonthDays(y, m, n), Blanks(s), MonthDays(y, m, n);
    forall i | 0 <= i < s + n ensures g[i] == if i < s then None else Some(CalDate(y, m, i - s + 1)) {
      if i >= s {
        assert g[i] == c[i - s];
      }
    }
  }

  /** `lastDay.getDate()` is the Gregorian length of the month shown. */
  lemma GridDayCount(year: int, month: int)
    requires 0 <= month < 12
    ensures LastOfMonth(year, month).day == DaysInMonth(DateYear(year), month)
  {
  }

  /** The grid has one cell per weekday before the first and one per day of
      the month, 28 to 31 of them: at most 37 cells. */
  lemma GridLength(year: int, month: int)
    requires 0 <= month < 12
    ensures |MonthGrid(year, month)| == StartWeekday(year, month) + DaysInMonth(DateYear(year), month)
    ensures |MonthGrid(year, month)| <= 37
  {
  }

  /** The grid is `StartWeekday` empty cells followed by days 1, 2, ... of
      the month, in increasing order. */
  lemma GridCells(year: int, month: int)
    requires 0 <= month < 12
    ensures forall i :: 0 <= i < |MonthGrid(year, month)| ==>
      MonthGrid(year, month)[i] ==
        if i < StartWeekday(year, month) then None
        else Some(CalDate(DateYear(year), month, i - StartWeekday(year, month) + 1))
  {
    GridShape(StartWeekday(year, month), DateYear(year), month, DaysInMonth(DateYear(year), month), MonthGrid(year, month));
  }

  /** A grid made of `s` blanks and `n` days, cell by cell. */
  lemma GridShape(s: nat, y: int, m: int, n: nat, g: seq<Option<CalDate>>)
    requires g == Blanks(s) + MonthDays(y, m, n)
    ensures forall i :: 0 <= i < |g| ==> g[i] == if i < s then None else Some(CalDate(y, m, i - s + 1))
  {
    CellsAt(s, y, m, n);
  }

  /** Under the Sunday-to-Saturday header, every day falls in the column of
      its weekday: the cell at index `i` holds a date whose `getDay()` is
      `i % 7`. */
  lemma {:induction false} GridWeekdays(year: int, month: int)
    requires 0 <= month < 12
    ensures var g := MonthGrid(year, month);
      forall i :: 0 <= i < |g| && g[i].Some? ==> ValidDate(g[i].value) && DayOfWeek(g[i].value) == i % 7
  {
    var g, s := MonthGrid(year, month), StartWeekday(year, month);
    var y := DateYear(year);
    GridLength(year, month);
    GridCells(year, month);
    forall i | 0 <= i < |g| && g[i].Some? ensures ValidDate(g[i].value) && DayOfWeek(g[i].value) == i % 7 {
      var d := i - s + 1;
      assert g[i] == Some(CalDate(y, month, d));
      WeekdayInMonth(y, month, d);
    }
  }

  /** A date is in the grid exactly when it is a day of the month shown. */
  lemma GridCoversMonth(year: int, month: int, d: CalDate)
    requires 0 <= month < 12
    ensures Some(d) in MonthGrid(year, month) <==> d.year == DateYear(year) && d.month == month && ValidDate(d)
  {
    var g, s := MonthGrid(year, month), StartWeekday(year, month);
    GridLength(year, month);
    GridCells(year, month);
    if Some(d) in g {
      var i :| 0 <= i < |g| && g[i] == Some(d);
    }
    if d.year == DateYear(year) && d.month == month && ValidDate(d) {
      assert g[s + d.day - 1] == Some(d);
    }
  }

  /** The first loop of `getDaysInMonth`: `startDayOfWeek` empty cells. */
  method PushBlanks(startDayOfWeek: nat) returns (days: seq<Option<CalDate>>)
    ensures days == Blanks(startDayOfWeek)
  {
    days := [];
    var i := 0;
    while i < startDayOfWeek
      invariant 0 <= i <= startDayOfWeek
      invariant days == Blanks(i)
    {
      assert Blanks(i + 1) == Blanks(i) + [None];
      days := days + [None];
      i := i + 1;
    }
  }

  /** The second loop of `getDaysInMonth`: `new Date(year, month, day)` for
      each day of the month, appended to `days`. */
  method PushDays(days0: seq<Option<CalDate>>, year: int, month: int, daysInMonth: nat)
    returns (days: seq<Option<CalDate>>)
    requires 0 <= month < 12 && daysInMonth <= DaysInMonth(DateYear(year), month)
    ensures days == days0 + MonthDays(DateYear(year), month, daysInMonth)
  {
    days := days0;
    var day := 1;
    while day <= daysInMonth
      invariant 1 <= day <= daysInMonth + 1
      invariant days == days0 + MonthDays(DateYear(year), month, day - 1)
    {
      var date := MakeDate(year, month, day);
      assert MonthDays(DateYear(year), month, day) == MonthDays(DateYear(year), month, day - 1) + [Some(date)];
      days := days + [Some(date)];
      day := day + 1;
    }
  }

  /** `getDaysInMonth` for the month of `currentMonth`. */
  method GetDaysInMonth(currentMonth: CalDate) returns (days: seq<Option<CalDate>>)
    requires 0 <= currentMonth.month < 12
    ensures days == MonthGrid(currentMonth.year, currentMonth.month)
  {
    var year, month := currentMonth.year, currentMonth.month;
    var firstDay := MakeMonth(year, month);
    var lastDay := LastOfMonth(year, month);
    var daysInMonth := lastDay.day;
    var startDayOfWeek := DayOfWeek(firstDay);
    GridDayCount(year, month);
    days := PushBlanks(startDayOfWeek);
    days := PushDays(days, year, month, daysInMonth);
  }

  // ---------------------------------------------------------------------
  // Month navigation
  // ---------------------------------------------------------------------

  /** Months counted from January of year 0. */
  function MonthIndex(d: CalDate): int
  {
    12 * d.year + d.month
  }

  /** `goToPrevMonth`: `new Date(year, month - 1)`. */
  function PrevMonth(current: CalDate): (d: CalDate)
    ensures ValidDate(d) && d.day == 1
    ensures MonthIndex(d) == 12 * DateYear(current.year) + current.month - 1
  {
    MakeMonth(current.year, current.month - 1)
  }

  /** `goToNextMonth`: `new Date(year, month + 1)`. */
  function NextMonth(current: CalDate): (d: CalDate)
    ensures ValidDate(d) && d.day == 1
    ensures MonthIndex(d) == 12 * DateYear(current.year) + current.month + 1
  {
    MakeMonth(current.year, current.month + 1)
  }

  /** Years that `new Date` takes literally (0 to 99 are read as 19xx). */
  predicate FullYear(y: int)
  {
    y < 0 || y > 99
  }

  /** Outside the two-digit years, each button moves by exactly one month,
      rolling the year over between December and January. */
  lemma NavigationSteps(current: CalDate)
    requires 0 <= current.month < 12 && FullYear(current.year)
    ensures MonthIndex(PrevMonth(current)) == MonthIndex(current) - 1
    ensures MonthIndex(NextMonth(current)) == MonthIndex(current) + 1
    ensures current.month == 0 ==> PrevMonth(current) == CalDate(current.year - 1, 11, 1)
    ensures current.month > 0 ==> PrevMonth(current) == CalDate(current.year, current.month - 1, 1)
    ensures current.month == 11 ==> NextMonth(current) == CalDate(current.year + 1, 0, 1)
    ensures current.month < 11 ==> NextMonth(current) == CalDate(current.year, current.month + 1, 1)
  {
  }

  /** Next after previous returns to the same month, on day 1, unless the
      previous month falls in year 99. */
  lemma PrevThenNext(current: CalDate)
    requires 0 <= current.month < 12 && FullYear(current.year)
    requires !(current.year == 100 && current.month == 0)
    ensures NextMonth(PrevMonth(current)) == CalDate(current.year, current.month, 1)
  {
    NavigationSteps(current);
    NavigationSteps(PrevMonth(current));
  }

  /** Previous after next returns to the same month, on day 1, unless the
      next month falls in year 0. */
  lemma NextThenPrev(current: CalDate)
    requires 0 <= current.month < 12 && FullYear(current.year)
    requires !(current.year == -1 && current.month == 11)
    ensures PrevMonth(NextMonth(current)) == CalDate(current.year, current.month, 1)
  {
    NavigationSteps(current);
    NavigationSteps(NextMonth(current));
  }

  /** The two-digit-year rule breaks the round trip: back from January 100
      goes to December 99, and forward from there goes to January 2000. */
  lemma TwoDigitYearRoundTrip()
    ensures PrevMonth(CalDate(100, 0, 1)) == CalDate(99, 11, 1)
    ensures NextMonth(PrevMonth(CalDate(100, 0, 1))) == CalDate(2000, 0, 1)
  {
  }

  // ---------------------------------------------------------------------
  // The range of the events request
  // ---------------------------------------------------------------------

  /** The first and last day `fetchEvents` asks the service for. */
  datatype DateRange = DateRange(first: CalDate, last: CalDate)

  function FetchRange(currentMonth: CalDate): DateRange
    requires 0 <= currentMonth.month < 12
  {
    DateRange(MakeMonth(currentMonth.year, currentMonth.month), LastOfMonth(currentMonth.year, currentMonth.month))
  }

  /** The range runs from day 1 to the last day of the month shown: both ends
      are valid dates of that month, it spans exactly `DaysInMonth` days, and
      the day after its end is the first of the next month. */
  lemma FetchRangeSpansMonth(currentMonth: CalDate)
    requires 0 <= currentMonth.month < 12
    ensures var r, y, m := FetchRange(currentMonth), DateYear(currentMonth.year), currentMonth.month;
      r.first == CalDate(y, m, 1) && r.last == CalDate(y, m, DaysInMonth(y, m)) &&
      ValidDate(r.first) && ValidDate(r.last) &&
      DayNumber(r.last) - DayNumber(r.first) + 1 == DaysInMonth(y, m) &&
      DayNumber(r.last) + 1 == DayNumber(FirstOfNextMonth(y, m))
  {
    var y, m := DateYear(currentMonth.year), currentMonth.month;
    NextMonthStart(y, m);
  }

  // ---------------------------------------------------------------------
  // Events of a day
  // ---------------------------------------------------------------------

  /** A calendar event. `start` is the local date of `new Date(start_date)`,
      or none when the string does not parse (every getter then gives NaN,
      which equals nothing). */
  datatype Event = Event(id: string, title: string, eventType: string, start: Option<CalDate>, color: string)

  /** The filter of `getEventsForDate`: same day, month and year. */
  predicate SameDay(e: Event, date: CalDate)
  {
    e.start.Some? && e.start.value.day == date.day && e.start.value.month == date.month && e.start.value.year == date.year
  }

  function Filter(events: seq<Event>, date: CalDate): (r: seq<Event>)
    ensures |r| <= |events|
    ensures forall e :: e in r <==> e in events && SameDay(e, date)
  {
    if events == [] then []
    else (if SameDay(events[0], date) then [events[0]] else []) + Filter(events[1..], date)
  }

  /** `getEventsForDate`: no date (an empty cell) has no events. */
  function EventsForDate(events: seq<Event>, date: Option<CalDate>): (r: seq<Event>)
    ensures date.None? ==> r == []
    ensures date.Some? ==> forall e :: e in r <==> e in events && SameDay(e, date.value)
  {
    if date.None? then [] else Filter(events, date.value)
  }

  /** The filter keeps the events' order: filtering a concatenation
      concatenates the filtered parts. */
  lemma {:induction false} FilterAppend(a: seq<Event>, b: seq<Event>, date: CalDate)
    ensures Filter(a + b, date) == Filter(a, date) + Filter(b, date)
  {
    if a == [] {
      assert a + b == b;
    } else {
      assert (a + b)[0] == a[0];
      assert (a + b)[1..] == a[1..] + b;
      FilterAppend(a[1..], b, date);
    }
  }

  /** Filtering keeps every event of the day and drops every other. */
  lemma {:induction false} FilterAll(events: seq<Event>, date: CalDate)
    ensures (forall i :: 0 <= i < |events| ==> SameDay(events[i], date)) ==> Filter(events, date) == events
    ensures (forall i :: 0 <= i < |events| ==> !SameDay(events[i], date)) ==> Filter(events, date) == []
  {
    if events != [] {
      FilterAll(events[1..], date);
    }
  }

  /** Filtering twice is filtering once. */
  lemma {:induction false} FilterIdempotent(events: seq<Event>, date: CalDate)
    ensures Filter(Filter(events, date), date) == Filter(events, date)
  {
    if events != [] {
      FilterIdempotent(events[1..], date);
      var head := if SameDay(events[0], date) then [events[0]] else [];
      FilterAppend(head, Filter(events[1..], date), date);
      FilterAll(head, date);
    }
  }

  /** `dayEvents.slice(0, 3)`: a cell shows the first three events of its day
      at most. */
  function Dots(dayEvents: seq<Event>): (r: seq<Event>)
    ensures |r| <= 3 && |r| == if |dayEvents| < 3 then |dayEvents| else 3
    ensures r == dayEvents[..|r|]
  {
    if |dayEvents| <= 3 then dayEvents else dayEvents[..3]
  }

  // ---------------------------------------------------------------------
  // The add-event form
  // ---------------------------------------------------------------------

  /** The `newEvent` record. */
  datatype EventForm = EventForm(title: string, eventType: string, startDate: string, endDate: string,
                                 location: string, notes: string, color: string)

  /** The form's initial and reset value: a training event in blue. */
  const DefaultForm := EventForm("", "training", "", "", "", "", "#3B82F6")

  /** The guard of `addEvent`: a service (a signed-in user), a title and a
      start date. */
  predicate CanSubmit(hasService: bool, form: EventForm)
  {
    hasService && form.title != "" && form.startDate != ""
  }

  /** The default form is never submitted as it is. */
  lemma DefaultFormRejected(hasService: bool)
    ensures !CanSubmit(hasService, DefaultForm)
    ensures DefaultForm.eventType == "training" && DefaultForm.color == "#3B82F6"
  {
  }

  /** An input of the add-event modal and the value entered into it (the
      form has no input for the end date). */
  datatype FormInput =
    | SetTitle(title: string)
    | SetEventType(eventType: string)
    | SetStartDate(startDate: string)
    | SetLocation(location: string)
    | SetColor(color: string)
    | SetNotes(notes: string)

  /** The text of the alert a failed create raises. */
  function AddFailedAlert(message: string): string
  {
    "Failed to add event: " + message
  }

  /** The component's state. `hasService` is whether a user is signed in
      (`calendarService` is null otherwise). */
  class Calendar {
    var hasService: bool
    var events: seq<Event>
    var loading: bool
    var error: Option<string>
    var currentMonth: CalDate
    var selectedDate: Option<CalDate>
    var showAddModal: bool
    var newEvent: EventForm

    /** The month shown and the selection are real dates. */
    predicate Valid()
      reads this
    {
      ValidDate(currentMonth) && (selectedDate.Some? ==> ValidDate(selectedDate.value))
    }

    /** The initial state on `today`. */
    constructor (signedIn: bool, today: CalDate)
      requires ValidDate(today)
      ensures hasService == signedIn && events == [] && loading && error == None
      ensures currentMonth == today && selectedDate == None && !showAddModal && newEvent == DefaultForm
      ensures Valid()
    {
      hasService := signedIn;
      events := [];
      loading := true;
      error := None;
      currentMonth := today;
      selectedDate := None;
      showAddModal := false;
      newEvent := DefaultForm;
    }

    method GoToPrevMonth()
      modifies this
      ensures currentMonth == PrevMonth(old(currentMonth))
      ensures events == old(events) && selectedDate == old(selectedDate) && newEvent == old(newEvent)
      ensures showAddModal == old(showAddModal) && loading == old(loading) && error == old(error)
      ensures hasService == old(hasService)
      ensures old(Valid()) ==> Valid()
    {
      currentMonth := PrevMonth(currentMonth);
    }

    method GoToNextMonth()
      modifies this
      ensures currentMonth == NextMonth(old(currentMonth))
      ensures events == old(events) && selectedDate == old(selectedDate) && newEvent == old(newEvent)
      ensures showAddModal == old(showAddModal) && loading == old(loading) && error == old(error)
      ensures hasService == old(hasService)
      ensures old(Valid()) ==> Valid()
    {
      currentMonth := NextMonth(currentMonth);
    }

    /** `fetchEvents`: without a service nothing happens and no request is
        made; otherwise the events of `FetchRange(currentMonth)` are
        requested and `answer` is what the service returned. Loading ends
        either way. */
    method FetchEvents(answer: Outcome<seq<Event>>) returns (request: Option<DateRange>)
      requires Valid()
      modifies this
      ensures hasService == old(hasService) && currentMonth == old(currentMonth) && selectedDate == old(selectedDate)
      ensures showAddModal == old(showAddModal) && newEvent == old(newEvent)
      ensures !hasService ==> request == None && events == old(events) && loading == old(loading) && error == old(error)
      ensures hasService ==> request == Some(FetchRange(currentMonth)) && !loading
      ensures hasService && answer.Success? ==> events == answer.data && error == old(error)
      ensures hasService && answer.Failure? ==> events == old(events) && error == Some(answer.message)
    {
      if !hasService {
        return None;
      }
      loading := true;
      request := Some(FetchRange(currentMonth));
      match answer {
        case Success(data) => events := data;
        case Failure(message) => error := Some(message);
      }
      loading := false;
    }

    /** "Add Event" opens the modal; the overlay and its close button shut
        it. Nothing else changes. */
    method ShowAddModal(open: bool)
      modifies this
      ensures showAddModal == open && newEvent == old(newEvent)
      ensures hasService == old(hasService) && events == old(events) && loading == old(loading) && error == old(error)
      ensures currentMonth == old(currentMonth) && selectedDate == old(selectedDate)
      ensures old(Valid()) ==> Valid()
    {
      showAddModal := open;
    }

    /** Typing into an input of the modal replaces that one field of
        `newEvent` and keeps the others. */
    method EditForm(input: FormInput)
      modifies this
      ensures newEvent.title == (if input.SetTitle? then input.title else old(newEvent.title))
      ensures newEvent.eventType == (if input.SetEventType? then input.eventType else old(newEvent.eventType))
      ensures newEvent.startDate == (if input.SetStartDate? then input.startDate else old(newEvent.startDate))
      ensures newEvent.location == (if input.SetLocation? then input.location else old(newEvent.location))
      ensures newEvent.color == (if input.SetColor? then input.color else old(newEvent.color))
      ensures newEvent.notes == (if input.SetNotes? then input.notes else old(newEvent.notes))
      ensures newEvent.endDate == old(newEvent.endDate)
      ensures showAddModal == old(showAddModal)
      ensures hasService == old(hasService) && events == old(events) && loading == old(loading) && error == old(error)
      ensures currentMonth == old(currentMonth) && selectedDate == old(selectedDate)
      ensures old(Valid()) ==> Valid()
    {
      match input {
        case SetTitle(v) => newEvent := newEvent.(title := v);
        case SetEventType(v) => newEvent := newEvent.(eventType := v);
        case SetStartDate(v) => newEvent := newEvent.(startDate := v);
        case SetLocation(v) => newEvent := newEvent.(location := v);
        case SetColor(v) => newEvent := newEvent.(color := v);
        case SetNotes(v) => newEvent := newEvent.(notes := v);
      }
    }

    /** `addEvent`: past the guard the whole `newEvent` record is sent to
        the create call, whose outcome is `created`. A successful create
        closes the modal and resets the form (the refetch that follows is
        `FetchEvents`); a failed one raises an alert with the error's
        message and changes nothing. */
    method AddEvent(created: Outcome<()>) returns (request: Option<EventForm>, alert: Option<string>)
      modifies this
      ensures request.Some? <==> CanSubmit(old(hasService), old(newEvent))
      ensures request.Some? ==> request.value == old(newEvent)
      ensures request.Some? && created.Failure? ==> alert == Some(AddFailedAlert(created.message))
      ensures !(request.Some? && created.Failure?) ==> alert == None
      ensures request.Some? && created.Success? ==> !showAddModal && newEvent == DefaultForm
      ensures !(request.Some? && created.Success?) ==> showAddModal == old(showAddModal) && newEvent == old(newEvent)
      ensures hasService == old(hasService) && events == old(events) && loading == old(loading) && error == old(error)
      ensures currentMonth == old(currentMonth) && selectedDate == old(selectedDate)
      ensures old(Valid()) ==> Valid()
    {
      if !hasService || newEvent.title == "" || newEvent.startDate == "" {
        return None, None;
      }
      request := Some(newEvent);
      alert := None;
      match created {
        case Success(_) =>
          showAddModal := false;
          newEvent := DefaultForm;
        case Failure(message) =>
          alert := Some(AddFailedAlert(message));
      }
    }

    /** A click on a grid cell, which holds a real date or nothing (see
        `GridCellsAreDates`); an empty cell does nothing. */
    method ClickCell(cell: Option<CalDate>)
      requires cell.Some? ==> ValidDate(cell.value)
      modifies this
      ensures selectedDate == if cell.Some? then cell else old(selectedDate)
      ensures hasService == old(hasService) && events == old(events) && loading == old(loading) && error == old(error)
      ensures currentMonth == old(currentMonth) && showAddModal == old(showAddModal) && newEvent == old(newEvent)
      ensures old(Valid()) ==> Valid()
    {
      if cell.Some? {
        selectedDate := cell;
      }
    }

    /** The events listed under the selected date. */
    function SelectedEvents(): (r: seq<Event>)
      reads this
      ensures selectedDate.None? ==> r == []
      ensures selectedDate.Some? ==> forall e :: e in r <==> e in events && SameDay(e, selectedDate.value)
    {
      EventsForDate(events, selectedDate)
    }
  }

  /** Clicking a cell of the month grid keeps the selection a real date. */
  lemma GridCellsAreDates(year: int, month: int, i: nat)
    requires 0 <= month < 12 && i < |MonthGrid(year, month)|
    ensures MonthGrid(year, month)[i].Some? ==> ValidDate(MonthGrid(year, month)[i].value)
  {
    GridWeekdays(year, month);
  }
}
