# BJJ Social front end: a verified model of its core logic

This project models the logic inside the BJJ Social web front end (a React
application for Brazilian jiu-jitsu practitioners) and proves properties of it
in Dafny. Six parts are covered:

- **The positions network** (`src/PositionsNetwork.jsx`). This is an
  interactive graph of grappling positions. The page ships a built-in
  catalogue of four "systems" (overview, closed guard, back control, mount),
  each a small directed graph.
  - `renderNetwork` places the active system's nodes on a circle. It draws
    the edges with a resolved position, then each node as a coloured disc
    with a label of one or more lines.
  - `handleCanvasClick` repeats the same layout and selects the last node
    whose disc contains the click offset. The offset is in CSS pixels and the
    layout in the canvas's bitmap pixels, so the two agree only while the
    canvas is shown at its intrinsic size.
  - Tabs switch the active system and clear the selection.
  - A catalogue fetched from the backend replaces the built-in one wholesale.
  - The detail panel shows the selected node's title, its badges and its
    steps.

  Modules: `PositionsCatalog`, `PositionsLayout`, `PositionsRender` and
  `PositionsNetwork` (a class holding the component's three state
  variables).
- **The personal calendar** (`src/components/CalendarView.jsx`). Module
  `CalendarView`, with the JavaScript `Date` arithmetic it relies on in
  `GregorianDates`. It covers the month grid of `getDaysInMonth`, previous
  and next month navigation, the range of the events request, the per-day
  filter, and the guard and reset of the add-event form.
- **The gym finder** (`src/components/GymsMap.jsx`). Module `GymsMap`. It
  covers marker placement for the first ten gyms, the case-insensitive belt
  colour lookup, the search dispatch with its nearby-to-all fallback, and the
  directions link.
- **The backend clients** (`src/services/BackendServices.jsx`). Module
  `BackendServices`. It models how the request URLs are built (query strings
  extended piece by piece, optional filters, defaults) and which headers each
  client sends.
- **The password-reset page** (`src/components/ResetPassword.jsx`). Module
  `ResetPassword`. It covers the checks a submission passes in order, the
  token read from the link, and which screen is shown.
- **The sign-in dialog** (`src/components/AuthModal.jsx`). Module
  `AuthModal`. It covers the login, forgot-password and signup modes, and
  the fields each transition copies or clears.

`Wrappers` defines `Option` (JavaScript's `null`/`undefined`) and `Outcome`
(a call that returns or throws). `JsText` writes out the JavaScript string
operations the code uses:
- `split` and `join`;
- `replace` with a string pattern, which replaces only the first occurrence;
- `trim`;
- `toLowerCase`, as far as lookups against lower-case ASCII keys can tell;
- `length` in UTF-16 code units;
- number-to-decimal conversion.

## How the component state is modelled

Each React component whose handlers update state in place is a class. The
`useState` variables are its fields, and each handler is a method whose
`modifies` clause names the object. Each method's `ensures` states the whole
new state. The field-level invariants are `Valid()` predicates that the
handlers preserve:
- the network's selection belongs to the active system;
- the calendar's month and selection are real dates;
- the dialog's belt rank is one the select offers.

Results of calls into code outside the model are method parameters:
- the backend's answers (`Outcome`, or `Response` where an HTTP status is
  checked);
- the authentication context's `login`, `signup`, `forgotPassword` and
  `resetPassword`;
- the `token` query parameter;
- `Math.cos`/`Math.sin` (`Trig`);
- JavaScript's number-to-text conversion (`numText`) and `encodeURIComponent`
  (`encode`).

The loops of the source are `while` loops, each proved equal to a
specification function:
- `nodePositions` (`ComputeLayout`);
- the edge and node passes of `renderNetwork` (`DrawEdges`, `DrawNodes`,
  `DrawNode`);
- the hit-test (`HitTest`);
- the two loops of `getDaysInMonth` (`PushBlanks`, `PushDays`);
- the URL builders (`ListTournamentsUrl`, `PagedUrl`, `EventFields`).

The properties are then proved about those functions.

### Where the model follows the code rather than the documented design

- **Render with no system.** When the active key names no system,
  `renderNetwork` returns before it clears the canvas
  (src/PositionsNetwork.jsx:332). Nothing at all is drawn, not even the
  background (`PositionsNetwork.Network.Render`).
- **Stale selection.** The documented invariant says the selection always
  belongs to the active system. A catalogue fetched from the backend
  replaces the old one without clearing `selectedNode`, so that invariant
  can break (`PositionsNetwork.ReplacementCanStrandSelection`).
  `LoadRemote` therefore promises `Valid()` only when nothing was received.
- **Click offsets in CSS pixels.** `handleCanvasClick` measures the click
  from the canvas element's box in CSS pixels (src/PositionsNetwork.jsx:407-409).
  It compares that offset with a layout computed from the 800 by 500 bitmap
  (src/PositionsNetwork.jsx:412-423). The canvas is stretched by its flex
  layout (src/PositionsNetwork.jsx:571-580), and a stretched canvas puts
  its discs elsewhere on screen, so clicks on them miss. The model takes
  `(x, y)` as given, so `PositionsRender.ClickOnDrawnDisc` states the
  agreement in bitmap pixels.
- **Click with no system.** When the key names no system, a click reads
  `system.nodes` of `undefined` and throws, so the selection is unchanged
  (`PositionsNetwork.Network.Click`).
- **Two-digit years.** `new Date(y, m)` reads a year from 0 to 99 as 1900 + y.
  The previous/next round trip is exact for every other year, plus the one
  exception at each boundary that the lemmas exclude.
  `CalendarView.TwoDigitYearRoundTrip` shows the break: back from January
  of year 100 goes to December 99, and forward from there goes to January
  2000.
- **Colour defaults.** The role badge and the node disc share their colours
  for `top`, `bottom` and `neutral`. For any other role the disc falls back
  to `#6c5ce7` and the badge to `#a29bfe` (`PositionsRender.BadgeMatchesDisc`).
- **Panel title.** It replaces only the first newline of a caption, so a
  caption of three or more lines keeps a newline in its title
  (`PositionsRender.PanelTitle`).
- **Untrimmed search query.** The text search is chosen on the trimmed
  query but sends the query as typed (`GymsMap.SearchUrl`).
- **Failed nearby search.** It records no error; only the fallback list
  request can record one (`GymsMap.GymsPage.FetchNearbyGyms`).
- **Verbatim filter values.** Query-string filter values are inserted
  without encoding, so a value holding `&` adds parameters
  (`BackendServices.VerbatimValueInjects`,
  `BackendServices.InjectedQueryParses`).
- **Missing auth functions.** The authentication context as written
  provides no `forgotPassword` or `resetPassword`. Calling them would throw,
  which the handlers catch. The model keeps their outcomes as parameters so
  that both branches of each handler are covered.
- **Signup fallback.** The dialog shows the signup form for every mode other
  than `login` and `forgot`, including an unexpected `initialMode`
  (`AuthModal.ScreenFor`).

## Model

| member | source | states |
|---|---|---|
| `PositionsCatalog.Keys` | src/PositionsNetwork.jsx:444 | the tab keys are the catalogue's keys, one per entry, in entry order |
| `PositionsCatalog.Find` | src/PositionsNetwork.jsx:330 | `positions[key]` finds a system exactly when `key` is one of the keys, and the system found is stored under that key |
| `PositionsCatalog.FindEntry` | src/PositionsNetwork.jsx:330 | with distinct keys, looking up entry `i`'s key gives entry `i`'s system |
| `PositionsCatalog.OverviewWellFormed` | src/PositionsNetwork.jsx:7-79 | the overview system has unique node ids, edges between declared ids, positive sizes and declared origins |
| `PositionsCatalog.ClosedGuardWellFormed` | src/PositionsNetwork.jsx:80-173 | the closed-guard system is well formed in the same sense |
| `PositionsCatalog.BackControlWellFormed` | src/PositionsNetwork.jsx:174-239 | the back-control system is well formed in the same sense |
| `PositionsCatalog.MountWellFormed` | src/PositionsNetwork.jsx:240-289 | the mount system is well formed in the same sense |
| `PositionsCatalog.BuiltinWellFormed` | src/PositionsNetwork.jsx:6-290 | the built-in catalogue has distinct keys, stores each system under its own id, and every system is well formed |
| `PositionsCatalog.BuiltinKeys` | src/PositionsNetwork.jsx:6-290 | the built-in keys are overview, closed_guard, back_control and mount, in that order, with no repeats |
| `PositionsCatalog.OverviewSize` | src/PositionsNetwork.jsx:11-78 | the overview has 20 nodes and 44 edges |
| `PositionsLayout.CircleRadius` | src/PositionsNetwork.jsx:347 | the layout radius is non-negative and at most 35% of each canvas side |
| `PositionsLayout.TurnFraction` | src/PositionsNetwork.jsx:346 | node `i` of `n` sits at a fraction of a turn in [0, 1), and only node 0 sits at 0 |
| `PositionsLayout.TurnSpacing` | src/PositionsNetwork.jsx:346 | consecutive nodes are exactly `1/n` of a turn apart |
| `PositionsLayout.TurnFractionsIncrease` | src/PositionsNetwork.jsx:346 | turn fractions strictly increase with the index, so no two nodes share an angle |
| `PositionsLayout.CenterOnCircle` | src/PositionsNetwork.jsx:348-351 | when cos² + sin² = 1 at its angle, every node centre is at distance `CircleRadius` from the canvas centre |
| `PositionsLayout.LayoutKeys` | src/PositionsNetwork.jsx:344-352 | `nodePositions` gives a position to every declared id and to no other id |
| `PositionsLayout.LayoutAt` | src/PositionsNetwork.jsx:344-352 | node `i` is positioned at its circle centre unless a later node reuses its id; with unique ids every node is |
| `PositionsLayout.NodeCenter` | src/PositionsNetwork.jsx:420-423 | the centre formula, written out as in both loops, is the layout's `Center` |
| `PositionsLayout.ComputeLayout` | src/PositionsNetwork.jsx:344-352 | the `forEach` that fills `nodePositions` builds exactly `Layout`, whose keys are the declared ids |
| `PositionsRender.NodeColor` | src/PositionsNetwork.jsx:377-380 | the colour depends only on `posType`: top pink, bottom teal, neutral yellow, anything else purple |
| `PositionsRender.DiscOf` | src/PositionsNetwork.jsx:373-391 | a disc is drawn at the node's position with radius `size` and stroke in its colour; selection is matched by id; the selected node gets full fill and width 2.5, any other node gets the colour plus alpha `40` and width 1.5 |
| `PositionsRender.DiscDependsOnPosType` | src/PositionsNetwork.jsx:373-391 | two nodes with the same type, size and selection status are drawn identically at the same point |
| `PositionsRender.LineOffset` | src/PositionsNetwork.jsx:400 | a label line's offset lies within ±4(n−1), the first line is at −4(n−1) and the last at +4(n−1) |
| `PositionsRender.LineOffsetsSpacedAndSymmetric` | src/PositionsNetwork.jsx:399-401 | label lines are 8 pixels apart, and line `i` mirrors line `n−1−i` about the node centre |
| `PositionsRender.LabelPrefix` | src/PositionsNetwork.jsx:399-401 | the first `k` label lines are drawn as texts, line `i` at its offset, in the label colour |
| `PositionsRender.LabelLines` | src/PositionsNetwork.jsx:398 | a caption splits into at least one line, no line holds a newline, and the lines join back to the caption |
| `PositionsRender.LabelLineCount` | src/PositionsNetwork.jsx:398 | a caption with `c` newlines is drawn as `c + 1` lines |
| `PositionsRender.EdgeOps` | src/PositionsNetwork.jsx:357-366 | the edge pass draws only segments, at most one per edge |
| `PositionsRender.NodeOps` | src/PositionsNetwork.jsx:369-402 | the node pass draws only discs and label texts |
| `PositionsRender.EdgeOpsAreResolvedEdges` | src/PositionsNetwork.jsx:357-366 | one segment is drawn per edge whose endpoints both have positions, in order, from the `from` position to the `to` position; other edges are skipped |
| `PositionsRender.AllEdgesResolved` | src/PositionsNetwork.jsx:358-360 | when every endpoint has a position no edge is skipped |
| `PositionsRender.WellFormedDrawsEveryEdge` | src/PositionsNetwork.jsx:344-366 | in a well-formed system no edge is skipped: every edge is drawn once, in order, as a segment between the positions of its endpoints |
| `PositionsRender.NodeDrawDisc` | src/PositionsNetwork.jsx:369-391 | a node with a position contributes exactly one disc, its own |
| `PositionsRender.NodeOpsDiscs` | src/PositionsNetwork.jsx:369-391 | when every node has a position, the discs drawn are one per node, in declaration order, each at its node's position and in its colours |
| `PositionsRender.DrawDiscs` | src/PositionsNetwork.jsx:335-402 | the background and the edges contain no disc, so the frame's discs are those of the node pass |
| `PositionsRender.FrameDiscs` | src/PositionsNetwork.jsx:343-391 | in a system with unique ids, disc `i` of the frame is node `i` drawn at its circle centre |
| `PositionsRender.DrawOrder` | src/PositionsNetwork.jsx:335-402 | the background is drawn first and every segment before every disc, so edges never cover nodes |
| `PositionsRender.DrawEdges` | src/PositionsNetwork.jsx:357-366 | the edge loop issues exactly `EdgeOps` |
| `PositionsRender.DrawNode` | src/PositionsNetwork.jsx:370-401 | one node's loop body draws nothing without a position; otherwise its disc, then its label lines in order |
| `PositionsRender.DrawNodes` | src/PositionsNetwork.jsx:369-402 | the node loop issues exactly `NodeOps` |
| `PositionsRender.DrawPass` | src/PositionsNetwork.jsx:334-402 | with positions filled in, the canvas gets the background, then the edges, then the nodes |
| `PositionsRender.Render` | src/PositionsNetwork.jsx:334-402 | `renderNetwork` for an existing system issues exactly the frame of that system |
| `PositionsRender.LastHit` | src/PositionsNetwork.jsx:418-429 | the hit index found among the first `k` nodes is below `k` |
| `PositionsRender.LastHitSpec` | src/PositionsNetwork.jsx:418-429 | the node found contains the click and no later node does, and nothing is found exactly when no node contains the click; containment is the strict test `dist < size` |
| `PositionsRender.PickedSpec` | src/PositionsNetwork.jsx:418-431 | a click selects nothing exactly when no node contains it; otherwise it selects a containing node with no containing node after it |
| `PositionsRender.HitTest` | src/PositionsNetwork.jsx:418-429 | the click loop, where a later hit overwrites an earlier one, computes exactly `Picked` |
| `PositionsRender.ClickOnCenter` | src/PositionsNetwork.jsx:419-427 | a click on the centre of node `k` (size > 0) always selects something, and selects node `k` or a later node; if no later node contains that point it selects node `k` |
| `PositionsRender.ClickOnDrawnDisc` | src/PositionsNetwork.jsx:345-427 | the renderer and the hit-tester agree in bitmap pixels: with unique ids, disc `k` is centred at node `k`'s circle centre; a click there (size > 0) selects a node, and selects node `k` when no later node contains the point |
| `PositionsRender.BadgeColor` | src/PositionsNetwork.jsx:503-515 | each known kind or role has a fixed badge style, and an unknown one gets the purple default |
| `PositionsRender.BadgeMatchesDisc` | src/PositionsNetwork.jsx:475-480 | the role badge has the disc's colour for top, bottom and neutral, and a different colour for an unknown role |
| `PositionsRender.PanelFor` | src/PositionsNetwork.jsx:471-495 | with no selection the panel shows the hint; otherwise the node detail with its two badges and its steps |
| `PositionsRender.PanelTitle` | src/PositionsNetwork.jsx:473 | the title has the caption's length and differs from it only at the first newline, so a caption of three or more lines keeps a newline |
| `PositionsNetwork.PickedIsNode` | src/PositionsNetwork.jsx:427 | a click selects nothing or a node of the system the click was matched against |
| `PositionsNetwork.BuiltinStart` | src/PositionsNetwork.jsx:293-294 | the page starts on the overview, which the built-in catalogue holds, and the tabs are in catalogue order |
| `PositionsNetwork.ReplacementCanStrandSelection` | src/PositionsNetwork.jsx:309-312 | after a wholesale replacement, a selection that belonged to the old catalogue need not belong to the new one |
| `PositionsNetwork.Network.constructor` | src/PositionsNetwork.jsx:293-295 | the initial state is the built-in catalogue, the overview and no selection, which satisfies the invariant |
| `PositionsNetwork.Network.LoadRemote` | src/PositionsNetwork.jsx:308-315 | only a received catalogue replaces the current one, wholesale; the key and the selection are kept |
| `PositionsNetwork.Network.SelectTab` | src/PositionsNetwork.jsx:451-454 | a tab activates its key and always clears the selection, keeping the invariant |
| `PositionsNetwork.Network.Click` | src/PositionsNetwork.jsx:405-432 | the selection becomes the node the hit test finds at the offset, taken against the 800 by 500 layout, or none; without a system nothing changes; the invariant is kept |
| `PositionsNetwork.Network.Render` | src/PositionsNetwork.jsx:325-403 | nothing is drawn when the key names no system; otherwise the frame of the active system with the current selection |
| `PositionsNetwork.Network.Subtitle` | src/PositionsNetwork.jsx:440 | a subtitle is shown exactly when the active key is in the catalogue |
| `PositionsNetwork.TabLabels` | src/PositionsNetwork.jsx:444-457 | one tab label per key, each the caption of that key's system, in order |
| `GregorianDates.DaysInMonth` | src/components/CalendarView.jsx:95-96 | a month has 28 to 31 days: February 29 exactly in leap years and 28 otherwise, April, June, September and November 30 |
| `GregorianDates.DayOfWeek` | src/components/CalendarView.jsx:97 | `getDay()` is a weekday from 0 to 6 |
| `GregorianDates.EpochIsThursday` | src/components/CalendarView.jsx:97 | the weekday count is anchored so that 1 January 1970 is a Thursday |
| `GregorianDates.NextMonthStart` | src/components/CalendarView.jsx:37 | the first of the next month comes `DaysInMonth` days after the first of this one, its weekday shifted by as many |
| `GregorianDates.DateYear` | src/components/CalendarView.jsx:84 | `new Date` reads a year from 0 to 99 as 1900 + y and any other year literally |
| `GregorianDates.MakeMonth` | src/components/CalendarView.jsx:84 | `new Date(y, m)` is a valid first of a month, with a month outside 0 to 11 carried into the year |
| `GregorianDates.MakeMonthInYear` | src/components/CalendarView.jsx:94 | for a month from 0 to 11, `new Date(y, m, 1)` stays in that month |
| `GregorianDates.WeekdayInMonth` | src/components/CalendarView.jsx:97 | day `d` of a month falls `d − 1` weekdays after its first |
| `GregorianDates.MakeDate` | src/components/CalendarView.jsx:106 | `new Date(y, m, d)` for an existing day is that valid date |
| `GregorianDates.LastOfMonth` | src/components/CalendarView.jsx:95 | `new Date(y, m + 1, 0)` is the last day of month `m` |
| `CalendarView.Blanks` | src/components/CalendarView.jsx:101-103 | `k` empty cells |
| `CalendarView.MonthDays` | src/components/CalendarView.jsx:105-107 | the cells of days 1 to `k` of the month, in order |
| `CalendarView.StartWeekday` | src/components/CalendarView.jsx:97 | the month's first weekday is from 0 to 6 and is `firstDay.getDay()` of `new Date(y, m, 1)` |
| `CalendarView.GridDayCount` | src/components/CalendarView.jsx:95-96 | `lastDay.getDate()` of `new Date(y, m + 1, 0)` is the Gregorian length of the month |
| `CalendarView.GridLength` | src/components/CalendarView.jsx:94-108 | the grid has `startDayOfWeek + daysInMonth` cells, at most 37 |
| `CalendarView.GridCells` | src/components/CalendarView.jsx:99-108 | the grid is `startDayOfWeek` empty cells followed by days 1 to `daysInMonth` in increasing order |
| `CalendarView.GridWeekdays` | src/components/CalendarView.jsx:97-108 | every day cell holds a valid date whose `getDay()` is its index mod 7, so it sits under its weekday in the Sun–Sat header |
| `CalendarView.GridCoversMonth` | src/components/CalendarView.jsx:99-108 | a date is in the grid exactly when it is a valid day of the month shown |
| `CalendarView.PushBlanks` | src/components/CalendarView.jsx:101-103 | the first loop pushes `startDayOfWeek` empty cells |
| `CalendarView.PushDays` | src/components/CalendarView.jsx:105-107 | the second loop appends days 1 to `daysInMonth` |
| `CalendarView.GetDaysInMonth` | src/components/CalendarView.jsx:91-109 | `getDaysInMonth` returns exactly the month grid |
| `CalendarView.PrevMonth` | src/components/CalendarView.jsx:83-85 | the previous month is a valid first of a month, one month before the year as `new Date` reads it |
| `CalendarView.NextMonth` | src/components/CalendarView.jsx:87-89 | the next month is a valid first of a month, one month after the year as `new Date` reads it |
| `CalendarView.NavigationSteps` | src/components/CalendarView.jsx:83-89 | outside two-digit years each button moves by exactly one month, rolling the year over between December and January |
| `CalendarView.PrevThenNext` | src/components/CalendarView.jsx:83-89 | next after previous returns to the same year and month, on day 1 |
| `CalendarView.NextThenPrev` | src/components/CalendarView.jsx:83-89 | previous after next returns to the same year and month, on day 1 |
| `CalendarView.TwoDigitYearRoundTrip` | src/components/CalendarView.jsx:84 | the round trip breaks at year 100: back to December 99 and then forward to January 2000 |
| `CalendarView.FetchRangeSpansMonth` | src/components/CalendarView.jsx:36-37 | the range runs from day 1 to the last day of the month shown, spans exactly `DaysInMonth` days, and ends the day before the next month starts |
| `CalendarView.Filter` | src/components/CalendarView.jsx:113-120 | the filter keeps exactly the events on the same day, month and year, and never adds any |
| `CalendarView.EventsForDate` | src/components/CalendarView.jsx:111-121 | an empty cell has no events; a date has exactly its day's events |
| `CalendarView.FilterAppend` | src/components/CalendarView.jsx:113-120 | filtering keeps the original order: filtering a concatenation concatenates the filtered parts |
| `CalendarView.FilterAll` | src/components/CalendarView.jsx:113-120 | a list of the day's events is kept whole, and a list with none becomes empty |
| `CalendarView.FilterIdempotent` | src/components/CalendarView.jsx:113-120 | filtering twice is filtering once |
| `CalendarView.Dots` | src/components/CalendarView.jsx:183 | a cell shows the first three of its events at most |
| `CalendarView.DefaultFormRejected` | src/components/CalendarView.jsx:53 | the default form (type training, colour #3B82F6) is never submitted as it is |
| `CalendarView.Calendar.constructor` | src/components/CalendarView.jsx:8-22 | the initial state: no events, loading, no error, today's month, no selection, modal closed, default form |
| `CalendarView.Calendar.GoToPrevMonth` | src/components/CalendarView.jsx:83-85 | only the month shown changes, to the previous month |
| `CalendarView.Calendar.GoToNextMonth` | src/components/CalendarView.jsx:87-89 | only the month shown changes, to the next month |
| `CalendarView.Calendar.FetchEvents` | src/components/CalendarView.jsx:32-50 | without a service nothing happens; otherwise the month's range is requested, the answer replaces the events or records the error, and loading ends |
| `CalendarView.Calendar.ShowAddModal` | src/components/CalendarView.jsx:146-245 | the Add Event button opens the modal, and the overlay and ✕ close it; nothing else changes |
| `CalendarView.Calendar.EditForm` | src/components/CalendarView.jsx:252-298 | each modal input replaces its own field of `newEvent` and keeps the others, the end date included |
| `CalendarView.Calendar.AddEvent` | src/components/CalendarView.jsx:52-70 | exactly past the guard the whole `newEvent` record is sent; a success closes the modal and resets the form; a failure alerts `Failed to add event: ` plus the message and changes nothing; no alert otherwise |
| `CalendarView.Calendar.ClickCell` | src/components/CalendarView.jsx:176 | a day cell becomes the selection and an empty cell changes nothing; the selection stays a real date |
| `CalendarView.Calendar.SelectedEvents` | src/components/CalendarView.jsx:211-215 | the list under the selection holds exactly the selected day's events |
| `CalendarView.GridCellsAreDates` | src/components/CalendarView.jsx:176 | every cell a click can select holds a valid date |
| `GymsMap.Markers` | src/components/GymsMap.jsx:165-171 | one marker per gym among the first ten, in list order, at its column and row |
| `GymsMap.MarkerGrid` | src/components/GymsMap.jsx:170-171 | the ten marker places have left in {10, 28, 46, 64, 82} and top in {20, 50}, the first five on the top row |
| `GymsMap.MarkersDistinct` | src/components/GymsMap.jsx:170-171 | no two of the ten markers share a place |
| `GymsMap.LaterGymsUnmarked` | src/components/GymsMap.jsx:165 | gyms after the tenth get no marker, whatever they are |
| `GymsMap.BeltColor` | src/components/GymsMap.jsx:103-112 | each of the five belts is found case-insensitively with its own colour, and a missing or unknown belt gets grey `#718096` |
| `GymsMap.BeltColorIgnoresCase` | src/components/GymsMap.jsx:111 | a belt and its lower-case spelling get the same colour |
| `GymsMap.BeltColorExamples` | src/components/GymsMap.jsx:111 | `BLUE` is found, a name spelt with the Kelvin sign is found as black, and `red` gets the default |
| `GymsMap.SearchDispatch` | src/components/GymsMap.jsx:76-87 | a blank query reloads nearby gyms when the location is known and all gyms otherwise; any other query goes to the text search |
| `GymsMap.BlankQueryNotSearched` | src/components/GymsMap.jsx:76 | the text search happens exactly when the query has a character that is not white space |
| `GymsMap.MapsUrlQuery` | src/components/GymsMap.jsx:99 | the directions link is the maps search prefix followed by a query that splits back into the latitude and longitude |
| `GymsMap.GymsPage.constructor` | src/components/GymsMap.jsx:8-14 | the initial state: no gyms, loading, no error, empty query, no location, radius 50 |
| `GymsMap.GymsPage.Locate` | src/components/GymsMap.jsx:18-36 | a position fix becomes the user's location with no request; without one the full list is loaded as `fetchAllGyms` does |
| `GymsMap.GymsPage.EditQuery` | src/components/GymsMap.jsx:127 | typing changes only the query |
| `GymsMap.GymsPage.PickRadius` | src/components/GymsMap.jsx:133-145 | the select, shown once the location is known, sets the radius to one of 10, 25, 50, 100 and 250 km, keeping the invariant |
| `GymsMap.GymsPage.FetchAllGyms` | src/components/GymsMap.jsx:44-54 | one full-list request whose answer replaces the list or records the error; loading ends |
| `GymsMap.GymsPage.FetchNearbyGyms` | src/components/GymsMap.jsx:56-72 | nothing happens without a location; otherwise the nearby search, falling back to the full list when it fails, with no error recorded for the nearby failure |
| `GymsMap.GymsPage.HandleSearch` | src/components/GymsMap.jsx:74-96 | the first request is the dispatch's choice; a text search's answer replaces the list, and a failure records "Search failed" or the thrown message; a blank query reloads as the two loaders do |
| `BackendServices.ApiBase` | src/services/BackendServices.jsx:4 | the configured URL when it is non-empty, else `http://localhost:8000` |
| `BackendServices.TruthyStep` | src/services/BackendServices.jsx:84-85 | the step `if (value) url += ...` adds the field exactly when the value is a non-empty string |
| `BackendServices.FlagStep` | src/services/BackendServices.jsx:86 | the step `if (flag !== null) url += ...` adds the field for `true` and for `false` |
| `BackendServices.ListTournamentsUrl` | src/services/BackendServices.jsx:82-86 | the tournaments URL starts with `limit=50`, then has status and country when truthy and `is_gi` when not null, in that order |
| `BackendServices.PagedUrl` | src/services/BackendServices.jsx:198-201 | a paged URL has `skip` and `limit` (defaults 0 and 50), then two filters when truthy and a flag when not null |
| `BackendServices.ListGymsUrl` | src/services/BackendServices.jsx:197-201 | the gyms URL has skip, limit, city, country and `has_gi` per those rules |
| `BackendServices.ListSeminarsUrl` | src/services/BackendServices.jsx:264-268 | the seminars URL has skip, limit, status, country and `is_gi` per those rules |
| `BackendServices.PushStep` | src/services/BackendServices.jsx:144-146 | the step `if (value) params.push(...)` adds the field exactly when the value is truthy |
| `BackendServices.EventFields` | src/services/BackendServices.jsx:143-146 | the pushes collect event_type, from_date and to_date, in that order, each when truthy |
| `BackendServices.GetEventsUrl` | src/services/BackendServices.jsx:141-147 | `getEvents` builds exactly `EventsUrl` |
| `BackendServices.EventsQuestionMark` | src/services/BackendServices.jsx:147 | a `?` follows the path exactly when some filter is truthy, and without filters the URL is the bare path |
| `BackendServices.NearbyQuery` | src/services/BackendServices.jsx:211 | the nearby URL's query is `lat`, `lng` and `radius`, in that order |
| `BackendServices.NearbyDefault` | src/services/BackendServices.jsx:209-211 | an omitted radius is sent as 50 |
| `BackendServices.UpcomingDefault` | src/services/BackendServices.jsx:94-95 | an omitted upcoming limit is sent as 20 |
| `BackendServices.QueryRoundTrip` | src/services/BackendServices.jsx:83-86 | a query of names and values without `&` or `=` reads back as exactly its parameters, in order |
| `BackendServices.VerbatimValueInjects` | src/services/BackendServices.jsx:84 | a status of `open&limit=1` builds the same query as the three parameters limit=50, status=open, limit=1 |
| `BackendServices.InjectedQueryParses` | src/services/BackendServices.jsx:84 | read back, that query has three fields, the last a second `limit` |
| `BackendServices.HeadersFor` | src/services/BackendServices.jsx:9-12 | the seminar client sends no headers; every other client sends the bearer token first; `Content-Type: application/json` is sent exactly by the profile, signup, calendar and coach requests |
| `BackendServices.AvatarHeaders` | src/services/BackendServices.jsx:40 | an avatar upload sends the token alone |
| `BackendServices.MissingTokenSent` | src/services/BackendServices.jsx:192 | with no token the header is sent as `Bearer null` |
| `ResetPassword.Validate` | src/components/ResetPassword.jsx:26-39 | the checks run in order, missing token, then mismatch, then length below 8, and only the first failure is reported; a submission passes exactly with a token, equal passwords and length at least 8 |
| `ResetPassword.LengthCountsCodeUnits` | src/components/ResetPassword.jsx:36 | the length counts UTF-16 code units: four astral characters pass, seven ASCII characters do not |
| `ResetPassword.ScreenFor` | src/components/ResetPassword.jsx:51-79 | the screen priority is validating, then invalid link without a token, then success, then the form with the context's loading and error |
| `ResetPassword.ResetPage.constructor` | src/components/ResetPassword.jsx:6-10 | the initial state: empty token and passwords, no success, validating |
| `ResetPassword.ResetPage.ReadToken` | src/components/ResetPassword.jsx:15-20 | a non-empty `token` parameter becomes the token, and validating ends in every case |
| `ResetPassword.ResetPage.EditNewPassword` | src/components/ResetPassword.jsx:91 | typing changes only the new password |
| `ResetPassword.ResetPage.EditConfirmPassword` | src/components/ResetPassword.jsx:102 | typing changes only the confirmation |
| `ResetPassword.ResetPage.HandleReset` | src/components/ResetPassword.jsx:23-49 | a refused submission alerts its first failure and makes no request; otherwise the token and password are sent, a success sets success and clears both passwords, and a failure changes nothing |
| `AuthModal.ScreenFor` | src/components/AuthModal.jsx:17-235 | a closed dialog renders nothing; login and forgot have their own screens (the confirmation once sent); any other mode shows signup |
| `AuthModal.Dialog.constructor` | src/components/AuthModal.jsx:5-14 | the initial mode is `initialMode` or login; belt white; remember-me off; every text field empty; no confirmation |
| `AuthModal.Dialog.Edit` | src/components/AuthModal.jsx:60-213 | an input changes its own field only, and picking a belt keeps it one the select offers |
| `AuthModal.Dialog.OpenForgot` | src/components/AuthModal.jsx:90-94 | login to forgot copies the email into the forgot field and hides the confirmation |
| `AuthModal.Dialog.OpenSignup` | src/components/AuthModal.jsx:108-113 | login to signup clears email, password and username |
| `AuthModal.Dialog.SignupToLogin` | src/components/AuthModal.jsx:225-229 | signup to login clears email and password and keeps the username |
| `AuthModal.Dialog.BackToLogin` | src/components/AuthModal.jsx:129-154 | either Back to Login button changes only the mode |
| `AuthModal.Dialog.HandleLogin` | src/components/AuthModal.jsx:19-27 | the login sends email, password and remember-me; the dialog closes exactly on success and its state is unchanged |
| `AuthModal.Dialog.HandleSignup` | src/components/AuthModal.jsx:29-37 | the signup sends username, email, password, belt and academy; the dialog closes exactly on success |
| `AuthModal.Dialog.HandleForgot` | src/components/AuthModal.jsx:39-47 | the forgot email is sent, and the confirmation shows only after a success; nothing else changes |
| `JsText.SplitCount` | src/PositionsNetwork.jsx:398 | `split` gives one more piece than there are separators |
| `JsText.SplitPiecesFree` | src/PositionsNetwork.jsx:398 | no piece of a split holds the separator |
| `JsText.JoinSplit` | src/PositionsNetwork.jsx:398 | joining the pieces of a split gives back the string |
| `JsText.SplitJoin` | src/services/BackendServices.jsx:147 | splitting a join of separator-free pieces gives back the pieces |
| `JsText.ReplaceFirstSpec` | src/PositionsNetwork.jsx:473 | `replace` with a string pattern changes only the first occurrence and keeps the length |
| `JsText.SecondOccurrenceSurvives` | src/PositionsNetwork.jsx:473 | with two occurrences, the second survives the replacement |
| `JsText.TrimStart` | src/components/GymsMap.jsx:76 | leading white space is dropped up to the first other character |
| `JsText.TrimEnd` | src/components/GymsMap.jsx:76 | trailing white space is dropped back to the last other character |
| `JsText.TrimEmptyIffBlank` | src/components/GymsMap.jsx:76 | a string trims to empty exactly when all its characters are white space |
| `JsText.ToLower` | src/components/GymsMap.jsx:111 | lower-casing keeps the length and maps each character |
| `JsText.ToLowerIdempotent` | src/components/GymsMap.jsx:111 | lower-casing twice is lower-casing once |
| `JsText.Utf16Length` | src/components/ResetPassword.jsx:36 | `length` is between the number of characters and twice that |
| `JsText.NatToString` | src/services/BackendServices.jsx:198 | a number is written as decimal digits with no leading zero |
| `JsText.ParseNatToString` | src/services/BackendServices.jsx:198 | the decimal text of a number reads back as that number |

## Left out

- Network and browser I/O are not modelled: `fetch`, JSON parsing, `localStorage`, geolocation, `window.open`, `alert`, `confirm` and `console`. Their results are method parameters, and the alert texts of the modelled handlers are returned values.
- React's scheduling is not modelled (effects, re-renders, the order in which asynchronous answers arrive). Each handler runs to completion with the answers it is given.
- The canvas API, fonts and floating point are not modelled. Positions are reals, `cos`/`sin` are parameters, and the hit test uses squared distances. An `arc` with a negative radius, which throws in a browser, is drawn like any other disc.
- `PositionsRender.BadgeColor`: inherited property names such as `constructor` are not modelled; the source's object lookup would return a function for them.
- `GymsMap.BeltColor`: inherited property names such as `constructor` are not modelled either. Lower-casing is modelled only as far as lookups against the five ASCII names can tell (ASCII letters and the Kelvin sign).
- `PositionsNetwork.Network.LoadRemote`: promises the selection invariant only when nothing is received, because the source keeps a selection the new catalogue may not contain.
- `CalendarView.PrevThenNext`: holds for years other than 0 to 99 and excludes January of year 100, because the two-digit-year rule of `new Date` breaks the round trip there.
- `CalendarView.NextThenPrev`: holds for years other than 0 to 99 and excludes December of year −1, for the same reason.
- Time zones, `toISOString`, `toLocaleDateString`/`toLocaleTimeString`, parsing of `start_date` strings and the "today" highlight are not modelled. The fetch range is given as dates, and an event's start is its already-parsed local date.
- `deleteEvent` and `formatTime` in the calendar are not modelled; they are not part of the modelled core.
- `encodeURIComponent` and JavaScript's number-to-text conversion are parameters.
- `JsText.NatToString`: agrees with JavaScript's conversion of a number to text only below 10^21. Above that, JavaScript switches to exponent notation. The counts and page sizes passed to it are far smaller.
- Browser constraint validation is not modelled. `required` and `type="email"` stop the form's submit event before any handler runs. For example, a reset with a token and two empty passwords sends nothing in a browser, while `ResetPassword.ResetPage.HandleReset` alerts that the password is too short.
- The pixel ratio between the canvas element's displayed size and its 800 by 500 bitmap is not modelled. `PositionsNetwork.Network.Click` takes the CSS-pixel offset as it comes, just as the source does. The hit test therefore agrees with the drawing only at intrinsic size.
- The dialog's close requests from the overlay and the ✕ button, and the `disabled` state of inputs while loading, are not modelled; they touch only the parent's state and the markup.
- The authentication context (`src/contexts/AuthContext.jsx`) is not part of this model. Its `login`, `signup`, `forgotPassword` and `resetPassword` appear only as outcomes.
- `selectedGym` and the listing, profile, coach, video and shell screens are not modelled. They only display data or update single fields.
