# P1_web in Dafny

P1_web is a small web dashboard for a P1 smart-meter reader. A Flask server (`server.py`)
answers `/api/electricity?from=YYMMDDHHMMSS&to=YYMMDDHHMMSS` with the energy used between
two instants, after checking both arguments with `validate_timestamp`. The browser client
(`doc/script.js`) does three things:

- It splits the time up to `now` into 96 windows of 15 minutes, one per slot of the day:
  slots already begun today are taken from today, the slot holding `now` ends at `now`,
  and slots not yet begun are taken from yesterday. Together the windows cover the span
  from the end of yesterday's copy of the current slot up to `now`, which is less than
  24 hours: the instant exactly 24 hours before `now` lies in no window.
- It encodes each window's bounds as 12-digit timestamps and requests the energy of each.
- It draws one bar per window, scaled against the largest average power, with a tooltip
  placed next to the cursor and pulled back on a right or bottom overflow. It keeps its
  left edge on screen, but a tooltip wider than the window less 10 pixels still sticks out
  on the right, and nothing stops it from going above the top.

This project models that core:

- `digits.dfy` (`Digits`): the JavaScript built-ins the formatters use, on ASCII digits.
  These are `Number.prototype.toString` on integers, `padStart(2, '0')` and `slice` with
  negative and out-of-range bounds. It also holds the decimal reading of digit strings.
- `calendar.dfy` (`Calendar`): Gregorian dates and times as records of integers.
- `client_format.dfy` (`ClientFormat`): `formatTimestamp`, `formatApiTimestamp` and
  `formatTooltipTime`. It adds a decoder for the 12-digit format so that the encoder's
  round trip can be stated in both directions.
- `timestamp_validation.dfy` (`TimestampValidation`): `validate_timestamp`. The regular
  expression is modelled group by group, including the `$` that also matches before a
  final newline. `strptime("%y%m%d%H%M%S")` is modelled with its 1969–2068 century pivot,
  its calendar check and its rejection of unconverted trailing data.
- `electricity_endpoint.dfy` (`ElectricityEndpoint`): the guard chain of `electricity()`,
  with the two database lookups as inputs.
- `graph_partition.dfy` (`GraphPartition`): the loop of `fetchGraphData`.
  - `PartitionDay` is an imperative method whose loop reassigns `start` and `end` exactly
    as the source does.
  - `SlotWindow` is the function that specifies each window.
  - `QueryFor` gives each window's request arguments.
  - `AveragePower` is the line-72 formula over the reals.
- `graph_render.dfy` (`GraphRender`): `renderGraph`.
  - `Graph` is a class whose `Render` method rebuilds its list of bars in a loop.
  - `TooltipPosition` is the clamp of the tooltip's offsets.
  - `Tooltip` is a class whose mouse-enter and mouse-leave handlers update its fields.
- `end_to_end.dfy` (`EndToEnd`): how client and server fit together. Every timestamp the
  client writes for an existing date from year 10 on is accepted by the server. Every accepted text is
  what the client would write. So every request built by the partition loop passes the
  endpoint's checks whenever the local dates of its window's bounds exist and lie in year
  10 or later.

Instants are integer milliseconds. Reading an instant as a local date, which the source
does through `Date` getters, is the parameter `localTime: int -> DateTime`. The clock
instants `now`, `midnight` and `midnightYesterday` are parameters as well. Powers and
energies are Dafny `real`s.

The average power at `doc/script.js:72` is `energy * 3600 / (end - start) * 1000`, with the
energy in watt-hours and the instants in milliseconds. Over a full 15-minute window this is
four times the energy: 1.5 Wh gives 6 W (`GraphPartition.FullSlotPower`).

## Model

| member | source | states |
|---|---|---|
| Digits.NatToString | doc/script.js:83 | `toString` of a non-negative integer is a non-empty string of decimal digits |
| Digits.NatToStringRoundTrip | doc/script.js:83 | reading the digits `toString` writes gives back the number |
| Digits.NatToStringLast | doc/script.js:83 | `toString` has one character exactly below 10, and its last character is the units digit |
| Digits.IntToString | doc/script.js:84 | a negative number's `toString` starts with `-` and has at least one digit after it |
| Digits.PadStart2 | doc/script.js:83 | `padStart(2, '0')` keeps a text of two or more characters, and puts zeros on the left of a shorter one up to length 2, the text itself last |
| Digits.Pad2 | doc/script.js:83 | `pad` of a non-negative number is at least two decimal digits, exactly two below 100; `Pad2TwoDigits` gives its value |
| Digits.Pad2TwoDigits | doc/script.js:83 | `pad` of 0..99 is exactly the two decimal digits of the value, tens first |
| Digits.SliceIndex | doc/script.js:84 | a `slice` bound counts from the end when negative, then is clamped to the length |
| Digits.Slice | doc/script.js:22-24 | `slice` with in-range bounds is the substring; it never fails and never grows the text |
| Digits.SliceLast2 | doc/script.js:84 | `slice(-2)` is the last two characters, or the whole text when shorter |
| Digits.YearSuffixDigits | doc/script.js:84 | for a year of at least 10, `getFullYear().toString().slice(-2)` is the two digits of the year modulo 100 |
| Digits.TwoDigitValue | server.py:19 | a two-digit field is read as a value in 0..99 |
| Digits.TwoDigitValueIsDecimal | server.py:19 | the two-digit field value is the decimal value of the two characters |
| Digits.DigitPairOfValue | doc/script.js:83 | writing a two-digit field's value back gives the same two characters |
| Calendar.DaysInMonth | server.py:19 | months have 28 to 31 days; February has 29 exactly in leap years |
| ClientFormat.FormatTimestamp | doc/script.js:21-27 | a text of at least 12 characters is shown as `t[6..8]:t[8..10]:t[10..12]`, 8 characters; a text of at most 6 gives `::` |
| ClientFormat.FormatApiTimestamp | doc/script.js:82-85 | `formatApiTimestamp` writes twelve decimal digits for a date of year 10 on with two-digit fields; `FormatApiTimestampLayout` says which, and `ApiTimestampRoundTrip` and `ApiTimestampReencode` invert it |
| ClientFormat.FormatTooltipTime | doc/script.js:153-156 | `formatTooltipTime` writes `HH:MM`: two digits, a colon, two digits; `TooltipTimeIsDisplayPrefix` relates it to the display |
| ClientFormat.ParseApiTimestamp | doc/script.js:82-85 | a text decodes exactly when it is 12 ASCII digits, into six fields of 0..99 |
| ClientFormat.FormatApiTimestampLayout | doc/script.js:82-85 | the encoder writes 12 digits: the year modulo 100, then month, day, hour, minute and second, two digits each |
| ClientFormat.ApiTimestampRoundTrip | doc/script.js:82-85 | decoding the encoder's output gives (year mod 100, month, day, hour, minute, second) |
| ClientFormat.ApiTimestampReencode | doc/script.js:82-85 | every 12-digit text is the encoder's output for its decoded fields, in any century |
| ClientFormat.DecodedFieldsReencode | doc/script.js:83-84 | the six decoded two-digit fields, written back two digits each, give the text |
| ClientFormat.DisplayOfEncoded | doc/script.js:21-27 | the display slicer applied to an encoded timestamp shows the padded hour, minute and second |
| ClientFormat.TooltipTimeIsDisplayPrefix | doc/script.js:153-156 | the tooltip time is 5 characters and is the `HH:MM` prefix of the displayed time of the same date |
| TimestampValidation.MatchesPattern | server.py:16-17 | the regular expression matches only twelve ASCII digits, possibly followed by one final newline; `GroupsAreRanges` gives each group's range |
| TimestampValidation.StrptimeDate | server.py:19 | `strptime` reads a year in 1969..2068 and five two-digit fields; `EndToEnd.StrptimeReadsDecodedFields` says which |
| TimestampValidation.StrptimeSucceeds | server.py:18-22 | `strptime` succeeds only on exactly twelve digits; a final newline the pattern let through is unconverted data and fails |
| TimestampValidation.ValidateTimestamp | server.py:15-23 | `validate_timestamp` accepts only twelve digits naming an existing date and time; `ValidateTimestampSpec` gives the converse |
| TimestampValidation.PivotYear | server.py:19 | `%y` maps 00..99 into 1969..2068 and keeps the last two digits |
| TimestampValidation.GroupsAreRanges | server.py:16 | each regex group accepts exactly the two-digit values of its field's range (month 1..12, day 1..31, hour 0..23, minute and second 0..59) |
| TimestampValidation.ValidateTimestampSpec | server.py:15-23 | a text is accepted exactly when it is 12 ASCII digits naming an existing date (with the pivot year) and a time of day |
| TimestampValidation.TrailingNewlineRejected | server.py:16-22 | the pattern also matches an accepted text followed by a newline, but that text is rejected; accepted texts have length 12 |
| TimestampValidation.PivotLeapYear | server.py:19 | a pivot year is a leap year exactly when its two digits are divisible by 4 |
| TimestampValidation.LeapDayAccepted | server.py:15-23 | 29 February with a valid time is accepted exactly when the two-digit year is divisible by 4 |
| ElectricityEndpoint.Missing | server.py:47-50 | `not request.args.get(name)`: an argument that is not missing is present and non-empty; `EarliestGuardWins` uses it for the 400 messages |
| ElectricityEndpoint.Electricity | server.py:43-78 | 400 exactly when an argument is missing, empty or invalid; otherwise 404 exactly when a lookup is empty; otherwise 200 with both readings |
| ElectricityEndpoint.ElectricityStatus | server.py:47-78 | the status is 400 exactly for a missing, empty or invalid argument; otherwise 404 exactly when a lookup is empty, and 200 exactly when both found a reading |
| ElectricityEndpoint.EarliestGuardWins | server.py:47-53 | the first failing guard decides the message: missing `from`, then missing `to`, then format |
| ElectricityEndpoint.DatabaseReachedOnlyWithDigits | server.py:52-71 | the SQL text is built only from two arguments of exactly 12 ASCII digits |
| ElectricityEndpoint.RejectionIgnoresDatabase | server.py:47-55 | a rejected request gets the same answer whatever the database holds |
| GraphPartition.CeilDiv | doc/script.js:32 | `Math.ceil(a / b)` is the least `q` with `a <= q * b` |
| GraphPartition.SlotCount | doc/script.js:31-32 | there are 96 slots of 15 minutes, covering a day exactly |
| GraphPartition.SlotWindow | doc/script.js:45-53 | window `i` starts at slot `i` of today or of yesterday, and it is either a full 15 minutes or ends at `now`; `CurrentSlotClamped`, `FutureSlotFromYesterday`, `FinishedSlotUnchanged` and `SlotWindowBounds` say which |
| GraphPartition.QueryFor | doc/script.js:55-56 | both request arguments are twelve-digit timestamps when the bounds' local dates are from year 10 on; `EndToEnd.PartitionRequestsPassGuard` shows they pass the server's checks |
| GraphPartition.PartitionDay | doc/script.js:42-60 | the loop pushes exactly 96 windows, window `i` at position `i`, each the slot's window |
| GraphPartition.CurrentSlotClamped | doc/script.js:45-49 | the slot holding `now` keeps its start and ends at `now` |
| GraphPartition.FutureSlotFromYesterday | doc/script.js:45-52 | a slot not yet begun today is the same slot of yesterday, 15 minutes long |
| GraphPartition.FinishedSlotUnchanged | doc/script.js:45-46 | a slot already over keeps its full window of today |
| GraphPartition.SlotWindowBounds | doc/script.js:45-52 | every window has `start <= end` and lasts at most 15 minutes; it is empty exactly when `now` is the slot's boundary |
| GraphPartition.WindowsInTrailingDay | doc/script.js:44-60 | when the two midnights are a day apart, every window lies in the 24 hours up to `now` |
| GraphPartition.StartsTodayIffBegun | doc/script.js:45-52 | a window starts at or after midnight exactly when its slot has begun today |
| GraphPartition.WindowsDisjoint | doc/script.js:44-60 | no two windows overlap |
| GraphPartition.WindowWithinSpan | doc/script.js:44-53 | every instant of a window lies between the end of yesterday's copy of the current slot and `now` |
| GraphPartition.SpanWithinWindows | doc/script.js:44-53 | every instant between the end of yesterday's copy of the current slot and `now` lies in some window |
| GraphPartition.CoveredSpan | doc/script.js:44-53 | an instant lies in some window exactly when it is between the end of yesterday's copy of the current slot and `now` |
| GraphPartition.TrailingDayStartUncovered | doc/script.js:44-53 | the instant 24 hours before `now` lies in no window: the windows cover less than a full day |
| GraphPartition.AveragePower | doc/script.js:71-72 | the average power times the window's length in milliseconds is the energy times 3600 times 1000 |
| GraphPartition.SampleFor | doc/script.js:70-73 | the pushed entry has the window's start, the energy, and its average power |
| GraphPartition.FullSlotPower | doc/script.js:71-72 | over a full 15-minute window the average power is four times the energy |
| GraphRender.Powers | doc/script.js:96 | the power list has one entry per sample, in order |
| GraphRender.MaxPower | doc/script.js:96 | the maximum is at least 0.1 and at least every power, and it is 0.1 or one of the powers |
| GraphRender.ScaledHeight | doc/script.js:107-108 | a bar is never lower than 2 pixels |
| GraphRender.ScaledHeightProportional | doc/script.js:107-108 | above the 2-pixel floor the height is the power's share of the maximum times the graph height |
| GraphRender.ScaledHeightWithinGraph | doc/script.js:96-108 | a bar whose power is at most the maximum fits in a graph of at least 2 pixels |
| GraphRender.ScaledHeightMonotone | doc/script.js:107-108 | more power never gives a lower bar |
| GraphRender.AllZeroBarsAtMinimum | doc/script.js:96-108 | with all powers zero the maximum is 0.1 and every bar is 2 pixels |
| GraphRender.ScaledHeightAtMaximum | doc/script.js:107-108 | a power equal to the maximum is scaled to the full graph height |
| GraphRender.TallestBarFillsGraph | doc/script.js:96-108 | the most powerful sample, when above 0.1, fills the graph height |
| GraphRender.Graph.constructor | doc/script.js:88-89 | the graph starts empty with its container's size |
| GraphRender.Graph.BarWidth | doc/script.js:92-93 | with one or more samples the bars' shared width times their number is the container's width; `BarsSpanGraph` places the last bar |
| GraphRender.BarFor | doc/script.js:104-117 | a drawn bar is at least 2 pixels high and has the shared width |
| GraphRender.BarsSideBySide | doc/script.js:110-111 | the first bar starts at 0 and each next bar starts where the previous one ends |
| GraphRender.BarsSpanGraph | doc/script.js:92-111 | with one or more samples the last bar ends exactly at the container's width |
| GraphRender.BarCurrentIffToday | doc/script.js:113-117 | a bar is styled current exactly when its sample starts at or after midnight, and faded otherwise |
| GraphRender.Graph.Render | doc/script.js:87-149 | the container ends with one bar per sample, in order; bar `i` is the bar of sample `i` at position `i`, scaled against the maximum power and the container's height, with width `clientWidth / data.length` |
| GraphRender.TooltipPosition | doc/script.js:130-140 | left is never negative; it follows the cursor when it fits; on a right overflow it moves 10 pixels in from the right edge, or to 10 when that edge position is negative; a negative left that fits is reset to 10; the tooltip then fits horizontally when the window is wide enough; top follows the cursor minus 30 when the tooltip fits, and on a bottom overflow is exactly 10 pixels above the bottom, with no lower clamp |
| GraphRender.Tooltip.constructor | doc/script.js:101 | the element looked up at line 101; its starting state, empty and transparent, is taken from the page markup, which is not part of the script |
| GraphRender.Tooltip.OnMouseEnter | doc/script.js:119-143 | the heading is the slot's start and end time, `HH:MM - HH:MM`; the tooltip is opaque; its offsets are the clamp's: they follow the cursor when the tooltip fits, move 10 pixels in from the right edge on a right overflow, reset a negative left to 10, keep the left edge on screen, and put the bottom 10 pixels above the window's bottom exactly on a bottom overflow |
| GraphRender.Tooltip.OnMouseLeave | doc/script.js:145-147 | the tooltip turns transparent and nothing else changes |
| EndToEnd.StrptimeReadsDecodedFields | server.py:19 | `strptime` on 12 digits reads the client decoder's fields, with the pivot year |
| EndToEnd.RealDateInPivotYear | server.py:19 | a date that exists in a year also exists in the pivot year of its last two digits |
| EndToEnd.EncodedTimestampAccepted | doc/script.js:82-85 | every timestamp the client writes for an existing date from year 10 on is accepted, and the server reads back that date with the pivot century |
| EndToEnd.AcceptedTimestampReencodes | server.py:15-23 | every accepted text is 12 digits, and it is the client's encoding of the date `strptime` reads from it |
| EndToEnd.ValidArgumentsPassGuard | server.py:47-78 | two accepted arguments pass every guard; the answer is 200 exactly when both lookups found a reading |
| EndToEnd.PartitionRequestsPassGuard | doc/script.js:55-58 | when the local dates of a window's two bounds exist and lie in year 10 or later, the request built for that window passes the endpoint's checks, so the answer is 404 or 200 depending only on the database |

## Left out

- Network and asynchrony: `fetch`, `Promise.all`, `response.json()`, `setInterval` and console
  logging (`doc/script.js:3-19, 58, 61-77, 158-160`). `PartitionDay` builds the windows
  (`requestDetails`). `QueryFor` gives each window's `from` and `to` arguments. The URL text
  and the `fetchRequests` list are not modelled.
- The loop over responses at `doc/script.js:63-74`: only one entry of it is modelled
  (`SampleFor`). In the source, a non-2xx response at index `i` throws inside the loop;
  the error is caught at line 75 and `renderGraph` still runs at line 79 with the `i`
  samples pushed so far. A rejected `Promise.all` renders an empty graph.
- GraphPartition.AveragePower: requires `start < end`, because real division by zero has
  no counterpart to the source's `Infinity`/`NaN`. `SlotWindowBounds` names the one case
  where a window is empty.
- GraphPartition.SampleFor: requires `start < end`, for the same reason.
- `fetchPower` and its display (`doc/script.js:3-19`). Of it, only `formatTimestamp` is
  modelled.
- `electricity_instant` (`server.py:26-39`): a database read and a float rounding.
- The energy difference of the 200 answer, `np.ceil(... * 1000)` on floats
  (`server.py:80-84`). `Found` carries the two readings it is computed from.
- SQLite queries, Flask routing, `send_from_directory` and `app.run`. The two lookups are
  `Option` inputs of `Electricity`.
- DOM work: element lookup, `innerHTML`, classes and event listeners. The graph's and
  tooltip's state are class fields. Measured sizes and cursor positions are integer or real
  parameters.
- GraphRender.Tooltip.OnMouseEnter: the second line of the tooltip (`power` W and `energy` Wh,
  printed from floats) is not modelled; only the heading is.
- Floating point: powers, energies and bar sizes are exact reals. Rounding and the CSS text
  of sizes are not modelled.
- JavaScript `Date` semantics: time zones, daylight-saving time and `setDate`/`setHours`. The
  instants `now`, `midnight` and `midnightYesterday` are parameters, and local dates come
  from the parameter `localTime`. `renderGraph` computes its own midnight; `Graph.Render`
  takes it as a parameter. The lemmas about the whole day assume `DayAnchors`: midnight is a
  day after yesterday's midnight, and `now` falls in today. That need not hold across a
  daylight-saving change.
- The unused `now` argument of `renderGraph` is not a parameter of `Graph.Render`.
- ElectricityEndpoint.DatabaseReachedOnlyWithDigits: holds for ASCII digits only. Python's
  `\d` and `strptime` also accept other Unicode decimal digits (an Arabic-Indic five as the
  last character, say), and such a text reaches the SQL text at `server.py:57-60`; the
  model accepts ASCII digits only.
- Years below 10 and negative years, where `slice(-2)` of the year does not give two digits:
  the client properties assume a year of at least 10.
