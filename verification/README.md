# Device-monitoring dashboard in Dafny

This project is a Dafny model of the decision logic in a small device-monitoring demo. The demo has three parts:

- a Node backend that reads operating-system counters and pushes them over a WebSocket;
- a React front end that charts and tabulates them;
- a test-runner script that drives the Playwright suites.

Each piece of logic is written as a pure function or state transition over immutable records. The parts outside the logic become parameters:

- the operating-system readings;
- the clock;
- the browser's time zone;
- the canvas renderer;
- the outcome of each test command.

The modules follow the source files:

- `PerformanceGraph` covers one metric chart. Its window keeps the last ten readings and its y-axis scale only grows. It also computes bar heights and threshold colours.
- `DevicePerformance` derives the CPU-load and memory-percentage series from the latest record.
- `TimezoneModal` holds the seventeen-zone table, the case-insensitive search and the initial selection.
- `DeviceDetails` covers the details table: MAC and resolution formatting, the 12-hour clock label, and each row's fallback.
- `SectionScreenshot` covers the capture, refresh and download handlers and the download file name.
- `EditInfoModal` covers the form's initial values, the per-field change handler and the submit hand-off.
- `DeviceManagement` models the page's socket handlers as a reducer, plus the identifier, title and status label.
- `SystemService` is the backend's `getSystemInfo` arithmetic.
- `RunTests` covers the test runner:
  - the bounded retry loop;
  - the report tallies;
  - command-line classification;
  - the exit code.
- `Dashboard` relates the backend's record to what the page does with it.
- `Wrappers`, `Strings`, `Decimal` and `Rounding` hold the shared helpers:
  - JavaScript truthiness (`a || b`);
  - substring search;
  - ASCII case mapping;
  - the `\s` character class;
  - decimal rendering;
  - `Math.round` and `Math.ceil` on reals.

The front-end record is `DeviceInfo.Info`. Every field is optional, so a missing field and an empty string or zero are separate cases.

Two properties relate a fold of the handlers to an independent definition, and both are proved for every history of events:

- **The metric window.** After any sequence of samples, the window is the newest ten accepted readings in arrival order (`ReplayWindow`). The scale is the least multiple of ten that is at least 100 and at least every accepted reading (`ReplayScale`).
- **The socket reducer.** After any sequence of callbacks, "Connected" is shown exactly when the latest open, error or close callback was an open. The record shown is the one from the latest good frame.

## Model

| member | source | states |
|---|---|---|
| PerformanceGraph.Update | frontend/components/device/PerformanceGraph.js:8-29 | A missing or zero value leaves window and scale unchanged; otherwise the new point is the newest, a window under ten grows by exactly that point, the window never exceeds ten, the scale never decreases and covers the value, and the state invariant is kept |
| PerformanceGraph.NextScale | frontend/components/device/PerformanceGraph.js:16 | The scale is kept unless the value exceeds it; then it becomes a multiple of ten in `[value, value + 10)` |
| PerformanceGraph.Slide | frontend/components/device/PerformanceGraph.js:18-24 | Appending keeps at most ten points with the new one last; a short window just grows by it; a full one stays at ten |
| PerformanceGraph.ReplayWindow | frontend/components/device/PerformanceGraph.js:18-24 | After any history, the window equals the newest ten accepted readings, in arrival order |
| PerformanceGraph.ReplayScale | frontend/components/device/PerformanceGraph.js:5-28 | After any history, the scale is at least 100, a multiple of ten, at least every accepted reading, and either still 100 or less than ten above some accepted reading |
| PerformanceGraph.ReplayValid | frontend/components/device/PerformanceGraph.js:4-28 | Every reachable state holds at most ten points and a scale that is a multiple of ten no smaller than 100 |
| PerformanceGraph.Height | frontend/components/device/PerformanceGraph.js:31-34 | The bar height is the reading as a percentage of the scale, raised to 1 when smaller; never below 1 and at most 100 for a reading within the scale |
| PerformanceGraph.LevelOf | frontend/components/device/PerformanceGraph.js:40-43 | Critical exactly when the reading reaches the critical threshold; warning exactly when it lies in `[warning, critical)` |
| PerformanceGraph.LevelMonotone | frontend/components/device/PerformanceGraph.js:40-43 | A larger reading never falls in a milder band |
| PerformanceGraph.ValueColor | frontend/components/device/PerformanceGraph.js:37-44 | No thresholds gives the chart's own colour; otherwise red at or above critical, orange in the warning band, the chart's colour below both |
| PerformanceGraph.HeaderText | frontend/components/device/PerformanceGraph.js:47-66 | An empty window shows `--`; otherwise the newest point through the series' formatter |
| PerformanceGraph.HeaderShowsNewest | frontend/components/device/PerformanceGraph.js:47-66 | After any history the header shows the newest accepted reading, or `--` when none was accepted |
| Rounding.Ceil | frontend/components/device/PerformanceGraph.js:16 | `Math.ceil`: the least integer at or above the argument |
| Rounding.RoundHalfUp | frontend/components/device/DevicePerformance.js:31 | `Math.round`: an integer within one half of the argument, halves going up |
| Rounding.Percent | frontend/components/device/DevicePerformance.js:31 | The rounded percentage of a part in a positive whole lies in `[0, 100]` for a part within the whole, is 100 for the whole and 0 for nothing |
| DevicePerformance.RamPercent | frontend/components/device/DevicePerformance.js:30-31 | Memory usage as a whole percentage, in `[0, 100]` when used lies within total, 100 when full, 0 when empty |
| DevicePerformance.Derive | frontend/components/device/DevicePerformance.js:9-44 | A null record changes nothing; the CPU series is replaced only when `cpu.loadAverage` is present, with the load passed through and bands 1.0/2.0; the memory series only when `ram` is present with a positive total, as the rounded percentage with unit `%`, the `%` formatter and bands 70/90; otherwise each series is kept; ordered thresholds are preserved |
| DevicePerformance.RamSeriesInRange | frontend/components/device/DevicePerformance.js:26-41 | A consistent memory record always yields a series whose value lies in `[0, 100]` |
| DevicePerformance.CpuNormalLooksCritical | frontend/components/device/DevicePerformance.js:17-60 | The CPU chart is drawn in the critical red, so a load below the warning band gets the same colour as a critical load |
| DevicePerformance.RamColoursTellLevelsApart | frontend/components/device/DevicePerformance.js:36-68 | On the memory chart, readings in different bands always get different colours |
| DevicePerformance.PercentLabel | frontend/components/device/DevicePerformance.js:40 | The memory header is the percentage's decimal digits followed by `%` |
| DevicePerformance.PercentLabelReadsBack | frontend/components/device/DevicePerformance.js:40 | Dropping the `%` and parsing the digits gives the percentage back |
| TimezoneModal.TableWellFormed | frontend/components/device/TimezoneModal.js:4-22 | The table has seventeen entries with pairwise distinct values (used as option keys), and UTC is among them |
| TimezoneModal.Keep | frontend/components/device/TimezoneModal.js:56-60 | The filter lists only matching entries, lists every matching entry, and is a subsequence of its input |
| TimezoneModal.Search | frontend/components/device/TimezoneModal.js:52-63 | An empty query lists the whole table in order; otherwise an entry is listed exactly when its lower-cased label or value contains the lower-cased query; the result is always a subsequence of the table |
| Strings.IncludesIff | frontend/components/device/TimezoneModal.js:57-59 | `includes` holds exactly when the query occurs at some position |
| TimezoneModal.SearchSound | frontend/components/device/TimezoneModal.js:56-60 | Every listed entry contains the lower-cased query in its lower-cased label or value |
| TimezoneModal.SearchComplete | frontend/components/device/TimezoneModal.js:53-60 | Every table entry that matches is listed |
| TimezoneModal.SearchOrderedAndDistinct | frontend/components/device/TimezoneModal.js:57 | The listing keeps table order and never holds two entries with the same value |
| TimezoneModal.SearchIgnoresCase | frontend/components/device/TimezoneModal.js:56 | Queries equal after lower-casing list the same entries |
| TimezoneModal.EmptyQueryMatchesAll | frontend/components/device/TimezoneModal.js:53-60 | The filter with an empty query would keep the whole table as well |
| TimezoneModal.KeepAllMatching | frontend/components/device/TimezoneModal.js:57-60 | When every entry matches, the filter returns its input unchanged |
| TimezoneModal.InitialSelection | frontend/components/device/TimezoneModal.js:33-49 | The browser's zone is selected when it can be read, UTC otherwise |
| TimezoneModal.ZoneLabel | frontend/components/device/TimezoneModal.js:121 | An empty selection shows `Not set`; any other shows itself |
| TimezoneModal.FallbackIsListed | frontend/components/device/TimezoneModal.js:45-47 | When the browser's zone cannot be read, the zone shown is the table's first entry |
| DeviceDetails.FormatMac | frontend/components/device/DeviceDetails.js:15-17 | An absent or empty address shows `Unknown`; otherwise the same length, colons in the same places, no lower-case letter, and the same letters up to case |
| DeviceDetails.FormatMacIdempotent | frontend/components/device/DeviceDetails.js:15-17 | Formatting an already formatted address gives it back |
| DeviceDetails.DialHour | frontend/components/device/DeviceDetails.js:25 | The 12-hour dial shows 1..12 and agrees with the hour modulo twelve |
| DeviceDetails.MinuteField | frontend/components/device/DeviceDetails.js:26 | The minute field is two digits that read back as the minute |
| DeviceDetails.ClockLabel | frontend/components/device/DeviceDetails.js:20-28 | As written, the label starts with `Today at ` and always ends with ` AM` |
| DeviceDetails.ClockLabelSameIff | frontend/components/device/DeviceDetails.js:24-27 | As written, two readings show the same label exactly when they agree on the hour modulo twelve and on the minute |
| DeviceDetails.ClockLabelAfternoonShownAsMorning | frontend/components/device/DeviceDetails.js:24-27 | As written, 13:05 and 01:05 render the same text, ending in ` AM` |
| DeviceDetails.ClockLabelFixed | frontend/components/device/DeviceDetails.js:20-28 | With the intended suffix, the label ends in ` AM` before noon and ` PM` from noon |
| DeviceDetails.ClockTextParts | frontend/components/device/DeviceDetails.js:27 | A label splits back into its hour, minute and suffix fields |
| DeviceDetails.ClockLabelFixedInjective | frontend/components/device/DeviceDetails.js:24-27 | With the intended suffix, two readings show the same label exactly when they are the same time |
| DeviceDetails.Resolution | frontend/components/device/DeviceDetails.js:30-36 | `Unknown` without displays or when the first display lacks a resolution; otherwise the first display's resolution upper-cased |
| DeviceDetails.ResolutionIgnoresLaterDisplays | frontend/components/device/DeviceDetails.js:30-36 | Displays after the first never change the resolution |
| DeviceDetails.DeviceName | frontend/components/device/DeviceDetails.js:39 | The name row is `Device - ` followed by the formatted MAC |
| DeviceDetails.DisplayCount | frontend/components/device/DeviceDetails.js:99 | A missing or zero monitor count shows 1, any other shows itself; never zero |
| DeviceDetails.DisplayLines | frontend/components/device/DeviceDetails.js:100-104 | One line per display, in order; line `i` is headed by the display's model or `Display i+1`, then ` : `, holds the display's resolution or `Unknown`, and ends in ` - Landscape` |
| DeviceDetails.DisplayLine | frontend/components/device/DeviceDetails.js:102 | A display's line is its model or number, ` : `, its resolution or `Unknown`, then ` - Landscape`, and nothing else |
| DeviceDetails.IpRow | frontend/components/device/DeviceDetails.js:113 | The IP row starts with `Public `, carries the address when there is one, and falls back to `127.0.0.1` |
| DeviceDetails.ModelRow | frontend/components/device/DeviceDetails.js:82 | The model row is the CPU's model name when present and non-empty, `Unknown` otherwise |
| DeviceDetails.Render | frontend/components/device/DeviceDetails.js:5-121 | Without a record only the loading view is shown. With one, the name is `Device - ` and the MAC, and both MAC rows hold the formatted MAC. Each time row is the as-written label of its own clock reading and ends in ` AM`; two time rows agree exactly when their readings agree on the hour modulo twelve and the minute. The model, resolution, display count, display lines and IP rows come from their helpers. The firmware is the OS string or `Unknown`, and the location is fixed |
| DeviceDetails.RenderFixed | frontend/components/device/DeviceDetails.js:20-121 | With the intended suffix, every row except the three time rows is as in the component as written; each time row ends in ` AM` before noon and ` PM` from noon, and two time rows agree exactly when their readings are the same time |
| SectionScreenshot.BeginCapture | frontend/components/device/SectionScreenshot.js:17-18 | While rendering, the panel is busy and the error is cleared |
| SectionScreenshot.Capture | frontend/components/device/SectionScreenshot.js:11-40 | The panel is never busy afterwards; a missing target or a failed render leaves the screenshot and shows the fixed failure text; a successful render stores the image and clears the error |
| SectionScreenshot.Refresh | frontend/components/device/SectionScreenshot.js:43-47 | Refresh clears both the screenshot and the error |
| Strings.DashSpaceRuns | frontend/components/device/SectionScreenshot.js:56 | Replacing each whitespace run by `-` leaves no whitespace, never lengthens the text, and leaves whitespace-free text alone |
| Strings.SpaceRunBecomesOneDash | frontend/components/device/SectionScreenshot.js:56 | A maximal run of whitespace becomes exactly one dash |
| Strings.DashSpaceRunsKeepsInk | frontend/components/device/SectionScreenshot.js:56 | The rewrite keeps every character other than whitespace and dashes, in order |
| SectionScreenshot.Stamp | frontend/components/device/SectionScreenshot.js:56-57 | The timestamp is the first nineteen characters of the ISO text (all of it when shorter), with every colon replaced by a dash and every other character kept |
| SectionScreenshot.StampOfIsoTime | frontend/components/device/SectionScreenshot.js:56-57 | `2024-05-01T12:34:56.789Z` gives `2024-05-01T12-34-56` |
| SectionScreenshot.TitlePrefix | frontend/components/device/SectionScreenshot.js:55-57 | Without a title the prefix is `section-screenshot-`; with one, it is the lower-cased title with whitespace runs dashed, then `-`, holding no whitespace or upper-case letter and the title's other characters in order |
| SectionScreenshot.Filename | frontend/components/device/SectionScreenshot.js:55-57 | The file name is the prefix, then the timestamp, then `.png` |
| SectionScreenshot.FilenameHasNoSpace | frontend/components/device/SectionScreenshot.js:55-57 | A file name built from an ISO time never contains whitespace |
| SectionScreenshot.Download | frontend/components/device/SectionScreenshot.js:50-61 | No file without a screenshot; otherwise the file name above |
| EditInfoModal.InitialForm | frontend/components/device/EditInfoModal.js:4-10 | Name from `hostName` or empty; description and tags empty; location is the record's when present and non-empty, `Hanoi - Vietnam - Asia` otherwise; model is `cpu.model` when present and non-empty, `Apple M1 Pro` otherwise |
| EditInfoModal.UnchangedFormSavesRecord | frontend/components/device/EditInfoModal.js:4-39 | Saving the untouched form hands the record's own host name, location and CPU model to the save callback |
| EditInfoModal.Change | frontend/components/device/EditInfoModal.js:15-20 | The named field takes the new value and every other field is unchanged |
| EditInfoModal.FormExtensional | frontend/components/device/EditInfoModal.js:4-10 | Forms agreeing on every field are equal |
| EditInfoModal.ChangesCommute | frontend/components/device/EditInfoModal.js:15-20 | Edits to different fields commute |
| EditInfoModal.ChangeOverwrites | frontend/components/device/EditInfoModal.js:15-20 | A second edit of a field replaces the first |
| EditInfoModal.ChangeToSameIsIdentity | frontend/components/device/EditInfoModal.js:15-20 | Re-entering a field's value changes nothing |
| EditInfoModal.Submit | frontend/components/device/EditInfoModal.js:23-48 | The dialog is never busy afterwards; the save callback gets the current form exactly when the response succeeds; no error exactly when the response succeeds and the callback returns; a failed response shows its fixed text; an exception from the callback shows its message, or the generic text when the message is empty |
| EditInfoModal.SubmitHandsOverEdits | frontend/components/device/EditInfoModal.js:34-39 | After an edit, a successful save receives the edited form, with the edited field holding the typed text |
| DeviceManagement.Step | frontend/pages/device-management.js:28-58 | Open connects and clears the error; an unparsable frame sets the parse error; a frame with an error sets it and keeps the record; a good frame replaces the record and clears the error; an error disconnects with the connect failure; a close disconnects and keeps the error |
| DeviceManagement.LastLinkEvent | frontend/pages/device-management.js:28-58 | The latest connection callback is never a message |
| DeviceManagement.ConnectedIffLastLinkWasOpen | frontend/pages/device-management.js:28-58 | After any callbacks, the page is connected exactly when the latest open, error or close was an open |
| DeviceManagement.RecordIsLastGood | frontend/pages/device-management.js:34-47 | After any callbacks, the record shown is the one from the latest well-formed frame without an error |
| DeviceManagement.ErrorIsLastMessage | frontend/pages/device-management.js:28-58 | After any callbacks, the message shown is the one set by the latest callback other than a close |
| DeviceManagement.DeviceId | frontend/pages/device-management.js:108 | The identifier is the upper-cased MAC when there is one, `Loading...` otherwise |
| DeviceManagement.Title | frontend/pages/device-management.js:113 | The title is `Device Management - ` followed by the identifier |
| DeviceManagement.StatusLabel | frontend/pages/device-management.js:124-132 | The badge reads `Connected` exactly when connected, `Disconnected` otherwise |
| DeviceManagement.SubtitleMatchesDetailsName | frontend/pages/device-management.js:121 | With a MAC address, the page subtitle equals the details table's name row |
| SystemService.ToMiB | backend/service/systemService.js:6-7 | The byte count in binary megabytes, rounded to the nearest with halves up |
| SystemService.ToMiBMonotone | backend/service/systemService.js:6-8 | Rounding to megabytes never reverses the order of two sizes |
| SystemService.GetSystemInfo | backend/service/systemService.js:3-31 | Total and free are rounded megabytes, used + free == total exactly, used lies in `[0, total]` when free bytes do not exceed total bytes, one monitor, the OS string is type, space, release, and the load average is the 1-minute figure |
| Dashboard.ServiceRecordOnThePage | backend/service/systemService.js:18-29 | Fed the backend's record, the memory chart plots a value in `[0, 100]`; the CPU chart never receives a series and the page identifier stays `Loading...`, because the record has no `cpu` object and no MAC |
| RunTests.TestCommand | run-tests.js:149-155 | The command is `npx playwright test `, the pattern, then ` --ui` exactly in UI mode, then ` --timeout=120000` |
| RunTests.RunTestsWithRetry | run-tests.js:139-173 | One to three attempts; success exactly when one of the three would pass; it stops at the first pass and every earlier attempt failed; failure means all three ran; attempts of the same command alternate with 3000 ms delays, with no delay after the last |
| RunTests.CountPassed | run-tests.js:183-194 | The passing count never exceeds the number of entries |
| RunTests.AllPassedIff | run-tests.js:186-194 | The passing count equals the total exactly when every entry passed |
| RunTests.GenerateReport | run-tests.js:179-199 | Total is the number of entries, passed the number of passing ones, failed the difference (never negative); the pass rate is undefined exactly when there are no entries, otherwise the rounded percentage of passing entries, in `[0, 100]`, 100 when all pass and 0 when none do |
| RunTests.Options | run-tests.js:29 | Every option comes from a `--` argument with the dashes removed, and every `--` argument gives one |
| RunTests.OptionsAppend | run-tests.js:29 | Appending an argument appends its option when it starts with `--` and nothing otherwise, so options keep the arguments' order and multiplicity |
| RunTests.SpecificTests | run-tests.js:278 | The named suite is the first argument not starting with `--`, and none exactly when every argument does |
| RunTests.ModeOf | run-tests.js:277-310 | A suite is named exactly when the first non-option argument exists and is non-empty, and it then runs alone; otherwise a UI flag starts the interactive UI; otherwise the default suites run |
| RunTests.EmptyArgumentNamesNoSuite | run-tests.js:278-294 | An empty first argument is falsy: alone it runs the default suites, beside `--ui` it starts the UI |
| RunTests.ExitCode | run-tests.js:322 | The exit code is 0 exactly when every recorded result passed (so also when none was recorded), 1 otherwise |
| RunTests.RunAll | run-tests.js:277-323 | Each planned suite (the named one when it is non-empty, none in UI mode, or the five defaults in order) is recorded with whether one of its attempts passed; the report follows only the default suites and tallies exactly the recorded results (total, passed, failed, rounded pass rate); no exit code in interactive mode; otherwise the exit code is 0 when every planned suite passed and 1 when not |

## Left out

- Case mapping covers ASCII letters only. JavaScript's `toLowerCase` and `toUpperCase` also map other scripts, so search, MAC and slug properties are stated for ASCII case.
- Numbers are Dafny `real` and `int`. NaN, infinities and IEEE rounding are not modelled, and neither is `toFixed(2)`, which is the CPU chart's formatter. The formatter is a parameter of `PerformanceGraph.HeaderText`.
- PerformanceGraph: the per-point time text comes from `toLocaleTimeString`. It is a field of each sample, and the rendering of bars and lines is left out.
- DevicePerformance.Derive: a `loadAverage` that is present but `null` is treated like an absent one. JSON field types other than numbers are not modelled.
- TimezoneModal: the dialog's submit handler, which hands the selection to a callback after a simulated request, is left out. So are the select's change handler, which only stores the chosen value, and the once-a-second clock text. None of them holds logic beyond the callback and `toLocaleTimeString`.
- DeviceDetails: each time row's hours and minutes are a parameter, because `new Date()` is a clock read. The copy-to-clipboard buttons are left out as browser I/O. The constant rows are not modelled: the status badge, the empty tags, shipping date and description, the fixed timezone text, and the fixed "Secret" value with its copy button.
- SectionScreenshot: `html2canvas`, the data URL and creating and clicking the link are left out. They appear only as the `Canvas` outcome and the file name. The ISO time string is a parameter.
- EditInfoModal: the one-second simulated request is left out, and `location` is treated as a string. A non-string `location` value is not modelled.
- EditInfoModal.Submit: an exception's message must be a string. Non-string error values are not modelled.
- DeviceManagement: `JSON.parse` is a parameter. A frame arrives parsed, as a `Payload`, or as a parse failure. Reconnection and the socket's lifetime are left out.
- DeviceManagement.ReportsError: it treats only a non-empty string `error` field as an error. Other truthy `error` values are not modelled.
- SystemService: `os.totalmem`, `os.freemem`, `os.loadavg`, `os.cpus`, `os.type`, `os.release` and `os.uptime` are parameters.
- RunTests: the following are left out as process control, timing and terminal I/O:
  - starting and stopping the servers;
  - the `lsof`/`netstat` port probe;
  - the sleeps;
  - the console output;
  - the command-line interface of interactive mode (`run`, `help`, `quit`).
- RunTests.RunAll: the outcome of each command is a parameter. The UI-mode branch's single `npx playwright test --ui` run records nothing, so it is not modelled further. The `Options` list is computed but never read in the program, so the model states only its order and multiplicity.
- The WebSocket server loop, the Express router and controller, and the test suites are not part of this model.

## Findings

| source | as written | input that shows it | evidently intended | confidence | as-written member | corrected member |
|---|---|---|---|---|---|---|
| frontend/components/device/DeviceDetails.js:24 | `hours >= 12 ? 'AM' : 'AM'`: both branches give `AM`, so every afternoon time is labelled as morning | hours 13, minutes 5: the label is `Today at 1:05 AM`, the same text as for hours 1, minutes 5 | `PM` from noon, so different times render differently | high; not executed | DeviceDetails.ClockLabelAfternoonShownAsMorning | DeviceDetails.ClockLabelFixedInjective |

Two further mismatches are evident from the source. Neither is a defect of one function, so neither appears as a finding row.

- The backend record has no `cpu` object. `loadAverage` sits at its top level. The record also has no MAC address. So with the backend as written, the CPU chart never receives data and the page identifier stays `Loading...` (`Dashboard.ServiceRecordOnThePage`).
  The front end reads `cpu.loadAverage`, `cpu.model`, `macAddress`, `hostName`, `displayInfo`, `ipAddress` and `location` (as a string), none of which the service sends. It also reads `monitors`, `operatingSystem` and `ram`, which the service does send. The model follows the service as written.
- The CPU chart's own colour is the same red as the critical threshold colour. On that chart, a normal reading and a critical one look alike (`DevicePerformance.CpuNormalLooksCritical`).
