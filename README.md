# Hardware Monitor for Linux — a Dafny model of its refresh logic

`HardwareMonitorLinux.py` is a small PyQt6 window with four tabs (CPU,
RAM, GPU, System). Each tab holds a two-column table ("Information",
"Value"). Every three seconds `update_all_info` rebuilds all four tables
from `psutil`, `platform`, `nvidia-smi` and `xrandr`. This project models
what ends up in those tables.

- **`add_info_to_table`** appends one row. The label gets header styling
  exactly when it starts with `"=="`.
- **The four `update_*_info` methods** each clear their table first.
  - The CPU, RAM and System updates then append a header row and the rows
    of their readings. When one of their unguarded queries raises, the table
    stays empty.
  - The GPU update appends the rows of its tiers and, when both fail, the
    placeholder row. When neither command can be run, the placeholder is
    the only row (`NothingAvailable`).
- **`update_gpu_info`** has two tiers and a placeholder:
  - the first tier parses the CSV line of `nvidia-smi`;
  - the fallback tier scans the `xrandr` listing for connected displays;
  - the placeholder row appears when the fallback fails too.
  The table is not cleared between tiers, so rows a failed tier appended
  stay on screen.
- **`update_all_info`** runs the four updates in order. An update that
  raises ends the refresh.

The project has five modules:

- `Wrappers` holds `Option`.
- `PyStr` models the Python string operations the code relies on:
  - `str.strip()`, `str.split(sep)`, `str.split()`;
  - `sub in s` and `str.startswith`;
  - whitespace as Python's `str.isspace` defines it for those characters.
- `Table` has the `Row` value and the `InfoTable` class, whose `rows`
  field the methods update.
- `GpuInfo` holds the two tiers:
  - each tier as a specification function over an `Attempt` (rows appended,
    ran to its end or not);
  - a method that appends the tier's rows to an `InfoTable` and is proved
    against that function.
- `Monitor` holds the readings, the row functions of the other tabs,
  `Refresh`, and the `HardwareMonitor` class with its four tables.

What the operating system reports is an input:

- Every `psutil`/`platform` query of a tab is one `Option` reading, `None`
  when it raised.
- Each command output is an `Option<string>`, `None` when the command could
  not be run, exited with an error or did not decode.

Two behaviours a reader might not expect:

- The tabs are not isolated from one another. A CPU or RAM query that
  raises propagates out of `update_all_info` and skips the later tabs.
  This is `CpuFailureStopsRefresh` and `RamFailureStopsRefresh`.
- When `xrandr` runs but lists no connected display, the
  "== Display Information ==" header is the last row of the GPU table. No
  placeholder is added (`NoConnectedDisplay`). Any rows a partly
  successful `nvidia-smi` tier appended stay in front of that header.

## Model

| member | source | states |
|---|---|---|
| `PyStr.ContainsOccurs` | HardwareMonitorLinux.py:178 | `sub in s` holds exactly when `sub` occurs in `s` at some index |
| `PyStr.LStripSpec` | HardwareMonitorLinux.py:163 | left strip keeps a suffix; what it drops is all whitespace; the kept part is empty or starts with a non-space |
| `PyStr.RStripSpec` | HardwareMonitorLinux.py:163 | right strip keeps a prefix; what it drops is all whitespace; the kept part is empty or ends with a non-space |
| `PyStr.StripSpec` | HardwareMonitorLinux.py:163 | `strip()` leaves no whitespace at either end, and gives "" exactly when the text is all whitespace |
| `PyStr.LStripOfSpaces` | HardwareMonitorLinux.py:163 | leading whitespace before a non-space is removed and nothing else |
| `PyStr.RStripOfSpaces` | HardwareMonitorLinux.py:163 | trailing whitespace after a non-space is removed and nothing else |
| `PyStr.StripSurrounded` | HardwareMonitorLinux.py:163 | `strip()` of text padded by whitespace on both sides gives the text back |
| `PyStr.StripIdempotent` | HardwareMonitorLinux.py:163 | stripping twice is stripping once |
| `PyStr.Split` | HardwareMonitorLinux.py:163 | `split(sep)` always gives at least one field, so `gpu_data[0]` never raises |
| `PyStr.SplitNoSep` | HardwareMonitorLinux.py:163 | no field of `split(sep)` contains the separator |
| `PyStr.JoinSplit` | HardwareMonitorLinux.py:163 | joining the fields of `split(sep)` with `sep` gives the text back |
| `PyStr.SplitWithoutSep` | HardwareMonitorLinux.py:163 | text without the separator splits into itself alone |
| `PyStr.SplitAfterField` | HardwareMonitorLinux.py:163 | a field, the separator, then more text splits into that field followed by the split of the rest |
| `PyStr.SplitJoin` | HardwareMonitorLinux.py:163 | splitting a join of separator-free fields gives the fields back |
| `PyStr.SplitLength` | HardwareMonitorLinux.py:163 | `split(sep)` gives one field more than there are separators |
| `PyStr.WordLength` | HardwareMonitorLinux.py:179-180 | the first word's length is within the text, and positive when the text starts with a non-space |
| `PyStr.WordLengthSpec` | HardwareMonitorLinux.py:179-180 | the first word has no whitespace and is followed by whitespace or the end |
| `PyStr.SplitWhitespaceSpec` | HardwareMonitorLinux.py:179-180 | `split()` gives non-empty words without whitespace, and no word exactly when the text is all whitespace |
| `PyStr.WordLengthOfWord` | HardwareMonitorLinux.py:179-180 | a word followed by whitespace or the end is the first word |
| `PyStr.SplitWhitespaceJoin` | HardwareMonitorLinux.py:179-180 | `split()` of words joined by single spaces gives the words back |
| `PyStr.SplitWhitespaceSkipSpaces` | HardwareMonitorLinux.py:179-180 | leading whitespace makes no difference to `split()` |
| `PyStr.SplitWhitespaceRun` | HardwareMonitorLinux.py:179-180 | `split()` splits on runs of whitespace: after leading whitespace, a word followed by a non-empty whitespace run (or the end) is the first word, and the rest splits the same way |
| `Table.HeaderLabelStartsWith` | HardwareMonitorLinux.py:207 | the header test is `label.startswith("==")`, both directions |
| `Table.StyledRow` | HardwareMonitorLinux.py:204-215 | the row carries the label and value as given, with header styling exactly for header labels |
| `Table.InfoTable.constructor` | HardwareMonitorLinux.py:83-95 | a new tab's table has no rows |
| `Table.InfoTable.Clear` | HardwareMonitorLinux.py:110 | `setRowCount(0)` leaves no rows |
| `Table.InfoTable.AddInfo` | HardwareMonitorLinux.py:200-215 | exactly one styled row is appended at the end; the earlier rows are unchanged |
| `Table.InfoTable.AddPairs` | HardwareMonitorLinux.py:122-123 | the loop over `items()` appends the rows of the pairs in order, after the existing rows |
| `GpuInfo.ThenAssociative` | HardwareMonitorLinux.py:161-182 | running try-blocks in sequence is associative |
| `GpuInfo.NvidiaFields` | HardwareMonitorLinux.py:163 | the stripped output splits on ',' into at least one field |
| `GpuInfo.FieldRows` | HardwareMonitorLinux.py:166-171 | reading `n` fields gives exactly `n` rows |
| `GpuInfo.FieldRowsAt` | HardwareMonitorLinux.py:166-171 | row `i` of the field rows is field `i`'s label and value |
| `GpuInfo.HeaderThenFieldRows` | HardwareMonitorLinux.py:165-171 | the header followed by the first `n` field rows has `n + 1` rows, and row `i + 1` is field `i`'s row |
| `GpuInfo.NvidiaRowsAre` | HardwareMonitorLinux.py:165-171 | the first tier appends its header and then one row per field read (at most six), nothing else |
| `GpuInfo.NvidiaSuccessRows` | HardwareMonitorLinux.py:165-171 | with six fields the tier completes and appends exactly seven rows with these labels and values, in order |
| `GpuInfo.FieldRowsNotPlaceholder` | HardwareMonitorLinux.py:166-171 | no row of the first tier is the placeholder row |
| `GpuInfo.FieldRowsPrefix` | HardwareMonitorLinux.py:166-171 | the field rows depend only on the fields read |
| `GpuInfo.ExtraFieldsIgnored` | HardwareMonitorLinux.py:163-171 | fields after the sixth make no difference to the first tier |
| `GpuInfo.NvidiaCompletesIffFiveCommas` | HardwareMonitorLinux.py:163-171 | the first tier completes exactly when the stripped output holds at least five commas |
| `GpuInfo.AddField` | HardwareMonitorLinux.py:167-171 | field `i`'s row is appended when there is a field `i`; otherwise nothing is appended and the tier stops |
| `GpuInfo.AddNvidiaRows` | HardwareMonitorLinux.py:161-171 | appends exactly the first tier's rows after the existing ones, and reports whether all six fields were there |
| `GpuInfo.ConnectedLineHasWord` | HardwareMonitorLinux.py:178-179 | a line that contains " connected " has a first word, so `line.split()[0]` never raises |
| `GpuInfo.LineAttemptRows` | HardwareMonitorLinux.py:177-180 | a line without " connected " adds nothing; a connected line adds "Display" with word 0, then "Resolution" with word 2 and completes, or, with fewer than three words, only the "Display" row and raises |
| `GpuInfo.CorrectedAgreesUnlessPrimary` | HardwareMonitorLinux.py:178-180 | the corrected line step and the written one agree on every line whose third word is not "primary" |
| `GpuInfo.ConnectedWordsAreWords` | HardwareMonitorLinux.py:179-180 | an `xrandr` connected line is made only of words |
| `GpuInfo.ConnectedLineWords` | HardwareMonitorLinux.py:178-180 | an `xrandr` connected line passes `' connected ' in line`, and `split()` gives back its words |
| `GpuInfo.ConnectedLineMarked` | HardwareMonitorLinux.py:178 | three or more words joined by spaces, the second being "connected", pass the `' connected '` test |
| `GpuInfo.JoinFirstWord` | HardwareMonitorLinux.py:178-179 | words joined by spaces start with the first word, then a space when there are more words, or nothing else |
| `GpuInfo.NoOccurrenceInWord` | HardwareMonitorLinux.py:178 | " connected " cannot start inside the first word of a line |
| `GpuInfo.JoinStartsConnected` | HardwareMonitorLinux.py:178 | words joined by spaces that begin with "connected " begin with the word "connected", and it is not the last word |
| `GpuInfo.ConnectedWordAt` | HardwareMonitorLinux.py:178 | an occurrence of " connected " in words joined by spaces means some word, neither the first nor the last, is "connected" |
| `GpuInfo.ConnectedLineHasConnectedWord` | HardwareMonitorLinux.py:178 | the converse of `ConnectedLineMarked`: a line of words passes `' connected ' in line` only when a word other than the first and the last is "connected" |
| `GpuInfo.DisconnectedLineSkipped` | HardwareMonitorLinux.py:177-180 | a line `<name> disconnected ...` without a later word "connected" fails the test, so the loop adds no row for it and goes on |
| `GpuInfo.PrimaryLineAsWritten` | HardwareMonitorLinux.py:180 | as written, the primary output's "Resolution" row shows "primary" |
| `GpuInfo.PrimaryLineCorrected` | HardwareMonitorLinux.py:179-180 | with the corrected line step, every connected line gives a "Display" row with its name and a "Resolution" row with its geometry |
| `GpuInfo.ScanLinesAppend` | HardwareMonitorLinux.py:177-180 | scanning two blocks of lines is scanning the first, then the second if the first ran to its end |
| `GpuInfo.ScanLinesLabels` | HardwareMonitorLinux.py:177-180 | the scan appends only "Display" and "Resolution" rows |
| `GpuInfo.ScanLinesNoneConnected` | HardwareMonitorLinux.py:177-178 | lines without " connected " add no row and never fail |
| `GpuInfo.ScanLinesSnoc` | HardwareMonitorLinux.py:177-180 | one more line adds that line's rows and decides whether the scan is still running |
| `GpuInfo.ScanLinesStops` | HardwareMonitorLinux.py:177-181 | once a line's step raises, later lines make no difference |
| `GpuInfo.AddLineRows` | HardwareMonitorLinux.py:178-180 | one loop iteration, `line.split()[2]` included, appends exactly that line's rows and reports whether it raised |
| `GpuInfo.AddXrandrRows` | HardwareMonitorLinux.py:174-180 | appends exactly the fallback tier's rows (header, then the scan) and reports whether it ran to its end |
| `GpuInfo.NotAvailableIffBothTiersFail` | HardwareMonitorLinux.py:161-182 | the placeholder row is shown exactly when both tiers fail, and then it is the last row |
| `GpuInfo.FallbackOnlyAfterFailure` | HardwareMonitorLinux.py:161-172 | once the first tier completes, the `xrandr` output makes no difference |
| `GpuInfo.DisplayRowBeforePlaceholder` | HardwareMonitorLinux.py:174-182 | when the first connected line without a third word is line `i`, the GPU table is the first tier's rows, the display header, the rows of the lines before `i`, that line's "Display" row, then the placeholder |
| `GpuInfo.NvidiaLeftoversStay` | HardwareMonitorLinux.py:161-182 | after a first tier that stops part-way, its header and field rows stay first and the fallback's rows follow them |
| `GpuInfo.NoConnectedDisplay` | HardwareMonitorLinux.py:161-182 | after a first tier that did not complete, an `xrandr` listing with no connected line leaves the first tier's rows and then the display header as the last row, without a placeholder |
| `GpuInfo.NothingAvailable` | HardwareMonitorLinux.py:161-182 | with neither command available, the placeholder row is the only row |
| `Monitor.EntryRows` | HardwareMonitorLinux.py:130-131 | one row per "coretemp" entry |
| `Monitor.RefreshReplacesAll` | HardwareMonitorLinux.py:102-106 | a refresh that does not raise shows all four tables rebuilt from the readings, whatever they showed before |
| `Monitor.RefreshIdempotent` | HardwareMonitorLinux.py:102-106 | refreshing twice with the same readings equals refreshing once |
| `Monitor.CpuFailureStopsRefresh` | HardwareMonitorLinux.py:102-119 | a CPU query that raises empties the CPU table and leaves the other three as they were |
| `Monitor.RamFailureStopsRefresh` | HardwareMonitorLinux.py:102-140 | a RAM query that raises: CPU refreshed, RAM emptied, GPU and System as they were |
| `Monitor.CpuRowsShape` | HardwareMonitorLinux.py:113-133 | the CPU header, then the five fixed rows in order with their units, then the temperature section (empty without "coretemp") |
| `Monitor.TempSectionShape` | HardwareMonitorLinux.py:128-131 | with "coretemp": its header, then one row per entry in order, value followed by "°C" |
| `Monitor.EntryRowsAt` | HardwareMonitorLinux.py:130-131 | row `j` of the temperature rows is entry `j`'s label and temperature |
| `Monitor.RamRowsShape` | HardwareMonitorLinux.py:142-154 | the memory header, then the seven fixed rows in order, sizes in " GB" and the share in "%" |
| `Monitor.SystemRowsShape` | HardwareMonitorLinux.py:188-198 | the system header, then the five fixed rows in order |
| `Monitor.HardwareMonitor.constructor` | HardwareMonitorLinux.py:65-81 | four distinct tables, showing what one refresh from empty tables shows |
| `Monitor.HardwareMonitor.UpdateCpuInfo` | HardwareMonitorLinux.py:108-133 | clears first; raises exactly when the CPU query fails, leaving the table empty; otherwise the table shows the CPU rows |
| `Monitor.HardwareMonitor.AddEntries` | HardwareMonitorLinux.py:130-131 | the loop over the entries appends their rows in order |
| `Monitor.HardwareMonitor.UpdateRamInfo` | HardwareMonitorLinux.py:135-154 | clears first; raises exactly when a memory query fails, leaving the table empty; otherwise the table shows the RAM rows |
| `Monitor.HardwareMonitor.UpdateGpuInfo` | HardwareMonitorLinux.py:156-182 | clears first, then shows the first tier's rows, then the fallback's rows and the placeholder as `GpuRows` says; never raises |
| `Monitor.HardwareMonitor.UpdateSystemInfo` | HardwareMonitorLinux.py:184-198 | clears first; raises exactly when a system query fails, leaving the table empty; otherwise the table shows the System rows |
| `Monitor.HardwareMonitor.UpdateAllInfo` | HardwareMonitorLinux.py:102-106 | the four updates run in order CPU, RAM, GPU, System; it raises exactly when a CPU, RAM or System query fails, and the tables then are `Refresh` of the tables before |

## Left out

- Qt is left out: the window, the style sheet, colours, fonts, column
  headers, the tab widget and `main`. Styling is reduced to one header
  flag per row.
- The three-second `QTimer` is left out. Each timer tick is one call of
  `UpdateAllInfo`.
- Number formatting is left out: `:.2f`, the division by `1024**3`, and
  `str()` of integers and floats. Each reading arrives as the text Python
  would produce; only the units the code appends (" MHz", "%", " GB", "°C")
  are modelled.
- The boot time's `strftime` and the `hasattr` choice between
  `freedesktop_os_release` and `linux_distribution` are left out. Each
  becomes a string reading.
- `subprocess.check_output` and `.decode()` are left out. Each command's
  outcome is an `Option<string>`.
- Query failures are modelled per tab, not per query. Every unguarded
  CPU, RAM or System query runs before the tab's first row is added, so a
  failure of any one of them leaves the same state: the table cleared and
  the refresh stopped. The model does not say which query failed. The
  guarded `sensors_temperatures()` query runs later, after the fixed CPU
  rows, and is covered by the next line.
- A failure of `sensors_temperatures()` is modelled as an absent reading:
  the `try`/`except: pass` around it leaves the fixed CPU rows alone.
- Monitor.HardwareMonitor.constructor: does not report a refresh that
  raises, because in Python that exception escapes `__init__` and no
  window exists. The model keeps the object and states its tables only.
- What happens after `update_all_info` raises is left out. The model
  stops at the raised flag. Under PyQt6 an exception that escapes the slot
  the timer calls ends the application by default, and that is not
  modelled.

## Findings

| source | as written | input that shows it | evidently intended | confidence | as-written member | corrected member |
|---|---|---|---|---|---|---|
| HardwareMonitorLinux.py:180 | The "Resolution" row shows `line.split()[2]`, the third word of the connected line. | `xrandr` prints the primary output as `HDMI-1 connected primary 1920x1080+0+0 ...`, so the row shows "primary". | The mode geometry `1920x1080+0+0`, which follows "primary" on that line. | not executed | `GpuInfo.PrimaryLineAsWritten` | `GpuInfo.PrimaryLineCorrected` |

The main path models line 180 as written. `GpuInfo.LineAttempt` takes
word 2, and `AddLineRows`, `ScanLines`, `AddXrandrRows`, `GpuRows` and
`UpdateGpuInfo` are built on it. `GpuInfo.LineAttemptCorrected` takes the
geometry after "primary" and is the corrected half.
`GpuInfo.CorrectedAgreesUnlessPrimary` shows that the two differ only on
lines whose third word is "primary".
