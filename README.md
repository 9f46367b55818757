# Internet usage monitor: a Dafny model of its bookkeeping

The monitor is a desktop utility (`app.py`, class `InternetUsageApp`). Once a
second it reads the system-wide byte counters and charts the change since the
previous reading. The chart keeps a rolling window of 30 samples per series.
Once a second it also rebuilds a table of the processes that have established
connections, with each process's change in I/O counters since the previous
table. Two buttons switch all networking off and on with a shell command, and
terminate every process named like the selected row.

This project models the state those operations keep and how each one updates
it. What the libraries would return arrives as method parameters. Widgets,
plotting and timers are not modelled.

- `wrappers.dfy`, module `Wrappers`: `Option`, used for Python's `None` and for a read that raised.
- `rate_history.dfy`, module `RateHistory`: the window step `Push`, the reference window `LastN`, the
  successive differences `Diffs` of counter readings, and the chart invariant with the lemmas about it.
- `process_table.dfy`, module `ProcessTable`: connections, reads and records, the table rebuild `Rebuild` as a
  function, and lemmas on which pids it keeps and what deltas it reports.
- `network_toggle.dfy`, module `NetworkToggle`: the button label and the shell command for each flag value,
  and the parity of repeated presses.
- `termination.dfy`, module `Termination`: the pids the terminate action targets, and lemmas about that set.
- `internet_usage_app.dfy`, module `InternetUsage`: class `InternetUsageApp`. Like the source's fields, it
  holds `procData`, `disconnectFlag`, the button label, `sentHistory`/`recvHistory` and `prevNetIo`, and its
  methods update them in place. Ghost fields record every counter reading and the number of button presses.
  The invariant `Valid()` ties the chart series to those readings and the flag to the presses.

Modelling decisions:

- Byte counts are unbounded integers (Python integers). A sample is `current - previous` in bytes and is
  never clamped: app.py:53-54 subtracts with no clamp, so a counter that restarts gives a negative sample.
- The source checks only `sent_history`'s length and then pops both lists. The model does the same. It is
  correct because the invariant keeps the two series the same length.
- A table tick takes the connection list with, for each entry, the result of looking up and reading its
  process. That result is absent when the library raised "no such process" or "access denied". Reads happen
  per connection, so a pid with several connections is read several times. The last successful read wins. A
  later failed read of the same pid skips only that connection: the earlier entry stays. Every delta for a pid
  is taken against the previous tick's table, never against an entry made earlier in the same tick.
- The per-process "sent"/"received" values are the process's cumulative `write_bytes`/`read_bytes` I/O
  counters. The model keeps the source's field names and does not interpret them as network traffic.
- The network press returns the shell command it issues. The new flag and label do not depend on what the
  command achieves, because the source never looks at its result.
- The terminate action returns the pids it sends a terminate signal to, in listing order. A listed process
  whose name could not be read has no name (`None`) and never matches.
- The constructor stops where `__init__` makes its first `update_chart` and `update_treeview` calls. Those
  first calls are ordinary ticks (`UpdateChart`, `UpdateProcData`).

## Model

| member | source | states |
|---|---|---|
| `RateHistory.Push` | app.py:58-62 | one chart step: the series never exceeds 30 samples once within the window, grows by one until it is full and then keeps its length, and ends with the new sample |
| `RateHistory.PushKeepsOrder` | app.py:58-62 | FIFO: the samples before the new one are the newest samples of the old series in their order, and on overflow the old element 0 is the one dropped |
| `RateHistory.PushWindow` | app.py:58-62 | pushing onto the newest 30 samples of any sample sequence gives the newest 30 samples of that sequence extended by the new one |
| `RateHistory.DiffsAt` | app.py:52-54 | each chart sample is a counter reading minus the reading before it |
| `RateHistory.DiffsSnoc` | app.py:52-55 | a new reading adds exactly one sample, taken against the latest reading, which is the stored snapshot |
| `RateHistory.WindowStep` | app.py:52-62 | a tick turns the window over the readings so far into the window over those readings plus the new one |
| `RateHistory.ChartInvariantBounds` | app.py:38-39 | under the chart invariant both series have the same length and hold at most 30 samples |
| `RateHistory.ChartTick` | app.py:52-62 | a tick with any snapshot preserves the chart invariant: windows over all readings, and the snapshot is the latest reading |
| `RateHistory.SumOfDiffs` | app.py:52-54 | the samples telescope: all of them together add up to the last reading minus the first |
| `RateHistory.WindowTotal` | app.py:52-62 | the samples a window shows add up to the counter's growth since the reading just before the window |
| `ProcessTable.NewRecord` | app.py:84-90 | the record made from one read holds its name and cumulative counters, with deltas against the previous table's entry, or zero when the pid has none |
| `ProcessTable.Rebuild` | app.py:75-93 | the table the loop builds, folding the connections in order; pid 0 is never a key and there are at most as many keys as connections; `RebuildKeys`, `RebuildEntry`, `ColdStart`, `DeltaAgainstPrevious` and `Dropped` state which pids it keeps and what their records hold |
| `ProcessTable.RebuildLastStep` | app.py:77-90 | a connection that is established, has a non-zero pid and was read sets that pid's entry from its read; any other connection leaves the pid's entry alone |
| `ProcessTable.RebuildKeys` | app.py:75-93 | a pid is in the new table exactly when one of its connections is established, has a non-zero pid and was read successfully |
| `ProcessTable.RebuildEntry` | app.py:76-92 | a pid's record holds the name and counters of its last successful read, with deltas against the previous table or zero when the pid was not in it |
| `ProcessTable.ColdStart` | app.py:87-89 | a pid absent from the previous table is reported with zero sent and received deltas |
| `ProcessTable.DeltaAgainstPrevious` | app.py:84-86 | a pid present in both tables reports new cumulative minus previous cumulative, for sent and for received; the result may be negative |
| `ProcessTable.Dropped` | app.py:75-93 | a pid with no established, successfully read connection this tick is not in the new table, whatever the previous table held |
| `NetworkToggle.LabelFor` | app.py:114-117 | the button reads "Reconnect" exactly while networking is switched off and "Disconnect" otherwise |
| `NetworkToggle.CommandFor` | app.py:112-117 | the command a press issues is the one the current label offers: "networking on" exactly when the label reads "Reconnect" |
| `NetworkToggle.PressParity` | app.py:118 | after n presses the flag is the starting value flipped exactly when n is odd |
| `Termination.MatchingPids` | app.py:133-134 | the pids the terminate loop collects, in listing order, at most one per listed process; `MatchingPidsExact`, `MatchingPidsAppend` and `SharedNameBothTargeted` state which pids these are |
| `Termination.MatchingPidsExact` | app.py:133-134 | a pid is targeted exactly when some listed process with that pid has the selected name |
| `Termination.MatchingPidsAppend` | app.py:133-137 | targets follow the listing's order: the targets of two listings joined are the two target lists joined |
| `Termination.SharedNameBothTargeted` | app.py:132-137 | two different listed processes sharing the selected name are both targeted, not only the selected one |
| `InternetUsage.InternetUsageApp.constructor` | app.py:9-42 | starts with an empty table, the flag off, the label "Disconnect", empty series and the initial snapshot, with the invariant established |
| `InternetUsage.InternetUsageApp.UpdateChart` | app.py:51-62 | the snapshot becomes the current counters; each series becomes `Push` of its old value and current minus previous counter; the invariant is kept; both series have equal length of at most 30 |
| `InternetUsage.InternetUsageApp.UpdateProcData` | app.py:74-93 | the loop builds a new table and replaces the old one wholesale with `Rebuild` of the previous table and this tick's connections; nothing else changes |
| `InternetUsage.InternetUsageApp.ToggleNetwork` | app.py:110-118 | every press negates the flag and sets the label to "Reconnect" when the flag became true and "Disconnect" when it became false; the command issued is `CommandFor` the old flag |
| `InternetUsage.InternetUsageApp.TerminateSelectedProcess` | app.py:129-137 | with no selection nothing is targeted; with a selection the loop targets exactly the listed pids whose name equals the selected row's name, in listing order |

## Left out

- Tk widgets: building the window, deleting and inserting table rows, restoring the selection (app.py:94-107), and enabling or disabling the terminate button (app.py:122-127). These are interface only.
- Chart drawing with matplotlib (app.py:63-68). This is rendering done by an external library.
- The psutil calls `net_io_counters`, `net_connections`, `Process`, `name`, `io_counters`, `process_iter` and `terminate`. These are foreign operating-system queries. Their results are method parameters. The exceptions the source catches become absent reads. An exception it does not catch would end the callback and is not modelled.
- The shell command `os.system("nmcli networking …")` (app.py:113, 116). It is a side effect. The model returns the command string and models only the state change. The `except` branch of `toggle_network` (app.py:119-120) is not modelled, because `os.system` reports failure through its exit status rather than by raising.
- The rescheduling with `root.after(1000, …)` (app.py:69, 108). This belongs to the timer and event loop. One tick is one method call, and the chart and table ticks are separate methods, as they are separate callbacks.
- UpdateChart: its samples are integer byte deltas. The source divides by 1024*1024 and rounds to two decimals, which is floating-point arithmetic.
- UpdateProcData: its deltas are integer byte deltas. The source divides them by 1024*1024 (app.py:85-86) and rounds them for display (app.py:97-98), which is floating-point arithmetic.
- TerminateSelectedProcess: it returns the pids it tries to terminate. Whether a signal succeeds, and the console messages (app.py:138-140), are not modelled: that outcome comes from the operating system.
- The selected row's name is a parameter. Reading it from the widget (app.py:130-132) is interface work.
- `print` logging.
