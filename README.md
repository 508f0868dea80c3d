# pytest-execution-timer, modelled in Dafny

pytest-execution-timer is a pytest plugin that reports how long pytest's own
phases take: session start, collection, per-file and per-item collection,
the test loop and per-collector report generation. The test-loop entry
wraps the whole run of the tests, so it includes the test bodies. This project models its core, the class `PytestExecutionTimer`:

- **The duration table.** `PytestExecutionTimer.durations` is one
  insertion-ordered dictionary from hook keys to elapsed seconds. It is a
  class attribute, so every timer instance shares it. The model has a class
  `Durations.DurationTable`, which holds the keys in insertion order plus a
  map. Each `Plugin.ExecutionTimer` refers to the one table it is built over.
  `Durations.Assign` is the reference meaning of a dict assignment on the
  table seen as a list of entries. An existing key keeps its position and
  gets the new value; a new key goes at the end. `DurationTable.Put` is
  proved to implement it.
- **The six hook wrappers.** Each one forms its key (`Phases.Key`) and stores
  `end - start` under it. The two clock readings are parameters.
- **The terminal summary.** `ExecutionTimer.TerminalSummary` writes a section
  header, then the threshold line, then loops over the table in order. It
  writes a `<seconds>\t<key>` line for every entry strictly above
  `m / 1000` seconds. The threshold is converted with `timedelta` once per
  entry, and `timedelta` raises `OverflowError` for a threshold beyond
  about 999 999 999 days. The method then stops after the two header lines
  and reports the overflow. Its output is proved equal to
  `Report.TerminalOutput`, which is `Report.Summary` whenever the conversion
  succeeds or the table is empty. The lemmas in
  `Report` state which entries survive, their order, what raising the
  threshold does, and the shape of the output.
- **The options and the gate.** `--minimum-duration` defaults to 100 ms.
  `pytest_configure` registers a timer only under `--execution-timer`.
  `Plugin.RunSession` stands for the host: it configures the plugin, sends
  each hook call to the registered timer, and asks for the summary. Without
  the flag, nothing is recorded and nothing is written.

Durations are `real`, so the comparison with `m / 1000` is exact. The terminal
reporter is modelled only as the list of lines written to it
(`Report.TerminalReporter.lines`).

Keys per item are `"pytest_itemcollected\t" + item.name`. Two items with the
same name in different files therefore share one entry, and the later
duration replaces the earlier one (`Durations.AssignOverwrites`). The table
is class-level state, shared by every instance. A duration is `end - start`,
with no claim that it is non-negative.

## Model

| member | source | states |
|---|---|---|
| `Phases.Key` | pytest_execution_timer/plugin.py:23-73 | the key each hook writes: three fixed hook names, and three prefixes followed by the path, item name or node id; its meaning is given by `Phases.KeyRoundTrip` and `Phases.KeyInjective` |
| `Phases.KeyRoundTrip` | pytest_execution_timer/plugin.py:23-73 | every hook key can be decoded back to its hook and its path, item name or node id, so the three fixed names and the three prefixes never clash |
| `Phases.KeyInjective` | pytest_execution_timer/plugin.py:23-73 | two hook occurrences write the same key exactly when they are the same hook with the same discriminator |
| `Decimal.IntToString` | pytest_execution_timer/plugin.py:80-82 | the threshold is rendered as a non-empty numeral that starts with a minus sign exactly when it is negative |
| `Decimal.IntRoundTrip` | pytest_execution_timer/plugin.py:80-82 | the rendered threshold reads back as the same integer |
| `Durations.Assign` | pytest_execution_timer/plugin.py:19-73 | the dict write `durations[key] = end - start` on the table as an ordered list of entries; characterised by `Durations.AssignExisting`, `Durations.AssignNew`, `Durations.AssignLookup` and `Durations.AssignOverwrites` |
| `Durations.AssignExisting` | pytest_execution_timer/plugin.py:19 | assigning to a key already in the table replaces only that entry's value and keeps every position |
| `Durations.AssignNew` | pytest_execution_timer/plugin.py:19 | assigning to a key not in the table appends it at the end and keeps all earlier entries |
| `Durations.AssignKeepsKeysUnique` | pytest_execution_timer/plugin.py:19 | assignment never creates a duplicate key; the key order is unchanged for an old key and gains the new key at the end otherwise |
| `Durations.AssignLookup` | pytest_execution_timer/plugin.py:19 | after `d[k] = v` the key `k` maps to `v` and every other key keeps its value or absence |
| `Durations.AssignOverwrites` | pytest_execution_timer/plugin.py:46-51 | a second write to the same key leaves the table as if only the later write had happened, e.g. two items sharing a name |
| `Durations.DurationTable.constructor` | pytest_execution_timer/plugin.py:19 | the table starts empty |
| `Durations.DurationTable.Put` | pytest_execution_timer/plugin.py:28-73 | the in-place dict write keeps the keys unique and in step with the map, and its entries are exactly `Assign` of the old entries |
| `Report.ThresholdText` | pytest_execution_timer/plugin.py:80-82 | the threshold line, with the threshold rendered as `Decimal.IntToString` gives it (see `Decimal.IntRoundTrip`, `Report.SummaryShape`) |
| `Report.ThresholdSeconds` | pytest_execution_timer/plugin.py:86 | the threshold in seconds, `m / 1000` exactly; the comparison it enters is characterised by `Report.KeptMember` and `Report.AtThresholdDropped` |
| `Report.TimedeltaSeconds` | pytest_execution_timer/plugin.py:86 | `timedelta(milliseconds=m).total_seconds()` is `m / 1000` exactly when the day count fits in a `timedelta`, and an overflow otherwise |
| `Report.TimedeltaRangeBounds` | pytest_execution_timer/plugin.py:86 | `timedelta(milliseconds=m)` can be built exactly when -86 399 999 913 600 000 <= m < 86 400 000 000 000 000 |
| `Report.SummaryRaisesBounds` | pytest_execution_timer/plugin.py:84-86 | the summary raises exactly when the table is non-empty and the threshold is outside those bounds |
| `Report.TimedeltaInRange` | pytest_execution_timer/plugin.py:86 | whether `timedelta(milliseconds=m)` can be built: the day count, rounded down, is at most 999 999 999 in magnitude; its meaning as bounds on `m` is `Report.TimedeltaRangeBounds` |
| `Report.SummaryRaises` | pytest_execution_timer/plugin.py:84-86 | whether `pytest_terminal_summary` raises `OverflowError`: the table is non-empty and the threshold does not fit in a `timedelta`; characterised by `Report.SummaryRaisesBounds` |
| `Report.Survives` | pytest_execution_timer/plugin.py:86 | the comparison `value > m / 1000` that decides whether an entry is reported; characterised by `Report.KeptMember` and `Report.AtThresholdDropped` |
| `Report.Header` | pytest_execution_timer/plugin.py:79-82 | the section line and the threshold line written before the loop; pinned literally by `Report.SummaryShape` |
| `Report.LineOf` | pytest_execution_timer/plugin.py:87 | the duration line `<seconds>\t<key>` for one entry, with the three-decimal rendering left abstract; `Report.SummaryShape` and `Report.KeptMember` state which entries get one |
| `Report.Kept` | pytest_execution_timer/plugin.py:84-87 | the entries the loop reports; characterised by `Report.KeptMember`, `Report.KeptIsSubsequence` and `Report.KeptMonotone` |
| `Report.Summary` | pytest_execution_timer/plugin.py:79-87 | the lines of a summary that does not raise; characterised by `Report.SummaryShape` and `Report.SummaryStep` |
| `Report.TerminalOutput` | pytest_execution_timer/plugin.py:79-87 | the lines written before the hook returns or raises; characterised by `Report.SummaryRaisesBounds` and proved equal to what `Plugin.ExecutionTimer.TerminalSummary` writes |
| `Report.KeptMember` | pytest_execution_timer/plugin.py:84-87 | an entry is reported if and only if it is in the table and its seconds are strictly greater than the threshold |
| `Report.AtThresholdDropped` | pytest_execution_timer/plugin.py:86 | an entry whose duration equals the threshold exactly is not reported |
| `Report.KeptIsSubsequence` | pytest_execution_timer/plugin.py:84-87 | the reported entries are a subsequence of the table, in insertion order |
| `Report.KeptMonotone` | pytest_execution_timer/plugin.py:86 | raising the threshold can only drop reported entries, never add or reorder them |
| `Report.SummaryShape` | pytest_execution_timer/plugin.py:79-87 | the summary starts with the section title and the threshold line, has one more line per reported entry and at most one per table entry, and is only those two lines exactly when no entry exceeds the threshold |
| `Report.SummaryStep` | pytest_execution_timer/plugin.py:84-87 | looking at one more table entry adds its line exactly when it survives the threshold |
| `Report.TerminalReporter.WriteSection` | pytest_execution_timer/plugin.py:79 | a section header is appended to the sink and nothing else changes |
| `Report.TerminalReporter.WriteLine` | pytest_execution_timer/plugin.py:87 | one line is appended to the sink and nothing else changes |
| `Plugin.ExecutionTimer.constructor` | pytest_execution_timer/plugin.py:19 | every timer refers to the one shared class-level table |
| `Plugin.ExecutionTimer.SessionStart` | pytest_execution_timer/plugin.py:23-28 | stores `end - start` under `pytest_sessionstart`; every other entry keeps its key, value and position |
| `Plugin.ExecutionTimer.Collection` | pytest_execution_timer/plugin.py:32-37 | stores `end - start` under `pytest_collection`; every other entry keeps its key, value and position |
| `Plugin.ExecutionTimer.CollectFile` | pytest_execution_timer/plugin.py:39-44 | stores `end - start` under `pytest_collect_file:` followed by the path |
| `Plugin.ExecutionTimer.ItemCollected` | pytest_execution_timer/plugin.py:46-51 | stores `end - start` under `pytest_itemcollected`, a tab, and the item name |
| `Plugin.ExecutionTimer.RunTestLoop` | pytest_execution_timer/plugin.py:55-62 | stores `end - start` under `pytest_runtestloop` |
| `Plugin.ExecutionTimer.MakeCollectReport` | pytest_execution_timer/plugin.py:66-73 | stores `end - start` under `pytest_make_collect_report`, a tab, and the collector's node id |
| `Plugin.ExecutionTimer.Observe` | pytest_execution_timer/plugin.py:23-73 | a hook call stores its elapsed time under its own key, as one dict assignment |
| `Plugin.ExecutionTimer.TerminalSummary` | pytest_execution_timer/plugin.py:75-87 | the lines appended are the header, the threshold line, and then the surviving entries in table order; when the table is non-empty and the threshold does not fit in a `timedelta`, only the two header lines are written and `overflow` is set; the table is not modified |
| `Plugin.Replay` | pytest_execution_timer/plugin.py:23-73 | the table after a sequence of hook calls, one dict write per call in order; characterised by `Plugin.ReplayKeepsKeysUnique` and reached by `Plugin.RunSession` |
| `Plugin.ReplayKeepsKeysUnique` | pytest_execution_timer/plugin.py:23-73 | any sequence of hook calls leaves the table without duplicate keys |
| `Plugin.ParseOptions` | pytest_execution_timer/plugin.py:90-105 | `--execution-timer` is passed through; `--minimum-duration` is the given value, or 100 ms (0.1 s) when absent |
| `Plugin.DefaultThresholdReportsSlowLoop` | tests/test_pytest_execution_timer.py:28-39 | under the default threshold, the test-loop entry is reported if and only if it took more than 0.1 s |
| `Plugin.Configure` | pytest_execution_timer/plugin.py:108-110 | a timer is registered if and only if `--execution-timer` is set, and it uses the shared table |
| `Plugin.RunSession` | pytest_execution_timer/plugin.py:108-110 | without the flag the table and the sink are unchanged and nothing raises; with it the table is the replay of the hook calls, the sink gains exactly `TerminalOutput` of that table, and `overflow` is set exactly when the summary raises |

## Left out

- Wall-clock measurement (`time.time()`) is not modelled. Start and end readings are parameters, and a duration is not claimed to be non-negative, because the clock is not monotonic.
- The `yield` hookwrapper mechanism is not modelled: how control passes to the wrapped hook, and whether a duration is recorded or an exception propagates when that hook raises. Both depend on pluggy and pytest, which are not part of this model.
- Durations are exact reals, not binary floats. Where `timedelta(milliseconds=m)` can be built, `total_seconds()` is taken as the exact rational `m / 1000`. For entries very close to the threshold, float rounding could decide the comparison differently in the real plugin.
- The `{value:.3f}` rendering of a duration line is left abstract. `Report.DurationLine` holds the exact seconds and the key.
- Option registration and parsing, the option group, `--help` output and `pluginmanager.register` are host plumbing. Only the default value and the gate's decision are modelled (`Plugin.ParseOptions`, `Plugin.Configure`).
- The order in which pytest calls the hooks is not modelled. `Plugin.RunSession` takes any sequence of hook calls.
- What pytest does with the `OverflowError` raised by the summary hook is not modelled. `Plugin.ExecutionTimer.TerminalSummary` and `Plugin.RunSession` report it as the `overflow` result and leave the written lines as they were when it was raised.
- Terminal output is modelled only as the list of lines written to the reporter.
- The integration tests in tests/test_pytest_execution_timer.py run pytest through `pytester` with real sleeps. They are not modelled; their scenarios are restated as `Plugin.DefaultThresholdReportsSlowLoop` and the two cases of `Plugin.RunSession`.
