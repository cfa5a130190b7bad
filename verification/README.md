# pytest-contexts: shared-setup items, item expansion and traceback pruning

A Dafny model of the pytest plugin `pytest_contexts.py`. The plugin runs "contexts"-style
specification classes under pytest. Each specification class is expanded into one pytest item
per (example, assertion) pair. All items built for one example share a single context object.
The plugin runs `run_setup` and `run_action` of that shared context at most once. It does this
with two flags on the context: `_pytest_contexts_run_setup` and
`_pytest_contexts_setup_failed`. `run_teardown`, however, runs once for every item.

The model has five modules:

- `Contexts` (`contexts.dfy`) holds the data model. A `Context` record holds the example, the
  assertion names, the two flags, and a trace of every call the plugin made into user code.
  A `World` is the arena of shared contexts plus the items that point into it by index.
- `ContextsItem` (`item.dfy`) covers `ContextsItem.__init__`, `setup`, `runtest`, `teardown`
  and `reportinfo`. Each is a pure step on the shared context. The outcome of each user call
  (returned, or raised an `Exception`) is an input. `WellFormed` states the invariant that
  every step keeps.
- `Protocol` (`protocol.dfy`) models the host runner. For each item, pytest calls `setup`,
  then `runtest` only if `setup` did not raise, then `teardown` always. Any schedule of items
  can be run over a freshly collected world. The lemmas state what the shared-setup scheme
  guarantees under every schedule.
- `ContextsCollector` (`collector.dfy`) covers `ContextsCollector.collect` and `reportinfo`:
  how items are expanded, how they are labelled, a parser that reads labels back, and the
  layout of the items.
- `Traceback` (`traceback.dfy`) covers the three substring filters of
  `ContextsItem._prunetraceback`, over frame paths.

## Model

| member | source | states |
|---|---|---|
| Contexts.NewContext | pytest_contexts.py:37-45 | a context constructed for an example carries that example and the class's assertions, has both flags down, and has seen no call. On a new context the plugin's flags do not exist yet; the first item constructed over it sets both to false (lines 61-62) before any read (lines 68, 78), so the model treats "absent" as "down" |
| ContextsItem.Init | pytest_contexts.py:61-62 | constructing an item lowers both flags of its shared context and changes nothing else in it |
| ContextsItem.InitRearmsSetup | pytest_contexts.py:61-62 | building one more item over a context whose setup already ran makes the next `setup` call `run_setup` once more |
| ContextsItem.Setup | pytest_contexts.py:67-75 | a sibling that finds the run flag up makes no call and raises nothing, even after a failed setup. Otherwise the run flag goes up before `run_setup`. If `run_setup` raises, `run_action` is not called, the failed flag goes up and the same error is raised. If `run_setup` returns, `run_action` runs and its error, if any, raises the failed flag and is raised unchanged |
| ContextsItem.Runtest | pytest_contexts.py:77-81 | with the failed flag up it returns without any call. Otherwise it calls exactly this item's assertion, with the context's example, and raises what that raises |
| ContextsItem.Teardown | pytest_contexts.py:83-84 | calls `run_teardown` on the shared context every time, whatever the flags, and raises what that raises |
| ContextsItem.ItemReportInfo | pytest_contexts.py:64-65 | the item's label, line 0, and a location from which the item's file is recovered, separated from the label by `:` |
| ContextsItem.SetupKeepsWellFormed | pytest_contexts.py:67-75 | `setup` keeps the shape of the calls a shared context has seen |
| ContextsItem.RuntestKeepsWellFormed | pytest_contexts.py:77-81 | `runtest` of an item whose assertion belongs to the context keeps that shape |
| ContextsItem.TeardownKeepsWellFormed | pytest_contexts.py:83-84 | `teardown` keeps that shape |
| ContextsItem.WellFormedBounds | pytest_contexts.py:67-81 | in a well-formed context, `run_setup` ran exactly once if the run flag is up and never otherwise, and `run_action` at most as often, and exactly once when setup succeeded. Every assertion call it saw came while setup had not failed, was one of the context's assertions, and got the context's example |
| Protocol.RunItem | pytest_contexts.py:67-84 | one item through pytest's protocol. A setup error is reported exactly when `runtest` was not called, and only the first item of a context can report one. For that first item the setup report is the error of `run_setup`, or else the outcome of `run_action`, unchanged. Unless the context's setup failed, the item's assertion is called with the context's example, and its outcome is the call report. Teardown runs exactly once per run. The run flag is up afterwards, and the failed flag is up exactly when it already was or this setup raised |
| Protocol.RunItemUserCalls | pytest_contexts.py:67-84 | while setup has not failed, a run adds exactly `run_setup` and `run_action` (if they had not run yet) and then this item's assertion to the user calls of its context |
| Protocol.RunItemTrace | pytest_contexts.py:67-84 | while setup has not failed, a run appends to its context's trace `run_setup` and `run_action` (if they had not run yet), then this item's assertion with the context's example, then `run_teardown` |
| Protocol.RunItemKeepsWellFormed | pytest_contexts.py:67-84 | running one item through the protocol keeps its context well formed |
| Protocol.RunSchedule | pytest_contexts.py:67-84 | any schedule yields one report per run, for that run's item. It keeps every item valid and every context's example and assertions |
| Protocol.RunLeavesOthers | pytest_contexts.py:67-84 | a run changes no context other than its own item's |
| Protocol.UnrunContextUntouched | pytest_contexts.py:67-84 | a context none of whose items ran is exactly as collected, whatever the other contexts' setups did, failures included |
| Protocol.TraceStep | pytest_contexts.py:67-84 | the last run of a schedule keeps a context's trace in the shape `ScheduleTrace` states: a run of one of its items appends that item's assertion and `run_teardown` (after `run_setup` and `run_action` on its first run), and a run of another context's item adds nothing |
| Protocol.ScheduleInvariant | pytest_contexts.py:67-84 | after any schedule from a fresh world, every context is well formed. Its run flag is up exactly when one of its items ran. It was torn down once per run of one of its items. It produced one setup-error report if its failed flag is up, and none otherwise. While its setup has not failed, it saw `run_setup`, `run_action` and one assertion call per run of its items |
| Protocol.ScheduleGuarantees | pytest_contexts.py:67-84 | under any schedule, per context: `run_setup` ran exactly once if one of its items ran and never otherwise. `run_action` ran no more often, and exactly once when setup succeeded. At most one setup error was reported. `run_teardown` ran once per run of its items. After a failed setup no assertion ran. Otherwise, teardowns aside, the user calls are `run_setup`, then `run_action`, then one assertion per run of its items |
| Protocol.ScheduleTrace | pytest_contexts.py:67-84 | under any schedule, while a context's setup has not failed, its whole trace is `run_setup` and `run_action` (once one of its items has run) followed, for each run of one of its items in schedule order, by that item's own assertion with the context's example and then `run_teardown` |
| Protocol.AssertionsSeeTheirExample | pytest_contexts.py:77-81 | under any schedule, every assertion a context ran is one of its own and got that context's example |
| Protocol.SiblingOfFailedSetupPasses | pytest_contexts.py:67-79 | a sibling of a failed setup reports neither a setup error nor a call error and makes no user call other than teardown |
| ContextsCollector.ExampleSuffix | pytest_contexts.py:48-49 | the label suffix is empty exactly for `NO_EXAMPLE` |
| ContextsCollector.ItemName | pytest_contexts.py:47-49 | a label starts with `collector.assertion`. It is exactly that long if and only if the context has no example |
| ContextsCollector.ItemNameRoundTrip | pytest_contexts.py:47-49 | a label parses back to the assertion and the example it was built from |
| ContextsCollector.ItemNamesDistinct | pytest_contexts.py:47-49 | two labels of one collector are equal if and only if their assertion and example are |
| ContextsCollector.Collect | pytest_contexts.py:34-50 | yields `|examples| * |assertions|` items. Item `i * |assertions| + j` is assertion `j` over a freshly constructed context of example `i`, labelled accordingly. There is one context per example, all fresh, and every item is valid |
| ContextsCollector.ExpandIndex | pytest_contexts.py:36-50 | the expansion has one item per (example, assertion) pair, examples outer and assertions inner |
| ContextsCollector.ExpansionLabelsDistinct | pytest_contexts.py:36-50 | within one class, each (example, assertion) pair gets its own context index and label. This holds when examples render distinctly and assertion names are distinct and contain no spaces |
| ContextsCollector.CollectorReportInfo | pytest_contexts.py:31-32 | the collector's name, line 0, and a location from which the file is recovered, separated from the name by `.` |
| Traceback.Contains | pytest_contexts.py:91 | Python's substring test: true if and only if the needle occurs at some position of the path |
| Traceback.Filter | pytest_contexts.py:90-98 | a filtered traceback is no longer than the original. It holds every frame the predicate keeps, as many times as it occurs, and no other frame |
| Traceback.FilterConcat | pytest_contexts.py:90-98 | filtering distributes over concatenation, so kept frames stay in their original order |
| Traceback.FilterCommute | pytest_contexts.py:90-98 | two traceback filters applied in either order give the same frames in the same order |
| Traceback.Prune | pytest_contexts.py:89-98 | the three filters in a row keep, in their original order, exactly the frames whose path contains neither the plugin's file name, nor `/_pytest`, nor `/pluggy/` |
| Traceback.PruneOrderIrrelevant | pytest_contexts.py:89-98 | applying the three filters in any of the other five orders gives the same traceback |
| Traceback.PruneKeepsUserFrames | pytest_contexts.py:89-98 | a traceback made only of user frames is left whole |

## Siblings of a failed setup

When a context's setup fails, only the first item over it reports a setup error. Every other
item over that context is reported as passed, not as "not run". Its `setup` finds the run
flag up and does nothing (line 68), and its `runtest` finds the failed flag up and returns
(lines 78-79). pytest counts a `runtest` that returns as a pass, so the sibling passes unless
its `teardown` raises. `Protocol.SiblingOfFailedSetupPasses` states this: such a sibling
reports `Ok` for setup and `Some(Ok)` for its call.

## Left out

- The `Exception` vs `BaseException` distinction (line 73). An outcome is either a return or
  an `Exception`. A `KeyboardInterrupt` or another non-`Exception` error would leave the failed
  flag down, and the model does not represent it.
- `super()._prunetraceback(excinfo)` and the argument-less `traceback.filter()` (lines 87-88).
  Both are pytest's own hidden-frame logic. `Traceback.Prune` starts from the traceback that
  those two calls leave.
- `pytest_pycollect_makeitem`, `PLUGINS` and class identification (lines 14-20). These are
  pytest hook dispatch and the `contexts` library's identification plugins.
- The `contexts.core` library: `TestClass`, `get_examples`, `Context.run_setup`/`run_action`/
  `run_teardown` and `run_with_test_data`. They are foreign code. The examples and assertion
  names are inputs to `Collect`, and the outcome of each call is an input to each `Run`.
  Examples are identified by their `str()` rendering.
- `inspect.getfile` and `pathlib` (lines 28 and 89). The class's file is an input string,
  and frame paths are plain strings.
- pytest's `Collector`/`Item` base classes and the rest of the report plumbing. A report is
  reduced to the outcomes of the item's three phases.
- Concurrency between sibling items. The plugin takes no lock and assumes a sequential host.
- Protocol.ScheduleInvariant: schedules start from a freshly collected world, because pytest
  collects every item before running any. An item constructed later lowers the flags of a
  context that has already run. `ContextsItem.InitRearmsSetup` states that consequence
  separately.
- ContextsCollector.Collect: Python yields items lazily. The model builds them in one pass,
  with each item's construction lowering its context's flags in the same order.
- ContextsCollector.ItemNameRoundTrip: assumes assertion names contain no space, as Python
  method names do. Without that, a label cannot always be read back.
- ContextsCollector.ExpansionLabelsDistinct: also assumes examples with distinct `str()`
  renderings. The plugin itself gives the same label to two examples that render alike.
