/**
 The host runner's per-item protocol and arbitrary schedules of items over shared contexts.

 pytest calls an item's `setup`, then `runtest` only if `setup` returned, then `teardown`
 whatever happened. A schedule is any sequence of such runs, in any order and with any
 multiplicity; each run carries the outcome that every call into user code would have.
 */
module Protocol {
  import opened Contexts
  import opened ContextsItem

  /** One run of the item at index `item`, with the outcome each user call it makes has. */
  datatype Run = Run(item: nat, setup: Outcome, action: Outcome, assertion: Outcome, teardown: Outcome)

  /** pytest's three reports for one run; `call` is `None` when `runtest` was not called. */
  datatype Report = Report(item: nat, setup: Outcome, call: Option<Outcome>, teardown: Outcome)

  /** A shared context after one run of an item, and that run's report. */
  datatype Turn = Turn(context: Context, report: Report)

  /** The world after a schedule, and one report per run, in order. */
  datatype Session = Session(world: World, reports: seq<Report>)

  /** A run of one item through `setup`, `runtest` (skipped when `setup` raised) and
      `teardown`: teardown is called exactly once, whatever happened before. */
  function RunItem(c: Context, assertion: string, run: Run): (r: Turn)
    ensures r.report.item == run.item && r.report.teardown == run.teardown
    ensures r.report.setup.Raised? <==> r.report.call.None?
    ensures r.context.example == c.example && r.context.assertions == c.assertions
    ensures Count(r.context.trace, RunTeardown) == Count(c.trace, RunTeardown) + 1
    ensures r.context.setupFailed <==> c.setupFailed || r.report.setup.Raised?
    ensures r.report.setup.Raised? ==> !c.runSetup
    ensures c.runSetup && c.setupFailed ==>
      r.report.setup == Ok && r.report.call == Some(Ok) && UserCalls(r.context.trace) == UserCalls(c.trace)
    ensures r.context.runSetup
    ensures !c.runSetup ==> r.report.setup == (if run.setup.Raised? then run.setup else run.action)
    ensures !r.context.setupFailed ==>
      r.report.call == Some(run.assertion) && Assertion(assertion, c.example) in r.context.trace
  {
    var s := Setup(c, run.setup, run.action);
    if s.outcome.Raised? then
      var t := Teardown(s.context, run.teardown);
      CountAppend(s.context.trace, [RunTeardown], RunTeardown);
      TeardownCalls(c.trace, [RunSetup]);
      Turn(t.context, Report(run.item, s.outcome, None, t.outcome))
    else
      var x := Runtest(s.context, assertion, run.assertion);
      var t := Teardown(x.context, run.teardown);
      var called := (if c.runSetup then [] else [RunSetup, RunAction]) +
        (if s.context.setupFailed then [] else [Assertion(assertion, c.example)]);
      assert Count(t.context.trace, RunTeardown) == Count(c.trace, RunTeardown) + 1 by {
        assert x.context.trace == c.trace + called;
        TeardownCalls(c.trace, called);
      }
      assert c.runSetup && c.setupFailed ==> UserCalls(t.context.trace) == UserCalls(c.trace) by {
        if c.runSetup && c.setupFailed {
          assert t.context.trace == c.trace + [RunTeardown];
          UserCallsAppend(c.trace, [RunTeardown]);
          assert UserCalls([RunTeardown]) == [] by {
            assert [RunTeardown][..0] == [];
          }
        }
      }
      Turn(t.context, Report(run.item, s.outcome, Some(x.outcome), t.outcome))
  }

  /** While setup has not failed, a run adds to the user calls of its context exactly
      `run_setup` and `run_action` if they had not run yet, then this item's assertion with
      the context's example. */
  lemma {:induction false} RunItemUserCalls(c: Context, assertion: string, run: Run)
    ensures var r := RunItem(c, assertion, run);
      !r.context.setupFailed ==>
        UserCalls(r.context.trace) ==
          UserCalls(c.trace) + (if c.runSetup then [] else [RunSetup, RunAction]) + [Assertion(assertion, c.example)]
  {
    var r := RunItem(c, assertion, run);
    if !r.context.setupFailed {
      var call := Assertion(assertion, c.example);
      var first: seq<Call> := if c.runSetup then [] else [RunSetup, RunAction];
      RunItemTrace(c, assertion, run);
      assert r.context.trace == c.trace + (first + [call, RunTeardown]);
      UserCallsAppend(c.trace, first + [call, RunTeardown]);
      FirstCallsThenAssertion(first, call);
    }
  }

  /** While setup has not failed, a run appends to its context's trace `run_setup` and
      `run_action` if they had not run yet, then this item's assertion, then `run_teardown`. */
  lemma {:induction false} RunItemTrace(c: Context, assertion: string, run: Run)
    ensures var r := RunItem(c, assertion, run);
      !r.context.setupFailed ==>
        r.context.trace == c.trace + (if c.runSetup then [] else [RunSetup, RunAction]) +
          [Assertion(assertion, c.example), RunTeardown]
  {
    var r := RunItem(c, assertion, run);
    if !r.context.setupFailed {
      var s := Setup(c, run.setup, run.action);
      assert !s.outcome.Raised?;
      var x := Runtest(s.context, assertion, run.assertion);
      assert r.context == Teardown(x.context, run.teardown).context;
    }
  }

  /** The user calls of one run that reached its assertion: teardown dropped. */
  lemma {:induction false} FirstCallsThenAssertion(first: seq<Call>, call: Call)
    requires first == [] || first == [RunSetup, RunAction]
    requires call.Assertion?
    ensures UserCalls(first + [call, RunTeardown]) == first + [call]
  {
    var added := first + [call, RunTeardown];
    assert added[..|added| - 1] == first + [call];
    UserCallsAppend(first, [call]);
    assert [call][..0] == [];
    assert [RunSetup, RunAction][..1] == [RunSetup];
    assert [RunSetup][..0] == [];
  }

  /** Appending calls other than teardown, then one teardown, adds exactly one teardown. */
  lemma TeardownCalls(trace: seq<Call>, added: seq<Call>)
    requires RunTeardown !in added
    ensures Count(trace + added + [RunTeardown], RunTeardown) == Count(trace, RunTeardown) + 1
  {
    CountPositive(added, RunTeardown);
    CountAppend(trace, added, RunTeardown);
    CountAppend(trace + added, [RunTeardown], RunTeardown);
    assert [RunTeardown][..0] == [];
  }

  /** A run keeps the invariant of the context it runs on. */
  lemma RunItemKeepsWellFormed(c: Context, assertion: string, run: Run)
    requires WellFormed(c) && assertion in c.assertions
    ensures WellFormed(RunItem(c, assertion, run).context)
  {
    var s := Setup(c, run.setup, run.action);
    SetupKeepsWellFormed(c, run.setup, run.action);
    if s.outcome.Raised? {
      TeardownKeepsWellFormed(s.context, run.teardown);
    } else {
      var x := Runtest(s.context, assertion, run.assertion);
      RuntestKeepsWellFormed(s.context, assertion, run.assertion);
      TeardownKeepsWellFormed(x.context, run.teardown);
    }
  }

  /** Every run of the schedule names an existing item. */
  ghost predicate Fits(w: World, schedule: seq<Run>)
  {
    forall k | 0 <= k < |schedule| :: schedule[k].item < |w.items|
  }

  /** Runs a schedule, one item at a time, each on its own shared context; no other context
      is touched by a run. */
  function RunSchedule(w: World, schedule: seq<Run>): (r: Session)
    requires Valid(w) && Fits(w, schedule)
    ensures Valid(r.world) && r.world.items == w.items
    ensures |r.world.contexts| == |w.contexts| && |r.reports| == |schedule|
    ensures forall k | 0 <= k < |schedule| :: r.reports[k].item == schedule[k].item
    ensures forall c | 0 <= c < |w.contexts| ::
      r.world.contexts[c].example == w.contexts[c].example &&
      r.world.contexts[c].assertions == w.contexts[c].assertions
    decreases |schedule|
  {
    if |schedule| == 0 then Session(w, [])
    else
      var prev := RunSchedule(w, schedule[..|schedule| - 1]);
      var run := schedule[|schedule| - 1];
      var item := w.items[run.item];
      var turn := RunItem(prev.world.contexts[item.context], item.assertion, run);
      var contexts := prev.world.contexts[item.context := turn.context];
      SameAssertionsValid(w, contexts);
      ReportsFollow(prev.reports, turn.report, schedule);
      Session(World(contexts, w.items), prev.reports + [turn.report])
  }

  /** Contexts that keep their assertions keep every item valid. */
  lemma SameAssertionsValid(w: World, contexts: seq<Context>)
    requires Valid(w) && |contexts| == |w.contexts|
    requires forall c | 0 <= c < |contexts| :: contexts[c].assertions == w.contexts[c].assertions
    ensures Valid(World(contexts, w.items))
  {
  }

  /** Appending the last run's report keeps the reports in step with the schedule. */
  lemma {:induction false} ReportsFollow(prev: seq<Report>, report: Report, schedule: seq<Run>)
    requires |schedule| > 0 && |prev| == |schedule| - 1
    requires forall k | 0 <= k < |prev| :: prev[k].item == schedule[k].item
    requires report.item == schedule[|schedule| - 1].item
    ensures forall k | 0 <= k < |schedule| :: (prev + [report])[k].item == schedule[k].item
  {
  }

  /** Whether `k` names an item of context `c`. */
  predicate OfContext(items: seq<Item>, k: nat, c: nat)
  {
    k < |items| && items[k].context == c
  }

  /** How many runs of the schedule are of items of context `c`. */
  function RunsOn(items: seq<Item>, schedule: seq<Run>, c: nat): nat
  {
    if |schedule| == 0 then 0
    else
      RunsOn(items, schedule[..|schedule| - 1], c) +
      (if OfContext(items, schedule[|schedule| - 1].item, c) then 1 else 0)
  }

  /** How many reports are setup errors of items of context `c`. */
  function SetupErrors(items: seq<Item>, reports: seq<Report>, c: nat): nat
  {
    if |reports| == 0 then 0
    else
      var last := reports[|reports| - 1];
      SetupErrors(items, reports[..|reports| - 1], c) +
      (if OfContext(items, last.item, c) && last.setup.Raised? then 1 else 0)
  }

  /** What holds of context `c` after a schedule from a fresh world: its calls are well
      formed; its setup ran exactly when one of its items ran; it was torn down once per run
      of one of its items; it produced a setup error report exactly when its failed flag is
      up, and then exactly one; and while its setup has not failed, every run of its items
      called one assertion after `run_setup` and `run_action`. */
  ghost predicate Accounted(items: seq<Item>, schedule: seq<Run>, r: Session, c: nat)
  {
    c < |r.world.contexts| &&
    var f := r.world.contexts[c];
    var runs := RunsOn(items, schedule, c);
    && WellFormed(f)
    && (f.runSetup <==> runs > 0)
    && Count(f.trace, RunTeardown) == runs
    && SetupErrors(items, r.reports, c) == (if f.setupFailed then 1 else 0)
    && (f.runSetup && !f.setupFailed ==> |UserCalls(f.trace)| == runs + 2)
  }

  lemma {:induction false} ScheduleInvariant(w: World, schedule: seq<Run>)
    requires Valid(w) && Fresh(w) && Fits(w, schedule)
    ensures forall c | 0 <= c < |w.contexts| :: Accounted(w.items, schedule, RunSchedule(w, schedule), c)
    decreases |schedule|
  {
    var r := RunSchedule(w, schedule);
    if |schedule| == 0 {
      forall c | 0 <= c < |w.contexts|
        ensures Accounted(w.items, schedule, r, c)
      {
        assert UserCalls(r.world.contexts[c].trace) == [];
      }
    } else {
      ScheduleInvariant(w, schedule[..|schedule| - 1]);
      forall c | 0 <= c < |w.contexts|
        ensures Accounted(w.items, schedule, r, c)
      {
        ScheduleStep(w, schedule, c);
      }
    }
  }

  /** The last run of a schedule keeps every context accounted for. */
  lemma {:induction false} ScheduleStep(w: World, schedule: seq<Run>, c: nat)
    requires Valid(w) && Fits(w, schedule) && |schedule| > 0 && c < |w.contexts|
    requires Fits(w, schedule[..|schedule| - 1])
    requires Accounted(w.items, schedule[..|schedule| - 1], RunSchedule(w, schedule[..|schedule| - 1]), c)
    requires var init := schedule[..|schedule| - 1];
      var item := w.items[schedule[|schedule| - 1].item];
      Accounted(w.items, init, RunSchedule(w, init), item.context)
    ensures Accounted(w.items, schedule, RunSchedule(w, schedule), c)
  {
    var init := schedule[..|schedule| - 1];
    var prev := RunSchedule(w, init);
    var r := RunSchedule(w, schedule);
    var run := schedule[|schedule| - 1];
    var item := w.items[run.item];
    var turn := RunItem(prev.world.contexts[item.context], item.assertion, run);
    assert r.reports == prev.reports + [turn.report];
    assert r.reports[..|r.reports| - 1] == prev.reports;
    if c == item.context {
      assert r.world.contexts[c] == turn.context;
      RunItemKeepsWellFormed(prev.world.contexts[c], item.assertion, run);
      RunItemUserCalls(prev.world.contexts[c], item.assertion, run);
    } else {
      assert r.world.contexts[c] == prev.world.contexts[c];
    }
  }

  /** The calls each run of a schedule makes on context `c` once its setup has run without
      failing: the run's own item's assertion, with the context's example, then
      `run_teardown`. Runs of other contexts' items add nothing. */
  function RunCalls(items: seq<Item>, schedule: seq<Run>, c: nat, example: Example): seq<Call>
  {
    if |schedule| == 0 then []
    else
      var last := schedule[|schedule| - 1];
      RunCalls(items, schedule[..|schedule| - 1], c, example) +
      (if OfContext(items, last.item, c) then [Assertion(items[last.item].assertion, example), RunTeardown] else [])
  }

  lemma {:induction false} NoRunsNoCalls(items: seq<Item>, schedule: seq<Run>, c: nat, example: Example)
    requires RunsOn(items, schedule, c) == 0
    ensures RunCalls(items, schedule, c, example) == []
    decreases |schedule|
  {
    if |schedule| > 0 {
      NoRunsNoCalls(items, schedule[..|schedule| - 1], c, example);
    }
  }

  /** The trace of a context whose setup has not failed: `run_setup` and `run_action` if they
      ran, then `calls`. */
  ghost predicate Traced(f: Context, calls: seq<Call>)
  {
    !f.setupFailed ==> f.trace == (if f.runSetup then [RunSetup, RunAction] else []) + calls
  }

  /**
   The exact calls a context sees under any schedule from a fresh world, as long as its
   setup has not failed: `run_setup` and `run_action` once, at the first run of one of its
   items, and then, for each run of one of its items in schedule order, that item's own
   assertion with the context's example followed by `run_teardown`.
   */
  lemma {:induction false} ScheduleTrace(w: World, schedule: seq<Run>, c: nat)
    requires Valid(w) && Fresh(w) && Fits(w, schedule) && c < |w.contexts|
    ensures var f := RunSchedule(w, schedule).world.contexts[c];
      !f.setupFailed ==>
        f.trace == (if f.runSetup then [RunSetup, RunAction] else []) +
          RunCalls(w.items, schedule, c, w.contexts[c].example)
    decreases |schedule|
  {
    if |schedule| > 0 {
      var init := schedule[..|schedule| - 1];
      assert Fits(w, init);
      ScheduleTrace(w, init, c);
      ScheduleInvariant(w, init);
      assert Accounted(w.items, init, RunSchedule(w, init), c);
      ScheduleLast(w, schedule, c);
      TraceStep(w.items, schedule, c, RunSchedule(w, init).world.contexts[c],
        RunSchedule(w, schedule).world.contexts[c]);
    }
    assert Traced(RunSchedule(w, schedule).world.contexts[c], RunCalls(w.items, schedule, c, w.contexts[c].example));
  }

  /** The last run of a schedule replaces its own item's context by what `RunItem` makes of
      it, and leaves context `c` alone if it is another. */
  lemma {:induction false} ScheduleLast(w: World, schedule: seq<Run>, c: nat)
    requires Valid(w) && Fits(w, schedule) && |schedule| > 0 && c < |w.contexts|
    ensures Fits(w, schedule[..|schedule| - 1])
    ensures var was := RunSchedule(w, schedule[..|schedule| - 1]).world.contexts[c];
      var run := schedule[|schedule| - 1];
      RunSchedule(w, schedule).world.contexts[c] ==
        if OfContext(w.items, run.item, c) then RunItem(was, w.items[run.item].assertion, run).context else was
  {
  }

  /** The last run of a schedule extends the trace of its own context as `RunCalls` says, and
      leaves every other context alone: `was` is context `c` before that run, `now` after. */
  lemma {:induction false} TraceStep(items: seq<Item>, schedule: seq<Run>, c: nat, was: Context, now: Context)
    requires |schedule| > 0 && schedule[|schedule| - 1].item < |items|
    requires now ==
      var run := schedule[|schedule| - 1];
      if OfContext(items, run.item, c) then RunItem(was, items[run.item].assertion, run).context else was
    requires !was.runSetup ==> RunsOn(items, schedule[..|schedule| - 1], c) == 0
    requires Traced(was, RunCalls(items, schedule[..|schedule| - 1], c, was.example))
    ensures Traced(now, RunCalls(items, schedule, c, was.example))
  {
    var init := schedule[..|schedule| - 1];
    var run := schedule[|schedule| - 1];
    var before := RunCalls(items, init, c, was.example);
    if OfContext(items, run.item, c) {
      if !was.runSetup {
        NoRunsNoCalls(items, init, c, was.example);
      }
      OwnTraceStep(was, items[run.item].assertion, run, before);
    }
  }

  /** One run on a context whose trace so far is `run_setup`, `run_action` (if they ran) and
      then `before`: while setup has not failed, the run appends its assertion and teardown. */
  lemma {:induction false} OwnTraceStep(was: Context, assertion: string, run: Run, before: seq<Call>)
    requires Traced(was, before)
    requires !was.runSetup ==> before == []
    ensures Traced(RunItem(was, assertion, run).context,
      before + [Assertion(assertion, was.example), RunTeardown])
  {
    var r := RunItem(was, assertion, run).context;
    RunItemTrace(was, assertion, run);
    if !r.setupFailed {
      assert !was.setupFailed;
      if !was.runSetup {
        assert was.trace == [];
      }
    }
  }

  /**
   The guarantees of the shared-setup protocol, for any schedule from a fresh world, per
   context: `run_setup` ran exactly once if one of its items ran and never otherwise;
   `run_action` ran no more often, and exactly once when setup succeeded; at most one setup
   error was reported; `run_teardown` ran once per run of one of its items; after a failed
   setup no assertion ran; and otherwise its user calls (teardowns aside) are `run_setup`,
   then `run_action`, then one assertion call per run of its items. `ScheduleTrace` states
   which assertions, and where the teardowns fall between them.
   */
  lemma {:induction false} ScheduleGuarantees(w: World, schedule: seq<Run>, c: nat)
    requires Valid(w) && Fresh(w) && Fits(w, schedule) && c < |w.contexts|
    ensures var r := RunSchedule(w, schedule);
      var f := r.world.contexts[c];
      var runs := RunsOn(w.items, schedule, c);
      var u := UserCalls(f.trace);
      && Count(f.trace, RunSetup) == (if runs > 0 then 1 else 0)
      && Count(f.trace, RunAction) <= Count(f.trace, RunSetup)
      && (runs > 0 && !f.setupFailed ==> Count(f.trace, RunAction) == 1)
      && SetupErrors(w.items, r.reports, c) <= 1
      && Count(f.trace, RunTeardown) == runs
      && (f.setupFailed ==> forall call | call in f.trace :: !call.Assertion?)
      && (runs > 0 && !f.setupFailed ==>
            && |u| == runs + 2 && u[0] == RunSetup && u[1] == RunAction
            && forall i | 2 <= i < |u| :: u[i].Assertion?)
  {
    ScheduleInvariant(w, schedule);
    var r := RunSchedule(w, schedule);
    assert Accounted(w.items, schedule, r, c);
    WellFormedBounds(r.world.contexts[c]);
  }

  /** A run touches no context but its own item's. */
  lemma {:induction false} RunLeavesOthers(w: World, schedule: seq<Run>, c: nat)
    requires Valid(w) && Fits(w, schedule) && |schedule| > 0 && c < |w.contexts|
    requires w.items[schedule[|schedule| - 1].item].context != c
    ensures Fits(w, schedule[..|schedule| - 1])
    ensures RunSchedule(w, schedule).world.contexts[c] ==
      RunSchedule(w, schedule[..|schedule| - 1]).world.contexts[c]
  {
  }

  /** A context none of whose items ran is exactly as collected: whatever the other
      contexts' setups did, including failing, it is untouched. */
  lemma {:induction false} UnrunContextUntouched(w: World, schedule: seq<Run>, c: nat)
    requires Valid(w) && Fits(w, schedule) && c < |w.contexts|
    requires RunsOn(w.items, schedule, c) == 0
    ensures RunSchedule(w, schedule).world.contexts[c] == w.contexts[c]
    decreases |schedule|
  {
    if |schedule| > 0 {
      var init := schedule[..|schedule| - 1];
      assert Fits(w, init);
      UnrunContextUntouched(w, init, c);
      RunLeavesOthers(w, schedule, c);
    }
  }

  /** Every assertion a context saw was called with that context's own example, and was one
      of its own assertions. */
  lemma AssertionsSeeTheirExample(w: World, schedule: seq<Run>, c: nat)
    requires Valid(w) && Fresh(w) && Fits(w, schedule) && c < |w.contexts|
    ensures var f := RunSchedule(w, schedule).world.contexts[c];
      forall call | call in f.trace && call.Assertion? ::
        call.example == w.contexts[c].example && call.name in w.contexts[c].assertions
  {
    ScheduleInvariant(w, schedule);
    var r := RunSchedule(w, schedule);
    assert Accounted(w.items, schedule, r, c);
    WellFormedBounds(r.world.contexts[c]);
  }

  /** A run of a sibling after its context's setup failed makes no user call but teardown
      and raises nothing from `setup` or `runtest`: pytest reports it as a pass unless
      teardown raises. */
  lemma SiblingOfFailedSetupPasses(c: Context, assertion: string, run: Run)
    requires WellFormed(c) && c.setupFailed
    ensures var r := RunItem(c, assertion, run);
      && r.report.setup == Ok && r.report.call == Some(Ok)
      && UserCalls(r.context.trace) == UserCalls(c.trace)
      && r.context.setupFailed
  {
  }
}
