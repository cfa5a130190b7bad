/**
 The phases of one `ContextsItem`: construction, `setup`, `runtest`, `teardown` and
 `reportinfo`. Each phase is a pure step on the item's shared context; the outcome of every
 call into user code is an input, and the phase's own outcome is what it returns or raises.
 */
module ContextsItem {
  import opened Contexts

  /** A shared context after one phase, and what the phase did: returned, or raised. */
  datatype Step = Step(context: Context, outcome: Outcome)

  /** Constructing an item lowers both flags of its shared context, whatever a sibling
      has already done with it; nothing is called. */
  function Init(c: Context): (r: Context)
    ensures !r.runSetup && !r.setupFailed
    ensures r.example == c.example && r.assertions == c.assertions && r.trace == c.trace
  {
    c.(runSetup := false, setupFailed := false)
  }

  /** `setup`: the first item of a context to get here raises the run flag, then calls
      `run_setup` and, if that returned, `run_action`; an exception from either raises the
      failed flag and leaves the item unchanged. Any later sibling does nothing. */
  function Setup(c: Context, setup: Outcome, action: Outcome): (r: Step)
    ensures r.context.example == c.example && r.context.assertions == c.assertions
    ensures r.context.runSetup
    ensures c.runSetup ==> r == Step(c, Ok)
    ensures !c.runSetup && setup.Raised? ==>
      r.outcome == setup && r.context.setupFailed && r.context.trace == c.trace + [RunSetup]
    ensures !c.runSetup && setup.Ok? ==>
      r.outcome == action && r.context.trace == c.trace + [RunSetup, RunAction] &&
      (r.context.setupFailed <==> c.setupFailed || action.Raised?)
  {
    if c.runSetup then Step(c, Ok)
    else
      var started := c.(runSetup := true, trace := c.trace + [RunSetup]);
      if setup.Raised? then Step(started.(setupFailed := true), setup)
      else
        var acted := started.(trace := started.trace + [RunAction]);
        if action.Raised? then Step(acted.(setupFailed := true), action)
        else Step(acted, Ok)
  }

  /** `runtest`: returns silently when the context's setup failed; otherwise calls this
      item's own assertion with the context's example, and raises what it raises. */
  function Runtest(c: Context, assertion: string, outcome: Outcome): (r: Step)
    ensures r.context.runSetup == c.runSetup && r.context.setupFailed == c.setupFailed
    ensures r.context.example == c.example && r.context.assertions == c.assertions
    ensures c.setupFailed ==> r == Step(c, Ok)
    ensures !c.setupFailed ==>
      r.outcome == outcome && r.context.trace == c.trace + [Assertion(assertion, c.example)]
  {
    if c.setupFailed then Step(c, Ok)
    else Step(c.(trace := c.trace + [Assertion(assertion, c.example)]), outcome)
  }

  /** `teardown`: calls `run_teardown` on the shared context every time, whatever the flags
      say, and raises what it raises. */
  function Teardown(c: Context, outcome: Outcome): (r: Step)
    ensures r.context.runSetup == c.runSetup && r.context.setupFailed == c.setupFailed
    ensures r.context.example == c.example && r.context.assertions == c.assertions
    ensures r.context.trace == c.trace + [RunTeardown] && r.outcome == outcome
  {
    Step(c.(trace := c.trace + [RunTeardown]), outcome)
  }

  /** `reportinfo` of an item: its label, line 0, and `path:name`. */
  function ItemReportInfo(item: Item): (r: ReportInfo)
    ensures r.name == item.name && r.line == 0
    ensures ReportedPath(r) == Some(item.path)
    ensures r.location[|item.path|] == ':'
  {
    var r := ReportInfo(item.name, 0, item.path + ":" + item.name);
    assert r.location[|r.location| - |r.name|..] == item.name;
    assert r.location[..|r.location| - |r.name| - 1] == item.path;
    r
  }

  /** Recovers the file from a `reportinfo` location of the form `<path><separator><name>`. */
  function ReportedPath(info: ReportInfo): Option<string>
  {
    var n := |info.name|;
    if n + 1 <= |info.location| && info.location[|info.location| - n..] == info.name
    then Some(info.location[..|info.location| - n - 1])
    else None
  }

  /**
   The shape of the user calls a shared context can have seen (teardowns aside): none
   before setup; `run_setup` alone or followed by `run_action` once setup failed; and
   otherwise `run_setup`, `run_action`, then only assertions of this context, each with its
   example. The failed flag is never up without the run flag.
   */
  ghost predicate WellFormed(c: Context)
  {
    var u := UserCalls(c.trace);
    && (c.setupFailed ==> c.runSetup)
    && (!c.runSetup ==> u == [])
    && (c.setupFailed ==> u == [RunSetup] || u == [RunSetup, RunAction])
    && (c.runSetup && !c.setupFailed ==>
          |u| >= 2 && u[0] == RunSetup && u[1] == RunAction &&
          forall i | 2 <= i < |u| ::
            u[i].Assertion? && u[i].example == c.example && u[i].name in c.assertions)
  }

  lemma SetupKeepsWellFormed(c: Context, setup: Outcome, action: Outcome)
    requires WellFormed(c)
    ensures WellFormed(Setup(c, setup, action).context)
  {
    if !c.runSetup {
      var r := Setup(c, setup, action).context;
      if setup.Raised? {
        FirstCallsWellFormed(c, [RunSetup], r);
      } else {
        FirstCallsWellFormed(c, [RunSetup, RunAction], r);
      }
    }
  }

  /** A context nothing has been called on yet, after `setup` made its first calls. */
  lemma FirstCallsWellFormed(c: Context, added: seq<Call>, r: Context)
    requires WellFormed(c) && !c.runSetup
    requires added == [RunSetup] || added == [RunSetup, RunAction]
    requires r.runSetup && r.example == c.example && r.assertions == c.assertions
    requires r.trace == c.trace + added
    requires added == [RunSetup] ==> r.setupFailed
    ensures WellFormed(r)
  {
    SetupUserCalls(c.trace, added);
    var u := UserCalls(r.trace);
    assert u == added;
    if !r.setupFailed {
      assert |u| == 2 && u[0] == RunSetup && u[1] == RunAction;
    }
  }

  /** The calls `setup` makes are all user calls. */
  lemma {:induction false} SetupUserCalls(trace: seq<Call>, added: seq<Call>)
    requires added == [RunSetup] || added == [RunSetup, RunAction]
    ensures UserCalls(trace + added) == UserCalls(trace) + added
  {
    UserCallsAppend(trace, added);
    var one: seq<Call> := [RunSetup];
    assert one[..0] == [];
    assert UserCalls(one) == UserCalls([]) + one;
    if added != one {
      assert added[..1] == one;
      assert UserCalls(added) == UserCalls(one) + [RunAction];
    }
  }

  lemma RuntestKeepsWellFormed(c: Context, assertion: string, outcome: Outcome)
    requires WellFormed(c) && c.runSetup && assertion in c.assertions
    ensures WellFormed(Runtest(c, assertion, outcome).context)
  {
    if !c.setupFailed {
      var call := Assertion(assertion, c.example);
      UserCallsAppend(c.trace, [call]);
      assert UserCalls([call]) == [call] by {
        assert [call][..0] == [];
      }
    }
  }

  lemma TeardownKeepsWellFormed(c: Context, outcome: Outcome)
    requires WellFormed(c)
    ensures WellFormed(Teardown(c, outcome).context)
  {
    UserCallsAppend(c.trace, [RunTeardown]);
    assert UserCalls([RunTeardown]) == [] by {
      assert [RunTeardown][..0] == [];
    }
  }

  /** What a well-formed context promises about the calls it has seen: `run_setup` once
      exactly when the run flag is up and never otherwise, `run_action` at most once, and
      exactly once when setup succeeded, and assertions only when setup did not fail, each one of this context's,
      called with this context's example. */
  lemma WellFormedBounds(c: Context)
    requires WellFormed(c)
    ensures Count(c.trace, RunSetup) == (if c.runSetup then 1 else 0)
    ensures Count(c.trace, RunAction) <= Count(c.trace, RunSetup)
    ensures c.runSetup && !c.setupFailed ==> Count(c.trace, RunAction) == 1
    ensures forall call | call in c.trace && call.Assertion? ::
      !c.setupFailed && call.example == c.example && call.name in c.assertions
  {
    WellFormedCounts(c);
    forall call | call in c.trace && call.Assertion?
      ensures !c.setupFailed && call.example == c.example && call.name in c.assertions
    {
      WellFormedAssertion(c, call);
    }
  }

  lemma WellFormedCounts(c: Context)
    requires WellFormed(c)
    ensures Count(c.trace, RunSetup) == (if c.runSetup then 1 else 0)
    ensures Count(c.trace, RunAction) <= Count(c.trace, RunSetup)
    ensures c.runSetup && !c.setupFailed ==> Count(c.trace, RunAction) == 1
  {
    UserCallsKeepCounts(c.trace, RunSetup);
    UserCallsKeepCounts(c.trace, RunAction);
    if c.runSetup {
      SetupShapeCounts(UserCalls(c.trace));
    }
  }

  /** `run_setup`, then possibly `run_action`, then only assertions: one of each of the
      first two. */
  lemma {:induction false} SetupShapeCounts(u: seq<Call>)
    requires |u| >= 1 && u[0] == RunSetup
    requires |u| >= 2 ==> u[1] == RunAction
    requires forall i | 2 <= i < |u| :: u[i].Assertion?
    ensures Count(u, RunSetup) == 1
    ensures Count(u, RunAction) == (if |u| >= 2 then 1 else 0)
    decreases |u|
  {
    var init := u[..|u| - 1];
    if |u| == 1 {
      assert init == [];
    } else {
      SetupShapeCounts(init);
    }
  }

  lemma WellFormedAssertion(c: Context, call: Call)
    requires WellFormed(c) && call in c.trace && call.Assertion?
    ensures !c.setupFailed && call.example == c.example && call.name in c.assertions
  {
    var u := UserCalls(c.trace);
    UserCallsKeepMembers(c.trace, call);
    var i :| 0 <= i < |u| && u[i] == call;
  }

  /** Constructing one more item over a context whose setup already ran re-arms it: the
      next `setup` calls `run_setup` again. */
  lemma InitRearmsSetup(c: Context, setup: Outcome, action: Outcome)
    ensures var r := Setup(Init(c), setup, action);
      Count(r.context.trace, RunSetup) == Count(c.trace, RunSetup) + 1
  {
    var r := Setup(Init(c), setup, action);
    var added := if setup.Raised? then [RunSetup] else [RunSetup, RunAction];
    assert r.context.trace == c.trace + added;
    CountAppend(c.trace, added, RunSetup);
    assert [RunSetup][..0] == [];
    assert [RunSetup, RunAction][..1] == [RunSetup];
  }
}
