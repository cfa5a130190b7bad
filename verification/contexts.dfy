/**
 Data model of the pytest plugin that runs "contexts"-style specification classes.

 A specification class is materialised once per example as a `Context`; one pytest item
 is built per (context, assertion) pair, and all items of one context share it. The plugin
 attaches two flags to the shared context (`_pytest_contexts_run_setup` and
 `_pytest_contexts_setup_failed`); here they are fields of the record, and the calls the
 plugin makes into user code are logged in `trace` so that contracts can speak about them.
 */
module Contexts {

  datatype Option<+T> = None | Some(value: T)

  /** What one call into user code did: returned normally, or raised an `Exception`. */
  datatype Outcome = Ok | Raised(error: string)

  /** The example a context is bound to: the `NO_EXAMPLE` sentinel of an unparameterised
      class, or one data-driven value, identified by its `str()` rendering. */
  datatype Example = NoExample | Value(text: string)

  /** One call the plugin makes into the user code held by a shared context. */
  datatype Call =
    | RunSetup
    | RunAction
    | Assertion(name: string, example: Example)
    | RunTeardown

  /** A shared context: its example, the names of its assertions, the two plugin flags and
      the log of every call made into it so far. */
  datatype Context = Context(
    example: Example,
    assertions: seq<string>,
    runSetup: bool,
    setupFailed: bool,
    trace: seq<Call>)

  /** A collected pytest item: its label, the index of its shared context in the world,
      the name of its own assertion, and the file of the specification class. */
  datatype Item = Item(name: string, context: nat, assertion: string, path: string)

  /** Every shared context of a session (an arena indexed by `Item.context`) and the items
      built over them. */
  datatype World = World(contexts: seq<Context>, items: seq<Item>)

  /** The triple pytest asks for in `reportinfo`: a label, a line number and a location. */
  datatype ReportInfo = ReportInfo(name: string, line: int, location: string)

  /** A context as `collect` constructs it: nothing run yet and both flags down. The plugin's
      flags do not exist on a freshly constructed context; they appear when the first item
      over it is constructed, which sets both to false before any item reads them, so
      "absent" is modelled as "down". */
  function NewContext(example: Example, assertions: seq<string>): (c: Context)
    ensures c.example == example && c.assertions == assertions
    ensures !c.runSetup && !c.setupFailed && c.trace == []
  {
    Context(example, assertions, false, false, [])
  }

  /** Every item refers to an existing context, and to one of that context's assertions. */
  ghost predicate Valid(w: World)
  {
    forall k | 0 <= k < |w.items| ::
      w.items[k].context < |w.contexts| &&
      w.items[k].assertion in w.contexts[w.items[k].context].assertions
  }

  /** No context has been set up, failed, or been called yet. */
  ghost predicate Fresh(w: World)
  {
    forall c | 0 <= c < |w.contexts| ::
      !w.contexts[c].runSetup && !w.contexts[c].setupFailed && w.contexts[c].trace == []
  }

  /** How often `call` occurs in `trace`. */
  function Count(trace: seq<Call>, call: Call): nat
  {
    if |trace| == 0 then 0
    else Count(trace[..|trace| - 1], call) + (if trace[|trace| - 1] == call then 1 else 0)
  }

  /** The calls of `trace` other than teardown, in order: setup, action and assertions. */
  function UserCalls(trace: seq<Call>): seq<Call>
  {
    if |trace| == 0 then []
    else UserCalls(trace[..|trace| - 1]) + (if trace[|trace| - 1] == RunTeardown then [] else [trace[|trace| - 1]])
  }

  lemma {:induction false} CountAppend(a: seq<Call>, b: seq<Call>, call: Call)
    ensures Count(a + b, call) == Count(a, call) + Count(b, call)
    decreases |b|
  {
    if |b| > 0 {
      var b' := b[..|b| - 1];
      assert (a + b)[..|a + b| - 1] == a + b';
      CountAppend(a, b', call);
    } else {
      assert a + b == a;
    }
  }

  lemma {:induction false} UserCallsAppend(a: seq<Call>, b: seq<Call>)
    ensures UserCalls(a + b) == UserCalls(a) + UserCalls(b)
    decreases |b|
  {
    if |b| > 0 {
      var b' := b[..|b| - 1];
      assert (a + b)[..|a + b| - 1] == a + b';
      UserCallsAppend(a, b');
    } else {
      assert a + b == a;
    }
  }

  /** Dropping teardown calls loses no other call and no occurrence of one. */
  lemma {:induction false} UserCallsKeepCounts(trace: seq<Call>, call: Call)
    requires call != RunTeardown
    ensures Count(UserCalls(trace), call) == Count(trace, call)
    decreases |trace|
  {
    if |trace| > 0 {
      var t := trace[..|trace| - 1];
      var last := trace[|trace| - 1];
      UserCallsKeepCounts(t, call);
      if last == RunTeardown {
        assert UserCalls(trace) == UserCalls(t);
      } else {
        assert UserCalls(trace) == UserCalls(t) + [last];
        CountAppend(UserCalls(t), [last], call);
        assert Count([last], call) == (if last == call then 1 else 0) by {
          assert [last][..0] == [];
        }
      }
    }
  }

  /** Dropping teardown calls loses no other call. */
  lemma UserCallsKeepMembers(trace: seq<Call>, call: Call)
    requires call != RunTeardown
    ensures call in trace <==> call in UserCalls(trace)
  {
    UserCallsKeepCounts(trace, call);
    CountPositive(trace, call);
    CountPositive(UserCalls(trace), call);
  }

  /** The count of a call is positive exactly when the call occurs. */
  lemma {:induction false} CountPositive(trace: seq<Call>, call: Call)
    ensures Count(trace, call) > 0 <==> call in trace
    decreases |trace|
  {
    if |trace| > 0 {
      var t := trace[..|trace| - 1];
      CountPositive(t, call);
      assert trace == t + [trace[|trace| - 1]];
    }
  }
}
