/**
 * `DeferredTestAction`: a handle on an action declared now and run later,
 * which remembers whether it has run and announces its run in the step log.
 */
module DeferredActions {
  import opened Outcomes
  import StepLog

  const ExecutedPrefix: string := "A deferred action is executed: `"

  /** The message of the `Then` step `Execute` records: the description, quoted in backticks. */
  function ExecutedMessage(description: string): (r: string)
    ensures |r| == |ExecutedPrefix| + |description| + 1
    ensures r[..|ExecutedPrefix|] == ExecutedPrefix && r[|r| - 1] == '`'
    ensures r[|ExecutedPrefix|..|r| - 1] == description
  {
    ExecutedPrefix + description + "`"
  }

  class DeferredTestAction {
    const Description: string
    var HasExecuted: bool
    const TestAction: Action
    const Context: StepLog.TestLogContext

    constructor (description: string, testAction: Action, context: StepLog.TestLogContext)
      ensures Description == description && TestAction == testAction && Context == context
      ensures !HasExecuted
    {
      Description := description;
      TestAction := testAction;
      Context := context;
      HasExecuted := false;
    }

    /**
     * `Execute()`: marks the action executed, records a PASSED `Then` step in
     * the owning context, and only then runs the action, whose outcome
     * (a thrown exception included) is passed on.
     */
    method Execute() returns (r: Outcome<()>)
      requires Context.Valid()
      modifies this, Context
      ensures HasExecuted
      ensures Context.Valid()
      ensures r == TestAction()
      ensures Context.testSteps
              == old(Context.testSteps)
                 + [StepLog.ExecutionStep(StepLog.TestSteps.Then, StepLog.PASSED, ExecutedMessage(Description))]
    {
      HasExecuted := true;
      var announced := Context.ThenAction(ExecutedMessage(Description), () => Returned(()));
      r := TestAction();
    }
  }

  /**
   * `DeferredWhen` returns the bare action, and running that action records
   * nothing. When the caller also builds a `DeferredTestAction` with the same
   * description and context and then executes it, the two records render as
   * a `When` group holding the DEFERRED record and a `Then` group holding the
   * announcement, which repeats the description.
   */
  lemma DeferredThenExecutedTranscript(description: string)
    ensures StepLog.Render([StepLog.ExecutionStep(StepLog.TestSteps.When, StepLog.DEFERRED, description),
                            StepLog.ExecutionStep(StepLog.TestSteps.Then, StepLog.PASSED, ExecutedMessage(description))])
            == ["When", StepLog.Bullet + description + " [DEFERRED]",
                "Then", StepLog.Bullet + ExecutedMessage(description) + " [PASSED]"]
  {
    var w := StepLog.ExecutionStep(StepLog.TestSteps.When, StepLog.DEFERRED, description);
    var t := StepLog.ExecutionStep(StepLog.TestSteps.Then, StepLog.PASSED, ExecutedMessage(description));
    var steps := [w, t];
    assert steps[1..] == [t] && [t][1..] == [];
    assert StepLog.Layout([t], StepLog.TestSteps.When) == [StepLog.Header(StepLog.TestSteps.Then), StepLog.Entry(t)];
    var lines := [StepLog.Header(StepLog.TestSteps.When), StepLog.Entry(w),
                  StepLog.Header(StepLog.TestSteps.Then), StepLog.Entry(t)];
    assert StepLog.Layout(steps, StepLog.TestSteps.None) == lines;
    assert StepLog.StepText(w) == StepLog.Bullet + description + " [DEFERRED]";
    assert StepLog.StepText(t) == StepLog.Bullet + ExecutedMessage(description) + " [PASSED]";
    var expected := ["When", StepLog.Bullet + description + " [DEFERRED]",
                     "Then", StepLog.Bullet + ExecutedMessage(description) + " [PASSED]"];
    forall i | 0 <= i < 4 ensures StepLog.Texts(lines)[i] == expected[i] {
      StepLog.TextsAt(lines, i);
    }
  }
}
