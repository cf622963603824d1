# PhxTest step recorder — a Dafny model

PhxTest lets a test author annotate a test with `Given`, `When` and `Then`
steps and free-form log lines. A `TestLogContext` records one entry per
declaration, in order, and at the end of the test writes a transcript to a
logger. In the transcript, consecutive steps of the same kind share one kind
header, and a final line gives the verdict. Around it sit a few small
helpers, all modelled here:

- `DeferredTestAction`, a handle that records its own run;
- `TestUtils.TestForError`, which expects a test to throw;
- `Verify.That` and `Verify.Fail`;
- the `TestDisposable` test double;
- the example `Accumulator`.

Layout of the project, one module per source file:

| file | module | models |
|---|---|---|
| `outcomes.dfy` | `Outcomes` | exceptions (with their type lineage), `Outcome<T> = Returned(v) \| Threw(e)`, `Action` |
| `verification.dfy` | `Verification` | `Verify.cs` |
| `test_utilities.dfy` | `TestUtilities` | `TestUtils.cs` |
| `step_log.dfy` | `StepLog` | `TestLogContext.cs`: step records, the rendering specification and its lemmas, the `Logger` sink, the `TestLogContext` class |
| `deferred_actions.dfy` | `DeferredActions` | `DeferredTestAction.cs` |
| `disposables.dfy` | `Disposables` | `TestDisposable.cs` |
| `accumulator.dfy` | `Example` | `Accumulator.cs` |

How the source's features are modelled:

- **Wrapped computations.** A `Func<T>` or `Action` becomes a total Dafny
  function that returns an `Outcome<T>`. "Returns v" is `Returned(v)` and
  "throws e" is `Threw(e)`. Each declaration method returns the computation's
  outcome unchanged, which is how a thrown exception still reaches the caller.
  The `finally` block becomes an append that happens on both branches.
- **Exceptions.** An exception carries its lineage: its runtime type's simple
  name, followed by the names of its base types and interfaces below
  `System.Exception`. A type test (`catch (T e)`, `IsInstanceOfType`) is
  membership in that lineage. The root types that every exception shares
  match every exception, whatever its lineage lists. They are `Object`,
  `Exception` and the interface `ISerializable`.
- **The logger.** The NLog logger is a `Logger` object holding the lines it
  was sent. The declaration methods may modify only the context, so they
  provably write nothing. `LogStart` and `LogEnd` may modify only the logger,
  so they provably leave the step list alone.
- **Rendering.** It is specified by `Layout(steps, prev)`, a sequence of
  `Header(kind)` and `Entry(record)` lines. `Render` is that sequence's text.
  `LogSteps` is the source's `foreach` loop with its `prevStep` variable. It
  is proved to write exactly `Render(testSteps)`, with the loop invariant
  "the lines so far are the rendering of the records walked so far, and
  `prevStep` is the kind of the last execution step among them".

The code is followed where the repository's tests disagree with it:

- `DeferredWhen` returns the raw action untracked. It does not wrap it in a
  `DeferredTestAction` (`TestLogContext.cs:108-111`).
- `LogEnd` never reports unexecuted deferred actions.
- The result line is `     TestResult: PASSED`, not `TestResult: **PASSED**`
  (`TestLogContext.cs:228-234`).

## Model

| member | source | states |
|---|---|---|
| `StepLog.TestLogContext.constructor` | src/Phx.Test/Phx/Test/TestLogContext.cs:28-30 | A new context keeps its logger and starts with an empty step list. |
| `StepLog.TestLogContext.GivenValue` | src/Phx.Test/Phx/Test/TestLogContext.cs:41-53 | Passes on the computation's outcome unchanged (a returned value or the thrown exception). Appends exactly one `Given` record, PASSED with `description + " -> " + describe(v)` on return and FAILED with the bare description on a throw. Earlier records are unchanged. |
| `StepLog.TestLogContext.Given` | src/Phx.Test/Phx/Test/TestLogContext.cs:57-59 | Appends exactly one `(Given, PASSED, description)` record. |
| `StepLog.TestLogContext.WhenValue` | src/Phx.Test/Phx/Test/TestLogContext.cs:66-78 | Same as `GivenValue`, with kind `When`. |
| `StepLog.TestLogContext.WhenAction` | src/Phx.Test/Phx/Test/TestLogContext.cs:83-92 | Passes on the action's outcome. Appends one `When` record with the bare description: PASSED when the action returned, FAILED when it threw. |
| `StepLog.TestLogContext.When` | src/Phx.Test/Phx/Test/TestLogContext.cs:96-98 | Appends exactly one `(When, PASSED, description)` record. |
| `StepLog.TestLogContext.DeferredWhen` | src/Phx.Test/Phx/Test/TestLogContext.cs:108-111 | Appends `(When, DEFERRED, description)` and returns the very action it was given. |
| `StepLog.TestLogContext.ThenValue` | src/Phx.Test/Phx/Test/TestLogContext.cs:121-133 | Same as `GivenValue`, with kind `Then`. |
| `StepLog.TestLogContext.ThenAction` | src/Phx.Test/Phx/Test/TestLogContext.cs:141-150 | Same as `WhenAction`, with kind `Then`. |
| `StepLog.TestLogContext.ThenExpectingValue` | src/Phx.Test/Phx/Test/TestLogContext.cs:165-180 | Runs the assertion on the expected value and passes its outcome on. Appends one `Then` record whose message is `description + " : " + describe(expected)`, followed by `" -> " + describe(v)` only on success. |
| `StepLog.TestLogContext.ThenExpectingAction` | src/Phx.Test/Phx/Test/TestLogContext.cs:193-205 | Appends one `Then` record whose message is `description + " : " + describe(expected)` whatever the outcome. PASSED exactly when the assertion returned. |
| `StepLog.TestLogContext.Log` | src/Phx.Test/Phx/Test/TestLogContext.cs:209-211 | Appends exactly one log record with the message. |
| `StepLog.TestLogContext.LogStart` | src/Phx.Test/Phx/Test/TestLogContext.cs:216-223 | Writes exactly `""` and the separator (2 lines) without a display name. With a name it also writes the name and the spacer (4 lines). |
| `StepLog.TestLogContext.LogEnd` | src/Phx.Test/Phx/Test/TestLogContext.cs:228-234 | Writes the full rendering of the records, then exactly one final `"     TestResult: PASSED"` or `"     TestResult: FAILED"` line chosen by `success`. The step list is unchanged. |
| `StepLog.TestLogContext.LogSteps` | src/Phx.Test/Phx/Test/TestLogContext.cs:236-248 | The one-pass loop writes exactly `Render(testSteps)` after what the logger already held. |
| `StepLog.StepText` | src/Phx.Test/Phx/Test/TestLogContext.cs:281-287 | A log record prints as its bare message. An execution record prints as the bullet `"  * "`, its message, then `" ["`, its result's name and `"]"`. |
| `StepLog.KindNamesDistinct` | src/Phx.Test/Phx/Test/TestLogContext.cs:241 | The kind enum's `ToString`, which prints the headers, gives different kinds different names. So a header names exactly one kind. |
| `StepLog.ResultNamesDistinct` | src/Phx.Test/Phx/Test/TestLogContext.cs:233 | The result enum's `ToString`, used in the result line and in each entry, gives different results different names. |
| `StepLog.HeaderIsNotAnEntry` | src/Phx.Test/Phx/Test/TestLogContext.cs:241-246 | A kind header's text never equals the line of an execution record, which starts with the bullet. So headers and entries can be told apart in the transcript. |
| `StepLog.ResultLine` | src/Phx.Test/Phx/Test/TestLogContext.cs:230-233 | The final line is exactly `"     TestResult: PASSED"` on success and `"     TestResult: FAILED"` otherwise. It is never DEFERRED. |
| `StepLog.EvaluatedStepFacts` | src/Phx.Test/Phx/Test/TestLogContext.cs:42-52 | A value-form record has the declared kind and is PASSED exactly when the computation returned. It is never DEFERRED. The `" -> "` suffix with the rendered value is present on success and absent on a throw. |
| `StepLog.ExpectationAlwaysRecorded` | src/Phx.Test/Phx/Test/TestLogContext.cs:165-179 | The expected-value `Then` message always starts with `description + " : " + describe(expected)`, whether the assertion returned or threw. |
| `StepLog.Render` | src/Phx.Test/Phx/Test/TestLogContext.cs:236-248 | The transcript has one line per record plus one per change of execution kind. |
| `StepLog.LayoutEntries` | src/Phx.Test/Phx/Test/TestLogContext.cs:238-247 | With the headers removed, the transcript is exactly the record list in insertion order: nothing is dropped, added or reordered. |
| `StepLog.LayoutHeaderCount` | src/Phx.Test/Phx/Test/TestLogContext.cs:237-243 | The number of headers equals the number of kind changes in the sequence of execution kinds, starting from `None`. Log records play no part. |
| `StepLog.LayoutAppend` | src/Phx.Test/Phx/Test/TestLogContext.cs:236-248 | Rendering is compositional. The lines of `a + b` are the lines of `a` followed by the lines of `b`, rendered from the kind `a` ended on. |
| `StepLog.LayoutAt` | src/Phx.Test/Phx/Test/TestLogContext.cs:239-246 | Record `i` produces a header exactly when it is an execution step whose kind differs from the last execution kind before it. Then comes its own line. |
| `StepLog.LastExecKindIsLastKind` | src/Phx.Test/Phx/Test/TestLogContext.cs:237-243 | The loop's `prevStep` after a prefix is the kind of the prefix's last execution step, or the initial `None` when there is none. Log steps never touch it. |
| `StepLog.HeadersOnlyForPresentKinds` | src/Phx.Test/Phx/Test/TestLogContext.cs:239-243 | Every header names the kind of some execution record, so a kind that never occurs gets no header. |
| `StepLog.HeaderOpensItsGroup` | src/Phx.Test/Phx/Test/TestLogContext.cs:240-246 | Every header is immediately followed by the line of an execution record of that kind. |
| `StepLog.NoNoneHeader` | src/Phx.Test/Phx/Test/TestLogContext.cs:251-256 | Records made by the declaration methods never produce a `None` header. |
| `StepLog.LogStepIsTransparent` | src/Phx.Test/Phx/Test/TestLogContext.cs:238-247 | A log record in the middle adds only its own bare line. It neither opens nor closes a group. |
| `StepLog.GivenLogGivenHasOneHeader` | src/Phx.Test/Phx/Test/TestLogContext.cs:236-248 | `Given, Log, Given` renders as `Given`, `  * m [PASSED]`, the log line, `  * m' [PASSED]`: a single header. |
| `StepLog.InterleavedKindsAreNotMerged` | src/Phx.Test/Phx/Test/TestLogContext.cs:236-248 | `Given, When, Given` gets three headers. Groups are never merged across a different kind. |
| `StepLog.SimilarStepsAreGrouped` | src/Phx.Test/Phx/Test/TestLogContext.cs:236-248 | `Given, Given, Log, When, When, Log, Then, Then, Log` gets exactly three headers, each right before its group, with the log lines inline. |
| `DeferredActions.DeferredTestAction.constructor` | src/Phx.Test/Phx/Test/DeferredTestAction.cs:30-34 | A new handle keeps its description, action and context, and has not executed. |
| `DeferredActions.DeferredTestAction.Execute` | src/Phx.Test/Phx/Test/DeferredTestAction.cs:37-41 | Afterwards `HasExecuted` holds, even when the action throws. The context gains exactly one ``(Then, PASSED, "A deferred action is executed: `d`")`` record. The action's outcome, a thrown exception included, is passed on. |
| `DeferredActions.DeferredThenExecutedTranscript` | src/Phx.Test/Phx/Test/DeferredTestAction.cs:37-40 | The source does not connect the two: `DeferredWhen` returns the bare action. When the caller also builds a `DeferredTestAction` with the same description and context, and executes it after `DeferredWhen`, the records render as a `When` group with the DEFERRED line, then a `Then` group with the announcement that repeats the description. |
| `DeferredActions.ExecutedMessage` | src/Phx.Test/Phx/Test/DeferredTestAction.cs:39 | The announcement is the fixed prefix ``"A deferred action is executed: `"``, then the description, then a closing backtick. So the description can be read back from it. |
| `Verification.That` | src/Phx.Test/Phx/Test/Verify.cs:20-32 | Returns normally exactly for a success. It throws a verification failure exactly for a failure, carrying the message and the failure's cause as inner exception. Any other result throws `NotSupportedException` naming the result type. |
| `Verification.ThatWithDefaultMessage` | src/Phx.Test/Phx/Test/Verify.cs:20 | Without a message, a failure's exception says `"Verification failed."`. |
| `Verification.Fail` | src/Phx.Test/Phx/Test/Verify.cs:38-40 | Never returns normally. It always throws a verification failure whose message is the reason. |
| `Outcomes.NotSupported` | src/Phx.Test/Phx/Test/Verify.cs:29 | The exception for an unknown result type is a `NotSupportedException`, and so an `Exception`. It carries the given message and no inner exception, and it is not a verification failure. |
| `Outcomes.VerificationFailed` | src/Phx.Test/Phx/Test/VerificationFailedException.cs:15-31 | A verification failure is an `Exception` with the given message and inner exception, and is not a `NotSupportedException`. |
| `TestUtilities.TestForError` | src/Phx.Test/Phx/Test/TestUtils.cs:18-35 | A thrown exception of the expected type is returned. Any other thrown exception is re-thrown unchanged. A test that returns yields a verification failure `"Did not catch expected exception <Name>."`. |
| `TestUtilities.NotCaughtReason` | src/Phx.Test/Phx/Test/TestUtils.cs:31 | The reason is `"Did not catch expected exception "`, then the expected type's name, then a period. |
| `TestUtilities.NotCaughtReasonNamesTheType` | src/Phx.Test/Phx/Test/TestUtils.cs:31 | Different expected types give different reasons, so the reason identifies the type that was not caught. |
| `TestUtilities.CatchingExceptionCatchesEverything` | src/Phx.Test/Phx/Test/TestUtils.cs:18-23 | `TestForError<Exception>` returns whatever exception the test threw, of any type. So does the `Type` overload given `Object`, `Exception` or `ISerializable`. |
| `TestUtilities.TestForErrorOfType` | src/Phx.Test/Phx/Test/TestUtils.cs:41-60 | Returns exactly when the test threw an instance of the given type, and then returns that exception. |
| `TestUtilities.ReturnsOnlyTheCaughtException` | src/Phx.Test/Phx/Test/TestUtils.cs:30-34 | Whenever `TestForError` returns, it returns the very exception the test threw, and that exception has the expected type. The converse also holds. |
| `TestUtilities.EscapingExceptionIsTheTestsOrAFailure` | src/Phx.Test/Phx/Test/TestUtils.cs:25-32 | An escaping exception is the test's own exception, or the not-caught verification failure when the test returned. |
| `TestUtilities.OverloadsAgree` | src/Phx.Test/Phx/Test/TestUtils.cs:41-60 | The `Type` overload classifies every outcome exactly as the generic overload does. |
| `TestUtilities.VerificationFailuresAreCaught` | src/Phx.Test/Phx/Test/TestUtils.cs:22-23 | `TestForError` for a verification failure catches `Verify.That` on a failure, keeping message and cause. It also catches `Verify.Fail(reason)`, keeping the reason. |
| `TestUtilities.SuccessIsNotAnError` | src/Phx.Test/Phx/Test/TestUtils.cs:30-32 | `Verify.That` on a success makes `TestForError` throw the not-caught verification failure. |
| `Disposables.TestDisposable.constructor` | src/Phx.Test/Phx/Test/TestDisposable.cs:29-32 | `IsDisposed` starts as the argument. |
| `Disposables.TestDisposable.Dispose` | src/Phx.Test/Phx/Test/TestDisposable.cs:35-38 | Afterwards `IsDisposed` holds. On a disposed object nothing changes, so a second call is a no-op. |
| `Disposables.TestDisposable.ToDebugDisplay` | src/Phx.Test/Phx/Test/TestDisposable.cs:41-44 | Starts with the object's own text and ends with `" { IsDisposed: True }"` or `" { IsDisposed: False }"`. |
| `Disposables.DisplayRevealsState` | src/Phx.Test/Phx/Test/TestDisposable.cs:41-44 | A disposed and an undisposed object never have the same debug display. |
| `Example.Accumulator.constructor` | src/Phx.Test.Tests/Phx/Test/Example/Accumulator.cs:13 | A new accumulator has `Total == 0`. |
| `Example.Accumulator.Add` | src/Phx.Test.Tests/Phx/Test/Example/Accumulator.cs:14-18 | Returns exactly when `value >= 0`. A negative value throws an `InvalidOperationException` before any update, so `Total` is unchanged. Otherwise `Total` becomes the 32-bit wrapped sum. |
| `Example.AddStep` | src/Phx.Test.Tests/Phx/Test/Example/Accumulator.cs:15-17 | A negative value leaves the total unchanged. Otherwise the new total is congruent to the exact sum modulo 2^32, and equals it when the sum fits in 32 bits. |
| `Example.Wrap32` | src/Phx.Test.Tests/Phx/Test/Example/Accumulator.cs:17 | C# unchecked `+=`: the result is the sum itself when it fits in 32 bits, and is congruent to it modulo 2^32 always. |
| `Example.TotalIsExactWithoutOverflow` | src/Phx.Test.Tests/Phx/Test/Example/Accumulator.cs:13-17 | Over any series of `Add` calls starting from a non-negative total, the total is the exact sum of the accepted values while that sum fits in 32 bits. So the total never decreases and stays non-negative. |
| `Example.OverflowWrapsNegative` | src/Phx.Test.Tests/Phx/Test/Example/Accumulator.cs:17 | Adding 1 to `int.MaxValue` wraps the total to `int.MinValue`. |

## Left out

- The NLog logger is I/O. It is modelled as the `Logger` object's list of lines, and only the `Info` calls the context makes are modelled.
- `ToDebugDisplayString` from Phx.Lang is a foreign formatter. Each use takes it as a `describe` function parameter. Likewise, `{this}` in `TestDisposable.ToDebugDisplay` is the parameter `objectText`.
- `Console.WriteLine` in `TestUtils` is I/O.
- `LoggingTestClass` is test-runner lifecycle hooks plus one-line forwarding wrappers. It has no logic of its own.
- The exception classes' other constructors (message-less, serialization) are not modelled. Only the exceptions this core throws are modelled: `VerificationFailed`, `NotSupported`, and the `InvalidOperationException` that `Accumulator.Add` throws (`RequirementNotMet`).
- Phx.Validation's `ValidationResult` is three cases: success, failure with an optional cause, and any other subtype named by its assembly-qualified name. The validation library's requirement check in `Accumulator.Add` becomes one fixed `InvalidOperationException`, whose message is not modelled.
- Exception types are identified by their simple `Type.Name`. Two types with the same simple name in different namespaces are not told apart.
- Wrapped computations are pure functions from nothing to an outcome. Their side effects on other test state are not modelled.
- A computation that itself declares steps on the same context is not modelled. An example is `When("…", () => { Log("x"); return v; })`. In C# its inner records come before the outer one. So "appends exactly one record" holds only for computations that do not call back into the context.
- StepLog.TestLogContext.DeferredWhen: the contract cannot say the action is not invoked. It says only that the record is DEFERRED whatever the action would do, and that the action comes back unchanged.
- DeferredActions.DeferredTestAction.Execute: the order "flag set, record appended, then the action runs" appears only in the method body. The action is pure in this model, so the contract cannot observe the order.
- The "fail the test when a deferred action never ran" behaviour and the `**PASSED**` result format appear only in the tests. The code does not implement them (see above).
- Running the action that `DeferredWhen` returns records nothing. No `DeferredTestAction` is created for it, and nothing marks it executed. Only a `DeferredTestAction` that the caller builds by hand announces its run.
- A second `Execute` of the same deferred action appends a second announcement and runs the action again, exactly as the code does. No policy against it is modelled.
- Example.TotalIsExactWithoutOverflow: the exact-sum and never-decreases property holds only while the sum stays at most `int.MaxValue`. C# `+=` wraps silently, and `OverflowWrapsNegative` shows the wrap.
