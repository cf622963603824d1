/**
 * `TestLogContext`: records the labelled steps of one test and renders them,
 * grouped by kind, to a logger when the test ends.
 *
 * The first half of the module is the specification of rendering: the step
 * records, the structured `Layout` of the transcript (kind headers and step
 * entries), and lemmas about ordering and grouping. The second half is the
 * recorder itself, a class whose methods append to its step list, and the
 * logger it writes to.
 */
module StepLog {
  import opened Outcomes

  const TestSeparator: string := "----------------------------------------"
  const LogSpacer: string := "     --------------------"
  const EvaluationDelimiter: string := " -> "
  const ExpectationDelimiter: string := " : "

  /** The kind of an execution step; `None` is only the "no previous kind" state of rendering. */
  datatype TestSteps = None | Given | When | Then

  datatype TestResults = PASSED | FAILED | DEFERRED

  /** One record of the step list. */
  datatype TestStep =
    | ExecutionStep(step: TestSteps, result: TestResults, message: string)
    | LogStep(message: string)

  /** The enum's `ToString`. */
  function KindName(k: TestSteps): string {
    match k
    case None => "None"
    case Given => "Given"
    case When => "When"
    case Then => "Then"
  }

  /** The enum's `ToString`. */
  function ResultName(r: TestResults): string {
    match r
    case PASSED => "PASSED"
    case FAILED => "FAILED"
    case DEFERRED => "DEFERRED"
  }

  const Bullet: string := "  * "

  /** The record's `ToString`: a bulleted line with the result for an execution step, the bare message for a log step. */
  function StepText(s: TestStep): (r: string)
    ensures s.LogStep? ==> r == s.message
    ensures s.ExecutionStep? ==>
              var suffix := " [" + ResultName(s.result) + "]";
              |r| == |Bullet| + |s.message| + |suffix| &&
              r[..|Bullet|] == Bullet && r[|Bullet|..|Bullet| + |s.message|] == s.message &&
              r[|Bullet| + |s.message|..] == suffix
  {
    match s
    case ExecutionStep(_, result, message) => Bullet + message + " [" + ResultName(result) + "]"
    case LogStep(message) => message
  }

  /** Distinct kinds print differently, so a header names exactly one kind. */
  lemma KindNamesDistinct(a: TestSteps, b: TestSteps)
    ensures a != b ==> KindName(a) != KindName(b)
  {
  }

  /** Distinct results print differently, so an entry's bracket names exactly one result. */
  lemma ResultNamesDistinct(a: TestResults, b: TestResults)
    ensures a != b ==> ResultName(a) != ResultName(b)
  {
  }

  /** A kind header can never be mistaken for the line of an execution record, which starts with the bullet. */
  lemma HeaderIsNotAnEntry(k: TestSteps, s: TestStep)
    requires s.ExecutionStep?
    ensures KindName(k) != StepText(s)
  {
  }

  /** Every execution step the recorder creates has a real kind. */
  predicate WellFormed(steps: seq<TestStep>) {
    forall i :: 0 <= i < |steps| && steps[i].ExecutionStep? ==> steps[i].step != TestSteps.None
  }

  // ---------------------------------------------------------------------------
  // Records appended by the declaration methods
  // ---------------------------------------------------------------------------

  /**
   * The record a value-form declaration appends once its computation has run:
   * PASSED with the evaluation suffix on a return, FAILED with the bare
   * message on a throw.
   */
  function EvaluatedStep<T>(kind: TestSteps, message: string, outcome: Outcome<T>, describe: T -> string): TestStep {
    match outcome
    case Returned(v) => ExecutionStep(kind, PASSED, message + EvaluationDelimiter + describe(v))
    case Threw(_) => ExecutionStep(kind, FAILED, message)
  }

  /** The record an action-form declaration appends once its action has run. */
  function CompletedStep(kind: TestSteps, message: string, outcome: Outcome<()>): TestStep {
    ExecutionStep(kind, if outcome.Returned? then PASSED else FAILED, message)
  }

  /** The message prefix of the expected-value `Then` overloads, built before the assertion runs. */
  function ExpectationMessage<U>(description: string, expectedValue: U, describe: U -> string): string {
    description + ExpectationDelimiter + describe(expectedValue)
  }

  /**
   * What a value-form record says: PASSED exactly when the computation returned;
   * the message always starts with what was given; the evaluation suffix with
   * the rendered value is there on success and absent on failure.
   */
  lemma EvaluatedStepFacts<T>(kind: TestSteps, message: string, outcome: Outcome<T>, describe: T -> string)
    ensures EvaluatedStep(kind, message, outcome, describe).ExecutionStep?
    ensures EvaluatedStep(kind, message, outcome, describe).step == kind
    ensures EvaluatedStep(kind, message, outcome, describe).result == PASSED <==> outcome.Returned?
    ensures EvaluatedStep(kind, message, outcome, describe).result != DEFERRED
    ensures outcome.Returned? ==>
              EvaluatedStep(kind, message, outcome, describe).message
              == message + EvaluationDelimiter + describe(outcome.value)
    ensures outcome.Threw? ==> EvaluatedStep(kind, message, outcome, describe).message == message
  {
  }

  /** The expected-value `Then` record starts with the description and the rendered expectation, whatever the outcome. */
  lemma ExpectationAlwaysRecorded<T, U>(description: string, expectedValue: U, outcome: Outcome<T>,
                                       describeT: T -> string, describeU: U -> string)
    ensures var m := EvaluatedStep(Then, ExpectationMessage(description, expectedValue, describeU), outcome, describeT).message;
            var prefix := description + ExpectationDelimiter + describeU(expectedValue);
            |prefix| <= |m| && m[..|prefix|] == prefix
  {
  }

  // ---------------------------------------------------------------------------
  // Rendering specification
  // ---------------------------------------------------------------------------

  /** A line of the transcript: a kind header or the entry of one record. */
  datatype Line = Header(kind: TestSteps) | Entry(record: TestStep)

  function LineText(line: Line): string {
    match line
    case Header(k) => KindName(k)
    case Entry(s) => StepText(s)
  }

  /** The "previous kind" after a record: an execution step sets it, a log step leaves it alone. */
  function NextKind(s: TestStep, prev: TestSteps): TestSteps {
    if s.ExecutionStep? then s.step else prev
  }

  /** The lines one record produces: a header first when it is an execution step of a new kind. */
  function Block(s: TestStep, prev: TestSteps): seq<Line> {
    if s.ExecutionStep? && s.step != prev then [Header(s.step), Entry(s)] else [Entry(s)]
  }

  /** The transcript lines of `steps` when the previous execution kind is `prev`. */
  function Layout(steps: seq<TestStep>, prev: TestSteps): seq<Line>
    decreases |steps|
  {
    if steps == [] then [] else Block(steps[0], prev) + Layout(steps[1..], NextKind(steps[0], prev))
  }

  /** The "previous kind" state after walking `steps` from `prev`. */
  function LastExecKind(steps: seq<TestStep>, prev: TestSteps): TestSteps
    decreases |steps|
  {
    if steps == [] then prev else LastExecKind(steps[1..], NextKind(steps[0], prev))
  }

  /** The kinds of the execution steps, in order; log steps are skipped. */
  function ExecKinds(steps: seq<TestStep>): seq<TestSteps>
    decreases |steps|
  {
    if steps == [] then []
    else (if steps[0].ExecutionStep? then [steps[0].step] else []) + ExecKinds(steps[1..])
  }

  /** How many times a sequence of kinds changes kind, starting from `prev`. */
  function Changes(kinds: seq<TestSteps>, prev: TestSteps): nat
    decreases |kinds|
  {
    if kinds == [] then 0
    else (if kinds[0] != prev then 1 else 0) + Changes(kinds[1..], kinds[0])
  }

  /** The records behind the entry lines, in order. */
  function Entries(lines: seq<Line>): seq<TestStep>
    decreases |lines|
  {
    if lines == [] then []
    else (if lines[0].Entry? then [lines[0].record] else []) + Entries(lines[1..])
  }

  /** The number of header lines. */
  function CountHeaders(lines: seq<Line>): nat
    decreases |lines|
  {
    if lines == [] then 0
    else (if lines[0].Header? then 1 else 0) + CountHeaders(lines[1..])
  }

  /** The strings of the lines, one for one. */
  function Texts(lines: seq<Line>): (r: seq<string>)
    ensures |r| == |lines|
    decreases |lines|
  {
    if lines == [] then [] else [LineText(lines[0])] + Texts(lines[1..])
  }

  /** Line `i` of the text is the text of line `i`. */
  lemma {:induction false} TextsAt(lines: seq<Line>, i: nat)
    requires i < |lines|
    ensures Texts(lines)[i] == LineText(lines[i])
    decreases i
  {
    if i > 0 {
      TextsAt(lines[1..], i - 1);
    }
  }

  /** The lines `LogSteps` writes for `steps`: one per record plus one per change of kind. */
  function Render(steps: seq<TestStep>): (r: seq<string>)
    ensures |r| == |steps| + Changes(ExecKinds(steps), TestSteps.None)
  {
    LayoutHeaderCount(steps, TestSteps.None);
    Texts(Layout(steps, TestSteps.None))
  }

  lemma {:induction false} TextsAppend(a: seq<Line>, b: seq<Line>)
    ensures Texts(a + b) == Texts(a) + Texts(b)
    decreases |a|
  {
    if a == [] {
      assert a + b == b;
    } else {
      assert (a + b)[0] == a[0];
      assert (a + b)[1..] == a[1..] + b;
      TextsAppend(a[1..], b);
    }
  }

  /** The walk state after `steps` is the kind of the last execution step, or `prev` when there is none. */
  lemma {:induction false} LastExecKindIsLastKind(steps: seq<TestStep>, prev: TestSteps)
    ensures ExecKinds(steps) == [] ==> LastExecKind(steps, prev) == prev
    ensures ExecKinds(steps) != [] ==> LastExecKind(steps, prev) == ExecKinds(steps)[|ExecKinds(steps)| - 1]
    decreases |steps|
  {
    if steps != [] {
      LastExecKindIsLastKind(steps[1..], NextKind(steps[0], prev));
    }
  }

  /**
   * Rendering is compositional: the lines of `a + b` are the lines of `a`
   * followed by the lines of `b`, rendered from the kind `a` ends on.
   */
  lemma {:induction false} LayoutAppend(a: seq<TestStep>, b: seq<TestStep>, prev: TestSteps)
    ensures Layout(a + b, prev) == Layout(a, prev) + Layout(b, LastExecKind(a, prev))
    ensures LastExecKind(a + b, prev) == LastExecKind(b, LastExecKind(a, prev))
    decreases |a|
  {
    if a == [] {
      assert a + b == b;
    } else {
      assert (a + b)[0] == a[0];
      assert (a + b)[1..] == a[1..] + b;
      LayoutAppend(a[1..], b, NextKind(a[0], prev));
    }
  }

  /**
   * The header rule, record by record: record `i` gets a header exactly when it
   * is an execution step whose kind differs from the last execution kind
   * before it (log steps in between do not count).
   */
  lemma LayoutAt(steps: seq<TestStep>, i: nat, prev: TestSteps)
    requires i < |steps|
    ensures Layout(steps, prev)
            == Layout(steps[..i], prev)
               + Block(steps[i], LastExecKind(steps[..i], prev))
               + Layout(steps[i + 1..], LastExecKind(steps[..i + 1], prev))
  {
    assert steps == steps[..i] + ([steps[i]] + steps[i + 1..]);
    LayoutAppend(steps[..i], [steps[i]] + steps[i + 1..], prev);
    var q := LastExecKind(steps[..i], prev);
    LayoutAppend([steps[i]], steps[i + 1..], q);
    assert Layout([steps[i]], q) == Block(steps[i], q) by {
      assert [steps[i]][1..] == [];
    }
    assert steps[..i + 1] == steps[..i] + [steps[i]];
    LayoutAppend(steps[..i], [steps[i]], prev);
    assert LastExecKind([steps[i]], q) == NextKind(steps[i], q) by {
      assert [steps[i]][1..] == [];
    }
  }

  lemma {:induction false} EntriesAppend(a: seq<Line>, b: seq<Line>)
    ensures Entries(a + b) == Entries(a) + Entries(b)
    ensures CountHeaders(a + b) == CountHeaders(a) + CountHeaders(b)
    decreases |a|
  {
    if a == [] {
      assert a + b == b;
    } else {
      assert (a + b)[0] == a[0];
      assert (a + b)[1..] == a[1..] + b;
      EntriesAppend(a[1..], b);
    }
  }

  /** Removing the headers leaves exactly the records, in insertion order. */
  lemma {:induction false} LayoutEntries(steps: seq<TestStep>, prev: TestSteps)
    ensures Entries(Layout(steps, prev)) == steps
    decreases |steps|
  {
    if steps != [] {
      var s := steps[0];
      EntriesAppend(Block(s, prev), Layout(steps[1..], NextKind(s, prev)));
      LayoutEntries(steps[1..], NextKind(s, prev));
      assert Entries(Block(s, prev)) == [s];
      assert steps == [s] + steps[1..];
    }
  }

  /**
   * There is one header per change of execution kind, so the transcript has
   * one line per record plus one per change.
   */
  lemma {:induction false} LayoutHeaderCount(steps: seq<TestStep>, prev: TestSteps)
    ensures CountHeaders(Layout(steps, prev)) == Changes(ExecKinds(steps), prev)
    ensures |Layout(steps, prev)| == |steps| + Changes(ExecKinds(steps), prev)
    decreases |steps|
  {
    if steps != [] {
      var s := steps[0];
      EntriesAppend(Block(s, prev), Layout(steps[1..], NextKind(s, prev)));
      LayoutHeaderCount(steps[1..], NextKind(s, prev));
      if s.ExecutionStep? {
        assert ExecKinds(steps) == [s.step] + ExecKinds(steps[1..]);
        assert ([s.step] + ExecKinds(steps[1..]))[1..] == ExecKinds(steps[1..]);
      } else {
        assert ExecKinds(steps) == ExecKinds(steps[1..]);
      }
    }
  }

  /** A header names the kind of some execution step; a kind that never occurs gets no header. */
  lemma {:induction false} HeadersOnlyForPresentKinds(steps: seq<TestStep>, prev: TestSteps, k: TestSteps)
    requires Header(k) in Layout(steps, prev)
    ensures exists i :: 0 <= i < |steps| && steps[i].ExecutionStep? && steps[i].step == k
    decreases |steps|
  {
    var s := steps[0];
    var rest := Layout(steps[1..], NextKind(s, prev));
    assert Layout(steps, prev) == Block(s, prev) + rest;
    if Header(k) in Block(s, prev) {
      assert steps[0].ExecutionStep? && steps[0].step == k;
    } else {
      assert Header(k) in rest;
      HeadersOnlyForPresentKinds(steps[1..], NextKind(s, prev), k);
      var i :| 0 <= i < |steps[1..]| && steps[1..][i].ExecutionStep? && steps[1..][i].step == k;
      assert steps[i + 1] == steps[1..][i];
    }
  }

  /** Every header is directly followed by the entry of an execution step of that kind. */
  lemma {:induction false} HeaderOpensItsGroup(steps: seq<TestStep>, prev: TestSteps, j: nat)
    requires j < |Layout(steps, prev)| && Layout(steps, prev)[j].Header?
    ensures j + 1 < |Layout(steps, prev)|
    ensures Layout(steps, prev)[j + 1].Entry?
    ensures Layout(steps, prev)[j + 1].record.ExecutionStep?
    ensures Layout(steps, prev)[j + 1].record.step == Layout(steps, prev)[j].kind
    decreases |steps|
  {
    var s := steps[0];
    var block := Block(s, prev);
    var rest := Layout(steps[1..], NextKind(s, prev));
    assert Layout(steps, prev) == block + rest;
    if j >= |block| {
      assert Layout(steps, prev)[j] == rest[j - |block|];
      HeaderOpensItsGroup(steps[1..], NextKind(s, prev), j - |block|);
      assert Layout(steps, prev)[j + 1] == rest[j - |block| + 1];
    }
  }

  /** The rendering of well-formed records never contains a `None` header. */
  lemma NoNoneHeader(steps: seq<TestStep>)
    requires WellFormed(steps)
    ensures Header(TestSteps.None) !in Layout(steps, TestSteps.None)
  {
    if Header(TestSteps.None) in Layout(steps, TestSteps.None) {
      HeadersOnlyForPresentKinds(steps, TestSteps.None, TestSteps.None);
      assert false;
    }
  }

  /** A log step sits inline: it adds its own line and neither opens nor closes a group. */
  lemma LogStepIsTransparent(a: seq<TestStep>, message: string, b: seq<TestStep>, prev: TestSteps)
    ensures Layout(a + [LogStep(message)] + b, prev)
            == Layout(a, prev) + [Entry(LogStep(message))] + Layout(b, LastExecKind(a, prev))
  {
    var q := LastExecKind(a, prev);
    LayoutAppend(a + [LogStep(message)], b, prev);
    LayoutAppend(a, [LogStep(message)], prev);
    assert Layout([LogStep(message)], q) == [Entry(LogStep(message))] by {
      assert [LogStep(message)][1..] == [];
    }
    assert LastExecKind([LogStep(message)], q) == q by {
      assert [LogStep(message)][1..] == [];
    }
  }

  /** `Given, Log, Given` is one group: a single `Given` header. */
  lemma GivenLogGivenHasOneHeader(first: string, log: string, second: string)
    ensures Render([ExecutionStep(Given, PASSED, first), LogStep(log), ExecutionStep(Given, PASSED, second)])
            == ["Given", Bullet + first + " [PASSED]", log, Bullet + second + " [PASSED]"]
  {
    var g1, l, g2 := ExecutionStep(Given, PASSED, first), LogStep(log), ExecutionStep(Given, PASSED, second);
    var steps := [g1, l, g2];
    assert steps[1..] == [l, g2] && [l, g2][1..] == [g2] && [g2][1..] == [];
    assert Layout([g2], Given) == [Entry(g2)];
    assert Layout([l, g2], Given) == [Entry(l)] + Layout([g2], Given);
    assert Layout(steps, TestSteps.None) == [Header(Given), Entry(g1)] + Layout([l, g2], Given);
    var lines := [Header(Given), Entry(g1), Entry(l), Entry(g2)];
    assert Layout(steps, TestSteps.None) == lines;
    assert StepText(g1) == Bullet + first + " [PASSED]" && StepText(g2) == Bullet + second + " [PASSED]";
    var expected := ["Given", Bullet + first + " [PASSED]", log, Bullet + second + " [PASSED]"];
    forall i | 0 <= i < 4 ensures Texts(lines)[i] == expected[i] {
      TextsAt(lines, i);
    }
  }

  /** `Given, When, Given` is never merged: the second `Given` opens a group of its own. */
  lemma InterleavedKindsAreNotMerged(first: string, action: string, second: string)
    ensures var steps := [ExecutionStep(Given, PASSED, first), ExecutionStep(When, PASSED, action),
                          ExecutionStep(Given, PASSED, second)];
            Layout(steps, TestSteps.None)
            == [Header(Given), Entry(steps[0]), Header(When), Entry(steps[1]), Header(Given), Entry(steps[2])]
  {
    var g1, w, g2 := ExecutionStep(Given, PASSED, first), ExecutionStep(When, PASSED, action),
                     ExecutionStep(Given, PASSED, second);
    var steps := [g1, w, g2];
    assert steps[1..] == [w, g2] && [w, g2][1..] == [g2] && [g2][1..] == [];
    assert Layout([g2], When) == [Header(Given), Entry(g2)];
    assert Layout([w, g2], Given) == [Header(When), Entry(w)] + Layout([g2], When);
    assert Layout(steps, TestSteps.None) == [Header(Given), Entry(g1)] + Layout([w, g2], Given);
  }

  /** Two execution records of a new kind followed by a log record: one header, three lines. */
  lemma GroupOfTwo(g: seq<TestStep>, prev: TestSteps)
    requires |g| == 3 && g[0].ExecutionStep? && g[1].ExecutionStep? && g[2].LogStep?
    requires g[0].step == g[1].step && g[0].step != prev
    ensures Layout(g, prev) == [Header(g[0].step), Entry(g[0]), Entry(g[1]), Entry(g[2])]
    ensures LastExecKind(g, prev) == g[0].step
  {
    var k := g[0].step;
    assert g[1..] == [g[1], g[2]] && g[1..][1..] == [g[2]] && g[1..][1..][1..] == [];
    assert Layout([g[2]], k) == [Entry(g[2])];
    assert LastExecKind([g[2]], k) == k;
  }

  /**
   * Consecutive records of one kind share a header even with log lines between
   * the groups: `Given, Given, Log, When, When, Log, Then, Then, Log` has
   * exactly one header per kind, each right before its group.
   */
  lemma SimilarStepsAreGrouped(s: seq<TestStep>)
    requires |s| == 9
    requires s[0].ExecutionStep? && s[0].step == Given && s[1].ExecutionStep? && s[1].step == Given
    requires s[2].LogStep?
    requires s[3].ExecutionStep? && s[3].step == When && s[4].ExecutionStep? && s[4].step == When
    requires s[5].LogStep?
    requires s[6].ExecutionStep? && s[6].step == Then && s[7].ExecutionStep? && s[7].step == Then
    requires s[8].LogStep?
    ensures Layout(s, TestSteps.None)
            == [Header(Given), Entry(s[0]), Entry(s[1]), Entry(s[2])]
               + [Header(When), Entry(s[3]), Entry(s[4]), Entry(s[5])]
               + [Header(Then), Entry(s[6]), Entry(s[7]), Entry(s[8])]
    ensures CountHeaders(Layout(s, TestSteps.None)) == 3
  {
    var g, w, t := s[..3], s[3..6], s[6..];
    assert s == g + (w + t);
    LayoutAppend(g, w + t, TestSteps.None);
    GroupOfTwo(g, TestSteps.None);
    LayoutAppend(w, t, Given);
    GroupOfTwo(w, Given);
    GroupOfTwo(t, When);
    LayoutHeaderCount(s, TestSteps.None);
  }

  /**
   * One step of the rendering walk: after a prefix that ends on kind `prev`,
   * one more record adds its header when it opens a group, then its own line.
   */
  lemma WalkStep(prefix: seq<TestStep>, s: TestStep, prev: TestSteps)
    requires prev == LastExecKind(prefix, TestSteps.None)
    ensures Texts(Layout(prefix + [s], TestSteps.None))
            == Texts(Layout(prefix, TestSteps.None))
               + (if s.ExecutionStep? && s.step != prev then [KindName(s.step)] else []) + [StepText(s)]
    ensures LastExecKind(prefix + [s], TestSteps.None) == NextKind(s, prev)
  {
    LayoutAppend(prefix, [s], TestSteps.None);
    assert [s][1..] == [];
    assert Layout([s], prev) == Block(s, prev);
    TextsAppend(Layout(prefix, TestSteps.None), Block(s, prev));
    var header := if s.ExecutionStep? && s.step != prev then [KindName(s.step)] else [];
    assert Texts(Block(s, prev)) == header + [StepText(s)];
  }

  /** Appending one line after a concatenation; stated once to keep the `LogSteps` proof small. */
  lemma SnocAssoc(a: seq<string>, b: seq<string>, x: string)
    ensures (a + b) + [x] == a + (b + [x])
  {
  }

  // ---------------------------------------------------------------------------
  // The logger and the recorder
  // ---------------------------------------------------------------------------

  /** The logging sink: the lines it has been sent, in order. */
  class Logger {
    var lines: seq<string>

    constructor ()
      ensures lines == []
    {
      lines := [];
    }

    method Info(message: string)
      modifies this
      ensures lines == old(lines) + [message]
    {
      lines := lines + [message];
    }
  }

  /** The line `LogEnd` finishes with: the verdict, never DEFERRED. */
  function ResultLine(success: bool): (r: string)
    ensures success ==> r == "     TestResult: PASSED"
    ensures !success ==> r == "     TestResult: FAILED"
  {
    var result := if success then PASSED else FAILED;
    "     TestResult: " + ResultName(result)
  }

  class TestLogContext {
    const logger: Logger
    var testSteps: seq<TestStep>

    ghost predicate Valid()
      reads this
    {
      WellFormed(testSteps)
    }

    constructor (logger: Logger)
      ensures this.logger == logger && testSteps == [] && Valid()
    {
      this.logger := logger;
      testSteps := [];
    }

    /** `Given<T>(description, value)`: runs the computation, records it, and passes its outcome on. */
    method GivenValue<T>(description: string, value: () -> Outcome<T>, describe: T -> string) returns (r: Outcome<T>)
      requires Valid()
      modifies this
      ensures Valid()
      ensures r == value()
      ensures testSteps == old(testSteps) + [EvaluatedStep(TestSteps.Given, description, r, describe)]
    {
      var result := FAILED;
      var message := description;
      r := value();
      if r.Returned? {
        message := message + EvaluationDelimiter + describe(r.value);
        result := PASSED;
      }
      testSteps := testSteps + [ExecutionStep(TestSteps.Given, result, message)];
    }

    /** `Given(description)`: a condition with nothing to run, always PASSED. */
    method Given(description: string)
      requires Valid()
      modifies this
      ensures Valid()
      ensures testSteps == old(testSteps) + [ExecutionStep(TestSteps.Given, PASSED, description)]
    {
      testSteps := testSteps + [ExecutionStep(TestSteps.Given, PASSED, description)];
    }

    /** `When<T>(description, action)`. */
    method WhenValue<T>(description: string, action: () -> Outcome<T>, describe: T -> string) returns (r: Outcome<T>)
      requires Valid()
      modifies this
      ensures Valid()
      ensures r == action()
      ensures testSteps == old(testSteps) + [EvaluatedStep(TestSteps.When, description, r, describe)]
    {
      var result := FAILED;
      var message := description;
      r := action();
      if r.Returned? {
        message := message + EvaluationDelimiter + describe(r.value);
        result := PASSED;
      }
      testSteps := testSteps + [ExecutionStep(TestSteps.When, result, message)];
    }

    /** `When(description, action)` with an action that returns nothing. */
    method WhenAction(description: string, action: Action) returns (r: Outcome<()>)
      requires Valid()
      modifies this
      ensures Valid()
      ensures r == action()
      ensures testSteps == old(testSteps) + [CompletedStep(TestSteps.When, description, r)]
    {
      var result := FAILED;
      r := action();
      if r.Returned? {
        result := PASSED;
      }
      testSteps := testSteps + [ExecutionStep(TestSteps.When, result, description)];
    }

    /** `When(description)`: an action with nothing to run, always PASSED. */
    method When(description: string)
      requires Valid()
      modifies this
      ensures Valid()
      ensures testSteps == old(testSteps) + [ExecutionStep(TestSteps.When, PASSED, description)]
    {
      testSteps := testSteps + [ExecutionStep(TestSteps.When, PASSED, description)];
    }

    /** `DeferredWhen(description, action)`: records a DEFERRED step and hands the action back unrun. */
    method DeferredWhen(description: string, action: Action) returns (deferred: Action)
      requires Valid()
      modifies this
      ensures Valid()
      ensures deferred == action
      ensures testSteps == old(testSteps) + [ExecutionStep(TestSteps.When, DEFERRED, description)]
    {
      testSteps := testSteps + [ExecutionStep(TestSteps.When, DEFERRED, description)];
      deferred := action;
    }

    /** `Then<T>(description, assertion)`. */
    method ThenValue<T>(description: string, assertion: () -> Outcome<T>, describe: T -> string) returns (r: Outcome<T>)
      requires Valid()
      modifies this
      ensures Valid()
      ensures r == assertion()
      ensures testSteps == old(testSteps) + [EvaluatedStep(TestSteps.Then, description, r, describe)]
    {
      var result := FAILED;
      var message := description;
      r := assertion();
      if r.Returned? {
        message := message + EvaluationDelimiter + describe(r.value);
        result := PASSED;
      }
      testSteps := testSteps + [ExecutionStep(TestSteps.Then, result, message)];
    }

    /** `Then(description, assertion)` with an assertion that returns nothing. */
    method ThenAction(description: string, assertion: Action) returns (r: Outcome<()>)
      requires Valid()
      modifies this
      ensures Valid()
      ensures r == assertion()
      ensures testSteps == old(testSteps) + [CompletedStep(TestSteps.Then, description, r)]
    {
      var result := FAILED;
      r := assertion();
      if r.Returned? {
        result := PASSED;
      }
      testSteps := testSteps + [ExecutionStep(TestSteps.Then, result, description)];
    }

    /** `Then<T, U>(description, expectedValue, assertion)`: the expectation is part of the message whatever happens. */
    method ThenExpectingValue<T, U>(description: string, expectedValue: U, assertion: U -> Outcome<T>,
                                    describeT: T -> string, describeU: U -> string) returns (r: Outcome<T>)
      requires Valid()
      modifies this
      ensures Valid()
      ensures r == assertion(expectedValue)
      ensures testSteps == old(testSteps)
                           + [EvaluatedStep(TestSteps.Then, ExpectationMessage(description, expectedValue, describeU), r, describeT)]
    {
      var result := FAILED;
      var message := ExpectationMessage(description, expectedValue, describeU);
      r := assertion(expectedValue);
      if r.Returned? {
        message := message + EvaluationDelimiter + describeT(r.value);
        result := PASSED;
      }
      testSteps := testSteps + [ExecutionStep(TestSteps.Then, result, message)];
    }

    /** `Then<U>(description, expectedValue, assertion)` with an assertion that returns nothing. */
    method ThenExpectingAction<U>(description: string, expectedValue: U, assertion: U -> Outcome<()>,
                                  describeU: U -> string) returns (r: Outcome<()>)
      requires Valid()
      modifies this
      ensures Valid()
      ensures r == assertion(expectedValue)
      ensures testSteps == old(testSteps)
                           + [CompletedStep(TestSteps.Then, ExpectationMessage(description, expectedValue, describeU), r)]
    {
      var result := FAILED;
      var message := ExpectationMessage(description, expectedValue, describeU);
      r := assertion(expectedValue);
      if r.Returned? {
        result := PASSED;
      }
      testSteps := testSteps + [ExecutionStep(TestSteps.Then, result, message)];
    }

    /** `Log(message)`: a free-form line at this point of the transcript. */
    method Log(message: string)
      requires Valid()
      modifies this
      ensures Valid()
      ensures testSteps == old(testSteps) + [LogStep(message)]
    {
      testSteps := testSteps + [LogStep(message)];
    }

    /** `LogStart(displayName)`: a blank line and a separator, then the name and a spacer when there is a name. */
    method LogStart(displayName: Option<string>)
      modifies logger
      ensures displayName.None? ==> logger.lines == old(logger.lines) + ["", TestSeparator]
      ensures displayName.Some? ==>
                logger.lines == old(logger.lines) + ["", TestSeparator, displayName.value, LogSpacer]
    {
      logger.Info("");
      logger.Info(TestSeparator);
      if displayName.Some? {
        logger.Info(displayName.value);
        logger.Info(LogSpacer);
      }
    }

    /** `LogEnd(success)`: the rendered steps, then the result line. */
    method LogEnd(success: bool)
      modifies logger
      ensures logger.lines == old(logger.lines) + Render(testSteps) + [ResultLine(success)]
    {
      LogSteps();
      logger.Info(ResultLine(success));
    }

    /** `LogSteps()`: one pass over the records, writing a kind header whenever the execution kind changes. */
    method LogSteps()
      modifies logger
      ensures logger.lines == old(logger.lines) + Render(testSteps)
    {
      var steps := testSteps;
      var prevStep := TestSteps.None;
      var i := 0;
      ghost var written: seq<string> := [];
      while i < |steps|
        invariant 0 <= i <= |steps|
        invariant prevStep == LastExecKind(steps[..i], TestSteps.None)
        invariant written == Texts(Layout(steps[..i], TestSteps.None))
        invariant logger.lines == old(logger.lines) + written
      {
        var step := steps[i];
        WalkStep(steps[..i], step, prevStep);
        assert steps[..i + 1] == steps[..i] + [step];
        if step.ExecutionStep? {
          if prevStep != step.step {
            logger.Info(KindName(step.step));
            SnocAssoc(old(logger.lines), written, KindName(step.step));
            written := written + [KindName(step.step)];
            prevStep := step.step;
          }
        }
        logger.Info(StepText(step));
        SnocAssoc(old(logger.lines), written, StepText(step));
        written := written + [StepText(step)];
        i := i + 1;
      }
      assert steps[..i] == steps;
    }
  }
}
