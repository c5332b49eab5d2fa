/** Whole runs of the remote-helper session: a session is a fold over its lines, and what it has done
never depends on bytes that come later. */
module GitRuns {
  import opened Text
  import opened GitPlan
  import opened GitSession

  // ---------------------------------------------------------------- folding lines

  function RunFrom(feed: Machine, s: State, lines: seq<string>): State {
    if lines == [] then s
    else feed(RunFrom(feed, s, lines[..|lines| - 1]), lines[|lines| - 1])
  }

  function Run(env: Environment, url: string, lines: seq<string>): State {
    RunFrom(Feeder(env, url), INITIAL, lines)
  }

  lemma {:induction false} RunFromConcat(feed: Machine, s: State, a: seq<string>, b: seq<string>)
    ensures RunFrom(feed, s, a + b) == RunFrom(feed, RunFrom(feed, s, a), b)
    decreases |b|
  {
    if b == [] {
      assert a + b == a;
    } else {
      RunFromConcat(feed, s, a, b[..|b| - 1]);
      assert (a + b)[..|a + b| - 1] == a + b[..|b| - 1];
    }
  }

  lemma RunFromCons(feed: Machine, s: State, line: string, lines: seq<string>)
    ensures RunFrom(feed, s, [line] + lines) == RunFrom(feed, feed(s, line), lines)
  {
    RunFromConcat(feed, s, [line], lines);
    assert [line][..0] == [];
  }

  /** What every machine used here does: it only adds events, and stays where it stopped. */
  ghost predicate Orderly(feed: Machine) {
    forall s: State, line: string :: s.trace <= feed(s, line).trace && (!s.Live() ==> feed(s, line) == s)
  }

  lemma FeederOrderly(env: Environment, url: string)
    ensures Orderly(Feeder(env, url))
  {
  }

  lemma {:induction false} RunFromStopped(feed: Machine, s: State, lines: seq<string>)
    requires Orderly(feed) && !s.Live()
    ensures RunFrom(feed, s, lines) == s
  {
    if lines != [] {
      RunFromStopped(feed, s, lines[..|lines| - 1]);
    }
  }

  /** The complete lines at the front of the input, and whether the input ends right after them. */
  function Frames(input: string): (seq<string>, bool)
    decreases |input|
  {
    match ReadLine(input)
    case EndOfInput => ([], true)
    case Malformed => ([], false)
    case NotUtf8 => ([], false)
    case Line(text, rest) =>
      ReadLineParts(input);
      var (lines, clean) := Frames(rest);
      ([text] + lines, clean)
  }

  function Conclude(s: State, clean: bool): State {
    if !s.Live() then s else if clean then EndInput(s) else s.Fail(MalformedInput)
  }

  lemma FramesStep(input: string)
    requires ReadLine(input).Line?
    ensures var (lines, clean) := Frames(ReadLine(input).rest);
            Frames(input) == ([ReadLine(input).text] + lines, clean)
  {
    ReadLineParts(input);
  }

  /** The session is the fold of its machine over the framed lines. */
  lemma {:induction false} DriveIsRun(feed: Machine, s: State, input: string)
    requires Orderly(feed)
    ensures Drive(feed, s, input) == Conclude(RunFrom(feed, s, Frames(input).0), Frames(input).1)
    decreases |input|
  {
    if !s.Live() {
      RunFromStopped(feed, s, Frames(input).0);
    } else if ReadLine(input).Line? {
      FramesStep(input);
      DriveStep(feed, s, input);
      var text, rest := ReadLine(input).text, ReadLine(input).rest;
      DriveIsRun(feed, feed(s, text), rest);
      RunFromCons(feed, s, text, Frames(rest).0);
    }
  }

  // ---------------------------------------------------------------- causality

  lemma {:induction false} DriveGrows(feed: Machine, s: State, input: string)
    requires Orderly(feed)
    ensures s.trace <= Drive(feed, s, input).trace
    decreases |input|
  {
    if s.Live() && ReadLine(input).Line? {
      ReadLineParts(input);
      DriveGrows(feed, feed(s, ReadLine(input).text), ReadLine(input).rest);
    }
  }

  lemma DriveStep(feed: Machine, s: State, input: string)
    requires s.Live() && ReadLine(input).Line?
    ensures |ReadLine(input).rest| < |input|
    ensures Drive(feed, s, input) == Drive(feed, feed(s, ReadLine(input).text), ReadLine(input).rest)
  {
    ReadLineParts(input);
  }

  lemma DriveStepMore(feed: Machine, s: State, input: string, more: string)
    requires s.Live() && ReadLine(input).Line?
    ensures Drive(feed, s, input + more)
            == Drive(feed, feed(s, ReadLine(input).text), ReadLine(input).rest + more)
  {
    ReadLineStable(input, more);
    DriveStep(feed, s, input + more);
  }

  lemma DriveEnds(feed: Machine, s: State, input: string)
    requires !s.Live() || !ReadLine(input).Line?
    ensures Drive(feed, s, input).trace == s.trace
  {
  }

  /** What has been written, asked and executed never depends on bytes that come later. */
  lemma {:induction false} DriveCausal(feed: Machine, s: State, input: string, more: string)
    requires Orderly(feed)
    ensures Drive(feed, s, input).trace <= Drive(feed, s, input + more).trace
    decreases |input|
  {
    if s.Live() && ReadLine(input).Line? {
      DriveStep(feed, s, input);
      DriveStepMore(feed, s, input, more);
      DriveCausal(feed, feed(s, ReadLine(input).text), ReadLine(input).rest, more);
    } else {
      DriveEnds(feed, s, input);
      DriveGrows(feed, s, input + more);
    }
  }

  function Plans(trace: seq<Event>): seq<RemotePlan> {
    if trace == [] then []
    else
      var last := trace[|trace| - 1];
      Plans(trace[..|trace| - 1]) + (if last.Executed? then [last.plan] else [])
  }

  lemma PlansSnoc(trace: seq<Event>, last: Event)
    ensures Plans(trace + [last]) == Plans(trace) + (if last.Executed? then [last.plan] else [])
  {
    assert (trace + [last])[..|trace|] == trace;
  }

  /** Everything written to stdout. */
  function Output(trace: seq<Event>): string {
    if trace == [] then ""
    else
      var last := trace[|trace| - 1];
      Output(trace[..|trace| - 1]) + (if last.Wrote? then last.text else "")
  }

  lemma OutputSnoc(trace: seq<Event>, last: Event)
    ensures Output(trace + [last]) == Output(trace) + (if last.Wrote? then last.text else "")
  {
    assert (trace + [last])[..|trace|] == trace;
  }

  lemma {:induction false} PlansPrefix(a: seq<Event>, b: seq<Event>)
    requires a <= b
    ensures Plans(a) <= Plans(b)
    decreases |b|
  {
    if |a| < |b| {
      PlansPrefix(a, b[..|b| - 1]);
    } else {
      assert a == b;
    }
  }

  lemma SessionCausality(env: Environment, url: string, input: string, more: string)
    ensures Plans(SessionOutcome(env, url, input).trace)
            <= Plans(SessionOutcome(env, url, input + more).trace)
  {
    FeederOrderly(env, url);
    DriveCausal(Feeder(env, url), INITIAL, input, more);
    PlansPrefix(SessionOutcome(env, url, input).trace, SessionOutcome(env, url, input + more).trace);
  }
}
