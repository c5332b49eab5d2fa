/** The remote-helper session of src/cli/git_remote.rs: byte framing, the command loop, and the
state machine that specifies it.

`resolve`, `execute` and writes to stdout are the environment: each answer is an arbitrary fixed
function of the question and of everything that happened before it. */
module GitSession {
  import opened Text
  import opened GitPlan

  // ---------------------------------------------------------------- framing

  datatype LineRead = EndOfInput | Malformed | NotUtf8 | Line(text: string, rest: string)

  /** What `take(8193).read_until` collects. */
  function Taken(input: string): (bytes: string)
    ensures bytes <= input && |bytes| <= 8193
    ensures bytes == "" <==> input == ""
    ensures bytes != "" ==> '\n' !in bytes[..|bytes| - 1]
    ensures '\n' !in bytes ==> bytes == input || |bytes| == 8193
  {
    var window := if |input| > 8193 then input[..8193] else input;
    var i := IndexOf(window, '\n');
    if i < |window| then
      assert window[..i + 1][..i] == window[..i];
      window[..i + 1]
    else window
  }

  /** `line`. */
  function ReadLine(input: string): LineRead {
    var bytes := Taken(input);
    if bytes == "" then EndOfInput
    else if |bytes| > 8192 || bytes[|bytes| - 1] != '\n' || '\0' in bytes || '\r' in bytes then Malformed
    else
      var text := bytes[..|bytes| - 1];
      if ValidUtf8(text) then Line(text, input[|bytes|..]) else NotUtf8
  }

  /** Exactly the texts that `line` can return. */
  predicate Framable(text: string) {
    |text| <= 8191 && NoControl(text) && ValidUtf8(text)
  }

  lemma TakenLine(text: string, rest: string)
    requires |text| <= 8191 && NoControl(text)
    ensures Taken(text + "\n" + rest) == text + "\n"
  {
    var input := text + "\n" + rest;
    assert input[|text|] == '\n' && input[..|text|] == text;
    assert Taken(input) == input[..|Taken(input)|];
    assert input[..|text| + 1] == text + "\n";
  }

  lemma ReadLineAccepts(text: string, rest: string)
    requires Framable(text)
    ensures ReadLine(text + "\n" + rest) == Line(text, rest)
  {
    TakenLine(text, rest);
    assert (text + "\n")[..|text|] == text;
    assert (text + "\n" + rest)[|text| + 1..] == rest;
  }

  lemma ReadLineParts(input: string)
    requires ReadLine(input).Line?
    ensures input == ReadLine(input).text + "\n" + ReadLine(input).rest
    ensures Framable(ReadLine(input).text)
    ensures |ReadLine(input).rest| < |input|
  {
    ReadLineTakes(input);
    LineParts(input, Taken(input));
  }

  /** What a line that was read has passed. */
  lemma ReadLineTakes(input: string)
    requires ReadLine(input).Line?
    ensures var bytes := Taken(input);
            && bytes != "" && |bytes| <= 8192 && bytes[|bytes| - 1] == '\n' && '\0' !in bytes && '\r' !in bytes
            && ReadLine(input) == Line(bytes[..|bytes| - 1], input[|bytes|..])
            && ValidUtf8(bytes[..|bytes| - 1])
  {
  }

  lemma LineParts(input: string, bytes: string)
    requires bytes <= input && bytes != "" && bytes[|bytes| - 1] == '\n' && '\n' !in bytes[..|bytes| - 1]
    requires '\0' !in bytes && '\r' !in bytes
    ensures input == bytes[..|bytes| - 1] + "\n" + input[|bytes|..]
    ensures NoControl(bytes[..|bytes| - 1])
  {
    Unsnoc(bytes);
    LineText(bytes, bytes[..|bytes| - 1]);
    Rejoin(input, |bytes|);
  }

  lemma LineText(bytes: string, text: string)
    requires bytes == text + "\n" && '\n' !in text && '\0' !in bytes && '\r' !in bytes
    ensures NoControl(text)
  {
    assert forall c :: c in text ==> c in bytes;
  }

  /** More input never changes a line that was already complete. */
  lemma ReadLineStable(input: string, more: string)
    requires ReadLine(input).Line?
    ensures ReadLine(input + more) == Line(ReadLine(input).text, ReadLine(input).rest + more)
  {
    ReadLineParts(input);
    var text, rest := ReadLine(input).text, ReadLine(input).rest;
    Associate(text + "\n", rest, more);
    ReadLineAccepts(text, rest + more);
  }

  // ---------------------------------------------------------------- events and state

  datatype Event =
    | Wrote(text: string)
    | Asked(source: string)
    | Executed(plan: RemotePlan)

  datatype Environment = Environment(
    write: (seq<Event>, string) -> bool,
    resolve: (seq<Event>, string) -> Option<string>,
    execute: (seq<Event>, RemotePlan) -> bool)

  datatype Error =
    | MalformedInput | WriteFailed | MalformedOption | MalformedLease | BadLease
    | UnsupportedOption | UnsupportedCommand | IncompleteBatch | BadBatch | MalformedPush
    | ForceWithLease | NotABranch | ResolveFailed | BadObjectId | InvalidPlan | ExecuteFailed
    | IncompleteLease

  datatype Status =
    | Reading
    | Batch(phase: string, commands: seq<string>)
    | Finished
    | Failed(error: Error)

  datatype State = State(
    options: map<string, string>,
    leases: map<string, string>,
    leaseBytes: nat,
    status: Status,
    trace: seq<Event>)
  {
    predicate Live() { status.Reading? || status.Batch? }

    function Fail(error: Error): State { this.(status := Failed(error)) }
  }

  const INITIAL := State(map[], map[], 0, Reading, [])

  const CAPABILITIES := "fetch\npush\noption\n\n"

  // ---------------------------------------------------------------- the machine, line by line

  function Write(env: Environment, s: State, text: string): State {
    var t := s.(trace := s.trace + [Wrote(text)]);
    if env.write(s.trace, text) then t else t.Fail(WriteFailed)
  }

  function FeedLease(env: Environment, s: State, value: string): (t: State)
    ensures s.trace <= t.trace
    ensures s.status.Reading? ==> t.status.Reading? || t.status.Failed?
  {
    match SplitOnce(value, ':')
    case None => s.Fail(MalformedLease)
    case Some((reference, oid)) =>
      var bytes := s.leaseBytes + |value|;
      if !ValidBranch(reference) || !ValidOid(oid) || |s.leases| >= MAX_ENTRIES
         || bytes > MAX_BYTES || reference in s.leases
      then s.(leaseBytes := bytes).Fail(BadLease)
      else Write(env, s.(leases := s.leases[reference := oid], leaseBytes := bytes), "ok\n")
  }

  function FeedOption(env: Environment, s: State, setting: string): (t: State)
    ensures s.trace <= t.trace
    ensures s.status.Reading? ==> t.status.Reading? || t.status.Failed?
  {
    match SplitOnce(setting, ' ')
    case None => s.Fail(MalformedOption)
    case Some((key, value)) =>
      if key == "cas" then FeedLease(env, s, value)
      else if !ValidOption(key, value) then s.Fail(UnsupportedOption)
      else Write(env, s.(options := s.options[key := value]), "ok\n")
  }

  datatype Resolution =
    | Resolved(command: string, trace: seq<Event>)
    | Refused(error: Error, trace: seq<Event>)

  /** One push command with its source replaced by the object it names. */
  function ResolveOne(env: Environment, leases: map<string, string>, trace: seq<Event>,
                      command: string): (r: Resolution)
    ensures r.trace == trace || (exists source :: r.trace == trace + [Asked(source)])
    ensures r.Resolved? ==> r.trace != trace
  {
    match ParsePush(command)
    case None => Refused(MalformedPush, trace)
    case Some(push) =>
      if push.force && push.reference in leases then Refused(ForceWithLease, trace)
      else if !(push.source == "HEAD" || ValidOid(push.source) || ValidBranch(push.source))
              || !ValidBranch(push.reference)
      then Refused(NotABranch, trace)
      else
        var answer := env.resolve(trace, push.source);
        var after := trace + [Asked(push.source)];
        if answer.None? then Refused(ResolveFailed, after)
        else if !ValidOid(answer.value) then Refused(BadObjectId, after)
        else Resolved(PushLine(push.(source := answer.value)), after)
  }

  type Resolver = (seq<Event>, string) -> Resolution

  /** A resolver asks at most one question per command and has an answer when it succeeds. */
  ghost predicate Inquires(step: Resolver) {
    forall t: seq<Event>, c: string ::
      var after := step(t, c).trace;
      && (after == t || (|after| == |t| + 1 && t <= after && after[|t|].Asked?))
      && (step(t, c).Resolved? ==> after != t)
  }

  function PushResolver(env: Environment, leases: map<string, string>): (step: Resolver)
    ensures Inquires(step)
  {
    (trace, command) => ResolveOne(env, leases, trace, command)
  }

  datatype Rewriting =
    | Rewritten(commands: seq<string>, trace: seq<Event>)
    | Stopped(error: Error, trace: seq<Event>)

  function ResolveAll(step: Resolver, trace: seq<Event>, commands: seq<string>): Rewriting {
    if commands == [] then Rewritten([], trace)
    else
      var before := ResolveAll(step, trace, commands[..|commands| - 1]);
      if before.Stopped? then before
      else
        match step(before.trace, commands[|commands| - 1])
        case Refused(error, last) => Stopped(error, last)
        case Resolved(command, last) => Rewritten(before.commands + [command], last)
  }

  lemma {:induction false} ResolveAllGrows(step: Resolver, trace: seq<Event>, commands: seq<string>)
    requires Inquires(step)
    ensures var after := ResolveAll(step, trace, commands).trace;
            trace <= after && forall i :: |trace| <= i < |after| ==> after[i].Asked?
  {
    if commands != [] {
      ResolveAllGrows(step, trace, commands[..|commands| - 1]);
    }
  }

  /** Freeze, validate and execute one plan; the leases are spent. */
  function Submit(env: Environment, url: string, s: State, phase: string,
                  commands: seq<string>): (t: State)
    ensures t.status.Reading? || t.status.Failed?
    ensures s.trace <= t.trace
    ensures var plan := RemotePlan(url, phase, s.options, s.leases, commands);
            && (t.Live() ==> t == State(s.options, map[], 0, Reading, s.trace + [Executed(plan)]))
            && (t.trace != s.trace ==> t.trace == s.trace + [Executed(plan)] && Valid(plan))
  {
    var plan := RemotePlan(url, phase, s.options, s.leases, commands);
    var spent := s.(leases := map[]);
    if !Valid(plan) then spent.Fail(InvalidPlan)
    else
      var after := spent.(trace := s.trace + [Executed(plan)]);
      if env.execute(s.trace, plan) then after.(leaseBytes := 0, status := Reading)
      else after.Fail(ExecuteFailed)
  }

  function CloseBatch(env: Environment, url: string, s: State, phase: string,
                      commands: seq<string>): (t: State)
    ensures t.status.Reading? || t.status.Failed?
    ensures s.trace <= t.trace
  {
    if phase == "push" then
      ResolveAllGrows(PushResolver(env, s.leases), s.trace, commands);
      match ResolveAll(PushResolver(env, s.leases), s.trace, commands)
      case Stopped(error, after) => s.(trace := after).Fail(error)
      case Rewritten(done, after) => Submit(env, url, s.(trace := after), phase, done)
    else Submit(env, url, s, phase, commands)
  }

  /** End of the outer loop: an empty line or end of input between requests. */
  function Finish(s: State): State {
    if s.leases == map[] then s.(status := Finished) else s.Fail(IncompleteLease)
  }

  function FeedCommand(env: Environment, url: string, s: State, line: string): (t: State)
    ensures s.trace <= t.trace
    ensures s.status.Reading? && t.status.Finished? ==> t.leases == map[]
  {
    if line == "" then Finish(s)
    else if line == "capabilities" then Write(env, s, CAPABILITIES)
    else if "option " <= line then FeedOption(env, s, line[7..])
    else if line == "list" || line == "list for-push" then Submit(env, url, s, line, [line])
    else if "fetch " <= line then s.(status := Batch("fetch", [line]))
    else if "push " <= line then s.(status := Batch("push", [line]))
    else s.Fail(UnsupportedCommand)
  }

  function Extend(s: State, line: string): (t: State)
    requires s.status.Batch?
    ensures t.trace == s.trace
  {
    var Batch(phase, commands) := s.status;
    if !(phase + " " <= line) || |commands| >= MAX_ENTRIES
       || TotalLength(commands) + |line| > MAX_BYTES
    then s.Fail(BadBatch)
    else s.(status := Batch(phase, commands + [line]))
  }

  function Feed(env: Environment, url: string, s: State, line: string): (t: State)
    ensures s.trace <= t.trace
    ensures !s.Live() ==> t == s
    ensures s.Live() && t.status.Finished? ==> t.leases == map[]
  {
    match s.status
    case Reading => FeedCommand(env, url, s, line)
    case Batch(phase, commands) =>
      if line == "" then CloseBatch(env, url, s, phase, commands) else Extend(s, line)
    case Finished => s
    case Failed(_) => s
  }

  function EndInput(s: State): State {
    match s.status
    case Reading => Finish(s)
    case Batch(_, _) => s.Fail(IncompleteBatch)
    case Finished => s
    case Failed(_) => s
  }

  type Machine = (State, string) -> State

  function Feeder(env: Environment, url: string): Machine {
    (s, line) => Feed(env, url, s, line)
  }

  /** The whole session on the bytes that are left, reading no further than it needs. */
  function Drive(feed: Machine, s: State, input: string): State
    decreases |input|
  {
    if !s.Live() then s
    else
      match ReadLine(input)
      case EndOfInput => EndInput(s)
      case Malformed => s.Fail(MalformedInput)
      case NotUtf8 => s.Fail(MalformedInput)
      case Line(text, rest) =>
        ReadLineParts(input);
        Drive(feed, feed(s, text), rest)
  }

  function SessionOutcome(env: Environment, url: string, input: string): State {
    Drive(Feeder(env, url), INITIAL, input)
  }

  // ---------------------------------------------------------------- the source's loops

  /** The loop that rewrites every push command in place. */
  method RewritePushes(step: Resolver, trace: seq<Event>, batch: seq<string>) returns (r: Rewriting)
    ensures r == ResolveAll(step, trace, batch)
  {
    var commands := batch;
    var after := trace;
    for i := 0 to |commands|
      invariant |commands| == |batch|
      invariant forall j :: i <= j < |batch| ==> commands[j] == batch[j]
      invariant ResolveAll(step, trace, batch[..i]) == Rewritten(commands[..i], after)
    {
      assert batch[..i + 1][..i] == batch[..i];
      var resolution := step(after, commands[i]);
      after := resolution.trace;
      if resolution.Refused? {
        ResolveAllStops(step, trace, batch, i + 1);
        return Stopped(resolution.error, after);
      }
      ghost var done := commands[..i];
      commands := commands[i := resolution.command];
      assert commands[..i + 1] == done + [resolution.command];
    }
    assert batch[..|batch|] == batch && commands[..|batch|] == commands;
    r := Rewritten(commands, after);
  }

  lemma {:induction false} ResolveAllStops(step: Resolver, trace: seq<Event>, commands: seq<string>,
                                           n: nat)
    requires n <= |commands| && ResolveAll(step, trace, commands[..n]).Stopped?
    ensures ResolveAll(step, trace, commands) == ResolveAll(step, trace, commands[..n])
    decreases |commands|
  {
    if n == |commands| {
      assert commands[..n] == commands;
    } else {
      assert commands[..|commands| - 1][..n] == commands[..n];
      ResolveAllStops(step, trace, commands[..|commands| - 1], n);
    }
  }

  ghost predicate CollectsBatches(feed: Machine) {
    forall s: State, line: string :: s.status.Batch? && line != "" ==> feed(s, line) == Extend(s, line)
  }

  /** The inner loop that reads the rest of a fetch or push batch: the batch is complete when the
      returned status is still `Batch`. */
  method ReadBatch(ghost feed: Machine, s: State, input: string) returns (s': State, rest: string)
    requires s.status.Batch? && CollectsBatches(feed)
    ensures |rest| <= |input|
    ensures s'.status.Batch? ==>
              && s'.status.phase == s.status.phase
              && Drive(feed, s, input) == Drive(feed, feed(s', ""), rest)
    ensures !s'.status.Batch? ==> s'.status.Failed? && Drive(feed, s, input) == s'
  {
    var phase, commands := s.status.phase, s.status.commands;
    var size := TotalLength(commands);
    rest := input;
    s' := s;
    while true
      invariant |rest| <= |input| && size == TotalLength(commands)
      invariant s' == s.(status := Batch(phase, commands))
      invariant Drive(feed, s, input) == Drive(feed, s', rest)
      decreases |rest|
    {
      var next := ReadLine(rest);
      if next.EndOfInput? {
        return s'.Fail(IncompleteBatch), rest;
      }
      if !next.Line? {
        return s'.Fail(MalformedInput), rest;
      }
      ReadLineParts(rest);
      rest := next.rest;
      if next.text == "" {
        return;
      }
      size := size + |next.text|;
      if !(phase + " " <= next.text) || |commands| >= MAX_ENTRIES || size > MAX_BYTES {
        return s'.Fail(BadBatch), rest;
      }
      assert (commands + [next.text])[..|commands|] == commands;
      commands := commands + [next.text];
      s' := s'.(status := Batch(phase, commands));
    }
  }

  /** From the complete batch to the end of its execution. */
  method FreezeAndExecute(env: Environment, url: string, s: State, phase: string, batch: seq<string>)
    returns (s': State)
    ensures s' == CloseBatch(env, url, s, phase, batch)
  {
    s' := s;
    var commands := batch;
    if phase == "push" {
      var rewriting := RewritePushes(PushResolver(env, s.leases), s.trace, batch);
      s' := s'.(trace := rewriting.trace);
      if rewriting.Stopped? {
        return s'.Fail(rewriting.error);
      }
      commands := rewriting.commands;
    }
    var plan := RemotePlan(url, phase, s'.options, s'.leases, commands);
    s' := s'.(leases := map[]);
    var valid := Validate(plan);
    if !valid {
      return s'.Fail(InvalidPlan);
    }
    var ok := env.execute(s'.trace, plan);
    s' := s'.(trace := s'.trace + [Executed(plan)]);
    if !ok {
      return s'.Fail(ExecuteFailed);
    }
    s' := s'.(leaseBytes := 0, status := Reading);
  }

  lemma FeedRequest(env: Environment, url: string, s: State, value: string)
    requires s.status.Reading?
    requires value != "" && value != "capabilities" && !("option " <= value)
    ensures Feed(env, url, s, value)
            == (if value == "list" || value == "list for-push"
                then CloseBatch(env, url, s, value, [value])
                else if "fetch " <= value then s.(status := Batch("fetch", [value]))
                else if "push " <= value then s.(status := Batch("push", [value]))
                else s.Fail(UnsupportedCommand))
  {
  }

  /** The branch of `session` for a line that starts a request. */
  method ServeRequest(env: Environment, url: string, s: State, value: string, input: string)
    returns (s': State, rest: string)
    requires s.status.Reading?
    requires value != "" && value != "capabilities" && !("option " <= value)
    ensures |rest| <= |input| && !s'.status.Batch?
    ensures Drive(Feeder(env, url), Feed(env, url, s, value), input) == Drive(Feeder(env, url), s', rest)
  {
    rest := input;
    FeedRequest(env, url, s, value);
    if value == "list" || value == "list for-push" {
      s' := FreezeAndExecute(env, url, s, value, [value]);
      return;
    }
    var phase;
    if "fetch " <= value {
      phase := "fetch";
    } else if "push " <= value {
      phase := "push";
    } else {
      return s.Fail(UnsupportedCommand), rest;
    }
    s' := s.(status := Batch(phase, [value]));
    s', rest := ReadBatch(Feeder(env, url), s', input);
    if s'.status.Batch? {
      s' := FreezeAndExecute(env, url, s', phase, s'.status.commands);
    }
  }

  /** `session`: the loop over lines, with its locals `options`, `leases` and `lease_bytes` in `s`. */
  method RunSession(env: Environment, url: string, input: string) returns (s: State)
    ensures s == SessionOutcome(env, url, input)
    ensures !s.Live()
  {
    s := INITIAL;
    var rest := input;
    while s.status.Reading?
      invariant Drive(Feeder(env, url), INITIAL, input) == Drive(Feeder(env, url), s, rest)
      invariant !s.status.Batch?
      decreases |rest|, s.status.Reading?
    {
      match ReadLine(rest)
      case EndOfInput =>
        s := Finish(s);
      case Malformed =>
        s := s.Fail(MalformedInput);
      case NotUtf8 =>
        s := s.Fail(MalformedInput);
      case Line(value, after) =>
        ReadLineParts(rest);
        s, rest := ServeLine(env, url, s, value, after);
    }
  }

  /** The body of that loop. */
  method ServeLine(env: Environment, url: string, s: State, value: string, input: string)
    returns (s': State, rest: string)
    requires s.status.Reading?
    ensures !s'.status.Batch? && |rest| <= |input|
    ensures Drive(Feeder(env, url), Feed(env, url, s, value), input) == Drive(Feeder(env, url), s', rest)
  {
    rest := input;
    if value == "" {
      s' := Finish(s);
    } else if value == "capabilities" {
      s' := Write(env, s, CAPABILITIES);
    } else if "option " <= value {
      s' := FeedOption(env, s, value[7..]);
    } else {
      s', rest := ServeRequest(env, url, s, value, input);
    }
  }
}
