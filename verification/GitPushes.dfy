/** Push batches as they are typed: which lines a session takes, what it asks the resolver about them, and
what it then executes. */
module GitPushes {
  import opened Text
  import opened GitPlan
  import opened GitSession
  import opened GitRuns
  import opened GitRoundTrip

  /** Writes and executions succeed, and every source that is asked about resolves to an object ID. */
  ghost predicate Obliging(env: Environment) {
    && Writes(env)
    && (forall t, source :: env.resolve(t, source).Some? && ValidOid(env.resolve(t, source).value))
    && (forall t, plan :: env.execute(t, plan))
  }

  /** A push that a session takes: HEAD, an object or a branch, to a branch, not forced over a lease. */
  predicate GoodPush(push: Push, leases: map<string, string>) {
    && (push.source == "HEAD" || ValidOid(push.source) || ValidBranch(push.source))
    && ValidBranch(push.reference)
    && !(push.force && push.reference in leases)
  }

  /** The line is the text of such a push. */
  ghost predicate Taken(line: string, leases: map<string, string>) {
    exists push :: GoodPush(push, leases) && line == PushLine(push)
  }

  function Lines(pushes: seq<Push>): (lines: seq<string>)
    ensures |lines| == |pushes|
  {
    seq(|pushes|, k requires 0 <= k < |pushes| => PushLine(pushes[k]))
  }

  // ---------------------------------------------------------------- one line

  lemma SourceIsWord(source: string)
    requires source == "HEAD" || ValidOid(source) || ValidBranch(source)
    ensures PlainWord(source) && ':' !in source && !("+" <= source)
  {
    if ValidOid(source) {
      OidIsWord(source);
    } else if ValidBranch(source) {
      BranchIsWord(source);
    } else {
      assert PlainWord("HEAD");
    }
    WordExcludes(source);
    assert "+"[0] == '+';
  }

  /** The answer of the resolver to one good push. */
  function Answered(env: Environment, trace: seq<Event>, push: Push): string
    requires env.resolve(trace, push.source).Some?
  {
    PushLine(push.(source := env.resolve(trace, push.source).value))
  }

  lemma GoodResolved(env: Environment, leases: map<string, string>, trace: seq<Event>, push: Push)
    requires Obliging(env) && GoodPush(push, leases)
    ensures PushResolver(env, leases)(trace, PushLine(push))
            == Resolved(Answered(env, trace, push), trace + [Asked(push.source)])
  {
    SourceIsWord(push.source);
    ParsePushLine(push);
  }

  lemma OtherRefused(env: Environment, leases: map<string, string>, trace: seq<Event>, line: string)
    requires !Taken(line, leases)
    ensures var r := PushResolver(env, leases)(trace, line); r.Refused? && r.trace == trace
  {
    if ParsePush(line).Some? {
      PushLineShape(line);
      assert !GoodPush(ParsePush(line).value, leases);
    }
  }

  // ---------------------------------------------------------------- the whole batch

  function Questions(pushes: seq<Push>): (asked: seq<Event>)
    ensures |asked| == |pushes|
  {
    seq(|pushes|, k requires 0 <= k < |pushes| => Asked(pushes[k].source))
  }

  /** The commands with every source replaced by the answer to its own question, asked after the questions
      before it. */
  ghost predicate Replaced(env: Environment, trace: seq<Event>, pushes: seq<Push>, commands: seq<string>) {
    && |commands| == |pushes|
    && forall k :: 0 <= k < |pushes| ==> ReplacedAt(env, trace + Questions(pushes)[..k], pushes[k], commands[k])
  }

  ghost predicate ReplacedAt(env: Environment, before: seq<Event>, push: Push, command: string) {
    var answer := env.resolve(before, push.source);
    answer.Some? && command == PushLine(Push(push.force, answer.value, push.reference))
  }

  /** A resolver that answers all of `pushes`, whenever it is asked. */
  ghost predicate Answers(step: Resolver, env: Environment, pushes: seq<Push>) {
    forall k, t: seq<Event> :: 0 <= k < |pushes| ==>
      && env.resolve(t, pushes[k].source).Some?
      && step(t, PushLine(pushes[k])) == Resolved(Answered(env, t, pushes[k]), t + [Asked(pushes[k].source)])
  }

  lemma GoodAnswers(env: Environment, leases: map<string, string>, pushes: seq<Push>)
    requires Obliging(env) && forall k :: 0 <= k < |pushes| ==> GoodPush(pushes[k], leases)
    ensures Answers(PushResolver(env, leases), env, pushes)
  {
    forall k, t: seq<Event> | 0 <= k < |pushes|
      ensures PushResolver(env, leases)(t, PushLine(pushes[k]))
              == Resolved(Answered(env, t, pushes[k]), t + [Asked(pushes[k].source)])
    {
      GoodResolved(env, leases, t, pushes[k]);
    }
  }

  lemma QuestionsSnoc(pushes: seq<Push>, k: nat)
    requires k < |pushes|
    ensures Questions(pushes[..k + 1]) == Questions(pushes[..k]) + [Asked(pushes[k].source)]
    ensures Lines(pushes[..k + 1]) == Lines(pushes[..k]) + [PushLine(pushes[k])]
    ensures forall j :: 0 <= j <= k ==> Questions(pushes[..k + 1])[..j] == Questions(pushes[..k])[..j]
    ensures Questions(pushes[..k]) == Questions(pushes)[..k] && Lines(pushes[..k]) == Lines(pushes)[..k]
  {
  }

  /** The first `k` questions in order, and the first `k` commands replaced. */
  ghost predicate ResolvedTo(step: Resolver, env: Environment, trace: seq<Event>, pushes: seq<Push>, k: nat)
    requires k <= |pushes|
  {
    var r := ResolveAll(step, trace, Lines(pushes[..k]));
    && r.Rewritten? && r.trace == trace + Questions(pushes[..k])
    && Replaced(env, trace, pushes[..k], r.commands)
  }

  lemma {:induction false} AllResolved(step: Resolver, env: Environment, trace: seq<Event>, pushes: seq<Push>, k: nat)
    requires Answers(step, env, pushes) && k <= |pushes|
    ensures ResolvedTo(step, env, trace, pushes, k)
  {
    if k == 0 {
      assert pushes[..0] == [] && trace + [] == trace;
    } else {
      AllResolved(step, env, trace, pushes, k - 1);
      NextResolved(step, env, trace, pushes, k - 1);
    }
  }

  lemma NextResolved(step: Resolver, env: Environment, trace: seq<Event>, pushes: seq<Push>, k: nat)
    requires Answers(step, env, pushes) && k < |pushes| && ResolvedTo(step, env, trace, pushes, k)
    ensures ResolvedTo(step, env, trace, pushes, k + 1)
  {
    QuestionsSnoc(pushes, k);
    var before := ResolveAll(step, trace, Lines(pushes[..k]));
    ResolveNext(step, trace, Lines(pushes[..k]), PushLine(pushes[k]));
    Associate(trace, Questions(pushes[..k]), [Asked(pushes[k].source)]);
    var r := ResolveAll(step, trace, Lines(pushes[..k + 1]));
    ReplacedSnoc(env, trace, pushes, k, before.commands, Answered(env, before.trace, pushes[k]));
  }

  lemma ResolveNext(step: Resolver, trace: seq<Event>, lines: seq<string>, line: string)
    requires ResolveAll(step, trace, lines).Rewritten?
    ensures var before := ResolveAll(step, trace, lines);
            ResolveAll(step, trace, lines + [line])
            == (match step(before.trace, line)
                case Refused(error, last) => Stopped(error, last)
                case Resolved(command, last) => Rewritten(before.commands + [command], last))
  {
    assert (lines + [line])[..|lines|] == lines;
  }

  lemma ReplacedSnoc(env: Environment, trace: seq<Event>, pushes: seq<Push>, k: nat, commands: seq<string>,
                     command: string)
    requires k < |pushes| && Replaced(env, trace, pushes[..k], commands)
    requires ReplacedAt(env, trace + Questions(pushes[..k]), pushes[k], command)
    ensures Replaced(env, trace, pushes[..k + 1], commands + [command])
  {
    QuestionsSnoc(pushes, k);
    forall j | 0 <= j < k + 1
      ensures ReplacedAt(env, trace + Questions(pushes[..k + 1])[..j], pushes[..k + 1][j], (commands + [command])[j])
    {
      if j < k {
        assert ReplacedAt(env, trace + Questions(pushes[..k])[..j], pushes[..k][j], commands[j]);
      } else {
        assert Questions(pushes[..k + 1])[..k] == Questions(pushes[..k]);
      }
    }
  }

  // ---------------------------------------------------------------- framing

  lemma PushFramable(push: Push, leases: map<string, string>)
    requires GoodPush(push, leases) && |PushLine(push)| <= 8191
    ensures Framable(PushLine(push)) && "push " <= PushLine(push)
  {
    SourceIsWord(push.source);
    WordExcludes(push.source);
    BranchIsWord(push.reference);
    WordExcludes(push.reference);
    PrintableConcat(Mark(push.force), push.source);
    PrintableConcat(Mark(push.force) + push.source, ":");
    PrintableConcat(Mark(push.force) + push.source + ":", push.reference);
    PrintableConcat("push ", Mark(push.force) + push.source + ":" + push.reference);
    StripPrefixConcat("push ", Mark(push.force) + push.source + ":" + push.reference);
    PrintableFramable(PushLine(push));
  }

  lemma PrintableFramable(line: string)
    requires Printable(line) && |line| <= 8191
    ensures Framable(line)
  {
    AsciiIsUtf8(line);
  }

  /** Lines that a session can read and collect into one push batch. */
  ghost predicate Pushable(lines: seq<string>) {
    && lines != [] && |lines| <= MAX_ENTRIES && TotalLength(lines) <= MAX_BYTES
    && forall k :: 0 <= k < |lines| ==> Framable(lines[k]) && "push " <= lines[k]
  }

  /** The lines that set the leases and options of a plan. */
  function SettingLines(settings: RemotePlan): seq<string> {
    LeaseLines(settings.leases) + OptionLines(settings.options)
  }

  /** The settings and a push batch, as text. */
  function Typed(settings: RemotePlan, lines: seq<string>): string {
    Terminated(SettingLines(settings) + lines) + "\n\n"
  }

  /** The settings of `settings` are ones that a session takes. */
  predicate Settable(settings: RemotePlan) {
    OptionsOk(settings) && LeasesOk(settings)
  }

  lemma SettingsFramable(settings: RemotePlan, line: string)
    requires Settable(settings) && line in SettingLines(settings)
    ensures Framable(line)
  {
    InConcat(LeaseLines(settings.leases), OptionLines(settings.options), line);
    if line in LeaseLines(settings.leases) {
      LeaseLinesPlain(settings, line);
    } else {
      OptionLinesPlain(settings, line);
    }
    PlainLineIsWireLine(line);
    AsciiIsUtf8(line);
  }

  /** A session reads the settings and the batch, and closes it; then it ends, if it still can. */
  lemma TypedRuns(env: Environment, url: string, settings: RemotePlan, lines: seq<string>) returns (s: State)
    requires Writes(env) && Settable(settings) && Pushable(lines)
    ensures Ready(s, settings)
    ensures SessionOutcome(env, url, Typed(settings, lines))
            == Drive(Feeder(env, url),
                     Feeder(env, url)(CloseBatch(env, url, s.(status := Batch("push", lines)), "push", lines), ""), "")
  {
    s := LinesRead(env, url, settings, lines);
    TypedFrames(env, url, settings, lines);
    ClosingBlanks(env, url, s.(status := Batch("push", lines)), lines);
  }

  lemma LinesRead(env: Environment, url: string, settings: RemotePlan, lines: seq<string>) returns (s: State)
    requires Writes(env) && Settable(settings) && Pushable(lines)
    ensures Ready(s, settings)
    ensures RunFrom(Feeder(env, url), INITIAL, SettingLines(settings) + lines)
            == s.(status := Batch("push", lines))
  {
    var prefix := SettingLines(settings);
    s := RunFrom(Feeder(env, url), INITIAL, prefix);
    SettingsRead(env, url, settings);
    RunFromConcat(Feeder(env, url), INITIAL, prefix, lines);
    PushCollectable(lines);
    BatchRead(env, url, s, "push", lines);
  }

  lemma PushCollectable(lines: seq<string>)
    requires Pushable(lines)
    ensures Collectable("push", lines)
  {
    assert "push" + " " == "push ";
  }

  lemma TypedFrames(env: Environment, url: string, settings: RemotePlan, lines: seq<string>)
    requires Settable(settings) && Pushable(lines)
    ensures SessionOutcome(env, url, Typed(settings, lines))
            == Drive(Feeder(env, url),
                     RunFrom(Feeder(env, url), INITIAL, SettingLines(settings) + lines), "\n\n")
  {
    var all := SettingLines(settings) + lines;
    FeederOrderly(env, url);
    forall line | line in all
      ensures Framable(line)
    {
      TypedFramable(settings, lines, line);
    }
    DriveTerminated(Feeder(env, url), INITIAL, all, "\n\n");
  }

  lemma ClosingBlanks(env: Environment, url: string, t: State, lines: seq<string>)
    requires t.status == Batch("push", lines)
    ensures Drive(Feeder(env, url), t, "\n\n")
            == Drive(Feeder(env, url), Feeder(env, url)(CloseBatch(env, url, t, "push", lines), ""), "")
  {
    FeederOrderly(env, url);
    BlanksRun(Feeder(env, url), t);
    RunTwoBlanks(Feeder(env, url), t);
    CloseByBlank(env, url, t);
  }

  lemma TypedFramable(settings: RemotePlan, lines: seq<string>,
                      line: string)
    requires Settable(settings) && Pushable(lines) && line in SettingLines(settings) + lines
    ensures Framable(line)
  {
    var prefix := SettingLines(settings);
    if line in prefix {
      SettingsFramable(settings, line);
    } else {
      var k :| 0 <= k < |prefix + lines| && (prefix + lines)[k] == line;
      assert k >= |prefix| && lines[k - |prefix|] == line;
    }
  }

  // ---------------------------------------------------------------- what a session does with pushes

  lemma LinesPushable(pushes: seq<Push>, leases: map<string, string>)
    requires pushes != [] && |pushes| <= MAX_ENTRIES && TotalLength(Lines(pushes)) <= MAX_BYTES
    requires forall k :: 0 <= k < |pushes| ==> GoodPush(pushes[k], leases) && |PushLine(pushes[k])| <= 8191
    ensures Pushable(Lines(pushes))
  {
    forall k | 0 <= k < |pushes|
      ensures Framable(Lines(pushes)[k]) && "push " <= Lines(pushes)[k]
    {
      PushFramable(pushes[k], leases);
    }
  }

  /** An ordinary push. The resolver is asked about every source in order, the plan has every source replaced
      by its answer, and it is executed, once and last, exactly if it is valid. */
  lemma PushServed(env: Environment, url: string, settings: RemotePlan, pushes: seq<Push>)
    returns (acked: seq<Event>, plan: RemotePlan)
    requires Obliging(env) && Settable(settings)
    requires pushes != [] && |pushes| <= MAX_ENTRIES && TotalLength(Lines(pushes)) <= MAX_BYTES
    requires forall k :: 0 <= k < |pushes| ==> GoodPush(pushes[k], settings.leases) && |PushLine(pushes[k])| <= 8191
    ensures Acked(acked, Settings(settings))
    ensures plan == RemotePlan(url, "push", settings.options, settings.leases, plan.commands)
    ensures Replaced(env, acked, pushes, plan.commands)
    ensures var s := SessionOutcome(env, url, Typed(settings, Lines(pushes)));
            && s.trace == acked + Questions(pushes) + (if Valid(plan) then [Executed(plan)] else [])
            && (if Valid(plan) then s.status.Finished? && Plans(s.trace) == [plan]
                else s.status == Failed(InvalidPlan) && Plans(s.trace) == [])
  {
    LinesPushable(pushes, settings.leases);
    var s := TypedRuns(env, url, settings, Lines(pushes));
    acked := s.trace;
    plan := PushClosed(env, url, s.(status := Batch("push", Lines(pushes))), pushes);
    PushEnds(env, url, CloseBatch(env, url, s.(status := Batch("push", Lines(pushes))), "push", Lines(pushes)));
    QuestionsQuiet(acked, pushes, Settings(settings));
    ExecutedOnce(acked + Questions(pushes), plan, Valid(plan));
  }

  lemma ExecutedOnce(trace: seq<Event>, plan: RemotePlan, valid: bool)
    requires Plans(trace) == []
    ensures Plans(trace + [Executed(plan)]) == [plan]
    ensures !valid ==> trace + (if valid then [Executed(plan)] else []) == trace
  {
    PlansSnoc(trace, Executed(plan));
  }

  lemma PushClosed(env: Environment, url: string, s: State, pushes: seq<Push>) returns (plan: RemotePlan)
    requires Obliging(env) && forall k :: 0 <= k < |pushes| ==> GoodPush(pushes[k], s.leases)
    ensures plan == RemotePlan(url, "push", s.options, s.leases, plan.commands)
    ensures Replaced(env, s.trace, pushes, plan.commands)
    ensures var t := CloseBatch(env, url, s, "push", Lines(pushes));
            if Valid(plan) then t == State(s.options, map[], 0, Reading, s.trace + Questions(pushes) + [Executed(plan)])
            else t == s.(leases := map[], trace := s.trace + Questions(pushes), status := Failed(InvalidPlan))
  {
    GoodAnswers(env, s.leases, pushes);
    assert pushes[..|pushes|] == pushes;
    AllResolved(PushResolver(env, s.leases), env, s.trace, pushes, |pushes|);
    var r := ResolveAll(PushResolver(env, s.leases), s.trace, Lines(pushes));
    plan := RemotePlan(url, "push", s.options, s.leases, r.commands);
    PushSubmitted(env, url, s.(trace := r.trace), plan);
  }

  lemma PushSubmitted(env: Environment, url: string, s: State, plan: RemotePlan)
    requires Obliging(env) && plan == RemotePlan(url, "push", s.options, s.leases, plan.commands)
    ensures var t := Submit(env, url, s, "push", plan.commands);
            if Valid(plan) then t == State(s.options, map[], 0, Reading, s.trace + [Executed(plan)])
            else t == s.(leases := map[]).Fail(InvalidPlan)
  {
  }

  /** The blank line that ends the session, after a batch that was closed. */
  lemma PushEnds(env: Environment, url: string, t: State)
    requires t.status.Failed? || (t.status.Reading? && t.leases == map[])
    ensures var end := Drive(Feeder(env, url), Feeder(env, url)(t, ""), "");
            end == if t.status.Failed? then t else t.(status := Finished)
  {
  }

  lemma QuestionsQuiet(acked: seq<Event>, pushes: seq<Push>, count: nat)
    requires Acked(acked, count)
    ensures Plans(acked + Questions(pushes)) == []
  {
    var all := acked + Questions(pushes);
    forall i | 0 <= i < |all|
      ensures !all[i].Executed?
    {
      if i >= |acked| {
        assert all[i] == Questions(pushes)[i - |acked|];
      }
    }
    QuietPlans(all);
  }

  // ---------------------------------------------------------------- when the plan of a push is valid

  /** How long the commands get once every source is an object ID. */
  function CommandBytes(pushes: seq<Push>): nat {
    if pushes == [] then 0
    else
      var last := pushes[|pushes| - 1];
      CommandBytes(pushes[..|pushes| - 1]) + 46 + (if last.force then 1 else 0) + |last.reference|
  }

  /** No answer is the null object. */
  ghost predicate NonNull(env: Environment) {
    forall t, source :: env.resolve(t, source).Some? ==>
      exists i :: 0 <= i < |env.resolve(t, source).value| && env.resolve(t, source).value[i] != '0'
  }

  lemma ReplacedInit(env: Environment, trace: seq<Event>, pushes: seq<Push>, commands: seq<string>)
    requires pushes != [] && Replaced(env, trace, pushes, commands)
    ensures Replaced(env, trace, pushes[..|pushes| - 1], commands[..|commands| - 1])
  {
    var n := |pushes| - 1;
    assert pushes[..n + 1] == pushes;
    QuestionsSnoc(pushes, n);
    forall k | 0 <= k < n
      ensures ReplacedAt(env, trace + Questions(pushes[..n])[..k], pushes[..n][k], commands[..n][k])
    {
      assert ReplacedAt(env, trace + Questions(pushes)[..k], pushes[k], commands[k]);
    }
  }

  lemma {:induction false} CommandSizes(env: Environment, trace: seq<Event>, pushes: seq<Push>, commands: seq<string>)
    requires Obliging(env) && Replaced(env, trace, pushes, commands)
    ensures TotalLength(commands) == CommandBytes(pushes)
  {
    if pushes != [] {
      var n := |pushes| - 1;
      ReplacedInit(env, trace, pushes, commands);
      CommandSizes(env, trace, pushes[..n], commands[..n]);
      assert ReplacedAt(env, trace + Questions(pushes)[..n], pushes[n], commands[n]);
    }
  }

  lemma CommandGood(env: Environment, before: seq<Event>, push: Push, command: string, leases: map<string, string>)
    requires Obliging(env) && NonNull(env) && GoodPush(push, leases) && ReplacedAt(env, before, push, command)
    ensures PushCommandOk(command, leases) && Destination(command) == push.reference
  {
    var answer := env.resolve(before, push.source).value;
    SourceIsWord(answer);
    ParsePushLine(Push(push.force, answer, push.reference));
  }

  lemma CommandsGood(env: Environment, trace: seq<Event>, pushes: seq<Push>, commands: seq<string>,
                     leases: map<string, string>)
    requires Obliging(env) && NonNull(env) && Replaced(env, trace, pushes, commands)
    requires forall k :: 0 <= k < |pushes| ==> GoodPush(pushes[k], leases)
    requires forall i, j :: 0 <= i < j < |pushes| ==> pushes[i].reference != pushes[j].reference
    requires forall reference :: reference in leases ==>
               exists k :: 0 <= k < |pushes| && pushes[k].reference == reference
    ensures PushesOk(commands, leases)
  {
    forall k | 0 <= k < |pushes|
      ensures PushCommandOk(commands[k], leases) && Destination(commands[k]) == pushes[k].reference
    {
      assert ReplacedAt(env, trace + Questions(pushes)[..k], pushes[k], commands[k]);
      CommandGood(env, trace + Questions(pushes)[..k], pushes[k], commands[k], leases);
    }
    forall reference | reference in leases
      ensures exists i :: 0 <= i < |commands| && Destination(commands[i]) == reference
    {
      var k :| 0 <= k < |pushes| && pushes[k].reference == reference;
      assert Destination(commands[k]) == reference;
    }
  }

  lemma WireSize(plan: RemotePlan)
    requires plan.phase == "push"
    ensures TotalLength(Wire(plan)) == 17 + |plan.url| + TotalLength(SettingLines(plan)) + TotalLength(plan.commands)
  {
    var head := ["remote-helper", plan.url, plan.phase];
    var leases, options := LeaseLines(plan.leases), OptionLines(plan.options);
    TotalLengthConcat(head + leases + options + [""], plan.commands);
    TotalLengthConcat(head + leases + options, [""]);
    TotalLengthConcat(head + leases, options);
    TotalLengthConcat(head, leases);
    TotalLengthConcat(leases, options);
    TotalOfThree("remote-helper", plan.url, plan.phase);
    TotalOfOne("");
  }

  /** Different branches, every lease used, and short enough with object IDs in place of the sources. */
  ghost predicate WellTyped(url: string, settings: RemotePlan, pushes: seq<Push>) {
    && ValidUrl(url) && |url| <= 8192
    && (forall i, j :: 0 <= i < j < |pushes| ==> pushes[i].reference != pushes[j].reference)
    && (forall reference :: reference in settings.leases ==>
          exists k :: 0 <= k < |pushes| && pushes[k].reference == reference)
    && CommandBytes(pushes) <= MAX_BYTES
    && 17 + |url| + TotalLength(SettingLines(settings)) + CommandBytes(pushes) <= MAX_BYTES + 16384
  }

  lemma PushPlanValid(env: Environment, url: string, settings: RemotePlan, trace: seq<Event>,
                      pushes: seq<Push>, plan: RemotePlan)
    requires Obliging(env) && NonNull(env) && Settable(settings) && WellTyped(url, settings, pushes)
    requires pushes != [] && |pushes| <= MAX_ENTRIES
    requires forall k :: 0 <= k < |pushes| ==> GoodPush(pushes[k], settings.leases)
    requires plan == RemotePlan(url, "push", settings.options, settings.leases, plan.commands)
    requires Replaced(env, trace, pushes, plan.commands)
    ensures Valid(plan)
  {
    CommandSizes(env, trace, pushes, plan.commands);
    CommandsGood(env, trace, pushes, plan.commands, settings.leases);
    SettingsInPlan(settings, plan);
    PushesMakePlan(plan);
  }

  lemma SettingsInPlan(settings: RemotePlan, plan: RemotePlan)
    requires Settable(settings) && plan.phase == "push"
    requires plan.options == settings.options && plan.leases == settings.leases
    ensures OptionsOk(plan) && LeasesOk(plan) && SettingLines(plan) == SettingLines(settings)
  {
  }

  lemma PushesMakePlan(plan: RemotePlan)
    requires UrlOk(plan) && OptionsOk(plan) && LeasesOk(plan)
    requires plan.phase == "push" && PushesOk(plan.commands, plan.leases)
    requires plan.commands != [] && |plan.commands| <= MAX_ENTRIES && TotalLength(plan.commands) <= MAX_BYTES
    requires 17 + |plan.url| + TotalLength(SettingLines(plan)) + TotalLength(plan.commands) <= MAX_BYTES + 16384
    ensures Valid(plan)
  {
    PushesAreCommands(plan);
    WireSize(plan);
    RedundantGuards(plan);
  }

  lemma PushesAreCommands(plan: RemotePlan)
    requires plan.phase == "push" && PushesOk(plan.commands, plan.leases)
    requires plan.commands != [] && |plan.commands| <= MAX_ENTRIES && TotalLength(plan.commands) <= MAX_BYTES
    ensures CommandsOk(plan)
  {
  }

  /** An ordinary push to different branches succeeds: every source, HEAD or a branch or an object, is asked
      about once and in order, and exactly one plan is executed, which has the answers in their place. */
  lemma OrdinaryPush(env: Environment, url: string, settings: RemotePlan, pushes: seq<Push>)
    returns (acked: seq<Event>, plan: RemotePlan)
    requires Obliging(env) && NonNull(env) && Settable(settings) && WellTyped(url, settings, pushes)
    requires pushes != [] && |pushes| <= MAX_ENTRIES && TotalLength(Lines(pushes)) <= MAX_BYTES
    requires forall k :: 0 <= k < |pushes| ==> GoodPush(pushes[k], settings.leases) && |PushLine(pushes[k])| <= 8191
    ensures Acked(acked, Settings(settings))
    ensures plan == RemotePlan(url, "push", settings.options, settings.leases, plan.commands)
    ensures Replaced(env, acked, pushes, plan.commands)
    ensures var s := SessionOutcome(env, url, Typed(settings, Lines(pushes)));
            s.status.Finished? && s.trace == acked + Questions(pushes) + [Executed(plan)] && Plans(s.trace) == [plan]
  {
    acked, plan := PushServed(env, url, settings, pushes);
    PushPlanValid(env, url, settings, acked, pushes, plan);
  }

  /** Any other line. The sources of the lines before it are asked about, its own is not, the session fails,
      and nothing is executed. */
  lemma PushRefused(env: Environment, url: string, settings: RemotePlan, pushes: seq<Push>, line: string,
                    more: seq<string>)
    returns (acked: seq<Event>)
    requires Obliging(env) && Settable(settings)
    requires Pushable(Lines(pushes) + [line] + more)
    requires forall k :: 0 <= k < |pushes| ==> GoodPush(pushes[k], settings.leases)
    requires !Taken(line, settings.leases)
    ensures Acked(acked, Settings(settings))
    ensures var s := SessionOutcome(env, url, Typed(settings, Lines(pushes) + [line] + more));
            s.status.Failed? && s.trace == acked + Questions(pushes) && Plans(s.trace) == []
  {
    var lines := Lines(pushes) + [line] + more;
    var s := TypedRuns(env, url, settings, lines);
    acked := s.trace;
    PushStopped(env, url, s.(status := Batch("push", lines)), pushes, line, more);
    PushEnds(env, url, CloseBatch(env, url, s.(status := Batch("push", lines)), "push", lines));
    QuestionsQuiet(acked, pushes, Settings(settings));
  }

  lemma PushStopped(env: Environment, url: string, s: State, pushes: seq<Push>, line: string, more: seq<string>)
    requires Obliging(env) && forall k :: 0 <= k < |pushes| ==> GoodPush(pushes[k], s.leases)
    requires !Taken(line, s.leases)
    ensures var t := CloseBatch(env, url, s, "push", Lines(pushes) + [line] + more);
            t.status.Failed? && t.trace == s.trace + Questions(pushes)
  {
    var lines := Lines(pushes) + [line] + more;
    var step := PushResolver(env, s.leases);
    GoodAnswers(env, s.leases, pushes);
    assert pushes[..|pushes|] == pushes;
    AllResolved(step, env, s.trace, pushes, |pushes|);
    ResolveNext(step, s.trace, Lines(pushes), line);
    OtherRefused(env, s.leases, s.trace + Questions(pushes), line);
    assert lines[..|pushes| + 1] == Lines(pushes) + [line];
    ResolveAllStops(step, s.trace, lines, |pushes| + 1);
  }
}
