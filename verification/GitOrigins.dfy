/** Where the content of every executed plan comes from: the run invariant of the session. */
module GitOrigins {
  import opened Text
  import opened GitPlan
  import opened GitSession
  import opened GitRuns

  // ---------------------------------------------------------------- what the lines say

  /** Key and value of an option line. */
  function Setting(line: string): Option<(string, string)> {
    if "option " <= line then SplitOnce(line[7..], ' ') else None
  }

  predicate Sets(line: string, key: string, value: string) {
    key != "cas" && Setting(line) == Some((key, value))
  }

  /** `value` was given to `key` and no later line gave `key` another one. */
  ghost predicate LastSetting(lines: seq<string>, key: string, value: string) {
    exists i :: 0 <= i < |lines| && Sets(lines[i], key, value)
             && forall j, other :: i < j < |lines| ==> !Sets(lines[j], key, other)
  }

  ghost predicate OptionsAre(options: map<string, string>, lines: seq<string>) {
    forall key, value :: (key in options && options[key] == value) <==> LastSetting(lines, key, value)
  }

  predicate Leases(line: string, reference: string, oid: string) {
    Setting(line) == Some(("cas", reference + ":" + oid))
  }

  predicate LeasedIn(lines: seq<string>, reference: string, oid: string) {
    exists i :: 0 <= i < |lines| && Leases(lines[i], reference, oid)
  }

  ghost predicate LeasesAre(leases: map<string, string>, lines: seq<string>) {
    forall reference, oid ::
      (reference in leases && leases[reference] == oid) <==> LeasedIn(lines, reference, oid)
  }

  // ---------------------------------------------------------------- one line

  /** What a line that leaves the session alive did. */
  datatype Effect =
    | Announced
    | OptionSet(key: string, value: string)
    | LeaseTaken(reference: string, oid: string)
    | Collected(phase: string, commands: seq<string>)
    | Submitted

  predicate KnownPhase(s: State) {
    s.status.Batch? ==> s.status.phase == "fetch" || s.status.phase == "push"
  }

  function Pending(s: State): seq<string> {
    if s.status.Batch? then s.status.commands else []
  }

  predicate Performs(s: State, line: string, t: State, effect: Effect) {
    match effect
    case Announced =>
      s.status.Reading? && t == s.(trace := t.trace) && Setting(line).None?
    case OptionSet(key, value) =>
      s.status.Reading? && Sets(line, key, value)
      && t == s.(options := s.options[key := value], trace := t.trace)
    case LeaseTaken(reference, oid) =>
      s.status.Reading? && Leases(line, reference, oid) && ':' !in reference && ':' !in oid
      && reference !in s.leases
      && t == s.(leases := s.leases[reference := oid], leaseBytes := t.leaseBytes, trace := t.trace)
    case Collected(phase, commands) =>
      Setting(line).None? && commands == Pending(s) + [line]
      && t == s.(status := Batch(phase, commands)) && KnownPhase(t)
    case Submitted =>
      Setting(line).None? && t.status.Reading? && t.options == s.options && t.leases == map[]
  }

  /** Only a submission adds an executed plan, and it adds it last. */
  predicate Discreet(s: State, t: State, effect: Effect) {
    if effect.Submitted? then |s.trace| < |t.trace| && t.trace[|t.trace| - 1].Executed?
    else forall i :: |s.trace| <= i < |t.trace| ==> !t.trace[i].Executed?
  }

  lemma LeaseEffect(env: Environment, s: State, line: string, value: string) returns (effect: Effect)
    requires s.status.Reading? && Setting(line) == Some(("cas", value))
    requires FeedLease(env, s, value).Live()
    ensures Performs(s, line, FeedLease(env, s, value), effect)
    ensures Discreet(s, FeedLease(env, s, value), effect)
  {
    var reference, oid := LeaseWritten(env, s, value);
    effect := LeaseTaken(reference, oid);
    WriteEffect(env, s.(leases := s.leases[reference := oid], leaseBytes := s.leaseBytes + |value|), "ok\n");
  }

  /** A lease that is accepted is taken apart in one way, noted and acknowledged. */
  lemma LeaseWritten(env: Environment, s: State, value: string) returns (reference: string, oid: string)
    requires FeedLease(env, s, value).Live()
    ensures && value == reference + ":" + oid && ':' !in reference && ':' !in oid && reference !in s.leases
            && FeedLease(env, s, value)
               == Write(env, s.(leases := s.leases[reference := oid], leaseBytes := s.leaseBytes + |value|), "ok\n")
  {
    SplitOnceParts(value, ':');
    var parts := SplitOnce(value, ':').value;
    reference, oid := parts.0, parts.1;
    OidIsWord(oid);
    WordExcludes(oid);
  }

  lemma WriteEffect(env: Environment, s: State, text: string)
    requires Write(env, s, text).Live()
    ensures Write(env, s, text) == s.(trace := s.trace + [Wrote(text)])
  {
  }

  lemma OptionEffect(env: Environment, s: State, line: string) returns (effect: Effect)
    requires s.status.Reading? && "option " <= line
    requires FeedOption(env, s, line[7..]).Live()
    ensures Performs(s, line, FeedOption(env, s, line[7..]), effect)
    ensures Discreet(s, FeedOption(env, s, line[7..]), effect)
  {
    var (key, value) := SplitOnce(line[7..], ' ').value;
    if key == "cas" {
      effect := LeaseEffect(env, s, line, value);
    } else {
      effect := OptionSet(key, value);
    }
  }

  lemma SubmitEffect(env: Environment, url: string, s: State, phase: string, commands: seq<string>,
                     line: string)
    requires Submit(env, url, s, phase, commands).Live() && Setting(line).None?
    ensures Performs(s, line, Submit(env, url, s, phase, commands), Submitted)
    ensures Discreet(s, Submit(env, url, s, phase, commands), Submitted)
  {
  }

  lemma CloseEffect(env: Environment, url: string, s: State, line: string)
    requires s.status.Batch? && line == ""
    requires CloseBatch(env, url, s, s.status.phase, s.status.commands).Live()
    ensures var t := CloseBatch(env, url, s, s.status.phase, s.status.commands);
            Performs(s, line, t, Submitted) && Discreet(s, t, Submitted)
  {
    var phase, commands := s.status.phase, s.status.commands;
    if phase == "push" {
      var step := PushResolver(env, s.leases);
      ResolveAllGrows(step, s.trace, commands);
      var rewriting := ResolveAll(step, s.trace, commands);
      SubmitEffect(env, url, s.(trace := rewriting.trace), phase, rewriting.commands, line);
    } else {
      SubmitEffect(env, url, s, phase, commands, line);
    }
  }

  lemma BatchLineSetsNothing(phase: string, line: string)
    requires phase == "fetch" || phase == "push"
    requires phase + " " <= line
    ensures Setting(line).None?
  {
    assert line[0] == (phase + " ")[0];
    assert "option "[0] == 'o';
  }

  lemma ReadingEffect(env: Environment, url: string, s: State, line: string) returns (effect: Effect)
    requires s.status.Reading? && FeedCommand(env, url, s, line).Live()
    ensures Performs(s, line, FeedCommand(env, url, s, line), effect)
    ensures Discreet(s, FeedCommand(env, url, s, line), effect)
  {
    if line == "capabilities" {
      WriteEffect(env, s, CAPABILITIES);
      effect := Announced;
    } else if "option " <= line {
      effect := OptionEffect(env, s, line);
    } else if line == "list" || line == "list for-push" {
      SubmitEffect(env, url, s, line, [line], line);
      effect := Submitted;
    } else {
      effect := Collected(if "fetch " <= line then "fetch" else "push", [line]);
    }
  }

  lemma ExtendEffect(s: State, line: string)
    requires s.status.Batch? && KnownPhase(s) && Extend(s, line).Live()
    ensures Performs(s, line, Extend(s, line), Collected(s.status.phase, s.status.commands + [line]))
  {
    BatchLineSetsNothing(s.status.phase, line);
  }

  lemma FeedEffect(env: Environment, url: string, s: State, line: string) returns (effect: Effect)
    requires s.Live() && KnownPhase(s) && Feed(env, url, s, line).Live()
    ensures Performs(s, line, Feed(env, url, s, line), effect)
    ensures Discreet(s, Feed(env, url, s, line), effect)
  {
    if s.status.Reading? {
      effect := ReadingEffect(env, url, s, line);
    } else if line == "" {
      CloseEffect(env, url, s, line);
      effect := Submitted;
    } else {
      ExtendEffect(s, line);
      effect := Collected(s.status.phase, s.status.commands + [line]);
    }
  }

  // ---------------------------------------------------------------- all lines so far

  lemma OptionsStep(s: State, line: string, t: State, effect: Effect, lines: seq<string>)
    requires Performs(s, line, t, effect) && OptionsAre(s.options, lines)
    ensures OptionsAre(t.options, lines + [line])
  {
    forall key, value
      ensures (key in t.options && t.options[key] == value) <==> LastSetting(lines + [line], key, value)
    {
      LastSettingStep(lines, line, key, value);
    }
  }

  lemma LastSettingStep(lines: seq<string>, line: string, key: string, value: string)
    ensures LastSetting(lines + [line], key, value)
            <==> if key != "cas" && Setting(line).Some? && Setting(line).value.0 == key
                 then Setting(line).value.1 == value
                 else LastSetting(lines, key, value)
  {
    var all := lines + [line];
    if key != "cas" && Setting(line).Some? && Setting(line).value.0 == key {
      var other := Setting(line).value.1;
      assert Sets(all[|lines|], key, other);
      if other == value {
        assert LastSetting(all, key, value);
      }
    } else {
      forall other
        ensures !Sets(line, key, other)
      {
      }
      if LastSetting(lines, key, value) {
        var i :| 0 <= i < |lines| && Sets(lines[i], key, value)
              && forall j, other :: i < j < |lines| ==> !Sets(lines[j], key, other);
        assert Sets(all[i], key, value);
        forall j, other | i < j < |all|
          ensures !Sets(all[j], key, other)
        {
          if j < |lines| {
            assert all[j] == lines[j];
          }
        }
      }
      if LastSetting(all, key, value) {
        var i :| 0 <= i < |all| && Sets(all[i], key, value)
              && forall j, other :: i < j < |all| ==> !Sets(all[j], key, other);
        assert i < |lines|;
        assert Sets(lines[i], key, value);
        forall j, other | i < j < |lines|
          ensures !Sets(lines[j], key, other)
        {
          assert all[j] == lines[j];
        }
      }
    }
  }

  lemma LeasedInStep(lines: seq<string>, line: string, reference: string, oid: string)
    ensures LeasedIn(lines + [line], reference, oid)
            <==> LeasedIn(lines, reference, oid) || Leases(line, reference, oid)
  {
    var all := lines + [line];
    if LeasedIn(lines, reference, oid) {
      var i :| 0 <= i < |lines| && Leases(lines[i], reference, oid);
      assert Leases(all[i], reference, oid);
    }
    if Leases(line, reference, oid) {
      assert Leases(all[|lines|], reference, oid);
    }
  }

  /** A lease text splits in one way only. */
  lemma LeaseUnique(reference: string, oid: string, r: string, o: string)
    requires ':' !in reference && ':' !in oid && reference + ":" + oid == r + ":" + o
    ensures r == reference && o == oid
  {
    var text := reference + ":" + oid;
    assert text[|r|] == ':';
    assert text[..|reference|] == reference && text[..|r|] == r;
    assert text[|reference| + 1..] == oid && text[|r| + 1..] == o;
  }

  lemma LeasesStep(s: State, line: string, t: State, effect: Effect, lines: seq<string>)
    requires Performs(s, line, t, effect) && s.status.Reading? && LeasesAre(s.leases, lines)
    requires effect.Announced? || effect.OptionSet? || effect.LeaseTaken?
    ensures LeasesAre(t.leases, lines + [line])
  {
    forall reference, oid
      ensures (reference in t.leases && t.leases[reference] == oid)
              <==> LeasedIn(lines + [line], reference, oid)
    {
      LeasedInStep(lines, line, reference, oid);
      if effect.LeaseTaken? {
        if Leases(line, reference, oid) {
          LeaseUnique(effect.reference, effect.oid, reference, oid);
        } else {
          assert (reference, oid) != (effect.reference, effect.oid);
        }
      }
    }
  }

  // ---------------------------------------------------------------- the run invariant

  /** `states` is the run of `feed` over `lines`: `states[n]` is reached after `n` lines. */
  ghost predicate Follows(feed: Machine, lines: seq<string>, states: seq<State>) {
    && |states| == |lines| + 1
    && states[0] == INITIAL
    && forall n :: 0 <= n < |lines| ==> states[n + 1] == feed(states[n], lines[n])
  }

  /** `now` extends `past`, which ends in an executed plan, by events that execute nothing. */
  predicate NoPlanSince(past: State, now: State) {
    && past.trace <= now.trace
    && (past == INITIAL || (past.trace != [] && past.trace[|past.trace| - 1].Executed?))
    && forall i :: |past.trace| <= i < |now.trace| ==> !now.trace[i].Executed?
  }

  /** The pending batch is the end of the lines read. */
  predicate Placed(s: State, lines: seq<string>, from: nat) {
    && KnownPhase(s)
    && from + |Pending(s)| <= |lines|
    && lines[|lines| - |Pending(s)|..] == Pending(s)
  }

  /** The lines after the last plan and before the pending batch. */
  function Preamble(s: State, lines: seq<string>, from: nat): seq<string>
    requires Placed(s, lines, from)
  {
    lines[from..|lines| - |Pending(s)|]
  }

  /** State `s`, reached after `lines`, holds exactly what they describe; `past` was reached after
      `from` of them, when the last plan had just been executed. */
  ghost predicate Accounted(s: State, lines: seq<string>, past: State, from: nat) {
    && Placed(s, lines, from)
    && OptionsAre(s.options, lines)
    && LeasesAre(s.leases, Preamble(s, lines, from))
    && NoPlanSince(past, s)
  }

  lemma PlacedStep(s: State, line: string, t: State, effect: Effect, lines: seq<string>, from: nat)
    requires Performs(s, line, t, effect) && Placed(s, lines, from)
    ensures var from' := if effect.Submitted? then |lines| + 1 else from;
            && Placed(t, lines + [line], from')
            && Preamble(t, lines + [line], from')
               == (if effect.Submitted? then []
                   else if effect.Collected? then Preamble(s, lines, from)
                   else Preamble(s, lines, from) + [line])
  {
    var all := lines + [line];
    if effect.Collected? {
      assert all[|all| - |Pending(t)|..] == lines[|lines| - |Pending(s)|..] + [line];
    } else {
      assert Pending(t) == [];
    }
  }

  lemma NothingLeased()
    ensures LeasesAre(map[], [])
  {
  }

  lemma NothingSet()
    ensures OptionsAre(map[], [])
  {
  }

  lemma LeasesFollow(s: State, line: string, t: State, effect: Effect, preamble: seq<string>)
    requires Performs(s, line, t, effect) && LeasesAre(s.leases, preamble)
    ensures LeasesAre(t.leases, if effect.Submitted? then []
                                else if effect.Collected? then preamble
                                else preamble + [line])
  {
    match effect
    case Submitted =>
      NothingLeased();
    case Collected(_, _) =>
    case Announced =>
      LeasesStep(s, line, t, effect, preamble);
    case OptionSet(_, _) =>
      LeasesStep(s, line, t, effect, preamble);
    case LeaseTaken(_, _) =>
      LeasesStep(s, line, t, effect, preamble);
  }

  lemma AccountedStep(s: State, line: string, t: State, effect: Effect, lines: seq<string>,
                      past: State, from: nat)
    requires Performs(s, line, t, effect) && Discreet(s, t, effect) && s.trace <= t.trace
    requires Accounted(s, lines, past, from)
    ensures if effect.Submitted? then Accounted(t, lines + [line], t, |lines| + 1)
            else Accounted(t, lines + [line], past, from)
  {
    PlacedStep(s, line, t, effect, lines, from);
    OptionsStep(s, line, t, effect, lines);
    LeasesFollow(s, line, t, effect, Preamble(s, lines, from));
  }

  lemma FeederEffect(env: Environment, url: string, s: State, line: string) returns (effect: Effect)
    requires s.Live() && KnownPhase(s) && Feeder(env, url)(s, line).Live()
    ensures Performs(s, line, Feeder(env, url)(s, line), effect)
    ensures Discreet(s, Feeder(env, url)(s, line), effect)
  {
    effect := FeedEffect(env, url, s, line);
  }

  ghost predicate Effective(feed: Machine) {
    forall s: State, line: string :: s.Live() && KnownPhase(s) && feed(s, line).Live() ==>
      exists effect :: Performs(s, line, feed(s, line), effect) && Discreet(s, feed(s, line), effect)
  }

  lemma FeederEffective(env: Environment, url: string)
    ensures Effective(Feeder(env, url))
  {
    var feed := Feeder(env, url);
    forall s: State, line: string | s.Live() && KnownPhase(s) && feed(s, line).Live()
      ensures exists effect :: Performs(s, line, feed(s, line), effect) && Discreet(s, feed(s, line), effect)
    {
      var effect := FeederEffect(env, url, s, line);
    }
  }

  lemma AccountedStart()
    ensures Accounted(INITIAL, [], INITIAL, 0)
  {
    NothingSet();
    NothingLeased();
  }

  /** Every live state of every run: its options, leases and pending batch are exactly those that
      the lines read so far describe. */
  lemma {:induction false} RunAccounted(feed: Machine, lines: seq<string>, states: seq<State>, n: nat)
    returns (from: nat)
    requires Orderly(feed) && Effective(feed) && Follows(feed, lines, states)
    requires n <= |lines| && states[n].Live()
    ensures from <= n && Accounted(states[n], lines[..n], states[from], from)
  {
    if n == 0 {
      from := 0;
      AccountedStart();
      assert lines[..0] == [];
    } else {
      StepsFrom(feed, lines, states, n - 1);
      from := RunAccounted(feed, lines, states, n - 1);
      from := AccountedNext(feed, states[n - 1], states[n], lines, states, n - 1, from);
    }
  }

  lemma StepsFrom(feed: Machine, lines: seq<string>, states: seq<State>, n: nat)
    requires Orderly(feed) && Follows(feed, lines, states) && n < |lines|
    ensures states[n + 1] == feed(states[n], lines[n])
    ensures states[n + 1].Live() ==> states[n].Live()
  {
  }

  lemma AccountedNext(feed: Machine, s: State, t: State, lines: seq<string>, states: seq<State>, n: nat, from: nat)
    returns (from': nat)
    requires Orderly(feed) && Effective(feed) && n < |lines| && |states| == |lines| + 1 && from <= n
    requires t == feed(s, lines[n]) && s.Live() && t.Live() && t == states[n + 1]
    requires Accounted(s, lines[..n], states[from], from)
    ensures from' <= n + 1 && Accounted(t, lines[..n + 1], states[from'], from')
  {
    var submitted := EffectAccounted(feed, s, lines[n], lines[..n], states[from], from);
    TakeMore(lines, n);
    from' := if submitted then n + 1 else from;
  }

  lemma EffectAccounted(feed: Machine, s: State, line: string, lines: seq<string>, past: State, from: nat)
    returns (submitted: bool)
    requires Orderly(feed) && Effective(feed) && s.Live() && feed(s, line).Live()
    requires Accounted(s, lines, past, from)
    ensures if submitted then Accounted(feed(s, line), lines + [line], feed(s, line), |lines| + 1)
            else Accounted(feed(s, line), lines + [line], past, from)
  {
    var effect :| Performs(s, line, feed(s, line), effect) && Discreet(s, feed(s, line), effect);
    AccountedStep(s, line, feed(s, line), effect, lines, past, from);
    submitted := effect.Submitted?;
  }

  // ---------------------------------------------------------------- executed plans

  /** `command` is `line` with its source replaced by the object that the resolver gave for it when
      it was asked as event number `j`. */
  predicate ResolvedAs(env: Environment, before: seq<Event>, j: nat, line: string, command: string) {
    && j < |before|
    && ParsePush(line).Some?
    && var push := ParsePush(line).value;
    && before[j] == Asked(push.source)
    && var answer := env.resolve(before[..j], push.source);
    && answer.Some? && ValidOid(answer.value)
    && command == PushLine(push.(source := answer.value))
  }

  /** Each command was resolved in turn, with the events before it. */
  lemma {:induction false} ResolvedInOrder(step: Resolver, trace: seq<Event>, commands: seq<string>)
    requires Inquires(step) && ResolveAll(step, trace, commands).Rewritten?
    ensures var r := ResolveAll(step, trace, commands);
            && |r.commands| == |commands| && |r.trace| == |trace| + |commands| && trace <= r.trace
            && forall k :: 0 <= k < |commands| ==>
                 step(r.trace[..|trace| + k], commands[k])
                 == Resolved(r.commands[k], r.trace[..|trace| + k + 1])
  {
    if commands != [] {
      var init := commands[..|commands| - 1];
      ResolvedInOrder(step, trace, init);
      var r, r' := ResolveAll(step, trace, init), ResolveAll(step, trace, commands);
      forall k | 0 <= k < |commands|
        ensures step(r'.trace[..|trace| + k], commands[k])
                == Resolved(r'.commands[k], r'.trace[..|trace| + k + 1])
      {
        assert r'.trace[..|trace| + k] == r.trace[..|trace| + k];
        if k < |init| {
          assert r'.trace[..|trace| + k + 1] == r.trace[..|trace| + k + 1];
        } else {
          assert r.trace[..|trace| + k] == r.trace && r'.trace[..|trace| + k + 1] == r'.trace;
        }
      }
    } else {
      assert trace <= trace;
    }
  }

  lemma ResolvedOne(env: Environment, leases: map<string, string>, before: seq<Event>, j: nat,
                    line: string, command: string)
    requires j < |before|
    requires ResolveOne(env, leases, before[..j], line) == Resolved(command, before[..j + 1])
    ensures ResolvedAs(env, before, j, line, command)
  {
    assert before[..j + 1][j] == before[j];
  }

  lemma PushResolved(env: Environment, leases: map<string, string>, before: seq<Event>, j: nat,
                     line: string, command: string)
    requires j < |before|
    requires PushResolver(env, leases)(before[..j], line) == Resolved(command, before[..j + 1])
    ensures ResolvedAs(env, before, j, line, command)
  {
    ResolverIsResolveOne(env, leases, before[..j], line);
    ResolvedOne(env, leases, before, j, line, command);
  }

  ghost predicate Faithful(step: Resolver, env: Environment) {
    forall before, j: nat, line, command ::
      j < |before| && step(before[..j], line) == Resolved(command, before[..j + 1])
      ==> ResolvedAs(env, before, j, line, command)
  }

  lemma PushResolverFaithful(env: Environment, leases: map<string, string>)
    ensures Faithful(PushResolver(env, leases), env)
  {
    forall before: seq<Event>, j: nat, line, command
      | j < |before| && PushResolver(env, leases)(before[..j], line) == Resolved(command, before[..j + 1])
      ensures ResolvedAs(env, before, j, line, command)
    {
      PushResolved(env, leases, before, j, line, command);
    }
  }

  lemma PushesResolved(step: Resolver, env: Environment, trace: seq<Event>, commands: seq<string>)
    requires Inquires(step) && Faithful(step, env) && ResolveAll(step, trace, commands).Rewritten?
    ensures var r := ResolveAll(step, trace, commands);
            CommandsFrom(env, "push", commands, r.trace, |trace|, r.commands)
  {
    ResolvedInOrder(step, trace, commands);
  }

  lemma ResolverIsResolveOne(env: Environment, leases: map<string, string>, trace: seq<Event>,
                             command: string)
    ensures PushResolver(env, leases)(trace, command) == ResolveOne(env, leases, trace, command)
  {
  }

  /** How the commands of a plan follow from the batch that was read, `before` being all events up
      to its execution and `asked` the number of them when the batch was complete. */
  predicate CommandsFrom(env: Environment, phase: string, batch: seq<string>, before: seq<Event>,
                         asked: nat, commands: seq<string>) {
    if phase == "push" then
      && |commands| == |batch| && |before| == asked + |batch|
      && forall k :: 0 <= k < |batch| ==> ResolvedAs(env, before, asked + k, batch[k], commands[k])
    else commands == batch
  }

  /** The request that a line completes: a list command on its own, or a batch and its blank line. */
  predicate Completes(s: State, line: string, phase: string, batch: seq<string>) {
    if s.status.Reading? then (line == "list" || line == "list for-push") && phase == line && batch == [line]
    else s.status.Batch? && line == "" && phase == s.status.phase && batch == s.status.commands
  }

  lemma SubmitExecutes(env: Environment, url: string, s: State, phase: string, commands: seq<string>)
    requires Submit(env, url, s, phase, commands).trace != s.trace
    ensures var plan := RemotePlan(url, phase, s.options, s.leases, commands);
            Submit(env, url, s, phase, commands).trace == s.trace + [Executed(plan)] && Valid(plan)
  {
  }

  /** What is known of a plan executed as event `i` of `after`, which was `asked` long before. */
  predicate PlanFrom(env: Environment, url: string, s: State, phase: string, batch: seq<string>,
                     after: seq<Event>, i: nat) {
    && i + 1 == |after| && after[i].Executed?
    && var plan := after[i].plan;
    && Valid(plan) && plan.url == url && plan.phase == phase
    && plan.options == s.options && plan.leases == s.leases
    && CommandsFrom(env, phase, batch, after[..i], |s.trace|, plan.commands)
  }

  lemma SubmitPlanFrom(env: Environment, url: string, s: State, t: State, phase: string,
                       batch: seq<string>, commands: seq<string>, i: nat)
    requires t.options == s.options && t.leases == s.leases
    requires CommandsFrom(env, phase, batch, t.trace, |s.trace|, commands)
    requires |t.trace| <= i < |Submit(env, url, t, phase, commands).trace|
    ensures PlanFrom(env, url, s, phase, batch, Submit(env, url, t, phase, commands).trace, i)
  {
    SubmitExecutes(env, url, t, phase, commands);
    assert (t.trace + [Executed(RemotePlan(url, phase, s.options, s.leases, commands))])[..|t.trace|]
           == t.trace;
  }

  lemma CloseExecutes(env: Environment, url: string, s: State, phase: string, batch: seq<string>,
                      i: nat)
    requires |s.trace| <= i < |CloseBatch(env, url, s, phase, batch).trace|
    requires CloseBatch(env, url, s, phase, batch).trace[i].Executed?
    ensures PlanFrom(env, url, s, phase, batch, CloseBatch(env, url, s, phase, batch).trace, i)
  {
    if phase == "push" {
      var r := ResolveAll(PushResolver(env, s.leases), s.trace, batch);
      ResolveAllGrows(PushResolver(env, s.leases), s.trace, batch);
      if r.Rewritten? {
        PushResolverFaithful(env, s.leases);
        PushesResolved(PushResolver(env, s.leases), env, s.trace, batch);
        SubmitPlanFrom(env, url, s, s.(trace := r.trace), phase, batch, r.commands, i);
      }
    } else {
      SubmitPlanFrom(env, url, s, s, phase, batch, batch, i);
    }
  }

  /** A line that executes a plan completes a request, and the plan is made of that request and of
      the options and leases in force. */
  lemma FeedExecutes(env: Environment, url: string, s: State, line: string, i: nat)
    returns (phase: string, batch: seq<string>)
    requires s.Live()
    requires |s.trace| <= i < |Feed(env, url, s, line).trace|
    requires Feed(env, url, s, line).trace[i].Executed?
    ensures Completes(s, line, phase, batch)
    ensures PlanFrom(env, url, s, phase, batch, Feed(env, url, s, line).trace, i)
  {
    if s.status.Reading? {
      ReadingExecutes(env, url, s, line, i);
      phase, batch := line, [line];
    } else {
      phase, batch := s.status.phase, s.status.commands;
    }
    CloseExecutes(env, url, s, phase, batch, i);
  }

  lemma ReadingExecutes(env: Environment, url: string, s: State, line: string, i: nat)
    requires s.status.Reading?
    requires |s.trace| <= i < |FeedCommand(env, url, s, line).trace|
    requires FeedCommand(env, url, s, line).trace[i].Executed?
    ensures line == "list" || line == "list for-push"
    ensures FeedCommand(env, url, s, line) == CloseBatch(env, url, s, line, [line])
  {
    if "option " <= line {
      OptionExecutesNothing(env, s, line[7..]);
    }
  }

  lemma OptionExecutesNothing(env: Environment, s: State, setting: string)
    ensures forall i :: |s.trace| <= i < |FeedOption(env, s, setting).trace| ==>
              !FeedOption(env, s, setting).trace[i].Executed?
  {
  }

  // ---------------------------------------------------------------- the theorem

  /** Event `i`, executed on reading line `n`, explained by the lines alone: `lines[from..start]` came
      after the previous plan, `lines[start..n]` are the batch. */
  ghost predicate Origin(env: Environment, url: string, lines: seq<string>, states: seq<State>,
                         n: nat, from: nat, start: nat, i: nat)
    requires from <= start <= n < |lines| && |states| == |lines| + 1
    requires i < |states[n + 1].trace| && states[n + 1].trace[i].Executed?
  {
    var plan := states[n + 1].trace[i].plan;
    var before := states[n + 1].trace[..i];
    && i + 1 == |states[n + 1].trace|
    && Valid(plan) && plan.url == url
    && OptionsAre(plan.options, lines[..n])
    && LeasesAre(plan.leases, lines[from..start])
    && NoPlanSince(states[from], states[n])
    && (if start == n then plan.commands == [lines[n]] && plan.phase == lines[n]
        else lines[n] == ""
             && CommandsFrom(env, plan.phase, lines[start..n], before, |states[n].trace|, plan.commands))
  }

  lemma {:induction false} FindStep(feed: Machine, lines: seq<string>, states: seq<State>, m: nat, i: nat)
    returns (n: nat)
    requires Orderly(feed) && Follows(feed, lines, states)
    requires m <= |lines| && i < |states[m].trace|
    ensures n < m && |states[n].trace| <= i < |states[n + 1].trace|
    ensures states[n + 1].trace <= states[m].trace
  {
    assert states[m] == feed(states[m - 1], lines[m - 1]);
    if |states[m - 1].trace| <= i {
      n := m - 1;
    } else {
      n := FindStep(feed, lines, states, m - 1, i);
    }
  }

  lemma OriginFrom(env: Environment, url: string, lines: seq<string>, states: seq<State>, n: nat,
                   from: nat, i: nat, phase: string, batch: seq<string>) returns (start: nat)
    requires from <= n < |lines| && |states| == |lines| + 1
    requires Accounted(states[n], lines[..n], states[from], from)
    requires Completes(states[n], lines[n], phase, batch)
    requires PlanFrom(env, url, states[n], phase, batch, states[n + 1].trace, i)
    ensures from <= start <= n && Origin(env, url, lines, states, n, from, start, i)
  {
    start := n - |Pending(states[n])|;
    SliceOfPrefix(lines, n, from, start);
    SliceOfPrefix(lines, n, start, n);
    assert Preamble(states[n], lines[..n], from) == lines[from..start];
    assert Pending(states[n]) == lines[start..n];
  }

  /** The states of the session on `lines`. */
  ghost function States(feed: Machine, lines: seq<string>): (states: seq<State>)
    ensures |states| == |lines| + 1
  {
    seq(|lines| + 1, n requires 0 <= n <= |lines| => RunFrom(feed, INITIAL, lines[..n]))
  }

  lemma StatesFollow(feed: Machine, lines: seq<string>)
    ensures Follows(feed, lines, States(feed, lines))
    ensures States(feed, lines)[|lines|] == RunFrom(feed, INITIAL, lines)
  {
    forall n | 0 <= n < |lines|
      ensures States(feed, lines)[n + 1] == feed(States(feed, lines)[n], lines[n])
    {
      assert lines[..n + 1][..n] == lines[..n];
    }
    assert lines[..0] == [] && lines[..|lines|] == lines;
  }

  lemma StepOrigin(env: Environment, url: string, lines: seq<string>, states: seq<State>, n: nat, i: nat)
    returns (from: nat, start: nat)
    requires Follows(Feeder(env, url), lines, states) && n < |lines|
    requires |states[n].trace| <= i < |states[n + 1].trace| && states[n + 1].trace[i].Executed?
    ensures from <= start <= n && Origin(env, url, lines, states, n, from, start, i)
  {
    FeederOrderly(env, url);
    FeederEffective(env, url);
    from := RunAccounted(Feeder(env, url), lines, states, n);
    assert states[n + 1] == Feed(env, url, states[n], lines[n]);
    var phase, batch := FeedExecutes(env, url, states[n], lines[n], i);
    start := OriginFrom(env, url, lines, states, n, from, i, phase, batch);
  }

  lemma SessionStates(env: Environment, url: string, input: string)
    ensures var lines := Frames(input).0;
            var states := States(Feeder(env, url), lines);
            && Follows(Feeder(env, url), lines, states)
            && states[|lines|].trace == SessionOutcome(env, url, input).trace
  {
    FeederOrderly(env, url);
    DriveIsRun(Feeder(env, url), INITIAL, input);
    StatesFollow(Feeder(env, url), Frames(input).0);
  }

  lemma EventOrigin(env: Environment, url: string, lines: seq<string>, states: seq<State>, i: nat)
    returns (n: nat, from: nat, start: nat)
    requires Follows(Feeder(env, url), lines, states)
    requires i < |states[|lines|].trace| && states[|lines|].trace[i].Executed?
    ensures from <= start <= n < |lines|
    ensures states[n + 1].trace == states[|lines|].trace[..i + 1]
    ensures Origin(env, url, lines, states, n, from, start, i)
  {
    FeederOrderly(env, url);
    n := FindStep(Feeder(env, url), lines, states, |lines|, i);
    from, start := StepOrigin(env, url, lines, states, n, i);
  }

  /** Every plan that a session executes, on any input whatsoever, is explained by the lines up to
      and including its own terminator. */
  lemma SessionPlanOrigin(env: Environment, url: string, input: string, trace: seq<Event>, i: nat)
    returns (n: nat, from: nat, start: nat)
    requires trace == SessionOutcome(env, url, input).trace && i < |trace| && trace[i].Executed?
    ensures var lines := Frames(input).0;
            var states := States(Feeder(env, url), lines);
            && from <= start <= n < |lines|
            && states[n + 1].trace == trace[..i + 1]
            && Origin(env, url, lines, states, n, from, start, i)
  {
    SessionStates(env, url, input);
    n, from, start := EventOrigin(env, url, Frames(input).0, States(Feeder(env, url), Frames(input).0), i);
  }

  /** Success leaves no lease unspent. */
  lemma {:induction false} FinishedSpendsLeases(env: Environment, url: string, s: State, input: string)
    requires s.status.Finished? ==> s.leases == map[]
    ensures var end := Drive(Feeder(env, url), s, input);
            end.status.Finished? ==> end.leases == map[]
    decreases |input|
  {
    if s.Live() && ReadLine(input).Line? {
      ReadLineParts(input);
      FinishedSpendsLeases(env, url, Feed(env, url, s, ReadLine(input).text), ReadLine(input).rest);
    }
  }
}
