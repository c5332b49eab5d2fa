/** What a failure does to a session: the first write, resolution or execution that fails is the last
thing the session does. */
module GitFailures {
  import opened Text
  import opened GitPlan
  import opened GitSession
  import opened GitRuns

  /** The environment let event `last`, which came after `before`, succeed. */
  predicate Succeeded(env: Environment, before: seq<Event>, last: Event) {
    match last
    case Wrote(text) => env.write(before, text)
    case Asked(source) =>
      env.resolve(before, source).Some? && ValidOid(env.resolve(before, source).value)
    case Executed(plan) => env.execute(before, plan)
  }

  type Judge = (seq<Event>, Event) -> bool

  function JudgeOf(env: Environment): Judge {
    (before, last) => Succeeded(env, before, last)
  }

  ghost predicate Clean(ok: Judge, trace: seq<Event>) {
    forall i :: 0 <= i < |trace| ==> ok(trace[..i], trace[i])
  }

  lemma CleanSnoc(ok: Judge, trace: seq<Event>, last: Event)
    requires Clean(ok, trace) && ok(trace, last)
    ensures Clean(ok, trace + [last])
  {
    forall i | 0 <= i < |trace| + 1
      ensures ok((trace + [last])[..i], (trace + [last])[i])
    {
      assert (trace + [last])[..i] == trace[..i];
      if i == |trace| {
        assert trace[..i] == trace;
      }
    }
  }

  /** Everything succeeded, or everything up to a last event at which the session failed. */
  ghost predicate Settled(ok: Judge, s: State) {
    || Clean(ok, s.trace)
    || (s.status.Failed? && s.trace != [] && Clean(ok, s.trace[..|s.trace| - 1]))
  }

  lemma SettledSnoc(ok: Judge, trace: seq<Event>, last: Event, t: State)
    requires Clean(ok, trace) && t.trace == trace + [last] && (ok(trace, last) || t.status.Failed?)
    ensures Settled(ok, t)
  {
    if ok(trace, last) {
      CleanSnoc(ok, trace, last);
    } else {
      assert t.trace[..|t.trace| - 1] == trace;
    }
  }

  lemma JudgeIs(env: Environment, before: seq<Event>, last: Event)
    ensures JudgeOf(env)(before, last) == Succeeded(env, before, last)
  {
  }

  lemma WriteSettled(env: Environment, s: State, text: string)
    requires Clean(JudgeOf(env), s.trace)
    ensures Settled(JudgeOf(env), Write(env, s, text))
  {
    JudgeIs(env, s.trace, Wrote(text));
    SettledSnoc(JudgeOf(env), s.trace, Wrote(text), Write(env, s, text));
  }

  lemma OptionSettled(env: Environment, s: State, setting: string)
    requires Clean(JudgeOf(env), s.trace)
    ensures Settled(JudgeOf(env), FeedOption(env, s, setting))
  {
    var t := FeedOption(env, s, setting);
    if t.trace != s.trace {
      var (key, value) := SplitOnce(setting, ' ').value;
      if key == "cas" {
        var (reference, oid) := SplitOnce(value, ':').value;
        WriteSettled(env, s.(leases := s.leases[reference := oid], leaseBytes := s.leaseBytes + |value|), "ok\n");
      } else {
        WriteSettled(env, s.(options := s.options[key := value]), "ok\n");
      }
    }
  }

  lemma SubmitSettled(env: Environment, url: string, s: State, phase: string, commands: seq<string>)
    requires Clean(JudgeOf(env), s.trace)
    ensures Settled(JudgeOf(env), Submit(env, url, s, phase, commands))
  {
    var t := Submit(env, url, s, phase, commands);
    if t.trace != s.trace {
      var plan := RemotePlan(url, phase, s.options, s.leases, commands);
      JudgeIs(env, s.trace, Executed(plan));
      SettledSnoc(JudgeOf(env), s.trace, Executed(plan), t);
    }
  }

  // ---------------------------------------------------------------- resolving

  /** A resolver that refuses after asking, or asks and is answered. */
  ghost predicate Candid(ok: Judge, step: Resolver) {
    forall t: seq<Event>, c: string ::
      var r := step(t, c);
      || (r.Refused? && r.trace == t)
      || (exists e :: r.trace == t + [e] && (ok(t, e) || r.Refused?))
  }

  lemma ResolverCandid(env: Environment, leases: map<string, string>)
    ensures Candid(JudgeOf(env), PushResolver(env, leases))
  {
    forall t: seq<Event>, c: string
      ensures var r := PushResolver(env, leases)(t, c);
              || (r.Refused? && r.trace == t)
              || (exists e :: r.trace == t + [e] && (JudgeOf(env)(t, e) || r.Refused?))
    {
      OneCandid(env, leases, t, c);
    }
  }

  lemma OneCandid(env: Environment, leases: map<string, string>, t: seq<Event>, c: string)
    ensures var r := ResolveOne(env, leases, t, c);
            || (r.Refused? && r.trace == t)
            || (exists e :: r.trace == t + [e] && (JudgeOf(env)(t, e) || r.Refused?))
  {
    var r := ResolveOne(env, leases, t, c);
    if r.trace != t {
      var asked := Asked(ParsePush(c).value.source);
      JudgeIs(env, t, asked);
      assert r.trace == t + [asked];
    }
  }

  ghost predicate SettledRewriting(ok: Judge, r: Rewriting) {
    || Clean(ok, r.trace)
    || (r.Stopped? && r.trace != [] && Clean(ok, r.trace[..|r.trace| - 1]))
  }

  lemma {:induction false} ResolveSettled(ok: Judge, step: Resolver, trace: seq<Event>, commands: seq<string>)
    requires Candid(ok, step) && Clean(ok, trace)
    ensures SettledRewriting(ok, ResolveAll(step, trace, commands))
    decreases |commands|
  {
    if commands != [] {
      var before := ResolveAll(step, trace, commands[..|commands| - 1]);
      ResolveSettled(ok, step, trace, commands[..|commands| - 1]);
      if before.Rewritten? {
        var c := commands[|commands| - 1];
        var r := step(before.trace, c);
        if r.trace != before.trace {
          var e :| r.trace == before.trace + [e] && (ok(before.trace, e) || r.Refused?);
          if ok(before.trace, e) {
            CleanSnoc(ok, before.trace, e);
          } else {
            assert r.trace[..|r.trace| - 1] == before.trace;
          }
        }
      }
    }
  }

  lemma CloseSettled(env: Environment, url: string, s: State, phase: string, commands: seq<string>)
    requires Clean(JudgeOf(env), s.trace)
    ensures Settled(JudgeOf(env), CloseBatch(env, url, s, phase, commands))
  {
    if phase == "push" {
      var step := PushResolver(env, s.leases);
      ResolverCandid(env, s.leases);
      ResolveSettled(JudgeOf(env), step, s.trace, commands);
      var r := ResolveAll(step, s.trace, commands);
      if r.Rewritten? {
        SubmitSettled(env, url, s.(trace := r.trace), phase, r.commands);
      }
    } else {
      SubmitSettled(env, url, s, phase, commands);
    }
  }

  // ---------------------------------------------------------------- whole sessions

  lemma CommandSettled(env: Environment, url: string, s: State, line: string)
    requires Clean(JudgeOf(env), s.trace)
    ensures Settled(JudgeOf(env), FeedCommand(env, url, s, line))
  {
    if line == "capabilities" {
      WriteSettled(env, s, CAPABILITIES);
    } else if "option " <= line {
      OptionSettled(env, s, line[7..]);
    } else if line == "list" || line == "list for-push" {
      SubmitSettled(env, url, s, line, [line]);
    }
  }

  ghost predicate Settles(ok: Judge, feed: Machine) {
    forall s: State, line: string :: s.Live() && Clean(ok, s.trace) ==> Settled(ok, feed(s, line))
  }

  lemma FeederSettles(env: Environment, url: string)
    ensures Settles(JudgeOf(env), Feeder(env, url))
  {
    forall s: State, line: string | s.Live() && Clean(JudgeOf(env), s.trace)
      ensures Settled(JudgeOf(env), Feeder(env, url)(s, line))
    {
      FeedSettled(env, url, s, line);
    }
  }

  lemma FeedSettled(env: Environment, url: string, s: State, line: string)
    requires s.Live() && Clean(JudgeOf(env), s.trace)
    ensures Settled(JudgeOf(env), Feed(env, url, s, line))
  {
    if s.status.Reading? {
      CommandSettled(env, url, s, line);
    } else if line == "" {
      CloseSettled(env, url, s, s.status.phase, s.status.commands);
    }
  }

  lemma {:induction false} DriveSettled(ok: Judge, feed: Machine, s: State, input: string)
    requires Settles(ok, feed) && Settled(ok, s)
    ensures Settled(ok, Drive(feed, s, input))
    decreases |input|
  {
    if s.Live() && ReadLine(input).Line? {
      DriveStep(feed, s, input);
      DriveSettled(ok, feed, feed(s, ReadLine(input).text), ReadLine(input).rest);
    }
  }

  lemma SettledAt(ok: Judge, s: State, i: nat)
    requires Settled(ok, s) && i < |s.trace|
    ensures ok(s.trace[..i], s.trace[i]) || (i + 1 == |s.trace| && s.status.Failed?)
  {
    if i + 1 < |s.trace| {
      assert s.trace[..|s.trace| - 1][..i] == s.trace[..i];
    }
  }

  /** A session that is over did nothing after an event that failed, and reports that failure. */
  lemma FailureIsLast(env: Environment, url: string, input: string, i: nat)
    requires i < |SessionOutcome(env, url, input).trace|
    requires var trace := SessionOutcome(env, url, input).trace; !Succeeded(env, trace[..i], trace[i])
    ensures i + 1 == |SessionOutcome(env, url, input).trace|
    ensures SessionOutcome(env, url, input).status.Failed?
  {
    FeederSettles(env, url);
    DriveSettled(JudgeOf(env), Feeder(env, url), INITIAL, input);
    var trace := SessionOutcome(env, url, input).trace;
    JudgeIs(env, trace[..i], trace[i]);
    SettledAt(JudgeOf(env), SessionOutcome(env, url, input), i);
  }
}
