/** A session whose `resolve` and `execute` are the registering code: the registration discipline over
whole sessions, on every input and with every host. */
module GitHosting {
  import opened Text
  import opened GitPlan
  import opened GitSession
  import opened GitRuns
  import opened GitFailures
  import opened GitNetwork

  /** What a session needs besides a `Host`: the object that local Git names, and its stdout. */
  datatype Console = Console(
    named: (seq<Act>, string) -> string,
    accepts: (seq<Event>, string) -> bool)

  /** Everything done on the host on behalf of the events of a session. */
  function LogOf(host: Host, trace: seq<Event>): seq<Act> {
    if trace == [] then []
    else EventRun(host, trace[|trace| - 1])(LogOf(host, trace[..|trace| - 1])).log
  }

  function Resolve(host: Host, console: Console, trace: seq<Event>, source: string): Option<string> {
    var log := LogOf(host, trace);
    if host.local(log) then Some(console.named(log, source)) else None
  }

  function Perform(host: Host, trace: seq<Event>, plan: RemotePlan): bool {
    NetworkRun(host, plan)(LogOf(host, trace)).ok
  }

  /** The closures that `run` hands to `session`. */
  function Hosted(host: Host, console: Console): Environment {
    Environment(console.accepts,
                (trace, source) => Resolve(host, console, trace, source),
                (trace, plan) => Perform(host, trace, plan))
  }

  lemma LogSnoc(host: Host, trace: seq<Event>, last: Event)
    ensures var before := LogOf(host, trace);
            LogOf(host, trace + [last]) == EventRun(host, last)(before).log
  {
    assert (trace + [last])[..|trace|] == trace;
  }

  /** What one more event does to an idle log, successful or not. */
  lemma NextKeeps(host: Host, console: Console, trace: seq<Event>, last: Event)
    requires Replay(LogOf(host, trace)).Idle?
    ensures Disciplined(LogOf(host, trace + [last])) && Explained(host, LogOf(host, trace + [last]))
    ensures Succeeded(Hosted(host, console), trace, last) ==>
              && Replay(LogOf(host, trace + [last])).Idle?
              && Exits(LogOf(host, trace + [last]))
                 == Exits(LogOf(host, trace)) + if last.Executed? then 1 else 0
  {
    LogSnoc(host, trace, last);
    EventKeeps(host, last);
  }

  lemma NextIsIdle(host: Host, console: Console, trace: seq<Event>, last: Event)
    requires Replay(LogOf(host, trace)).Idle? && Exits(LogOf(host, trace)) == |Plans(trace)|
    requires Succeeded(Hosted(host, console), trace, last)
    ensures Replay(LogOf(host, trace + [last])).Idle?
    ensures Exits(LogOf(host, trace + [last])) == |Plans(trace + [last])|
  {
    NextKeeps(host, console, trace, last);
    PlansSnoc(trace, last);
  }

  /** As long as every event succeeded, nothing is registered and every plan had its child. */
  lemma {:induction false} CleanIsIdle(host: Host, console: Console, trace: seq<Event>)
    requires Clean(JudgeOf(Hosted(host, console)), trace)
    ensures Replay(LogOf(host, trace)).Idle?
    ensures Exits(LogOf(host, trace)) == |Plans(trace)|
  {
    if trace != [] {
      var init, last := trace[..|trace| - 1], trace[|trace| - 1];
      CleanInit(JudgeOf(Hosted(host, console)), trace);
      CleanIsIdle(host, console, init);
      JudgeIs(Hosted(host, console), init, last);
      NextIsIdle(host, console, init, last);
      Unsnoc(trace);
    }
  }

  lemma CleanInit(ok: Judge, trace: seq<Event>)
    requires trace != [] && Clean(ok, trace)
    ensures Clean(ok, trace[..|trace| - 1]) && ok(trace[..|trace| - 1], trace[|trace| - 1])
  {
    var init := trace[..|trace| - 1];
    forall i | 0 <= i < |init|
      ensures ok(init[..i], init[i])
    {
      assert init[..i] == trace[..i];
    }
  }

  lemma LastKeeps(host: Host, console: Console, trace: seq<Event>, last: Event)
    requires Clean(JudgeOf(Hosted(host, console)), trace)
    ensures Disciplined(LogOf(host, trace + [last])) && Explained(host, LogOf(host, trace + [last]))
  {
    CleanIsIdle(host, console, trace);
    NextKeeps(host, console, trace, last);
  }

  lemma SettledIsDisciplined(host: Host, console: Console, s: State)
    requires Settled(JudgeOf(Hosted(host, console)), s)
    ensures Disciplined(LogOf(host, s.trace)) && Explained(host, LogOf(host, s.trace))
    ensures !s.status.Failed? ==>
              Replay(LogOf(host, s.trace)).Idle? && Exits(LogOf(host, s.trace)) == |Plans(s.trace)|
  {
    var ok := JudgeOf(Hosted(host, console));
    if Clean(ok, s.trace) {
      CleanIsIdle(host, console, s.trace);
      UnbrokenIsExplained(host, LogOf(host, s.trace));
    } else {
      Unsnoc(s.trace);
      LastKeeps(host, console, s.trace[..|s.trace| - 1], s.trace[|s.trace| - 1]);
    }
  }

  /** Every session on every input: the run keeps the discipline to its end, whatever fails, and a session
      that ends well leaves nothing registered and ran one child per plan. */
  lemma SessionDisciplined(host: Host, console: Console, url: string, input: string)
    ensures var s := SessionOutcome(Hosted(host, console), url, input);
            && Disciplined(LogOf(host, s.trace)) && Explained(host, LogOf(host, s.trace))
            && (s.status.Finished? ==>
                  Replay(LogOf(host, s.trace)).Idle? && Exits(LogOf(host, s.trace)) == |Plans(s.trace)|)
  {
    var env := Hosted(host, console);
    FeederSettles(env, url);
    DriveSettled(JudgeOf(env), Feeder(env, url), INITIAL, input);
    SettledIsDisciplined(host, console, SessionOutcome(env, url, input));
  }
}
