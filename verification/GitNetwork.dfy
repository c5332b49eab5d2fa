/** Credential registration around Git processes (src/cli/git_remote.rs, src/cli/git.rs): when a
registration is live, what runs meanwhile, and how the answer of the HTTPS child is relayed.

What Git, the broker and the operating system answer is an arbitrary fixed function of everything
done before, a `Host`; a run is the log of what was done. */
module GitNetwork {
  import opened Text
  import opened GitPlan
  import opened GitSession
  import opened GitRuns

  datatype Act =
    | Local
    | Registered(nonce: nat)
    | Started(nonce: nat)
    | Exited(nonce: nat)
    | Abandoned(nonce: nat) // the wait for the child failed
    | Unregistered(nonce: nat)

  /** What the acts so far add up to; `Broken` when one of them came at the wrong time. */
  datatype Phase = Idle | Live(nonce: nat) | Running(nonce: nat) | Broken

  /** A child that is no longer waited for keeps running. */
  function After(phase: Phase, act: Act): Phase {
    match act
    case Local => if phase.Idle? then Idle else Broken
    case Registered(n) => if phase.Idle? then Live(n) else Broken
    case Started(n) => if phase == Live(n) then Running(n) else Broken
    case Exited(n) => if phase == Running(n) then Live(n) else Broken
    case Abandoned(n) => if phase == Running(n) then Running(n) else Broken
    case Unregistered(n) => if phase == Live(n) then Idle else Broken
  }

  function Replay(log: seq<Act>): Phase {
    if log == [] then Idle else After(Replay(log[..|log| - 1]), log[|log| - 1])
  }

  /** Children that ran to their end. */
  function Exits(log: seq<Act>): nat {
    if log == [] then 0 else Exits(log[..|log| - 1]) + if log[|log| - 1].Exited? then 1 else 0
  }

  lemma ReplaySnoc(log: seq<Act>, act: Act)
    ensures Replay(log + [act]) == After(Replay(log), act)
    ensures Exits(log + [act]) == Exits(log) + if act.Exited? then 1 else 0
  {
    assert (log + [act])[..|log|] == log;
  }

  lemma {:induction false} BrokenStays(log: seq<Act>, n: nat)
    requires n <= |log| && Replay(log[..n]).Broken?
    ensures Replay(log).Broken?
    decreases |log|
  {
    if n < |log| {
      assert log[..|log| - 1][..n] == log[..n];
      BrokenStays(log[..|log| - 1], n);
    } else {
      assert log[..n] == log;
    }
  }

  /** What it means that a run is not broken: at every moment local Git ran without a registration, no
      second registration was made, and a registration ended only after its own child had. */
  lemma Discipline(log: seq<Act>, n: nat)
    requires !Replay(log).Broken? && n < |log|
    ensures log[n].Local? ==> Replay(log[..n]).Idle?
    ensures log[n].Registered? ==> Replay(log[..n]).Idle?
    ensures log[n].Started? ==> Replay(log[..n]) == Live(log[n].nonce)
    ensures log[n].Unregistered? ==> Replay(log[..n]) == Live(log[n].nonce)
  {
    if Replay(log[..n + 1]).Broken? {
      BrokenStays(log, n + 1);
    }
    assert log[..n + 1][..n] == log[..n];
  }

  /** Registrations made and not yet removed. */
  function Registrations(log: seq<Act>): int {
    if log == [] then 0
    else Registrations(log[..|log| - 1])
         + (match log[|log| - 1] case Registered(_) => 1 case Unregistered(_) => -1 case _ => 0)
  }

  /** Children started and not yet gone. */
  function Children(log: seq<Act>): int {
    if log == [] then 0
    else Children(log[..|log| - 1])
         + (match log[|log| - 1] case Started(_) => 1 case Exited(_) => -1 case _ => 0)
  }

  /** Counted over the whole run: never two registrations, never a child without one, and none of either
      when the run is idle. */
  lemma {:induction false} Balance(log: seq<Act>)
    requires !Replay(log).Broken?
    ensures Registrations(log) == if Replay(log).Idle? then 0 else 1
    ensures Children(log) == if Replay(log).Running? then 1 else 0
  {
    if log != [] {
      Balance(log[..|log| - 1]);
    }
  }

  // ---------------------------------------------------------------- the discipline and its exception

  /** The wait for the last child failed, and its registration was removed all the same. */
  predicate RemovedEarly(log: seq<Act>) {
    && |log| >= 3
    && log[|log| - 1].Unregistered?
    && log[|log| - 2] == Abandoned(log[|log| - 1].nonce)
    && log[|log| - 3] == Started(log[|log| - 1].nonce)
  }

  /** A run breaks in one way only, which is also its last act: so a run without an abandoned child never
      breaks, and nothing at all is done after a break. */
  predicate Disciplined(log: seq<Act>) {
    && (log != [] ==> !Replay(log[..|log| - 1]).Broken?)
    && (Replay(log).Broken? <==> RemovedEarly(log))
  }

  lemma UnbrokenIsDisciplined(log: seq<Act>)
    requires !Replay(log).Broken?
    ensures Disciplined(log)
  {
    if log != [] && Replay(log[..|log| - 1]).Broken? {
      BrokenStays(log, |log| - 1);
      assert false;
    }
    if |log| >= 3 {
      assert log[..|log| - 1][..|log| - 2] == log[..|log| - 2];
      assert log[..|log| - 2][..|log| - 3] == log[..|log| - 3];
    }
  }

  datatype Reply = Refused | Unheard(nonce: nat) | Done(nonce: nat)

  /** How everything outside answers. A request to the broker may take effect and its reply be lost. */
  datatype Host = Host(
    local: seq<Act> -> bool,
    register: seq<Act> -> Reply,
    start: seq<Act> -> bool,
    wait: seq<Act> -> bool,
    success: seq<Act> -> bool,
    unregister: seq<Act> -> Reply,
    advertised: seq<Act> -> bool,
    relayed: seq<Act> -> bool)

  datatype Outcome = Outcome(ok: bool, log: seq<Act>)

  /** A part of a run, from the log it starts with. */
  type Stage = seq<Act> -> Outcome

  function Both(first: Stage, second: Stage): Stage {
    log => if first(log).ok then second(first(log).log) else first(log)
  }

  /** A question that is no act. */
  function Asking(answer: seq<Act> -> bool): Stage {
    log => Outcome(answer(log), log)
  }

  function Skip(): Stage {
    log => Outcome(true, log)
  }

  function Stop(): Stage {
    log => Outcome(false, log)
  }

  function LocalRun(host: Host): Stage {
    log => Outcome(host.local(log), log + [Local])
  }

  function Repeat(stage: Stage, count: nat): Stage {
    if count == 0 then Skip() else Both(Repeat(stage, count - 1), stage)
  }

  /** `count` local commands in a row. */
  function LocalsRun(host: Host, count: nat): Stage {
    Repeat(LocalRun(host), count)
  }

  /** The child: it may not start, may exit with or without success, or the wait for it may fail. */
  function ChildRun(host: Host, log: seq<Act>, nonce: nat): Outcome {
    var started := log + [Started(nonce)];
    if !host.start(log) then Outcome(false, log)
    else if !host.wait(started) then Outcome(false, started + [Abandoned(nonce)])
    else Outcome(host.success(started + [Exited(nonce)]), started + [Exited(nonce)])
  }

  function Release(host: Host, child: Outcome, nonce: nat): Outcome {
    match host.unregister(child.log)
    case Refused => Outcome(false, child.log)
    case Unheard(_) => Outcome(false, child.log + [Unregistered(nonce)])
    case Done(_) => Outcome(child.ok, child.log + [Unregistered(nonce)])
  }

  /** Register, run, unregister: the `transport` closure of `execute` and the core of `network`. */
  function TransportOnce(host: Host, log: seq<Act>): Outcome {
    match host.register(log)
    case Refused => Outcome(false, log)
    case Unheard(nonce) => Outcome(false, log + [Registered(nonce)])
    case Done(nonce) => Release(host, ChildRun(host, log + [Registered(nonce)], nonce), nonce)
  }

  function TransportRun(host: Host): Stage {
    log => TransportOnce(host, log)
  }

  /** `network`: the local questions come before the registration. */
  function NetworkRun(host: Host, plan: RemotePlan): Stage {
    if Valid(plan) then Networking(host, Questions(plan)) else Stop()
  }

  function Questions(plan: RemotePlan): nat {
    if "list" <= plan.phase then 0 else 3
  }

  function Networking(host: Host, questions: nat): Stage {
    Both(Both(LocalsRun(host, questions), TransportRun(host)), Asking(host.relayed))
  }

  /** What is done for one event of a session, as `run` sets it up. */
  function EventRun(host: Host, event: Event): Stage {
    if event.Asked? then LocalRun(host)
    else if event.Executed? then NetworkRun(host, event.plan)
    else Skip()
  }

  /** The events of a session until one fails. */
  function ServeRun(host: Host, trace: seq<Event>): Stage {
    if trace == [] then Skip()
    else Both(ServeRun(host, trace[..|trace| - 1]), EventRun(host, trace[|trace| - 1]))
  }

  /** `execute`: clone, fetch, pull and push. */
  function ExecuteRun(host: Host, command: string): Stage {
    var prepared := LocalsRun(host, if command == "clone" then 5 else 3);
    if command == "push" then Both(Both(prepared, LocalsRun(host, 1)), TransportRun(host))
    else
      var asked := Both(Both(prepared, TransportRun(host)), Asking(host.advertised));
      var fetched := Both(asked, TransportRun(host));
      Both(fetched, LocalsRun(host, if command == "clone" || command == "pull" then 2 else 1))
  }

  /** The wait for the child failed and the registration was removed nevertheless. */
  predicate LosesChild(host: Host, log: seq<Act>) {
    && host.register(log).Done?
    && var nonce := host.register(log).nonce;
       var registered := log + [Registered(nonce)];
       var started := registered + [Started(nonce)];
       && host.start(registered) && !host.wait(started)
       && !host.unregister(started + [Abandoned(nonce)]).Refused?
  }

  /** The log of a transport that loses its child. */
  function LostLog(host: Host, before: seq<Act>): seq<Act>
    requires LosesChild(host, before)
  {
    var nonce := host.register(before).nonce;
    before + [Registered(nonce)] + [Started(nonce)] + [Abandoned(nonce)] + [Unregistered(nonce)]
  }

  /** The last thing done was a transport that lost its child. */
  predicate LostLast(host: Host, log: seq<Act>) {
    && |log| >= 4
    && var before := log[..|log| - 4];
       Replay(before).Idle? && LosesChild(host, before) && log == LostLog(host, before)
  }

  /** The answers of the host that break a run. */
  predicate Explained(host: Host, log: seq<Act>) {
    Replay(log).Broken? <==> LostLast(host, log)
  }

  lemma EndsEarly(log: seq<Act>, nonce: nat)
    ensures RemovedEarly(log + [Started(nonce)] + [Abandoned(nonce)] + [Unregistered(nonce)])
  {
  }

  lemma UnbrokenIsExplained(host: Host, log: seq<Act>)
    requires !Replay(log).Broken?
    ensures Disciplined(log) && Explained(host, log)
  {
    UnbrokenIsDisciplined(log);
    if LostLast(host, log) {
      var before := log[..|log| - 4];
      EndsEarly(before + [Registered(host.register(before).nonce)], host.register(before).nonce);
      assert false;
    }
  }

  lemma LostIsLast(host: Host, before: seq<Act>)
    requires Replay(before).Idle? && LosesChild(host, before)
    ensures LostLast(host, LostLog(host, before))
  {
    assert LostLog(host, before)[..|LostLog(host, before)| - 4] == before;
  }

  // ---------------------------------------------------------------- every run keeps it

  /** From an idle log: only additions, the discipline whatever happens, and idle again on success, after
      `children` more children that ran to their end. */
  ghost predicate KeptBy(host: Host, log: seq<Act>, o: Outcome, children: nat) {
    Replay(log).Idle? ==>
      && log <= o.log && Disciplined(o.log) && Explained(host, o.log)
      && (o.ok ==> Replay(o.log).Idle? && Exits(o.log) == Exits(log) + children)
  }

  ghost predicate Keeps(host: Host, stage: Stage, children: nat) {
    forall log :: KeptBy(host, log, stage(log), children)
  }

  lemma BothKeep(host: Host, first: Stage, m: nat, second: Stage, n: nat)
    requires Keeps(host, first, m) && Keeps(host, second, n)
    ensures Keeps(host, Both(first, second), m + n)
  {
    forall log
      ensures KeptBy(host, log, Both(first, second)(log), m + n)
    {
      assert KeptBy(host, log, first(log), m);
      assert KeptBy(host, first(log).log, second(first(log).log), n);
    }
  }

  lemma SkipKeeps(host: Host)
    ensures Keeps(host, Skip(), 0)
    ensures forall n: nat :: Keeps(host, Stop(), n)
  {
    forall log
      ensures KeptBy(host, log, Skip()(log), 0)
    {
      if Replay(log).Idle? {
        UnbrokenIsExplained(host, log);
      }
    }
    forall n: nat
      ensures Keeps(host, Stop(), n)
    {
      forall log
        ensures KeptBy(host, log, Stop()(log), n)
      {
        if Replay(log).Idle? {
          UnbrokenIsExplained(host, log);
        }
      }
    }
  }

  lemma AskingKeeps(host: Host, answer: seq<Act> -> bool)
    ensures Keeps(host, Asking(answer), 0)
  {
    forall log
      ensures KeptBy(host, log, Asking(answer)(log), 0)
    {
      if Replay(log).Idle? {
        UnbrokenIsExplained(host, log);
      }
    }
  }

  lemma {:induction false} RepeatKeeps(host: Host, stage: Stage, count: nat)
    requires Keeps(host, stage, 0)
    ensures Keeps(host, Repeat(stage, count), 0)
  {
    if count == 0 {
      SkipKeeps(host);
    } else {
      RepeatKeeps(host, stage, count - 1);
      BothKeep(host, Repeat(stage, count - 1), 0, stage, 0);
    }
  }

  lemma LocalsKeep(host: Host, count: nat)
    ensures Keeps(host, LocalsRun(host, count), 0)
  {
    LocalKeeps(host);
    RepeatKeeps(host, LocalRun(host), count);
  }

  lemma LocalKeeps(host: Host)
    ensures Keeps(host, LocalRun(host), 0)
  {
    forall log
      ensures KeptBy(host, log, LocalRun(host)(log), 0)
    {
      if Replay(log).Idle? {
        ReplaySnoc(log, Local);
        UnbrokenIsExplained(host, log + [Local]);
      }
    }
  }

  /** The phase after the child: live again, or running on when it is no longer waited for. */
  lemma ChildPhase(host: Host, log: seq<Act>, nonce: nat)
    requires Replay(log) == Live(nonce)
    ensures var child := ChildRun(host, log, nonce);
            var lost := host.start(log) && !host.wait(log + [Started(nonce)]);
            && log <= child.log
            && Replay(child.log) == (if lost then Running(nonce) else Live(nonce))
            && (lost ==> child.log == log + [Started(nonce)] + [Abandoned(nonce)] && !child.ok)
            && (child.ok ==> Exits(child.log) == Exits(log) + 1)
  {
    var started := log + [Started(nonce)];
    ReplaySnoc(log, Started(nonce));
    ReplaySnoc(started, Abandoned(nonce));
    ReplaySnoc(started, Exited(nonce));
  }

  /** Exactly when one transport breaks the discipline. */
  lemma TransportBrokenIff(host: Host, log: seq<Act>)
    requires Replay(log).Idle?
    ensures var o := TransportOnce(host, log);
            && (Replay(o.log).Broken? <==> LosesChild(host, log))
            && log <= o.log && Disciplined(o.log) && Explained(host, o.log)
            && (o.ok ==> Replay(o.log).Idle? && Exits(o.log) == Exits(log) + 1)
  {
    TransportPhase(host, log);
    if LosesChild(host, log) {
      LostIsLast(host, log);
    } else {
      UnbrokenIsExplained(host, TransportOnce(host, log).log);
    }
  }

  lemma TransportPhase(host: Host, log: seq<Act>)
    requires Replay(log).Idle?
    ensures var o := TransportOnce(host, log);
            && (Replay(o.log).Broken? <==> LosesChild(host, log))
            && (LosesChild(host, log) ==> o.log == LostLog(host, log))
            && log <= o.log && Disciplined(o.log)
            && (o.ok ==> Replay(o.log).Idle? && Exits(o.log) == Exits(log) + 1)
  {
    if host.register(log).Refused? {
      UnbrokenIsDisciplined(log);
    } else {
      var nonce := host.register(log).nonce;
      var registered := log + [Registered(nonce)];
      ReplaySnoc(log, Registered(nonce));
      if host.register(log).Unheard? {
        UnbrokenIsDisciplined(registered);
      } else {
        ReleaseBrokenIff(host, registered, nonce);
      }
    }
  }

  lemma ReleaseBrokenIff(host: Host, log: seq<Act>, nonce: nat)
    requires Replay(log) == Live(nonce)
    ensures var child := ChildRun(host, log, nonce);
            var o := Release(host, child, nonce);
            && (Replay(o.log).Broken?
                <==> && host.start(log) && !host.wait(log + [Started(nonce)])
                     && !host.unregister(log + [Started(nonce)] + [Abandoned(nonce)]).Refused?)
            && (Replay(o.log).Broken? ==>
                  o.log == log + [Started(nonce)] + [Abandoned(nonce)] + [Unregistered(nonce)])
            && log <= o.log && Disciplined(o.log)
            && (o.ok ==> Replay(o.log).Idle? && Exits(o.log) == Exits(log) + 1)
  {
    var child := ChildRun(host, log, nonce);
    ChildPhase(host, log, nonce);
    ReleasePhase(host, child, nonce);
    if Replay(Release(host, child, nonce).log).Broken? {
      EndsEarly(log, nonce);
    }
  }

  /** What releasing does in each of the two phases in which a child leaves a registration. */
  lemma ReleasePhase(host: Host, child: Outcome, nonce: nat)
    requires Replay(child.log) == Live(nonce) || (Replay(child.log) == Running(nonce) && !child.ok)
    ensures var o := Release(host, child, nonce);
            && child.log <= o.log
            && (Replay(o.log).Broken?
                <==> Replay(child.log).Running? && !host.unregister(child.log).Refused?)
            && (Replay(o.log).Broken? ==> o.log == child.log + [Unregistered(nonce)])
            && (o.log != [] ==> !Replay(o.log[..|o.log| - 1]).Broken?)
            && (!Replay(o.log).Broken? ==> Disciplined(o.log))
            && (o.ok ==> child.ok && Replay(o.log).Idle? && Exits(o.log) == Exits(child.log))
  {
    UnbrokenIsDisciplined(child.log);
    Unregistering(child.log, nonce);
  }

  lemma Unregistering(log: seq<Act>, nonce: nat)
    requires Replay(log) == Live(nonce) || Replay(log) == Running(nonce)
    ensures var after := log + [Unregistered(nonce)];
            && Replay(after) == (if Replay(log).Live? then Idle else Broken)
            && after[..|after| - 1] == log && Exits(after) == Exits(log)
            && (Replay(log).Live? ==> Disciplined(after))
  {
    ReplaySnoc(log, Unregistered(nonce));
    if Replay(log).Live? {
      UnbrokenIsDisciplined(log + [Unregistered(nonce)]);
    }
  }

  lemma TransportKeeps(host: Host)
    ensures Keeps(host, TransportRun(host), 1)
  {
    forall log
      ensures KeptBy(host, log, TransportRun(host)(log), 1)
    {
      if Replay(log).Idle? {
        TransportBrokenIff(host, log);
      }
    }
  }

  lemma NetworkingKeeps(host: Host, questions: nat)
    ensures Keeps(host, Networking(host, questions), 1)
  {
    LocalsKeep(host, questions);
    TransportKeeps(host);
    AskingKeeps(host, host.relayed);
    BothKeep(host, LocalsRun(host, questions), 0, TransportRun(host), 1);
    BothKeep(host, Both(LocalsRun(host, questions), TransportRun(host)), 1, Asking(host.relayed), 0);
  }

  lemma NetworkKeeps(host: Host, plan: RemotePlan)
    ensures Keeps(host, NetworkRun(host, plan), 1)
  {
    NetworkingKeeps(host, Questions(plan));
    SkipKeeps(host);
  }

  function Expected(event: Event): nat {
    if event.Executed? then 1 else 0
  }

  lemma EventKeeps(host: Host, event: Event)
    ensures Keeps(host, EventRun(host, event), Expected(event))
  {
    if event.Asked? {
      LocalKeeps(host);
    } else if event.Executed? {
      NetworkKeeps(host, event.plan);
    } else {
      SkipKeeps(host);
    }
  }

  /** Whole sessions. */
  lemma {:induction false} ServeKeeps(host: Host, trace: seq<Event>)
    ensures Keeps(host, ServeRun(host, trace), |Plans(trace)|)
  {
    if trace == [] {
      SkipKeeps(host);
    } else {
      var last := trace[|trace| - 1];
      var init := trace[..|trace| - 1];
      ServeKeeps(host, init);
      EventKeeps(host, last);
      BothKeep(host, ServeRun(host, init), |Plans(init)|, EventRun(host, last), Expected(last));
    }
  }

  /** Whole runs of clone, fetch, pull and push. */
  lemma ExecuteKeeps(host: Host, command: string)
    ensures Keeps(host, ExecuteRun(host, command), if command == "push" then 1 else 2)
  {
    var count := if command == "clone" then 5 else 3;
    var prepared := LocalsRun(host, count);
    LocalsKeep(host, count);
    TransportKeeps(host);
    if command == "push" {
      LocalsKeep(host, 1);
      BothKeep(host, prepared, 0, LocalsRun(host, 1), 0);
      BothKeep(host, Both(prepared, LocalsRun(host, 1)), 0, TransportRun(host), 1);
    } else {
      FetchKeeps(host, prepared, if command == "clone" || command == "pull" then 2 else 1);
    }
  }

  lemma FetchKeeps(host: Host, prepared: Stage, updates: nat)
    requires Keeps(host, prepared, 0)
    ensures var asked := Both(Both(prepared, TransportRun(host)), Asking(host.advertised));
            Keeps(host, Both(Both(asked, TransportRun(host)), LocalsRun(host, updates)), 2)
  {
    TransportKeeps(host);
    AskingKeeps(host, host.advertised);
    LocalsKeep(host, updates);
    BothKeep(host, prepared, 0, TransportRun(host), 1);
    BothKeep(host, Both(prepared, TransportRun(host)), 1, Asking(host.advertised), 0);
    var asked := Both(Both(prepared, TransportRun(host)), Asking(host.advertised));
    BothKeep(host, asked, 1, TransportRun(host), 1);
    BothKeep(host, Both(asked, TransportRun(host)), 2, LocalsRun(host, updates), 0);
  }

  // ---------------------------------------------------------------- what success and failure mean

  /** The host answered act `last`, done after `before`, as a success needs: a child has to exit, and to
      exit with success. */
  predicate WentWell(host: Host, before: seq<Act>, last: Act) {
    match last
    case Local => host.local(before)
    case Registered(n) => host.register(before) == Done(n)
    case Started(_) => host.start(before)
    case Exited(_) => host.wait(before) && host.success(before + [last])
    case Abandoned(_) => false
    case Unregistered(_) => host.unregister(before).Done?
  }

  /** Everything done from number `from` on went well. */
  ghost predicate AllWell(host: Host, log: seq<Act>, from: nat) {
    forall i :: from <= i < |log| ==> WentWell(host, log[..i], log[i])
  }

  lemma AllWellSnoc(host: Host, log: seq<Act>, from: nat, last: Act)
    requires AllWell(host, log, from) && WentWell(host, log, last) && from <= |log|
    ensures AllWell(host, log + [last], from)
  {
    forall i | from <= i < |log| + 1
      ensures WentWell(host, (log + [last])[..i], (log + [last])[i])
    {
      assert (log + [last])[..i] == log[..i];
      if i == |log| {
        assert log[..i] == log;
      }
    }
  }

  lemma AllWellChain(host: Host, log: seq<Act>, middle: seq<Act>, from: nat)
    requires middle <= log && AllWell(host, middle, from) && AllWell(host, log, |middle|)
    ensures AllWell(host, log, from)
  {
    forall i | from <= i < |log|
      ensures WentWell(host, log[..i], log[i])
    {
      if i < |middle| {
        assert middle[..i] == log[..i] && middle[i] == log[i];
      }
    }
  }

  /** A success in which everything went well. */
  ghost predicate EarnedBy(host: Host, log: seq<Act>, o: Outcome) {
    log <= o.log && (o.ok ==> AllWell(host, o.log, |log|))
  }

  ghost predicate Earns(host: Host, stage: Stage) {
    forall log :: EarnedBy(host, log, stage(log))
  }

  lemma BothEarn(host: Host, first: Stage, second: Stage)
    requires Earns(host, first) && Earns(host, second)
    ensures Earns(host, Both(first, second))
  {
    forall log
      ensures EarnedBy(host, log, Both(first, second)(log))
    {
      assert EarnedBy(host, log, first(log));
      assert EarnedBy(host, first(log).log, second(first(log).log));
      if first(log).ok && second(first(log).log).ok {
        AllWellChain(host, second(first(log).log).log, first(log).log, |log|);
      }
    }
  }

  lemma SimpleEarn(host: Host, answer: seq<Act> -> bool)
    ensures Earns(host, Skip()) && Earns(host, Stop()) && Earns(host, Asking(answer)) && Earns(host, LocalRun(host))
  {
    forall log
      ensures EarnedBy(host, log, Skip()(log)) && EarnedBy(host, log, Stop()(log))
      ensures EarnedBy(host, log, Asking(answer)(log)) && EarnedBy(host, log, LocalRun(host)(log))
    {
      if host.local(log) {
        AllWellSnoc(host, log, |log|, Local);
      }
    }
  }

  lemma {:induction false} RepeatEarns(host: Host, stage: Stage, count: nat)
    requires Earns(host, stage)
    ensures Earns(host, Repeat(stage, count))
  {
    if count == 0 {
      SimpleEarn(host, host.local);
    } else {
      RepeatEarns(host, stage, count - 1);
      BothEarn(host, Repeat(stage, count - 1), stage);
    }
  }

  /** Exactly when one transport succeeds, and all that it has done then. */
  lemma TransportOkIff(host: Host, log: seq<Act>)
    ensures var o := TransportOnce(host, log);
            o.ok <==>
              && host.register(log).Done?
              && var n := host.register(log).nonce;
                 var registered := log + [Registered(n)];
                 var started := registered + [Started(n)];
                 var exited := started + [Exited(n)];
                 && host.start(registered) && host.wait(started) && host.success(exited)
                 && host.unregister(exited).Done?
                 && o.log == exited + [Unregistered(n)]
  {
  }

  lemma TransportEarns(host: Host)
    ensures Earns(host, TransportRun(host))
  {
    forall log
      ensures EarnedBy(host, log, TransportRun(host)(log))
    {
      TransportOkIff(host, log);
      TransportExtends(host, log);
      if TransportOnce(host, log).ok {
        var n := host.register(log).nonce;
        var registered := log + [Registered(n)];
        var started := registered + [Started(n)];
        var exited := started + [Exited(n)];
        AllWellSnoc(host, log, |log|, Registered(n));
        AllWellSnoc(host, registered, |log|, Started(n));
        AllWellSnoc(host, started, |log|, Exited(n));
        AllWellSnoc(host, exited, |log|, Unregistered(n));
      }
    }
  }

  lemma TransportExtends(host: Host, log: seq<Act>)
    ensures log <= TransportOnce(host, log).log
  {
  }

  /** No plan is answered with success unless every act on its behalf went well. */
  lemma NetworkEarns(host: Host, plan: RemotePlan)
    ensures Earns(host, NetworkRun(host, plan))
  {
    SimpleEarn(host, host.relayed);
    RepeatEarns(host, LocalRun(host), Questions(plan));
    TransportEarns(host);
    BothEarn(host, LocalsRun(host, Questions(plan)), TransportRun(host));
    BothEarn(host, Both(LocalsRun(host, Questions(plan)), TransportRun(host)), Asking(host.relayed));
  }

  /** No clone, fetch, pull or push succeeds unless every act went well: a local command that fails, or a
      child that exits without success, makes it fail. */
  lemma ExecuteEarns(host: Host, command: string)
    ensures Earns(host, ExecuteRun(host, command))
  {
    SimpleEarn(host, host.advertised);
    TransportEarns(host);
    var prepared := LocalsRun(host, if command == "clone" then 5 else 3);
    RepeatEarns(host, LocalRun(host), if command == "clone" then 5 else 3);
    if command == "push" {
      RepeatEarns(host, LocalRun(host), 1);
      BothEarn(host, prepared, LocalsRun(host, 1));
      BothEarn(host, Both(prepared, LocalsRun(host, 1)), TransportRun(host));
    } else {
      FetchEarns(host, prepared, if command == "clone" || command == "pull" then 2 else 1);
    }
  }

  lemma FetchEarns(host: Host, prepared: Stage, updates: nat)
    requires Earns(host, prepared)
    ensures var asked := Both(Both(prepared, TransportRun(host)), Asking(host.advertised));
            Earns(host, Both(Both(asked, TransportRun(host)), LocalsRun(host, updates)))
  {
    SimpleEarn(host, host.advertised);
    TransportEarns(host);
    RepeatEarns(host, LocalRun(host), updates);
    BothEarn(host, prepared, TransportRun(host));
    BothEarn(host, Both(prepared, TransportRun(host)), Asking(host.advertised));
    var asked := Both(Both(prepared, TransportRun(host)), Asking(host.advertised));
    BothEarn(host, asked, TransportRun(host));
    BothEarn(host, Both(asked, TransportRun(host)), LocalsRun(host, updates));
  }

  // ---------------------------------------------------------------- what a success has done

  function Locals(count: nat): seq<Act> {
    seq(count, _ => Local)
  }

  /** A child from its registration to the end of it. */
  function Transported(nonce: nat): seq<Act> {
    [Registered(nonce)] + [Started(nonce)] + [Exited(nonce)] + [Unregistered(nonce)]
  }

  lemma {:induction false} LocalsActs(host: Host, count: nat, log: seq<Act>)
    requires LocalsRun(host, count)(log).ok
    ensures LocalsRun(host, count)(log).log == log + Locals(count)
  {
    if count > 0 {
      LocalsActs(host, count - 1, log);
      assert Locals(count) == Locals(count - 1) + [Local];
    }
  }

  lemma TransportActs(host: Host, log: seq<Act>) returns (nonce: nat)
    requires TransportOnce(host, log).ok
    ensures TransportOnce(host, log).log == log + Transported(nonce)
  {
    TransportOkIff(host, log);
    nonce := host.register(log).nonce;
  }

  /** A plan that is answered with success has asked three local questions unless it only lists, and then
      run one child. */
  lemma NetworkActs(host: Host, plan: RemotePlan, log: seq<Act>) returns (nonce: nat)
    requires NetworkRun(host, plan)(log).ok
    ensures NetworkRun(host, plan)(log).log
            == log + Locals(if plan.phase in {"list", "list for-push"} then 0 else 3) + Transported(nonce)
  {
    var count := Questions(plan);
    PhaseQuestions(plan);
    LocalsActs(host, count, log);
    nonce := TransportActs(host, log + Locals(count));
  }

  lemma PhaseQuestions(plan: RemotePlan)
    requires Valid(plan)
    ensures Questions(plan) == if plan.phase in {"list", "list for-push"} then 0 else 3
  {
    assert "fetch"[0] == 'f' && "push"[0] == 'p' && "list"[0] == 'l';
  }

  /** A push that succeeds has run four local commands and one child. */
  lemma PushActs(host: Host, log: seq<Act>) returns (nonce: nat)
    requires ExecuteRun(host, "push")(log).ok
    ensures ExecuteRun(host, "push")(log).log == log + Locals(4) + Transported(nonce)
  {
    LocalsActs(host, 3, log);
    LocalsActs(host, 1, log + Locals(3));
    assert log + Locals(3) + Locals(1) == log + Locals(4);
    nonce := TransportActs(host, log + Locals(4));
  }

  /** Any other operation that succeeds has run its local commands, one child that lists, one that fetches,
      and the local commands that update the repository. */
  lemma FetchActs(host: Host, command: string, log: seq<Act>) returns (listing: nat, fetching: nat)
    requires command != "push" && ExecuteRun(host, command)(log).ok
    ensures ExecuteRun(host, command)(log).log
            == log + Locals(if command == "clone" then 5 else 3) + Transported(listing) + Transported(fetching)
               + Locals(if command == "clone" || command == "pull" then 2 else 1)
  {
    var before := if command == "clone" then 5 else 3;
    LocalsActs(host, before, log);
    listing := TransportActs(host, log + Locals(before));
    fetching := TransportActs(host, log + Locals(before) + Transported(listing));
    LocalsActs(host, if command == "clone" || command == "pull" then 2 else 1,
               log + Locals(before) + Transported(listing) + Transported(fetching));
  }

  /** A host that answers everything well. */
  ghost predicate Willing(host: Host) {
    forall log ::
      && host.local(log) && host.register(log).Done? && host.start(log) && host.wait(log)
      && host.success(log) && host.unregister(log).Done? && host.advertised(log) && host.relayed(log)
  }

  ghost predicate Works(stage: Stage) {
    forall log :: stage(log).ok
  }

  lemma {:induction false} RepeatWorks(stage: Stage, count: nat)
    requires Works(stage)
    ensures Works(Repeat(stage, count))
  {
    if count > 0 {
      RepeatWorks(stage, count - 1);
    }
  }

  lemma TransportWorks(host: Host)
    requires Willing(host)
    ensures Works(TransportRun(host)) && forall n: nat :: Works(LocalsRun(host, n))
  {
    forall n: nat
      ensures Works(LocalsRun(host, n))
    {
      RepeatWorks(LocalRun(host), n);
    }
    forall log
      ensures TransportRun(host)(log).ok
    {
      assert host.register(log).Done?;
      var n := host.register(log).nonce;
      var registered := log + [Registered(n)];
      assert host.start(registered);
      assert host.wait(registered + [Started(n)]);
      assert host.success(registered + [Started(n)] + [Exited(n)]);
      assert host.unregister(registered + [Started(n)] + [Exited(n)]).Done?;
    }
  }

  /** On such a host every operation succeeds, and so does every valid plan. */
  lemma WillingSucceeds(host: Host, command: string, plan: RemotePlan)
    requires Willing(host)
    ensures Works(ExecuteRun(host, command))
    ensures Valid(plan) ==> Works(NetworkRun(host, plan))
  {
    TransportWorks(host);
    WillingNetwork(host, Questions(plan));
  }

  lemma WillingNetwork(host: Host, questions: nat)
    requires Willing(host)
    ensures Works(Networking(host, questions))
  {
    TransportWorks(host);
  }

  /** A host on which only the wait fails. */
  function Impatient(): Host {
    Host(log => true, log => Done(0), log => true, log => false, log => true, log => Done(0),
         log => true, log => true)
  }

  /** Such a run exists: the registration goes away while the child is running. */
  lemma LostChildRun()
    ensures TransportOnce(Impatient(), []).log
            == [Registered(0), Started(0), Abandoned(0), Unregistered(0)]
    ensures Replay(TransportOnce(Impatient(), []).log).Broken?
    ensures !TransportOnce(Impatient(), []).ok
  {
    TransportBrokenIff(Impatient(), []);
  }

  // ---------------------------------------------------------------- the code

  class Desk {
    const host: Host
    var log: seq<Act>

    constructor (host: Host)
      ensures this.host == host && log == []
    {
      this.host := host;
      log := [];
    }

    method LocalGit() returns (ok: bool)
      modifies this
      ensures Outcome(ok, log) == LocalRun(host)(old(log))
    {
      ok := host.local(log);
      log := log + [Local];
    }

    method Locals(count: nat) returns (ok: bool)
      modifies this
      ensures Outcome(ok, log) == LocalsRun(host, count)(old(log))
    {
      ok := true;
      for i := 0 to count
        invariant ok && Outcome(true, log) == LocalsRun(host, i)(old(log))
      {
        ok := LocalGit();
        if !ok {
          RepeatStops(LocalRun(host), i + 1, count, old(log));
          return;
        }
      }
    }

    method Child(nonce: nat) returns (ok: bool)
      modifies this
      ensures Outcome(ok, log) == ChildRun(host, old(log), nonce)
    {
      var started := host.start(log);
      if !started {
        return false;
      }
      log := log + [Started(nonce)];
      var waited := host.wait(log);
      if !waited {
        log := log + [Abandoned(nonce)];
        return false;
      }
      log := log + [Exited(nonce)];
      ok := host.success(log);
    }

    /** The `transport` closure: the discipline holds unless this run loses its child. */
    method Transport() returns (ok: bool)
      requires Replay(log).Idle?
      modifies this
      ensures Outcome(ok, log) == TransportOnce(host, old(log))
      ensures Replay(log).Broken? <==> LosesChild(host, old(log))
      ensures old(log) <= log && Disciplined(log) && Explained(host, log)
      ensures ok ==> Replay(log).Idle? && Exits(log) == old(Exits(log)) + 1 && AllWell(host, log, |old(log)|)
    {
      TransportBrokenIff(host, log);
      TransportEarns(host);
      assert EarnedBy(host, log, TransportRun(host)(log));
      ok := RegisteredChild();
    }

    method RegisteredChild() returns (ok: bool)
      modifies this
      ensures Outcome(ok, log) == TransportOnce(host, old(log))
    {
      var reply := host.register(log);
      if reply.Refused? {
        return false;
      }
      log := log + [Registered(reply.nonce)];
      if reply.Unheard? {
        return false;
      }
      ok := Child(reply.nonce);
      var released := host.unregister(log);
      if !released.Refused? {
        log := log + [Unregistered(reply.nonce)];
      }
      ok := ok && released.Done?;
    }

    /** `network`. */
    method Network(plan: RemotePlan) returns (ok: bool)
      requires Replay(log).Idle?
      modifies this
      ensures Outcome(ok, log) == NetworkRun(host, plan)(old(log))
      ensures old(log) <= log && Disciplined(log) && Explained(host, log)
      ensures ok ==> Valid(plan) && Replay(log).Idle? && Exits(log) == old(Exits(log)) + 1
      ensures !Valid(plan) ==> !ok && log == old(log)
    {
      ok := Validate(plan);
      if ok {
        ok := AskAndTransport(Questions(plan));
      } else {
        UnbrokenIsExplained(host, log);
      }
    }

    method AskAndTransport(questions: nat) returns (ok: bool)
      requires Replay(log).Idle?
      modifies this
      ensures Outcome(ok, log) == Networking(host, questions)(old(log))
      ensures old(log) <= log && Disciplined(log) && Explained(host, log)
      ensures ok ==> Replay(log).Idle? && Exits(log) == old(Exits(log)) + 1
    {
      NetworkingKeeps(host, questions);
      LocalsKeep(host, questions);
      ok := Locals(questions);
      if ok {
        ok := Transport();
        if ok {
          ok := host.relayed(log);
        }
      }
    }

    /** The events of a session as `run` sets it up: `resolve` is local Git, `execute` is `network`, and
        the first failure ends it. */
    method Serve(trace: seq<Event>) returns (ok: bool)
      requires Replay(log).Idle?
      modifies this
      ensures Outcome(ok, log) == ServeRun(host, trace)(old(log))
      ensures old(log) <= log && Disciplined(log) && Explained(host, log)
      ensures ok ==> Replay(log).Idle? && Exits(log) == old(Exits(log)) + |Plans(trace)|
    {
      ServeKeeps(host, trace);
      ok := true;
      for i := 0 to |trace|
        invariant ok && Replay(log).Idle? && Outcome(true, log) == ServeRun(host, trace[..i])(old(log))
      {
        ServeNext(host, trace, i, old(log));
        ok := ServeEvent(trace[i]);
        if !ok {
          ServeStops(host, trace, i + 1, old(log));
          return;
        }
      }
      assert trace[..|trace|] == trace;
    }

    method ServeEvent(event: Event) returns (ok: bool)
      requires Replay(log).Idle?
      modifies this
      ensures Outcome(ok, log) == EventRun(host, event)(old(log))
      ensures ok ==> Replay(log).Idle?
    {
      EventKeeps(host, event);
      if event.Asked? {
        ok := LocalGit();
      } else if event.Executed? {
        ok := Network(event.plan);
      } else {
        ok := true;
      }
    }

    /** `execute`. */
    method Execute(command: string) returns (ok: bool)
      requires Replay(log).Idle?
      modifies this
      ensures Outcome(ok, log) == ExecuteRun(host, command)(old(log))
      ensures old(log) <= log && Disciplined(log) && Explained(host, log)
      ensures ok ==> Replay(log).Idle? && Exits(log) == old(Exits(log)) + if command == "push" then 1 else 2
      ensures ok ==> AllWell(host, log, |old(log)|)
    {
      ExecuteKeeps(host, command);
      ExecuteEarns(host, command);
      assert EarnedBy(host, log, ExecuteRun(host, command)(log));
      var count := if command == "clone" then 5 else 3;
      LocalsKeep(host, count);
      ok := Locals(count);
      if !ok {
        return;
      }
      if command == "push" {
        LocalsKeep(host, 1);
        ok := Locals(1);
        if ok {
          ok := Transport();
        }
        return;
      }
      ok := Transport();
      if !ok {
        return;
      }
      ok := host.advertised(log);
      if !ok {
        return;
      }
      ok := Transport();
      if ok {
        ok := Locals(if command == "clone" || command == "pull" then 2 else 1);
      }
    }
  }

  lemma {:induction false} RepeatStops(stage: Stage, n: nat, count: nat, log: seq<Act>)
    requires n <= count && !Repeat(stage, n)(log).ok
    ensures Repeat(stage, count)(log) == Repeat(stage, n)(log)
    decreases count
  {
    if n < count {
      RepeatStops(stage, n, count - 1, log);
    }
  }

  lemma ServeNext(host: Host, trace: seq<Event>, i: nat, log: seq<Act>)
    requires i < |trace| && ServeRun(host, trace[..i])(log).ok
    ensures ServeRun(host, trace[..i + 1])(log) == EventRun(host, trace[i])(ServeRun(host, trace[..i])(log).log)
  {
    assert trace[..i + 1][..i] == trace[..i];
  }

  lemma {:induction false} ServeStops(host: Host, trace: seq<Event>, n: nat, log: seq<Act>)
    requires n <= |trace| && !ServeRun(host, trace[..n])(log).ok
    ensures ServeRun(host, trace)(log) == ServeRun(host, trace[..n])(log)
    decreases |trace|
  {
    if n < |trace| {
      assert trace[..|trace| - 1][..n] == trace[..n];
      ServeStops(host, trace[..|trace| - 1], n, log);
    } else {
      assert trace[..n] == trace;
    }
  }

  // ---------------------------------------------------------------- the answer of the child

  /** `transport_response`: the answer after exactly one acknowledgement per option and lease is relayed,
      also when the child failed; without all of them nothing is. */
  method TransportResponse(plan: RemotePlan, stdout: string, success: bool)
    returns (ok: bool, written: Option<string>)
    ensures written == Acknowledged(|plan.options| + |plan.leases|, stdout)
    ensures forall rest :: written == Some(rest)
              <==> stdout == Acknowledgements(|plan.options| + |plan.leases|) + rest
    ensures ok <==> written.Some? && success
  {
    var response := stdout;
    var count := |plan.options| + |plan.leases|;
    forall rest
      ensures Acknowledged(count, stdout) == Some(rest) <==> stdout == Acknowledgements(count) + rest
    {
      AcknowledgedIff(count, stdout, rest);
    }
    for i := 0 to count
      invariant Acknowledged(count, stdout) == Acknowledged(count - i, response)
    {
      if !("ok\n" <= response) {
        return false, None;
      }
      response := response[3..];
    }
    ok, written := success, Some(response);
  }
}
