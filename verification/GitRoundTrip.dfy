/** The session reads back exactly the plan that `Payload` printed, so the lines shown to the approver
determine everything that the child receives. */
module GitRoundTrip {
  import opened Text
  import opened GitPlan
  import opened GitSession
  import opened GitRuns

  // ---------------------------------------------------------------- framing a payload

  function Terminated(lines: seq<string>): string {
    if lines == [] then "" else lines[0] + "\n" + Terminated(lines[1..])
  }

  lemma {:induction false} JoinTerminated(lines: seq<string>)
    requires lines != []
    ensures Join(lines, "\n") + "\n" == Terminated(lines)
  {
    if |lines| > 1 {
      JoinTerminated(lines[1..]);
      Associate(lines[0] + "\n", Join(lines[1..], "\n"), "\n");
    } else {
      assert lines[0] + "\n" + "" == lines[0] + "\n";
    }
  }

  lemma {:induction false} DriveTerminated(feed: Machine, s: State, lines: seq<string>, rest: string)
    requires Orderly(feed) && forall line :: line in lines ==> Framable(line)
    ensures Drive(feed, s, Terminated(lines) + rest) == Drive(feed, RunFrom(feed, s, lines), rest)
    decreases |lines|
  {
    if lines == [] {
      assert "" + rest == rest;
    } else {
      var line, tail := lines[0], lines[1..];
      assert lines == [line] + tail;
      RunFromCons(feed, s, line, tail);
      DriveTerminated(feed, feed(s, line), tail, rest);
      DriveLine(feed, s, line, Terminated(tail) + rest);
      Associate(line + "\n", Terminated(tail), rest);
    }
  }

  lemma DriveLine(feed: Machine, s: State, line: string, rest: string)
    requires Orderly(feed) && Framable(line)
    ensures Drive(feed, s, line + "\n" + rest) == Drive(feed, feed(s, line), rest)
  {
    ReadLineAccepts(line, rest);
  }

  lemma PayloadFrames(plan: RemotePlan, line: string)
    requires Valid(plan) && line in PayloadLines(plan)
    ensures Framable(line)
  {
    PayloadLinesPlain(plan, line);
    PlainLineIsWireLine(line);
    AsciiIsUtf8(line);
  }

  lemma PayloadText(plan: RemotePlan)
    requires plan.commands != []
    ensures Payload(plan) == Terminated(PayloadLines(plan)) + "\n\n"
  {
    var text := Join(PayloadLines(plan), "\n");
    JoinTerminated(PayloadLines(plan));
    Associate(text, "\n", "\n\n");
    assert "\n" + "\n\n" == "\n\n\n";
  }

  // ---------------------------------------------------------------- the environment

  ghost predicate Writes(env: Environment) {
    forall t, text :: env.write(t, text)
  }

  /** Writes and executions succeed, and an object ID resolves to itself. */
  ghost predicate Cooperative(env: Environment) {
    && Writes(env)
    && (forall t, oid :: ValidOid(oid) ==> env.resolve(t, oid) == Some(oid))
    && (forall t, plan :: env.execute(t, plan))
  }

  /** No plan among these events. */
  predicate Quiet(trace: seq<Event>) {
    forall i :: 0 <= i < |trace| ==> !trace[i].Executed?
  }

  /** No plan yet, and `count` acknowledgements written. */
  predicate Acked(trace: seq<Event>, count: nat) {
    Quiet(trace) && Output(trace) == Acknowledgements(count)
  }

  lemma AckedStart()
    ensures Acked([], 0)
  {
  }

  lemma AckedNext(trace: seq<Event>, count: nat)
    requires Acked(trace, count)
    ensures Acked(trace + [Wrote("ok\n")], count + 1)
  {
    OutputSnoc(trace, Wrote("ok\n"));
    OneMoreAcknowledged(count);
  }

  /** Questions put to the resolver write nothing. */
  lemma {:induction false} AckedExtends(a: seq<Event>, b: seq<Event>, count: nat)
    requires a <= b && Acked(a, count) && forall i :: |a| <= i < |b| ==> b[i].Asked?
    ensures Acked(b, count)
    decreases |b|
  {
    if |a| == |b| {
      assert a == b;
    } else {
      var init, last := b[..|b| - 1], b[|b| - 1];
      AckedExtends(a, init, count);
      Unsnoc(b);
      OutputSnoc(init, last);
      assert Output(init) + "" == Output(init);
    }
  }

  lemma {:induction false} QuietPlans(trace: seq<Event>)
    requires Quiet(trace)
    ensures Plans(trace) == []
  {
    if trace != [] {
      QuietPlans(trace[..|trace| - 1]);
    }
  }

  // ---------------------------------------------------------------- leases and options

  lemma SettingLine(env: Environment, url: string, s: State, key: string, value: string)
    requires s.status.Reading? && ' ' !in key
    ensures Feed(env, url, s, OptionLine(key, value))
            == (if key == "cas" then FeedLease(env, s, value)
                else if !ValidOption(key, value) then s.Fail(UnsupportedOption)
                else Write(env, s.(options := s.options[key := value]), "ok\n"))
  {
    var setting := key + " " + value;
    StripPrefixConcat("option ", setting);
    SplitOnceConcat(key, ' ', value);
    assert OptionLine(key, value)[7..] == setting;
    assert OptionLine(key, value)[0] == 'o' && "capabilities"[0] == 'c';
    FeedOptionIs(env, s, setting, key, value);
  }

  lemma FeedOptionIs(env: Environment, s: State, setting: string, key: string, value: string)
    requires SplitOnce(setting, ' ') == Some((key, value))
    ensures FeedOption(env, s, setting)
            == (if key == "cas" then FeedLease(env, s, value)
                else if !ValidOption(key, value) then s.Fail(UnsupportedOption)
                else Write(env, s.(options := s.options[key := value]), "ok\n"))
  {
  }

  lemma LeaseAccepted(env: Environment, s: State, reference: string, oid: string)
    requires Writes(env) && s.status.Reading?
    requires ValidBranch(reference) && ValidOid(oid) && reference !in s.leases
    requires |s.leases| < MAX_ENTRIES && s.leaseBytes + |reference + ":" + oid| <= MAX_BYTES
    ensures FeedLease(env, s, reference + ":" + oid)
            == s.(leases := s.leases[reference := oid],
                  leaseBytes := s.leaseBytes + |reference + ":" + oid|,
                  trace := s.trace + [Wrote("ok\n")])
  {
    BranchIsWord(reference);
    WordExcludes(reference);
    SplitOnceConcat(reference, ':', oid);
  }

  lemma LeaseLineRead(env: Environment, url: string, s: State, reference: string, oid: string)
    requires Writes(env) && s.status.Reading?
    requires ValidBranch(reference) && ValidOid(oid) && reference !in s.leases
    requires |s.leases| < MAX_ENTRIES && s.leaseBytes + |reference + ":" + oid| <= MAX_BYTES
    ensures Feed(env, url, s, LeaseLine(reference, oid))
            == s.(leases := s.leases[reference := oid],
                  leaseBytes := s.leaseBytes + |reference + ":" + oid|,
                  trace := s.trace + [Wrote("ok\n")])
  {
    SettingLine(env, url, s, "cas", reference + ":" + oid);
    LeaseAccepted(env, s, reference, oid);
  }

  lemma OptionLineRead(env: Environment, url: string, s: State, key: string, value: string)
    requires Writes(env) && s.status.Reading? && ValidOption(key, value)
    ensures Feed(env, url, s, OptionLine(key, value))
            == s.(options := s.options[key := value], trace := s.trace + [Wrote("ok\n")])
  {
    OptionLinePlain(key, value);
    SettingLine(env, url, s, key, value);
  }

  function Restrict(m: map<string, string>, keys: seq<string>): map<string, string> {
    map key | key in keys && key in m :: m[key]
  }

  lemma RestrictStep(m: map<string, string>, keys: seq<string>, k: nat)
    requires k < |keys| && StrictlyAscending(keys) && keys[k] in m
    ensures keys[k] !in Restrict(m, keys[..k])
    ensures Restrict(m, keys[..k + 1]) == Restrict(m, keys[..k])[keys[k] := m[keys[k]]]
  {
    AscendingDistinct(keys);
    TakeMore(keys, k);
  }

  function Elements(keys: seq<string>): set<string> {
    set key | key in keys
  }

  lemma {:induction false} ElementsSize(keys: seq<string>)
    requires forall i, j :: 0 <= i < j < |keys| ==> keys[i] != keys[j]
    ensures |Elements(keys)| == |keys|
  {
    if keys != [] {
      var init, last := keys[..|keys| - 1], keys[|keys| - 1];
      ElementsSize(init);
      Unsnoc(keys);
      assert last !in Elements(init);
      assert Elements(keys) == Elements(init) + {last};
    }
  }

  lemma RestrictKeys(m: map<string, string>, keys: seq<string>)
    requires forall i :: 0 <= i < |keys| ==> keys[i] in m
    ensures Restrict(m, keys).Keys == Elements(keys)
  {
  }

  lemma RestrictSize(m: map<string, string>, keys: seq<string>, k: nat)
    requires k <= |keys| && StrictlyAscending(keys) && forall i :: 0 <= i < k ==> keys[i] in m
    ensures |Restrict(m, keys[..k])| == k
  {
    AscendingDistinct(keys);
    ElementsSize(keys[..k]);
    RestrictKeys(m, keys[..k]);
    assert |Restrict(m, keys[..k]).Keys| == |Restrict(m, keys[..k])|;
  }

  /** Whether a trace has `count` acknowledgements and nothing else of note. */
  type Ledger = (seq<Event>, nat) -> bool

  /** All that reading the settings has to know of a ledger. */
  ghost predicate Counts(acked: Ledger) {
    && acked([], 0)
    && forall trace, n: nat :: acked(trace, n) ==> acked(trace + [Wrote("ok\n")], n + 1)
  }

  function Acks(): Ledger {
    (trace: seq<Event>, n: nat) => Acked(trace, n)
  }

  lemma AcksAre(trace: seq<Event>, n: nat)
    ensures Acks()(trace, n) == Acked(trace, n)
  {
  }

  lemma AcksCount()
    ensures Counts(Acks())
  {
    AckedStart();
    forall trace, n: nat | Acked(trace, n)
      ensures Acked(trace + [Wrote("ok\n")], n + 1)
    {
      AckedNext(trace, n);
    }
  }

  /** What `k` lease lines leave behind. */
  ghost predicate LeasesDone(acked: Ledger, s: State, leases: map<string, string>, k: nat)
    requires k <= |leases|
  {
    && s.status.Reading? && s.options == map[]
    && s.leases == Restrict(leases, Ascending(leases.Keys)[..k])
    && s.leaseBytes == TotalLength(LeaseValues(leases)[..k])
    && acked(s.trace, k)
  }

  /** A property that each line carries from stage `k` to stage `k + 1`. */
  lemma {:induction false} RunStages(feed: Machine, s: State, lines: seq<string>, k: nat,
                                     stage: (State, nat) -> bool)
    requires k <= |lines| && stage(s, 0)
    requires forall t: State, j: nat :: j < |lines| && stage(t, j) ==> stage(feed(t, lines[j]), j + 1)
    ensures stage(RunFrom(feed, s, lines[..k]), k)
  {
    if k > 0 {
      RunStages(feed, s, lines, k - 1, stage);
      assert lines[..k][..k - 1] == lines[..k - 1];
    }
  }

  lemma RunAllStages(feed: Machine, s: State, lines: seq<string>, stage: (State, nat) -> bool)
    requires stage(s, 0)
    requires forall t: State, j: nat :: j < |lines| && stage(t, j) ==> stage(feed(t, lines[j]), j + 1)
    ensures stage(RunFrom(feed, s, lines), |lines|)
  {
    RunStages(feed, s, lines, |lines|, stage);
    assert lines[..|lines|] == lines;
  }

  lemma LeasesRead(acked: Ledger, env: Environment, url: string, plan: RemotePlan)
    requires Counts(acked) && Writes(env) && LeasesOk(plan)
    ensures LeasesDone(acked, RunFrom(Feeder(env, url), INITIAL, LeaseLines(plan.leases)), plan.leases,
                       |plan.leases|)
  {
    var lines := LeaseLines(plan.leases);
    var stage := (s, k: nat) => k <= |plan.leases| && LeasesDone(acked, s, plan.leases, k);
    assert stage(INITIAL, 0) by {
      NothingRestricted(plan.leases, Ascending(plan.leases.Keys));
      assert LeaseValues(plan.leases)[..0] == [];
    }
    forall t: State, j: nat | j < |lines| && stage(t, j)
      ensures stage(Feeder(env, url)(t, lines[j]), j + 1)
    {
      LeaseFed(acked, env, url, plan, j, t);
    }
    RunAllStages(Feeder(env, url), INITIAL, lines, stage);
  }

  lemma NothingRestricted(m: map<string, string>, keys: seq<string>)
    ensures Restrict(m, keys[..0]) == map[]
  {
  }

  lemma LeaseAt(leases: map<string, string>, k: nat) returns (reference: string, oid: string)
    requires k < |leases| && TotalLength(LeaseValues(leases)) <= MAX_BYTES
    ensures reference in leases && oid == leases[reference]
    ensures LeaseLines(leases)[k] == LeaseLine(reference, oid)
    ensures reference !in Restrict(leases, Ascending(leases.Keys)[..k])
    ensures |Restrict(leases, Ascending(leases.Keys)[..k])| == k
    ensures Restrict(leases, Ascending(leases.Keys)[..k + 1])
            == Restrict(leases, Ascending(leases.Keys)[..k])[reference := oid]
    ensures TotalLength(LeaseValues(leases)[..k + 1])
            == TotalLength(LeaseValues(leases)[..k]) + |reference + ":" + oid| <= MAX_BYTES
  {
    var keys, values := Ascending(leases.Keys), LeaseValues(leases);
    reference := keys[k];
    oid := leases[reference];
    RestrictStep(leases, keys, k);
    RestrictSize(leases, keys, k);
    TotalLengthPrefix(values, k + 1);
    TotalLengthNext(values, k);
  }

  lemma LeaseFed(acked: Ledger, env: Environment, url: string, plan: RemotePlan, k: nat, s: State)
    requires Counts(acked) && Writes(env) && LeasesOk(plan) && k < |plan.leases| && LeasesDone(acked, s, plan.leases, k)
    ensures LeasesDone(acked, Feeder(env, url)(s, LeaseLines(plan.leases)[k]), plan.leases, k + 1)
  {
    LeaseRead(acked, env, url, plan, k, s);
  }

  lemma LeaseRead(acked: Ledger, env: Environment, url: string, plan: RemotePlan, k: nat, s: State)
    requires Counts(acked) && Writes(env) && LeasesOk(plan) && k < |plan.leases| && LeasesDone(acked, s, plan.leases, k)
    ensures LeasesDone(acked, Feed(env, url, s, LeaseLines(plan.leases)[k]), plan.leases, k + 1)
  {
    var reference, oid := LeaseAt(plan.leases, k);
    LeaseLineRead(env, url, s, reference, oid);
    LeaseTaken(acked, plan.leases, k, s, reference, oid);
  }

  lemma LeaseTaken(acked: Ledger, leases: map<string, string>, k: nat, s: State, reference: string, oid: string)
    requires Counts(acked) && k < |leases| && LeasesDone(acked, s, leases, k)
    requires Restrict(leases, Ascending(leases.Keys)[..k + 1])
             == Restrict(leases, Ascending(leases.Keys)[..k])[reference := oid]
    requires TotalLength(LeaseValues(leases)[..k + 1])
             == TotalLength(LeaseValues(leases)[..k]) + |reference + ":" + oid|
    ensures LeasesDone(acked, s.(leases := s.leases[reference := oid],
                          leaseBytes := s.leaseBytes + |reference + ":" + oid|,
                          trace := s.trace + [Wrote("ok\n")]), leases, k + 1)
  {
  }

  /** The first `k` keys of a map, for every `k`. */
  type Parts = nat -> map<string, string>

  function PartsOf(m: map<string, string>): Parts {
    (k: nat) => if k <= |Ascending(m.Keys)| then Restrict(m, Ascending(m.Keys)[..k]) else m
  }

  /** All that reading the options has to know of them. */
  ghost predicate Grows(part: Parts, m: map<string, string>) {
    && part(0) == map[] && part(|m|) == m
    && forall k: nat :: k < |m| ==> GrowsAt(part, m, k)
  }

  ghost predicate GrowsAt(part: Parts, m: map<string, string>, k: nat)
    requires k < |m|
  {
    var key := Ascending(m.Keys)[k];
    key in m && part(k + 1) == part(k)[key := m[key]]
  }

  lemma PartsGrow(m: map<string, string>)
    ensures Grows(PartsOf(m), m)
  {
    NothingRestricted(m, Ascending(m.Keys));
    RestrictAllKeys(m);
    forall k: nat | k < |m|
      ensures GrowsAt(PartsOf(m), m, k)
    {
      assert Ascending(m.Keys)[k] in Ascending(m.Keys);
      RestrictStep(m, Ascending(m.Keys), k);
    }
  }

  ghost predicate OptionsDone(acked: Ledger, part: Parts, s: State, plan: RemotePlan, k: nat) {
    && s.status.Reading? && s.leases == plan.leases
    && s.options == part(k)
    && acked(s.trace, |plan.leases| + k)
  }

  lemma RunFromNext(feed: Machine, s: State, lines: seq<string>, k: nat)
    requires k < |lines|
    ensures RunFrom(feed, s, lines[..k + 1]) == feed(RunFrom(feed, s, lines[..k]), lines[k])
  {
    TakeMore(lines, k);
    assert lines[..k + 1][..k] == lines[..k];
  }

  lemma {:induction false} OptionsReadTo(acked: Ledger, part: Parts, env: Environment, url: string,
                                         plan: RemotePlan, s: State, k: nat)
    requires Counts(acked) && Grows(part, plan.options) && Writes(env) && OptionsOk(plan)
    requires OptionsDone(acked, part, s, plan, 0) && k <= |plan.options|
    ensures OptionsDone(acked, part, RunFrom(Feeder(env, url), s, OptionLines(plan.options)[..k]), plan, k)
  {
    if k > 0 {
      OptionsReadTo(acked, part, env, url, plan, s, k - 1);
      var lines := OptionLines(plan.options);
      OptionFed(acked, part, env, url, plan, k - 1, RunFrom(Feeder(env, url), s, lines[..k - 1]));
      RunFromNext(Feeder(env, url), s, lines, k - 1);
    }
  }

  lemma OptionsRead(acked: Ledger, part: Parts, env: Environment, url: string, plan: RemotePlan, s: State)
    requires Counts(acked) && Grows(part, plan.options) && Writes(env) && OptionsOk(plan)
    requires OptionsDone(acked, part, s, plan, 0)
    ensures OptionsDone(acked, part, RunFrom(Feeder(env, url), s, OptionLines(plan.options)), plan, |plan.options|)
  {
    OptionsReadTo(acked, part, env, url, plan, s, |plan.options|);
    assert OptionLines(plan.options)[..|plan.options|] == OptionLines(plan.options);
  }

  lemma OptionFed(acked: Ledger, part: Parts, env: Environment, url: string, plan: RemotePlan, k: nat, s: State)
    requires Counts(acked) && Grows(part, plan.options) && Writes(env) && OptionsOk(plan)
    requires k < |plan.options| && OptionsDone(acked, part, s, plan, k)
    ensures OptionsDone(acked, part, Feeder(env, url)(s, OptionLines(plan.options)[k]), plan, k + 1)
  {
    var key := Ascending(plan.options.Keys)[k];
    assert GrowsAt(part, plan.options, k);
    OptionLineRead(env, url, s, key, plan.options[key]);
  }

  /** How many lines of the payload are acknowledged. */
  function Settings(plan: RemotePlan): nat {
    |plan.options| + |plan.leases|
  }

  /** The state in which the commands of `plan` are read. */
  ghost predicate Ready(s: State, plan: RemotePlan) {
    && s.status.Reading? && s.options == plan.options && s.leases == plan.leases
    && Acked(s.trace, Settings(plan))
  }

  lemma RestrictAllKeys(m: map<string, string>)
    ensures |Ascending(m.Keys)| == |m|
    ensures Restrict(m, Ascending(m.Keys)[..|m|]) == m
  {
    var keys := Ascending(m.Keys);
    assert keys[..|keys|] == keys;
  }

  lemma LeasesToOptions(acked: Ledger, part: Parts, s: State, plan: RemotePlan)
    requires Grows(part, plan.options) && LeasesDone(acked, s, plan.leases, |plan.leases|)
    ensures OptionsDone(acked, part, s, plan, 0)
  {
    RestrictAllKeys(plan.leases);
  }

  lemma OptionsToReady(part: Parts, s: State, plan: RemotePlan)
    requires Grows(part, plan.options) && OptionsDone(Acks(), part, s, plan, |plan.options|)
    ensures Ready(s, plan)
  {
    assert Settings(plan) == |plan.leases| + |plan.options|;
    AcksAre(s.trace, Settings(plan));
  }

  lemma SettingsRead(env: Environment, url: string, plan: RemotePlan)
    requires Writes(env) && LeasesOk(plan) && OptionsOk(plan)
    ensures Ready(RunFrom(Feeder(env, url), INITIAL,
                          LeaseLines(plan.leases) + OptionLines(plan.options)), plan)
  {
    AcksCount();
    PartsGrow(plan.options);
    SettingsReadBy(Acks(), PartsOf(plan.options), env, url, plan);
    OptionsToReady(PartsOf(plan.options),
                   RunFrom(Feeder(env, url), INITIAL, LeaseLines(plan.leases) + OptionLines(plan.options)), plan);
  }

  lemma SettingsReadBy(acked: Ledger, part: Parts, env: Environment, url: string, plan: RemotePlan)
    requires Counts(acked) && Grows(part, plan.options) && Writes(env) && LeasesOk(plan) && OptionsOk(plan)
    ensures OptionsDone(acked, part, RunFrom(Feeder(env, url), INITIAL,
                                             LeaseLines(plan.leases) + OptionLines(plan.options)),
                        plan, |plan.options|)
  {
    var s := RunFrom(Feeder(env, url), INITIAL, LeaseLines(plan.leases));
    LeasesRead(acked, env, url, plan);
    LeasesToOptions(acked, part, s, plan);
    OptionsRead(acked, part, env, url, plan, s);
    RunFromConcat(Feeder(env, url), INITIAL, LeaseLines(plan.leases), OptionLines(plan.options));
  }

  // ---------------------------------------------------------------- commands

  lemma {:induction false} ResolveAllIdentity(step: Resolver, trace: seq<Event>, commands: seq<string>)
    requires forall t: seq<Event>, c: string :: c in commands ==> step(t, c).Resolved? && step(t, c).command == c
    ensures ResolveAll(step, trace, commands).Rewritten?
    ensures ResolveAll(step, trace, commands).commands == commands
  {
    if commands != [] {
      ResolveAllIdentity(step, trace, commands[..|commands| - 1]);
      assert commands == commands[..|commands| - 1] + [commands[|commands| - 1]];
    }
  }

  lemma ObjectIdResolves(env: Environment, leases: map<string, string>, trace: seq<Event>, line: string)
    requires Cooperative(env) && PushCommandOk(line, leases)
    ensures ResolveOne(env, leases, trace, line).Resolved?
    ensures ResolveOne(env, leases, trace, line).command == line
  {
    PushLineShape(line);
  }

  lemma PushesResolve(env: Environment, leases: map<string, string>, trace: seq<Event>,
                      commands: seq<string>)
    requires Cooperative(env) && forall line :: line in commands ==> PushCommandOk(line, leases)
    ensures var r := ResolveAll(PushResolver(env, leases), trace, commands);
            && r.Rewritten? && r.commands == commands
            && trace <= r.trace && forall i :: |trace| <= i < |r.trace| ==> r.trace[i].Asked?
  {
    var step := PushResolver(env, leases);
    forall t: seq<Event>, c: string | c in commands
      ensures step(t, c).Resolved? && step(t, c).command == c
    {
      ObjectIdResolves(env, leases, t, c);
    }
    ResolveAllIdentity(step, trace, commands);
    ResolveAllGrows(step, trace, commands);
  }

  /** The plan has been executed, last, and nothing else was. */
  ghost predicate Delivered(t: State, plan: RemotePlan) {
    && t.status.Reading? && t.leases == map[]
    && Concludes(t.trace, plan)
  }

  /** The plan is executed last, after everything before it has been acknowledged. */
  ghost predicate Concludes(trace: seq<Event>, plan: RemotePlan) {
    && trace != [] && trace[|trace| - 1] == Executed(plan)
    && Acked(trace[..|trace| - 1], Settings(plan))
  }

  lemma SubmitDelivers(env: Environment, s: State, plan: RemotePlan)
    requires Cooperative(env) && Valid(plan)
    requires s.options == plan.options && s.leases == plan.leases && Acked(s.trace, Settings(plan))
    ensures Delivered(Submit(env, plan.url, s, plan.phase, plan.commands), plan)
  {
    var t := Submit(env, plan.url, s, plan.phase, plan.commands);
    assert plan == RemotePlan(plan.url, plan.phase, s.options, s.leases, plan.commands);
    assert t.Live() && t.trace == s.trace + [Executed(plan)];
    assert t.trace[..|s.trace|] == s.trace;
  }

  lemma CloseDelivers(env: Environment, s: State, plan: RemotePlan)
    requires Cooperative(env) && Valid(plan)
    requires s.options == plan.options && s.leases == plan.leases && Acked(s.trace, Settings(plan))
    ensures Delivered(CloseBatch(env, plan.url, s, plan.phase, plan.commands), plan)
  {
    if plan.phase == "push" {
      var r := ResolveAll(PushResolver(env, s.leases), s.trace, plan.commands);
      assert forall line :: line in plan.commands ==> PushCommandOk(line, s.leases);
      PushesResolve(env, s.leases, s.trace, plan.commands);
      AckedExtends(s.trace, r.trace, Settings(plan));
      SubmitDelivers(env, s.(trace := r.trace), plan);
    } else {
      SubmitDelivers(env, s, plan);
    }
  }

  lemma FirstCommand(env: Environment, url: string, s: State, phase: string, line: string)
    requires s.status.Reading? && (phase == "fetch" || phase == "push") && phase + " " <= line
    ensures Feed(env, url, s, line) == s.(status := Batch(phase, [line]))
  {
    assert line[0] == (phase + " ")[0];
    assert "capabilities"[0] == 'c' && "option "[0] == 'o' && "list"[0] == 'l' && "list for-push"[0] == 'l';
    assert "fetch" + " " == "fetch " && "push" + " " == "push ";
    assert "fetch "[0] == 'f' && "push "[0] == 'p';
    FeedRequest(env, url, s, line);
  }

  lemma BatchPrefix(plan: RemotePlan, line: string)
    requires CommandsOk(plan) && (plan.phase == "fetch" || plan.phase == "push") && line in plan.commands
    ensures plan.phase + " " <= line
  {
    if plan.phase == "fetch" {
      FetchLineShape(line);
      assert "fetch" + " " == "fetch ";
    } else {
      PushLinePlain(line, plan.leases);
      assert "push" + " " == "push ";
    }
  }

  lemma ExtendWithin(s: State, phase: string, commands: seq<string>, line: string)
    requires s.status == Batch(phase, commands) && phase + " " <= line
    requires |commands| < MAX_ENTRIES && TotalLength(commands) + |line| <= MAX_BYTES
    ensures Extend(s, line) == s.(status := Batch(phase, commands + [line]))
  {
  }

  lemma ExtendAccepts(s: State, phase: string, commands: seq<string>, k: nat)
    requires 0 < k < |commands| <= MAX_ENTRIES && TotalLength(commands) <= MAX_BYTES
    requires s.status == Batch(phase, commands[..k]) && phase + " " <= commands[k]
    ensures Extend(s, commands[k]) == s.(status := Batch(phase, commands[..k + 1]))
  {
    TotalLengthPrefix(commands, k + 1);
    TotalLengthNext(commands, k);
    TakeMore(commands, k);
    ExtendWithin(s, phase, commands[..k], commands[k]);
  }

  /** Lines that make a batch of their own. */
  ghost predicate Collectable(phase: string, commands: seq<string>) {
    && (phase == "fetch" || phase == "push") && commands != [] && |commands| <= MAX_ENTRIES
    && TotalLength(commands) <= MAX_BYTES && forall k :: 0 <= k < |commands| ==> phase + " " <= commands[k]
  }

  lemma PlanCollectable(plan: RemotePlan)
    requires CommandsOk(plan) && (plan.phase == "fetch" || plan.phase == "push")
    ensures Collectable(plan.phase, plan.commands)
  {
    forall k | 0 <= k < |plan.commands|
      ensures plan.phase + " " <= plan.commands[k]
    {
      BatchPrefix(plan, plan.commands[k]);
    }
  }

  lemma ExtendFed(env: Environment, url: string, s: State, phase: string, commands: seq<string>, k: nat)
    requires Collectable(phase, commands) && 0 < k < |commands| && s.status == Batch(phase, commands[..k])
    ensures Feeder(env, url)(s, commands[k]) == s.(status := Batch(phase, commands[..k + 1]))
  {
    ExtendAccepts(s, phase, commands, k);
    assert |phase + " "| > 0 && commands[k] != "";
  }

  /** The lines of a batch, whatever they say, are collected until the blank line. */
  lemma {:induction false} BatchReadTo(env: Environment, url: string, s: State, phase: string,
                                       commands: seq<string>, k: nat)
    requires s.status.Reading? && Collectable(phase, commands) && 0 < k <= |commands|
    ensures RunFrom(Feeder(env, url), s, commands[..k]) == s.(status := Batch(phase, commands[..k]))
    decreases k
  {
    RunFromNext(Feeder(env, url), s, commands, k - 1);
    if k == 1 {
      assert commands[..0] == [] && commands[..1] == [commands[0]];
      FirstCommand(env, url, s, phase, commands[0]);
    } else {
      BatchReadTo(env, url, s, phase, commands, k - 1);
      ExtendFed(env, url, s.(status := Batch(phase, commands[..k - 1])), phase, commands, k - 1);
    }
  }

  lemma BatchRead(env: Environment, url: string, s: State, phase: string, commands: seq<string>)
    requires s.status.Reading? && Collectable(phase, commands)
    ensures RunFrom(Feeder(env, url), s, commands) == s.(status := Batch(phase, commands))
  {
    BatchReadTo(env, url, s, phase, commands, |commands|);
    assert commands[..|commands|] == commands;
  }

  /** A session that ended well after executing exactly `plan`. */
  ghost predicate Completed(t: State, plan: RemotePlan) {
    t.status.Finished? && Plans(t.trace) == [plan] && Concludes(t.trace, plan)
  }

  lemma FinishCompletes(env: Environment, url: string, t: State, plan: RemotePlan)
    requires Delivered(t, plan)
    ensures Completed(Feed(env, url, t, ""), plan) && Completed(EndInput(t), plan)
  {
    QuietPlans(t.trace[..|t.trace| - 1]);
  }

  lemma CloseByBlank(env: Environment, url: string, s: State)
    requires s.status.Batch?
    ensures Feed(env, url, s, "") == CloseBatch(env, url, s, s.status.phase, s.status.commands)
  {
  }

  lemma RunTwoBlanks(feed: Machine, s: State)
    ensures RunFrom(feed, s, ["", ""]) == feed(feed(s, ""), "")
  {
    assert [""] + [""] == ["", ""] && [""] + [] == [""];
    RunFromCons(feed, s, "", [""]);
    RunFromCons(feed, feed(s, ""), "", []);
  }

  lemma ListRead(env: Environment, s: State, plan: RemotePlan)
    requires Cooperative(env) && Valid(plan) && Ready(s, plan) && plan.phase in {"list", "list for-push"}
    ensures Delivered(RunFrom(Feeder(env, plan.url), s, plan.commands), plan)
  {
    var line := plan.phase;
    assert plan.commands == [line] && plan.commands[..0] == [];
    assert line[0] == 'l' && "capabilities"[0] == 'c' && "option "[0] == 'o';
    FeedRequest(env, plan.url, s, line);
    CloseDelivers(env, s, plan);
  }

  lemma CommandsRead(env: Environment, s: State, plan: RemotePlan)
    requires Cooperative(env) && Valid(plan) && Ready(s, plan)
    ensures Completed(RunFrom(Feeder(env, plan.url), s, plan.commands + ["", ""]), plan)
  {
    var feed := Feeder(env, plan.url);
    var t := RunFrom(feed, s, plan.commands);
    RunFromConcat(feed, s, plan.commands, ["", ""]);
    RunTwoBlanks(feed, t);
    if plan.phase == "fetch" || plan.phase == "push" {
      PlanCollectable(plan);
      BatchRead(env, plan.url, s, plan.phase, plan.commands);
      CloseByBlank(env, plan.url, t);
      CloseDelivers(env, t, plan);
      FinishCompletes(env, plan.url, feed(t, ""), plan);
    } else {
      ListRead(env, s, plan);
      FinishCompletes(env, plan.url, t, plan);
      FeederOrderly(env, plan.url);
    }
  }

  // ---------------------------------------------------------------- the theorem

  lemma PayloadRuns(env: Environment, plan: RemotePlan)
    requires Valid(plan)
    ensures SessionOutcome(env, plan.url, Payload(plan))
            == Drive(Feeder(env, plan.url),
                     RunFrom(Feeder(env, plan.url), INITIAL, PayloadLines(plan) + ["", ""]), "")
  {
    var feed, lines := Feeder(env, plan.url), PayloadLines(plan);
    FeederOrderly(env, plan.url);
    forall line | line in lines
      ensures Framable(line)
    {
      PayloadFrames(plan, line);
    }
    PayloadText(plan);
    DriveTerminated(feed, INITIAL, lines, "\n\n");
    BlanksRun(feed, RunFrom(feed, INITIAL, lines));
    RunFromConcat(feed, INITIAL, lines, ["", ""]);
  }

  lemma BlanksRun(feed: Machine, s: State)
    requires Orderly(feed)
    ensures Drive(feed, s, "\n\n") == Drive(feed, RunFrom(feed, s, ["", ""]), "")
  {
    assert Terminated(["", ""]) + "" == "\n\n" by {
      assert ["", ""][1..] == [""] && [""][1..] == [];
    }
    DriveTerminated(feed, s, ["", ""], "");
  }

  lemma PayloadCompletes(env: Environment, plan: RemotePlan)
    requires Cooperative(env) && Valid(plan)
    ensures Completed(RunFrom(Feeder(env, plan.url), INITIAL, PayloadLines(plan) + ["", ""]), plan)
  {
    var feed := Feeder(env, plan.url);
    var settings := LeaseLines(plan.leases) + OptionLines(plan.options);
    SettingsRead(env, plan.url, plan);
    CommandsRead(env, RunFrom(feed, INITIAL, settings), plan);
    RunFromConcat(feed, INITIAL, settings, plan.commands + ["", ""]);
    Associate(settings, plan.commands, ["", ""]);
  }

  lemma DriveCompleted(feed: Machine, s: State, plan: RemotePlan)
    requires Completed(s, plan)
    ensures Drive(feed, s, "") == s
  {
  }

  /** Feeding a plan's own payload to a session gives back exactly that plan, once. */
  lemma RoundTrip(env: Environment, plan: RemotePlan)
    requires Cooperative(env) && Valid(plan)
    ensures SessionOutcome(env, plan.url, Payload(plan)).status == Finished
    ensures Plans(SessionOutcome(env, plan.url, Payload(plan)).trace) == [plan]
    ensures Concludes(SessionOutcome(env, plan.url, Payload(plan)).trace, plan)
  {
    PayloadRuns(env, plan);
    PayloadCompletes(env, plan);
    DriveCompleted(Feeder(env, plan.url),
                   RunFrom(Feeder(env, plan.url), INITIAL, PayloadLines(plan) + ["", ""]), plan);
  }

  /** A child that speaks this protocol acknowledges exactly the lines that the relaying parent expects to
      see acknowledged: whatever it answers to the request itself is what is relayed. */
  lemma AnswerIsRelayed(env: Environment, plan: RemotePlan, answer: string)
    requires Cooperative(env) && Valid(plan)
    ensures var said := Output(SessionOutcome(env, plan.url, Payload(plan)).trace);
            Acknowledged(|plan.options| + |plan.leases|, said + answer) == Some(answer)
  {
    RoundTrip(env, plan);
    ConcludedAnswer(SessionOutcome(env, plan.url, Payload(plan)).trace, plan, answer);
  }

  lemma ConcludedAnswer(trace: seq<Event>, plan: RemotePlan, answer: string)
    requires Concludes(trace, plan)
    ensures Acknowledged(|plan.options| + |plan.leases|, Output(trace) + answer) == Some(answer)
  {
    var init := trace[..|trace| - 1];
    Unsnoc(trace);
    OutputSnoc(init, Executed(plan));
    assert Output(init) + "" == Output(init);
    AcknowledgedIff(Settings(plan), Output(init) + answer, answer);
  }

  // ---------------------------------------------------------------- the approved lines

  /** The lines of `Wire` after its header, without their first blank line. */
  function WithoutBlank(lines: seq<string>): seq<string> {
    if lines == [] then []
    else if lines[0] == "" then lines[1..]
    else [lines[0]] + WithoutBlank(lines[1..])
  }

  lemma {:induction false} WithoutBlankConcat(a: seq<string>, b: seq<string>)
    requires "" !in a
    ensures WithoutBlank(a + [""] + b) == a + b
  {
    if a == [] {
      assert (a + [""] + b)[1..] == b;
    } else {
      WithoutBlankConcat(a[1..], b);
      assert (a + [""] + b)[1..] == a[1..] + [""] + b;
      assert a + b == [a[0]] + (a[1..] + b);
    }
  }

  lemma WireShape(plan: RemotePlan)
    ensures Wire(plan)[3..]
            == LeaseLines(plan.leases) + OptionLines(plan.options) + [""] + plan.commands
    ensures Wire(plan)[1] == plan.url && Wire(plan)[2] == plan.phase
  {
    var header := ["remote-helper", plan.url, plan.phase];
    DropHeader(header, LeaseLines(plan.leases), OptionLines(plan.options), plan.commands);
  }

  lemma DropHeader(header: seq<string>, a: seq<string>, b: seq<string>, c: seq<string>)
    requires |header| == 3
    ensures (header + a + b + [""] + c)[3..] == a + b + [""] + c
    ensures (header + a + b + [""] + c)[1] == header[1]
    ensures (header + a + b + [""] + c)[2] == header[2]
  {
  }

  lemma NoBlankSettings(plan: RemotePlan)
    ensures "" !in LeaseLines(plan.leases) + OptionLines(plan.options)
  {
    forall key, value
      ensures OptionLine(key, value) != ""
    {
      assert |OptionLine(key, value)| >= |key + " " + value|;
    }
    NoBlank(LeaseLines(plan.leases), OptionLines(plan.options));
  }

  lemma NoBlank(a: seq<string>, b: seq<string>)
    requires forall k :: 0 <= k < |a| ==> a[k] != ""
    requires forall k :: 0 <= k < |b| ==> b[k] != ""
    ensures "" !in a + b
  {
  }

  /** The approver sees a header of three lines, the settings, a blank line, and the commands. */
  lemma WireLayout(plan: RemotePlan)
    ensures |Wire(plan)| > 3 && Wire(plan)[0] == "remote-helper"
    ensures Wire(plan)[1] == plan.url && Wire(plan)[2] == plan.phase
    ensures LaidOut(Wire(plan)[3..], |plan.leases| + |plan.options|, plan.commands)
  {
    WireShape(plan);
    NoBlankSettings(plan);
    LayoutOf(LeaseLines(plan.leases), OptionLines(plan.options), plan.commands);
  }

  /** `count` lines that are not blank, a blank one, and `commands`. */
  predicate LaidOut(lines: seq<string>, count: nat, commands: seq<string>) {
    count < |lines| && "" !in lines[..count] && lines[count] == "" && lines[count + 1..] == commands
  }

  lemma LayoutOf(a: seq<string>, b: seq<string>, commands: seq<string>)
    requires "" !in a + b
    ensures LaidOut(a + b + [""] + commands, |a| + |b|, commands)
  {
    assert (a + b + [""] + commands)[..|a| + |b|] == a + b;
  }

  /** What the approver saw determines what the child is sent. */
  lemma PayloadLinesFromWire(plan: RemotePlan)
    requires Valid(plan)
    ensures PayloadLines(plan) == WithoutBlank(Wire(plan)[3..])
    ensures Wire(plan)[1] == plan.url && Wire(plan)[2] == plan.phase
  {
    WireShape(plan);
    NoBlankSettings(plan);
    WithoutBlankConcat(LeaseLines(plan.leases) + OptionLines(plan.options), plan.commands);
  }

  function AlwaysReady(): Environment {
    Environment((t, text) => true, (t, source) => Some(source), (t, plan) => true)
  }

  /** Equal approved lines mean equal plans. */
  lemma WireInjective(a: RemotePlan, b: RemotePlan)
    requires Valid(a) && Valid(b) && Wire(a) == Wire(b)
    ensures a == b
  {
    PayloadLinesFromWire(a);
    PayloadLinesFromWire(b);
    assert Payload(a) == Payload(b) && a.url == b.url;
    RoundTrip(AlwaysReady(), a);
    RoundTrip(AlwaysReady(), b);
    assert [a][0] == [b][0];
  }
}
