/** What a session makes of one line, whatever it is, and where a session can end well. */
module GitLines {
  import opened Text
  import opened GitPlan
  import opened GitSession
  import opened GitRuns
  import opened GitOrigins

  // ---------------------------------------------------------------- framing

  /** The three things that a read can give: the end exactly when nothing is left, a line exactly when a
      framable text and its newline come first, and an error in every other case. */
  lemma ReadLineIff(input: string, text: string, rest: string)
    ensures ReadLine(input).EndOfInput? <==> input == ""
    ensures ReadLine(input) == Line(text, rest) <==> Framable(text) && input == text + "\n" + rest
  {
    if ReadLine(input) == Line(text, rest) {
      ReadLineParts(input);
    }
    if Framable(text) && input == text + "\n" + rest {
      ReadLineAccepts(text, rest);
    }
  }

  // ---------------------------------------------------------------- between requests

  lemma FirstLetters()
    ensures "capabilities"[0] == 'c' && "option "[0] == 'o' && "list"[0] == 'l' && "list for-push"[0] == 'l'
    ensures "fetch "[0] == 'f' && "push "[0] == 'p'
  {
  }

  /** The capabilities are announced, and nothing else changes. */
  lemma CapabilitiesAnnounced(env: Environment, url: string, s: State)
    requires s.status.Reading?
    ensures var t := Feed(env, url, s, "capabilities");
            var announced := s.(trace := s.trace + [Wrote("fetch\npush\noption\n\n")]);
            t == if env.write(s.trace, "fetch\npush\noption\n\n") then announced else announced.Fail(WriteFailed)
  {
    assert "capabilities" != "";
  }

  /** The settings that a session takes in a state. */
  ghost predicate Takes(s: State, key: string, value: string) {
    if key == "cas" then exists reference, oid :: TakesLease(s, value, reference, oid)
    else ValidOption(key, value)
  }

  predicate TakesLease(s: State, value: string, reference: string, oid: string) {
    && value == reference + ":" + oid && ValidBranch(reference) && ValidOid(oid)
    && reference !in s.leases && |s.leases| < 4096 && s.leaseBytes + |value| <= 1048576
  }

  lemma LeaseTakenIff(env: Environment, s: State, value: string)
    ensures if exists reference, oid :: TakesLease(s, value, reference, oid)
            then FeedLease(env, s, value).trace == s.trace + [Wrote("ok\n")]
            else FeedLease(env, s, value).status.Failed? && FeedLease(env, s, value).trace == s.trace
  {
    if reference, oid :| TakesLease(s, value, reference, oid) {
      BranchIsWord(reference);
      WordExcludes(reference);
      SplitOnceConcat(reference, ':', oid);
    } else {
      SplitOnceParts(value, ':');
      if SplitOnce(value, ':').Some? {
        var (reference, oid) := SplitOnce(value, ':').value;
        assert !TakesLease(s, value, reference, oid);
      }
    }
  }

  /** An option line is acknowledged exactly when it is a setting that the session takes; any other one
      fails the session. */
  lemma OptionIff(env: Environment, url: string, s: State, line: string)
    requires s.status.Reading? && "option " <= line
    ensures var t := Feed(env, url, s, line);
            if exists key, value :: line == "option " + (key + " " + value) && ' ' !in key && Takes(s, key, value)
            then t.trace == s.trace + [Wrote("ok\n")]
            else t.status.Failed? && t.trace == s.trace
  {
    FirstLetters();
    assert line[0] == "option "[0];
    assert Feed(env, url, s, line) == FeedOption(env, s, line[7..]);
    OptionSettingIff(env, s, line, line[7..]);
  }

  lemma OptionSettingIff(env: Environment, s: State, line: string, setting: string)
    requires line == "option " + setting
    ensures var t := FeedOption(env, s, setting);
            if exists key, value :: line == "option " + (key + " " + value) && ' ' !in key && Takes(s, key, value)
            then t.trace == s.trace + [Wrote("ok\n")]
            else t.status.Failed? && t.trace == s.trace
  {
    SplitOnceParts(setting, ' ');
    if SplitOnce(setting, ' ').Some? {
      var (key, value) := SplitOnce(setting, ' ').value;
      assert line == "option " + (key + " " + value);
      OneSetting(line, setting, key, value);
      LeaseTakenIff(env, s, value);
    } else {
      forall key, value
        ensures line != "option " + (key + " " + value)
      {
        var other := key + " " + value;
        assert other[|key|] == ' ' && ' ' in other;
        StripPrefixConcat("option ", other);
        StripPrefixConcat("option ", setting);
      }
    }
  }

  lemma SameSetting(line: string, a: string, b: string)
    requires line == "option " + a && line == "option " + b
    ensures a == b
  {
    StripPrefixConcat("option ", a);
    StripPrefixConcat("option ", b);
  }

  lemma OneSetting(line: string, setting: string, key: string, value: string)
    requires line == "option " + setting && SplitOnce(setting, ' ') == Some((key, value))
    ensures forall k, v :: line == "option " + (k + " " + v) && ' ' !in k ==> k == key && v == value
  {
    forall k, v | line == "option " + (k + " " + v) && ' ' !in k
      ensures k == key && v == value
    {
      SameSetting(line, setting, k + " " + v);
      SplitOnceConcat(k, ' ', v);
    }
  }

  /** Any line that is none of the known commands fails the session, and nothing is done about it. */
  lemma UnknownFails(env: Environment, url: string, s: State, line: string)
    requires s.status.Reading?
    requires line !in {"", "capabilities", "list", "list for-push"}
    requires !("option " <= line) && !("fetch " <= line) && !("push " <= line)
    ensures Feed(env, url, s, line) == s.(status := Failed(UnsupportedCommand))
  {
  }

  /** So a session that meets such a line ends there, whatever follows it. */
  lemma UnknownEnds(env: Environment, url: string, s: State, line: string, rest: string)
    requires s.status.Reading? && Framable(line)
    requires line !in {"", "capabilities", "list", "list for-push"}
    requires !("option " <= line) && !("fetch " <= line) && !("push " <= line)
    ensures Drive(Feeder(env, url), s, line + "\n" + rest) == s.(status := Failed(UnsupportedCommand))
  {
    ReadLineAccepts(line, rest);
    DriveStep(Feeder(env, url), s, line + "\n" + rest);
    UnknownFails(env, url, s, line);
  }

  // ---------------------------------------------------------------- inside a batch

  /** A batch takes a line exactly when it is of the same kind and there is room for it. */
  lemma BatchLineIff(env: Environment, url: string, s: State, line: string)
    requires s.status.Batch? && line != ""
    ensures var Batch(phase, commands) := s.status;
            var t := Feed(env, url, s, line);
            if phase + " " <= line && |commands| < 4096 && TotalLength(commands) + |line| <= 1048576
            then t == s.(status := Batch(phase, commands + [line]))
            else t.status.Failed? && t.trace == s.trace
  {
  }

  // ---------------------------------------------------------------- the end

  /** The input may end between requests when every lease was used, and nowhere else. */
  lemma EndIff(env: Environment, url: string, s: State)
    requires s.Live()
    ensures EndInput(s).status.Finished? <==> s.status.Reading? && s.leases == map[]
    ensures !EndInput(s).status.Finished? ==> EndInput(s).status.Failed?
    ensures s.status.Reading? ==>
              Feed(env, url, s, "") == s.(status := if s.leases == map[] then Finished else Failed(IncompleteLease))
  {
  }

  /** A session that ended well did so between requests, at a blank line or at the very end of its input,
      with no lease left over. */
  lemma FinishedMeans(env: Environment, url: string, input: string) returns (n: nat)
    requires SessionOutcome(env, url, input).status.Finished?
    ensures var (lines, clean) := Frames(input);
            && n <= |lines| && (if n < |lines| then lines[n] == "" else clean)
            && var s := RunFrom(Feeder(env, url), INITIAL, lines[..n]);
               s.status.Reading? && s.leases == map[]
  {
    var feed := Feeder(env, url);
    FeederOrderly(env, url);
    DriveIsRun(feed, INITIAL, input);
    var (lines, clean) := Frames(input);
    var last := RunFrom(feed, INITIAL, lines);
    if last.Live() {
      n := |lines|;
      assert lines[..n] == lines;
      EndIff(env, url, last);
    } else {
      n := FinishingLine(env, url, lines);
    }
  }

  /** The line that finished a run. */
  lemma {:induction false} FinishingLine(env: Environment, url: string, lines: seq<string>) returns (n: nat)
    requires RunFrom(Feeder(env, url), INITIAL, lines).status.Finished?
    ensures n < |lines| && lines[n] == ""
    ensures var s := RunFrom(Feeder(env, url), INITIAL, lines[..n]); s.status.Reading? && s.leases == map[]
  {
    if lines != [] {
      var init, last := lines[..|lines| - 1], lines[|lines| - 1];
      var s := RunFrom(Feeder(env, url), INITIAL, init);
      if s.status.Finished? {
        n := FinishingLine(env, url, init);
        assert init[..n] == lines[..n];
      } else {
        n := |lines| - 1;
        OnlyBlankFinishes(env, url, s, last);
      }
    }
  }

  lemma OnlyBlankFinishes(env: Environment, url: string, s: State, line: string)
    requires !s.status.Finished? && Feed(env, url, s, line).status.Finished?
    ensures s.status.Reading? && line == "" && s.leases == map[]
  {
  }
}
