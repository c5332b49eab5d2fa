/** The texts that the validators of a request accept (src/git_transport.rs), each described by how it is
written instead of by how it is taken apart. */
module GitGrammar {
  import opened Text
  import opened GitPlan

  // ---------------------------------------------------------------- words

  /** Letters, digits and the characters of `extra`. */
  predicate Made(s: string, extra: string) {
    forall i :: 0 <= i < |s| ==>
      'a' <= s[i] <= 'z' || 'A' <= s[i] <= 'Z' || '0' <= s[i] <= '9' || s[i] in extra
  }

  /** `https://github.com/OWNER/REPOSITORY.git`. */
  ghost predicate UrlText(url: string) {
    exists owner, repository ::
      UrlName(owner) && UrlName(repository) && url == "https://github.com/" + (owner + ['/'] + repository + ".git")
  }

  predicate UrlName(name: string) {
    name !in {"", ".", ".."} && Made(name, "-_.")
  }

  lemma UrlNameIff(name: string)
    ensures UrlName(name) <==> UrlPart(name)
    ensures UrlName(name) ==> '/' !in name
  {
    if '/' in name {
      var i :| 0 <= i < |name| && name[i] == '/';
    }
  }

  lemma SplitOneSlash(a: string, c: char, b: string)
    requires c !in a && c !in b
    ensures Split(a + [c] + b, c) == [a] + [b]
  {
    IndexOfConcat(a, c, b);
    assert (a + [c] + b)[..|a|] == a && (a + [c] + b)[|a| + 1..] == b;
  }

  lemma UrlIff(url: string)
    ensures ValidUrl(url) <==> UrlText(url)
  {
    if ValidUrl(url) {
      UrlParts(url);
    }
    if owner, repository :| UrlName(owner) && UrlName(repository)
                            && url == "https://github.com/" + (owner + ['/'] + repository + ".git") {
      UrlNameIff(owner);
      UrlNameIff(repository);
      UrlOf(owner, repository, "https://github.com/", ".git");
    }
  }

  lemma UrlParts(url: string)
    requires ValidUrl(url)
    ensures UrlText(url)
  {
    var rest := StripPrefix(url, "https://github.com/").value;
    var path := StripSuffix(rest, ".git").value;
    var parts := Split(path, '/');
    StripPrefixParts(url, "https://github.com/");
    StripSuffixParts(rest, ".git");
    JoinSplit(path, '/');
    JoinTwo(parts, "/");
    UrlNameIff(parts[0]);
    UrlNameIff(parts[1]);
    assert url == "https://github.com/" + (parts[0] + ['/'] + parts[1] + ".git");
  }

  lemma JoinTwo(parts: seq<string>, separator: string)
    requires |parts| == 2
    ensures Join(parts, separator) == parts[0] + separator + parts[1]
  {
    assert parts[1..] == [parts[1]];
  }

  lemma UrlOf(owner: string, repository: string, prefix: string, suffix: string)
    requires '/' !in owner && '/' !in repository
    ensures var url := prefix + (owner + ['/'] + repository + suffix);
            && StripPrefix(url, prefix) == Some(owner + ['/'] + repository + suffix)
            && StripSuffix(owner + ['/'] + repository + suffix, suffix) == Some(owner + ['/'] + repository)
            && Split(owner + ['/'] + repository, '/') == [owner] + [repository]
  {
    var path := owner + ['/'] + repository;
    StripPrefixConcat(prefix, path + suffix);
    assert (path + suffix)[|path|..] == suffix && (path + suffix)[..|path|] == path;
    SplitOneSlash(owner, '/', repository);
  }

  /** Forty lower-case hexadecimal digits. */
  predicate OidText(oid: string) {
    |oid| == 40 && forall i :: 0 <= i < 40 ==> oid[i] in "0123456789abcdef"
  }

  lemma OidIff(oid: string)
    ensures ValidOid(oid) <==> OidText(oid)
  {
  }

  /** Every option and every value that it can have. */
  predicate OptionText(key: string, value: string) {
    || (key in {"progress", "cloning", "followtags", "check-connectivity", "dry-run"} && value in {"true", "false"})
    || (key == "verbosity" && value in {"0", "1", "2", "3"})
  }

  lemma OptionIff(key: string, value: string)
    ensures ValidOption(key, value) <==> OptionText(key, value)
  {
  }

  // ---------------------------------------------------------------- branches

  /** One component of a branch name: no dot at either end, no two in a row, and not a lock file. */
  predicate Component(part: string) {
    && part != "" && Made(part, "_.-")
    && part[0] != '.' && part[|part| - 1] != '.'
    && !Dots(part)
    && !(|part| >= 5 && part[|part| - 5..] == ".lock")
  }

  /** `refs/heads/` and components with slashes between them, 4096 bytes in all. */
  ghost predicate BranchText(value: string) {
    |value| <= 4096 && exists parts :: Components(parts) && value == "refs/heads/" + Join(parts, "/")
  }

  predicate Components(parts: seq<string>) {
    parts != [] && forall k :: 0 <= k < |parts| ==> Component(parts[k])
  }

  lemma {:induction false} SplitJoin(parts: seq<string>, c: char)
    requires parts != [] && forall k :: 0 <= k < |parts| ==> c !in parts[k]
    ensures Split(Join(parts, [c]), c) == parts
  {
    if |parts| == 1 {
      assert parts == [parts[0]];
    } else {
      SplitJoin(parts[1..], c);
      SplitHead(parts[0], c, Join(parts[1..], [c]));
      assert parts == [parts[0]] + parts[1..];
    }
  }

  lemma SplitHead(head: string, c: char, tail: string)
    requires c !in head
    ensures Split(head + [c] + tail, c) == [head] + Split(tail, c)
  {
    IndexOfConcat(head, c, tail);
    assert (head + [c] + tail)[..|head|] == head && (head + [c] + tail)[|head| + 1..] == tail;
  }

  predicate All(s: string, good: char -> bool) {
    forall i :: 0 <= i < |s| ==> good(s[i])
  }

  lemma AllConcat(a: string, b: string, good: char -> bool)
    ensures All(a + b, good) <==> All(a, good) && All(b, good)
  {
    if All(a + b, good) {
      assert forall i :: 0 <= i < |a| ==> (a + b)[i] == a[i];
      assert forall i :: 0 <= i < |b| ==> (a + b)[|a| + i] == b[i];
    }
  }

  /** A property of characters holds of a joined text exactly when it holds of the parts. */
  lemma {:induction false} AllJoined(parts: seq<string>, separator: string, good: char -> bool)
    requires All(separator, good)
    ensures All(Join(parts, separator), good) <==> forall k :: 0 <= k < |parts| ==> All(parts[k], good)
  {
    if |parts| > 1 {
      var tail := parts[1..];
      AllJoined(tail, separator, good);
      AllConcat(parts[0] + separator, Join(tail, separator), good);
      AllConcat(parts[0], separator, good);
      assert forall k :: 1 <= k < |parts| ==> parts[k] == tail[k - 1];
      assert forall k :: 0 <= k < |tail| ==> tail[k] == parts[k + 1];
    }
  }

  /** Two dots in a row somewhere. */
  predicate Dots(s: string) {
    exists i :: 0 <= i < |s| - 1 && DotsAt(s, i)
  }

  predicate DotsAt(s: string, i: int)
    requires 0 <= i < |s| - 1
  {
    s[i] == '.' && s[i + 1] == '.'
  }

  lemma DotsIff(s: string)
    ensures HasSubstring(s, "..") <==> Dots(s)
  {
    if HasSubstring(s, "..") {
      var i :| 0 <= i <= |s| && ".." <= s[i..];
      assert s[i..][0] == s[i] && s[i..][1] == s[i + 1];
      assert DotsAt(s, i);
    }
    if Dots(s) {
      var i :| 0 <= i < |s| - 1 && DotsAt(s, i);
      assert s[i..][..2] == "..";
    }
  }

  lemma DotsConcat(head: string, c: char, tail: string)
    requires c != '.'
    ensures Dots(head + [c] + tail) <==> Dots(head) || Dots(tail)
  {
    var all := head + [c] + tail;
    if Dots(head) {
      var i :| 0 <= i < |head| - 1 && DotsAt(head, i);
      assert DotsAt(all, i);
    }
    if Dots(tail) {
      var i :| 0 <= i < |tail| - 1 && DotsAt(tail, i);
      assert DotsAt(all, |head| + 1 + i);
    }
    if Dots(all) {
      var i :| 0 <= i < |all| - 1 && DotsAt(all, i);
      if i + 1 < |head| {
        assert DotsAt(head, i);
      } else {
        assert i > |head|;
        assert DotsAt(tail, i - |head| - 1);
      }
    }
  }

  lemma {:induction false} DotsJoin(parts: seq<string>, c: char)
    requires c != '.'
    ensures Dots(Join(parts, [c])) <==> exists k :: 0 <= k < |parts| && Dots(parts[k])
  {
    if |parts| == 1 {
      assert Dots(Join(parts, [c])) == Dots(parts[0]);
    } else if |parts| > 1 {
      DotsJoin(parts[1..], c);
      DotsConcat(parts[0], c, Join(parts[1..], [c]));
      if k :| 0 <= k < |parts[1..]| && Dots(parts[1..][k]) {
        assert parts[k + 1] == parts[1..][k];
      }
      if k :| 0 <= k < |parts| && Dots(parts[k]) {
        assert k == 0 || parts[1..][k - 1] == parts[k];
      }
    }
  }

  /** What the validator asks of a component. */
  predicate PartOk(part: string, good: char -> bool) {
    BranchPart(part) && !Dots(part) && All(part, good)
  }

  lemma ComponentIff(part: string)
    ensures Component(part) <==> '/' !in part && PartOk(part, RefChar)
  {
    MadeIff(part);
    assert |".lock"| == 5;
  }

  lemma MadeIff(part: string)
    ensures Made(part, "_.-") <==> '/' !in part && All(part, RefChar)
  {
    if '/' in part {
      var i :| 0 <= i < |part| && part[i] == '/';
      assert !Made(part, "_.-");
    } else {
      assert forall i :: 0 <= i < |part| ==> part[i] in part;
    }
  }

  lemma HeadsPrefix()
    ensures "refs/heads/" == "refs" + ['/'] + ("heads" + ['/'])
    ensures '/' !in "refs" && '/' !in "heads"
    ensures BranchPart("refs") && BranchPart("heads") && !Dots("refs") && !Dots("heads")
    ensures All("refs/heads/", RefChar)
  {
    assert |".lock"| == 5 && "heads"[0] == 'h' && "heads"[5 - 5..] == "heads";
    assert forall i :: 0 <= i < 4 ==> "refs"[i] != '.';
    assert forall i :: 0 <= i < 5 ==> "heads"[i] != '.';
  }

  lemma SplitPrefixed(prefix: string, a: string, b: string, c: char, tail: string)
    requires c !in a && c !in b && prefix == a + [c] + (b + [c])
    ensures Split(prefix + tail, c) == [a] + ([b] + Split(tail, c))
  {
    var rest := b + [c] + tail;
    Associate(a + [c], b + [c], tail);
    SplitHead(a, c, rest);
    SplitHead(b, c, tail);
  }

  /** The split of a branch. */
  lemma BranchSplit(tail: string)
    ensures Split("refs/heads/" + tail, '/') == ["refs"] + (["heads"] + Split(tail, '/'))
    ensures Dots("refs/heads/" + tail) <==> Dots(tail)
  {
    HeadsPrefix();
    SplitPrefixed("refs/heads/", "refs", "heads", '/', tail);
    DotsPrefixed("refs/heads/", "refs", "heads", '/', tail);
  }

  lemma DotsPrefixed(prefix: string, a: string, b: string, c: char, tail: string)
    requires c != '.' && !Dots(a) && !Dots(b) && prefix == a + [c] + (b + [c])
    ensures Dots(prefix + tail) <==> Dots(tail)
  {
    Associate(a + [c], b + [c], tail);
    DotsConcat(a, c, b + [c] + tail);
    DotsConcat(b, c, tail);
  }

  /** The conditions of the validator on a name below `refs/heads/`, in terms of its components. */
  lemma TailIff(tail: string, good: char -> bool, parts: seq<string>)
    requires parts == Split(tail, '/') && good('/')
    ensures All(tail, good) && !Dots(tail) && (forall part :: part in parts ==> BranchPart(part))
            <==> forall k :: 0 <= k < |parts| ==> PartOk(parts[k], good)
  {
    JoinSplit(tail, '/');
    AllJoined(parts, "/", good);
    DotsJoin(parts, '/');
    assert forall k :: 0 <= k < |parts| ==> parts[k] in parts;
  }

  lemma ComponentsIff(parts: seq<string>)
    requires parts != [] && forall k :: 0 <= k < |parts| ==> '/' !in parts[k]
    ensures Components(parts) <==> forall k :: 0 <= k < |parts| ==> PartOk(parts[k], RefChar)
  {
    forall k | 0 <= k < |parts|
      ensures Component(parts[k]) <==> PartOk(parts[k], RefChar)
    {
      ComponentIff(parts[k]);
    }
  }

  lemma {:induction false} SplitFree(s: string, c: char)
    ensures forall part :: part in Split(s, c) ==> c !in part
    decreases |s|
  {
    var i := IndexOf(s, c);
    if i < |s| {
      SplitFree(s[i + 1..], c);
    }
  }

  /** The validator on a name with the right prefix, in terms of what is below it. */
  lemma PrefixedIff(tail: string, parts: seq<string>)
    requires parts == Split(tail, '/')
    ensures ValidBranch("refs/heads/" + tail)
            <==> |"refs/heads/" + tail| <= 4096
                 && All(tail, RefChar) && !Dots(tail) && forall part :: part in parts ==> BranchPart(part)
  {
    HeadsPrefix();
    StripPrefixConcat("refs/heads/", tail);
    DotsIff("refs/heads/" + tail);
    BranchSplit(tail);
    AllConcat("refs/heads/", tail, RefChar);
    ThreeIff("refs", "heads", parts, BranchPart);
  }

  lemma ThreeIff(a: string, b: string, rest: seq<string>, good: string -> bool)
    requires good(a) && good(b)
    ensures (forall part :: part in [a] + ([b] + rest) ==> good(part)) <==> forall part :: part in rest ==> good(part)
  {
  }

  lemma PrefixedBranchIff(tail: string)
    ensures ValidBranch("refs/heads/" + tail)
            <==> |"refs/heads/" + tail| <= 4096 && Components(Split(tail, '/'))
  {
    var parts := Split(tail, '/');
    PrefixedIff(tail, parts);
    TailIff(tail, RefChar, parts);
    SplitFree(tail, '/');
    ComponentsIff(parts);
  }

  lemma BranchIff(value: string)
    ensures ValidBranch(value) <==> BranchText(value)
  {
    if ValidBranch(value) {
      StripPrefixParts(value, "refs/heads/");
      var tail := StripPrefix(value, "refs/heads/").value;
      PrefixedBranchIff(tail);
      JoinSplit(tail, '/');
      assert value == "refs/heads/" + Join(Split(tail, '/'), "/");
    }
    if BranchText(value) {
      var parts :| Components(parts) && value == "refs/heads/" + Join(parts, "/");
      forall k | 0 <= k < |parts|
        ensures '/' !in parts[k]
      {
        ComponentIff(parts[k]);
      }
      SplitJoin(parts, '/');
      PrefixedBranchIff(Join(parts, "/"));
    }
  }

  // ---------------------------------------------------------------- commands

  /** `fetch OID REFERENCE`. */
  ghost predicate Fetched(line: string) {
    exists oid, reference :: FetchText(line, oid, reference)
  }

  lemma FetchIff(line: string)
    ensures FetchLine(line) <==> Fetched(line)
  {
    if FetchLine(line) {
      FetchLineText(line);
      var parts := Split(line, ' ');
      assert FetchText(line, parts[1], parts[2]);
    }
    if Fetched(line) {
      var oid, reference :| FetchText(line, oid, reference);
      FetchSplit(line, oid, reference);
    }
  }

  predicate FetchText(line: string, oid: string, reference: string) {
    && line == "fetch" + [' '] + (oid + [' '] + reference)
    && ValidOid(oid) && (reference == "HEAD" || ValidBranch(reference))
  }

  lemma FetchSplit(line: string, oid: string, reference: string)
    requires FetchText(line, oid, reference)
    ensures Split(line, ' ') == ["fetch"] + ([oid] + [reference])
  {
    OidIsWord(oid);
    WordExcludes(oid);
    if reference == "HEAD" {
      assert PlainWord("HEAD");
    } else {
      BranchIsWord(reference);
    }
    WordExcludes(reference);
    assert PlainWord("fetch");
    WordExcludes("fetch");
    SplitHead("fetch", ' ', oid + [' '] + reference);
    SplitHead(oid, ' ', reference);
  }

  /** `push [+]OID:REFERENCE` with an object that is not null, not forced over a lease. */
  lemma PushIff(line: string, leases: map<string, string>)
    ensures PushCommandOk(line, leases)
            <==> exists force, oid, reference :: PushText(line, leases, force, oid, reference)
  {
    if PushCommandOk(line, leases) {
      PushParts(line, leases);
    }
    if force, oid, reference :| PushText(line, leases, force, oid, reference) {
      PushOf(line, leases, force, oid, reference);
    }
  }

  predicate PushText(line: string, leases: map<string, string>, force: bool, oid: string, reference: string) {
    && line == "push " + ((if force then "+" else "") + oid + ":" + reference)
    && ValidOid(oid) && (exists i :: 0 <= i < 40 && oid[i] != '0')
    && ValidBranch(reference) && (force ==> reference !in leases)
  }

  lemma PushParts(line: string, leases: map<string, string>)
    requires PushCommandOk(line, leases)
    ensures exists force, oid :: PushText(line, leases, force, oid, Destination(line))
  {
    PushLineShape(line);
    var push := ParsePush(line).value;
    OidIsWord(push.source);
    assert Destination(line) == push.reference;
    assert PushText(line, leases, push.force, push.source, push.reference);
  }

  lemma PushOf(line: string, leases: map<string, string>, force: bool, oid: string, reference: string)
    requires PushText(line, leases, force, oid, reference)
    ensures PushCommandOk(line, leases) && Destination(line) == reference
  {
    OidIsWord(oid);
    WordExcludes(oid);
    assert "+"[0] == '+';
    ParsePushLine(Push(force, oid, reference));
  }

  // ---------------------------------------------------------------- requests

  /** One command for each of `destinations`, which are distinct and take in every lease. */
  ghost predicate Pushed(commands: seq<string>, leases: map<string, string>, destinations: seq<string>) {
    && |destinations| == |commands|
    && (forall i :: 0 <= i < |commands| ==> PushedTo(commands[i], leases, destinations[i]))
    && (forall i, j :: 0 <= i < j < |destinations| ==> destinations[i] != destinations[j])
    && (forall reference :: reference in leases ==> reference in destinations)
  }

  ghost predicate PushedTo(line: string, leases: map<string, string>, reference: string) {
    exists force, oid :: PushText(line, leases, force, oid, reference)
  }

  lemma PushedToIff(line: string, leases: map<string, string>, reference: string)
    ensures PushedTo(line, leases, reference) <==> PushCommandOk(line, leases) && Destination(line) == reference
  {
    if PushedTo(line, leases, reference) {
      var force, oid :| PushText(line, leases, force, oid, reference);
      PushOf(line, leases, force, oid, reference);
    }
    if PushCommandOk(line, leases) {
      PushParts(line, leases);
    }
  }

  lemma PushesIff(commands: seq<string>, leases: map<string, string>)
    ensures PushesOk(commands, leases) <==> exists destinations :: Pushed(commands, leases, destinations)
  {
    if PushesOk(commands, leases) {
      DestinationsPushed(commands, leases);
    }
    if destinations :| Pushed(commands, leases, destinations) {
      PushedOk(commands, leases, destinations);
    }
  }

  lemma DestinationsPushed(commands: seq<string>, leases: map<string, string>)
    requires PushesOk(commands, leases)
    ensures exists destinations :: Pushed(commands, leases, destinations)
  {
    var destinations := seq(|commands|, i requires 0 <= i < |commands| => Destination(commands[i]));
    forall i | 0 <= i < |commands|
      ensures PushedTo(commands[i], leases, destinations[i])
    {
      PushedToIff(commands[i], leases, destinations[i]);
    }
    forall reference | reference in leases
      ensures reference in destinations
    {
      var i :| 0 <= i < |commands| && Destination(commands[i]) == reference;
      assert destinations[i] == reference;
    }
    assert Pushed(commands, leases, destinations);
  }

  lemma PushedOk(commands: seq<string>, leases: map<string, string>, destinations: seq<string>)
    requires Pushed(commands, leases, destinations)
    ensures PushesOk(commands, leases)
  {
    forall i | 0 <= i < |commands|
      ensures PushCommandOk(commands[i], leases) && Destination(commands[i]) == destinations[i]
    {
      PushedToIff(commands[i], leases, destinations[i]);
    }
  }

  /** The four phases, each with its commands. */
  ghost predicate Commanded(phase: string, commands: seq<string>, leases: map<string, string>) {
    || (phase in {"list", "list for-push"} && commands == [phase])
    || (phase == "fetch" && forall line :: line in commands ==> Fetched(line))
    || (phase == "push" && exists destinations :: Pushed(commands, leases, destinations))
  }

  lemma CommandedIff(plan: RemotePlan)
    ensures PhaseOk(plan) <==> Commanded(plan.phase, plan.commands, plan.leases)
  {
    if plan.phase == "fetch" {
      forall line | line in plan.commands
        ensures FetchLine(line) <==> Fetched(line)
      {
        FetchIff(line);
      }
    } else if plan.phase == "push" {
      PushesIff(plan.commands, plan.leases);
    }
  }

  /** The limits on numbers and sizes: 4096 entries and 1 MiB for leases and commands each. */
  predicate Limited(plan: RemotePlan) {
    && |plan.url| <= 8192
    && |plan.leases| <= 4096 && TotalLength(LeaseValues(plan.leases)) <= 0x10_0000
    && 1 <= |plan.commands| <= 4096 && TotalLength(plan.commands) <= 0x10_0000
    && TotalLength(Wire(plan)) <= 0x10_4000
  }

  ghost predicate LeasesText(leases: map<string, string>) {
    forall reference :: reference in leases ==> BranchText(reference) && OidText(leases[reference])
  }

  predicate OptionsText(options: map<string, string>) {
    forall key :: key in options ==> OptionText(key, options[key])
  }

  /** `RemotePlan::validate` accepts exactly the requests that are written like this: nothing is left of
      its guards on the printed lines but the one on their total size. */
  lemma ValidIff(plan: RemotePlan)
    ensures Valid(plan)
            <==> && UrlText(plan.url) && OptionsText(plan.options) && LeasesText(plan.leases) && Limited(plan)
                 && (plan.leases != map[] ==> plan.phase == "push")
                 && Commanded(plan.phase, plan.commands, plan.leases)
  {
    UrlIff(plan.url);
    OptionsIff(plan.options);
    LeasesIff(plan.leases);
    CommandedIff(plan);
    if UrlOk(plan) && OptionsOk(plan) && LeasesOk(plan) && CommandsOk(plan) {
      RedundantGuards(plan);
    }
  }

  lemma OptionsIff(options: map<string, string>)
    ensures (forall key :: key in options ==> ValidOption(key, options[key])) <==> OptionsText(options)
  {
    forall key | key in options
      ensures ValidOption(key, options[key]) <==> OptionText(key, options[key])
    {
      OptionIff(key, options[key]);
    }
  }

  lemma LeasesIff(leases: map<string, string>)
    ensures (forall reference :: reference in leases ==> ValidBranch(reference) && ValidOid(leases[reference]))
            <==> LeasesText(leases)
  {
    forall reference | reference in leases
      ensures ValidBranch(reference) && ValidOid(leases[reference])
              <==> BranchText(reference) && OidText(leases[reference])
    {
      BranchIff(reference);
      OidIff(leases[reference]);
    }
  }
}
