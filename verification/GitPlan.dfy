/** The frozen request of the protected Git remote helper (src/git_transport.rs): its validation,
its printed form for the approver (`Wire`) and its printed form for the child (`Payload`). */
module GitPlan {
  import opened Text

  const MAX_ENTRIES: nat := 4096
  const MAX_BYTES: nat := 1024 * 1024

  datatype RemotePlan = RemotePlan(
    url: string,
    phase: string,
    options: map<string, string>,
    leases: map<string, string>,
    commands: seq<string>)

  // ---------------------------------------------------------------- validators

  predicate UrlPart(part: string) {
    && part != "" && part != "." && part != ".."
    && forall i :: 0 <= i < |part| ==> Alphanumeric(part[i]) || part[i] in "-_."
  }

  predicate ValidUrl(value: string) {
    var rest := StripPrefix(value, "https://github.com/");
    rest.Some? &&
    var path := StripSuffix(rest.value, ".git");
    path.Some? &&
    var parts := Split(path.value, '/');
    |parts| == 2 && UrlPart(parts[0]) && UrlPart(parts[1])
  }

  predicate ValidOid(value: string) {
    |value| == 40 && forall i :: 0 <= i < |value| ==> Digit(value[i]) || 'a' <= value[i] <= 'f'
  }

  predicate RefChar(c: char) {
    Alphanumeric(c) || c == '_' || c == '.' || c == '/' || c == '-'
  }

  predicate BranchPart(part: string) {
    part != "" && part[0] != '.' && part[|part| - 1] != '.' && !EndsWith(part, ".lock")
  }

  predicate ValidBranch(value: string) {
    && "refs/heads/" <= value
    && |value| <= 4096
    && (forall i :: 0 <= i < |value| ==> RefChar(value[i]))
    && !HasSubstring(value, "..")
    && (forall part :: part in Split(value, '/') ==> BranchPart(part))
  }

  predicate ValidOption(key: string, value: string) {
    if key in FLAG_OPTIONS then value == "true" || value == "false"
    else key == "verbosity" && (value == "0" || value == "1" || value == "2" || value == "3")
  }

  const FLAG_OPTIONS := {"progress", "cloning", "followtags", "check-connectivity", "dry-run"}

  // ---------------------------------------------------------------- printing

  function LeaseLine(reference: string, oid: string): string {
    OptionLine("cas", reference + ":" + oid)
  }

  function OptionLine(key: string, value: string): string {
    "option " + (key + " " + value)
  }

  /** The `reference:oid` texts in `BTreeMap` order. */
  function LeaseValues(leases: map<string, string>): (values: seq<string>)
    ensures |values| == |leases|
  {
    var keys := Ascending(leases.Keys);
    seq(|keys|, i requires 0 <= i < |keys| => keys[i] + ":" + leases[keys[i]])
  }

  function LeaseLines(leases: map<string, string>): (lines: seq<string>)
    ensures |lines| == |leases|
  {
    var keys := Ascending(leases.Keys);
    seq(|keys|, i requires 0 <= i < |keys| => LeaseLine(keys[i], leases[keys[i]]))
  }

  function OptionLines(options: map<string, string>): (lines: seq<string>)
    ensures |lines| == |options|
  {
    var keys := Ascending(options.Keys);
    seq(|keys|, i requires 0 <= i < |keys| => OptionLine(keys[i], options[keys[i]]))
  }

  function Wire(plan: RemotePlan): seq<string> {
    ["remote-helper", plan.url, plan.phase]
    + LeaseLines(plan.leases) + OptionLines(plan.options) + [""] + plan.commands
  }

  function PayloadLines(plan: RemotePlan): seq<string> {
    LeaseLines(plan.leases) + OptionLines(plan.options) + plan.commands
  }

  /** Batch terminator, then end of session. */
  function Payload(plan: RemotePlan): string {
    Join(PayloadLines(plan), "\n") + "\n\n\n"
  }

  // ---------------------------------------------------------------- acknowledgements

  /** The answer of a helper to `count` options and leases. */
  function Acknowledgements(count: nat): string {
    if count == 0 then "" else "ok\n" + Acknowledgements(count - 1)
  }

  lemma {:induction false} OneMoreAcknowledged(count: nat)
    ensures Acknowledgements(count + 1) == Acknowledgements(count) + "ok\n"
  {
    if count > 0 {
      OneMoreAcknowledged(count - 1);
      Associate("ok\n", Acknowledgements(count - 1), "ok\n");
    } else {
      assert "ok\n" + "" == "" + "ok\n";
    }
  }

  /** What follows `count` acknowledgements at the front of `response`, if they are there. */
  function Acknowledged(count: nat, response: string): Option<string> {
    if count == 0 then Some(response)
    else if "ok\n" <= response then Acknowledged(count - 1, response[3..])
    else None
  }

  lemma {:induction false} AcknowledgedIff(count: nat, response: string, rest: string)
    ensures Acknowledged(count, response) == Some(rest) <==> response == Acknowledgements(count) + rest
    decreases count
  {
    if count == 0 {
      assert "" + rest == rest;
    } else {
      Associate("ok\n", Acknowledgements(count - 1), rest);
      if "ok\n" <= response {
        Rejoin(response, 3);
        AcknowledgedIff(count - 1, response[3..], rest);
        StripPrefixConcat("ok\n", Acknowledgements(count - 1) + rest);
      } else {
        StripPrefixConcat("ok\n", Acknowledgements(count - 1) + rest);
      }
    }
  }

  // ---------------------------------------------------------------- validity

  predicate NoControl(s: string) {
    '\n' !in s && '\r' !in s && '\0' !in s
  }

  predicate WireLine(line: string) {
    |line| <= 8192 && NoControl(line)
  }

  predicate AllWireLines(lines: seq<string>) {
    forall line :: line in lines ==> WireLine(line)
  }

  /** The length and content guards on the printed lines. */
  predicate WireBounded(plan: RemotePlan) {
    |Wire(plan)| <= 8202 && AllWireLines(Wire(plan))
  }

  predicate OptionsOk(plan: RemotePlan) {
    forall key :: key in plan.options ==> ValidOption(key, plan.options[key])
  }

  predicate LeasesOk(plan: RemotePlan) {
    && |plan.leases| <= MAX_ENTRIES
    && TotalLength(LeaseValues(plan.leases)) <= MAX_BYTES
    && (forall reference :: reference in plan.leases ==>
          ValidBranch(reference) && ValidOid(plan.leases[reference]))
    && (plan.leases == map[] || plan.phase == "push")
  }

  predicate FetchLine(line: string) {
    var parts := Split(line, ' ');
    && |parts| == 3 && parts[0] == "fetch" && ValidOid(parts[1])
    && (parts[2] == "HEAD" || ValidBranch(parts[2]))
  }

  datatype Push = Push(force: bool, source: string, reference: string)

  /** `push [+]SOURCE:REFERENCE`. */
  function ParsePush(line: string): Option<Push> {
    match StripPrefix(line, "push ")
    case None => None
    case Some(refspec) =>
      match SplitOnce(refspec, ':')
      case None => None
      case Some((source, reference)) =>
        match StripPrefix(source, "+")
        case Some(bare) => Some(Push(true, bare, reference))
        case None => Some(Push(false, source, reference))
  }

  function Mark(force: bool): string {
    if force then "+" else ""
  }

  function PushLine(push: Push): string {
    "push " + (Mark(push.force) + push.source + ":" + push.reference)
  }

  predicate PushOk(push: Push, leases: map<string, string>) {
    && ValidOid(push.source)
    && (exists i :: 0 <= i < |push.source| && push.source[i] != '0')
    && ValidBranch(push.reference)
    && !(push.force && push.reference in leases)
  }

  predicate PushCommandOk(line: string, leases: map<string, string>) {
    ParsePush(line).Some? && PushOk(ParsePush(line).value, leases)
  }

  function Destination(line: string): string {
    match ParsePush(line)
    case Some(push) => push.reference
    case None => ""
  }

  /** Every command is an acceptable push, no branch is pushed twice, every lease is used. */
  predicate PushesOk(commands: seq<string>, leases: map<string, string>) {
    && (forall i :: 0 <= i < |commands| ==> PushCommandOk(commands[i], leases))
    && (forall i, j :: 0 <= i < j < |commands| ==>
          Destination(commands[i]) != Destination(commands[j]))
    && (forall reference :: reference in leases ==>
          exists i :: 0 <= i < |commands| && Destination(commands[i]) == reference)
  }

  predicate PhaseOk(plan: RemotePlan) {
    if plan.phase == "list" || plan.phase == "list for-push" then plan.commands == [plan.phase]
    else if plan.phase == "fetch" then forall line :: line in plan.commands ==> FetchLine(line)
    else plan.phase == "push" && PushesOk(plan.commands, plan.leases)
  }

  predicate CommandsOk(plan: RemotePlan) {
    && plan.commands != [] && |plan.commands| <= MAX_ENTRIES
    && TotalLength(plan.commands) <= MAX_BYTES
    && PhaseOk(plan)
  }

  predicate UrlOk(plan: RemotePlan) {
    ValidUrl(plan.url) && |plan.url| <= 8192
  }

  /** What the clauses other than `WireBounded` demand. */
  predicate Acceptable(plan: RemotePlan) {
    && UrlOk(plan) && OptionsOk(plan) && LeasesOk(plan) && CommandsOk(plan)
    && TotalLength(Wire(plan)) <= MAX_BYTES + 16384
  }

  predicate Valid(plan: RemotePlan) {
    Acceptable(plan) && WireBounded(plan)
  }

  // ---------------------------------------------------------------- validate

  /** The `all` of the push branch, whose closure inserts into `destinations` as it goes. */
  method AllDistinct(commands: seq<string>, accepts: string -> bool, destination: string -> string)
    returns (ok: bool, destinations: set<string>)
    ensures ok <==>
              && (forall i :: 0 <= i < |commands| ==> accepts(commands[i]))
              && (forall i, j :: 0 <= i < j < |commands| ==>
                    destination(commands[i]) != destination(commands[j]))
    ensures ok ==> forall reference :: reference in destinations <==>
                     exists i :: 0 <= i < |commands| && destination(commands[i]) == reference
  {
    destinations := {};
    for n := 0 to |commands|
      invariant forall i :: 0 <= i < n ==> accepts(commands[i])
      invariant forall i, j :: 0 <= i < j < n ==>
                  destination(commands[i]) != destination(commands[j])
      invariant forall reference :: reference in destinations <==>
                  exists i :: 0 <= i < n && destination(commands[i]) == reference
    {
      if !accepts(commands[n]) || destination(commands[n]) in destinations {
        return false, destinations;
      }
      destinations := destinations + {destination(commands[n])};
    }
    ok := true;
  }

  method CheckPushes(commands: seq<string>, leases: map<string, string>) returns (ok: bool)
    ensures ok <==> PushesOk(commands, leases)
  {
    var destinations;
    ok, destinations := AllDistinct(commands, line => PushCommandOk(line, leases), Destination);
    if ok {
      ok := leases.Keys <= destinations;
    }
  }

  method Validate(plan: RemotePlan) returns (ok: bool)
    ensures ok <==> Valid(plan)
  {
    if !(UrlOk(plan) && OptionsOk(plan) && LeasesOk(plan) && WireBounded(plan)
         && TotalLength(Wire(plan)) <= MAX_BYTES + 16384
         && plan.commands != [] && |plan.commands| <= MAX_ENTRIES
         && TotalLength(plan.commands) <= MAX_BYTES) {
      return false;
    }
    if plan.phase == "push" {
      ok := CheckPushes(plan.commands, plan.leases);
    } else {
      ok := PhaseOk(plan);
    }
  }

  // ---------------------------------------------------------------- texts of valid parts

  /** Text that passes through every delimiter of the protocol: no space, colon or control byte. */
  predicate PlainWord(s: string) {
    forall i :: 0 <= i < |s| ==> RefChar(s[i])
  }

  predicate Printable(s: string) {
    forall i :: 0 <= i < |s| ==> ' ' <= s[i] <= '~'
  }

  /** A line that the child and the session can frame. */
  predicate PlainLine(s: string) {
    s != "" && |s| <= 4148 && Printable(s)
  }

  lemma WordExcludes(s: string)
    requires PlainWord(s)
    ensures ' ' !in s && ':' !in s && '+' !in s && Printable(s)
  {
  }

  lemma BranchIsWord(reference: string)
    requires ValidBranch(reference)
    ensures PlainWord(reference) && 11 <= |reference| <= 4096
  {
  }

  lemma OidIsWord(oid: string)
    requires ValidOid(oid)
    ensures PlainWord(oid) && |oid| == 40
  {
  }

  lemma PlainLineIsWireLine(line: string)
    requires PlainLine(line)
    ensures WireLine(line) && NoControl(line) && Ascii(line)
  {
  }

  lemma PrintableConcat(a: string, b: string)
    requires Printable(a) && Printable(b)
    ensures Printable(a + b)
  {
  }

  lemma WordPair(a: string, separator: string, b: string)
    requires PlainWord(a) && Printable(separator) && PlainWord(b)
    ensures Printable(a + separator + b)
  {
    WordExcludes(a);
    WordExcludes(b);
    PrintableConcat(a, separator);
    PrintableConcat(a + separator, b);
  }

  lemma LeaseLinePlain(reference: string, oid: string)
    requires ValidBranch(reference) && ValidOid(oid)
    ensures PlainLine(LeaseLine(reference, oid))
  {
    BranchIsWord(reference);
    OidIsWord(oid);
    WordPair(reference, ":", oid);
    PrintableConcat("cas" + " ", reference + ":" + oid);
    PrintableConcat("option ", "cas" + " " + (reference + ":" + oid));
  }

  lemma OptionWords(key: string, value: string)
    requires ValidOption(key, value)
    ensures PlainWord(key) && |key| <= 18 && key != "cas"
    ensures PlainWord(value) && |value| <= 5
  {
    assert |"check-connectivity"| == 18;
  }

  lemma OptionLinePlain(key: string, value: string)
    requires ValidOption(key, value)
    ensures PlainLine(OptionLine(key, value)) && ' ' !in key && key != "cas"
  {
    OptionWords(key, value);
    WordExcludes(key);
    WordPair(key, " ", value);
    PrintableConcat("option ", key + " " + value);
  }

  lemma FetchLineText(line: string)
    requires FetchLine(line)
    ensures line == "fetch" + " " + (Split(line, ' ')[1] + " " + Split(line, ' ')[2])
  {
    var parts := Split(line, ' ');
    JoinSplit(line, ' ');
    JoinThree(parts, " ");
  }

  lemma JoinThree(parts: seq<string>, separator: string)
    requires |parts| == 3
    ensures Join(parts, separator) == parts[0] + separator + (parts[1] + separator + parts[2])
  {
    assert parts == [parts[0]] + ([parts[1]] + [parts[2]]);
    JoinCons(parts[1], [parts[2]], separator);
    JoinCons(parts[0], [parts[1]] + [parts[2]], separator);
  }

  lemma FetchWords(oid: string, reference: string)
    requires ValidOid(oid) && (reference == "HEAD" || ValidBranch(reference))
    ensures Printable(oid + " " + reference) && |oid + " " + reference| <= 4142
  {
    OidIsWord(oid);
    if reference == "HEAD" {
      assert PlainWord("HEAD");
    } else {
      BranchIsWord(reference);
    }
    WordPair(oid, " ", reference);
  }

  lemma FetchLineShape(line: string)
    requires FetchLine(line)
    ensures PlainLine(line) && "fetch " <= line
  {
    FetchLineText(line);
    FetchWords(Split(line, ' ')[1], Split(line, ' ')[2]);
    FetchPrefix(Split(line, ' ')[1] + " " + Split(line, ' ')[2]);
  }

  lemma FetchPrefix(rest: string)
    requires Printable(rest) && |rest| <= 4142
    ensures PlainLine("fetch" + " " + rest) && "fetch " <= "fetch" + " " + rest
  {
    assert "fetch" + " " == "fetch ";
    PrintableConcat("fetch ", rest);
    StripPrefixConcat("fetch ", rest);
  }

  lemma PushLineShape(line: string)
    requires ParsePush(line).Some?
    ensures line == PushLine(ParsePush(line).value)
  {
    StripPrefixParts(line, "push ");
    var refspec := StripPrefix(line, "push ").value;
    SplitOnceParts(refspec, ':');
    var (source, reference) := SplitOnce(refspec, ':').value;
    StripPrefixParts(source, "+");
    assert "" + source == source;
  }

  lemma ParsePushLine(push: Push)
    requires ':' !in push.source && !("+" <= push.source)
    ensures ParsePush(PushLine(push)) == Some(push)
  {
    var source := Mark(push.force) + push.source;
    StripPrefixConcat("push ", source + ":" + push.reference);
    SplitOnceConcat(source, ':', push.reference);
    if push.force {
      StripPrefixConcat("+", push.source);
    } else {
      assert source == push.source;
    }
  }

  lemma PushLineWords(push: Push)
    requires PlainWord(push.source) && |push.source| == 40
    requires PlainWord(push.reference) && |push.reference| <= 4096
    ensures PlainLine(PushLine(push)) && "push " <= PushLine(push)
  {
    var marked := Mark(push.force) + push.source;
    WordExcludes(push.source);
    WordExcludes(push.reference);
    PrintableConcat(Mark(push.force), push.source);
    PrintableConcat(marked, ":");
    PrintableConcat(marked + ":", push.reference);
    PrintableConcat("push ", marked + ":" + push.reference);
    StripPrefixConcat("push ", marked + ":" + push.reference);
  }

  lemma PushCommandWords(line: string, leases: map<string, string>)
    requires PushCommandOk(line, leases)
    ensures var push := ParsePush(line).value;
            && PlainWord(push.source) && |push.source| == 40
            && PlainWord(push.reference) && |push.reference| <= 4096
  {
    BranchIsWord(ParsePush(line).value.reference);
    OidIsWord(ParsePush(line).value.source);
  }

  lemma PushLinePlain(line: string, leases: map<string, string>)
    requires PushCommandOk(line, leases)
    ensures PlainLine(line) && "push " <= line
  {
    var push := ParsePush(line).value;
    PushCommandWords(line, leases);
    PushLineWords(push);
    PushLineShape(line);
  }

  lemma CommandPlain(plan: RemotePlan, line: string)
    requires CommandsOk(plan) && line in plan.commands
    ensures PlainLine(line)
  {
    if plan.phase == "fetch" {
      FetchLineShape(line);
    } else if plan.phase == "push" {
      PushLinePlain(line, plan.leases);
    }
  }

  lemma LeaseLinesPlain(plan: RemotePlan, line: string)
    requires LeasesOk(plan) && line in LeaseLines(plan.leases)
    ensures PlainLine(line)
  {
    var keys := Ascending(plan.leases.Keys);
    var i :| 0 <= i < |keys| && line == LeaseLine(keys[i], plan.leases[keys[i]]);
    assert keys[i] in plan.leases;
    LeaseLinePlain(keys[i], plan.leases[keys[i]]);
  }

  lemma OptionLinesPlain(plan: RemotePlan, line: string)
    requires OptionsOk(plan) && line in OptionLines(plan.options)
    ensures PlainLine(line)
  {
    var keys := Ascending(plan.options.Keys);
    var i :| 0 <= i < |keys| && line == OptionLine(keys[i], plan.options[keys[i]]);
    assert keys[i] in plan.options;
    OptionLinePlain(keys[i], plan.options[keys[i]]);
  }

  /** Every line given to the child is non-empty printable text far below the framing limit. */
  lemma PayloadLinesPlain(plan: RemotePlan, line: string)
    requires OptionsOk(plan) && LeasesOk(plan) && CommandsOk(plan)
    requires line in PayloadLines(plan)
    ensures PlainLine(line)
  {
    if line in LeaseLines(plan.leases) {
      LeaseLinesPlain(plan, line);
    } else if line in OptionLines(plan.options) {
      OptionLinesPlain(plan, line);
    } else {
      CommandPlain(plan, line);
    }
  }

  // ---------------------------------------------------------------- redundant guards

  lemma UrlPartPrintable(part: string)
    requires UrlPart(part)
    ensures Printable(part)
  {
    assert "-_." == ['-', '_', '.'];
  }

  lemma UrlPrintable(url: string)
    requires ValidUrl(url)
    ensures Printable(url)
  {
    StripPrefixParts(url, "https://github.com/");
    var rest := StripPrefix(url, "https://github.com/").value;
    StripSuffixParts(rest, ".git");
    var path := StripSuffix(rest, ".git").value;
    UrlPathPrintable(path);
    PrintableConcat(path, ".git");
    PrintableConcat("https://github.com/", rest);
  }

  lemma UrlPathPrintable(path: string)
    requires var parts := Split(path, '/'); |parts| == 2 && UrlPart(parts[0]) && UrlPart(parts[1])
    ensures Printable(path)
  {
    var parts := Split(path, '/');
    UrlPartPrintable(parts[0]);
    UrlPartPrintable(parts[1]);
    JoinSplit(path, '/');
    JoinCons(parts[0], [parts[1]], "/");
    assert parts == [parts[0]] + [parts[1]];
    PrintableConcat(parts[0], "/");
    PrintableConcat(parts[0] + "/", parts[1]);
  }

  lemma PrintableIsClean(s: string)
    requires Printable(s)
    ensures NoControl(s)
  {
  }

  lemma PigeonholeOptions(options: map<string, string>)
    requires forall key :: key in options ==> ValidOption(key, options[key])
    ensures |options| <= 6
  {
    var all := FLAG_OPTIONS + {"verbosity"};
    assert options.Keys <= all;
    SubsetSize(options.Keys, all);
    assert all == {"progress", "cloning", "followtags", "check-connectivity", "dry-run", "verbosity"};
    SixOptions();
  }

  lemma SixOptions()
    ensures |FLAG_OPTIONS + {"verbosity"}| <= 6
  {
    UnionSize(FLAG_OPTIONS, {"verbosity"});
    FiveFlags();
  }

  lemma FiveFlags()
    ensures |FLAG_OPTIONS| <= 5
  {
    UnionSize({"progress", "cloning", "followtags", "check-connectivity"}, {"dry-run"});
    UnionSize({"progress", "cloning", "followtags"}, {"check-connectivity"});
    UnionSize({"progress", "cloning"}, {"followtags"});
    UnionSize({"progress"}, {"cloning"});
  }

  lemma UnionSize(a: set<string>, b: set<string>)
    ensures |a + b| <= |a| + |b|
  {
    assert a + b == a + (b - a);
    assert |a + (b - a)| == |a| + |b - a|;
    SubsetSize(b - a, b);
  }

  lemma {:induction false} SubsetSize(a: set<string>, b: set<string>)
    requires a <= b
    ensures |a| <= |b|
    decreases |a|
  {
    if a != {} {
      var x :| x in a;
      SubsetSize(a - {x}, b - {x});
    }
  }

  lemma WireMembers(plan: RemotePlan, line: string)
    requires line in Wire(plan)
    ensures line in PayloadLines(plan) || line in ["remote-helper", plan.url, plan.phase] || line == ""
  {
    InConcat(PayloadParts(plan), plan.commands, line);
    InConcat(WireParts(plan) + [""], plan.commands, line);
    InConcat(WireParts(plan), [""], line);
    InConcat(["remote-helper", plan.url, plan.phase] + LeaseLines(plan.leases),
             OptionLines(plan.options), line);
    InConcat(["remote-helper", plan.url, plan.phase], LeaseLines(plan.leases), line);
    InConcat(LeaseLines(plan.leases), OptionLines(plan.options), line);
  }

  function PayloadParts(plan: RemotePlan): seq<string> {
    LeaseLines(plan.leases) + OptionLines(plan.options)
  }

  function WireParts(plan: RemotePlan): seq<string> {
    ["remote-helper", plan.url, plan.phase] + LeaseLines(plan.leases) + OptionLines(plan.options)
  }

  lemma InConcat(a: seq<string>, b: seq<string>, line: string)
    ensures line in a + b <==> line in a || line in b
  {
  }

  lemma PhaseIsWireLine(plan: RemotePlan)
    requires PhaseOk(plan)
    ensures WireLine(plan.phase)
  {
  }

  lemma HeaderClean(plan: RemotePlan)
    requires UrlOk(plan) && PhaseOk(plan)
    ensures WireLine("remote-helper") && WireLine(plan.url) && WireLine(plan.phase)
  {
    UrlPrintable(plan.url);
    PrintableIsClean(plan.url);
    PhaseIsWireLine(plan);
  }

  lemma WireLineClean(plan: RemotePlan, line: string)
    requires UrlOk(plan) && OptionsOk(plan) && LeasesOk(plan) && CommandsOk(plan)
    requires line in Wire(plan)
    ensures WireLine(line)
  {
    WireMembers(plan, line);
    if line in PayloadLines(plan) {
      PayloadLinesPlain(plan, line);
      PlainLineIsWireLine(line);
    } else {
      HeaderClean(plan);
      var header := ["remote-helper", plan.url, plan.phase];
      assert line == header[0] || line == header[1] || line == header[2] || line == "";
    }
  }

  /** The guards on the number, length and content of the printed lines follow from the others:
      3 + 4096 + 6 + 1 + 4096 lines at most. */
  lemma RedundantGuards(plan: RemotePlan)
    requires UrlOk(plan) && OptionsOk(plan) && LeasesOk(plan) && CommandsOk(plan)
    ensures WireBounded(plan)
  {
    PigeonholeOptions(plan.options);
    forall line | line in Wire(plan)
      ensures WireLine(line)
    {
      WireLineClean(plan, line);
    }
  }
}
