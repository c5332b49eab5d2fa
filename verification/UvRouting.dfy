/** Routing of the uv command line (src/uv.rs): the global flags in front of the command, and the
command that may later use the credential helper. */
module UvRouting {
  import opened Text

  const VALUED := {
    "--color", "--cache-dir", "--directory", "--project", "--config-file", "--trusted-host",
    "--allow-insecure-host", "--preview-feature", "--preview-features", "--no-preview-features"}

  const SWITCHES := {
    "-q", "--quiet", "-v", "--verbose", "-n", "--no-cache", "--no-config", "--no-offline",
    "--no-system-certs", "--no-native-tls", "--offline", "--no-progress", "--system-certs", "--native-tls",
    "--managed-python", "--no-managed-python", "--no-python-downloads", "--preview", "--no-preview"}

  datatype Kind = Valued | Switch | Verbosity | Unknown | Word

  predicate Dashed(s: string) {
    s != "" && s[0] == '-'
  }

  /** The part of an argument before its first equals sign. */
  function Flag(arg: string): string {
    arg[..IndexOf(arg, '=')]
  }

  function KindOf(flag: string, pip: bool): Kind {
    if flag == "--cert" && pip then Valued
    else if flag in VALUED then Valued
    else if flag in SWITCHES then Switch
    else if Dashed(flag) && |flag| > 1 && (forall i :: 1 <= i < |flag| ==> flag[i] == 'q' || flag[i] == 'v')
    then Verbosity
    else if Dashed(flag) then Unknown
    else Word
  }

  /** What one turn of the loop does at the front of `args`: stop, give up, or pass some arguments. */
  datatype Turn = Stop | GiveUp | Pass(count: nat)

  type Turner = seq<string> -> Turn

  function TurnAt(args: seq<string>, pip: bool): (t: Turn)
    ensures t.Pass? ==> 0 < t.count <= |args|
  {
    if args == [] then Stop else TurnOf(KindOf(Flag(args[0]), pip), args)
  }

  function TurnOf(kind: Kind, args: seq<string>): (t: Turn)
    requires args != []
    ensures t.Pass? ==> 0 < t.count <= |args|
  {
    var arg := args[0];
    match kind
    case Valued =>
      if '=' !in arg then
        (if |args| == 1 || args[1] == "" || Dashed(args[1]) then GiveUp else Pass(2))
      else if arg[|arg| - 1] == '=' then GiveUp
      else Pass(1)
    case Switch => if '=' in arg then GiveUp else Pass(1)
    case Verbosity => Pass(1)
    case Unknown => GiveUp
    case Word => Stop
  }

  ghost predicate Sound(turn: Turner) {
    forall args :: turn(args).Pass? ==> 0 < turn(args).count <= |args|
  }

  function Turns(pip: bool): (turn: Turner)
    ensures Sound(turn)
  {
    args => TurnAt(args, pip)
  }

  function OffsetBy(turn: Turner, args: seq<string>): (r: Option<nat>)
    requires Sound(turn)
    ensures r.Some? ==> r.value <= |args|
    decreases |args|
  {
    match turn(args)
    case Stop => Some(0)
    case GiveUp => None
    case Pass(count) => Shift(count, OffsetBy(turn, args[count..]))
  }

  function Shift(n: nat, r: Option<nat>): Option<nat> {
    match r
    case None => None
    case Some(i) => Some(n + i)
  }

  function Offset(args: seq<string>, pip: bool): Option<nat> {
    OffsetBy(Turns(pip), args)
  }

  /** The loop of `command_offset`. */
  method Walk(turn: Turner, args: seq<string>) returns (r: Option<nat>)
    requires Sound(turn)
    ensures r == OffsetBy(turn, args)
  {
    var i := 0;
    assert args[0..] == args;
    while true
      invariant 0 <= i <= |args|
      invariant OffsetBy(turn, args) == Shift(i, OffsetBy(turn, args[i..]))
      decreases |args| - i
    {
      match turn(args[i..])
      case Stop =>
        return Some(i);
      case GiveUp =>
        return None;
      case Pass(count) =>
        PassOn(turn, args, i, count);
        i := i + count;
    }
  }

  lemma PassOn(turn: Turner, args: seq<string>, i: nat, count: nat)
    requires Sound(turn) && i <= |args| && turn(args[i..]) == Pass(count)
    ensures i + count <= |args| && 0 < count
    ensures Shift(i, OffsetBy(turn, args[i..])) == Shift(i + count, OffsetBy(turn, args[i + count..]))
  {
    assert args[i..][count..] == args[i + count..];
  }

  /** `command_offset`. */
  method CommandOffset(args: seq<string>, pip: bool) returns (r: Option<nat>)
    ensures r == Offset(args, pip)
  {
    r := Walk(Turns(pip), args);
  }

  // ---------------------------------------------------------------- what lies before the offset

  predicate GlobalsBy(turn: Turner, flags: seq<string>)
    requires Sound(turn)
    decreases |flags|
  {
    flags == [] || (turn(flags).Pass? && GlobalsBy(turn, flags[turn(flags).count..]))
  }

  /** A sequence of recognised flags, each with its value when it takes one. */
  predicate Globals(flags: seq<string>, pip: bool) {
    GlobalsBy(Turns(pip), flags)
  }

  /** A turn looks no further than what it passes. */
  ghost predicate Local(turn: Turner) {
    forall flags, args :: turn(flags).Pass? ==> turn(flags + args) == turn(flags)
  }

  lemma TurnLocal(flags: seq<string>, args: seq<string>, pip: bool)
    requires TurnAt(flags, pip).Pass?
    ensures TurnAt(flags + args, pip) == TurnAt(flags, pip)
  {
    assert (flags + args)[0] == flags[0];
    if |flags| > 1 {
      assert (flags + args)[1] == flags[1];
    }
  }

  lemma TurnsLocal(pip: bool)
    ensures Local(Turns(pip))
  {
    forall flags, args | Turns(pip)(flags).Pass?
      ensures Turns(pip)(flags + args) == Turns(pip)(flags)
    {
      TurnLocal(flags, args, pip);
    }
  }

  lemma OffsetStep(turn: Turner, args: seq<string>, count: nat)
    requires Sound(turn) && turn(args) == Pass(count)
    ensures count <= |args| && OffsetBy(turn, args) == Shift(count, OffsetBy(turn, args[count..]))
  {
  }

  /** Global flags only shift the offset. */
  lemma {:induction false} GlobalsShift(turn: Turner, flags: seq<string>, args: seq<string>)
    requires Sound(turn) && Local(turn) && GlobalsBy(turn, flags)
    ensures OffsetBy(turn, flags + args) == Shift(|flags|, OffsetBy(turn, args))
    decreases |flags|
  {
    if flags == [] {
      assert flags + args == args;
    } else {
      var count := turn(flags).count;
      GlobalsShift(turn, flags[count..], args);
      DropOfConcat(flags, args, count);
      OffsetStep(turn, flags + args, count);
    }
  }

  lemma WordNotDashed(arg: string, pip: bool)
    ensures KindOf(Flag(arg), pip).Word? <==> !Dashed(arg)
  {
    if Dashed(arg) {
      assert Flag(arg) != "" && Flag(arg)[0] == '-';
    } else {
      assert forall flag :: flag in VALUED || flag in SWITCHES || flag == "--cert" ==> flag[0] == '-';
      if Flag(arg) != "" {
        assert Flag(arg)[0] == arg[0];
      }
    }
  }

  /** The turn stops exactly before a word or at the end. */
  lemma StopIff(args: seq<string>, pip: bool)
    ensures TurnAt(args, pip).Stop? <==> args == [] || !Dashed(args[0])
  {
    if args != [] {
      WordNotDashed(args[0], pip);
    }
  }

  ghost predicate Truncates(turn: Turner) {
    forall args, i: nat :: i <= |args| && turn(args).Pass? && turn(args).count <= i ==>
      turn(args[..i]) == turn(args)
  }

  lemma TurnTruncates(args: seq<string>, i: nat, pip: bool)
    requires i <= |args| && TurnAt(args, pip).Pass? && TurnAt(args, pip).count <= i
    ensures TurnAt(args[..i], pip) == TurnAt(args, pip)
  {
    assert args[..i][0] == args[0];
    if i > 1 {
      assert args[..i][1] == args[1];
    }
  }

  lemma TurnsTruncate(pip: bool)
    ensures Truncates(Turns(pip))
  {
    forall args, i: nat | i <= |args| && Turns(pip)(args).Pass? && Turns(pip)(args).count <= i
      ensures Turns(pip)(args[..i]) == Turns(pip)(args)
    {
      TurnTruncates(args, i, pip);
    }
  }

  lemma {:induction false} FlagsBeforeOffset(turn: Turner, args: seq<string>, i: nat)
    requires Sound(turn) && Truncates(turn) && OffsetBy(turn, args) == Some(i)
    ensures GlobalsBy(turn, args[..i]) && turn(args[i..]).Stop?
    decreases |args|
  {
    if turn(args).Pass? {
      var count := turn(args).count;
      FlagsBeforeOffset(turn, args[count..], i - count);
      assert args[count..][..i - count] == args[..i][count..];
      assert args[count..][i - count..] == args[i..];
      assert turn(args[..i]) == turn(args);
    } else {
      assert args[..0] == [] && args[0..] == args;
    }
  }

  lemma OffsetAfterFlags(turn: Turner, flags: seq<string>, args: seq<string>)
    requires Sound(turn) && Local(turn) && GlobalsBy(turn, flags) && turn(args).Stop?
    ensures OffsetBy(turn, flags + args) == Some(|flags|)
  {
    GlobalsShift(turn, flags, args);
  }

  lemma OffsetByIff(turn: Turner, args: seq<string>, i: nat)
    requires Sound(turn) && Local(turn) && Truncates(turn)
    ensures OffsetBy(turn, args) == Some(i)
            <==> i <= |args| && GlobalsBy(turn, args[..i]) && turn(args[i..]).Stop?
  {
    if i <= |args| && GlobalsBy(turn, args[..i]) && turn(args[i..]).Stop? {
      OffsetAfterFlags(turn, args[..i], args[i..]);
      Rejoin(args, i);
    }
    if OffsetBy(turn, args) == Some(i) {
      FlagsBeforeOffset(turn, args, i);
    }
  }

  /** The offset is found exactly at the end of a sequence of global flags, before a word or the end. */
  lemma OffsetIff(args: seq<string>, pip: bool, i: nat)
    ensures Offset(args, pip) == Some(i)
            <==> i <= |args| && Globals(args[..i], pip) && (i < |args| ==> !Dashed(args[i]))
  {
    TurnsLocal(pip);
    TurnsTruncate(pip);
    OffsetByIff(Turns(pip), args, i);
    if i <= |args| {
      StopIff(args[i..], pip);
    }
  }

  // ---------------------------------------------------------------- credential_command

  predicate AsksForHelp(args: seq<string>) {
    "-h" in args || "--help" in args || "-V" in args || "--version" in args
  }

  const SINGLE := {
    "add", "remove", "sync", "lock", "upgrade", "tree", "export", "audit", "check", "run", "build",
    "publish", "version"}

  function PipCommand(word: string): Option<string> {
    if word == "compile" then Some("pip compile")
    else if word == "install" then Some("pip install")
    else if word == "sync" then Some("pip sync")
    else if word == "uninstall" then Some("pip uninstall")
    else if word == "list" || word == "ls" then Some("pip list")
    else if word == "tree" then Some("pip tree")
    else None
  }

  function ToolCommand(word: string): Option<string> {
    if word == "run" || word == "uvx" then Some("tool run")
    else if word == "install" then Some("tool install")
    else if word == "upgrade" || word == "update" then Some("tool upgrade")
    else if word == "list" || word == "ls" then Some("tool list")
    else None
  }

  /** The first word after the global flags. */
  function WordAfter(args: seq<string>, pip: bool): Option<string> {
    Dispatch(Turns(pip), First, args)
  }

  function First(args: seq<string>): Option<string> {
    if args == [] then None else Some(args[0])
  }

  /** From the first word on: the command it names. */
  function Route(args: seq<string>): Option<string> {
    if args == [] then None
    else if args[0] in SINGLE then Some(args[0])
    else if args[0] == "venv" || args[0] == "virtualenv" || args[0] == "v" then Some("venv")
    else if args[0] == "pip" then
      match WordAfter(args[1..], true)
      case None => None
      case Some(word) => PipCommand(word)
    else if args[0] == "tool" then
      match WordAfter(args[1..], false)
      case None => None
      case Some(word) => ToolCommand(word)
    else None
  }

  /** `credential_command`. */
  function CredentialCommand(args: seq<string>): Option<string> {
    if AsksForHelp(args) then None else Dispatch(Turns(false), Route, args)
  }

  function Dispatch(turn: Turner, route: seq<string> -> Option<string>, args: seq<string>): Option<string>
    requires Sound(turn)
  {
    match OffsetBy(turn, args)
    case None => None
    case Some(i) => route(args[i..])
  }

  lemma DispatchShift(turn: Turner, route: seq<string> -> Option<string>, flags: seq<string>,
                      args: seq<string>)
    requires Sound(turn) && Local(turn) && GlobalsBy(turn, flags)
    ensures Dispatch(turn, route, flags + args) == Dispatch(turn, route, args)
  {
    GlobalsShift(turn, flags, args);
    var i := OffsetBy(turn, args);
    if i.Some? {
      assert (flags + args)[|flags| + i.value..] == args[i.value..];
    }
  }

  lemma PlainFlag(arg: string)
    ensures '=' !in arg ==> Flag(arg) == arg
  {
  }

  /** No help request can hide among recognised flags and their values. */
  lemma HelpIsUnknown(arg: string, pip: bool)
    requires arg == "-h" || arg == "--help" || arg == "-V" || arg == "--version"
    ensures KindOf(Flag(arg), pip) == Unknown && Dashed(arg)
  {
    PlainFlag(arg);
    HelpNotListed(arg);
    assert arg[1] != 'q' && arg[1] != 'v';
  }

  lemma HelpNotListed(arg: string)
    requires arg == "-h" || arg == "--help" || arg == "-V" || arg == "--version"
    ensures '=' !in arg && arg !in VALUED && arg !in SWITCHES && arg != "--cert"
  {
    HelpNotValued(arg);
  }

  lemma HelpNotValued(arg: string)
    requires arg == "-h" || arg == "--help" || arg == "-V" || arg == "--version"
    ensures '=' !in arg && arg !in VALUED && arg != "--cert"
  {
    assert forall flag :: flag in VALUED ==> |flag| == 7 ==> flag == "--color";
  }

  ghost predicate HelpFree(flags: seq<string>) {
    forall arg :: arg in flags ==> arg != "-h" && arg != "--help" && arg != "-V" && arg != "--version"
  }

  /** What a turn passes is never a request for help. */
  lemma TurnAsksNoHelp(flags: seq<string>, pip: bool)
    requires TurnAt(flags, pip).Pass?
    ensures HelpFree(flags[..TurnAt(flags, pip).count])
  {
    var count := TurnAt(flags, pip).count;
    forall arg | arg in flags[..count]
      ensures arg != "-h" && arg != "--help" && arg != "-V" && arg != "--version"
    {
      if arg == "-h" || arg == "--help" || arg == "-V" || arg == "--version" {
        HelpIsUnknown(arg, pip);
        assert false;
      }
    }
  }

  ghost predicate PassesNoHelp(turn: Turner) {
    forall flags :: turn(flags).Pass? && turn(flags).count <= |flags| ==> HelpFree(flags[..turn(flags).count])
  }

  lemma {:induction false} GlobalsHelpFree(turn: Turner, flags: seq<string>)
    requires Sound(turn) && PassesNoHelp(turn) && GlobalsBy(turn, flags)
    ensures HelpFree(flags)
    decreases |flags|
  {
    if flags != [] {
      var count := turn(flags).count;
      GlobalsHelpFree(turn, flags[count..]);
      assert flags == flags[..count] + flags[count..];
    }
  }

  lemma GlobalsAskNoHelp(flags: seq<string>, pip: bool)
    requires Globals(flags, pip)
    ensures HelpFree(flags)
  {
    forall args | Turns(pip)(args).Pass?
      ensures HelpFree(args[..Turns(pip)(args).count])
    {
      TurnAsksNoHelp(args, pip);
    }
    GlobalsHelpFree(Turns(pip), flags);
  }

  lemma HelpConcat(flags: seq<string>, args: seq<string>)
    requires HelpFree(flags)
    ensures AsksForHelp(flags + args) <==> AsksForHelp(args)
  {
  }

  /** Global flags in front never change the command that is recognised. */
  lemma RoutingIgnoresGlobals(flags: seq<string>, args: seq<string>)
    requires Globals(flags, false)
    ensures CredentialCommand(flags + args) == CredentialCommand(args)
  {
    GlobalsAskNoHelp(flags, false);
    HelpConcat(flags, args);
    TurnsLocal(false);
    DispatchShift(Turns(false), Route, flags, args);
  }

  /** Between `pip` or `tool` and its subcommand. */
  lemma WordIgnoresGlobals(flags: seq<string>, args: seq<string>, pip: bool)
    requires Globals(flags, pip)
    ensures WordAfter(flags + args, pip) == WordAfter(args, pip)
  {
    TurnsLocal(pip);
    DispatchShift(Turns(pip), First, flags, args);
  }

  lemma CommandFirst(word: string, args: seq<string>)
    requires !Dashed(word)
    ensures Dispatch(Turns(false), Route, [word] + args) == Route([word] + args)
  {
    StopIff([word] + args, false);
    assert ([word] + args)[0..] == [word] + args;
  }

  lemma RouteSubcommand(word: string, args: seq<string>)
    requires word == "pip" || word == "tool"
    ensures !Dashed(word) && word !in SINGLE
    ensures Route([word] + args)
            == (match WordAfter(args, word == "pip")
                case None => None
                case Some(sub) => if word == "pip" then PipCommand(sub) else ToolCommand(sub))
  {
    assert ([word] + args)[1..] == args;
  }

  /** The same holds between `pip` or `tool` and its subcommand. */
  lemma SubcommandIgnoresGlobals(word: string, flags: seq<string>, args: seq<string>)
    requires word == "pip" || word == "tool"
    requires Globals(flags, word == "pip")
    ensures CredentialCommand([word] + (flags + args)) == CredentialCommand([word] + args)
  {
    RouteSubcommand(word, flags + args);
    RouteSubcommand(word, args);
    CommandFirst(word, flags + args);
    CommandFirst(word, args);
    WordIgnoresGlobals(flags, args, word == "pip");
    GlobalsAskNoHelp(flags, word == "pip");
    HelpBehind(word, flags, args);
  }

  lemma HelpBehind(word: string, flags: seq<string>, args: seq<string>)
    requires HelpFree(flags)
    ensures AsksForHelp([word] + (flags + args)) <==> AsksForHelp([word] + args)
  {
    forall help
      ensures help in [word] + (flags + args) <==> help == word || help in flags || help in args
      ensures help in [word] + args <==> help == word || help in args
    {
    }
  }

  // ---------------------------------------------------------------- global flags as they are written

  /** A flag on its own, with its value behind an equals sign, or with its value as the next argument. */
  datatype Item = Alone(flag: string) | Attached(flag: string, value: string) | Separate(flag: string, value: string)

  predicate TakesValue(flag: string, pip: bool) {
    flag in VALUED || (pip && flag == "--cert")
  }

  /** A dash and two or more letters, each a `q` or a `v`. */
  predicate Repeated(flag: string) {
    |flag| > 2 && flag[0] == '-' && forall i :: 1 <= i < |flag| ==> flag[i] in "qv"
  }

  predicate ItemOk(item: Item, pip: bool) {
    match item
    case Alone(flag) => flag in SWITCHES || Repeated(flag)
    case Attached(flag, value) =>
      Repeated(flag) || (TakesValue(flag, pip) && value != "" && value[|value| - 1] != '=')
    case Separate(flag, value) => TakesValue(flag, pip) && value != "" && value[0] != '-'
  }

  predicate WellDashed(flag: string) {
    '=' !in flag && |flag| >= 2 && flag[0] == '-' && (|flag| > 2 ==> flag[1] == '-')
  }

  lemma FlagsDashed(flag: string)
    requires flag in VALUED || flag in SWITCHES || flag == "--cert"
    ensures WellDashed(flag)
  {
    if flag in VALUED {
      ValuedDashed(flag);
    } else if flag in SWITCHES {
      SwitchesDashed(flag);
    }
  }

  lemma ValuedDashed(flag: string)
    requires flag in VALUED
    ensures WellDashed(flag)
  {
  }

  lemma SwitchesDashed(flag: string)
    requires flag in SWITCHES
    ensures WellDashed(flag)
  {
  }

  lemma Disjoint(flag: string)
    requires flag in VALUED || flag == "--cert"
    ensures flag !in SWITCHES
  {
  }

  /** The kinds of flags tell apart the same things as the tables. */
  lemma KindIff(flag: string, pip: bool)
    ensures KindOf(flag, pip).Valued? <==> TakesValue(flag, pip)
    ensures KindOf(flag, pip).Switch? <==> flag in SWITCHES
    ensures KindOf(flag, pip).Verbosity? <==> Repeated(flag)
  {
    if flag in VALUED || flag in SWITCHES || flag == "--cert" {
      FlagsDashed(flag);
    }
    if flag in VALUED || flag == "--cert" {
      Disjoint(flag);
    }
    if Repeated(flag) {
      assert flag[1] in "qv";
    }
    if |flag| == 2 && flag[0] == '-' && (flag[1] == 'q' || flag[1] == 'v') {
      assert flag == "-q" || flag == "-v";
    }
  }

  lemma ItemOkIff(item: Item, pip: bool)
    ensures ItemOk(item, pip) <==> '=' !in item.flag && ItemFits(item, KindOf(item.flag, pip))
  {
    KindIff(item.flag, pip);
    if item.flag in VALUED || item.flag in SWITCHES || item.flag == "--cert" {
      FlagsDashed(item.flag);
    }
    assert Repeated(item.flag) ==> forall i :: 0 <= i < |item.flag| ==> item.flag[i] != '=';
  }

  predicate ItemFits(item: Item, kind: Kind) {
    match item
    case Alone(_) => kind.Switch? || kind.Verbosity?
    case Attached(_, value) =>
      kind.Verbosity? || (kind.Valued? && value != "" && value[|value| - 1] != '=')
    case Separate(_, value) => kind.Valued? && value != "" && !Dashed(value)
  }

  function PrintItem(item: Item): (args: seq<string>)
    ensures args != []
  {
    match item
    case Alone(flag) => [flag]
    case Attached(flag, value) => [flag + "=" + value]
    case Separate(flag, value) => [flag, value]
  }

  function Print(items: seq<Item>): seq<string> {
    if items == [] then [] else PrintItem(items[0]) + Print(items[1..])
  }

  predicate ItemsOk(items: seq<Item>, pip: bool) {
    forall i :: 0 <= i < |items| ==> ItemOk(items[i], pip)
  }

  lemma AttachedFlag(flag: string, value: string)
    requires '=' !in flag
    ensures Flag(flag + "=" + value) == flag && '=' in flag + "=" + value
    ensures value != "" ==> (flag + "=" + value)[|flag + "=" + value| - 1] == value[|value| - 1]
  {
    IndexOfConcat(flag, '=', value);
    assert (flag + "=" + value)[..|flag|] == flag && (flag + "=" + value)[|flag|] == '=';
  }

  lemma ItemTurn(item: Item, rest: seq<string>, pip: bool)
    requires ItemOk(item, pip)
    ensures TurnAt(PrintItem(item) + rest, pip) == Pass(|PrintItem(item)|)
  {
    ItemOkIff(item, pip);
    ItemTurnOf(item, KindOf(item.flag, pip), rest);
  }

  lemma ItemTurnOf(item: Item, kind: Kind, rest: seq<string>)
    requires '=' !in item.flag && ItemFits(item, kind)
    ensures Flag((PrintItem(item) + rest)[0]) == item.flag
    ensures TurnOf(kind, PrintItem(item) + rest) == Pass(|PrintItem(item)|)
  {
    var args := PrintItem(item) + rest;
    match item
    case Alone(flag) =>
      PlainFlag(flag);
      assert args[0] == flag;
    case Attached(flag, value) =>
      AttachedFlag(flag, value);
      assert args[0] == flag + "=" + value;
    case Separate(flag, value) =>
      PlainFlag(flag);
      assert args[0] == flag && args[1] == value;
  }

  lemma FlagParts(arg: string)
    ensures '=' !in Flag(arg)
    ensures '=' in arg ==> arg == Flag(arg) + "=" + arg[|Flag(arg)| + 1..]
  {
    var i := IndexOf(arg, '=');
    if i < |arg| {
      CutAt(arg, i);
    }
  }

  lemma TurnItem(args: seq<string>, pip: bool) returns (item: Item)
    requires TurnAt(args, pip).Pass?
    ensures ItemOk(item, pip) && PrintItem(item) == args[..TurnAt(args, pip).count]
  {
    item := TurnItemOf(KindOf(Flag(args[0]), pip), args);
    ItemOkIff(item, pip);
  }

  lemma TurnItemOf(kind: Kind, args: seq<string>) returns (item: Item)
    requires args != [] && TurnOf(kind, args).Pass?
    ensures item.flag == Flag(args[0]) && '=' !in item.flag && ItemFits(item, kind)
    ensures PrintItem(item) == args[..TurnOf(kind, args).count]
  {
    var arg := args[0];
    PlainFlag(arg);
    FlagParts(arg);
    if '=' in arg {
      item := Attached(Flag(arg), arg[|Flag(arg)| + 1..]);
    } else if kind.Valued? {
      item := Separate(arg, args[1]);
    } else {
      item := Alone(arg);
    }
  }

  lemma {:induction false} ItemsAreGlobals(turn: Turner, items: seq<Item>)
    requires Sound(turn)
    requires forall i, rest :: 0 <= i < |items| ==> turn(PrintItem(items[i]) + rest) == Pass(|PrintItem(items[i])|)
    ensures GlobalsBy(turn, Print(items))
  {
    if items != [] {
      var head, tail := PrintItem(items[0]), Print(items[1..]);
      ItemsAreGlobals(turn, items[1..]);
      assert turn(head + tail) == Pass(|head|);
      assert (head + tail)[|head|..] == tail;
    }
  }

  ghost predicate Spelled(turn: Turner, pip: bool) {
    forall args :: turn(args).Pass? ==>
      turn(args).count <= |args| && exists item :: ItemOk(item, pip) && PrintItem(item) == args[..turn(args).count]
  }

  lemma TurnsSpelled(pip: bool)
    ensures Spelled(Turns(pip), pip)
  {
    forall args | TurnAt(args, pip).Pass?
      ensures exists item :: ItemOk(item, pip) && PrintItem(item) == args[..TurnAt(args, pip).count]
    {
      var item := TurnItem(args, pip);
    }
  }

  lemma ItemsCons(item: Item, rest: seq<Item>, pip: bool)
    requires ItemOk(item, pip) && ItemsOk(rest, pip)
    ensures ItemsOk([item] + rest, pip) && Print([item] + rest) == PrintItem(item) + Print(rest)
  {
    assert ([item] + rest)[1..] == rest;
  }

  lemma {:induction false} GlobalsAreItems(turn: Turner, flags: seq<string>, pip: bool) returns (items: seq<Item>)
    requires Sound(turn) && Spelled(turn, pip) && GlobalsBy(turn, flags)
    ensures ItemsOk(items, pip) && Print(items) == flags
    decreases |flags|
  {
    if flags == [] {
      items := [];
    } else {
      var count := turn(flags).count;
      var item :| ItemOk(item, pip) && PrintItem(item) == flags[..count];
      var rest := GlobalsAreItems(turn, flags[count..], pip);
      items := [item] + rest;
      ItemsCons(item, rest, pip);
      Rejoin(flags, count);
    }
  }

  /** The global flags that the loop passes are exactly those written as items. */
  lemma GlobalsIff(flags: seq<string>, pip: bool)
    ensures Globals(flags, pip) <==> exists items :: ItemsOk(items, pip) && Print(items) == flags
  {
    if Globals(flags, pip) {
      TurnsSpelled(pip);
      var items := GlobalsAreItems(Turns(pip), flags, pip);
    }
    if items :| ItemsOk(items, pip) && Print(items) == flags {
      forall i, rest | 0 <= i < |items|
        ensures TurnAt(PrintItem(items[i]) + rest, pip) == Pass(|PrintItem(items[i])|)
      {
        ItemTurn(items[i], rest, pip);
      }
      ItemsAreGlobals(Turns(pip), items);
    }
  }

  // ---------------------------------------------------------------- which commands are recognised

  /** The commands that are one word, with the name that each is known by. */
  const SIMPLE := {
    ("add", "add"), ("remove", "remove"), ("sync", "sync"), ("lock", "lock"), ("upgrade", "upgrade"),
    ("tree", "tree"), ("export", "export"), ("audit", "audit"), ("check", "check"), ("run", "run"),
    ("build", "build"), ("publish", "publish"), ("version", "version"),
    ("venv", "venv"), ("virtualenv", "venv"), ("v", "venv")}

  /** The commands of `pip`. */
  const PIP := {
    ("compile", "pip compile"), ("install", "pip install"), ("sync", "pip sync"),
    ("uninstall", "pip uninstall"), ("list", "pip list"), ("ls", "pip list"), ("tree", "pip tree")}

  /** The commands of `tool`. */
  const TOOL := {
    ("run", "tool run"), ("uvx", "tool run"), ("install", "tool install"), ("upgrade", "tool upgrade"),
    ("update", "tool upgrade"), ("list", "tool list"), ("ls", "tool list")}

  /** The first word is at `i`, behind global flags only. */
  predicate WordAt(args: seq<string>, pip: bool, i: nat) {
    i < |args| && Globals(args[..i], pip) && !Dashed(args[i])
  }

  type Meaning = (string, seq<string>, string) -> bool

  /** A command line whose first word, with what follows it, means the command. */
  ghost predicate RecognisedBy(means: Meaning, args: seq<string>, command: string) {
    exists i: nat :: WordAt(args, false, i) && means(args[i], args[i + 1..], command)
  }

  ghost function Meanings(): Meaning {
    (word, rest, command) => Means(word, rest, command)
  }

  /** What the first word means: a command by itself, or with the next word behind global flags. */
  ghost predicate Means(word: string, rest: seq<string>, command: string) {
    || (word, command) in SIMPLE
    || (word == "pip" && exists j: nat :: WordAt(rest, true, j) && (rest[j], command) in PIP)
    || (word == "tool" && exists j: nat :: WordAt(rest, false, j) && (rest[j], command) in TOOL)
  }

  lemma SimpleIff(word: string, command: string)
    ensures (word, command) in SIMPLE
            <==> (word in SINGLE && command == word)
                 || ((word == "venv" || word == "virtualenv" || word == "v") && command == "venv")
  {
  }

  lemma PipIff(word: string, command: string)
    ensures (word, command) in PIP <==> PipCommand(word) == Some(command)
  {
  }

  lemma ToolIff(word: string, command: string)
    ensures (word, command) in TOOL <==> ToolCommand(word) == Some(command)
  {
  }

  /** The word after the global flags is the one at the only place where it can be. */
  lemma WordAfterIff(args: seq<string>, pip: bool, i: nat)
    ensures WordAt(args, pip, i) <==> Offset(args, pip) == Some(i) && i < |args|
  {
    OffsetIff(args, pip, i);
  }

  lemma WordAfterIs(args: seq<string>, pip: bool)
    ensures WordAfter(args, pip) == (match Offset(args, pip)
                                     case None => None
                                     case Some(i) => if i < |args| then Some(args[i]) else None)
  {
  }

  lemma NestedIff(rest: seq<string>, pip: bool, commands: set<(string, string)>, command: string)
    ensures (exists j: nat :: WordAt(rest, pip, j) && (rest[j], command) in commands)
            <==> WordAfter(rest, pip).Some? && (WordAfter(rest, pip).value, command) in commands
  {
    WordAfterIs(rest, pip);
    forall j: nat
      ensures WordAt(rest, pip, j) <==> Offset(rest, pip) == Some(j) && j < |rest|
    {
      WordAfterIff(rest, pip, j);
    }
    if WordAfter(rest, pip).Some? {
      assert WordAt(rest, pip, Offset(rest, pip).value);
    }
  }

  lemma SimpleIsNotNested(word: string, command: string)
    ensures (word, command) in SIMPLE ==> word != "pip" && word != "tool"
  {
    SimpleIff(word, command);
  }

  lemma RoutePip(rest: seq<string>, command: string)
    ensures Route(["pip"] + rest) == Some(command)
            <==> exists j: nat :: WordAt(rest, true, j) && (rest[j], command) in PIP
  {
    RouteSubcommand("pip", rest);
    NestedIff(rest, true, PIP, command);
    if WordAfter(rest, true).Some? {
      PipIff(WordAfter(rest, true).value, command);
    }
  }

  lemma RouteTool(rest: seq<string>, command: string)
    ensures Route(["tool"] + rest) == Some(command)
            <==> exists j: nat :: WordAt(rest, false, j) && (rest[j], command) in TOOL
  {
    RouteSubcommand("tool", rest);
    NestedIff(rest, false, TOOL, command);
    if WordAfter(rest, false).Some? {
      ToolIff(WordAfter(rest, false).value, command);
    }
  }

  lemma RouteSimple(word: string, rest: seq<string>, command: string)
    requires word != "pip" && word != "tool"
    ensures Route([word] + rest) == Some(command) <==> (word, command) in SIMPLE
  {
    SimpleIff(word, command);
  }

  lemma RouteIff(word: string, rest: seq<string>, command: string)
    ensures Route([word] + rest) == Some(command) <==> Meanings()(word, rest, command)
  {
    SimpleIsNotNested(word, command);
    if word == "pip" {
      RoutePip(rest, command);
    } else if word == "tool" {
      RouteTool(rest, command);
    } else {
      RouteSimple(word, rest, command);
    }
  }

  function At(args: seq<string>, offset: Option<nat>, route: seq<string> -> Option<string>): Option<string> {
    if offset.Some? && offset.value <= |args| then route(args[offset.value..]) else None
  }

  /** What is found at an offset, wherever `at` says that is. */
  lemma DispatchMeans(offset: Option<nat>, at: nat -> bool, route: seq<string> -> Option<string>, means: Meaning,
                      args: seq<string>, command: string)
    requires route([]) == None
    requires forall i: nat :: at(i) <==> offset == Some(i) && i < |args|
    requires forall word, rest :: route([word] + rest) == Some(command) <==> means(word, rest, command)
    ensures At(args, offset, route) == Some(command)
            <==> exists i: nat :: at(i) && i < |args| && means(args[i], args[i + 1..], command)
  {
    if offset.Some? && offset.value <= |args| {
      var i := offset.value;
      if i < |args| {
        HeadAt(args, i);
        assert route([args[i]] + args[i + 1..]) == Some(command) <==> means(args[i], args[i + 1..], command);
        assert at(i);
      } else {
        assert args[i..] == [];
      }
    }
  }

  lemma HeadAt(args: seq<string>, i: nat)
    requires i < |args|
    ensures args[i..] == [args[i]] + args[i + 1..]
  {
  }

  lemma DispatchIsAt(turn: Turner, args: seq<string>, route: seq<string> -> Option<string>)
    requires Sound(turn)
    ensures Dispatch(turn, route, args) == At(args, OffsetBy(turn, args), route)
  {
  }

  lemma DispatchRecognised(route: seq<string> -> Option<string>, means: Meaning, args: seq<string>, command: string)
    requires route([]) == None
    requires forall word, rest :: route([word] + rest) == Some(command) <==> means(word, rest, command)
    ensures Dispatch(Turns(false), route, args) == Some(command) <==> RecognisedBy(means, args, command)
  {
    DispatchIsAt(Turns(false), args, route);
    RecognisedAt(Offset(args, false), route, means, args, command);
  }

  lemma RecognisedAt(offset: Option<nat>, route: seq<string> -> Option<string>, means: Meaning, args: seq<string>,
                     command: string)
    requires offset == Offset(args, false) && route([]) == None
    requires forall word, rest :: route([word] + rest) == Some(command) <==> means(word, rest, command)
    ensures At(args, offset, route) == Some(command) <==> RecognisedBy(means, args, command)
  {
    var at := (i: nat) => WordAt(args, false, i);
    forall i: nat
      ensures at(i) <==> offset == Some(i) && i < |args|
    {
      WordAfterIff(args, false, i);
    }
    DispatchMeans(offset, at, route, means, args, command);
    if i: nat :| WordAt(args, false, i) && means(args[i], args[i + 1..], command) {
      assert at(i);
    }
    if i: nat :| at(i) && i < |args| && means(args[i], args[i + 1..], command) {
      assert WordAt(args, false, i);
    }
  }

  /** Exactly which command lines are recognised, and as what: none with a request for help or for the
      version anywhere in it, and otherwise those whose words behind global flags name a known command. */
  lemma CredentialCommandIff(args: seq<string>, command: string)
    ensures CredentialCommand(args) == Some(command)
            <==> (forall arg :: arg in args ==> arg !in {"-h", "--help", "-V", "--version"})
                 && RecognisedBy(Meanings(), args, command)
  {
    HelpIff(args);
    forall word, rest
      ensures Route([word] + rest) == Some(command) <==> Meanings()(word, rest, command)
    {
      RouteIff(word, rest, command);
    }
    DispatchRecognised(Route, Meanings(), args, command);
  }

  lemma HelpIff(args: seq<string>)
    ensures AsksForHelp(args) <==> exists arg :: arg in args && arg in {"-h", "--help", "-V", "--version"}
  {
  }
}
