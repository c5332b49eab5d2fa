/** The argument parser of `av inject` (src/cli/inject.rs), which supplies the descriptor mapping that
descriptor injection relies on. An argument that is not UTF-8 is one that `ValidUtf8` rejects. */
module InjectArguments {
  import opened Text
  import opened Descriptors

  // ---------------------------------------------------------------- numbers

  function Decimal(n: nat): (s: string)
    ensures s != "" && forall i :: 0 <= i < |s| ==> Digit(s[i])
  {
    var digit := [(n % 10 + '0' as int) as char];
    if n < 10 then digit else Decimal(n / 10) + digit
  }

  /** Value of a string of digits. */
  function Value(s: string): nat
    requires forall i :: 0 <= i < |s| ==> Digit(s[i])
  {
    if s == "" then 0
    else
      assert Digit(s[|s| - 1]);
      10 * Value(s[..|s| - 1]) + (s[|s| - 1] as int - '0' as int)
  }

  lemma {:induction false} ValueOfDecimal(n: nat)
    ensures Value(Decimal(n)) == n
  {
    var digit := [(n % 10 + '0' as int) as char];
    if n < 10 {
      assert digit[..0] == "";
    } else {
      ValueOfDecimal(n / 10);
      var s := Decimal(n);
      assert s[..|s| - 1] == Decimal(n / 10);
    }
  }

  predicate Digits(s: string) {
    s != "" && forall i :: 0 <= i < |s| ==> Digit(s[i])
  }

  /** The decimal of a number is the only way to write it without a zero in front. */
  lemma {:induction false} DecimalIff(n: nat, s: string)
    ensures s == Decimal(n) <==> Digits(s) && Value(s) == n && (s[0] == '0' ==> s == "0")
  {
    ValueOfDecimal(n);
    if n < 10 {
      DigitIff(n, s);
    } else if Digits(s) && |s| > 1 {
      var init, last := s[..|s| - 1], s[|s| - 1];
      DecimalIff(n / 10, init);
      assert Digits(init) && init[0] == s[0];
      Unsnoc(s);
      if s == Decimal(n) {
        assert Decimal(n)[..|s| - 1] == Decimal(n / 10);
      }
    }
  }

  lemma DigitIff(n: nat, s: string)
    requires n < 10
    ensures s == Decimal(n) <==> Digits(s) && Value(s) == n && (s[0] == '0' ==> s == "0")
  {
    if Digits(s) && |s| > 1 && Value(s) == n {
      LeadingZero(s);
    }
    if Digits(s) && |s| == 1 {
      assert s[..0] == "" && Value("") == 0;
      assert s == [s[0]];
    }
  }

  /** A number of several digits that is less than ten starts with a zero. */
  lemma {:induction false} LeadingZero(s: string)
    requires Digits(s) && |s| > 1 && Value(s) < 10
    ensures s[0] == '0'
  {
    var init := s[..|s| - 1];
    assert Value(init) == 0;
    if |init| > 1 {
      LeadingZero(init);
    } else {
      assert init[..0] == "";
    }
  }

  /** `str::parse::<i32>`: an optional sign, digits, no overflow. */
  function ParseI32(s: string): Option<int> {
    var negative := "-" <= s;
    var digits := if negative || "+" <= s then s[1..] else s;
    if digits == "" || exists i :: 0 <= i < |digits| && !Digit(digits[i]) then None
    else
      var value: int := if negative then 0 - Value(digits) else Value(digits);
      if -0x8000_0000 <= value < 0x8000_0000 then Some(value) else None
  }

  /** The number after the colon of `+KEY:FD`. */
  function ParseDescriptor(number: string): Option<Fd> {
    var parsed := ParseI32(number);
    if parsed.Some? && 3 <= parsed.value < 0x7FFF_FFFF && Decimal(parsed.value) == number
    then Some(parsed.value as Fd)
    else None
  }

  /** The accepted numbers are exactly the canonical decimals from 3 to 2147483646. */
  lemma DescriptorIsCanonical(number: string, fd: Fd)
    ensures ParseDescriptor(number) == Some(fd)
            <==> 3 <= fd < 0x7FFF_FFFF && number == Decimal(fd as nat)
  {
    if 3 <= fd < 0x7FFF_FFFF {
      ValueOfDecimal(fd as nat);
      var s := Decimal(fd as nat);
      assert Digit(s[0]);
    }
  }

  // ---------------------------------------------------------------- requests

  predicate ValidKeyName(key: string) {
    && key != "" && (key[0] == '_' || (Alphanumeric(key[0]) && !Digit(key[0])))
    && forall i :: 1 <= i < |key| ==> key[i] == '_' || Alphanumeric(key[i])
  }

  datatype Request = Request(key: string, fd: Option<Fd>)

  /** `+KEY` or `+KEY:FD`; `None` when it is malformed. */
  function ParseRequest(argument: string): Option<Request>
    requires "+" <= argument
  {
    var spec := argument[1..];
    match SplitOnce(spec, ':')
    case None => if ValidKeyName(spec) then Some(Request(spec, None)) else None
    case Some((key, number)) =>
      var fd := ParseDescriptor(number);
      if fd.Some? && ValidKeyName(key) then Some(Request(key, fd)) else None
  }

  /** Letters, digits and underscores, the first of them not a digit. */
  predicate NameText(key: string) {
    key != "" && !Digit(key[0]) && forall i :: 0 <= i < |key| ==> NameChar(key[i])
  }

  predicate NameChar(c: char) {
    c == '_' || 'a' <= c <= 'z' || 'A' <= c <= 'Z' || '0' <= c <= '9'
  }

  lemma NameIff(key: string)
    ensures ValidKeyName(key) <==> NameText(key)
    ensures NameText(key) ==> ':' !in key && Ascii(key)
  {
  }

  /** How a request is written. */
  predicate RequestText(request: Request, argument: string) {
    && NameText(request.key)
    && match request.fd
       case None => argument == "+" + request.key
       case Some(fd) => 3 <= fd < 0x7FFF_FFFF && argument == "+" + (request.key + ":" + Decimal(fd as nat))
  }

  /** The requests that are taken are exactly those that are written so. */
  lemma RequestIff(request: Request, argument: string)
    requires "+" <= argument
    ensures ParseRequest(argument) == Some(request) <==> RequestText(request, argument)
  {
    if ParseRequest(argument) == Some(request) {
      RequestParts(request, argument);
    }
    if RequestText(request, argument) {
      RequestOf(request, argument);
    }
  }

  lemma RequestParts(request: Request, argument: string)
    requires "+" <= argument && ParseRequest(argument) == Some(request)
    ensures RequestText(request, argument)
  {
    var spec := argument[1..];
    StripPrefixParts(argument, "+");
    SplitOnceParts(spec, ':');
    NameIff(request.key);
    if ':' in spec {
      var (key, number) := SplitOnce(spec, ':').value;
      DescriptorIsCanonical(number, request.fd.value);
    }
  }

  lemma RequestOf(request: Request, argument: string)
    requires RequestText(request, argument)
    ensures "+" <= argument && ParseRequest(argument) == Some(request)
  {
    NameIff(request.key);
    match request.fd
    case None =>
      StripPrefixConcat("+", request.key);
      SplitOnceParts(request.key, ':');
    case Some(fd) =>
      var number := Decimal(fd as nat);
      StripPrefixConcat("+", request.key + ":" + number);
      SplitOnceConcat(request.key, ':', number);
      DescriptorIsCanonical(number, fd);
  }

  lemma RequestIsText(request: Request, argument: string)
    requires RequestText(request, argument)
    ensures ValidUtf8(argument)
  {
    NameIff(request.key);
    if request.fd.Some? {
      DecimalIsAscii(request.fd.value as nat);
    }
    AsciiIsUtf8(argument);
  }

  lemma DecimalIsAscii(n: nat)
    ensures Ascii(Decimal(n))
  {
    var s := Decimal(n);
    forall i | 0 <= i < |s|
      ensures s[i] < '\U{80}'
    {
      assert Digit(s[i]);
    }
  }

  function Keys(requests: seq<Request>): set<string> {
    set i | 0 <= i < |requests| :: requests[i].key
  }

  /** What the parser has collected from `requests`: each key once, each descriptor once. */
  ghost predicate Collected(requests: seq<Request>, secretFds: Mappings) {
    && (forall i, j :: 0 <= i < j < |requests| ==> requests[i].key != requests[j].key)
    && (forall key, fd :: (key in secretFds && secretFds[key] == fd)
          <==> Request(key, Some(fd)) in requests)
    && Injective(secretFds)
  }

  lemma CollectedAdd(requests: seq<Request>, secretFds: Mappings, request: Request)
    requires Collected(requests, secretFds) && request.key !in Keys(requests)
    requires request.fd.Some? ==> request.fd.value !in secretFds.Values && 3 <= request.fd.value < 0x7FFF_FFFF
    ensures Collected(requests + [request],
                      if request.fd.Some? then secretFds[request.key := request.fd.value] else secretFds)
  {
    var fds := if request.fd.Some? then secretFds[request.key := request.fd.value] else secretFds;
    var all := requests + [request];
    forall i | 0 <= i < |requests|
      ensures requests[i].key != request.key
    {
      assert requests[i].key in Keys(requests);
    }
    CollectedKeys(requests, secretFds);
    forall key, fd
      ensures (key in fds && fds[key] == fd) <==> Request(key, Some(fd)) in all
    {
    }
  }

  lemma CollectedKeys(requests: seq<Request>, secretFds: Mappings)
    requires Collected(requests, secretFds)
    ensures secretFds.Keys <= Keys(requests)
  {
    forall key | key in secretFds
      ensures key in Keys(requests)
    {
      var i :| 0 <= i < |requests| && requests[i] == Request(key, Some(secretFds[key]));
    }
  }

  lemma KeysConcat(requests: seq<Request>, request: Request)
    ensures Keys(requests + [request]) == Keys(requests) + {request.key}
  {
    var all := requests + [request];
    forall key | key in Keys(requests) + {request.key}
      ensures key in Keys(all)
    {
      if key in Keys(requests) {
        var i :| 0 <= i < |requests| && requests[i].key == key;
        assert all[i].key == key;
      } else {
        assert all[|requests|].key == key;
      }
    }
  }

  lemma KeysEmpty(requests: seq<Request>)
    ensures Keys(requests) == {} <==> requests == []
  {
    if requests != [] {
      assert requests[0].key in Keys(requests);
    }
  }

  lemma {:induction false} EqualSets(a: set<string>, b: set<string>)
    requires a <= b && |a| == |b|
    ensures a == b
  {
    assert |b - a| == |b| - |a|;
  }

  predicate AllNumbered(requests: seq<Request>) {
    forall i :: 0 <= i < |requests| ==> requests[i].fd.Some?
  }

  predicate NoneNumbered(requests: seq<Request>) {
    forall i :: 0 <= i < |requests| ==> requests[i].fd.None?
  }

  /** No key is requested twice, and no descriptor. */
  predicate Distinct(requests: seq<Request>) {
    forall i, j :: 0 <= i < j < |requests| ==>
      && requests[i].key != requests[j].key
      && (requests[i].fd.Some? ==> requests[i].fd != requests[j].fd)
  }

  lemma AllNumberedIff(requests: seq<Request>, secretFds: Mappings)
    requires Collected(requests, secretFds)
    ensures |secretFds| == |Keys(requests)| <==> AllNumbered(requests)
  {
    CollectedKeys(requests, secretFds);
    assert |secretFds.Keys| == |secretFds|;
    if |secretFds| == |Keys(requests)| {
      EqualSets(secretFds.Keys, Keys(requests));
      forall i | 0 <= i < |requests|
        ensures requests[i].fd.Some?
      {
        assert requests[i].key in Keys(requests);
        NumberedOne(requests, secretFds, i);
      }
    }
    if AllNumbered(requests) {
      forall key | key in Keys(requests)
        ensures key in secretFds
      {
        var i :| 0 <= i < |requests| && requests[i].key == key;
        assert requests[i] == Request(key, Some(requests[i].fd.value));
      }
      assert secretFds.Keys == Keys(requests);
    }
  }

  lemma NumberedOne(requests: seq<Request>, secretFds: Mappings, i: nat)
    requires Collected(requests, secretFds) && i < |requests| && requests[i].key in secretFds
    ensures requests[i].fd.Some?
  {
    var key := requests[i].key;
    var j :| 0 <= j < |requests| && requests[j] == Request(key, Some(secretFds[key]));
    assert i == j;
  }

  lemma NoneNumberedIff(requests: seq<Request>, secretFds: Mappings)
    requires Collected(requests, secretFds)
    ensures secretFds == map[] <==> NoneNumbered(requests)
  {
    forall i | 0 <= i < |requests| && requests[i].fd.Some?
      ensures requests[i].key in secretFds
    {
      assert requests[i] == Request(requests[i].key, Some(requests[i].fd.value));
    }
    forall key | key in secretFds
      ensures exists i :: 0 <= i < |requests| && requests[i].fd.Some?
    {
      assert Request(key, Some(secretFds[key])) in requests;
      var i :| 0 <= i < |requests| && requests[i] == Request(key, Some(secretFds[key]));
    }
    if secretFds != map[] {
      var key :| key in secretFds;
    }
  }

  lemma DistinctAdd(requests: seq<Request>, secretFds: Mappings, request: Request)
    requires Collected(requests, secretFds) && Distinct(requests)
    ensures Distinct(requests + [request])
            <==> request.key !in Keys(requests) && (request.fd.Some? ==> request.fd.value !in secretFds.Values)
  {
    var all := requests + [request];
    if request.key in Keys(requests) {
      var i :| 0 <= i < |requests| && requests[i].key == request.key;
      assert all[i] == requests[i] && all[|requests|] == request;
    } else if request.fd.Some? && request.fd.value in secretFds.Values {
      var key :| key in secretFds && secretFds[key] == request.fd.value;
      var i :| 0 <= i < |requests| && requests[i] == Request(key, Some(request.fd.value));
      assert all[i] == requests[i] && all[|requests|] == request;
    } else {
      forall i | 0 <= i < |requests|
        ensures requests[i].key != request.key && (requests[i].fd.Some? ==> requests[i].fd != request.fd)
      {
        assert requests[i].key in Keys(requests);
        if requests[i].fd.Some? {
          assert requests[i] == Request(requests[i].key, Some(requests[i].fd.value));
          assert secretFds[requests[i].key] in secretFds.Values;
        }
      }
    }
  }

  // ---------------------------------------------------------------- one argument

  datatype Mode = Env | Fd | Invalid

  /** What an argument in front of the target is; `Ask(None)` is a malformed request. */
  datatype Kind =
    | ModeIs(mode: Mode)
    | ReplaceEnv
    | AllowMissing
    | Retired
    | NotText
    | Ask(request: Option<Request>)
    | Dashes
    | Word

  const REPLACE := "--replace-existing-env"
  const MISSING := "--allow-missing-keys"
  const RETIRED := {"--allow-existing-env", "--force", "--import", "--migrate"}

  function ModeOf(value: string): Mode {
    if value == "env" then Env else if value == "fd" then Fd else Invalid
  }

  /** The tests of the loop, in its order. */
  function KindOf(argument: string): (kind: Kind)
    ensures kind.Ask? && kind.request.Some? ==> BoundedRequest(kind.request.value)
  {
    if ValidUtf8(argument) && "--mode=" <= argument then ModeIs(ModeOf(argument[7..]))
    else if argument == REPLACE then ReplaceEnv
    else if argument == MISSING then AllowMissing
    else if argument in RETIRED then Retired
    else if !ValidUtf8(argument) then NotText
    else if "+" <= argument then Ask(ParseRequest(argument))
    else if argument == "--" then Dashes
    else Word
  }

  /** Text that the first test of the loop does not take. */
  predicate OptionText(argument: string) {
    && Ascii(argument) && |argument| >= 2 && argument[0] == '-'
    && (|argument| < 4 || argument[2] != 'm' || argument[3] != 'o')
  }

  lemma OptionIsText(argument: string)
    requires OptionText(argument)
    ensures ValidUtf8(argument) && !("--mode=" <= argument) && !("+" <= argument)
  {
    AsciiIsUtf8(argument);
    assert "--mode="[2] == 'm' && "--mode="[3] == 'o' && "+"[0] == '+';
  }

  lemma RetiredText(argument: string)
    requires argument in RETIRED
    ensures OptionText(argument)
  {
    if argument == "--allow-existing-env" {
      assert OptionText("--allow-existing-env");
    } else if argument == "--force" {
      assert OptionText("--force");
    } else if argument == "--import" {
      assert OptionText("--import");
    } else {
      assert OptionText("--migrate");
    }
  }

  predicate Literal(argument: string) {
    argument == REPLACE || argument == MISSING || argument in RETIRED || argument == "--"
  }

  lemma LiteralText(argument: string)
    requires Literal(argument)
    ensures OptionText(argument)
  {
    if argument in RETIRED {
      RetiredText(argument);
    } else if argument == REPLACE {
      assert OptionText(REPLACE);
    } else if argument == MISSING {
      assert OptionText(MISSING);
    }
  }

  lemma LiteralsDiffer()
    ensures REPLACE != MISSING && REPLACE !in RETIRED && MISSING !in RETIRED && "--" !in RETIRED
    ensures REPLACE != "--" && MISSING != "--"
  {
    assert REPLACE[2] == 'r' && MISSING[8] == 'm' && "--allow-existing-env"[8] == 'e';
    assert |REPLACE| == 22 && |MISSING| == 20 && |"--allow-existing-env"| == 20;
    assert |"--force"| == 7 && |"--import"| == 8 && |"--migrate"| == 9;
  }

  lemma Exclusive(argument: string)
    ensures Literal(argument) ==> ValidUtf8(argument) && !("--mode=" <= argument) && !("+" <= argument)
    ensures !("--mode=" <= argument && "+" <= argument)
  {
    if Literal(argument) {
      LiteralText(argument);
      OptionIsText(argument);
    }
    assert "--mode="[0] == '-' && "+"[0] == '+';
  }

  /** The order of the tests does not matter: each kind has its own, exclusive description. */
  lemma KindIff(argument: string)
    ensures KindOf(argument).ReplaceEnv? <==> argument == REPLACE
    ensures KindOf(argument).AllowMissing? <==> argument == MISSING
    ensures KindOf(argument).Retired? <==> argument in RETIRED
    ensures KindOf(argument).NotText? <==> !ValidUtf8(argument)
    ensures KindOf(argument).Ask? <==> ValidUtf8(argument) && "+" <= argument
    ensures KindOf(argument).Dashes? <==> argument == "--"
    ensures KindOf(argument).ModeIs? <==> ValidUtf8(argument) && "--mode=" <= argument
  {
    LiteralsDiffer();
    Exclusive(argument);
  }

  /** The requests are the arguments written as such. */
  lemma AskIff(argument: string, request: Request)
    ensures KindOf(argument) == Ask(Some(request)) <==> RequestText(request, argument)
  {
    KindIff(argument);
    if RequestText(request, argument) {
      RequestIsText(request, argument);
      RequestOf(request, argument);
    }
    if KindOf(argument).Ask? {
      RequestIff(request, argument);
    }
  }

  /** The two modes are written in full. */
  lemma ModeIff(argument: string)
    ensures KindOf(argument) == ModeIs(Env) <==> argument == "--mode=" + "env"
    ensures KindOf(argument) == ModeIs(Fd) <==> argument == "--mode=" + "fd"
  {
    KindIff(argument);
    StripPrefixParts(argument, "--mode=");
    StripPrefixConcat("--mode=", "env");
    StripPrefixConcat("--mode=", "fd");
    ModesAreText("--mode=" + "env");
    ModesAreText("--mode=" + "fd");
  }

  lemma ModesAreText(argument: string)
    requires argument == "--mode=" + "env" || argument == "--mode=" + "fd"
    ensures ValidUtf8(argument)
  {
    AsciiIsUtf8(argument);
  }

  // ---------------------------------------------------------------- which command lines are accepted

  /** The requests among the first `n` arguments, in order. */
  function Requests(kinds: seq<Kind>, n: nat): seq<Request>
    requires n <= |kinds|
  {
    if n == 0 then []
    else Requests(kinds, n - 1)
         + (if kinds[n - 1].Ask? && kinds[n - 1].request.Some? then [kinds[n - 1].request.value] else [])
  }

  /** What may stand in front of the target. */
  predicate Setting(kind: Kind) {
    || (kind.ModeIs? && kind.mode != Invalid) || kind.ReplaceEnv? || kind.AllowMissing?
    || (kind.Ask? && kind.request.Some?)
  }

  /** The first `n` arguments are settings that go together: one mode at most, distinct requests. */
  predicate Leading(kinds: seq<Kind>, n: nat)
    requires n <= |kinds|
  {
    && (forall i :: 0 <= i < n ==> Setting(kinds[i]))
    && (forall i, j :: 0 <= i < j < n ==> !(kinds[i].ModeIs? && kinds[j].ModeIs?))
    && Distinct(Requests(kinds, n))
  }

  /** The target comes next: after a double dash, or by itself when a key was requested. */
  predicate Ends(kinds: seq<Kind>, n: nat)
    requires n < |kinds|
  {
    if kinds[n].Dashes? then n + 1 < |kinds| else kinds[n].Word? && Requests(kinds, n) != []
  }

  /** Descriptors are for descriptor mode, and there for every key. */
  predicate Agrees(kinds: seq<Kind>, n: nat)
    requires n <= |kinds|
  {
    var requests := Requests(kinds, n);
    if ModeIs(Fd) in kinds[..n] then
      requests != [] && AllNumbered(requests) && ReplaceEnv !in kinds[..n] && AllowMissing !in kinds[..n]
    else NoneNumbered(requests)
  }

  /** The command line is in order and its target is found at `n`. */
  predicate Accepted(kinds: seq<Kind>, n: nat) {
    n < |kinds| && Leading(kinds, n) && Ends(kinds, n) && Agrees(kinds, n)
  }

  // ---------------------------------------------------------------- parse

  datatype Options = Options(
    secretFds: Mappings,
    replaceExistingEnv: bool,
    allowMissingKeys: bool,
    keys: seq<string>,
    target: string,
    args: seq<string>)

  datatype Error =
    | RepeatedMode | BadMode | RetiredOption | NotUtf8 | BadRequest | DuplicateDescriptor | DuplicateKey
    | MissingTarget | MissingKey | DescriptorsIncomplete | DescriptorsWithEnvironment
    | DescriptorsWithoutMode

  datatype Result<T> = Ok(value: T) | Err(error: Error)

  /** The `finish` closure. */
  function Finish(target: string, args: seq<string>, keys: set<string>, secretFds: Mappings,
                  mode: Option<Mode>, replaceExistingEnv: bool, allowMissingKeys: bool): Result<Options>
  {
    if mode == Some(Fd) && (keys == {} || |secretFds| != |keys|) then Err(DescriptorsIncomplete)
    else if mode == Some(Fd) && (replaceExistingEnv || allowMissingKeys) then Err(DescriptorsWithEnvironment)
    else if mode != Some(Fd) && secretFds != map[] then Err(DescriptorsWithoutMode)
    else Ok(Options(secretFds, replaceExistingEnv, allowMissingKeys, Ascending(keys), target, args))
  }

  function Target(arguments: seq<string>, kinds: seq<Kind>, n: nat): (string, seq<string>)
    requires |kinds| == |arguments| && n < |arguments| && (kinds[n].Dashes? ==> n + 1 < |arguments|)
  {
    if kinds[n].Dashes? then (arguments[n + 1], arguments[n + 2..]) else (arguments[n], arguments[n + 1..])
  }

  lemma TargetIs(arguments: seq<string>, kinds: seq<Kind>, n: nat)
    requires |kinds| == |arguments| && n < |arguments| && (kinds[n].Dashes? ==> n + 1 < |arguments|)
    ensures var (target, args) := Target(arguments, kinds, n);
            arguments[n..] == (if kinds[n].Dashes? then [arguments[n]] else []) + [target] + args
  {
  }

  /** The options that the `n` arguments before the target stand for, and the target with its own. */
  ghost predicate From(options: Options, arguments: seq<string>, kinds: seq<Kind>, n: nat)
    requires |kinds| == |arguments|
  {
    && n < |arguments| && (kinds[n].Dashes? ==> n + 1 < |arguments|)
    && Collected(Requests(kinds, n), options.secretFds)
    && options.keys == Ascending(Keys(Requests(kinds, n)))
    && arguments[n..] == (if kinds[n].Dashes? then [arguments[n]] else []) + [options.target] + options.args
    && (options.replaceExistingEnv <==> ReplaceEnv in kinds[..n])
    && (options.allowMissingKeys <==> AllowMissing in kinds[..n])
  }

  lemma {:induction false} RequestsGrow(kinds: seq<Kind>, k: nat, n: nat)
    requires k <= n <= |kinds|
    ensures Requests(kinds, k) <= Requests(kinds, n)
    decreases n
  {
    if k < n {
      RequestsGrow(kinds, k, n - 1);
    }
  }

  lemma LeadingPrefix(kinds: seq<Kind>, k: nat, n: nat)
    requires k <= n <= |kinds| && Leading(kinds, n)
    ensures Leading(kinds, k)
  {
    RequestsGrow(kinds, k, n);
    var a, b := Requests(kinds, k), Requests(kinds, n);
    assert forall i :: 0 <= i < |a| ==> a[i] == b[i];
  }

  lemma AcceptedHere(kinds: seq<Kind>, n: nat, m: nat)
    requires n < |kinds| && Leading(kinds, n) && !Leading(kinds, n + 1) && Accepted(kinds, m)
    ensures m == n
  {
    if m > n {
      LeadingPrefix(kinds, n + 1, m);
      assert false;
    }
  }

  /** Where the settings in front are in order up to `n` but no further, only `n` can be the end. */
  lemma OnlyHere(kinds: seq<Kind>, n: nat)
    requires n < |kinds| && Leading(kinds, n) && !Leading(kinds, n + 1)
    ensures forall m: nat :: Accepted(kinds, m) ==> m == n
  {
    forall m: nat | Accepted(kinds, m)
      ensures m == n
    {
      AcceptedHere(kinds, n, m);
    }
  }

  lemma NoEnd(kinds: seq<Kind>)
    requires Leading(kinds, |kinds|)
    ensures forall m: nat :: !Accepted(kinds, m)
  {
    forall m: nat | m < |kinds|
      ensures !Ends(kinds, m)
    {
      assert Setting(kinds[m]);
    }
  }

  /** What the loop knows after `n` arguments. */
  ghost predicate Known(kinds: seq<Kind>, n: nat, mode: Option<Mode>, secretFds: Mappings,
                        replace: bool, missing: bool, keys: set<string>)
    requires n <= |kinds|
  {
    && keys == Keys(Requests(kinds, n)) && Collected(Requests(kinds, n), secretFds) && Leading(kinds, n)
    && (forall m :: mode == Some(m) <==> ModeIs(m) in kinds[..n])
    && (replace <==> ReplaceEnv in kinds[..n]) && (missing <==> AllowMissing in kinds[..n])
  }

  lemma TakeNext(kinds: seq<Kind>, n: nat)
    requires n < |kinds|
    ensures forall kind :: kind in kinds[..n + 1] <==> kind in kinds[..n] || kind == kinds[n]
  {
    assert kinds[..n + 1] == kinds[..n] + [kinds[n]];
  }

  lemma LeadingNext(kinds: seq<Kind>, n: nat)
    requires n < |kinds| && Leading(kinds, n) && Setting(kinds[n])
    requires kinds[n].ModeIs? ==> forall m :: ModeIs(m) !in kinds[..n]
    requires Distinct(Requests(kinds, n + 1))
    ensures Leading(kinds, n + 1)
  {
    forall i | 0 <= i < n && kinds[i].ModeIs?
      ensures ModeIs(kinds[i].mode) in kinds[..n]
    {
      assert kinds[i] in kinds[..n];
    }
  }

  lemma KnownFlag(kinds: seq<Kind>, n: nat, mode: Option<Mode>, secretFds: Mappings, replace: bool,
                  missing: bool, keys: set<string>)
    requires n < |kinds| && Known(kinds, n, mode, secretFds, replace, missing, keys)
    requires Setting(kinds[n]) && !kinds[n].Ask? && (kinds[n].ModeIs? ==> mode.None?)
    ensures Known(kinds, n + 1, if kinds[n].ModeIs? then Some(kinds[n].mode) else mode, secretFds,
                  replace || kinds[n].ReplaceEnv?, missing || kinds[n].AllowMissing?, keys)
  {
    TakeNext(kinds, n);
    assert Requests(kinds, n + 1) == Requests(kinds, n);
    LeadingNext(kinds, n);
    var next := if kinds[n].ModeIs? then Some(kinds[n].mode) else mode;
    forall m
      ensures next == Some(m) <==> ModeIs(m) in kinds[..n + 1]
    {
      assert mode == Some(m) <==> ModeIs(m) in kinds[..n];
    }
  }

  lemma KnownRequest(kinds: seq<Kind>, n: nat, mode: Option<Mode>, secretFds: Mappings, replace: bool,
                     missing: bool, keys: set<string>, request: Request)
    requires n < |kinds| && Known(kinds, n, mode, secretFds, replace, missing, keys)
    requires kinds[n] == Ask(Some(request))
    requires request.fd.Some? ==> request.fd.value !in secretFds.Values && 3 <= request.fd.value < 0x7FFF_FFFF
    requires request.key !in keys
    ensures Known(kinds, n + 1, mode,
                  if request.fd.Some? then secretFds[request.key := request.fd.value] else secretFds,
                  replace, missing, keys + {request.key})
  {
    TakeNext(kinds, n);
    KeysConcat(Requests(kinds, n), request);
    CollectedAdd(Requests(kinds, n), secretFds, request);
    DistinctAdd(Requests(kinds, n), secretFds, request);
    LeadingNext(kinds, n);
  }

  /** An argument that is neither a setting nor the end of the settings. */
  lemma Refuse(kinds: seq<Kind>, n: nat)
    requires n < |kinds| && Leading(kinds, n) && !Setting(kinds[n]) && !Ends(kinds, n)
    ensures forall m: nat :: !Accepted(kinds, m)
  {
    OnlyHere(kinds, n);
  }

  lemma RefuseMode(kinds: seq<Kind>, n: nat, m: Mode)
    requires n < |kinds| && Leading(kinds, n) && kinds[n].ModeIs? && ModeIs(m) in kinds[..n]
    ensures forall k: nat :: !Accepted(kinds, k)
  {
    var i :| 0 <= i < n && kinds[i] == ModeIs(m);
    OnlyHere(kinds, n);
  }

  lemma RefuseDuplicate(kinds: seq<Kind>, n: nat, secretFds: Mappings, request: Request)
    requires n < |kinds| && Leading(kinds, n) && Collected(Requests(kinds, n), secretFds)
    requires kinds[n] == Ask(Some(request))
    requires request.key in Keys(Requests(kinds, n)) || (request.fd.Some? && request.fd.value in secretFds.Values)
    ensures forall m: nat :: !Accepted(kinds, m)
  {
    DistinctAdd(Requests(kinds, n), secretFds, request);
    OnlyHere(kinds, n);
  }

  /** A target at `n`: what `Finish` says of it is final. */
  lemma Decided(arguments: seq<string>, kinds: seq<Kind>, n: nat, mode: Option<Mode>, secretFds: Mappings,
                replace: bool, missing: bool, keys: set<string>)
    requires |kinds| == |arguments| && n < |kinds| && Known(kinds, n, mode, secretFds, replace, missing, keys)
    requires Ends(kinds, n)
    ensures var (target, args) := Target(arguments, kinds, n);
            var r := Finish(target, args, keys, secretFds, mode, replace, missing);
            && (r.Ok? ==> Accepted(kinds, n) && From(r.value, arguments, kinds, n))
            && (r.Err? ==> forall m: nat :: !Accepted(kinds, m))
  {
    OnlyHere(kinds, n);
    var requests := Requests(kinds, n);
    AllNumberedIff(requests, secretFds);
    NoneNumberedIff(requests, secretFds);
    KeysEmpty(requests);
    TargetIs(arguments, kinds, n);
  }

  /** What the loop has collected. */
  datatype Settings = Settings(mode: Option<Mode>, secretFds: Mappings, replace: bool, missing: bool, keys: set<string>)

  ghost predicate KnownAs(kinds: seq<Kind>, n: nat, st: Settings)
    requires n <= |kinds|
  {
    Known(kinds, n, st.mode, st.secretFds, st.replace, st.missing, st.keys)
  }

  ghost predicate Hopeless(kinds: seq<Kind>) {
    forall m: nat :: !Accepted(kinds, m)
  }

  /** The bounds of every number that was parsed. */
  predicate Bounded(kinds: seq<Kind>) {
    forall i :: 0 <= i < |kinds| && kinds[i].Ask? && kinds[i].request.Some? ==> BoundedRequest(kinds[i].request.value)
  }

  predicate BoundedRequest(request: Request) {
    request.fd.Some? ==> 3 <= request.fd.value < 0x7FFF_FFFF
  }

  /** One request. */
  method TakeRequest(kinds: seq<Kind>, i: nat, st: Settings, request: Request) returns (r: Result<Settings>)
    requires i < |kinds| && KnownAs(kinds, i, st) && kinds[i] == Ask(Some(request)) && BoundedRequest(request)
    ensures r.Ok? ==> KnownAs(kinds, i + 1, r.value)
    ensures r.Err? ==> Hopeless(kinds)
  {
    if request.fd.Some? && request.fd.value in st.secretFds.Values {
      RefuseDuplicate(kinds, i, st.secretFds, request);
      return Err(DuplicateDescriptor);
    }
    if request.key in st.keys {
      RefuseDuplicate(kinds, i, st.secretFds, request);
      return Err(DuplicateKey);
    }
    KnownRequest(kinds, i, st.mode, st.secretFds, st.replace, st.missing, st.keys, request);
    var secretFds := if request.fd.Some? then st.secretFds[request.key := request.fd.value] else st.secretFds;
    r := Ok(st.(secretFds := secretFds, keys := st.keys + {request.key}));
  }

  /** One argument in front of the target. */
  method Take(kinds: seq<Kind>, i: nat, st: Settings) returns (r: Result<Settings>)
    requires i < |kinds| && KnownAs(kinds, i, st) && Bounded(kinds) && !kinds[i].Dashes? && !kinds[i].Word?
    ensures r.Ok? ==> KnownAs(kinds, i + 1, r.value)
    ensures r.Err? ==> Hopeless(kinds)
  {
    match kinds[i]
    case ModeIs(value) =>
      if st.mode.Some? {
        RefuseMode(kinds, i, st.mode.value);
        return Err(RepeatedMode);
      }
      if value == Invalid {
        Refuse(kinds, i);
        return Err(BadMode);
      }
      KnownFlag(kinds, i, st.mode, st.secretFds, st.replace, st.missing, st.keys);
      r := Ok(st.(mode := Some(value)));
    case ReplaceEnv =>
      KnownFlag(kinds, i, st.mode, st.secretFds, st.replace, st.missing, st.keys);
      r := Ok(st.(replace := true));
    case AllowMissing =>
      KnownFlag(kinds, i, st.mode, st.secretFds, st.replace, st.missing, st.keys);
      r := Ok(st.(missing := true));
    case Retired =>
      Refuse(kinds, i);
      r := Err(RetiredOption);
    case NotText =>
      Refuse(kinds, i);
      r := Err(NotUtf8);
    case Ask(None) =>
      Refuse(kinds, i);
      r := Err(BadRequest);
    case Ask(Some(request)) =>
      r := TakeRequest(kinds, i, st, request);
  }

  /** The target, after a double dash or by itself. */
  method TakeTarget(arguments: seq<string>, kinds: seq<Kind>, i: nat, st: Settings) returns (r: Result<Options>)
    requires |kinds| == |arguments| && i < |kinds| && KnownAs(kinds, i, st) && (kinds[i].Dashes? || kinds[i].Word?)
    ensures r.Ok? ==> Accepted(kinds, i) && From(r.value, arguments, kinds, i)
    ensures r.Err? ==> Hopeless(kinds)
  {
    KeysEmpty(Requests(kinds, i));
    if kinds[i].Dashes? && i + 1 == |arguments| {
      Refuse(kinds, i);
      return Err(MissingTarget);
    }
    if kinds[i].Word? && st.keys == {} {
      Refuse(kinds, i);
      return Err(MissingKey);
    }
    Decided(arguments, kinds, i, st.mode, st.secretFds, st.replace, st.missing, st.keys);
    var (target, args) := Target(arguments, kinds, i);
    r := Finish(target, args, st.keys, st.secretFds, st.mode, st.replace, st.missing);
  }

  lemma KnownStart(kinds: seq<Kind>)
    ensures KnownAs(kinds, 0, Settings(None, map[], false, false, {}))
  {
    assert kinds[..0] == [];
  }

  lemma KnownToEnd(kinds: seq<Kind>, st: Settings)
    requires KnownAs(kinds, |kinds|, st)
    ensures Hopeless(kinds)
  {
    NoEnd(kinds);
  }

  /** The loop of `parse` over classified arguments. */
  method ParseKinds(arguments: seq<string>, kinds: seq<Kind>) returns (r: Result<Options>, ghost n: nat)
    requires |kinds| == |arguments| && Bounded(kinds)
    ensures r.Ok? ==> Accepted(kinds, n) && From(r.value, arguments, kinds, n)
    ensures r.Err? ==> Hopeless(kinds)
  {
    var st := Settings(None, map[], false, false, {});
    KnownStart(kinds);
    for i := 0 to |arguments|
      invariant KnownAs(kinds, i, st)
    {
      n := i;
      if kinds[i].Dashes? || kinds[i].Word? {
        r := TakeTarget(arguments, kinds, i, st);
        return;
      }
      var next := Take(kinds, i, st);
      if next.Err? {
        return Err(next.error), n;
      }
      st := next.value;
    }
    n := 0;
    KnownToEnd(kinds, st);
    r := Err(if st.keys == {} then MissingKey else MissingTarget);
  }

  function Kinds(arguments: seq<string>): (kinds: seq<Kind>)
    ensures |kinds| == |arguments|
  {
    seq(|arguments|, i requires 0 <= i < |arguments| => KindOf(arguments[i]))
  }

  /** `parse`: it accepts exactly the command lines that are in order, and gives what they stand for. */
  method Parse(arguments: seq<string>) returns (r: Result<Options>, ghost n: nat)
    ensures r.Ok? ==> Accepted(Kinds(arguments), n) && From(r.value, arguments, Kinds(arguments), n)
    ensures r.Ok? ==> Injective(r.value.secretFds)
    ensures r.Err? ==> Hopeless(Kinds(arguments))
  {
    r, n := ParseKinds(arguments, Kinds(arguments));
  }
}
