/** The limits of `RemotePlan::validate` (src/git_transport.rs) are exact: the bound on the number of
printed lines is reached, and the bound on their total size is implied by no other clause. Both are
shown by one family of pushes, each of 4096 branches with a lease of its own. */
module GitBound {
  import opened Text
  import opened GitPlan
  import opened GitGrammar

  // ---------------------------------------------------------------- distinct branch names

  function Repeat(c: char, n: nat): string {
    seq(n, _ => c)
  }

  /** The low `width` binary digits of `i`. */
  function Bits(i: nat, width: nat): (s: string)
    ensures |s| == width && forall k :: 0 <= k < |s| ==> s[k] == '0' || s[k] == '1'
  {
    if width == 0 then "" else Bits(i / 2, width - 1) + (if i % 2 == 0 then "0" else "1")
  }

  lemma {:induction false} BitsInjective(i: nat, j: nat, width: nat)
    requires i < Power(2, width) && j < Power(2, width) && Bits(i, width) == Bits(j, width)
    ensures i == j
  {
    if width > 0 {
      var a, b := Bits(i, width), Bits(j, width);
      assert a[..width - 1] == Bits(i / 2, width - 1) && b[..width - 1] == Bits(j / 2, width - 1);
      assert a[width - 1] == (if i % 2 == 0 then '0' else '1');
      assert b[width - 1] == (if j % 2 == 0 then '0' else '1');
      BitsInjective(i / 2, j / 2, width - 1);
    }
  }

  lemma PowerTwelve()
    ensures Power(2, 12) == 4096
  {
    assert Power(2, 4) == 16;
    assert Power(2, 8) == 256;
  }

  function Label(i: nat, pad: nat): (s: string)
    ensures |s| == 12 + pad
    ensures forall k :: 0 <= k < |s| ==> Alphanumeric(s[k])
  {
    Bits(i, 12) + Repeat('a', pad)
  }

  function Branch(i: nat, pad: nat): (s: string)
    ensures |s| == 23 + pad
  {
    "refs/heads/" + Label(i, pad)
  }

  lemma BranchInjective(i: nat, j: nat, pad: nat)
    requires i < 4096 && j < 4096 && Branch(i, pad) == Branch(j, pad)
    ensures i == j
  {
    assert Label(i, pad) == Branch(i, pad)[11..] && Label(j, pad) == Branch(j, pad)[11..];
    assert Bits(i, 12) == Label(i, pad)[..12] && Bits(j, 12) == Label(j, pad)[..12];
    PowerTwelve();
    BitsInjective(i, j, 12);
  }

  // ---------------------------------------------------------------- they are branches

  lemma AlphanumericComponent(name: string)
    requires name != "" && forall k :: 0 <= k < |name| ==> Alphanumeric(name[k])
    ensures Component(name) && Split(name, '/') == [name]
  {
    assert |name| >= 5 ==> name[|name| - 5..][0] == name[|name| - 5];
    assert '/' !in name;
  }

  lemma BranchValid(i: nat, pad: nat)
    requires pad <= 187
    ensures ValidBranch(Branch(i, pad))
  {
    AlphanumericComponent(Label(i, pad));
    PrefixedBranchIff(Label(i, pad));
  }

  // ---------------------------------------------------------------- the family

  function Oid(): string {
    Repeat('1', 40)
  }

  /** The same value for the first `n` names. */
  function Assign(name: nat -> string, n: nat, value: string): map<string, string> {
    if n == 0 then map[] else Assign(name, n - 1, value)[name(n - 1) := value]
  }

  lemma {:induction false} AssignKeys(name: nat -> string, n: nat, value: string, wanted: string)
    ensures wanted in Assign(name, n, value) <==> exists i :: 0 <= i < n && name(i) == wanted
    ensures wanted in Assign(name, n, value) ==> Assign(name, n, value)[wanted] == value
  {
    if n > 0 {
      AssignKeys(name, n - 1, value, wanted);
      OneMore(name, n - 1, wanted);
    }
  }

  function Namer(pad: nat): nat -> string {
    (i: nat) => Branch(i, pad)
  }

  function Leases(n: nat, pad: nat): map<string, string> {
    Assign(Namer(pad), n, Oid())
  }

  lemma LeaseKeys(n: nat, pad: nat, reference: string)
    ensures reference in Leases(n, pad) <==> exists i :: 0 <= i < n && Namer(pad)(i) == reference
    ensures reference in Leases(n, pad) ==> Leases(n, pad)[reference] == Oid()
  {
    AssignKeys(Namer(pad), n, Oid(), reference);
  }

  lemma OneMore(name: nat -> string, n: nat, wanted: string)
    ensures (exists i :: 0 <= i < n + 1 && name(i) == wanted)
            <==> (exists i :: 0 <= i < n && name(i) == wanted) || name(n) == wanted
  {
    if i :| 0 <= i < n && name(i) == wanted {
      assert 0 <= i < n + 1;
    }
  }

  lemma {:induction false} AssignCount(name: nat -> string, n: nat, value: string)
    requires forall i: nat, j: nat :: i < j < n ==> name(i) != name(j)
    ensures |Assign(name, n, value)| == n
  {
    if n > 0 {
      AssignCount(name, n - 1, value);
      AssignKeys(name, n - 1, value, name(n - 1));
      MapGrows(Assign(name, n - 1, value), name(n - 1), value);
    }
  }

  lemma LeaseCount(n: nat, pad: nat)
    requires n <= 4096
    ensures |Leases(n, pad)| == n
  {
    forall i: nat, j: nat | i < j < n
      ensures Namer(pad)(i) != Namer(pad)(j)
    {
      if Branch(i, pad) == Branch(j, pad) {
        BranchInjective(i, j, pad);
      }
    }
    AssignCount(Namer(pad), n, Oid());
  }

  lemma LeaseEntry(pad: nat, reference: string)
    requires reference in Leases(4096, pad)
    ensures exists i :: 0 <= i < 4096 && Branch(i, pad) == reference
    ensures |reference| == 23 + pad && Leases(4096, pad)[reference] == Oid()
    ensures pad <= 187 ==> ValidBranch(reference)
  {
    LeaseKeys(4096, pad, reference);
    var i :| 0 <= i < 4096 && Namer(pad)(i) == reference;
    assert Branch(i, pad) == reference;
    if pad <= 187 {
      BranchValid(i, pad);
    }
  }

  function Command(i: nat, pad: nat): string {
    PushLine(Push(false, Oid(), Branch(i, pad)))
  }

  lemma CommandShape(i: nat, pad: nat, leases: map<string, string>)
    requires pad <= 187
    ensures |Command(i, pad)| == 69 + pad
    ensures PushCommandOk(Command(i, pad), leases) && Destination(Command(i, pad)) == Branch(i, pad)
  {
    BranchValid(i, pad);
    assert Oid()[0] == '1';
    ParsePushLine(Push(false, Oid(), Branch(i, pad)));
  }

  function AllOptions(): map<string, string> {
    map["progress" := "true", "cloning" := "true", "followtags" := "true",
        "check-connectivity" := "true", "dry-run" := "true", "verbosity" := "0"]
  }

  function Largest(pad: nat): RemotePlan {
    RemotePlan(SAMPLE_URL, "push", AllOptions(), Leases(4096, pad),
               seq(4096, i requires 0 <= i < 4096 => Command(i, pad)))
  }

  lemma SixKeys()
    ensures |AllOptions()| == 6
  {
    assert AllOptions().Keys
           == {"progress", "cloning", "followtags", "check-connectivity", "dry-run", "verbosity"};
    SixDistinct("progress", "cloning", "followtags", "check-connectivity", "dry-run", "verbosity");
  }

  lemma SixDistinct(a: string, b: string, c: string, d: string, e: string, f: string)
    requires a != b && c !in {a, b} && d !in {a, b, c} && e !in {a, b, c, d} && f !in {a, b, c, d, e}
    ensures |{a, b, c, d, e, f}| == 6
  {
    assert {a, b, c, d, e, f} == {a, b, c, d, e} + {f};
  }

  const SAMPLE_URL := "https://github.com/" + ("o" + ['/'] + "r" + ".git")

  lemma SampleUrl()
    ensures ValidUrl(SAMPLE_URL) && |SAMPLE_URL| == 26
  {
    assert UrlName("o") && UrlName("r");
    UrlIff(SAMPLE_URL);
  }

  lemma {:induction false} EqualLengths(lines: seq<string>, size: nat)
    requires forall i :: 0 <= i < |lines| ==> |lines[i]| == size
    ensures TotalLength(lines) == |lines| * size
  {
    if lines != [] {
      EqualLengths(lines[..|lines| - 1], size);
      assert |lines| * size == (|lines| - 1) * size + size;
    }
  }

  lemma LeaseSizes(pad: nat)
    requires pad <= 187
    ensures TotalLength(LeaseValues(Leases(4096, pad))) == 4096 * (64 + pad)
    ensures TotalLength(LeaseLines(Leases(4096, pad))) == 4096 * (75 + pad)
  {
    var leases := Leases(4096, pad);
    LeaseCount(4096, pad);
    var keys := Ascending(leases.Keys);
    forall i | 0 <= i < 4096
      ensures |LeaseValues(leases)[i]| == 64 + pad && |LeaseLines(leases)[i]| == 75 + pad
    {
      assert keys[i] in keys;
      LeaseEntry(pad, keys[i]);
    }
    EqualLengths(LeaseValues(leases), 64 + pad);
    EqualLengths(LeaseLines(leases), 75 + pad);
  }

  lemma CommandSizes(pad: nat)
    requires pad <= 187
    ensures TotalLength(Largest(pad).commands) == 4096 * (69 + pad)
  {
    var commands := Largest(pad).commands;
    forall i | 0 <= i < 4096
      ensures |commands[i]| == 69 + pad
    {
      CommandShape(i, pad, map[]);
    }
    EqualLengths(commands, 69 + pad);
  }

  lemma LargestPushes(pad: nat)
    requires pad <= 187
    ensures PushesOk(Largest(pad).commands, Largest(pad).leases)
  {
    var commands, leases := Largest(pad).commands, Largest(pad).leases;
    forall i | 0 <= i < 4096
      ensures PushCommandOk(commands[i], leases) && Destination(commands[i]) == Branch(i, pad)
    {
      CommandShape(i, pad, leases);
    }
    forall i, j | 0 <= i < j < 4096
      ensures Destination(commands[i]) != Destination(commands[j])
    {
      if Destination(commands[i]) == Destination(commands[j]) {
        BranchInjective(i, j, pad);
      }
    }
    forall reference | reference in leases
      ensures exists i :: 0 <= i < |commands| && Destination(commands[i]) == reference
    {
      LeaseEntry(pad, reference);
      var i :| 0 <= i < 4096 && Branch(i, pad) == reference;
      assert Destination(commands[i]) == reference;
    }
  }

  lemma LargestLeases(pad: nat)
    requires pad <= 187
    ensures LeasesOk(Largest(pad))
  {
    forall reference | reference in Leases(4096, pad)
      ensures ValidBranch(reference) && ValidOid(Leases(4096, pad)[reference])
    {
      LeaseEntry(pad, reference);
    }
    LeaseCount(4096, pad);
    LeaseSizes(pad);
  }

  lemma LargestOptions(pad: nat)
    ensures OptionsOk(Largest(pad))
  {
    forall key | key in AllOptions()
      ensures ValidOption(key, AllOptions()[key])
    {
      if key != "verbosity" {
        assert key in FLAG_OPTIONS;
      }
    }
  }

  lemma LargestCommands(pad: nat)
    requires pad <= 187
    ensures CommandsOk(Largest(pad))
  {
    CommandSizes(pad);
    LargestPushes(pad);
    assert PhaseOk(Largest(pad)) by {
      PushPhase(Largest(pad));
    }
  }

  lemma PushPhase(plan: RemotePlan)
    requires plan.phase == "push" && PushesOk(plan.commands, plan.leases)
    ensures PhaseOk(plan)
  {
  }

  /** Every clause but the total size. */
  lemma LargestPasses(pad: nat)
    requires pad <= 187
    ensures var plan := Largest(pad);
            UrlOk(plan) && OptionsOk(plan) && LeasesOk(plan) && CommandsOk(plan)
  {
    SampleUrl();
    LargestOptions(pad);
    LargestLeases(pad);
    LargestCommands(pad);
  }

  lemma LargestWire(pad: nat)
    requires pad <= 187
    ensures |Wire(Largest(pad))| == 8202
    ensures TotalLength(Wire(Largest(pad)))
            == 43 + TotalLength(OptionLines(AllOptions())) + 4096 * (75 + pad) + 4096 * (69 + pad)
  {
    var plan := Largest(pad);
    LeaseCount(4096, pad);
    SixKeys();
    LeaseSizes(pad);
    CommandSizes(pad);
    var head := ["remote-helper", plan.url, plan.phase];
    var leases, options := LeaseLines(plan.leases), OptionLines(plan.options);
    TotalLengthConcat(head + leases + options + [""], plan.commands);
    TotalLengthConcat(head + leases + options, [""]);
    TotalLengthConcat(head + leases, options);
    TotalLengthConcat(head, leases);
    SampleUrl();
    TotalOfThree("remote-helper", plan.url, plan.phase);
    TotalOfOne("");
  }

  lemma OptionSizes()
    ensures TotalLength(OptionLines(AllOptions())) <= 6 * 40
  {
    SixKeys();
    var lines := OptionLines(AllOptions());
    var keys := Ascending(AllOptions().Keys);
    forall i | 0 <= i < 6
      ensures |lines[i]| <= 40
    {
      assert keys[i] in keys;
      OptionSize(keys[i]);
    }
    BoundedLengths(lines, 40);
  }

  lemma OptionSize(key: string)
    requires key in AllOptions()
    ensures |OptionLine(key, AllOptions()[key])| <= 40
  {
    assert key == "progress" || key == "cloning" || key == "followtags" || key == "check-connectivity"
           || key == "dry-run" || key == "verbosity";
    assert |key| <= 18 && |AllOptions()[key]| <= 4;
  }

  lemma {:induction false} BoundedLengths(lines: seq<string>, size: nat)
    requires forall i :: 0 <= i < |lines| ==> |lines[i]| <= size
    ensures TotalLength(lines) <= |lines| * size
  {
    if lines != [] {
      BoundedLengths(lines[..|lines| - 1], size);
      assert |lines| * size == (|lines| - 1) * size + size;
    }
  }

  // ---------------------------------------------------------------- both results

  /** 8202 printed lines are reached by a valid plan, so the bound cannot be lowered. */
  lemma LineBoundIsReached()
    ensures Valid(Largest(0)) && |Wire(Largest(0))| == 8202
  {
    LargestPasses(0);
    LargestWire(0);
    OptionSizes();
    RedundantGuards(Largest(0));
  }

  /** The bound on the total size refuses plans that every other clause accepts. */
  lemma SizeBoundIsNeeded()
    ensures var plan := Largest(187);
            && UrlOk(plan) && OptionsOk(plan) && LeasesOk(plan) && CommandsOk(plan) && WireBounded(plan)
            && TotalLength(Wire(plan)) > MAX_BYTES + 16384 && !Valid(plan)
  {
    LargestPasses(187);
    LargestWire(187);
    RedundantGuards(Largest(187));
  }
}
