/** Byte strings and ordered keys, shared by every component.

A Rust `String`, `OsStr` or `&[u8]` is a `string` here with one `char` per byte, so lengths,
slices and comparisons are those of the bytes. `ValidUtf8` is the check of `String::from_utf8`. */
module Text {
  datatype Option<+T> = None | Some(value: T)

  /** One more than the largest unsigned 64-bit number. */
  const U64: nat := 0x1_0000_0000_0000_0000

  function Power(base: nat, exponent: nat): nat {
    if exponent == 0 then 1 else base * Power(base, exponent - 1)
  }

  lemma Rejoin<T>(s: seq<T>, i: nat)
    requires i <= |s|
    ensures s[..i] + s[i..] == s
  {
  }

  lemma SliceOfPrefix<T>(s: seq<T>, n: nat, a: nat, b: nat)
    requires a <= b <= n <= |s|
    ensures s[..n][a..b] == s[a..b] && s[..n][a..] == s[a..n]
  {
  }

  lemma DropOfConcat<T>(a: seq<T>, b: seq<T>, k: nat)
    requires k <= |a|
    ensures (a + b)[k..] == a[k..] + b
  {
  }

  lemma TailOfConcat<T>(a: seq<T>, b: seq<T>)
    requires a != []
    ensures (a + b)[1..] == a[1..] + b && (a + b)[0] == a[0]
  {
  }

  lemma TakeMore<T>(s: seq<T>, n: nat)
    requires n < |s|
    ensures s[..n + 1] == s[..n] + [s[n]]
  {
  }

  /** All but the last, and the last. */
  lemma Unsnoc<T>(s: seq<T>)
    requires s != []
    ensures s == s[..|s| - 1] + [s[|s| - 1]]
  {
  }

  lemma MapGrows<V>(m: map<string, V>, key: string, value: V)
    requires key !in m
    ensures |m[key := value]| == |m| + 1
  {
    assert m[key := value].Keys == m.Keys + {key};
    assert |m.Keys + {key}| == |m.Keys| + 1;
  }

  lemma Associate<T>(a: seq<T>, b: seq<T>, c: seq<T>)
    ensures (a + b) + c == a + (b + c)
  {
  }

  // ---------------------------------------------------------------- splitting

  /** Position of the first `c`, or the length of `s` when there is none. */
  function IndexOf(s: string, c: char): (i: nat)
    ensures i <= |s|
    ensures c !in s[..i]
    ensures i < |s| ==> s[i] == c
    ensures i == |s| <==> c !in s
  {
    if s == "" then 0
    else if s[0] == c then 0
    else
      assert s == [s[0]] + s[1..];
      1 + IndexOf(s[1..], c)
  }

  lemma IndexOfConcat(a: string, c: char, b: string)
    requires c !in a
    ensures IndexOf(a + [c] + b, c) == |a|
  {
    var s := a + [c] + b;
    assert s[|a|] == c && s[..|a|] == a;
  }

  /** `str::split_once`. */
  function SplitOnce(s: string, c: char): Option<(string, string)> {
    var i := IndexOf(s, c);
    if i < |s| then Some((s[..i], s[i + 1..])) else None
  }

  lemma SplitOnceConcat(a: string, c: char, b: string)
    requires c !in a
    ensures SplitOnce(a + [c] + b, c) == Some((a, b))
  {
    IndexOfConcat(a, c, b);
    assert (a + [c] + b)[..|a|] == a;
    assert (a + [c] + b)[|a| + 1..] == b;
  }

  lemma SplitOnceParts(s: string, c: char)
    ensures SplitOnce(s, c).Some? ==>
              var (a, b) := SplitOnce(s, c).value;
              s == a + [c] + b && c !in a
    ensures SplitOnce(s, c).None? <==> c !in s
  {
  }

  /** `str::split`. */
  function Split(s: string, c: char): (parts: seq<string>)
    ensures |parts| > 0
    decreases |s|
  {
    var i := IndexOf(s, c);
    if i < |s| then [s[..i]] + Split(s[i + 1..], c) else [s]
  }

  /** `[a, b, c].join(separator)`. */
  function Join(parts: seq<string>, separator: string): string {
    if parts == [] then ""
    else if |parts| == 1 then parts[0]
    else parts[0] + separator + Join(parts[1..], separator)
  }

  lemma JoinCons(head: string, tail: seq<string>, separator: string)
    requires tail != []
    ensures Join([head] + tail, separator) == head + separator + Join(tail, separator)
  {
    assert ([head] + tail)[1..] == tail;
  }

  lemma CutAt(s: string, i: nat)
    requires i < |s|
    ensures s == s[..i] + [s[i]] + s[i + 1..]
  {
  }

  lemma {:induction false} JoinSplit(s: string, c: char)
    ensures Join(Split(s, c), [c]) == s
    decreases |s|
  {
    var i := IndexOf(s, c);
    if i < |s| {
      JoinSplit(s[i + 1..], c);
      JoinCons(s[..i], Split(s[i + 1..], c), [c]);
      CutAt(s, i);
    }
  }

  function StripPrefix(s: string, prefix: string): Option<string> {
    if prefix <= s then Some(s[|prefix|..]) else None
  }

  lemma StripPrefixParts(s: string, prefix: string)
    ensures StripPrefix(s, prefix).Some? ==> s == prefix + StripPrefix(s, prefix).value
  {
  }

  lemma StripPrefixConcat(prefix: string, rest: string)
    ensures StripPrefix(prefix + rest, prefix) == Some(rest)
    ensures prefix <= prefix + rest
  {
  }

  function StripSuffix(s: string, suffix: string): Option<string> {
    if EndsWith(s, suffix) then Some(s[..|s| - |suffix|]) else None
  }

  lemma StripSuffixParts(s: string, suffix: string)
    ensures StripSuffix(s, suffix).Some? ==> s == StripSuffix(s, suffix).value + suffix
  {
  }

  predicate EndsWith(s: string, suffix: string) {
    |suffix| <= |s| && s[|s| - |suffix|..] == suffix
  }

  predicate HasSubstring(s: string, part: string) {
    exists i :: 0 <= i <= |s| && part <= s[i..]
  }

  /** A text has a part exactly when it is that part with something around it. */
  lemma HasSubstringIff(s: string, part: string)
    ensures HasSubstring(s, part) <==> exists a, b :: s == a + (part + b)
  {
    if HasSubstring(s, part) {
      var i :| 0 <= i <= |s| && part <= s[i..];
      Rejoin(s, i);
      StripPrefixParts(s[i..], part);
      assert s == s[..i] + (part + s[i..][|part|..]);
    }
    if a, b :| s == a + (part + b) {
      assert s[|a|..] == part + b;
    }
  }

  function TotalLength(parts: seq<string>): nat {
    if parts == [] then 0 else TotalLength(parts[..|parts| - 1]) + |parts[|parts| - 1]|
  }

  lemma {:induction false} TotalLengthConcat(a: seq<string>, b: seq<string>)
    ensures TotalLength(a + b) == TotalLength(a) + TotalLength(b)
  {
    if b == [] {
      assert a + b == a;
    } else {
      TotalLengthConcat(a, b[..|b| - 1]);
      assert (a + b)[..|a + b| - 1] == a + b[..|b| - 1];
    }
  }

  lemma TotalOfOne(a: string)
    ensures TotalLength([a]) == |a|
  {
    assert [a][..0] == [];
  }

  lemma TotalOfThree(a: string, b: string, c: string)
    ensures TotalLength([a, b, c]) == |a| + |b| + |c|
  {
    assert [a, b, c] == [a] + [b] + [c];
    TotalLengthConcat([a] + [b], [c]);
    TotalLengthConcat([a], [b]);
    TotalOfOne(a);
    TotalOfOne(b);
    TotalOfOne(c);
  }

  lemma TotalLengthNext(parts: seq<string>, n: nat)
    requires n < |parts|
    ensures TotalLength(parts[..n + 1]) == TotalLength(parts[..n]) + |parts[n]|
  {
    SliceOfPrefix(parts, n + 1, 0, n);
    assert parts[..n + 1][..n] == parts[..n];
  }

  lemma {:induction false} TotalLengthPrefix(parts: seq<string>, n: nat)
    requires n <= |parts|
    ensures TotalLength(parts[..n]) <= TotalLength(parts)
  {
    TotalLengthConcat(parts[..n], parts[n..]);
    Rejoin(parts, n);
  }

  // ---------------------------------------------------------------- characters

  predicate Digit(c: char) { '0' <= c <= '9' }

  predicate Alphanumeric(c: char) { Digit(c) || 'a' <= c <= 'z' || 'A' <= c <= 'Z' }

  predicate Ascii(s: string) {
    forall i :: 0 <= i < |s| ==> s[i] < '\U{80}'
  }

  predicate Continuation(s: string, i: nat) {
    i < |s| && 0x80 <= s[i] as int < 0xC0
  }

  /** Number of bytes of the well-formed UTF-8 sequence at the front of `s`, 0 when there is none
      (Table 3-7 of the Unicode Standard). */
  function Utf8Head(s: string): (n: nat)
    requires s != ""
    ensures n <= |s| && n <= 4
  {
    var a := s[0] as int;
    var b := if |s| > 1 then s[1] as int else 0;
    if a < 0x80 then 1
    else if 0xC2 <= a <= 0xDF && Continuation(s, 1) then 2
    else if 0xE0 <= a <= 0xEF && Continuation(s, 1) && Continuation(s, 2)
         && (a == 0xE0 ==> b >= 0xA0) && (a == 0xED ==> b < 0xA0) then 3
    else if 0xF0 <= a <= 0xF4 && Continuation(s, 1) && Continuation(s, 2) && Continuation(s, 3)
         && (a == 0xF0 ==> b >= 0x90) && (a == 0xF4 ==> b < 0x90) then 4
    else 0
  }

  predicate ValidUtf8(s: string)
    decreases |s|
  {
    s == "" || (Utf8Head(s) > 0 && ValidUtf8(s[Utf8Head(s)..]))
  }

  lemma {:induction false} AsciiIsUtf8(s: string)
    requires Ascii(s)
    ensures ValidUtf8(s)
    decreases |s|
  {
    if s != "" {
      AsciiIsUtf8(s[1..]);
    }
  }

  // ---------------------------------------------------------------- ordered keys

  /** Byte-lexicographic order: how `BTreeMap` iterates and how `OsStr` names sort. */
  predicate Less(a: string, b: string) {
    if b == "" then false
    else if a == "" then true
    else a[0] < b[0] || (a[0] == b[0] && Less(a[1..], b[1..]))
  }

  lemma {:induction false} LessTotal(a: string, b: string)
    ensures Less(a, b) || a == b || Less(b, a)
    ensures !(Less(a, b) && Less(b, a))
    ensures !Less(a, a)
    decreases |a| + |b|
  {
    if a != "" && b != "" {
      LessTotal(a[1..], b[1..]);
      assert a == [a[0]] + a[1..] && b == [b[0]] + b[1..];
    }
    if a != "" {
      LessIrreflexive(a);
    }
  }

  lemma {:induction false} LessIrreflexive(a: string)
    ensures !Less(a, a)
  {
    if a != "" {
      LessIrreflexive(a[1..]);
    }
  }

  lemma {:induction false} LessTransitive(a: string, b: string, c: string)
    requires Less(a, b) && Less(b, c)
    ensures Less(a, c)
  {
    if a != "" && a[0] == b[0] && b[0] == c[0] {
      LessTransitive(a[1..], b[1..], c[1..]);
    }
  }

  /** The first difference decides, and a prefix comes before what it is a prefix of. */
  lemma {:induction false} LessIff(a: string, b: string)
    ensures Less(a, b) <==> a < b || Smaller(a, b)
  {
    if a != "" && b != "" {
      if a[0] == b[0] {
        LessIff(a[1..], b[1..]);
        SmallerCons(a[0], a[1..], b[1..]);
        assert a == [a[0]] + a[1..] && b == [a[0]] + b[1..];
      } else {
        SmallerHeads(a, b);
      }
    }
  }

  ghost predicate Smaller(a: string, b: string) {
    exists i: nat :: i < |a| && i < |b| && DiffersAt(a, b, i) && a[i] < b[i]
  }

  lemma SmallerHeads(a: string, b: string)
    requires a != "" && b != "" && a[0] != b[0]
    ensures Smaller(a, b) <==> a[0] < b[0]
    ensures !(a < b)
  {
    assert DiffersAt(a, b, 0);
    if i: nat :| i < |a| && i < |b| && DiffersAt(a, b, i) && a[i] < b[i] {
      assert i > 0 ==> a[..i][0] == b[..i][0];
    }
  }

  lemma SmallerCons(c: char, a: string, b: string)
    ensures Smaller([c] + a, [c] + b) <==> Smaller(a, b)
    ensures [c] + a < [c] + b <==> a < b
  {
    var s, t := [c] + a, [c] + b;
    if Smaller(a, b) {
      var i: nat :| i < |a| && i < |b| && DiffersAt(a, b, i) && a[i] < b[i];
      DiffersCons(c, a, b, i);
    }
    if Smaller(s, t) {
      var i: nat :| i < |s| && i < |t| && DiffersAt(s, t, i) && s[i] < t[i];
      DiffersCons(c, a, b, i - 1);
    }
    PrefixCons(c, a, b);
  }

  lemma DiffersCons(c: char, a: string, b: string, i: nat)
    requires i < |a| && i < |b|
    ensures DiffersAt([c] + a, [c] + b, i + 1) <==> DiffersAt(a, b, i)
  {
    assert ([c] + a)[..i + 1] == [c] + a[..i] && ([c] + b)[..i + 1] == [c] + b[..i];
    assert ([c] + a[..i])[1..] == a[..i] && ([c] + b[..i])[1..] == b[..i];
  }

  lemma PrefixCons(c: char, a: string, b: string)
    ensures [c] + a < [c] + b <==> a < b
  {
    if [c] + a < [c] + b {
      assert ([c] + b)[..|a| + 1] == [c] + b[..|a|];
      assert ([c] + a)[1..] == a;
    }
  }

  predicate DiffersAt(a: string, b: string, i: nat)
    requires i < |a| && i < |b|
  {
    a[..i] == b[..i] && a[i] != b[i]
  }

  predicate IsLeast(key: string, keys: set<string>) {
    key in keys && forall other :: other in keys && other != key ==> Less(key, other)
  }

  lemma {:induction false} LeastExists(keys: set<string>)
    requires keys != {}
    ensures exists key :: IsLeast(key, keys)
    ensures forall a, b :: IsLeast(a, keys) && IsLeast(b, keys) ==> a == b
    decreases |keys|
  {
    forall a, b | IsLeast(a, keys) && IsLeast(b, keys)
      ensures a == b
    {
      LessTotal(a, b);
    }
    var some :| some in keys;
    var others := keys - {some};
    if others == {} {
      assert keys == {some};
      assert IsLeast(some, keys);
    } else {
      LeastExists(others);
      var least :| IsLeast(least, others);
      LessTotal(some, least);
      if Less(some, least) {
        forall other | other in keys && other != some
          ensures Less(some, other)
        {
          if other != least {
            LessTransitive(some, least, other);
          }
        }
        assert IsLeast(some, keys);
      } else {
        assert IsLeast(least, keys);
      }
    }
  }

  predicate StrictlyAscending(keys: seq<string>) {
    forall i, j :: 0 <= i < j < |keys| ==> Less(keys[i], keys[j])
  }

  lemma LeastFirst(keys: set<string>, least: string, rest: seq<string>)
    requires IsLeast(least, keys) && StrictlyAscending(rest)
    requires forall key :: key in rest <==> key in keys - {least}
    ensures StrictlyAscending([least] + rest)
    ensures forall key :: key in [least] + rest <==> key in keys
  {
    var all := [least] + rest;
    forall i, j | 0 <= i < j < |all|
      ensures Less(all[i], all[j])
    {
      assert all[j] == rest[j - 1] && rest[j - 1] in rest;
    }
  }

  /** The keys of a `BTreeMap` or `BTreeSet` in iteration order. */
  function Ascending(keys: set<string>): (order: seq<string>)
    ensures forall key :: key in order <==> key in keys
    ensures |order| == |keys|
    ensures StrictlyAscending(order)
    decreases |keys|
  {
    if keys == {} then []
    else
      LeastExists(keys);
      var least :| IsLeast(least, keys);
      var rest := Ascending(keys - {least});
      LeastFirst(keys, least, rest);
      [least] + rest
  }

  lemma AscendingDistinct(keys: seq<string>)
    requires StrictlyAscending(keys)
    ensures forall i, j :: 0 <= i < j < |keys| ==> keys[i] != keys[j]
  {
    forall i, j | 0 <= i < j < |keys|
      ensures keys[i] != keys[j]
    {
      LessIrreflexive(keys[i]);
    }
  }
}
