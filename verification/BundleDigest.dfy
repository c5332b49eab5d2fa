/** The digest stream of a Launcher Bundle identifies its tree: two link-free trees have the same stream
exactly when they have the same names and contents, whatever their owners, modes and listing order. */
module BundleDigest {
  import opened Text
  import opened BundleTree

  /** Same files with the same bytes under the same names. */
  predicate Same(t: Tree, u: Tree)
    decreases t
  {
    || (t.File? && u.File? && t.bytes == u.bytes)
    || (t.Dir? && u.Dir? && Names(t) == Names(u)
        && forall name :: name in Names(t) ==> Same(Child(t, name), Child(u, name)))
  }

  // ---------------------------------------------------------------- decoding bytes

  lemma {:induction false} BigEndianInjective(m: nat, n: nat, width: nat, bound: nat)
    requires bound == Power(256, width) && m < bound && n < bound
    requires BigEndian(m, width) == BigEndian(n, width)
    ensures m == n
    decreases width
  {
    if width > 0 {
      var a, b := BigEndian(m / 256, width - 1), BigEndian(n / 256, width - 1);
      assert (a + [(m % 256) as char])[..width - 1] == a && (b + [(n % 256) as char])[..width - 1] == b;
      assert (a + [(m % 256) as char])[width - 1] == (b + [(n % 256) as char])[width - 1];
      assert m % 256 == n % 256;
      BigEndianInjective(m / 256, n / 256, width - 1, Power(256, width - 1));
    }
  }

  lemma LengthWord(m: nat, n: nat)
    requires m < U64 && n < U64 && BigEndian(m, 8) == BigEndian(n, 8)
    ensures m == n
  {
    assert Power(256, 4) == 0x1_0000_0000;
    assert Power(256, 5) == 0x100_0000_0000;
    assert Power(256, 6) == 0x1_0000_0000_0000;
    assert Power(256, 8) == U64;
    BigEndianInjective(m, n, 8, U64);
  }

  lemma TakeEqual(a: string, x: string, b: string, y: string)
    requires a + x == b + y && |a| == |b|
    ensures a == b && x == y
  {
    assert a == (a + x)[..|a|] && b == (b + y)[..|b|];
    assert x == (a + x)[|a|..] && y == (b + y)[|b|..];
  }

  /** A length-prefixed string can be read back from the front of any text. */
  lemma PrefixedDecodes(a: string, x: string, b: string, y: string)
    requires |a| < U64 && |b| < U64
    requires (BigEndian(|a|, 8) + a) + x == (BigEndian(|b|, 8) + b) + y
    ensures a == b && x == y
  {
    Associate(BigEndian(|a|, 8), a, x);
    Associate(BigEndian(|b|, 8), b, y);
    TakeEqual(BigEndian(|a|, 8), a + x, BigEndian(|b|, 8), b + y);
    LengthWord(|a|, |b|);
    TakeEqual(a, x, b, y);
  }

  lemma HeaderDecodes(k: char, a: string, x: string, l: char, b: string, y: string)
    requires |a| < U64 && |b| < U64 && Header(k, a) + x == Header(l, b) + y
    ensures k == l && a == b && x == y
  {
    Associate([k], BigEndian(|a|, 8) + a, x);
    Associate([l], BigEndian(|b|, 8) + b, y);
    TakeEqual([k], (BigEndian(|a|, 8) + a) + x, [l], (BigEndian(|b|, 8) + b) + y);
    assert [k][0] == [l][0];
    PrefixedDecodes(a, x, b, y);
  }

  predicate Sized(r: Record) {
    |r.path| < U64 && (r.FileRecord? ==> |r.bytes| < U64)
  }

  function Kind(r: Record): char { if r.DirRecord? then 'D' else 'F' }

  function Body(r: Record): string {
    if r.DirRecord? then "" else BigEndian(|r.bytes|, 8) + r.bytes
  }

  lemma EncodeParts(r: Record, x: string)
    ensures Encode(r) + x == Header(Kind(r), r.path) + (Body(r) + x)
  {
    if r.DirRecord? {
      assert "" + x == x;
    } else {
      Associate(Header('F', r.path), Body(r), x);
    }
  }

  lemma EncodeDecodes(r: Record, x: string, q: Record, y: string)
    requires Sized(r) && Sized(q) && Encode(r) + x == Encode(q) + y
    ensures r == q && x == y
  {
    EncodeParts(r, x);
    EncodeParts(q, y);
    HeaderDecodes(Kind(r), r.path, Body(r) + x, Kind(q), q.path, Body(q) + y);
    if r.FileRecord? {
      PrefixedDecodes(r.bytes, x, q.bytes, y);
    } else {
      assert "" + x == x && "" + y == y;
    }
  }

  ghost predicate Decodes(encode: Record -> string, sized: Record -> bool) {
    && (forall r, x, q, y :: sized(r) && sized(q) && encode(r) + x == encode(q) + y ==> r == q && x == y)
    && (forall r :: encode(r) != "")
  }

  lemma EncodingDecodes()
    ensures Decodes(Encode, Sized)
  {
    forall r, x, q, y | Sized(r) && Sized(q) && Encode(r) + x == Encode(q) + y
      ensures r == q && x == y
    {
      EncodeDecodes(r, x, q, y);
    }
  }

  lemma {:induction false} FlattenInjective(encode: Record -> string, sized: Record -> bool,
                                            a: seq<Record>, b: seq<Record>)
    requires Decodes(encode, sized)
    requires forall r :: r in a || r in b ==> sized(r)
    requires Flatten(encode, a) == Flatten(encode, b)
    ensures a == b
  {
    if a != [] && b != [] {
      assert encode(a[0]) + Flatten(encode, a[1..]) == encode(b[0]) + Flatten(encode, b[1..]);
      FlattenInjective(encode, sized, a[1..], b[1..]);
      assert a == [a[0]] + a[1..] && b == [b[0]] + b[1..];
    }
  }

  // ---------------------------------------------------------------- rebuilding the tree

  /** `q` is the path of something inside the directory at `path`. */
  predicate Inside(q: string, path: string) {
    if path == "" then q != "" else path + "/" <= q
  }

  ghost predicate Outside(records: seq<Record>, path: string) {
    records != [] ==> !Inside(records[0].path, path)
  }

  lemma BelowInside(path: string, name: string)
    requires name != ""
    ensures Inside(Below(path, name), path) && Below(path, name) != ""
  {
  }

  lemma BelowInjective(path: string, a: string, b: string)
    requires Below(path, a) == Below(path, b)
    ensures a == b
  {
    if path != "" {
      assert Below(path, a)[|path| + 1..] == a && Below(path, b)[|path| + 1..] == b;
    }
  }

  lemma SiblingOutside(path: string, a: string, b: string)
    requires a != "" && a != b && '/' !in b
    ensures !Inside(Below(path, b), Below(path, a))
  {
    var p, q := Below(path, a) + "/", Below(path, b);
    assert p[|p| - 1] == '/';
    assert path != "" ==> q[|path| + 1..] == b;
  }

  lemma UncleOutside(q: string, path: string, name: string)
    requires name != "" && !Inside(q, path)
    ensures !Inside(q, Below(path, name))
  {
    var prefix := path + "/" + name + "/";
    assert prefix[..|path| + 1] == path + "/";
  }

  lemma RecordsStart(path: string, t: Tree)
    requires Plain(t)
    ensures Records(path, t) != [] && Records(path, t)[0].path == path
  {
  }

  /** What follows a child is not inside it. */
  lemma NextOutside(path: string, t: Tree, names: seq<string>, rest: seq<Record>)
    requires t.Dir? && Plain(t) && WellFormed(path, t) && names != [] && StrictlyAscending(names)
    requires forall name :: name in names ==> name in Names(t)
    requires Outside(rest, path)
    ensures Outside(ForestRecords(path, t, names[1..]) + rest, Below(path, names[0]))
  {
    assert names[0] in Names(t);
    if |names| > 1 {
      var next := names[1];
      assert next in Names(t) && names[1..][0] == next;
      AscendingDistinct(names);
      PlainChild(t, next);
      RecordsStart(Below(path, next), Child(t, next));
      SiblingOutside(path, names[0], next);
    } else if rest != [] {
      assert ForestRecords(path, t, names[1..]) + rest == rest;
      UncleOutside(rest[0].path, path, names[0]);
    }
  }

  /** No children on one side means none on the other. */
  lemma ForestEnds(path: string, u: Tree, ms: seq<string>, x: seq<Record>, y: seq<Record>)
    requires u.Dir? && Plain(u) && WellFormed(path, u) && forall name :: name in ms ==> name in Names(u)
    requires Outside(x, path) && x == ForestRecords(path, u, ms) + y
    ensures ms == [] && x == y
  {
    if ms != [] {
      ForestStarts(path, u, ms, y);
      assert false;
    }
    assert [] + y == y;
  }

  lemma FirstEqual(a: seq<Record>, x: seq<Record>, b: seq<Record>, y: seq<Record>)
    requires a != [] && b != [] && a + x == b + y
    ensures a[0] == b[0] && a[1..] + x == b[1..] + y
  {
    assert (a + x)[0] == a[0] && (b + y)[0] == b[0];
    assert (a + x)[1..] == a[1..] + x && (b + y)[1..] == b[1..] + y;
  }

  /** The first child is the same one on both sides. */
  lemma ForestHeads(path: string, t: Tree, u: Tree, ns: seq<string>, ms: seq<string>,
                    x: seq<Record>, y: seq<Record>)
    requires t.Dir? && Plain(t) && u.Dir? && Plain(u) && ns != [] && ms != []
    requires forall name :: name in ns ==> name in Names(t)
    requires forall name :: name in ms ==> name in Names(u)
    requires ForestRecords(path, t, ns) + x == ForestRecords(path, u, ms) + y
    ensures ns[0] == ms[0] && ns[0] in Names(t) && ns[0] in Names(u)
    ensures Records(Below(path, ns[0]), Child(t, ns[0])) + (ForestRecords(path, t, ns[1..]) + x)
            == Records(Below(path, ns[0]), Child(u, ns[0])) + (ForestRecords(path, u, ms[1..]) + y)
  {
    var n, m := ns[0], ms[0];
    assert n in ns && m in ms;
    var a, b := Records(Below(path, n), Child(t, n)), Records(Below(path, m), Child(u, m));
    Associate(a, ForestRecords(path, t, ns[1..]), x);
    Associate(b, ForestRecords(path, u, ms[1..]), y);
    PlainChild(t, n);
    RecordsStart(Below(path, n), Child(t, n));
    PlainChild(u, m);
    RecordsStart(Below(path, m), Child(u, m));
    FirstEqual(a, ForestRecords(path, t, ns[1..]) + x, b, ForestRecords(path, u, ms[1..]) + y);
    BelowInjective(path, n, m);
  }

  /** `names` are some children of the directory `t` at `path`, in order. */
  ghost predicate Children(path: string, t: Tree, names: seq<string>) {
    && t.Dir? && Plain(t) && WellFormed(path, t)
    && StrictlyAscending(names) && forall name :: name in names ==> name in Names(t)
  }

  lemma ChildrenTail(path: string, t: Tree, names: seq<string>, rest: seq<Record>)
    requires Children(path, t, names) && names != [] && Outside(rest, path)
    ensures Children(path, t, names[1..]) && names[0] in Names(t)
    ensures Plain(Child(t, names[0])) && WellFormed(Below(path, names[0]), Child(t, names[0]))
    ensures Outside(ForestRecords(path, t, names[1..]) + rest, Below(path, names[0]))
  {
    assert names[0] in names;
    NextOutside(path, t, names, rest);
  }

  lemma SameCons(t: Tree, u: Tree, ns: seq<string>, ms: seq<string>)
    requires t.Dir? && u.Dir? && ns != [] && ms != [] && ns[0] == ms[0] && ns[1..] == ms[1..]
    requires forall name :: name in ns ==> name in Names(t)
    requires forall name :: name in ms ==> name in Names(u)
    requires Same(Child(t, ns[0]), Child(u, ns[0]))
    requires forall name :: name in ns[1..] ==> Same(Child(t, name), Child(u, name))
    ensures ns == ms
    ensures forall name :: name in ns ==> Same(Child(t, name), Child(u, name))
  {
    assert ns == [ns[0]] + ns[1..] && ms == [ms[0]] + ms[1..];
  }

  /** The records of some children of `t` followed by others, read back against those of `u`. */
  lemma {:induction false} ForestDetermines(path: string, t: Tree, u: Tree, ns: seq<string>, ms: seq<string>,
                                            x: seq<Record>, y: seq<Record>)
    requires Children(path, t, ns) && Children(path, u, ms) && Outside(x, path) && Outside(y, path)
    requires ForestRecords(path, t, ns) + x == ForestRecords(path, u, ms) + y
    ensures ns == ms && x == y
    ensures forall name :: name in ns ==> Same(Child(t, name), Child(u, name))
    decreases t, 0, |ns|
  {
    if ns == [] {
      assert [] + x == x;
      ForestEnds(path, u, ms, x, y);
    } else if ms == [] {
      assert [] + y == y;
      ForestEnds(path, t, ns, y, x);
    } else {
      ForestHeads(path, t, u, ns, ms, x, y);
      ChildrenTail(path, t, ns, x);
      ChildrenTail(path, u, ms, y);
      RecordsDetermine(Below(path, ns[0]), Child(t, ns[0]), Child(u, ns[0]),
                       ForestRecords(path, t, ns[1..]) + x, ForestRecords(path, u, ms[1..]) + y);
      ForestDetermines(path, t, u, ns[1..], ms[1..], x, y);
      SameCons(t, u, ns, ms);
    }
  }

  lemma ForestStarts(path: string, t: Tree, names: seq<string>, rest: seq<Record>)
    requires t.Dir? && Plain(t) && WellFormed(path, t) && names != []
    requires forall name :: name in names ==> name in Names(t)
    ensures var all := ForestRecords(path, t, names) + rest; all != [] && Inside(all[0].path, path)
  {
    assert names[0] in Names(t);
    PlainChild(t, names[0]);
    RecordsStart(Below(path, names[0]), Child(t, names[0]));
    BelowInside(path, names[0]);
  }

  /** The first record tells a file from a directory. */
  lemma RecordsHeads(path: string, t: Tree, u: Tree, x: seq<Record>, y: seq<Record>)
    requires Plain(t) && Plain(u) && Records(path, t) + x == Records(path, u) + y
    ensures t.Dir? == u.Dir?
    ensures t.File? ==> t.bytes == u.bytes && x == y
    ensures t.Dir? ==> ForestRecords(path, t, Ascending(Names(t))) + x
                       == ForestRecords(path, u, Ascending(Names(u))) + y
  {
    var a, b := Records(path, t), Records(path, u);
    FirstEqual(a, x, b, y);
    if t.Dir? {
      assert a[1..] == ForestRecords(path, t, Ascending(Names(t)));
      assert b[1..] == ForestRecords(path, u, Ascending(Names(u)));
    } else {
      assert a[1..] + x == x && b[1..] + y == y;
    }
  }

  /** Equal records mean the same tree, whatever outside it follows. */
  lemma {:induction false} RecordsDetermine(path: string, t: Tree, u: Tree, x: seq<Record>, y: seq<Record>)
    requires Plain(t) && WellFormed(path, t) && Plain(u) && WellFormed(path, u)
    requires Outside(x, path) && Outside(y, path)
    requires Records(path, t) + x == Records(path, u) + y
    ensures Same(t, u) && x == y
    decreases t, 1, 0
  {
    RecordsHeads(path, t, u, x, y);
    if t.Dir? {
      ForestDetermines(path, t, u, Ascending(Names(t)), Ascending(Names(u)), x, y);
      SameNames(Names(t), Names(u));
    }
  }

  lemma SameNames(a: set<string>, b: set<string>)
    requires Ascending(a) == Ascending(b)
    ensures a == b && forall name :: name in Ascending(a) <==> name in a
  {
    forall name
      ensures name in a <==> name in b
    {
      assert name in Ascending(a) <==> name in a;
      assert name in Ascending(b) <==> name in b;
    }
  }

  // ---------------------------------------------------------------- the same tree streams the same

  lemma {:induction false} SameForest(path: string, t: Tree, u: Tree, names: seq<string>)
    requires t.Dir? && Same(t, u) && forall name :: name in names ==> name in Names(t)
    ensures ForestRecords(path, t, names) == ForestRecords(path, u, names)
    decreases t, 0, |names|
  {
    if names != [] {
      assert names[0] in Names(t);
      SameRecords(Below(path, names[0]), Child(t, names[0]), Child(u, names[0]));
      SameForest(path, t, u, names[1..]);
    }
  }

  lemma {:induction false} SameRecords(path: string, t: Tree, u: Tree)
    requires Same(t, u)
    ensures Records(path, t) == Records(path, u)
    decreases t, 1, 0
  {
    if t.Dir? {
      SameForest(path, t, u, Ascending(Names(t)));
    }
  }

  // ---------------------------------------------------------------- the theorem

  lemma {:induction false} ForestSized(path: string, t: Tree, names: seq<string>, r: Record)
    requires t.Dir? && WellFormed(path, t) && forall name :: name in names ==> name in Names(t)
    requires r in ForestRecords(path, t, names)
    ensures Sized(r)
    decreases t, 0, |names|
  {
    var head := Records(Below(path, names[0]), Child(t, names[0]));
    assert names[0] in Names(t);
    if r in head {
      RecordsSized(Below(path, names[0]), Child(t, names[0]), r);
    } else {
      assert r in ForestRecords(path, t, names[1..]);
      ForestSized(path, t, names[1..], r);
    }
  }

  lemma {:induction false} RecordsSized(path: string, t: Tree, r: Record)
    requires WellFormed(path, t) && r in Records(path, t)
    ensures Sized(r)
    decreases t, 1, 0
  {
    if t.Dir? && r != DirRecord(path) {
      assert r in ForestRecords(path, t, Ascending(Names(t)));
      ForestSized(path, t, Ascending(Names(t)), r);
    }
  }

  lemma OnlyChild(path: string, t: Tree, i: nat)
    requires t.Dir? && WellFormed(path, t) && i < |t.entries|
    ensures t.entries[i].name in Names(t) && Child(t, t.entries[i].name) == t.entries[i].node
  {
    var name := t.entries[i].name;
    assert name in Names(t);
    var j :| 0 <= j < |t.entries| && t.entries[j] == Entry(name, Child(t, name));
    assert i == j;
  }

  lemma {:induction false} HashablePlain(path: string, t: Tree)
    requires Hashable(path, t) && WellFormed(path, t)
    ensures Plain(t)
    decreases t
  {
    if t.Dir? {
      forall i | 0 <= i < |t.entries|
        ensures Plain(t.entries[i].node)
      {
        OnlyChild(path, t, i);
        HashablePlain(Below(path, t.entries[i].name), t.entries[i].node);
      }
    }
  }

  /** The stream fed to the digest identifies the tree up to owners, modes and listing order. */
  lemma StreamIdentifiesTree(t: Tree, u: Tree)
    requires WellFormed("", t) && Hashable("", t) && WellFormed("", u) && Hashable("", u)
    ensures Stream(t) == Stream(u) <==> Same(t, u)
  {
    if Same(t, u) {
      SameRecords("", t, u);
    }
    if Stream(t) == Stream(u) {
      var a, b := Records("", t), Records("", u);
      forall r | r in a || r in b
        ensures Sized(r)
      {
        if r in a {
          RecordsSized("", t, r);
        } else {
          RecordsSized("", u, r);
        }
      }
      EncodingDecodes();
      FlattenInjective(Encode, Sized, a, b);
      HashablePlain("", t);
      HashablePlain("", u);
      assert a + [] == b + [];
      RecordsDetermine("", t, u, [], []);
    }
  }
}
