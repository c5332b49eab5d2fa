/** The tree of a Launcher Bundle and the byte stream fed to its digest (src/cli/launcher_bundle.rs). */
module BundleTree {
  import opened Text

  datatype Attributes = Attributes(uid: nat, gid: nat, mode: bv12)

  /** A directory lists its entries in the order in which the filesystem happens to return them. */
  datatype Tree =
    | File(attributes: Attributes, bytes: string)
    | Dir(attributes: Attributes, entries: seq<Entry>)
    | Link(attributes: Attributes)
    | Special(attributes: Attributes)

  datatype Entry = Entry(name: string, node: Tree)

  function Names(t: Tree): set<string>
    requires t.Dir?
  {
    set i | 0 <= i < |t.entries| :: t.entries[i].name
  }

  /** The entry called `name`: the first one, should there be two. */
  function Child(t: Tree, name: string): (c: Tree)
    requires t.Dir? && name in Names(t)
    ensures exists i :: 0 <= i < |t.entries| && t.entries[i] == Entry(name, c)
    ensures c < t
  {
    ChildAt(t.entries, name)
  }

  function ChildAt(entries: seq<Entry>, name: string): (c: Tree)
    requires exists i :: 0 <= i < |entries| && entries[i].name == name
    ensures exists i :: 0 <= i < |entries| && entries[i] == Entry(name, c)
  {
    if entries[0].name == name then entries[0].node else ChildAt(entries[1..], name)
  }

  /** Path of a child relative to the root of the tree. */
  function Below(path: string, name: string): string {
    if path == "" then name else path + "/" + name
  }

  /** What every real filesystem provides: names are non-empty, free of slashes and unique within their
      directory, and lengths fit in 64 bits. */
  predicate WellFormed(path: string, t: Tree)
    decreases t
  {
    && |path| < U64
    && (t.File? ==> |t.bytes| < U64)
    && (t.Dir? ==>
          && (forall i, j :: 0 <= i < j < |t.entries| ==> t.entries[i].name != t.entries[j].name)
          && (forall name :: name in Names(t) ==>
                name != "" && '/' !in name && WellFormed(Below(path, name), Child(t, name))))
  }

  /** Neither links nor special files. */
  predicate Plain(t: Tree) {
    (t.File? || t.Dir?) && (t.Dir? ==> forall i :: 0 <= i < |t.entries| ==> Plain(t.entries[i].node))
  }

  lemma PlainChild(t: Tree, name: string)
    requires Plain(t) && t.Dir? && name in Names(t)
    ensures Plain(Child(t, name))
  {
    var i :| 0 <= i < |t.entries| && t.entries[i] == Entry(name, Child(t, name));
  }

  /** What the digest accepts: no links or special files, and only UTF-8 paths. */
  predicate Hashable(path: string, t: Tree)
    decreases t
  {
    && (t.File? || t.Dir?)
    && ValidUtf8(path)
    && (t.Dir? ==> forall name :: name in Names(t) ==> Hashable(Below(path, name), Child(t, name)))
  }

  /** The calls that a walk over a tree makes, each of which may fail. */
  datatype Call = Step | Inspect(path: string) | Read(path: string) | Own(path: string) | Mode(path: string)

  type Faults = Call -> bool

  /** Nothing that the digest has to inspect or read fails. */
  predicate Readable(path: string, t: Tree, fails: Faults)
    decreases t
  {
    && !fails(Inspect(path)) && !fails(Read(path))
    && (t.Dir? ==> forall name :: name in Names(t) ==> Readable(Below(path, name), Child(t, name), fails))
  }

  // ---------------------------------------------------------------- the stream

  datatype Record = DirRecord(path: string) | FileRecord(path: string, bytes: string)

  /** `to_be_bytes`. */
  function BigEndian(n: nat, width: nat): (s: string)
    ensures |s| == width
  {
    if width == 0 then "" else BigEndian(n / 256, width - 1) + [(n % 256) as char]
  }

  function Header(kind: char, path: string): string {
    [kind] + (BigEndian(|path|, 8) + path)
  }

  function Encode(r: Record): string {
    match r
    case DirRecord(path) => Header('D', path)
    case FileRecord(path, bytes) => Header('F', path) + (BigEndian(|bytes|, 8) + bytes)
  }

  function Flatten(encode: Record -> string, records: seq<Record>): string {
    if records == [] then "" else encode(records[0]) + Flatten(encode, records[1..])
  }

  function EncodeAll(records: seq<Record>): string { Flatten(Encode, records) }

  /** One record per entry, children after their directory and by ascending name. */
  function Records(path: string, t: Tree): seq<Record>
    decreases t, 0
  {
    match t
    case File(_, bytes) => [FileRecord(path, bytes)]
    case Dir(_, _) => [DirRecord(path)] + ForestRecords(path, t, Ascending(Names(t)))
    case Link(_) => []
    case Special(_) => []
  }

  function ForestRecords(path: string, t: Tree, names: seq<string>): seq<Record>
    requires t.Dir? && forall name :: name in names ==> name in Names(t)
    decreases t, 0, |names|
  {
    if names == [] then []
    else Records(Below(path, names[0]), Child(t, names[0])) + ForestRecords(path, t, names[1..])
  }

  function Stream(t: Tree): string { EncodeAll(Records("", t)) }

  // ---------------------------------------------------------------- hash_tree_entry

  class Context {
    var fed: string

    constructor ()
      ensures fed == ""
    {
      fed := "";
    }

    method Update(bytes: string)
      modifies this
      ensures fed == old(fed) + bytes
    {
      fed := fed + bytes;
    }
  }

  method HashHeader(context: Context, kind: char, path: string)
    modifies context
    ensures context.fed == old(context.fed) + Header(kind, path)
  {
    context.Update([kind]);
    context.Update(BigEndian(|path|, 8));
    context.Update(path);
    Associate(old(context.fed) + [kind], BigEndian(|path|, 8), path);
    Associate(old(context.fed), [kind], BigEndian(|path|, 8) + path);
  }

  /** The read loop: at most 64 KiB at a time until nothing is left. */
  method HashContent(context: Context, bytes: string)
    modifies context
    ensures context.fed == old(context.fed) + bytes
  {
    var offset := 0;
    while offset < |bytes|
      invariant 0 <= offset <= |bytes| && context.fed == old(context.fed) + bytes[..offset]
    {
      var count: nat :| 0 < count <= 65536 && offset + count <= |bytes|;
      context.Update(bytes[offset..offset + count]);
      assert bytes[..offset] + bytes[offset..offset + count] == bytes[..offset + count];
      offset := offset + count;
    }
    assert bytes[..offset] == bytes;
  }

  method HashFile(context: Context, path: string, bytes: string)
    modifies context
    ensures context.fed == old(context.fed) + Encode(FileRecord(path, bytes))
  {
    HashHeader(context, 'F', path);
    ghost var before := context.fed;
    context.Update(BigEndian(|bytes|, 8));
    HashContent(context, bytes);
    Associate(before, BigEndian(|bytes|, 8), bytes);
    Associate(old(context.fed), Header('F', path), BigEndian(|bytes|, 8) + bytes);
  }

  lemma {:induction false} FlattenConcat(encode: Record -> string, a: seq<Record>, b: seq<Record>)
    ensures Flatten(encode, a + b) == Flatten(encode, a) + Flatten(encode, b)
  {
    if a == [] {
      assert a + b == b;
    } else {
      FlattenConcat(encode, a[1..], b);
      assert (a + b)[1..] == a[1..] + b && (a + b)[0] == a[0];
      Associate(encode(a[0]), Flatten(encode, a[1..]), Flatten(encode, b));
    }
  }

  lemma FlattenOne(encode: Record -> string, r: Record)
    ensures Flatten(encode, [r]) == encode(r)
  {
    assert [r][1..] == [];
    assert encode(r) + "" == encode(r);
  }

  lemma {:induction false} ForestConcat(path: string, t: Tree, a: seq<string>, b: seq<string>)
    requires t.Dir? && forall name :: name in a + b ==> name in Names(t)
    requires (forall name :: name in a ==> name in Names(t)) && (forall name :: name in b ==> name in Names(t))
    ensures ForestRecords(path, t, a + b) == ForestRecords(path, t, a) + ForestRecords(path, t, b)
    decreases |a|
  {
    if a == [] {
      assert a + b == b;
    } else {
      TailOfConcat(a, b);
      ForestConcat(path, t, a[1..], b);
      Associate(Records(Below(path, a[0]), Child(t, a[0])), ForestRecords(path, t, a[1..]),
                ForestRecords(path, t, b));
    }
  }

  lemma ForestOne(path: string, t: Tree, name: string)
    requires t.Dir? && name in Names(t)
    ensures ForestRecords(path, t, [name]) == Records(Below(path, name), Child(t, name))
  {
    assert [name][1..] == [];
  }

  lemma ForestRecordsSnoc(path: string, t: Tree, names: seq<string>, n: nat)
    requires t.Dir? && n < |names| && forall name :: name in names ==> name in Names(t)
    ensures ForestRecords(path, t, names[..n + 1])
            == ForestRecords(path, t, names[..n]) + Records(Below(path, names[n]), Child(t, names[n]))
  {
    TakeMore(names, n);
    ForestConcat(path, t, names[..n], [names[n]]);
    ForestOne(path, t, names[n]);
  }

  lemma ForestStreamSnoc(path: string, t: Tree, names: seq<string>, n: nat, fed: string)
    requires t.Dir? && n < |names| && forall name :: name in names ==> name in Names(t)
    ensures fed + EncodeAll(ForestRecords(path, t, names[..n + 1]))
            == (fed + EncodeAll(ForestRecords(path, t, names[..n])))
               + EncodeAll(Records(Below(path, names[n]), Child(t, names[n])))
  {
    ForestRecordsSnoc(path, t, names, n);
    FlattenConcat(Encode, ForestRecords(path, t, names[..n]), Records(Below(path, names[n]), Child(t, names[n])));
    Associate(fed, EncodeAll(ForestRecords(path, t, names[..n])),
              EncodeAll(Records(Below(path, names[n]), Child(t, names[n]))));
  }

  lemma DirStream(path: string, t: Tree, fed: string)
    requires t.Dir?
    ensures fed + EncodeAll(Records(path, t))
            == (fed + Header('D', path)) + EncodeAll(ForestRecords(path, t, Ascending(Names(t))))
  {
    var forest := ForestRecords(path, t, Ascending(Names(t)));
    FlattenOne(Encode, DirRecord(path));
    FlattenConcat(Encode, [DirRecord(path)], forest);
    Associate(fed, Header('D', path), EncodeAll(forest));
  }

  /** `hash_tree_entry`: it accepts exactly the hashable trees that it can read, and feeds exactly their
      stream. */
  method HashTreeEntry(context: Context, path: string, t: Tree, fails: Faults) returns (ok: bool)
    modifies context
    ensures ok <==> Hashable(path, t) && Readable(path, t, fails)
    ensures ok ==> context.fed == old(context.fed) + EncodeAll(Records(path, t))
    decreases t, 1, 0
  {
    if fails(Inspect(path)) || t.Link? || !ValidUtf8(path) || t.Special? {
      return false;
    }
    if t.Dir? {
      DirStream(path, t, context.fed);
      HashHeader(context, 'D', path);
      if fails(Read(path)) {
        return false;
      }
      ok := HashChildren(context, path, t, fails);
    } else {
      if fails(Read(path)) {
        return false;
      }
      FlattenOne(Encode, FileRecord(path, t.bytes));
      HashFile(context, path, t.bytes);
      ok := true;
    }
  }

  /** A child that the digest accepts. */
  predicate Fit(path: string, t: Tree, name: string, fails: Faults)
    requires t.Dir? && name in Names(t)
  {
    Hashable(Below(path, name), Child(t, name)) && Readable(Below(path, name), Child(t, name), fails)
  }

  lemma AllFit(path: string, t: Tree, names: seq<string>, fails: Faults)
    requires t.Dir? && forall name :: name in names <==> name in Names(t)
    requires forall i :: 0 <= i < |names| ==> Fit(path, t, names[i], fails)
    ensures forall name :: name in Names(t) ==> Fit(path, t, name, fails)
  {
    forall name | name in Names(t)
      ensures Fit(path, t, name, fails)
    {
      var i :| 0 <= i < |names| && names[i] == name;
    }
  }

  lemma StreamStart(path: string, t: Tree, names: seq<string>, fed: string)
    requires t.Dir? && forall name :: name in names ==> name in Names(t)
    ensures fed == fed + EncodeAll(ForestRecords(path, t, names[..0]))
    ensures names[..|names|] == names
  {
    assert names[..0] == [] && fed + "" == fed;
  }

  /** The children, sorted by name. */
  method HashChildren(context: Context, path: string, t: Tree, fails: Faults) returns (ok: bool)
    requires t.Dir?
    modifies context
    ensures ok <==> forall name :: name in Names(t) ==> Fit(path, t, name, fails)
    ensures ok ==> context.fed == old(context.fed) + EncodeAll(ForestRecords(path, t, Ascending(Names(t))))
    decreases t, 0, 0
  {
    var names := Ascending(Names(t));
    StreamStart(path, t, names, context.fed);
    for n := 0 to |names|
      invariant context.fed == old(context.fed) + EncodeAll(ForestRecords(path, t, names[..n]))
      invariant forall i :: 0 <= i < n ==> Fit(path, t, names[i], fails)
    {
      assert names[n] in names;
      ForestStreamSnoc(path, t, names, n, old(context.fed));
      ok := HashTreeEntry(context, Below(path, names[n]), Child(t, names[n]), fails);
      if !ok {
        assert !Fit(path, t, names[n], fails);
        return;
      }
    }
    AllFit(path, t, names, fails);
    ok := true;
  }
}
