/** `protect_tree` and `validate_protected_tree` (src/cli/launcher_bundle.rs). A step on the filesystem
yields the tree as it is afterwards and every state on the way; every call may fail. */
module BundleProtection {
  import opened Text
  import opened BundleTree

  datatype Owner = Owner(uid: nat, gid: nat)

  /** 0755 for directories and for anything executable by anyone, 0644 otherwise. */
  function ProtectedMode(t: Tree): bv12 {
    if t.Dir? || t.attributes.mode & 0x049 != 0 then 0x1ED else 0x1A4
  }

  function Restamped(t: Tree, owner: Owner): Tree {
    t.(attributes := Attributes(owner.uid, owner.gid, ProtectedMode(t)))
  }

  function Protected(t: Tree, owner: Owner): Tree {
    if t.Dir? then
      Dir(Attributes(owner.uid, owner.gid, ProtectedMode(t)),
          seq(|t.entries|, i requires 0 <= i < |t.entries| =>
                Entry(t.entries[i].name, Protected(t.entries[i].node, owner))))
    else Restamped(t, owner)
  }

  /** `validate_protected_tree`. */
  predicate Validated(t: Tree, uid: nat) {
    && !t.Link? && t.attributes.uid == uid && t.attributes.mode & 0x012 == 0
    && (t.Dir? ==> forall i :: 0 <= i < |t.entries| ==> Validated(t.entries[i].node, uid))
    && (t.Dir? || t.File?)
  }

  /** Equal but for owners and modes, and listed in the same order. */
  predicate Alike(t: Tree, u: Tree) {
    || (t.File? && u.File? && t.bytes == u.bytes)
    || (t.Dir? && u.Dir? && |t.entries| == |u.entries|
        && forall i :: 0 <= i < |t.entries| ==>
             t.entries[i].name == u.entries[i].name && Alike(t.entries[i].node, u.entries[i].node))
    || (t.Link? && u.Link?)
    || (t.Special? && u.Special?)
  }

  lemma {:induction false} AlikeReflexive(t: Tree)
    ensures Alike(t, t)
  {
    if t.Dir? {
      forall i | 0 <= i < |t.entries|
        ensures Alike(t.entries[i].node, t.entries[i].node)
      {
        AlikeReflexive(t.entries[i].node);
      }
    }
  }

  lemma {:induction false} AlikeTransitive(t: Tree, u: Tree, v: Tree)
    requires Alike(t, u) && Alike(u, v)
    ensures Alike(t, v)
  {
    if t.Dir? {
      forall i | 0 <= i < |t.entries|
        ensures t.entries[i].name == v.entries[i].name && Alike(t.entries[i].node, v.entries[i].node)
      {
        AlikeTransitive(t.entries[i].node, u.entries[i].node, v.entries[i].node);
      }
    }
  }

  function Given(t: Tree, owner: Owner): Tree {
    t.(attributes := Attributes(owner.uid, owner.gid, t.attributes.mode))
  }

  /** Every entry handed over to `owner`. */
  function HandedOver(t: Tree, owner: Owner): Tree {
    if t.Dir? then
      Dir(Attributes(owner.uid, owner.gid, t.attributes.mode),
          seq(|t.entries|, i requires 0 <= i < |t.entries| =>
                Entry(t.entries[i].name, HandedOver(t.entries[i].node, owner))))
    else Given(t, owner)
  }

  predicate NoLinks(t: Tree) {
    !t.Link? && (t.Dir? ==> forall i :: 0 <= i < |t.entries| ==> NoLinks(t.entries[i].node))
  }

  /** No call of `chown_tree` fails. */
  predicate Ownable(path: string, t: Tree, fails: Faults)
    decreases t
  {
    && !fails(Inspect(path)) && !fails(Own(path))
    && (t.Dir? ==> !fails(Read(path)))
    && (t.Dir? ==> forall i :: 0 <= i < |t.entries| ==>
          Ownable(Below(path, t.entries[i].name), t.entries[i].node, fails))
  }

  /** No call of `protect_tree` fails. */
  predicate Protectable(path: string, t: Tree, fails: Faults)
    decreases t
  {
    && !fails(Inspect(path)) && !fails(Own(path)) && !fails(Mode(path))
    && (t.Dir? ==> !fails(Read(path)))
    && (t.Dir? ==> forall i :: 0 <= i < |t.entries| ==>
          Protectable(Below(path, t.entries[i].name), t.entries[i].node, fails))
  }

  /** `entries` are those of `t`, some of them changed in owners and modes. */
  predicate EntriesAlike(t: Tree, entries: seq<Entry>) {
    && t.Dir? && |entries| == |t.entries|
    && forall i :: 0 <= i < |entries| ==>
         entries[i].name == t.entries[i].name && Alike(t.entries[i].node, entries[i].node)
  }

  predicate AllAlike(t: Tree, stages: seq<Tree>) {
    forall i :: 0 <= i < |stages| ==> Alike(t, stages[i])
  }

  function Replaced(entries: seq<Entry>, n: nat, node: Tree): seq<Entry>
    requires n < |entries|
  {
    entries[n := Entry(entries[n].name, node)]
  }

  /** The states of a directory while its entry `n` goes through `stages`. */
  function Within(attributes: Attributes, entries: seq<Entry>, n: nat, stages: seq<Tree>): seq<Tree>
    requires n < |entries|
  {
    seq(|stages|, i requires 0 <= i < |stages| => Dir(attributes, Replaced(entries, n, stages[i])))
  }

  lemma EntriesStart(t: Tree)
    requires t.Dir?
    ensures EntriesAlike(t, t.entries)
  {
    AlikeReflexive(t);
  }

  lemma EntriesNext(t: Tree, entries: seq<Entry>, n: nat, node: Tree)
    requires EntriesAlike(t, entries) && n < |entries| && Alike(t.entries[n].node, node)
    ensures EntriesAlike(t, Replaced(entries, n, node))
    ensures Alike(t, Dir(t.attributes, Replaced(entries, n, node)))
  {
  }

  lemma WithinAlike(t: Tree, entries: seq<Entry>, n: nat, stages: seq<Tree>)
    requires EntriesAlike(t, entries) && n < |entries| && AllAlike(t.entries[n].node, stages)
    ensures AllAlike(t, Within(t.attributes, entries, n, stages))
  {
    forall i | 0 <= i < |stages|
      ensures Alike(t, Within(t.attributes, entries, n, stages)[i])
    {
      EntriesNext(t, entries, n, stages[i]);
    }
  }

  /** `chown_tree`: it succeeds exactly when there is no link and no call fails, and then every entry has
      changed hands. Whatever happens, nothing but owners changes on the way. */
  method ChownTree(path: string, t: Tree, owner: Owner, fails: Faults)
    returns (ok: bool, t': Tree, ghost stages: seq<Tree>)
    ensures ok <==> NoLinks(t) && Ownable(path, t, fails)
    ensures ok ==> t' == HandedOver(t, owner) && Throughout(t, t', HandedNodes(owner))
    ensures AllAlike(t, stages) && stages != [] && stages[|stages| - 1] == t'
    decreases t, 1
  {
    AlikeReflexive(t);
    t', stages := t, [t];
    if fails(Inspect(path)) || t.Link? {
      return false, t', stages;
    }
    if t.Dir? {
      if fails(Read(path)) {
        return false, t', stages;
      }
      ok, t', stages := ChownEntries(path, t, owner, fails);
      if !ok {
        return;
      }
    }
    if fails(Own(path)) {
      return false, t', stages;
    }
    t' := Given(t', owner);
    stages := stages + [t'];
    HandedOverThroughout(t, owner);
    ok := true;
  }

  /** The entries of a directory, one after the other. */
  method ChownEntries(path: string, t: Tree, owner: Owner, fails: Faults)
    returns (ok: bool, t': Tree, ghost stages: seq<Tree>)
    requires t.Dir?
    ensures ok <==> forall i :: 0 <= i < |t.entries| ==>
              NoLinks(t.entries[i].node) && Ownable(Below(path, t.entries[i].name), t.entries[i].node, fails)
    ensures ok ==> t' == Dir(t.attributes, HandedOver(t, owner).entries)
    ensures AllAlike(t, stages) && stages != [] && stages[|stages| - 1] == t'
    decreases t, 0
  {
    AlikeReflexive(t);
    EntriesStart(t);
    t', stages := t, [t];
    var entries := t.entries;
    for n := 0 to |t.entries|
      invariant EntriesAlike(t, entries) && t' == Dir(t.attributes, entries)
      invariant AllAlike(t, stages) && stages != [] && stages[|stages| - 1] == t'
      invariant forall i :: 0 <= i < n ==> entries[i].node == HandedOver(t.entries[i].node, owner)
      invariant forall i :: 0 <= i < n ==>
                  NoLinks(t.entries[i].node) && Ownable(Below(path, t.entries[i].name), t.entries[i].node, fails)
    {
      var node;
      ghost var within;
      ok, node, within := ChownTree(Below(path, t.entries[n].name), t.entries[n].node, owner, fails);
      WithinAlike(t, entries, n, within);
      EntriesNext(t, entries, n, node);
      stages := stages + Within(t.attributes, entries, n, within);
      entries := Replaced(entries, n, node);
      t' := Dir(t.attributes, entries);
      if !ok {
        return;
      }
    }
    assert HandedOver(t, owner).entries == entries;
    ok := true;
  }

  /** `protect_tree`: it succeeds exactly when there is neither a link nor a special file and no call
      fails, and then the tree is the protected one. Whatever happens, nothing but owners and modes
      changes on the way. */
  method ProtectTree(path: string, t: Tree, owner: Owner, fails: Faults)
    returns (ok: bool, t': Tree, ghost stages: seq<Tree>)
    ensures ok <==> Plain(t) && Protectable(path, t, fails)
    ensures ok ==> t' == Protected(t, owner) && Throughout(t, t', ProtectedNodes(owner))
    ensures AllAlike(t, stages) && stages != [] && stages[|stages| - 1] == t'
    decreases t, 1
  {
    AlikeReflexive(t);
    t', stages := t, [t];
    if fails(Inspect(path)) || t.Link? {
      return false, t', stages;
    }
    if t.Dir? {
      if fails(Read(path)) {
        return false, t', stages;
      }
      ok, t', stages := ProtectEntries(path, t, owner, fails);
      if !ok {
        return;
      }
    } else if !t.File? {
      return false, t', stages;
    }
    if fails(Own(path)) {
      return false, t', stages;
    }
    t' := Given(t', owner);
    stages := stages + [t'];
    if fails(Mode(path)) {
      return false, t', stages;
    }
    t' := t'.(attributes := Attributes(owner.uid, owner.gid, ProtectedMode(t)));
    stages := stages + [t'];
    ProtectedThroughout(t, owner);
    ok := true;
  }

  method ProtectEntries(path: string, t: Tree, owner: Owner, fails: Faults)
    returns (ok: bool, t': Tree, ghost stages: seq<Tree>)
    requires t.Dir?
    ensures ok <==> forall i :: 0 <= i < |t.entries| ==>
              Plain(t.entries[i].node) && Protectable(Below(path, t.entries[i].name), t.entries[i].node, fails)
    ensures ok ==> t' == Dir(t.attributes, Protected(t, owner).entries)
    ensures AllAlike(t, stages) && stages != [] && stages[|stages| - 1] == t'
    decreases t, 0
  {
    AlikeReflexive(t);
    EntriesStart(t);
    t', stages := t, [t];
    var entries := t.entries;
    for n := 0 to |t.entries|
      invariant EntriesAlike(t, entries) && t' == Dir(t.attributes, entries)
      invariant AllAlike(t, stages) && stages != [] && stages[|stages| - 1] == t'
      invariant forall i :: 0 <= i < n ==> entries[i].node == Protected(t.entries[i].node, owner)
      invariant forall i :: 0 <= i < n ==>
                  Plain(t.entries[i].node) && Protectable(Below(path, t.entries[i].name), t.entries[i].node, fails)
    {
      var node;
      ghost var within;
      ok, node, within := ProtectTree(Below(path, t.entries[n].name), t.entries[n].node, owner, fails);
      WithinAlike(t, entries, n, within);
      EntriesNext(t, entries, n, node);
      stages := stages + Within(t.attributes, entries, n, within);
      entries := Replaced(entries, n, node);
      t' := Dir(t.attributes, entries);
      if !ok {
        return;
      }
    }
    assert Protected(t, owner).entries == entries;
    ok := true;
  }

  // ---------------------------------------------------------------- entry by entry

  /** A file or directory as protection leaves it: its owner alone can write it, everyone can read it,
      everyone can search a directory, and everyone can execute a file that anyone could execute before,
      and nobody any other file. */
  predicate ProtectedNode(t: Tree, u: Tree, owner: Owner) {
    var mode := u.attributes.mode;
    && u.attributes.uid == owner.uid && u.attributes.gid == owner.gid
    && mode & 0x1A4 == 0x1A4 && mode & 0xE12 == 0
    && mode & 0x049 == if t.Dir? || t.attributes.mode & 0x001 != 0 || t.attributes.mode & 0x008 != 0
                          || t.attributes.mode & 0x040 != 0 then 0x049 else 0
  }

  /** Handed over: new owner and group, old mode. */
  predicate HandedNode(t: Tree, u: Tree, owner: Owner) {
    u.attributes.uid == owner.uid && u.attributes.gid == owner.gid && u.attributes.mode == t.attributes.mode
  }

  type NodeRelation = (Tree, Tree) -> bool

  /** The relation holds of every entry of `t` and the entry of `u` in the same place. */
  predicate Throughout(t: Tree, u: Tree, related: NodeRelation) {
    && related(t, u) && Alike(t, u)
    && (t.Dir? ==> u.Dir? && |t.entries| == |u.entries|
                   && forall i :: 0 <= i < |t.entries| ==>
                        Throughout(t.entries[i].node, u.entries[i].node, related))
  }

  function ProtectedNodes(owner: Owner): NodeRelation {
    (t, u) => ProtectedNode(t, u, owner)
  }

  function HandedNodes(owner: Owner): NodeRelation {
    (t, u) => HandedNode(t, u, owner)
  }

  lemma ModeBits(mode: bv12)
    ensures mode & 0x049 != 0 <==> mode & 0x001 != 0 || mode & 0x008 != 0 || mode & 0x040 != 0
  {
  }

  lemma ProtectedHere(t: Tree, owner: Owner)
    ensures ProtectedNode(t, Protected(t, owner), owner)
  {
    ModeBits(t.attributes.mode);
    assert Protected(t, owner).attributes == Attributes(owner.uid, owner.gid, ProtectedMode(t));
  }

  lemma {:induction false} ProtectedThroughout(t: Tree, owner: Owner)
    ensures Throughout(t, Protected(t, owner), ProtectedNodes(owner))
  {
    ProtectedHere(t, owner);
    ProtectionAlike(t, owner);
    if t.Dir? {
      forall i | 0 <= i < |t.entries|
        ensures Throughout(t.entries[i].node, Protected(t, owner).entries[i].node, ProtectedNodes(owner))
      {
        ProtectedThroughout(t.entries[i].node, owner);
      }
    }
  }

  lemma {:induction false} HandedOverAlike(t: Tree, owner: Owner)
    ensures Alike(t, HandedOver(t, owner))
  {
    if t.Dir? {
      forall i | 0 <= i < |t.entries|
        ensures Alike(t.entries[i].node, HandedOver(t, owner).entries[i].node)
      {
        HandedOverAlike(t.entries[i].node, owner);
      }
    }
  }

  lemma {:induction false} HandedOverThroughout(t: Tree, owner: Owner)
    ensures Throughout(t, HandedOver(t, owner), HandedNodes(owner))
  {
    HandedOverAlike(t, owner);
    if t.Dir? {
      forall i | 0 <= i < |t.entries|
        ensures Throughout(t.entries[i].node, HandedOver(t, owner).entries[i].node, HandedNodes(owner))
      {
        HandedOverThroughout(t.entries[i].node, owner);
      }
    }
  }

  /** What validation asks of an entry: neither link nor special file, the right owner, and not writable by
      group or others. */
  predicate ValidNode(t: Tree, uid: nat) {
    && !t.Link? && !t.Special? && t.attributes.uid == uid
    && t.attributes.mode & 0x010 == 0 && t.attributes.mode & 0x002 == 0
  }

  predicate AllNodes(t: Tree, holds: Tree -> bool) {
    holds(t) && (t.Dir? ==> forall i :: 0 <= i < |t.entries| ==> AllNodes(t.entries[i].node, holds))
  }

  function ValidNodes(uid: nat): Tree -> bool {
    t => ValidNode(t, uid)
  }

  lemma WriteBits(mode: bv12)
    ensures mode & 0x012 == 0 <==> mode & 0x010 == 0 && mode & 0x002 == 0
  {
  }

  /** `validate_protected_tree` accepts exactly the trees all of whose entries are in order. */
  lemma {:induction false} ValidatedIff(t: Tree, uid: nat)
    ensures Validated(t, uid) <==> AllNodes(t, ValidNodes(uid))
  {
    WriteBits(t.attributes.mode);
    if t.Dir? {
      forall i | 0 <= i < |t.entries|
        ensures Validated(t.entries[i].node, uid) <==> AllNodes(t.entries[i].node, ValidNodes(uid))
      {
        ValidatedIff(t.entries[i].node, uid);
      }
    }
  }

  // ---------------------------------------------------------------- what protection keeps and gives

  lemma ModeStable(t: Tree, owner: Owner)
    ensures ProtectedMode(Restamped(t, owner)) == ProtectedMode(t)
    ensures ProtectedMode(t) & 0x012 == 0
  {
  }

  lemma {:induction false} ProtectionIdempotent(t: Tree, owner: Owner)
    ensures Protected(Protected(t, owner), owner) == Protected(t, owner)
  {
    ModeStable(t, owner);
    if t.Dir? {
      forall i | 0 <= i < |t.entries|
        ensures Protected(Protected(t.entries[i].node, owner), owner) == Protected(t.entries[i].node, owner)
      {
        ProtectionIdempotent(t.entries[i].node, owner);
      }
      assert Protected(Protected(t, owner), owner).entries == Protected(t, owner).entries;
    }
  }

  lemma {:induction false} ProtectionValidates(t: Tree, owner: Owner)
    requires Plain(t)
    ensures Validated(Protected(t, owner), owner.uid)
  {
    ModeStable(t, owner);
    if t.Dir? {
      var u := Protected(t, owner);
      forall i | 0 <= i < |u.entries|
        ensures Validated(u.entries[i].node, owner.uid)
      {
        ProtectionValidates(t.entries[i].node, owner);
      }
    }
  }

  lemma AlikeNames(t: Tree, u: Tree)
    requires t.Dir? && Alike(t, u)
    ensures Names(t) == Names(u)
  {
    forall name | name in Names(t)
      ensures name in Names(u)
    {
      var i :| 0 <= i < |t.entries| && t.entries[i].name == name;
      assert u.entries[i].name == name;
    }
    forall name | name in Names(u)
      ensures name in Names(t)
    {
      var i :| 0 <= i < |u.entries| && u.entries[i].name == name;
      assert t.entries[i].name == name;
    }
  }

  lemma {:induction false} AlikeChildAt(a: seq<Entry>, b: seq<Entry>, name: string)
    requires |a| == |b| && forall i :: 0 <= i < |a| ==> a[i].name == b[i].name && Alike(a[i].node, b[i].node)
    requires exists i :: 0 <= i < |a| && a[i].name == name
    requires exists i :: 0 <= i < |b| && b[i].name == name
    ensures Alike(ChildAt(a, name), ChildAt(b, name))
  {
    if a[0].name != name {
      AlikeChildAt(a[1..], b[1..], name);
    }
  }

  lemma {:induction false} AlikeForest(path: string, t: Tree, u: Tree, names: seq<string>)
    requires t.Dir? && u.Dir? && Alike(t, u)
    requires forall name :: name in names ==> name in Names(t) && name in Names(u)
    ensures ForestRecords(path, t, names) == ForestRecords(path, u, names)
    decreases t, 0, |names|
  {
    if names != [] {
      assert names[0] in names;
      AlikeChildAt(t.entries, u.entries, names[0]);
      AlikeRecords(Below(path, names[0]), Child(t, names[0]), Child(u, names[0]));
      AlikeForest(path, t, u, names[1..]);
    }
  }

  lemma {:induction false} AlikeRecords(path: string, t: Tree, u: Tree)
    requires Alike(t, u)
    ensures Records(path, t) == Records(path, u)
    decreases t, 1, 0
  {
    if t.Dir? {
      AlikeNames(t, u);
      AlikeForest(path, t, u, Ascending(Names(t)));
    }
  }

  /** Owners and modes are not part of the digest. */
  lemma AlikeStream(t: Tree, u: Tree)
    requires Alike(t, u)
    ensures Stream(t) == Stream(u)
  {
    AlikeRecords("", t, u);
  }

  lemma {:induction false} ProtectionAlike(t: Tree, owner: Owner)
    ensures Alike(t, Protected(t, owner))
  {
    if t.Dir? {
      forall i | 0 <= i < |t.entries|
        ensures Alike(t.entries[i].node, Protected(t, owner).entries[i].node)
      {
        ProtectionAlike(t.entries[i].node, owner);
      }
    }
  }

  /** A successful protection keeps the stream, repeats without effect and is what validation asks. */
  lemma ProtectionSound(t: Tree, owner: Owner)
    requires Plain(t)
    ensures Stream(Protected(t, owner)) == Stream(t)
    ensures Protected(Protected(t, owner), owner) == Protected(t, owner)
    ensures Validated(Protected(t, owner), owner.uid)
  {
    ProtectionAlike(t, owner);
    AlikeStream(t, Protected(t, owner));
    ProtectionIdempotent(t, owner);
    ProtectionValidates(t, owner);
  }

  lemma {:induction false} ValidatedIsPlain(t: Tree, uid: nat)
    requires Validated(t, uid)
    ensures Plain(t)
  {
    if t.Dir? {
      forall i | 0 <= i < |t.entries|
        ensures Plain(t.entries[i].node)
      {
        ValidatedIsPlain(t.entries[i].node, uid);
      }
    }
  }

  lemma {:induction false} AlikePlain(t: Tree, u: Tree)
    requires Alike(t, u) && Plain(t)
    ensures Plain(u)
  {
    if t.Dir? {
      forall i | 0 <= i < |u.entries|
        ensures Plain(u.entries[i].node)
      {
        AlikePlain(t.entries[i].node, u.entries[i].node);
      }
    }
  }

  lemma {:induction false} PlainHasNoLinks(t: Tree)
    requires Plain(t)
    ensures NoLinks(t)
  {
    if t.Dir? {
      forall i | 0 <= i < |t.entries|
        ensures NoLinks(t.entries[i].node)
      {
        PlainHasNoLinks(t.entries[i].node);
      }
    }
  }

  /** Where no call fails, nothing is in the way. */
  lemma {:induction false} QuietWalk(path: string, t: Tree, fails: Faults)
    requires forall call :: !fails(call)
    ensures Protectable(path, t, fails) && Ownable(path, t, fails)
    decreases t
  {
    if t.Dir? {
      forall i | 0 <= i < |t.entries|
        ensures Protectable(Below(path, t.entries[i].name), t.entries[i].node, fails)
        ensures Ownable(Below(path, t.entries[i].name), t.entries[i].node, fails)
      {
        QuietWalk(Below(path, t.entries[i].name), t.entries[i].node, fails);
      }
    }
  }
}
