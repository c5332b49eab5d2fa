/** The rename-based transaction that installs, commits, rolls back and removes a Launcher Bundle
(src/cli/launcher_bundle.rs).

What fails, and what is left of a directory whose removal fails, is up to a `World`, which answers for
every step by its number; so a run is determined by the disk and the world it starts with. `log` keeps
every state of the disk that a crash could leave behind. */
module BundleInstall {
  import opened Text
  import opened BundleTree
  import opened BundleProtection

  /** A bundle directory: `id` is the directory itself, which a rename moves and nothing copies. */
  datatype Bundle = Bundle(id: nat, tree: Tree)

  datatype CommandLink = Absent | ToRunner | Unrelated
  datatype Marker = Marker(owner: Owner) | Unreadable

  datatype Slot = Source | Final | Backup | Trash

  /** The paths of one transaction: staging, installed, `.replaced-GENERATION`, its place in the Trash,
      `.transaction-GENERATION` and the command link. */
  datatype Disk = Disk(
    source: Option<Bundle>,
    installed: Option<Bundle>,
    backup: Option<Bundle>,
    trashed: Option<Bundle>,
    transaction: Option<Marker>,
    link: CommandLink)
  {
    function Get(slot: Slot): Option<Bundle> {
      match slot
      case Source => source
      case Final => installed
      case Backup => backup
      case Trash => trashed
    }

    function Put(slot: Slot, content: Option<Bundle>): Disk {
      match slot
      case Source => this.(source := content)
      case Final => this.(installed := content)
      case Backup => this.(backup := content)
      case Trash => this.(trashed := content)
    }
  }

  predicate Keeps(slot: Option<Bundle>, p: Bundle) {
    slot.Some? && slot.value.id == p.id && Alike(p.tree, slot.value.tree)
  }

  predicate Lacks(slot: Option<Bundle>, p: Bundle) {
    slot.Some? ==> slot.value.id != p.id
  }

  /** Bundle `p` is in `slot`, with its names and bytes intact, and nowhere else. */
  predicate In(d: Disk, p: Bundle, slot: Slot) {
    && (if slot == Source then Keeps(d.source, p) else Lacks(d.source, p))
    && (if slot == Final then Keeps(d.installed, p) else Lacks(d.installed, p))
    && (if slot == Backup then Keeps(d.backup, p) else Lacks(d.backup, p))
    && (if slot == Trash then Keeps(d.trashed, p) else Lacks(d.trashed, p))
  }

  /** Exactly one of the three places, and whole. */
  predicate Conserved(d: Disk, p: Bundle) {
    In(d, p, Final) || In(d, p, Backup) || In(d, p, Trash)
  }

  /** `rename` onto a directory succeeds only when that directory is empty. */
  predicate Replaceable(slot: Option<Bundle>) {
    slot.None? || (slot.value.tree.Dir? && slot.value.tree.entries == [])
  }

  /** What the operations are told, and what `plutil`, `codesign` and SHA-256 compute. */
  datatype Parameters = Parameters(
    generation: string,
    digest: string,
    owner: Owner,
    bundleGeneration: Tree -> Option<string>,
    metadata: Tree -> bool,
    sha256: string -> string)
  {
    predicate HasGeneration(t: Tree) { bundleGeneration(t) == Some(generation) }

    predicate Reviewed(t: Tree) { sha256(Stream(t)) == digest }
  }

  // ---------------------------------------------------------------- the world

  /** `fails(k, call)`: the call, made by step `k`, fails. `remnants(k, tree)`: what a removal of `tree`
      leaves at its successive stages. */
  datatype World = World(fails: (nat, Call) -> bool, remnants: (nat, Tree) -> seq<Tree>)
  {
    predicate Fails(k: nat) { fails(k, Step) }

    function At(k: nat): Faults { call => fails(k, call) }

    function Left(k: nat, tree: Tree): Tree {
      var stages := remnants(k, tree);
      if stages == [] then tree else stages[|stages| - 1]
    }
  }

  /** No call fails from step `from` up to step `to`. */
  ghost predicate Quiet(world: World, from: nat, to: nat) {
    forall k, call :: from <= k < to ==> !world.fails(k, call)
  }

  /** What `remove_dir_all` accepts: a directory, or a link, which it removes itself. */
  predicate Removable(content: Option<Bundle>) {
    content.Some? ==> content.value.tree.Dir? || content.value.tree.Link?
  }

  /** `remove_tree` takes a path that it cannot inspect for missing, and refuses anything else than a
      directory or a link. */
  predicate Untouched(world: World, k: nat, content: Option<Bundle>) {
    content.None? || world.fails(k, Inspect("")) || !Removable(content)
  }

  /** What `remove_tree` leaves. */
  function AfterRemoval(world: World, k: nat, content: Option<Bundle>): Option<Bundle> {
    if Untouched(world, k, content) then content
    else if world.Fails(k) then Some(content.value.(tree := world.Left(k, content.value.tree)))
    else None
  }

  /** The states of the disk while the tree in `slot` goes through `trees`. */
  function Stages(d: Disk, slot: Slot, trees: seq<Tree>): seq<Disk>
    requires d.Get(slot).Some?
  {
    seq(|trees|, i requires 0 <= i < |trees| => d.Put(slot, Some(d.Get(slot).value.(tree := trees[i]))))
  }

  /** The states that a removal goes through. */
  function Removing(world: World, k: nat, d: Disk, slot: Slot): seq<Disk> {
    if Untouched(world, k, d.Get(slot)) then []
    else Stages(d, slot, world.remnants(k, d.Get(slot).value.tree))
         + [d.Put(slot, AfterRemoval(world, k, d.Get(slot)))]
  }

  // ---------------------------------------------------------------- one bundle over many steps

  lemma RenameMoves(d: Disk, p: Bundle, from: Slot, to: Slot)
    requires from != to && In(d, p, from)
    ensures In(d.Put(from, None).Put(to, d.Get(from)), p, to)
  {
  }

  lemma RenamePasses(d: Disk, p: Bundle, slot: Slot, from: Slot, to: Slot)
    requires from != to && slot != from && slot != to && In(d, p, slot)
    ensures In(d.Put(from, None).Put(to, d.Get(from)), p, slot)
  {
  }

  lemma PutPasses(d: Disk, p: Bundle, slot: Slot, other: Slot, content: Option<Bundle>)
    requires slot != other && In(d, p, slot) && Lacks(content, p)
    ensures In(d.Put(other, content), p, slot)
  {
  }

  lemma Retouched(d: Disk, p: Bundle, slot: Slot, tree: Tree)
    requires In(d, p, slot) && Alike(d.Get(slot).value.tree, tree)
    ensures In(d.Put(slot, Some(d.Get(slot).value.(tree := tree))), p, slot)
  {
    AlikeTransitive(p.tree, d.Get(slot).value.tree, tree);
  }

  /** A change of owners and modes in `slot` keeps `p` where it is, in that slot or another. */
  lemma Touched(d: Disk, p: Bundle, kept: Slot, slot: Slot, tree: Tree)
    requires In(d, p, kept) && d.Get(slot).Some? && Alike(d.Get(slot).value.tree, tree)
    ensures In(d.Put(slot, Some(d.Get(slot).value.(tree := tree))), p, kept)
  {
    if slot == kept {
      Retouched(d, p, slot, tree);
    } else {
      PutPasses(d, p, kept, slot, Some(d.Get(slot).value.(tree := tree)));
    }
  }

  /** The states added to the log since `before` all keep `p`. */
  ghost predicate Safe(before: seq<Disk>, after: seq<Disk>, p: Bundle) {
    before <= after && forall i :: |before| <= i < |after| ==> Conserved(after[i], p)
  }

  lemma SafeChain(a: seq<Disk>, b: seq<Disk>, c: seq<Disk>, p: Bundle)
    requires Safe(a, b, p) && Safe(b, c, p)
    ensures Safe(a, c, p)
  {
  }

  lemma SafeSplit(a: seq<Disk>, b: seq<Disk>, c: seq<Disk>, p: Bundle)
    requires a <= b <= c
    ensures Safe(a, c, p) <==> Safe(a, b, p) && Safe(b, c, p)
  {
    if Safe(a, c, p) {
      forall i | |a| <= i < |b|
        ensures Conserved(b[i], p)
      {
        assert b[i] == c[i];
      }
    }
  }

  lemma SafeConcat(before: seq<Disk>, added: seq<Disk>, p: Bundle)
    requires forall i :: 0 <= i < |added| ==> Conserved(added[i], p)
    ensures Safe(before, before + added, p)
  {
  }

  /** `Safe` for the bundle that was there before, if there was one. */
  ghost predicate SafeFor(before: seq<Disk>, after: seq<Disk>, previous: Option<Bundle>) {
    before <= after && (previous.Some? ==> Safe(before, after, previous.value))
  }

  lemma SafeForChain(a: seq<Disk>, b: seq<Disk>, c: seq<Disk>, previous: Option<Bundle>)
    requires SafeFor(a, b, previous) && SafeFor(b, c, previous)
    ensures SafeFor(a, c, previous)
  {
    if previous.Some? {
      SafeChain(a, b, c, previous.value);
    }
  }

  /** A place from which nothing is lost. */
  predicate Shelter(slot: Slot) {
    slot == Final || slot == Backup || slot == Trash
  }

  /** The previous bundle, if there was one, is in `slot`. */
  ghost predicate Held(d: Disk, previous: Option<Bundle>, slot: Slot) {
    previous.Some? ==> In(d, previous.value, slot)
  }

  lemma HeldSafe(before: seq<Disk>, after: seq<Disk>, d: Disk, previous: Option<Bundle>, slot: Slot)
    requires Held(d, previous, slot) && Shelter(slot)
    requires after == before || after == before + [d]
    ensures SafeFor(before, after, previous)
  {
  }

  lemma StagesSafe(before: seq<Disk>, d: Disk, slot: Slot, trees: seq<Tree>, previous: Option<Bundle>, kept: Slot)
    requires d.Get(slot).Some? && Held(d, previous, kept) && Shelter(kept)
    requires kept == slot ==> AllAlike(d.Get(slot).value.tree, trees)
    ensures SafeFor(before, before + Stages(d, slot, trees), previous)
  {
    if previous.Some? {
      var p := previous.value;
      forall i | 0 <= i < |trees|
        ensures Conserved(Stages(d, slot, trees)[i], p)
      {
        if slot == kept {
          Retouched(d, p, slot, trees[i]);
        } else {
          PutPasses(d, p, kept, slot, Some(d.Get(slot).value.(tree := trees[i])));
        }
      }
      SafeConcat(before, Stages(d, slot, trees), p);
    }
  }

  lemma RemovingSafe(before: seq<Disk>, world: World, k: nat, d: Disk, slot: Slot, previous: Option<Bundle>, kept: Slot)
    requires slot != kept && Held(d, previous, kept) && Shelter(kept)
    ensures Held(d.Put(slot, AfterRemoval(world, k, d.Get(slot))), previous, kept)
    ensures SafeFor(before, before + Removing(world, k, d, slot), previous)
  {
    var after := d.Put(slot, AfterRemoval(world, k, d.Get(slot)));
    if previous.Some? {
      PutPasses(d, previous.value, kept, slot, AfterRemoval(world, k, d.Get(slot)));
    }
    if !Untouched(world, k, d.Get(slot)) {
      var stages := Stages(d, slot, world.remnants(k, d.Get(slot).value.tree));
      StagesSafe(before, d, slot, world.remnants(k, d.Get(slot).value.tree), previous, kept);
      HeldSafe(before + stages, before + stages + [after], after, previous, kept);
      SafeForChain(before, before + stages, before + stages + [after], previous);
      Associate(before, stages, [after]);
    } else {
      assert before + [] == before;
    }
  }

  // ---------------------------------------------------------------- which bundles there are

  function IdOf(slot: Option<Bundle>): set<nat> {
    if slot.Some? then {slot.value.id} else {}
  }

  function Ids(d: Disk): set<nat> {
    IdOf(d.source) + IdOf(d.installed) + IdOf(d.backup) + IdOf(d.trashed)
  }

  lemma GoneIsLost(d: Disk, p: Bundle)
    requires p.id !in Ids(d)
    ensures !Conserved(d, p)
  {
  }

  /** The source moved onto the final path. */
  function Moved(d: Disk): Disk {
    d.Put(Source, None).Put(Final, d.source)
  }

  lemma OverwriteForgets(d: Disk, p: Bundle)
    requires In(d, p, Final)
    ensures p.id !in Ids(Moved(d))
  {
  }

  lemma KeptIff(d: Disk, after: Disk, p: Bundle)
    requires In(d, p, Final) && (after.installed.Some? ==> after.installed.value.id == p.id)
    requires after == d.(installed := after.installed, transaction := after.transaction, link := after.link)
    ensures Conserved(after, p) <==> Keeps(after.installed, p)
  {
  }

  // ---------------------------------------------------------------- a removal of the bundle itself

  predicate SameBundles(a: Disk, b: Disk) {
    a.source == b.source && a.installed == b.installed && a.backup == b.backup && a.trashed == b.trashed
  }

  /** `after` is `before`, then the stages of a removal of what is at the final path, then states that
      differ from the last one in no bundle. */
  ghost predicate LogsRemoval(before: seq<Disk>, after: seq<Disk>, world: World, k: nat, d: Disk, last: Disk) {
    var removing := Removing(world, k, d, Final);
    && before + removing <= after
    && forall i :: |before| + |removing| <= i < |after| ==> SameBundles(after[i], last)
  }

  /** A removal changes the tree: it succeeds, or passes through a stage that is not the tree any more. */
  ghost predicate Damages(world: World, k: nat, content: Option<Bundle>) {
    && !Untouched(world, k, content)
    && (!world.Fails(k) || !AllAlike(content.value.tree, world.remnants(k, content.value.tree)))
  }

  /** The bundle at the final path with another tree, or none. */
  lemma TreeAtFinal(d: Disk, p: Bundle, after: Disk)
    requires In(d, p, Final) && (after.installed.Some? ==> after.installed.value.id == p.id)
    requires SameBundles(after, d.Put(Final, after.installed))
    ensures Conserved(after, p) <==> after.installed.Some? && Alike(p.tree, after.installed.value.tree)
  {
  }

  lemma StageConserved(d: Disk, p: Bundle, trees: seq<Tree>, i: nat)
    requires In(d, p, Final) && d.installed == Some(p) && i < |trees|
    ensures Conserved(Stages(d, Final, trees)[i], p) <==> Alike(p.tree, trees[i])
  {
    TreeAtFinal(d, p, Stages(d, Final, trees)[i]);
  }

  /** Exactly when a removal, wherever it is interrupted, has the bundle whole. */
  lemma RemovingSafeIff(before: seq<Disk>, world: World, k: nat, d: Disk, p: Bundle)
    requires In(d, p, Final) && d.installed == Some(p)
    ensures Safe(before, before + Removing(world, k, d, Final), p) <==> !Damages(world, k, d.installed)
  {
    var removing := Removing(world, k, d, Final);
    var all := before + removing;
    if Untouched(world, k, d.installed) {
      assert removing == [];
    } else {
      var trees := world.remnants(k, p.tree);
      var last := d.Put(Final, AfterRemoval(world, k, d.installed));
      assert removing == Stages(d, Final, trees) + [last];
      TreeAtFinal(d, p, last);
      AlikeReflexive(p.tree);
      forall i | 0 <= i < |trees|
        ensures all[|before| + i] == Stages(d, Final, trees)[i]
        ensures Conserved(all[|before| + i], p) <==> Alike(p.tree, trees[i])
      {
        StageConserved(d, p, trees, i);
      }
      assert all[|before| + |trees|] == last;
      if Safe(before, all, p) {
        assert Conserved(last, p);
        assert AllAlike(p.tree, trees);
      }
    }
  }

  lemma RemovalSafeIff(before: seq<Disk>, after: seq<Disk>, world: World, k: nat, d: Disk, last: Disk, p: Bundle)
    requires In(d, p, Final) && d.installed == Some(p)
    requires SameBundles(last, d.Put(Final, AfterRemoval(world, k, d.installed)))
    requires LogsRemoval(before, after, world, k, d, last)
    ensures Safe(before, after, p) <==> !Damages(world, k, d.installed)
  {
    var middle := before + Removing(world, k, d, Final);
    RemovingSafeIff(before, world, k, d, p);
    SafeSplit(before, middle, after, p);
    if !Damages(world, k, d.installed) {
      AlikeReflexive(p.tree);
      TreeAtFinal(d, p, last);
      forall i | |middle| <= i < |after|
        ensures Conserved(after[i], p)
      {
        assert SameBundles(after[i], last);
      }
    }
  }

  class Installer {
    const world: World
    var disk: Disk
    var clock: nat // steps taken
    ghost var log: seq<Disk>
    ghost var failures: nat // steps that failed, checks included

    constructor (world: World, disk: Disk)
      ensures this.world == world && this.disk == disk && clock == 0 && log == [] && failures == 0
    {
      this.world, this.disk := world, disk;
      clock, log, failures := 0, [], 0;
    }

    // -------------------------------------------------------------- single steps

    /** `fs::rename`. */
    method Rename(from: Slot, to: Slot) returns (ok: bool)
      requires from != to
      modifies this
      ensures clock == old(clock) + 1 && failures == old(failures) + if ok then 0 else 1
      ensures ok <==> && !world.Fails(old(clock)) && old(disk).Get(from).Some?
                      && Replaceable(old(disk).Get(to))
      ensures !ok ==> disk == old(disk) && log == old(log)
      ensures ok ==> disk == old(disk).Put(from, None).Put(to, old(disk).Get(from)) && log == old(log) + [disk]
    {
      ok := !world.Fails(clock) && disk.Get(from).Some? && Replaceable(disk.Get(to));
      clock := clock + 1;
      if ok {
        disk := disk.Put(from, None).Put(to, disk.Get(from));
        log := log + [disk];
      } else {
        failures := failures + 1;
      }
    }

    /** `Path::exists`, which answers no when it cannot tell. */
    method Exists(slot: Slot) returns (seen: bool)
      modifies this`clock, this`failures
      ensures clock == old(clock) + 1
      ensures seen <==> disk.Get(slot).Some? && !world.Fails(old(clock))
      ensures failures == old(failures) + if seen == disk.Get(slot).Some? then 0 else 1
    {
      seen := disk.Get(slot).Some? && !world.Fails(clock);
      clock := clock + 1;
      if seen != disk.Get(slot).Some? {
        failures := failures + 1;
      }
    }

    /** A check that reads the disk and may also fail for reasons of its own. */
    method Check(condition: bool) returns (ok: bool)
      modifies this`clock, this`failures
      ensures clock == old(clock) + 1 && failures == old(failures) + if ok then 0 else 1
      ensures ok <==> condition && !world.Fails(old(clock))
    {
      ok := condition && !world.Fails(clock);
      clock := clock + 1;
      if !ok {
        failures := failures + 1;
      }
    }

    /** `symlink_metadata(command).is_ok()`. */
    method LinkPresent() returns (seen: bool)
      modifies this`clock, this`failures
      ensures clock == old(clock) + 1
      ensures seen <==> !disk.link.Absent? && !world.Fails(old(clock))
      ensures failures == old(failures) + if seen == !disk.link.Absent? then 0 else 1
    {
      seen := !disk.link.Absent? && !world.Fails(clock);
      clock := clock + 1;
      if seen != !disk.link.Absent? {
        failures := failures + 1;
      }
    }

    /** `link_matches`, which answers no when it cannot tell. */
    method LinkMatches() returns (seen: bool)
      modifies this`clock, this`failures
      ensures clock == old(clock) + 1
      ensures seen <==> disk.link.ToRunner? && !world.Fails(old(clock))
      ensures failures == old(failures) + if seen == disk.link.ToRunner? then 0 else 1
    {
      seen := disk.link.ToRunner? && !world.Fails(clock);
      clock := clock + 1;
      if seen != disk.link.ToRunner? {
        failures := failures + 1;
      }
    }

    /** `symlink`, or `remove_file` of the command. */
    method SetLink(link: CommandLink) returns (ok: bool)
      modifies this
      ensures clock == old(clock) + 1 && failures == old(failures) + if ok then 0 else 1
      ensures ok <==> !world.Fails(old(clock)) && (old(disk).link.Absent? || link.Absent?)
      ensures !ok ==> disk == old(disk) && log == old(log)
      ensures ok ==> disk == old(disk).(link := link) && log == old(log) + [disk]
    {
      ok := !world.Fails(clock) && (disk.link.Absent? || link.Absent?);
      clock := clock + 1;
      if ok {
        disk := disk.(link := link);
        log := log + [disk];
      } else {
        failures := failures + 1;
      }
    }

    method RemoveMarker() returns (ok: bool)
      modifies this
      ensures clock == old(clock) + 1 && failures == old(failures) + if ok then 0 else 1
      ensures ok <==> !world.Fails(old(clock)) && old(disk).transaction.Some?
      ensures !ok ==> disk == old(disk) && log == old(log)
      ensures ok ==> disk == old(disk).(transaction := None) && log == old(log) + [disk]
    {
      ok := !world.Fails(clock) && disk.transaction.Some?;
      clock := clock + 1;
      if ok {
        disk := disk.(transaction := None);
        log := log + [disk];
      } else {
        failures := failures + 1;
      }
    }

    /** `write_transaction`: created empty, then written and protected. */
    method WriteMarker(owner: Owner, ghost previous: Option<Bundle>) returns (ok: bool)
      requires Held(disk, previous, Final)
      modifies this
      ensures clock == old(clock) + 1 && failures == old(failures) + if ok then 0 else 1
      ensures ok <==> && !world.Fails(old(clock)) && old(disk).transaction.None?
                      && !world.fails(old(clock), Mode(""))
      ensures SafeFor(old(log), log, previous) && Held(disk, previous, Final)
      ensures disk == old(disk).(transaction := disk.transaction)
      ensures ok ==> disk.transaction == Some(Marker(owner))
    {
      ok := !world.Fails(clock) && disk.transaction.None?;
      if ok {
        disk := disk.(transaction := Some(Unreadable));
        log := log + [disk];
        HeldSafe(old(log), log, disk, previous, Final);
        ok := !world.fails(clock, Mode(""));
        if ok {
          ghost var middle := log;
          disk := disk.(transaction := Some(Marker(owner)));
          log := log + [disk];
          HeldSafe(middle, log, disk, previous, Final);
          SafeForChain(old(log), middle, log, previous);
        }
      }
      clock := clock + 1;
      if !ok {
        failures := failures + 1;
      }
    }

    /** `remove_tree`. */
    method RemoveTree(slot: Slot) returns (ok: bool)
      modifies this
      ensures clock == old(clock) + 1
      ensures failures == old(failures) + if disk.Get(slot).None? then 0 else 1
      ensures disk == old(disk).Put(slot, AfterRemoval(world, old(clock), old(disk).Get(slot)))
      ensures log == old(log) + Removing(world, old(clock), old(disk), slot)
      ensures disk.Get(slot).None? ==> ok
      ensures Ids(disk) <= Ids(old(disk))
    {
      var content := disk.Get(slot);
      log := log + Removing(world, clock, disk, slot);
      disk := disk.Put(slot, AfterRemoval(world, clock, content));
      ok := content.None? || world.fails(clock, Inspect("")) || (Removable(content) && !world.Fails(clock));
      clock := clock + 1;
      if disk.Get(slot).Some? {
        failures := failures + 1;
      }
    }

    /** The tree in `slot` changes in owners and modes, through `stages`. */
    method Touch(slot: Slot, tree: Tree, ghost stages: seq<Tree>, ghost previous: Option<Bundle>, ghost kept: Slot)
      requires disk.Get(slot).Some? && Held(disk, previous, kept) && Shelter(kept)
      requires AllAlike(disk.Get(slot).value.tree, stages) && stages != [] && stages[|stages| - 1] == tree
      modifies this`disk, this`log, this`clock
      ensures clock == old(clock) + 1
      ensures SafeFor(old(log), log, previous) && Held(disk, previous, kept)
      ensures disk == old(disk).Put(slot, Some(old(disk).Get(slot).value.(tree := tree)))
      ensures disk.Get(slot) == Some(old(disk).Get(slot).value.(tree := tree))
      ensures Ids(disk) <= Ids(old(disk))
    {
      StagesSafe(log, disk, slot, stages, previous, kept);
      if previous.Some? {
        Touched(disk, previous.value, kept, slot, tree);
      }
      log := log + Stages(disk, slot, stages);
      disk := disk.Put(slot, Some(disk.Get(slot).value.(tree := tree)));
      clock := clock + 1;
    }

    /** `protect_tree` on one of the slots. */
    method Protect(slot: Slot, owner: Owner, ghost previous: Option<Bundle>, ghost kept: Slot) returns (ok: bool)
      requires disk.Get(slot).Some? && Held(disk, previous, kept) && Shelter(kept)
      modifies this
      ensures clock == old(clock) + 1 && failures == old(failures) + if ok then 0 else 1
      ensures SafeFor(old(log), log, previous) && Held(disk, previous, kept)
      ensures var tree := old(disk).Get(slot).value.tree;
              && disk.Get(slot).Some? && Alike(tree, disk.Get(slot).value.tree)
              && disk == old(disk).Put(slot, Some(old(disk).Get(slot).value.(tree := disk.Get(slot).value.tree)))
              && (ok <==> Plain(tree) && Protectable("", tree, world.At(old(clock))))
              && (ok ==> disk.Get(slot).value.tree == Protected(tree, owner))
      ensures Ids(disk) <= Ids(old(disk))
    {
      var tree;
      ghost var stages;
      ok, tree, stages := ProtectTree("", disk.Get(slot).value.tree, owner, world.At(clock));
      Touch(slot, tree, stages, previous, kept);
      if !ok {
        failures := failures + 1;
      }
    }

    /** `chown_tree` on one of the slots. */
    method Chown(slot: Slot, owner: Owner, ghost previous: Option<Bundle>, ghost kept: Slot) returns (ok: bool)
      requires disk.Get(slot).Some? && Held(disk, previous, kept) && Shelter(kept)
      modifies this
      ensures clock == old(clock) + 1 && failures == old(failures) + if ok then 0 else 1
      ensures SafeFor(old(log), log, previous) && Held(disk, previous, kept)
      ensures var tree := old(disk).Get(slot).value.tree;
              && disk.Get(slot).Some? && Alike(tree, disk.Get(slot).value.tree)
              && disk == old(disk).Put(slot, Some(old(disk).Get(slot).value.(tree := disk.Get(slot).value.tree)))
              && (ok <==> NoLinks(tree) && Ownable("", tree, world.At(old(clock))))
              && (ok ==> disk.Get(slot).value.tree == HandedOver(tree, owner))
      ensures Ids(disk) <= Ids(old(disk))
    {
      var tree;
      ghost var stages;
      ok, tree, stages := ChownTree("", disk.Get(slot).value.tree, owner, world.At(clock));
      Touch(slot, tree, stages, previous, kept);
      if !ok {
        failures := failures + 1;
      }
    }

    // -------------------------------------------------------------- finish

    /** `finish` sees that a bundle has been set aside. */
    predicate Sees(k: nat, d: Disk) {
      d.backup.Some? && !world.Fails(k + 2)
    }

    /** Exactly when `finish` succeeds. */
    predicate Finishes(k: nat, params: Parameters, d: Disk) {
      && d.installed.Some? && params.HasGeneration(d.installed.value.tree) && !world.Fails(k)
      && d.transaction.Some? && d.transaction.value.Marker? && !world.Fails(k + 1)
      && (Sees(k, d) ==>
            && !world.Fails(k + 3) && (d.trashed.Some? ==> world.Fails(k + 4)) && !world.Fails(k + 5)
            && !world.Fails(k + 6) && Replaceable(d.trashed))
    }

    /** What `finish` needs to succeed when no call fails. */
    predicate Finishable(params: Parameters, d: Disk) {
      && d.installed.Some? && params.bundleGeneration(d.installed.value.tree) == Some(params.generation)
      && d.transaction.Some? && d.transaction.value.Marker?
      && (d.backup.Some? ==> d.trashed.None?)
    }

    /** How `finish` leaves the disk then. */
    ghost predicate HandsOver(d: Disk) {
      d.backup.Some? ==> NoLinks(d.backup.value.tree)
    }

    function Finished(d: Disk): Disk
      requires d.transaction.Some? && d.transaction.value.Marker?
    {
      if d.backup.None? then d.(transaction := None)
      else
        d.(transaction := None, backup := None,
           trashed := Some(d.backup.value.(tree := HandedOver(d.backup.value.tree, d.transaction.value.owner))))
    }

    /** `finish`: the move of the old bundle to the Trash is the commit point; the change of its owner and the
        removal of the marker after it are attempted and may fail. */
    method Finish(params: Parameters, ghost previous: Option<Bundle>) returns (ok: bool)
      requires Held(disk, previous, Backup)
      modifies this
      ensures clock >= old(clock) && failures >= old(failures) && (!ok ==> failures > old(failures))
      ensures SafeFor(old(log), log, previous) && Ids(disk) <= Ids(old(disk))
      ensures ok <==> Finishes(old(clock), params, old(disk))
      ensures !ok ==> disk == old(disk)
      ensures disk == old(disk).(backup := disk.backup, trashed := disk.trashed, transaction := disk.transaction)
      ensures Held(disk, previous, if ok && Sees(old(clock), old(disk)) then Trash else Backup)
      ensures ok && Sees(old(clock), old(disk)) ==>
                disk.backup.None? && Thrown(old(clock) + 7, old(disk), disk.trashed)
      ensures ok && !Sees(old(clock), old(disk)) ==>
                disk.backup == old(disk).backup && disk.trashed == old(disk).trashed
      ensures ok ==>
                (disk.transaction.None? <==> !world.Fails(old(clock) + if Sees(old(clock), old(disk)) then 8 else 3))
      ensures ok && disk.transaction.Some? ==> disk.transaction == old(disk).transaction
      ensures Quiet(world, old(clock), clock) ==> (ok <==> Finishable(params, old(disk)))
      ensures Quiet(world, old(clock), clock) && ok && HandsOver(old(disk)) ==> disk == Finished(old(disk))
    {
      ok := MayFinish(params);
      if !ok {
        return;
      }
      ghost var seen := Sees(old(clock), disk);
      ok := ThrowAway(disk.transaction.value.owner, previous);
      if !ok {
        return;
      }
      ghost var middle := log;
      var cleared := RemoveMarker();
      HeldSafe(middle, log, disk, previous, if seen then Trash else Backup);
      SafeForChain(old(log), middle, log, previous);
      ok := true;
    }

    /** Its checks of the new bundle and of the marker. */
    method MayFinish(params: Parameters) returns (ok: bool)
      modifies this`clock, this`failures
      ensures clock >= old(clock) && failures >= old(failures) && (!ok ==> failures > old(failures))
      ensures ok ==> clock == old(clock) + 2
      ensures ok <==>
                && disk.installed.Some? && params.HasGeneration(disk.installed.value.tree) && !world.Fails(old(clock))
                && disk.transaction.Some? && disk.transaction.value.Marker? && !world.Fails(old(clock) + 1)
      ensures Quiet(world, old(clock), clock) ==>
                (ok <==> && disk.installed.Some? && params.HasGeneration(disk.installed.value.tree)
                         && disk.transaction.Some? && disk.transaction.value.Marker?)
    {
      ok := Check(disk.installed.Some? && params.HasGeneration(disk.installed.value.tree));
      if ok {
        ok := Check(disk.transaction.Some? && disk.transaction.value.Marker?);
      }
    }

    /** A bundle that is seen to have been set aside goes to the Trash. */
    method ThrowAway(owner: Owner, ghost previous: Option<Bundle>) returns (ok: bool)
      requires Held(disk, previous, Backup)
      requires disk.transaction.Some? && disk.transaction.value.Marker? && owner == disk.transaction.value.owner
      modifies this
      ensures clock >= old(clock) && failures >= old(failures) && (!ok ==> failures > old(failures))
      ensures SafeFor(old(log), log, previous) && Ids(disk) <= Ids(old(disk))
      ensures disk == old(disk).(backup := disk.backup, trashed := disk.trashed)
      ensures var seen := old(disk).backup.Some? && !world.Fails(old(clock));
              && (ok <==> (seen ==>
                              && !world.Fails(old(clock) + 1)
                              && (old(disk).trashed.Some? ==> world.Fails(old(clock) + 2))
                              && !world.Fails(old(clock) + 3) && !world.Fails(old(clock) + 4)
                              && Replaceable(old(disk).trashed)))
              && (ok ==> clock == old(clock) + if seen then 6 else 1)
              && (!(ok && seen) ==> disk == old(disk))
              && Held(disk, previous, if ok && seen then Trash else Backup)
              && (ok && seen ==> disk.backup.None? && Thrown(old(clock) + 5, old(disk), disk.trashed))
      ensures Quiet(world, old(clock), clock) ==> (ok <==> old(disk).backup.Some? ==> old(disk).trashed.None?)
      ensures Quiet(world, old(clock), clock) && ok && HandsOver(old(disk)) ==>
                disk.(transaction := None) == Finished(old(disk))
    {
      ok := true;
      var there := Exists(Backup);
      if there {
        ok := Check(true);
        if !ok {
          return;
        }
        var taken := Exists(Trash);
        ok := Check(!taken);
        if !ok {
          return;
        }
        if Quiet(world, clock + 1, clock + 2) {
          QuietWalk("", disk.backup.value.tree, world.At(clock + 1));
        }
        ok := MoveToTrash(owner, previous);
      }
    }

    /** The bundle that was set aside is in the Trash, and has changed hands if no call at step `k` failed. */
    ghost predicate Thrown(k: nat, d: Disk, trashed: Option<Bundle>)
      requires d.backup.Some? && d.transaction.Some? && d.transaction.value.Marker?
    {
      var tree := d.backup.value.tree;
      && trashed.Some? && trashed.value.id == d.backup.value.id && Alike(tree, trashed.value.tree)
      && (NoLinks(tree) && Ownable("", tree, world.At(k)) ==>
            trashed.value.tree == HandedOver(tree, d.transaction.value.owner))
    }

    /** The rename to the Trash and the best-effort change of owner after it. */
    method MoveToTrash(owner: Owner, ghost previous: Option<Bundle>) returns (ok: bool)
      requires Held(disk, previous, Backup) && disk.backup.Some?
      modifies this
      ensures ok <==> !world.Fails(old(clock)) && Replaceable(old(disk).trashed)
      ensures ok ==>
                var tree := old(disk).backup.value.tree;
                && disk.backup.None?
                && disk.trashed.Some? && disk.trashed.value.id == old(disk).backup.value.id
                && Alike(tree, disk.trashed.value.tree)
                && (NoLinks(tree) && Ownable("", tree, world.At(old(clock) + 1)) ==>
                      disk.trashed.value.tree == HandedOver(tree, owner))
      ensures clock == old(clock) + (if ok then 2 else 1)
      ensures failures >= old(failures) && (!ok ==> failures > old(failures))
      ensures SafeFor(old(log), log, previous) && Ids(disk) <= Ids(old(disk))
      ensures !ok ==> disk == old(disk) && log == old(log)
      ensures disk == old(disk).(backup := disk.backup, trashed := disk.trashed)
      ensures ok ==> Held(disk, previous, Trash)
    {
      ghost var before := disk;
      ok := Rename(Backup, Trash);
      if ok {
        if previous.Some? {
          RenameMoves(before, previous.value, Backup, Trash);
        }
        HeldSafe(old(log), log, disk, previous, Trash);
        ghost var middle := log;
        var changed := Chown(Trash, owner, previous, Trash);
        SafeForChain(old(log), middle, log, previous);
      }
    }

    // -------------------------------------------------------------- rollback

    /** The backup goes back to its place. */
    method Restore(ghost previous: Option<Bundle>) returns (ok: bool)
      requires Held(disk, previous, Backup)
      modifies this
      ensures clock == old(clock) + 1 && failures == old(failures) + if ok then 0 else 1
      ensures SafeFor(old(log), log, previous) && Ids(disk) <= Ids(old(disk))
      ensures ok <==> !world.Fails(old(clock)) && old(disk).backup.Some? && Replaceable(old(disk).installed)
      ensures !ok ==> disk == old(disk)
      ensures ok ==> disk == old(disk).(installed := old(disk).backup, backup := None) && Held(disk, previous, Final)
      ensures disk == old(disk).(installed := disk.installed, backup := disk.backup)
    {
      ghost var before := disk;
      ok := Rename(Backup, Final);
      if ok {
        if previous.Some? {
          RenameMoves(before, previous.value, Backup, Final);
        }
        HeldSafe(old(log), log, disk, previous, Final);
      }
    }

    /** What `rollback` leaves at the final path when nothing was set aside: it deletes the bundle there
        exactly when it sees it and it carries the generation of the transaction. */
    function RollbackLeaves(k: nat, params: Parameters, d: Disk): Option<Bundle> {
      if d.transaction.Some? && d.transaction.value.Marker? && !world.Fails(k)
         && d.installed.Some? && !world.Fails(k + 1)
         && params.HasGeneration(d.installed.value.tree) && !world.Fails(k + 2)
      then AfterRemoval(world, k + 3, d.installed)
      else d.installed
    }

    /** Nothing that `rollback` checks is in its way. */
    ghost predicate Restorable(params: Parameters, d: Disk) {
      && d.transaction.Some? && d.transaction.value.Marker?
      && (d.installed.Some? ==> params.HasGeneration(d.installed.value.tree)) && Removable(d.installed)
      && (d.backup.Some? ==> Plain(d.backup.value.tree))
    }

    /** What `rollback` makes of the disk when nothing fails or is in its way. */
    function RolledBack(params: Parameters, d: Disk): Disk {
      if d.backup.Some? then
        d.(installed := Some(d.backup.value.(tree := Protected(d.backup.value.tree, params.owner))),
           backup := None, transaction := None)
      else d.(installed := None, transaction := None, link := Dropped(d.link))
    }

    function Dropped(link: CommandLink): CommandLink {
      if link.ToRunner? then Absent else link
    }

    /** Back where it belongs: the previous bundle, or nothing when nothing was set aside. */
    ghost predicate Restored(before: Disk, previous: Option<Bundle>)
      reads this
    {
      Held(disk, previous, Final) && (before.backup.None? ==> disk.installed.None?)
    }

    /** `rollback`. */
    method Rollback(params: Parameters, ghost previous: Option<Bundle>) returns (ok: bool)
      requires Held(disk, previous, Backup)
      modifies this
      ensures clock >= old(clock) && failures >= old(failures)
      ensures SafeFor(old(log), log, previous) && Ids(disk) <= Ids(old(disk))
      ensures Held(disk, previous, Final) || Held(disk, previous, Backup)
      ensures failures == old(failures) ==> ok && Restored(old(disk), previous)
      ensures Quiet(world, old(clock), clock) && Restorable(params, old(disk)) ==>
                ok && Restored(old(disk), previous) && disk == RolledBack(params, old(disk))
      ensures ok ==> disk.transaction.None?
      ensures old(disk).backup.None? ==> disk.installed == RollbackLeaves(old(clock), params, old(disk))
    {
      ok := ClearFinal(params, previous);
      if !ok {
        return;
      }
      ghost var middle := log;
      ok := PutBack(params, previous);
      SafeForChain(old(log), middle, log, previous);
    }

    /** Its first half: the bundle at the final path goes if it is the one of this transaction. */
    method ClearFinal(params: Parameters, ghost previous: Option<Bundle>) returns (ok: bool)
      requires Held(disk, previous, Backup)
      modifies this
      ensures clock >= old(clock) && failures >= old(failures)
      ensures SafeFor(old(log), log, previous) && Ids(disk) <= Ids(old(disk)) && Held(disk, previous, Backup)
      ensures disk == old(disk).(installed := RollbackLeaves(old(clock), params, old(disk)))
      ensures failures == old(failures) ==> ok && disk.installed.None?
      ensures Quiet(world, old(clock), clock) && Restorable(params, old(disk)) ==> ok && disk.installed.None?
    {
      ok := Check(disk.transaction.Some? && disk.transaction.value.Marker?);
      if !ok {
        return;
      }
      var there := Exists(Final);
      if there {
        ok := Check(params.HasGeneration(disk.installed.value.tree));
        if !ok {
          return;
        }
        RemovingSafe(log, world, clock, disk, Final, previous, Backup);
        ok := RemoveTree(Final);
      }
    }

    /** Its second half: the backup goes back, or the command goes too. */
    method PutBack(params: Parameters, ghost previous: Option<Bundle>) returns (ok: bool)
      requires Held(disk, previous, Backup)
      modifies this
      ensures clock >= old(clock) && failures >= old(failures)
      ensures SafeFor(old(log), log, previous) && Ids(disk) <= Ids(old(disk))
      ensures Held(disk, previous, Final) || Held(disk, previous, Backup)
      ensures failures == old(failures) ==> ok && Held(disk, previous, Final)
      ensures Quiet(world, old(clock), clock) && Restorable(params, old(disk)) && old(disk).installed.None? ==>
                ok && Held(disk, previous, Final) && disk == RolledBack(params, old(disk))
      ensures ok ==> disk.transaction.None?
      ensures old(disk).backup.None? ==> disk.installed == old(disk).installed
    {
      var there := Exists(Backup);
      if there {
        ok := ProtectAndRestore(params.owner, previous);
      } else {
        ok := DropLink();
        HeldSafe(old(log), log, disk, previous, Backup);
      }
      if !ok {
        return;
      }
      ghost var middle := log;
      ok := RemoveMarker();
      HeldSafe(middle, log, disk, previous, if there then Final else Backup);
      SafeForChain(old(log), middle, log, previous);
    }

    method ProtectAndRestore(owner: Owner, ghost previous: Option<Bundle>) returns (ok: bool)
      requires Held(disk, previous, Backup) && disk.backup.Some?
      modifies this
      ensures clock >= old(clock) && failures >= old(failures) && (!ok ==> failures > old(failures))
      ensures SafeFor(old(log), log, previous) && Ids(disk) <= Ids(old(disk))
      ensures if ok then Held(disk, previous, Final) else Held(disk, previous, Backup)
      ensures disk == old(disk).(installed := disk.installed, backup := disk.backup)
      ensures ok ==>
                var Bundle(id, tree) := old(disk).backup.value;
                disk == old(disk).(installed := Some(Bundle(id, Protected(tree, owner))), backup := None)
      ensures Quiet(world, old(clock), clock) && Replaceable(old(disk).installed) ==>
                Plain(old(disk).backup.value.tree) ==> ok
    {
      ok := Protect(Backup, owner, previous, Backup);
      if Quiet(world, old(clock), clock) {
        QuietWalk("", old(disk).backup.value.tree, world.At(old(clock)));
      }
      if ok {
        ghost var middle := log;
        ok := Restore(previous);
        SafeForChain(old(log), middle, log, previous);
      }
    }

    /** The command link is removed when it is seen to be the launcher's own. */
    method DropLink() returns (ok: bool)
      modifies this
      ensures clock >= old(clock) && failures >= old(failures) && (!ok ==> failures > old(failures))
      ensures log == old(log) || log == old(log) + [disk]
      ensures disk == old(disk).(link := disk.link) && (log == old(log) ==> disk == old(disk))
      ensures ok ==> (disk.link.ToRunner? <==> old(disk).link.ToRunner? && world.Fails(old(clock)))
      ensures ok <==> (old(disk).link.ToRunner? && !world.Fails(old(clock)) ==> !world.Fails(old(clock) + 1))
      ensures clock == old(clock) + if old(disk).link.ToRunner? && !world.Fails(old(clock)) then 2 else 1
      ensures Quiet(world, old(clock), clock) ==> ok && disk == old(disk).(link := Dropped(old(disk).link))
    {
      ok := true;
      var own := LinkMatches();
      if own {
        ok := SetLink(Absent);
      }
    }

    // -------------------------------------------------------------- remove

    /** Exactly when `remove` succeeds. */
    predicate Removes(k: nat, params: Parameters, d: Disk) {
      && d.installed.Some? && params.HasGeneration(d.installed.value.tree) && !world.Fails(k)
      && (!d.link.Absent? && !world.Fails(k + 1) ==> d.link.ToRunner? && !world.Fails(k + 2))
      && !world.Fails(k + 3)
      && (d.trashed.Some? ==> world.Fails(k + 4)) && !world.Fails(k + 5)
      && !world.Fails(k + 6) && Replaceable(d.trashed)
      && (d.link.ToRunner? && !world.Fails(k + 7) ==> !world.Fails(k + 8))
      && NoLinks(d.installed.value.tree)
      && Ownable("", d.installed.value.tree, world.At(if d.link.ToRunner? && !world.Fails(k + 7) then k + 9 else k + 8))
    }

    /** `remove`: the installed bundle leaves for the Trash and for nowhere else. Its command stays behind
        exactly when the look at it after the move fails. */
    method Remove(params: Parameters, trashOwner: Owner) returns (ok: bool)
      requires Held(disk, disk.installed, Final)
      modifies this
      ensures ok <==> Removes(old(clock), params, old(disk))
      ensures failures >= old(failures) && (!ok ==> failures > old(failures))
      ensures SafeFor(old(log), log, old(disk).installed)
      ensures Held(disk, old(disk).installed, Final) || Held(disk, old(disk).installed, Trash)
      ensures ok ==>
                && old(disk).installed.Some? && In(disk, old(disk).installed.value, Trash)
                && disk.trashed.value.tree == HandedOver(old(disk).installed.value.tree, trashOwner)
                && (disk.link.ToRunner? <==> old(disk).link.ToRunner? && world.Fails(old(clock) + 7))
    {
      ghost var p := disk.installed;
      ok := MayRemove(params);
      if !ok {
        return;
      }
      ghost var before := disk;
      ok := Rename(Final, Trash);
      if !ok {
        return;
      }
      RenameMoves(before, p.value, Final, Trash);
      HeldSafe(old(log), log, disk, p, Trash);
      ghost var middle := log;
      ok := DropLink();
      HeldSafe(middle, log, disk, p, Trash);
      SafeForChain(old(log), middle, log, p);
      if !ok {
        return;
      }
      middle := log;
      ok := Chown(Trash, trashOwner, p, Trash);
      SafeForChain(old(log), middle, log, p);
    }

    /** Its checks. */
    method MayRemove(params: Parameters) returns (ok: bool)
      modifies this`clock, this`failures
      ensures failures >= old(failures) && (!ok ==> failures > old(failures))
      ensures ok ==> clock == old(clock) + 6
      ensures ok <==>
                && disk.installed.Some? && params.HasGeneration(disk.installed.value.tree) && !world.Fails(old(clock))
                && (!disk.link.Absent? && !world.Fails(old(clock) + 1) ==>
                      disk.link.ToRunner? && !world.Fails(old(clock) + 2))
                && !world.Fails(old(clock) + 3)
                && (disk.trashed.Some? ==> world.Fails(old(clock) + 4)) && !world.Fails(old(clock) + 5)
    {
      ok := Check(disk.installed.Some? && params.HasGeneration(disk.installed.value.tree));
      if !ok {
        return;
      }
      var present := LinkPresent();
      var own := LinkMatches();
      if present && !own {
        failures := failures + 1;
        return false;
      }
      ok := Check(true);
      if !ok {
        return;
      }
      var taken := Exists(Trash);
      ok := Check(!taken);
    }

    // -------------------------------------------------------------- install

    /** The reviewed bundle is in place and its command points to it. */
    ghost predicate Installed(params: Parameters, id: nat)
      reads this
    {
      && disk.installed.Some? && disk.installed.value.id == id
      && params.HasGeneration(disk.installed.value.tree) && params.metadata(disk.installed.value.tree)
      && params.Reviewed(disk.installed.value.tree)
      && Validated(disk.installed.value.tree, params.owner.uid)
      && disk.link.ToRunner?
    }

    /** What is staged, if anything, is a directory. */
    predicate Staged(d: Disk) {
      d.source.Some? ==> d.source.value.tree.Dir?
    }

    /** The staged bundle can be moved to the final path. */
    predicate Moves(k: nat, d: Disk) {
      !world.Fails(k) && d.source.Some? && Replaceable(d.installed)
    }

    /** What the staged bundle is like once it is in place. */
    function Placed(params: Parameters, d: Disk): Disk
      requires d.source.Some?
    {
      d.(source := None, installed := Some(d.source.value.(tree := Protected(d.source.value.tree, params.owner))),
         link := ToRunner)
    }

    function Secured(params: Parameters, d: Disk): Disk
      requires d.installed.Some?
    {
      d.(installed := Some(d.installed.value.(tree := Protected(d.installed.value.tree, params.owner))), link := ToRunner)
    }

    ghost predicate Securable(params: Parameters, d: Disk)
      requires d.installed.Some?
    {
      && Plain(d.installed.value.tree) && !d.link.Unrelated?
      && Examined(params, Protected(d.installed.value.tree, params.owner))
    }

    /** What the reviewed bundle has to be for its installation to succeed when no call fails. */
    ghost predicate Placeable(params: Parameters, d: Disk) {
      && d.source.Some? && Replaceable(d.installed) && Plain(d.source.value.tree) && !d.link.Unrelated?
      && Examined(params, Protected(d.source.value.tree, params.owner))
    }

    /** What is checked of the tree in place. */
    ghost predicate Examined(params: Parameters, tree: Tree) {
      params.bundleGeneration(tree) == Some(params.generation) && params.metadata(tree)
      && params.sha256(Stream(tree)) == params.digest
    }

    lemma PlacedIs(params: Parameters, d: Disk)
      requires d.source.Some?
      ensures Placeable(params, d) <==> Replaceable(d.installed) && Securable(params, Moved(d))
      ensures Placed(params, d) == Secured(params, Moved(d))
    {
    }

    /** The closure that moves the staged bundle into place and checks it there. */
    method Place(params: Parameters, ghost previous: Option<Bundle>) returns (ok: bool)
      requires Held(disk, previous, Backup)
      modifies this
      ensures clock > old(clock) && failures >= old(failures) && (!ok ==> failures > old(failures))
      ensures SafeFor(old(log), log, previous) && Held(disk, previous, Backup)
      ensures ok ==> old(disk).source.Some? && Installed(params, old(disk).source.value.id)
      ensures ok ==> disk == Placed(params, old(disk)) && Placeable(params, old(disk))
      ensures Quiet(world, old(clock), clock) && Placeable(params, old(disk)) ==> ok
      ensures !Moves(old(clock), old(disk)) ==> !ok && disk == old(disk) && clock == old(clock) + 1
      ensures Moves(old(clock), old(disk)) ==> Ids(disk) <= Ids(Moved(old(disk)))
      ensures if Moves(old(clock), old(disk)) then old(log) + [Moved(old(disk))] <= log else log == old(log)
      ensures disk.backup == old(disk).backup && disk.transaction == old(disk).transaction
      ensures Staged(old(disk)) && Removable(old(disk).installed) ==> Removable(disk.installed)
    {
      ok := MoveIn(previous);
      if !ok {
        return;
      }
      PlacedIs(params, old(disk));
      ghost var middle := log;
      ok := Secure(params, previous);
      SafeForChain(old(log), middle, log, previous);
    }

    /** The staged bundle is moved to the final path. */
    method MoveIn(ghost previous: Option<Bundle>) returns (ok: bool)
      requires Held(disk, previous, Backup)
      modifies this
      ensures clock == old(clock) + 1 && failures == old(failures) + (if ok then 0 else 1)
      ensures ok <==> Moves(old(clock), old(disk))
      ensures if ok then disk == Moved(old(disk)) && log == old(log) + [disk] else disk == old(disk) && log == old(log)
      ensures SafeFor(old(log), log, previous) && Held(disk, previous, Backup)
    {
      ghost var before := disk;
      ok := Rename(Source, Final);
      if ok {
        if previous.Some? {
          RenamePasses(before, previous.value, Backup, Source, Final);
        }
        HeldSafe(old(log), log, disk, previous, Backup);
      }
    }

    /** What is in place is protected, checked and linked. */
    method Secure(params: Parameters, ghost previous: Option<Bundle>) returns (ok: bool)
      requires Held(disk, previous, Backup) && disk.installed.Some?
      modifies this
      ensures clock >= old(clock) && failures >= old(failures) && (!ok ==> failures > old(failures))
      ensures SafeFor(old(log), log, previous) && Held(disk, previous, Backup) && Ids(disk) <= Ids(old(disk))
      ensures disk == old(disk).(installed := disk.installed, link := disk.link)
      ensures disk.installed.Some? && Alike(old(disk).installed.value.tree, disk.installed.value.tree)
      ensures ok ==> Securable(params, old(disk)) && disk == Secured(params, old(disk))
      ensures ok ==> Installed(params, old(disk).installed.value.id)
      ensures Quiet(world, old(clock), clock) && Securable(params, old(disk)) ==> ok
    {
      ghost var tree := disk.installed.value.tree;
      if Plain(tree) {
        ProtectionValidates(tree, params.owner);
      }
      ok := Protect(Final, params.owner, previous, Backup);
      if Quiet(world, old(clock), clock) {
        QuietWalk("", tree, world.At(old(clock)));
      }
      if !ok {
        return;
      }
      ok := Examine(params);
      if !ok {
        return;
      }
      ghost var middle := log;
      ok := LinkCommand(previous);
      SafeForChain(old(log), middle, log, previous);
    }

    /** `validate_installed_bundle` and the comparison of the digest. */
    method Examine(params: Parameters) returns (ok: bool)
      requires disk.installed.Some?
      modifies this`clock, this`failures
      ensures clock >= old(clock) && failures >= old(failures) && (!ok ==> failures > old(failures))
      ensures ok || Quiet(world, old(clock), clock) ==>
                var tree := disk.installed.value.tree;
                (ok <==> Validated(tree, params.owner.uid) && Examined(params, tree))
    {
      var tree := disk.installed.value.tree;
      ok := Check(Validated(tree, params.owner.uid) && params.HasGeneration(tree) && params.metadata(tree));
      if ok {
        ok := Check(params.Reviewed(tree));
      }
    }

    /** The command is linked unless something is seen there, and has to be the launcher's own. */
    method LinkCommand(ghost previous: Option<Bundle>) returns (ok: bool)
      requires Held(disk, previous, Backup)
      modifies this
      ensures clock >= old(clock) && failures >= old(failures) && (!ok ==> failures > old(failures))
      ensures SafeFor(old(log), log, previous) && Held(disk, previous, Backup)
      ensures disk == old(disk).(link := disk.link) && (ok ==> disk.link.ToRunner? && !old(disk).link.Unrelated?)
      ensures Quiet(world, old(clock), clock) && !old(disk).link.Unrelated? ==> ok
    {
      var present := LinkPresent();
      if !present {
        ok := SetLink(ToRunner);
        HeldSafe(old(log), log, disk, previous, Backup);
        if !ok {
          return;
        }
      }
      ok := Check(!disk.link.Unrelated?);
    }

    /** The cleanup after a failed `Place` when there was a previous bundle. */
    method Undo(ghost p: Bundle)
      requires In(disk, p, Backup)
      modifies this
      ensures clock >= old(clock) && failures >= old(failures)
      ensures Safe(old(log), log, p) && (In(disk, p, Final) || In(disk, p, Backup))
      ensures failures == old(failures) || (Quiet(world, old(clock), clock) && Removable(old(disk).installed)) ==>
                In(disk, p, Final)
      ensures Quiet(world, old(clock), clock) && Removable(old(disk).installed) ==>
                disk == old(disk).(installed := old(disk).backup, backup := None, transaction := None)
    {
      RemovingSafe(log, world, clock, disk, Final, Some(p), Backup);
      var removed := RemoveTree(Final);
      ghost var middle := log;
      var restored := Restore(Some(p));
      SafeForChain(old(log), middle, log, Some(p));
      middle := log;
      var cleared := RemoveMarker();
      HeldSafe(middle, log, disk, Some(p), if restored then Final else Backup);
      SafeForChain(old(log), middle, log, Some(p));
    }

    /** The cleanup after a failed `Place` when no previous bundle was seen: whatever is at the final path
        is deleted. */
    method Discard()
      modifies this
      ensures clock >= old(clock) && failures >= old(failures) && old(log) <= log
      ensures failures == old(failures) ==> disk.installed.None?
      ensures Quiet(world, old(clock), clock) && Removable(old(disk).installed) ==>
                disk == old(disk).(installed := None, transaction := None, link := Dropped(old(disk).link))
      ensures disk.installed == AfterRemoval(world, old(clock), old(disk).installed)
      ensures LogsRemoval(old(log), log, world, old(clock), old(disk), disk)
      ensures disk == old(disk).(installed := disk.installed, transaction := disk.transaction, link := disk.link)
      ensures Ids(disk) <= Ids(old(disk))
    {
      var removed := RemoveTree(Final);
      var dropped := DropLink();
      var cleared := RemoveMarker();
    }

    /** The new bundle in place, the old one in the Trash and handed over, and nothing left of the
        transaction. */
    function Replacement(params: Parameters, d: Disk): Disk
      requires d.source.Some? && d.backup.Some? && d.transaction.Some? && d.transaction.value.Marker?
    {
      Placed(params, d).(
        backup := None, transaction := None,
        trashed := Some(d.backup.value.(tree := HandedOver(d.backup.value.tree, d.transaction.value.owner))))
    }

    /** After the move aside: place, and commit or undo. The steps that put things back begin at `turned`. */
    method PlaceAndFinish(params: Parameters, ghost p: Bundle) returns (ok: bool, ghost turned: nat)
      requires In(disk, p, Backup) && Plain(p.tree) && Staged(disk) && disk.installed.None?
      requires disk.transaction.Some? && disk.transaction.value.Marker?
      modifies this
      ensures old(clock) <= turned <= clock && failures >= old(failures) && (!ok ==> failures > old(failures))
      ensures Safe(old(log), log, p) && Conserved(disk, p)
      ensures ok ==> old(disk).source.Some? && Installed(params, old(disk).source.value.id)
      ensures !ok ==> In(disk, p, Final) || In(disk, p, Backup)
      ensures !ok && (failures == old(failures) + 1 || Quiet(world, turned, clock)) ==> In(disk, p, Final)
      ensures Quiet(world, old(clock), clock) ==> (ok <==> Placeable(params, old(disk)) && old(disk).trashed.None?)
      ensures Quiet(world, old(clock), clock) && ok ==> disk == Replacement(params, old(disk))
    {
      ok := Place(params, Some(p));
      turned := clock;
      ghost var middle := log;
      if !ok {
        Undo(p);
        SafeChain(old(log), middle, log, p);
        return;
      }
      AlikePlain(p.tree, disk.backup.value.tree);
      PlainHasNoLinks(disk.backup.value.tree);
      ok := Finish(params, Some(p));
      SafeChain(old(log), middle, log, p);
      turned := clock;
      if !ok {
        middle := log;
        AlikePlain(p.tree, disk.backup.value.tree);
        var done := Rollback(params, Some(p));
        SafeChain(old(log), middle, log, p);
      }
    }

    /** Without a previous bundle, as far as the probe could tell. */
    method InstallFirst(params: Parameters) returns (ok: bool, ghost turned: nat)
      requires Staged(disk)
      requires disk.transaction.Some? && disk.transaction.value.Marker?
      modifies this
      ensures old(clock) <= turned <= clock && failures >= old(failures) && (!ok ==> failures > old(failures))
      ensures old(log) <= log
      ensures ok ==> old(disk).source.Some? && Installed(params, old(disk).source.value.id)
      ensures Moves(old(clock), old(disk)) ==>
                Ids(disk) <= Ids(Moved(old(disk))) && old(log) + [Moved(old(disk))] <= log
      ensures !Moves(old(clock), old(disk)) ==>
                && !ok && disk.installed == AfterRemoval(world, old(clock) + 1, old(disk).installed)
                && disk == old(disk).(installed := disk.installed, transaction := disk.transaction, link := disk.link)
                && LogsRemoval(old(log), log, world, old(clock) + 1, old(disk), disk)
      ensures !ok && old(disk).backup.None? && failures == old(failures) + 1 ==> disk.installed.None?
      ensures !ok && old(disk).backup.None? && Quiet(world, turned, clock) && Removable(old(disk).installed) ==>
                disk.installed.None?
      ensures Quiet(world, old(clock), clock) && old(disk).backup.None? ==>
                && (ok <==> Placeable(params, old(disk)))
                && (ok ==> disk == Placed(params, old(disk)).(transaction := None))
    {
      ok := Place(params, None);
      turned := clock;
      if !ok {
        Discard();
        return;
      }
      ok := Finish(params, None);
      turned := clock;
      if !ok {
        var done := Rollback(params, None);
      }
    }

    /** The same with a bundle in place that the probe did not see: what becomes of it. */
    method InstallUnseen(params: Parameters, ghost previous: Option<Bundle>) returns (ok: bool, ghost turned: nat)
      requires Held(disk, previous, Final) && disk.installed == previous && Staged(disk)
      requires disk.transaction.Some? && disk.transaction.value.Marker?
      modifies this
      ensures old(clock) <= turned <= clock && failures >= old(failures) && (!ok ==> failures > old(failures))
      ensures old(log) <= log
      ensures ok ==> old(disk).source.Some? && Installed(params, old(disk).source.value.id)
      ensures previous.Some? ==>
                (Conserved(disk, previous.value)
                 <==> && !Moves(old(clock), old(disk))
                      && Keeps(AfterRemoval(world, old(clock) + 1, previous), previous.value))
      ensures previous.Some? ==>
                (Safe(old(log), log, previous.value)
                 <==> !Moves(old(clock), old(disk)) && !Damages(world, old(clock) + 1, previous))
      ensures !ok && old(disk).backup.None? && failures == old(failures) + 1 ==> disk.installed.None?
      ensures !ok && old(disk).backup.None? && Quiet(world, turned, clock) && Removable(previous) ==>
                disk.installed.None?
      ensures Quiet(world, old(clock), clock) && old(disk).backup.None? ==>
                && (ok <==> Placeable(params, old(disk)))
                && (ok ==> disk == Placed(params, old(disk)).(transaction := None))
    {
      ghost var before, step := disk, clock;
      ok, turned := InstallFirst(params);
      if previous.Some? {
        if Moves(step, before) {
          OverwriteForgets(before, previous.value);
          GoneIsLost(disk, previous.value);
          GoneIsLost(Moved(before), previous.value);
          assert log[|old(log)|] == (old(log) + [Moved(before)])[|old(log)|];
        } else {
          KeptIff(before, disk, previous.value);
          RemovalSafeIff(old(log), log, world, step + 1, before, disk, previous.value);
        }
      }
    }

    /** `install` gets as far as the probe of the final path. */
    predicate Begins(k: nat, d: Disk) {
      && !world.Fails(k) && !d.link.Unrelated?
      && !(d.backup.Some? && !world.Fails(k + 1))
      && d.source.Some? && d.source.value.tree.Dir? && !world.Fails(k + 3)
      && d.transaction.None? && !world.Fails(k + 4) && !world.fails(k + 4, Mode(""))
    }

    /** Nothing on the disk stops an installation before it has begun. */
    predicate Clear(d: Disk) {
      && d.backup.None? && d.transaction.None? && d.source.Some? && d.source.value.tree.Dir?
      && !d.link.Unrelated?
    }

    /** The bundle in place is not seen by the probe. */
    predicate Overlooks(k: nat, d: Disk) {
      Begins(k, d) && d.installed.Some? && world.Fails(k + 5)
    }

    /** The bundle in place is overlooked, and then overwritten, or removed by the cleanup. */
    ghost predicate Loses(k: nat, d: Disk) {
      Overlooks(k, d) && Vanishes(k + 6, d)
    }

    /** What becomes of an overlooked bundle when the staged one is moved at step `k`. */
    ghost predicate Vanishes(k: nat, d: Disk)
      requires d.installed.Some?
    {
      Moves(k, d) || !Keeps(AfterRemoval(world, k + 1, d.installed), d.installed.value)
    }

    /** An overlooked bundle is overwritten, or the cleanup gets as far as changing it. */
    ghost predicate Harms(k: nat, d: Disk) {
      Moves(k, d) || Damages(world, k + 1, d.installed)
    }

    /** The bundle in place is overlooked, and some state on the way does not have it whole. */
    ghost predicate Endangers(k: nat, d: Disk) {
      Overlooks(k, d) && Harms(k + 6, d)
    }

    /** The bundle in place is set aside. */
    function Aside(d: Disk): Disk {
      d.(installed := None, backup := d.installed)
    }

    /** From the probe of the final path on, nothing is in the way of a success. */
    ghost predicate Proceeds(params: Parameters, d: Disk) {
      if d.installed.Some? then
        Validated(d.installed.value.tree, params.owner.uid) && Placeable(params, Aside(d)) && d.trashed.None?
      else Placeable(params, d)
    }

    /** How a success leaves the disk. */
    function Concluded(params: Parameters, d: Disk): Disk
      requires d.source.Some? && d.transaction.Some? && d.transaction.value.Marker?
    {
      if d.installed.Some? then Replacement(params, Aside(d)) else Placed(params, d).(transaction := None)
    }

    /** From the probe of the final path on. */
    method Proceed(params: Parameters, ghost previous: Option<Bundle>) returns (ok: bool, ghost turned: nat)
      requires Held(disk, previous, Final) && disk.installed == previous && Staged(disk)
      requires disk.transaction.Some? && disk.transaction.value.Marker?
      modifies this
      ensures old(clock) <= turned <= clock && old(log) <= log && failures >= old(failures)
      ensures ok ==> old(disk).source.Some? && Installed(params, old(disk).source.value.id)
      ensures !ok ==> failures > old(failures)
      ensures Quiet(world, old(clock), clock) && old(disk).backup.None? ==>
                && (ok <==> Proceeds(params, old(disk)))
                && (ok ==> disk == Concluded(params, old(disk)))
      // The probe told the truth.
      ensures previous.None? || !world.Fails(old(clock)) ==>
                && SafeFor(old(log), log, previous)
                && (previous.Some? ==> Conserved(disk, previous.value))
                && (!ok ==> Held(disk, previous, Final) || Held(disk, previous, Backup))
                && (!ok && (failures == old(failures) + 1 || Quiet(world, turned, clock)) ==>
                      Held(disk, previous, Final)
                      && (previous.None? && old(disk).backup.None? ==> disk.installed.None?))
      // It did not.
      ensures previous.Some? && world.Fails(old(clock)) ==>
                && (Conserved(disk, previous.value) <==> !Vanishes(old(clock) + 1, old(disk)))
                && (Safe(old(log), log, previous.value) <==> !Harms(old(clock) + 1, old(disk)))
                && (!ok ==> failures > old(failures) + 1)
    {
      var there := Exists(Final);
      turned := clock;
      if there {
        ok, turned := Replace(params, previous.value);
      } else {
        ok, turned := InstallUnseen(params, previous);
      }
    }

    /** The checks in front, and the marker of the transaction. */
    method Prepare(stagingOwner: Owner, ghost previous: Option<Bundle>) returns (ok: bool)
      requires Held(disk, previous, Final)
      modifies this
      ensures ok <==> Begins(old(clock), old(disk))
      ensures Quiet(world, old(clock), clock) ==> (ok <==> Clear(old(disk)))
      ensures clock >= old(clock) && (ok ==> clock == old(clock) + 5)
      ensures failures >= old(failures) && (!ok || old(disk).backup.Some? ==> failures > old(failures))
      ensures SafeFor(old(log), log, previous) && Held(disk, previous, Final)
      ensures disk == old(disk).(transaction := disk.transaction)
      ensures ok ==> disk.transaction == Some(Marker(stagingOwner))
    {
      ok := Check(!disk.link.Unrelated?);
      if !ok {
        return;
      }
      var backup := Exists(Backup);
      var pending := disk.transaction.Some? && !world.Fails(clock);
      clock := clock + 1;
      ok := Check(!backup && !pending && disk.source.Some? && disk.source.value.tree.Dir?);
      if ok {
        ok := WriteMarker(stagingOwner, previous);
      }
    }

    /** The bundle in place is set aside, and the new one placed. */
    method Replace(params: Parameters, ghost p: Bundle) returns (ok: bool, ghost turned: nat)
      requires disk.installed == Some(p) && In(disk, p, Final) && Staged(disk)
      requires disk.transaction.Some? && disk.transaction.value.Marker?
      modifies this
      ensures old(clock) <= turned <= clock && failures >= old(failures) && (!ok ==> failures > old(failures))
      ensures Safe(old(log), log, p) && Conserved(disk, p)
      ensures ok ==> old(disk).source.Some? && Installed(params, old(disk).source.value.id)
      ensures !ok ==> In(disk, p, Final) || In(disk, p, Backup)
      ensures !ok && (failures == old(failures) + 1 || Quiet(world, turned, clock)) ==> In(disk, p, Final)
      ensures Quiet(world, old(clock), clock) && old(disk).backup.None? ==>
                && (ok <==> Proceeds(params, old(disk)))
                && (ok ==> disk == Concluded(params, old(disk)))
    {
      ok := Check(Validated(disk.installed.value.tree, params.owner.uid));
      turned := clock;
      if !ok {
        return;
      }
      ValidatedIsPlain(p.tree, params.owner.uid);
      ghost var before := disk;
      ok := Rename(Final, Backup);
      turned := clock;
      if !ok {
        return;
      }
      RenameMoves(before, p, Final, Backup);
      HeldSafe(old(log), log, disk, Some(p), Backup);
      ghost var middle := log;
      ok, turned := PlaceAndFinish(params, p);
      SafeChain(old(log), middle, log, p);
    }

    /** What has to be in order for an installation to succeed when no call fails. */
    ghost predicate Installable(params: Parameters, d: Disk) {
      Clear(d) && Proceeds(params, d)
    }

    /** `install`. The steps that put things back, if any, begin at `turned`. */
    method Install(params: Parameters, stagingOwner: Owner) returns (ok: bool, ghost turned: nat)
      requires Held(disk, disk.installed, Final)
      modifies this
      ensures old(clock) <= turned <= clock && old(log) <= log
      // The bundle in place is kept at every step and every crash point, if and only if the probe does not
      // overlook it, or nothing harms it then.
      ensures old(disk).installed.Some? ==>
                (Safe(old(log), log, old(disk).installed.value) <==> !Endangers(old(clock), old(disk)))
      // It is in exactly one of its three places in the end if and only if it is not lost that way.
      ensures old(disk).installed.Some? ==>
                (Conserved(disk, old(disk).installed.value) <==> !Loses(old(clock), old(disk)))
      // When no call fails, exactly what has to be in order for a success, and all of the disk after it.
      ensures Quiet(world, old(clock), clock) ==>
                && (ok <==> Installable(params, old(disk)))
                && (ok ==> disk == Concluded(params, old(disk).(transaction := Some(Marker(stagingOwner)))))
      // All or nothing: what the first failed step has begun is put back if the rest succeeds.
      ensures ok ==> old(disk).source.Some? && Installed(params, old(disk).source.value.id)
      ensures !ok ==> failures > old(failures)
      ensures !ok && failures == old(failures) + 1 ==>
                if old(disk).installed.Some? then In(disk, old(disk).installed.value, Final) else disk.installed.None?
      ensures !ok && Quiet(world, turned, clock) && !Overlooks(old(clock), old(disk)) ==>
                && Held(disk, old(disk).installed, Final)
                && (old(disk).installed.None? && old(disk).backup.None? ==> disk.installed.None?)
      ensures !ok && !Overlooks(old(clock), old(disk)) ==>
                Held(disk, old(disk).installed, Final) || Held(disk, old(disk).installed, Backup)
    {
      ghost var previous := disk.installed;
      turned := clock;
      if previous.Some? {
        AlikeReflexive(previous.value.tree);
      }
      ghost var overlooked := Overlooks(clock, disk);
      ghost var loses := Loses(clock, disk);
      ghost var endangers := Endangers(clock, disk);
      ok := Prepare(stagingOwner, previous);
      turned := clock;
      if !ok {
        assert !overlooked && !loses && !endangers;
        return;
      }
      assert overlooked <==> previous.Some? && world.Fails(clock);
      assert loses <==> overlooked && Vanishes(clock + 1, disk);
      assert endangers <==> overlooked && Harms(clock + 1, disk);
      ghost var middle := log;
      ok, turned := Proceed(params, previous);
      if previous.Some? {
        SafeSplit(old(log), middle, log, previous.value);
      }
    }
  }

  // ---------------------------------------------------------------- the loss

  /** A world in which one probe fails and nothing else. */
  function Blind(): World {
    World((k, call) => k == 5 && call == Step, (k, tree) => [])
  }

  function Before(staged: Bundle, p: Bundle): Disk {
    Disk(Some(staged), Some(p), None, None, None, Absent)
  }

  /** Whatever directory or link is in place, an installation that overlooks it loses it. */
  method LosingRun(params: Parameters, stagingOwner: Owner, staged: Bundle, p: Bundle)
    returns (installer: Installer)
    requires staged.id != p.id && staged.tree.Dir? && Removable(Some(p))
    ensures !Conserved(installer.disk, p)
  {
    installer := new Installer(Blind(), Before(staged, p));
    AlikeReflexive(p.tree);
    assert installer.Loses(0, installer.disk);
    ghost var turned;
    var ok;
    ok, turned := installer.Install(params, stagingOwner);
  }

  /** A world in which only the look at the command after the move fails. */
  function Distracted(): World {
    World((k, call) => k == 7 && call == Step, (k, tree) => [])
  }

  /** A removal that reports success and leaves its command behind. */
  method LeavingRun(params: Parameters, trashOwner: Owner, p: Bundle) returns (installer: Installer, ok: bool)
    requires params.HasGeneration(p.tree) && NoLinks(p.tree)
    ensures ok && In(installer.disk, p, Trash) && installer.disk.link.ToRunner?
  {
    installer := new Installer(Distracted(), Disk(None, Some(p), None, None, None, ToRunner));
    AlikeReflexive(p.tree);
    QuietWalk("", p.tree, installer.world.At(8));
    ok := installer.Remove(params, trashOwner);
  }
}
