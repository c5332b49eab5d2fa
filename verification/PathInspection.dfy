/** The inspection of PATH for user-writable directories in front of protected ones
(src/path_security.rs). The filesystem does not change between the questions asked of it. */
module PathInspection {
  import opened Text

  /** What the inspection asks: existence, kind and access of a path, its parent, and whether all
      commands in a directory are sealed by their application bundle. `key` is what a path compares by:
      its components, so that `/usr/bin` and `/usr//bin/` are one key; they are one directory too. */
  datatype FileSystem = FileSystem(
    present: string -> bool,
    directory: string -> bool,
    writable: string -> bool,
    parent: string -> Option<string>,
    sealed: string -> bool,
    key: string -> string)
  {
    ghost predicate Valid() {
      && (forall path :: parent(path).Some? ==> |parent(path).value| < |path|)
      && (forall path, other :: key(path) == key(other) ==> sealed(path) == sealed(other))
    }
  }

  /** The nearest ancestor that exists decides. */
  function Creatable(fs: FileSystem, path: string): bool
    requires fs.Valid()
    decreases |path|
  {
    if fs.present(path) then
      if fs.directory(path) then fs.writable(path)
      else fs.parent(path).Some? && fs.writable(fs.parent(path).value)
    else fs.parent(path).Some? && Creatable(fs, fs.parent(path).value)
  }

  /** `is_user_writable_or_creatable`. */
  method IsUserWritableOrCreatable(fs: FileSystem, path: string) returns (r: bool)
    requires fs.Valid()
    ensures r == Creatable(fs, path)
  {
    var candidate := path;
    while true
      invariant Creatable(fs, path) == Creatable(fs, candidate)
      decreases |candidate|
    {
      if fs.present(candidate) {
        if !fs.directory(candidate) {
          return fs.parent(candidate).Some? && fs.writable(fs.parent(candidate).value);
        }
        return fs.writable(candidate);
      }
      if fs.parent(candidate).None? {
        return false;
      }
      candidate := fs.parent(candidate).value;
    }
  }

  // ---------------------------------------------------------------- the specification

  datatype PathEntry = PathEntry(displayed: string, writable: bool)

  function EntryOf(fs: FileSystem, entry: string): PathEntry
    requires fs.Valid()
  {
    PathEntry(if entry == "" then "." else entry, !("/" <= entry) || Creatable(fs, entry))
  }

  function Entries(fs: FileSystem, parts: seq<string>): (r: seq<PathEntry>)
    requires fs.Valid()
    ensures |r| == |parts|
  {
    seq(|parts|, i requires 0 <= i < |parts| => EntryOf(fs, parts[i]))
  }

  /** Writable, and in front of some protected entry or of no protected entry at all. */
  predicate Eligible(entries: seq<PathEntry>, i: nat) {
    && i < |entries| && entries[i].writable
    && ((forall j :: 0 <= j < |entries| ==> entries[j].writable)
        || exists j :: i < j < |entries| && !entries[j].writable)
  }

  /** Reported at its first eligible, unsealed occurrence. */
  predicate Reported(entries: seq<PathEntry>, sealed: string -> bool, i: nat) {
    && Eligible(entries, i) && !sealed(entries[i].displayed)
    && forall j :: 0 <= j < i && Eligible(entries, j) ==> entries[j].displayed != entries[i].displayed
  }

  /** The reported entries among the first `n`, in order. */
  function Report(entries: seq<PathEntry>, sealed: string -> bool, n: nat): seq<string>
    requires n <= |entries|
  {
    if n == 0 then []
    else Report(entries, sealed, n - 1)
         + (if Reported(entries, sealed, n - 1) then [entries[n - 1].displayed] else [])
  }

  // ---------------------------------------------------------------- the pipeline

  /** `rposition` of a protected entry. */
  method LastProtected(entries: seq<PathEntry>) returns (last: Option<nat>)
    ensures last.None? ==> forall j :: 0 <= j < |entries| ==> entries[j].writable
    ensures last.Some? ==>
              && last.value < |entries| && !entries[last.value].writable
              && forall j :: last.value < j < |entries| ==> entries[j].writable
  {
    var i := |entries|;
    while i > 0
      invariant 0 <= i <= |entries| && forall j :: i <= j < |entries| ==> entries[j].writable
    {
      i := i - 1;
      if !entries[i].writable {
        return Some(i);
      }
    }
    last := None;
  }

  lemma EligibleIff(entries: seq<PathEntry>, last: Option<nat>, i: nat)
    requires last.None? ==> forall j :: 0 <= j < |entries| ==> entries[j].writable
    requires last.Some? ==>
               && last.value < |entries| && !entries[last.value].writable
               && forall j :: last.value < j < |entries| ==> entries[j].writable
    requires i < |entries|
    ensures Eligible(entries, i) <==> entries[i].writable && (last.None? || i < last.value)
  {
    if last.Some? && i < last.value {
      assert i < last.value < |entries| && !entries[last.value].writable;
    }
  }

  class Inspection {
    const fs: FileSystem
    var directories: map<string, bool>

    constructor (fs: FileSystem)
      requires fs.Valid()
      ensures Valid() && this.fs == fs
    {
      this.fs := fs;
      directories := map[];
    }

    /** Every remembered answer is the one the filesystem would give. */
    ghost predicate Valid()
      reads this
    {
      fs.Valid() && forall path :: fs.key(path) in directories ==> directories[fs.key(path)] == fs.sealed(path)
    }

    /** `entry(..).or_insert_with(..)`. */
    method Sealed(path: string) returns (r: bool)
      requires Valid()
      modifies this`directories
      ensures Valid() && r == fs.sealed(path)
      ensures directories == old(directories)[fs.key(path) := r]
    {
      var key := fs.key(path);
      if key !in directories {
        directories := directories[key := fs.sealed(path)];
      }
      r := directories[key];
    }

    /** `user_writable_entries_before_system_paths`: whatever was remembered from earlier calls, the
        report is the specification's. */
    method Inspect(path: string) returns (r: seq<string>)
      requires Valid()
      modifies this`directories
      ensures Valid()
      ensures var entries := Entries(fs, Split(path, ':'));
              r == Report(entries, fs.sealed, |entries|)
    {
      var entries := CollectEntries(Split(path, ':'));
      var last := LastProtected(entries);
      r := Filter(entries, last);
    }

    method CollectEntries(parts: seq<string>) returns (entries: seq<PathEntry>)
      requires Valid()
      ensures entries == Entries(fs, parts)
    {
      entries := [];
      for i := 0 to |parts|
        invariant |entries| == i && forall j :: 0 <= j < i ==> entries[j] == EntryOf(fs, parts[j])
      {
        var creatable := false;
        if "/" <= parts[i] {
          creatable := IsUserWritableOrCreatable(fs, parts[i]);
        }
        entries := entries + [PathEntry(if parts[i] == "" then "." else parts[i], !("/" <= parts[i]) || creatable)];
      }
    }

    /** The chain of filters, one entry at a time. */
    method Filter(entries: seq<PathEntry>, last: Option<nat>) returns (r: seq<string>)
      requires Valid()
      requires last.None? ==> forall j :: 0 <= j < |entries| ==> entries[j].writable
      requires last.Some? ==>
                 && last.value < |entries| && !entries[last.value].writable
                 && forall j :: last.value < j < |entries| ==> entries[j].writable
      modifies this`directories
      ensures Valid() && r == Report(entries, fs.sealed, |entries|)
    {
      r := [];
      var seen: set<string> := {};
      for i := 0 to |entries|
        invariant Valid() && r == Report(entries, fs.sealed, i)
        invariant forall name :: name in seen <==> SeenBefore(entries, fs.sealed, i, name)
      {
        EligibleIff(entries, last, i);
        SeenNext(entries, fs.sealed, i);
        if entries[i].writable && (last.None? || i < last.value) {
          var sealed := Sealed(entries[i].displayed);
          if !sealed {
            FirstIffUnseen(entries, fs.sealed, i);
            if entries[i].displayed !in seen {
              r := r + [entries[i].displayed];
            }
            seen := seen + {entries[i].displayed};
          }
        }
      }
    }
  }

  /** An eligible, unsealed entry of that name came earlier. */
  ghost predicate SeenBefore(entries: seq<PathEntry>, sealed: string -> bool, n: nat, name: string)
    requires n <= |entries|
  {
    exists j :: 0 <= j < n && Eligible(entries, j) && !sealed(entries[j].displayed) && entries[j].displayed == name
  }

  lemma SeenNext(entries: seq<PathEntry>, sealed: string -> bool, n: nat)
    requires n < |entries|
    ensures forall name ::
              SeenBefore(entries, sealed, n + 1, name)
              <==> SeenBefore(entries, sealed, n, name)
                   || (Eligible(entries, n) && !sealed(entries[n].displayed) && entries[n].displayed == name)
  {
    forall name | SeenBefore(entries, sealed, n, name)
      ensures SeenBefore(entries, sealed, n + 1, name)
    {
      var j :| 0 <= j < n && Eligible(entries, j) && !sealed(entries[j].displayed) && entries[j].displayed == name;
      assert 0 <= j < n + 1;
    }
    if Eligible(entries, n) && !sealed(entries[n].displayed) {
      assert SeenBefore(entries, sealed, n + 1, entries[n].displayed) by {
        assert 0 <= n < n + 1;
      }
    }
  }

  lemma FirstIffUnseen(entries: seq<PathEntry>, sealed: string -> bool, i: nat)
    requires i < |entries| && Eligible(entries, i) && !sealed(entries[i].displayed)
    ensures Reported(entries, sealed, i) <==> !SeenBefore(entries, sealed, i, entries[i].displayed)
  {
  }

  // ---------------------------------------------------------------- what a report says

  /** Exactly the names of eligible unsealed entries are reported. */
  lemma {:induction false} ReportMembers(entries: seq<PathEntry>, sealed: string -> bool, n: nat, name: string)
    requires n <= |entries|
    ensures name in Report(entries, sealed, n) <==> SeenBefore(entries, sealed, n, name)
  {
    if n > 0 {
      ReportMembers(entries, sealed, n - 1, name);
      SeenNext(entries, sealed, n - 1);
      if Eligible(entries, n - 1) && !sealed(entries[n - 1].displayed) {
        FirstIffUnseen(entries, sealed, n - 1);
      }
    }
  }

  /** Each of them once. */
  lemma {:induction false} ReportDistinct(entries: seq<PathEntry>, sealed: string -> bool, n: nat)
    requires n <= |entries|
    ensures var r := Report(entries, sealed, n);
            forall i, j :: 0 <= i < j < |r| ==> r[i] != r[j]
  {
    if n > 0 {
      ReportDistinct(entries, sealed, n - 1);
      ReportMembers(entries, sealed, n - 1, entries[n - 1].displayed);
      if Reported(entries, sealed, n - 1) {
        FirstIffUnseen(entries, sealed, n - 1);
      }
    }
  }
}
