/** Descriptor injection (src/cli/inject_fd.rs) over the process descriptor table.

The kernel follows POSIX.1-2017: a new descriptor is the lowest one available, `F_DUPFD_CLOEXEC`
starts looking at its argument, and `dup2` clears the close-on-exec flag. Every call may fail. */
module Descriptors {
  import opened Text

  newtype Fd = x: int | -0x8000_0000 <= x < 0x8000_0000

  datatype End = ReadEnd | WriteEnd
  datatype OpenFile = PipeEnd(pipe: nat, end: End) | Foreign(id: nat)
  datatype Descriptor = Descriptor(file: OpenFile, closeOnExec: bool)

  type Table = map<Fd, Descriptor>

  /** `fd` is what POSIX hands out for a request of at least `minimum`. */
  predicate LowestFree(table: Table, minimum: Fd, fd: Fd) {
    minimum <= fd && fd !in table && forall x :: minimum <= x < fd ==> x in table
  }

  class Kernel {
    var table: Table
    var buffers: map<nat, string>
    var nextPipe: nat
    const limit: Fd
    ghost var faults: nat // calls that returned an error

    ghost predicate Valid()
      reads this
    {
      && (forall fd :: fd in table && table[fd].file.PipeEnd? ==> table[fd].file.pipe in buffers)
      && (forall pipe :: pipe in buffers ==> pipe < nextPipe)
    }

    method LookFor(minimum: Fd) returns (found: bool, fd: Fd)
      ensures found ==> LowestFree(table, minimum, fd)
    {
      fd := minimum;
      while fd < limit && fd in table
        invariant minimum <= fd && (minimum <= limit ==> fd <= limit)
        invariant forall x :: minimum <= x < fd ==> x in table
        decreases limit as int - fd as int
      {
        fd := fd + 1;
      }
      found := fd < limit && fd !in table;
    }

    /** `fcntl(fd, F_GETFD)` failing with `EBADF`. */
    method IsFree(fd: Fd) returns (free: bool)
      modifies this`faults
      ensures faults >= old(faults)
      ensures free ==> fd !in table
      ensures !free ==> fd in table || faults > old(faults)
    {
      var fault: bool := *;
      free := !fault && fd !in table;
      if fault {
        faults := faults + 1;
      }
    }

    method Pipe() returns (ok: bool, reader: Fd, writer: Fd, ghost pipe: nat)
      requires Valid()
      modifies this
      ensures Valid()
      ensures faults >= old(faults) && (!ok ==> faults > old(faults))
      ensures !ok ==> table == old(table) && buffers == old(buffers)
      ensures ok ==>
                && LowestFree(old(table), 0, reader)
                && table == old(table)[reader := Descriptor(PipeEnd(pipe, ReadEnd), true)]
                                      [writer := Descriptor(PipeEnd(pipe, WriteEnd), true)]
                && writer !in old(table) && writer != reader && 0 <= writer
                && (forall x :: 0 <= x < writer ==> x in old(table) || x == reader)
                && pipe !in old(buffers) && buffers == old(buffers)[pipe := ""]
    {
      ok, reader := LookFor(0);
      writer, pipe := 0, 0;
      var fault: bool := *;
      if !ok || fault {
        faults := faults + 1;
        return false, 0, 0, 0;
      }
      ok, writer := LookForAfter(reader);
      if !ok {
        faults := faults + 1;
        return false, 0, 0, 0;
      }
      pipe := nextPipe;
      table := table[reader := Descriptor(PipeEnd(nextPipe, ReadEnd), true)]
                    [writer := Descriptor(PipeEnd(nextPipe, WriteEnd), true)];
      buffers := buffers[nextPipe := ""];
      nextPipe := nextPipe + 1;
    }

    method LookForAfter(fd: Fd) returns (found: bool, next: Fd)
      requires 0 <= fd && LowestFree(table, 0, fd)
      ensures found ==> next !in table && fd < next && forall x :: 0 <= x < next ==> x in table || x == fd
    {
      if fd >= limit {
        return false, 0;
      }
      found, next := LookFor(fd + 1);
    }

    /** `fcntl(fd, F_DUPFD_CLOEXEC, minimum)`. */
    method DupFd(fd: Fd, minimum: Fd) returns (r: Fd)
      requires Valid() && 0 <= minimum
      modifies this`table, this`faults
      ensures Valid() && faults >= old(faults) && (r < 0 ==> faults > old(faults))
      ensures r < 0 ==> table == old(table)
      ensures r >= 0 ==>
                && fd in old(table) && LowestFree(old(table), minimum, r)
                && table == old(table)[r := Descriptor(old(table)[fd].file, true)]
    {
      var found;
      found, r := LookFor(minimum);
      var fault: bool := *;
      if !found || fault || fd !in table {
        faults := faults + 1;
        return -1;
      }
      table := table[r := Descriptor(table[fd].file, true)];
    }

    method Dup2(fd: Fd, target: Fd) returns (ok: bool)
      requires Valid() && fd != target
      modifies this`table, this`faults
      ensures Valid() && faults >= old(faults) && (!ok ==> faults > old(faults))
      ensures !ok ==> table == old(table)
      ensures ok ==> fd in old(table) && table == old(table)[target := Descriptor(old(table)[fd].file, false)]
    {
      var fault: bool := *;
      if fault || fd !in table || target < 0 || target >= limit {
        faults := faults + 1;
        return false;
      }
      table := table[target := Descriptor(table[fd].file, false)];
      ok := true;
    }

    /** `fcntl(fd, F_SETFD, ...)`. */
    method SetCloseOnExec(fd: Fd, value: bool) returns (ok: bool)
      requires Valid()
      modifies this`table, this`faults
      ensures Valid() && faults >= old(faults) && (!ok ==> faults > old(faults))
      ensures !ok ==> table == old(table)
      ensures ok ==> fd in old(table) && table == old(table)[fd := old(table)[fd].(closeOnExec := value)]
    {
      var fault: bool := *;
      if fault || fd !in table {
        faults := faults + 1;
        return false;
      }
      table := table[fd := table[fd].(closeOnExec := value)];
      ok := true;
    }

    /** The drop of a `File`. */
    method Close(fd: Fd)
      requires Valid()
      modifies this`table
      ensures Valid() && table == old(table) - {fd}
    {
      table := table - {fd};
    }

    /** `fcntl(fd, F_SETFL, O_NONBLOCK)`. */
    method SetNonBlocking(fd: Fd) returns (ok: bool)
      modifies this`faults
      ensures faults >= old(faults) && (!ok ==> faults > old(faults))
    {
      var fault: bool := *;
      ok := !fault && fd in table;
      if !ok {
        faults := faults + 1;
      }
    }

    /** A non-blocking write: some prefix of `data`, or an error when nothing fits. */
    method Write(fd: Fd, data: string) returns (count: nat, ok: bool)
      requires Valid()
      modifies this`buffers, this`faults
      ensures faults >= old(faults) && (!ok ==> faults > old(faults))
      ensures Valid() && buffers.Keys == old(buffers.Keys)
      ensures !ok ==> buffers == old(buffers)
      ensures ok ==>
                && fd in table && table[fd].file.PipeEnd? && 0 < count <= |data|
                && var pipe := table[fd].file.pipe;
                   buffers == old(buffers)[pipe := old(buffers)[pipe] + data[..count]]
    {
      count, ok := 0, false;
      if fd in table && table[fd].file.PipeEnd? && data != "" {
        var accepted: nat := *;
        if 0 < accepted <= |data| {
          var pipe := table[fd].file.pipe;
          buffers := buffers[pipe := buffers[pipe] + data[..accepted]];
          count, ok := accepted, true;
        }
      }
      if !ok {
        faults := faults + 1;
      }
    }
  }

  // ---------------------------------------------------------------- duplicate

  type Mappings = map<string, Fd>

  /** What `parse` guarantees: canonical numbers from 3 to 2147483646, none used twice. */
  ghost predicate Injective(mappings: Mappings) {
    && (forall name :: name in mappings ==> 3 <= mappings[name] < 0x7FFF_FFFF)
    && (forall a, b :: a in mappings && b in mappings && a != b ==> mappings[a] != mappings[b])
  }

  /** The least free descriptor from 3 on that is not a destination. */
  ghost predicate LeastOutside(table: Table, destinations: set<Fd>, fd: Fd) {
    && 3 <= fd && fd !in table && fd !in destinations
    && forall x :: 3 <= x < fd ==> x in table || x in destinations
  }

  method Duplicate(kernel: Kernel, fd: Fd, mappings: Mappings) returns (r: Fd)
    requires kernel.Valid() && Injective(mappings)
    modifies kernel`table, kernel`faults
    ensures kernel.Valid()
    ensures kernel.faults >= old(kernel.faults) && (r < 0 ==> kernel.faults > old(kernel.faults))
    ensures r < 0 ==> kernel.table == old(kernel.table)
    ensures r >= 0 ==>
              && fd in old(kernel.table)
              && LeastOutside(old(kernel.table), mappings.Values, r)
              && kernel.table == old(kernel.table)[r := Descriptor(old(kernel.table)[fd].file, true)]
  {
    var minimum: Fd := 3;
    while true
      invariant kernel.Valid() && kernel.table == old(kernel.table) && 3 <= minimum
      invariant kernel.faults >= old(kernel.faults)
      invariant forall x :: 3 <= x < minimum ==> x in kernel.table || x in mappings.Values
      decreases 0x7FFF_FFFF - minimum as int
    {
      r := kernel.DupFd(fd, minimum);
      if r < 0 {
        return;
      }
      if r !in mappings.Values {
        return;
      }
      kernel.Close(r);
      var name :| name in mappings && mappings[name] == r;
      minimum := r + 1;
    }
  }

  // ---------------------------------------------------------------- reserve

  datatype SecretPipe = SecretPipe(reader: Fd, writer: Fd)

  function ReadSide(pipe: nat): Descriptor { Descriptor(PipeEnd(pipe, ReadEnd), true) }
  function WriteSide(pipe: nat): Descriptor { Descriptor(PipeEnd(pipe, WriteEnd), true) }

  lemma DropPair(table: Table, r: Fd, w: Fd, a: Fd, b: Fd, x: Descriptor, y: Descriptor)
    requires r !in table && w !in table && r != a && r != b && w != a && w != b
    ensures table[r := x][w := y][a := x][b := y] - {r} - {w} == table[a := x][b := y]
  {
  }

  method DuplicateBoth(kernel: Kernel, source: Fd, sink: Fd, mappings: Mappings)
    returns (ok: bool, reader: Fd, writer: Fd)
    requires kernel.Valid() && Injective(mappings) && sink in kernel.table
    modifies kernel`table, kernel`faults
    ensures kernel.Valid()
    ensures kernel.faults >= old(kernel.faults) && (!ok ==> kernel.faults > old(kernel.faults))
    ensures !ok ==> kernel.table == old(kernel.table)
    ensures ok ==>
              && source in old(kernel.table)
              && reader !in old(kernel.table) && writer !in old(kernel.table) && reader != writer
              && reader !in mappings.Values && writer !in mappings.Values && 3 <= reader && 3 <= writer
              && kernel.table == old(kernel.table)[reader := Descriptor(old(kernel.table)[source].file, true)]
                                                  [writer := Descriptor(old(kernel.table)[sink].file, true)]
  {
    writer := -1;
    reader := Duplicate(kernel, source, mappings);
    if reader < 0 {
      return false, reader, writer;
    }
    writer := Duplicate(kernel, sink, mappings);
    if writer < 0 {
      kernel.Close(reader);
      assert kernel.table == old(kernel.table);
      return false, reader, writer;
    }
    ok := true;
  }

  /** The first half of the `make` closure: a pipe both of whose ends were moved out of the way of
      every destination, wherever `io::pipe` happened to put them. */
  method MovedPipe(kernel: Kernel, mappings: Mappings)
    returns (ok: bool, reader: Fd, writer: Fd, ghost pipe: nat)
    requires kernel.Valid() && Injective(mappings)
    modifies kernel
    ensures kernel.Valid()
    ensures kernel.faults >= old(kernel.faults) && (!ok ==> kernel.faults > old(kernel.faults))
    ensures kernel.buffers == old(kernel.buffers)
            || (pipe !in old(kernel.buffers) && kernel.buffers == old(kernel.buffers)[pipe := ""])
    ensures !ok ==> kernel.table == old(kernel.table)
    ensures ok ==>
              && pipe !in old(kernel.buffers) && pipe in kernel.buffers
              && reader !in old(kernel.table) && writer !in old(kernel.table) && reader != writer
              && reader !in mappings.Values && writer !in mappings.Values && 3 <= reader && 3 <= writer
              && kernel.table == old(kernel.table)[reader := ReadSide(pipe)][writer := WriteSide(pipe)]
  {
    reader, writer := -1, -1;
    var source, sink;
    ok, source, sink, pipe := kernel.Pipe();
    if !ok {
      return;
    }
    ok, reader, writer := DuplicateBoth(kernel, source, sink, mappings);
    kernel.Close(source);
    kernel.Close(sink);
    if ok {
      DropPair(old(kernel.table), source, sink, reader, writer, ReadSide(pipe), WriteSide(pipe));
    } else {
      assert kernel.table == old(kernel.table);
    }
  }

  /** The second half: the reader is moved onto its destination. */
  method Settle(kernel: Kernel, reader: Fd, destination: Fd) returns (ok: bool)
    requires kernel.Valid() && reader in kernel.table && destination !in kernel.table
    modifies kernel`table, kernel`faults
    ensures kernel.Valid()
    ensures kernel.faults >= old(kernel.faults) && (!ok ==> kernel.faults > old(kernel.faults))
    ensures !ok ==> kernel.table == old(kernel.table) - {reader}
    ensures ok ==> kernel.table
                   == (old(kernel.table) - {reader})[destination := old(kernel.table)[reader].(closeOnExec := true)]
  {
    ok := kernel.Dup2(reader, destination);
    if ok {
      ok := kernel.SetCloseOnExec(destination, true);
      if !ok {
        kernel.Close(destination);
      }
    }
    kernel.Close(reader);
  }

  /** The `make` closure: one pipe whose read end is `destination`. */
  method MakePipe(kernel: Kernel, mappings: Mappings, destination: Fd)
    returns (ok: bool, writer: Fd, ghost pipe: nat)
    requires kernel.Valid() && Injective(mappings)
    requires destination in mappings.Values && destination !in kernel.table
    modifies kernel
    ensures kernel.Valid()
    ensures kernel.faults >= old(kernel.faults) && (!ok ==> kernel.faults > old(kernel.faults))
    ensures kernel.buffers == old(kernel.buffers)
            || (pipe !in old(kernel.buffers) && kernel.buffers == old(kernel.buffers)[pipe := ""])
    ensures !ok ==> kernel.table == old(kernel.table)
    ensures ok ==>
              && writer !in old(kernel.table) && writer !in mappings.Values && 3 <= writer
              && pipe !in old(kernel.buffers) && pipe in kernel.buffers
              && kernel.table == old(kernel.table)[destination := ReadSide(pipe)][writer := WriteSide(pipe)]
  {
    var reader;
    ok, reader, writer, pipe := MovedPipe(kernel, mappings);
    if !ok {
      return;
    }
    ok := Settle(kernel, reader, destination);
    if !ok {
      kernel.Close(writer);
    }
  }

  // ---------------------------------------------------------------- what is owned

  type Pipes = map<string, SecretPipe>

  /** Which secret a descriptor serves, and with which end of its pipe. */
  datatype Claim = Claim(name: string, end: End)

  /** The live `File` values: what an early return drops. */
  type Files = map<Fd, Claim>

  /** `table` is `base` plus the owned descriptors, each an end of the pipe `ids[name]`. */
  ghost predicate Holds(table: Table, base: Table, files: Files, ids: map<string, nat>) {
    && files.Keys !! base.Keys
    && table.Keys == base.Keys + files.Keys
    && (forall fd :: fd in base ==> table[fd] == base[fd])
    && (forall fd :: fd in files ==>
          files[fd].name in ids
          && table[fd] == Descriptor(PipeEnd(ids[files[fd].name], files[fd].end), true))
  }

  lemma HoldsOpen(table: Table, base: Table, files: Files, ids: map<string, nat>, fd: Fd, claim: Claim)
    requires Holds(table, base, files, ids) && fd !in table && claim.name in ids
    ensures Holds(table[fd := Descriptor(PipeEnd(ids[claim.name], claim.end), true)], base,
                  files[fd := claim], ids)
  {
  }

  lemma HoldsClose(table: Table, base: Table, files: Files, ids: map<string, nat>, fd: Fd)
    requires Holds(table, base, files, ids) && fd in files
    ensures Holds(table - {fd}, base, files - {fd}, ids)
  {
  }

  lemma HoldsName(table: Table, base: Table, files: Files, ids: map<string, nat>, name: string, id: nat)
    requires Holds(table, base, files, ids) && name !in ids
    ensures Holds(table, base, files, ids[name := id])
  {
  }

  lemma HoldsPair(table: Table, base: Table, files: Files, ids: map<string, nat>, name: string,
                  made: SecretPipe, id: nat)
    requires Holds(table, base, files, ids) && name !in ids
    requires made.reader !in table && made.writer !in table && made.reader != made.writer
    ensures Holds(table[made.reader := ReadSide(id)][made.writer := WriteSide(id)], base,
                  files[made.reader := Claim(name, ReadEnd)][made.writer := Claim(name, WriteEnd)],
                  ids[name := id])
  {
    HoldsName(table, base, files, ids, name, id);
    HoldsOpen(table, base, files, ids[name := id], made.reader, Claim(name, ReadEnd));
    HoldsOpen(table[made.reader := ReadSide(id)], base, files[made.reader := Claim(name, ReadEnd)],
              ids[name := id], made.writer, Claim(name, WriteEnd));
  }

  lemma HoldsNothing(table: Table, base: Table, ids: map<string, nat>)
    requires Holds(table, base, map[], ids)
    ensures table == base
  {
  }

  lemma OneLess(files: Files, fd: Fd)
    requires fd in files
    ensures |files - {fd}| < |files|
  {
    assert (files - {fd}).Keys == files.Keys - {fd};
    assert |files.Keys - {fd}| == |files.Keys| - 1;
  }

  /** The drop of everything still owned. */
  method DropAll(kernel: Kernel, files: Files, ghost base: Table, ghost ids: map<string, nat>)
    requires kernel.Valid() && Holds(kernel.table, base, files, ids)
    modifies kernel`table
    ensures kernel.Valid() && kernel.table == base
  {
    var left := files;
    while left != map[]
      invariant kernel.Valid() && Holds(kernel.table, base, left, ids)
      decreases |left|
    {
      var fd :| fd in left;
      HoldsClose(kernel.table, base, left, ids, fd);
      OneLess(left, fd);
      kernel.Close(fd);
      left := left - {fd};
    }
    HoldsNothing(kernel.table, base, ids);
  }

  /** Exactly the read ends of `pipes`, and the write ends of those not in `filled`, are owned. */
  ghost predicate Owned(files: Files, pipes: Pipes, filled: set<string>) {
    && (forall name :: name in pipes ==>
          pipes[name].reader in files && files[pipes[name].reader] == Claim(name, ReadEnd))
    && (forall name :: name in pipes && name !in filled ==>
          pipes[name].writer in files && files[pipes[name].writer] == Claim(name, WriteEnd))
    && (forall fd :: fd in files ==>
          && files[fd].name in pipes
          && (files[fd].end.ReadEnd? ==> fd == pipes[files[fd].name].reader)
          && (files[fd].end.WriteEnd? ==> files[fd].name !in filled && fd == pipes[files[fd].name].writer))
  }

  lemma OwnedAdd(files: Files, pipes: Pipes, name: string, made: SecretPipe)
    requires Owned(files, pipes, {}) && name !in pipes
    requires made.reader !in files && made.writer !in files && made.reader != made.writer
    ensures Owned(files[made.reader := Claim(name, ReadEnd)][made.writer := Claim(name, WriteEnd)],
                  pipes[name := made], {})
  {
  }

  lemma OwnedFill(files: Files, pipes: Pipes, filled: set<string>, name: string)
    requires Owned(files, pipes, filled) && name in pipes && name !in filled
    ensures Owned(files - {pipes[name].writer}, pipes, filled + {name})
  {
  }

  // ---------------------------------------------------------------- reserve

  /** `pipes` are laid out as `mappings` asks, with every writer outside the destinations. */
  ghost predicate LaidOut(pipes: Pipes, mappings: Mappings) {
    forall name :: name in pipes ==>
      && name in mappings && pipes[name].reader == mappings[name]
      && pipes[name].writer !in mappings.Values && 3 <= pipes[name].writer
  }

  /** Every secret has a pipe of its own that did not exist before, and it is empty. */
  ghost predicate FreshPipes(ids: map<string, nat>, known: set<nat>, buffers: map<nat, string>) {
    && (forall name :: name in ids ==>
          ids[name] !in known && ids[name] in buffers && buffers[ids[name]] == "")
    && (forall a, b :: a in ids && b in ids && a != b ==> ids[a] != ids[b])
  }

  ghost predicate Kept(before: map<nat, string>, after: map<nat, string>) {
    forall p :: p in before ==> p in after && after[p] == before[p]
  }

  lemma KeptTransitive(a: map<nat, string>, b: map<nat, string>, c: map<nat, string>)
    requires Kept(a, b) && Kept(b, c)
    ensures Kept(a, c)
  {
  }

  lemma DestinationStaysFree(table: Table, base: Table, files: Files, ids: map<string, nat>,
                             pipes: Pipes, mappings: Mappings, name: string)
    requires Injective(mappings) && name in mappings && mappings[name] !in base && name !in pipes
    requires Holds(table, base, files, ids) && Owned(files, pipes, {}) && LaidOut(pipes, mappings)
    ensures mappings[name] !in table
  {
  }

  lemma FreshPipesAdd(ids: map<string, nat>, known: set<nat>, before: map<nat, string>, name: string,
                      id: nat)
    requires FreshPipes(ids, known, before) && known <= before.Keys && id !in before && name !in ids
    ensures FreshPipes(ids[name := id], known, before[id := ""])
  {
  }

  /** Some destination is open already. */
  ghost predicate Taken(mappings: Mappings, table: Table) {
    exists name :: name in mappings && mappings[name] in table
  }

  /** The first loop of `reserve`: every destination must be free. */
  method CheckFree(kernel: Kernel, mappings: Mappings) returns (free: bool)
    modifies kernel`faults
    ensures kernel.faults >= old(kernel.faults)
    ensures free ==> forall name :: name in mappings ==> mappings[name] !in kernel.table
    ensures !free ==> kernel.faults > old(kernel.faults) || Taken(mappings, kernel.table)
  {
    var names := Ascending(mappings.Keys);
    for i := 0 to |names|
      invariant kernel.faults >= old(kernel.faults)
      invariant forall j :: 0 <= j < i ==> mappings[names[j]] !in kernel.table
    {
      assert names[i] in names;
      free := kernel.IsFree(mappings[names[i]]);
      if !free {
        return;
      }
    }
    forall name | name in mappings
      ensures mappings[name] !in kernel.table
    {
      assert name in names;
    }
    free := true;
  }

  /** What is open, owned and buffered while `reserve` runs. */
  ghost predicate Ledger(table: Table, buffers: map<nat, string>, base: Table, known: set<nat>,
                         mappings: Mappings, pipes: Pipes, files: Files, ids: map<string, nat>) {
    && Holds(table, base, files, ids) && Owned(files, pipes, {}) && LaidOut(pipes, mappings)
    && ids.Keys == pipes.Keys && known <= buffers.Keys && FreshPipes(ids, known, buffers)
  }

  lemma LedgerFree(table: Table, buffers: map<nat, string>, base: Table, known: set<nat>,
                   mappings: Mappings, pipes: Pipes, files: Files, ids: map<string, nat>, name: string)
    requires Ledger(table, buffers, base, known, mappings, pipes, files, ids)
    requires Injective(mappings) && name in mappings && mappings[name] !in base && name !in pipes
    ensures mappings[name] !in table
  {
    DestinationStaysFree(table, base, files, ids, pipes, mappings, name);
  }

  lemma LedgerAdd(table: Table, buffers: map<nat, string>, base: Table, known: set<nat>,
                  mappings: Mappings, pipes: Pipes, files: Files, ids: map<string, nat>,
                  name: string, made: SecretPipe, id: nat)
    requires Ledger(table, buffers, base, known, mappings, pipes, files, ids)
    requires name in mappings && name !in pipes && made.reader == mappings[name]
    requires made.reader !in table && made.writer !in table && id !in buffers
    requires made.writer !in mappings.Values && 3 <= made.writer
    ensures Ledger(table[made.reader := ReadSide(id)][made.writer := WriteSide(id)], buffers[id := ""],
                   base, known, mappings, pipes[name := made],
                   files[made.reader := Claim(name, ReadEnd)][made.writer := Claim(name, WriteEnd)],
                   ids[name := id])
  {
    assert made.reader != made.writer by {
      assert mappings[name] in mappings.Values;
    }
    assert files.Keys <= table.Keys;
    HoldsPair(table, base, files, ids, name, made, id);
    OwnedAdd(files, pipes, name, made);
    FreshPipesAdd(ids, known, buffers, name, id);
    LaidOutAdd(pipes, mappings, name, made);
  }

  lemma LaidOutAdd(pipes: Pipes, mappings: Mappings, name: string, made: SecretPipe)
    requires LaidOut(pipes, mappings) && name in mappings && made.reader == mappings[name]
    requires made.writer !in mappings.Values && 3 <= made.writer
    ensures LaidOut(pipes[name := made], mappings)
  {
  }

  lemma LedgerStart(table: Table, buffers: map<nat, string>, mappings: Mappings)
    ensures Ledger(table, buffers, table, buffers.Keys, mappings, map[], map[], map[])
  {
  }

  function NamesBefore(names: seq<string>, i: nat): set<string>
    requires i <= |names|
  {
    set j | 0 <= j < i :: names[j]
  }

  lemma NextName(keys: set<string>, i: nat)
    requires i < |Ascending(keys)|
    ensures Ascending(keys)[i] in keys && Ascending(keys)[i] !in NamesBefore(Ascending(keys), i)
    ensures NamesBefore(Ascending(keys), i + 1) == NamesBefore(Ascending(keys), i) + {Ascending(keys)[i]}
  {
    AscendingDistinct(Ascending(keys));
    assert Ascending(keys)[i] in Ascending(keys);
  }

  lemma AllNames(keys: set<string>)
    ensures NamesBefore(Ascending(keys), |Ascending(keys)|) == keys
  {
    forall key | key in keys
      ensures key in NamesBefore(Ascending(keys), |Ascending(keys)|)
    {
      assert key in Ascending(keys);
    }
    assert forall key :: key in Ascending(keys) ==> key in keys;
  }

  /** `reserve`: all destinations, or nothing at all. */
  method Reserve(kernel: Kernel, mappings: Mappings)
    returns (ok: bool, pipes: Pipes, files: Files, ghost ids: map<string, nat>)
    requires kernel.Valid() && Injective(mappings)
    modifies kernel
    ensures kernel.Valid() && Kept(old(kernel.buffers), kernel.buffers)
    ensures kernel.faults >= old(kernel.faults)
    ensures !ok ==> kernel.table == old(kernel.table)
    ensures !ok ==> kernel.faults > old(kernel.faults) || Taken(mappings, old(kernel.table))
    ensures ok ==>
              && pipes.Keys == mappings.Keys
              && Ledger(kernel.table, kernel.buffers, old(kernel.table), old(kernel.buffers.Keys),
                        mappings, pipes, files, ids)
  {
    pipes, files, ids := map[], map[], map[];
    ok := CheckFree(kernel, mappings);
    if ok {
      LedgerStart(kernel.table, kernel.buffers, mappings);
      ok, pipes, files, ids := ReserveAll(kernel, mappings, kernel.table, kernel.buffers.Keys);
      if !ok {
        DropAll(kernel, files, old(kernel.table), ids);
      }
    }
  }

  /** Its second loop. */
  method ReserveAll(kernel: Kernel, mappings: Mappings, ghost base: Table, ghost known: set<nat>)
    returns (ok: bool, pipes: Pipes, files: Files, ghost ids: map<string, nat>)
    requires kernel.Valid() && Injective(mappings)
    requires forall name :: name in mappings ==> mappings[name] !in base
    requires Ledger(kernel.table, kernel.buffers, base, known, mappings, map[], map[], map[])
    modifies kernel
    ensures kernel.Valid() && Kept(old(kernel.buffers), kernel.buffers)
    ensures kernel.faults >= old(kernel.faults) && (!ok ==> kernel.faults > old(kernel.faults))
    ensures Holds(kernel.table, base, files, ids)
    ensures ok ==> Ledger(kernel.table, kernel.buffers, base, known, mappings, pipes, files, ids)
    ensures ok ==> pipes.Keys == mappings.Keys
  {
    pipes, files, ids := map[], map[], map[];
    ghost var buffers := kernel.buffers;
    var names := Ascending(mappings.Keys);
    for i := 0 to |names|
      invariant kernel.Valid() && Kept(buffers, kernel.buffers) && kernel.faults >= old(kernel.faults)
      invariant pipes.Keys == NamesBefore(names, i)
      invariant Ledger(kernel.table, kernel.buffers, base, known, mappings, pipes, files, ids)
    {
      NextName(mappings.Keys, i);
      ghost var now := kernel.buffers;
      ok, pipes, files, ids := ReserveOne(kernel, mappings, names[i], pipes, files, base, known, ids);
      KeptTransitive(buffers, now, kernel.buffers);
      if !ok {
        return;
      }
    }
    AllNames(mappings.Keys);
    ok := true;
  }

  lemma LedgerHolds(table: Table, buffers: map<nat, string>, base: Table, known: set<nat>,
                    mappings: Mappings, pipes: Pipes, files: Files, ids: map<string, nat>)
    requires Ledger(table, buffers, base, known, mappings, pipes, files, ids)
    ensures Holds(table, base, files, ids)
  {
  }

  lemma KeptAdd(buffers: map<nat, string>, id: nat)
    requires id !in buffers
    ensures Kept(buffers, buffers[id := ""])
  {
  }

  /** One turn of its second loop. */
  method ReserveOne(kernel: Kernel, mappings: Mappings, name: string, pipes: Pipes, files: Files,
                    ghost base: Table, ghost known: set<nat>, ghost ids: map<string, nat>)
    returns (ok: bool, pipes': Pipes, files': Files, ghost ids': map<string, nat>)
    requires kernel.Valid() && Injective(mappings)
    requires name in mappings && mappings[name] !in base && name !in pipes
    requires Ledger(kernel.table, kernel.buffers, base, known, mappings, pipes, files, ids)
    modifies kernel
    ensures kernel.Valid() && Kept(old(kernel.buffers), kernel.buffers)
    ensures kernel.faults >= old(kernel.faults) && (!ok ==> kernel.faults > old(kernel.faults))
    ensures !ok ==> Holds(kernel.table, base, files', ids')
    ensures ok ==>
              && Ledger(kernel.table, kernel.buffers, base, known, mappings, pipes', files', ids')
              && pipes'.Keys == pipes.Keys + {name}
  {
    pipes', files', ids' := pipes, files, ids;
    LedgerFree(kernel.table, kernel.buffers, base, known, mappings, pipes, files, ids, name);
    assert mappings[name] in mappings.Values;
    var writer;
    ghost var id;
    ok, writer, id := MakePipe(kernel, mappings, mappings[name]);
    if !ok {
      LedgerHolds(old(kernel.table), old(kernel.buffers), base, known, mappings, pipes, files, ids);
    } else {
      var made := SecretPipe(mappings[name], writer);
      LedgerAdd(old(kernel.table), old(kernel.buffers), base, known, mappings, pipes, files, ids, name,
                made, id);
      KeptAdd(old(kernel.buffers), id);
      files' := files[made.reader := Claim(name, ReadEnd)][made.writer := Claim(name, WriteEnd)];
      ids' := ids[name := id];
      pipes' := pipes[name := made];
    }
  }

  // ---------------------------------------------------------------- fill

  /** `write_all` on a non-blocking pipe. */
  method WriteAll(kernel: Kernel, fd: Fd, data: string) returns (ok: bool)
    requires kernel.Valid() && fd in kernel.table && kernel.table[fd].file.PipeEnd?
    modifies kernel`buffers, kernel`faults
    ensures kernel.faults >= old(kernel.faults) && (!ok ==> kernel.faults > old(kernel.faults))
    ensures kernel.Valid() && kernel.buffers.Keys == old(kernel.buffers.Keys)
    ensures var pipe := kernel.table[fd].file.pipe;
            && (forall p :: p in kernel.buffers && p != pipe ==> kernel.buffers[p] == old(kernel.buffers[p]))
            && (ok ==> kernel.buffers[pipe] == old(kernel.buffers[pipe]) + data)
  {
    var pipe := kernel.table[fd].file.pipe;
    var sent := 0;
    while sent < |data|
      invariant kernel.faults >= old(kernel.faults)
      invariant 0 <= sent <= |data| && kernel.Valid() && kernel.buffers.Keys == old(kernel.buffers.Keys)
      invariant forall p :: p in kernel.buffers && p != pipe ==> kernel.buffers[p] == old(kernel.buffers[p])
      invariant kernel.buffers[pipe] == old(kernel.buffers[pipe]) + data[..sent]
    {
      var count, written := kernel.Write(fd, data[sent..]);
      if !written {
        return false;
      }
      assert data[..sent] + data[sent..][..count] == data[..sent + count];
      sent := sent + count;
    }
    assert data[..sent] == data;
    ok := true;
  }

  /** The pipes of `filled` hold their values, the others are still empty. */
  ghost predicate Buffered(buffers: map<nat, string>, ids: map<string, nat>, filled: set<string>,
                           values: string -> Option<string>) {
    forall name :: name in ids ==>
      && ids[name] in buffers
      && (name in filled ==> values(name) == Some(buffers[ids[name]]))
      && (name !in filled ==> buffers[ids[name]] == "")
  }

  ghost predicate DistinctPipes(ids: map<string, nat>) {
    forall a, b :: a in ids && b in ids && a != b ==> ids[a] != ids[b]
  }

  lemma BufferedFill(before: map<nat, string>, after: map<nat, string>, ids: map<string, nat>,
                     filled: set<string>, values: string -> Option<string>, name: string)
    requires Buffered(before, ids, filled, values) && DistinctPipes(ids) && name in ids
    requires after.Keys == before.Keys && values(name) == Some(after[ids[name]])
    requires forall p :: p in before && p != ids[name] ==> after[p] == before[p]
    ensures Buffered(after, ids, filled + {name}, values)
  {
  }

  /** One turn of the loop of `fill`. */
  method FillOne(kernel: Kernel, pipes: Pipes, files: Files, name: string, value: string,
                 ghost base: Table, ghost ids: map<string, nat>, ghost filled: set<string>)
    returns (ok: bool, files': Files)
    requires kernel.Valid() && Holds(kernel.table, base, files, ids) && Owned(files, pipes, filled)
    requires name in pipes && name !in filled && name in ids && ids[name] in kernel.buffers
    requires kernel.buffers[ids[name]] == ""
    modifies kernel`table, kernel`buffers, kernel`faults
    ensures kernel.faults >= old(kernel.faults) && (!ok ==> kernel.faults > old(kernel.faults))
    ensures kernel.Valid() && Holds(kernel.table, base, files', ids)
    ensures kernel.buffers.Keys == old(kernel.buffers.Keys)
    ensures forall p :: p in kernel.buffers && p != ids[name] ==> kernel.buffers[p] == old(kernel.buffers[p])
    ensures ok ==> Owned(files', pipes, filled + {name}) && kernel.buffers[ids[name]] == value
  {
    files' := files;
    var writer := pipes[name].writer;
    ok := kernel.SetNonBlocking(writer);
    if !ok {
      return;
    }
    assert kernel.table[writer] == WriteSide(ids[name]);
    ok := WriteAll(kernel, writer, value);
    if ok {
      assert "" + value == value;
      OwnedFill(files, pipes, filled, name);
      HoldsClose(kernel.table, base, files, ids, writer);
      kernel.Close(writer);
      files' := files - {writer};
    }
  }

  /** Some secret has no value. */
  ghost predicate Lacking(names: set<string>, values: string -> Option<string>) {
    exists name :: name in names && values(name).None?
  }

  lemma LackingOne(names: set<string>, values: string -> Option<string>, name: string)
    requires name in names && values(name).None?
    ensures Lacking(names, values)
  {
  }

  /** `fill`: every secret is buffered in its pipe and every writer closed, or nothing stays open.
      `values` is the approved value of a secret, if it has one. */
  method Fill(kernel: Kernel, pipes: Pipes, files: Files, values: string -> Option<string>,
              ghost base: Table, ghost ids: map<string, nat>)
    returns (ok: bool, files': Files)
    requires kernel.Valid() && Holds(kernel.table, base, files, ids) && Owned(files, pipes, {})
    requires ids.Keys == pipes.Keys && DistinctPipes(ids) && Buffered(kernel.buffers, ids, {}, values)
    modifies kernel`table, kernel`buffers, kernel`faults
    ensures kernel.Valid() && kernel.faults >= old(kernel.faults)
    ensures !ok ==> kernel.table == base
    ensures !ok ==> kernel.faults > old(kernel.faults) || Lacking(pipes.Keys, values)
    ensures ok ==>
              && Holds(kernel.table, base, files', ids) && Owned(files', pipes, pipes.Keys)
              && Buffered(kernel.buffers, ids, pipes.Keys, values)
  {
    ok, files' := FillAll(kernel, pipes, files, values, base, ids);
    if !ok {
      DropAll(kernel, files', base, ids);
    }
  }

  /** Its loop. */
  method FillAll(kernel: Kernel, pipes: Pipes, files: Files, values: string -> Option<string>,
                 ghost base: Table, ghost ids: map<string, nat>)
    returns (ok: bool, files': Files)
    requires kernel.Valid() && Holds(kernel.table, base, files, ids) && Owned(files, pipes, {})
    requires ids.Keys == pipes.Keys && DistinctPipes(ids) && Buffered(kernel.buffers, ids, {}, values)
    modifies kernel`table, kernel`buffers, kernel`faults
    ensures kernel.Valid() && kernel.faults >= old(kernel.faults)
    ensures Holds(kernel.table, base, files', ids)
    ensures !ok ==> kernel.faults > old(kernel.faults) || Lacking(pipes.Keys, values)
    ensures ok ==> Owned(files', pipes, pipes.Keys) && Buffered(kernel.buffers, ids, pipes.Keys, values)
  {
    files' := files;
    var names := Ascending(pipes.Keys);
    for i := 0 to |names|
      invariant kernel.Valid() && Holds(kernel.table, base, files', ids) && kernel.faults >= old(kernel.faults)
      invariant Owned(files', pipes, NamesBefore(names, i))
      invariant Buffered(kernel.buffers, ids, NamesBefore(names, i), values)
    {
      NextName(pipes.Keys, i);
      var value := values(names[i]);
      if value.None? {
        LackingOne(pipes.Keys, values, names[i]);
        return false, files';
      }
      ghost var before := kernel.buffers;
      ok, files' := FillOne(kernel, pipes, files', names[i], value.value, base, ids, NamesBefore(names, i));
      if !ok {
        return;
      }
      BufferedFill(before, kernel.buffers, ids, NamesBefore(names, i), values, names[i]);
    }
    AllNames(pipes.Keys);
    ok := true;
  }

  // ---------------------------------------------------------------- whole preparations

  ghost predicate BaseKnown(base: Table, known: set<nat>) {
    forall fd :: fd in base && base[fd].file.PipeEnd? ==> base[fd].file.pipe in known
  }

  /** What a reader gets before end of file; end of file needs every write end closed. */
  ghost function ReadToEnd(table: Table, buffers: map<nat, string>, pipe: nat): Option<string> {
    if pipe in buffers && forall fd :: fd in table ==> table[fd].file != PipeEnd(pipe, WriteEnd)
    then Some(buffers[pipe])
    else None
  }

  /** A successful reservation in full: what each destination is, where the writers are, what did not
      change, and that nothing else was opened. */
  lemma ReservationShape(table: Table, buffers: map<nat, string>, base: Table, known: set<nat>,
                         mappings: Mappings, pipes: Pipes, files: Files, ids: map<string, nat>)
    requires Ledger(table, buffers, base, known, mappings, pipes, files, ids)
    requires pipes.Keys == mappings.Keys
    ensures forall name :: name in mappings ==>
              && mappings[name] in table && table[mappings[name]] == ReadSide(ids[name])
              && ids[name] !in known && mappings[name] !in base
              && pipes[name].writer in table && table[pipes[name].writer] == WriteSide(ids[name])
              && pipes[name].writer !in mappings.Values && pipes[name].writer !in base
    ensures forall a, b :: a in ids && b in ids && a != b ==> ids[a] != ids[b]
    ensures forall fd :: fd in base ==> fd in table && table[fd] == base[fd]
    ensures forall fd :: fd in table && fd !in base ==>
              fd in mappings.Values || exists name :: name in pipes && fd == pipes[name].writer
  {
    forall fd | fd in table && fd !in base
      ensures fd in mappings.Values || exists name :: name in pipes && fd == pipes[name].writer
    {
      var name := files[fd].name;
      assert name in pipes;
      if files[fd].end.ReadEnd? {
        assert fd == mappings[name];
      }
    }
  }

  /** After a successful fill each destination reads as exactly its secret, then end of file, and
      nothing but the destinations was left open. */
  lemma SecretsDelivered(table: Table, buffers: map<nat, string>, base: Table, known: set<nat>,
                         mappings: Mappings, pipes: Pipes, files: Files, ids: map<string, nat>,
                         values: string -> Option<string>)
    requires Holds(table, base, files, ids) && Owned(files, pipes, pipes.Keys)
    requires Buffered(buffers, ids, pipes.Keys, values) && LaidOut(pipes, mappings)
    requires pipes.Keys == mappings.Keys == ids.Keys && BaseKnown(base, known)
    requires forall name :: name in ids ==> ids[name] !in known
    ensures Delivered(table, buffers, base, mappings, ids, values)
  {
    forall name | name in mappings
      ensures ReadToEnd(table, buffers, ids[name]) == values(name)
    {
      forall fd | fd in table
        ensures table[fd].file != PipeEnd(ids[name], WriteEnd)
      {
        if fd in base {
          assert table[fd] == base[fd];
        } else {
          assert files[fd].name in pipes;
        }
      }
    }
    forall fd | fd in table && fd !in base
      ensures fd in mappings.Values
    {
      var name := files[fd].name;
      assert name in pipes && fd == mappings[name];
    }
  }

  ghost predicate Delivered(table: Table, buffers: map<nat, string>, base: Table, mappings: Mappings,
                            ids: map<string, nat>, values: string -> Option<string>) {
    && ids.Keys == mappings.Keys
    && (forall name :: name in mappings ==>
          && mappings[name] in table && table[mappings[name]] == ReadSide(ids[name])
          && ReadToEnd(table, buffers, ids[name]) == values(name) && values(name).Some?)
    && (forall fd :: fd in base ==> fd in table && table[fd] == base[fd])
    && (forall fd :: fd in table ==> fd in base || fd in mappings.Values)
  }

  lemma FreshIsEmpty(ids: map<string, nat>, known: set<nat>, buffers: map<nat, string>,
                     values: string -> Option<string>)
    requires FreshPipes(ids, known, buffers)
    ensures Buffered(buffers, ids, {}, values) && DistinctPipes(ids)
  {
  }

  lemma ValidMeansKnown(kernel: Kernel)
    requires kernel.Valid()
    ensures BaseKnown(kernel.table, kernel.buffers.Keys)
  {
  }

  /** The descriptors of `exec` up to the start of the target: reserved, approved, filled. */
  method Prepare(kernel: Kernel, mappings: Mappings, approved: bool, values: string -> Option<string>)
    returns (ok: bool, files: Files, ghost ids: map<string, nat>)
    requires kernel.Valid() && Injective(mappings)
    modifies kernel
    ensures kernel.Valid()
    ensures !ok ==> kernel.table == old(kernel.table)
    ensures !ok ==>
              || kernel.faults > old(kernel.faults) || Taken(mappings, old(kernel.table)) || !approved
              || Lacking(mappings.Keys, values)
    ensures ok ==> Delivered(kernel.table, kernel.buffers, old(kernel.table), mappings, ids, values)
  {
    ghost var base, known := kernel.table, kernel.buffers.Keys;
    ValidMeansKnown(kernel);
    var pipes;
    ok, pipes, files, ids := Reserve(kernel, mappings);
    if !ok {
      return;
    }
    if !approved {
      DropAll(kernel, files, base, ids);
      return false, files, ids;
    }
    FreshIsEmpty(ids, known, kernel.buffers, values);
    ok, files := Fill(kernel, pipes, files, values, base, ids);
    if ok {
      SecretsDelivered(kernel.table, kernel.buffers, base, known, mappings, pipes, files, ids, values);
    }
  }

  /** The descriptors that survive `exec`. */
  predicate Inherited(table: Table, fd: Fd) {
    fd in table && !table[fd].closeOnExec
  }

  /** The `pre_exec` loop, which clears close-on-exec on the destinations only. */
  method Expose(kernel: Kernel, mappings: Mappings) returns (ok: bool)
    requires kernel.Valid()
    modifies kernel`table, kernel`faults
    ensures kernel.Valid()
    ensures kernel.faults >= old(kernel.faults) && (!ok ==> kernel.faults > old(kernel.faults))
    ensures ok ==>
              && kernel.table.Keys == old(kernel.table.Keys)
              && (forall fd :: fd in kernel.table ==>
                    kernel.table[fd]
                    == if fd in mappings.Values then old(kernel.table[fd]).(closeOnExec := false)
                       else old(kernel.table[fd]))
  {
    var left := mappings.Values;
    ghost var done: set<Fd> := {};
    while left != {}
      invariant kernel.faults >= old(kernel.faults)
      invariant kernel.Valid() && done + left == mappings.Values && done !! left
      invariant kernel.table.Keys == old(kernel.table.Keys)
      invariant forall fd :: fd in kernel.table ==>
                  kernel.table[fd]
                  == if fd in done then old(kernel.table[fd]).(closeOnExec := false)
                     else old(kernel.table[fd])
      decreases |left|
    {
      var fd :| fd in left;
      ok := kernel.SetCloseOnExec(fd, false);
      if !ok {
        return;
      }
      left, done := left - {fd}, done + {fd};
    }
    ok := true;
  }

  /** The target inherits what it would have inherited anyway, plus exactly its destinations. */
  lemma TargetInherits(before: Table, after: Table, buffers: map<nat, string>, base: Table,
                       mappings: Mappings, ids: map<string, nat>, values: string -> Option<string>, fd: Fd)
    requires Delivered(before, buffers, base, mappings, ids, values)
    requires forall name :: name in mappings ==> mappings[name] !in base
    requires after.Keys == before.Keys
    requires forall x :: x in after ==>
               after[x] == if x in mappings.Values then before[x].(closeOnExec := false) else before[x]
    ensures Inherited(after, fd) <==> Inherited(base, fd) || fd in mappings.Values
    ensures forall name :: name in mappings ==> ReadToEnd(after, buffers, ids[name]) == values(name)
  {
    forall name | name in mappings
      ensures ReadToEnd(after, buffers, ids[name]) == values(name)
    {
      assert forall x :: x in after ==> after[x].file == before[x].file;
    }
    if fd in mappings.Values {
      var name :| name in mappings && mappings[name] == fd;
    }
  }
}
