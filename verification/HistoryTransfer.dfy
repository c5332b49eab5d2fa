/** The chunked transfer of the Authorization History (src/secrets.rs): `HistoryChunks` and the request
loop that drives it. Offsets and totals are unsigned 64-bit numbers. */
module HistoryTransfer {
  import opened Text

  const MAX_CHUNK: nat := 256 * 1024

  /** What `append` demands of a chunk. */
  predicate Fits(bytes: string, total: Option<nat>, offset: nat, announced: nat, chunk: string) {
    && chunk != "" && |chunk| <= MAX_CHUNK && offset == |bytes|
    && (total.Some? ==> total.value == announced)
    && offset + |chunk| < U64 && offset + |chunk| <= announced
  }

  datatype Progress = Refused | More | Complete

  class HistoryChunks {
    var bytes: string
    var total: Option<nat>

    constructor ()
      ensures bytes == "" && total == None
    {
      bytes, total := "", None;
    }

    /** Nothing beyond the announced total is ever held. */
    ghost predicate Valid()
      reads this
    {
      if total.None? then bytes == "" else |bytes| <= total.value < U64
    }

    /** `append`; `memory` says whether the buffer could grow. */
    method Append(offset: nat, announced: nat, chunk: string, memory: bool) returns (r: Progress)
      requires Valid() && offset < U64 && announced < U64
      modifies this
      ensures Valid()
      ensures total == old(total) || (old(total).None? && total == Some(announced))
      ensures r.Refused? ==> bytes == old(bytes)
      ensures r.Refused? <==> !(Fits(old(bytes), old(total), offset, announced, chunk) && memory)
      ensures !r.Refused? ==> bytes == old(bytes) + chunk && total == Some(announced)
      ensures r.Complete? <==> !r.Refused? && |bytes| == announced
    {
      var end := if offset + |chunk| < U64 then Some(offset + |chunk|) else None;
      if chunk == "" || |chunk| > MAX_CHUNK || offset != |bytes|
         || (total.Some? && total.value != announced) || end.None? || end.value > announced {
        return Refused;
      }
      total := Some(announced);
      if !memory {
        return Refused;
      }
      bytes := bytes + chunk;
      r := if end.value == announced then Complete else More;
    }
  }

  // ---------------------------------------------------------------- the request loop

  datatype Answer = NoReply | Failure | BadFields | Chunk(offset: nat, total: nat, bytes: string)

  /** The service: the answer to the request for `offset` in a given round. */
  type Server = (nat, nat) -> Answer

  predicate InRange(answer: Answer) {
    answer.Chunk? ==> answer.offset < U64 && answer.total < U64
  }

  function Joined(chunks: seq<string>): string {
    if chunks == [] then "" else Joined(chunks[..|chunks| - 1]) + chunks[|chunks| - 1]
  }

  /** `chunks` were given in answer to the first requests, each asking for where the last one ended, all
      announcing the same total. */
  ghost predicate Given(server: Server, chunks: seq<string>, total: nat) {
    forall k :: 0 <= k < |chunks| ==> GivenAt(server, chunks, total, k)
  }

  ghost predicate GivenAt(server: Server, chunks: seq<string>, total: nat, k: nat)
    requires k < |chunks|
  {
    var offset := |Joined(chunks[..k])|;
    chunks[k] != "" && |chunks[k]| <= MAX_CHUNK && server(k, offset) == Chunk(offset, total, chunks[k])
  }

  lemma {:induction false} EveryChunkCounts(chunks: seq<string>)
    requires forall k :: 0 <= k < |chunks| ==> chunks[k] != ""
    ensures |chunks| <= |Joined(chunks)|
  {
    if chunks != [] {
      EveryChunkCounts(chunks[..|chunks| - 1]);
    }
  }

  lemma GivenAdd(server: Server, chunks: seq<string>, total: nat, chunk: string)
    requires Given(server, chunks, total) && chunk != "" && |chunk| <= MAX_CHUNK
    requires server(|chunks|, |Joined(chunks)|) == Chunk(|Joined(chunks)|, total, chunk)
    ensures Given(server, chunks + [chunk], total)
    ensures Joined(chunks + [chunk]) == Joined(chunks) + chunk
  {
    var all := chunks + [chunk];
    assert all[..|chunks|] == chunks;
    forall k | 0 <= k < |all|
      ensures GivenAt(server, all, total, k)
    {
      if k < |chunks| {
        assert all[..k] == chunks[..k];
        assert GivenAt(server, chunks, total, k);
      }
    }
  }

  /** `value` is what the server gave in its first `rounds` answers, and all that it announced. */
  ghost predicate Assembled(server: Server, value: string, rounds: nat) {
    exists chunks: seq<string> ::
      Given(server, chunks, |value|) && Joined(chunks) == value && |chunks| == rounds
  }

  lemma AssembledFrom(server: Server, chunks: seq<string>, total: nat, value: string)
    requires Given(server, chunks, total) && Joined(chunks) == value && |value| == total
    ensures Assembled(server, value, |chunks|)
  {
  }

  /** How a transfer ends: all the chunks that were given fit, and there was memory for them. A value is
      what they make together, complete and text; without one, there is a reason. */
  ghost predicate Transferred(server: Server, memory: nat -> bool, value: Option<string>, rounds: nat,
                              chunks: seq<string>, total: nat) {
    && Given(server, chunks, total) && (chunks != [] ==> |Joined(chunks)| <= total)
    && (forall k :: 0 <= k < |chunks| ==> memory(k))
    && (value.Some? ==>
          && value.value == Joined(chunks) && |value.value| == total && total > 0
          && ValidUtf8(value.value) && rounds == |chunks|)
    && (value.None? ==>
          && Stuck(server, memory, chunks, total)
          && rounds == |chunks| + if chunks != [] && |Joined(chunks)| == total then 0 else 1)
  }

  /** The history request. A returned value is exactly the chunks given, ends exactly at the announced
      total, and took no more rounds than it has bytes. */
  method Transfer(server: Server, memory: nat -> bool)
    returns (value: Option<string>, rounds: nat, ghost chunks: seq<string>, ghost total: nat)
    requires forall k, offset :: InRange(server(k, offset))
    ensures Transferred(server, memory, value, rounds, chunks, total)
    ensures |chunks| <= |Joined(chunks)| && (value.Some? ==> rounds <= total)
    ensures value.Some? ==> Assembled(server, value.value, rounds)
  {
    value, rounds, chunks, total := Collect(server, memory);
    RoundsBounded(server, chunks, total);
    if value.Some? {
      AssembledFrom(server, chunks, total, value.value);
      if !ValidUtf8(value.value) {
        value := None;
      }
    }
  }

  /** Its loop, up to the complete bytes. */
  method Collect(server: Server, memory: nat -> bool)
    returns (bytes: Option<string>, rounds: nat, ghost chunks: seq<string>, ghost total: nat)
    requires forall k, offset :: InRange(server(k, offset))
    ensures Given(server, chunks, total) && (chunks != [] ==> |Joined(chunks)| <= total)
    ensures forall k :: 0 <= k < |chunks| ==> memory(k)
    ensures bytes.Some? ==> bytes.value == Joined(chunks) && |bytes.value| == total > 0 && rounds == |chunks|
    ensures bytes.None? ==> Stuck(server, memory, chunks, total) && rounds == |chunks| + 1
    ensures bytes.None? && chunks != [] ==> |Joined(chunks)| != total
  {
    var history := new HistoryChunks();
    rounds, chunks, total := 0, [], 0;
    while true
      invariant fresh(history) && history.Valid() && rounds == |chunks|
      invariant forall k :: 0 <= k < rounds ==> memory(k)
      invariant Progressing(server, chunks, total, history.bytes, history.total)
      invariant history.total.Some? ==> |history.bytes| < total
      decreases if history.total.None? then 2 * U64 else total - |history.bytes|
    {
      var progress;
      progress, chunks, total := Ask(history, server, memory, rounds, chunks, total);
      rounds := rounds + 1;
      if progress.Refused? {
        return None, rounds, chunks, total;
      }
      if progress.Complete? {
        return Some(history.bytes), rounds, chunks, total;
      }
    }
  }

  /** One round: a request for what is still missing, and the answer to it. */
  method Ask(history: HistoryChunks, server: Server, memory: nat -> bool, round: nat, ghost chunks: seq<string>,
             ghost total: nat)
    returns (r: Progress, ghost chunks': seq<string>, ghost total': nat)
    requires history.Valid() && round == |chunks|
    requires Progressing(server, chunks, total, history.bytes, history.total)
    requires history.total.Some? ==> |history.bytes| < total
    requires InRange(server(round, |history.bytes|))
    modifies history
    ensures history.Valid()
    ensures r.Refused? ==>
              && chunks' == chunks && total' == total && (chunks != [] ==> |Joined(chunks)| < total)
              && Given(server, chunks, total) && Stuck(server, memory, chunks, total)
    ensures !r.Refused? ==>
              && |chunks'| == round + 1 && memory(round) && history.total == Some(total')
              && Progressing(server, chunks', total', history.bytes, history.total)
              && old(|history.bytes|) < |history.bytes| <= total'
              && (old(history.total).Some? ==> total' == total)
              && (r.Complete? <==> |history.bytes| == total')
  {
    chunks', total' := chunks, total;
    var answer := server(round, |history.bytes|);
    if !answer.Chunk? || answer.bytes == "" || |answer.bytes| > MAX_CHUNK {
      RefusalSticks(server, memory, chunks, total);
      return Refused, chunks', total';
    }
    r := history.Append(answer.offset, answer.total, answer.bytes, memory(round));
    if r.Refused? {
      RefusalSticks(server, memory, chunks, total);
    } else {
      Accepted(server, chunks, total, answer);
      chunks', total' := chunks + [answer.bytes], answer.total;
    }
  }

  function Expected(chunks: seq<string>, total: nat): Option<nat> {
    if chunks == [] then None else Some(total)
  }

  /** What `HistoryChunks` holds after `chunks`. */
  ghost predicate Progressing(server: Server, chunks: seq<string>, total: nat, bytes: string, expected: Option<nat>) {
    Given(server, chunks, total) && bytes == Joined(chunks) && expected == Expected(chunks, total)
  }

  lemma Accepted(server: Server, chunks: seq<string>, total: nat, answer: Answer)
    requires Given(server, chunks, total) && answer.Chunk? && answer == server(|chunks|, |Joined(chunks)|)
    requires Fits(Joined(chunks), Expected(chunks, total), answer.offset, answer.total, answer.bytes)
    ensures Progressing(server, chunks + [answer.bytes], answer.total, Joined(chunks) + answer.bytes,
                        Some(answer.total))
  {
    if chunks == [] {
      assert Given(server, chunks, answer.total);
    }
    GivenAdd(server, chunks, answer.total, answer.bytes);
  }

  lemma NoneEmpty(server: Server, chunks: seq<string>, total: nat)
    requires Given(server, chunks, total)
    ensures forall k :: 0 <= k < |chunks| ==> chunks[k] != ""
  {
    forall k | 0 <= k < |chunks|
      ensures chunks[k] != ""
    {
      assert GivenAt(server, chunks, total, k);
    }
  }

  lemma RoundsBounded(server: Server, chunks: seq<string>, total: nat)
    requires Given(server, chunks, total)
    ensures |chunks| <= |Joined(chunks)|
  {
    NoneEmpty(server, chunks, total);
    EveryChunkCounts(chunks);
  }

  /** Why no value was returned after `chunks`: the next answer could not be used, or the bytes are
      complete but not text. */
  ghost predicate Stuck(server: Server, memory: nat -> bool, chunks: seq<string>, total: nat) {
    var bytes := Joined(chunks);
    var answer := server(|chunks|, |bytes|);
    if chunks != [] && |bytes| == total then !ValidUtf8(bytes)
    else
      || !answer.Chunk? || !memory(|chunks|)
      || !Fits(bytes, Expected(chunks, total), answer.offset, answer.total, answer.bytes)
  }

  lemma RefusalSticks(server: Server, memory: nat -> bool, chunks: seq<string>, total: nat)
    requires chunks != [] ==> |Joined(chunks)| != total
    requires var answer := server(|chunks|, |Joined(chunks)|);
             || !answer.Chunk? || !memory(|chunks|)
             || !Fits(Joined(chunks), Expected(chunks, total), answer.offset, answer.total, answer.bytes)
    ensures Stuck(server, memory, chunks, total)
  {
  }

  // ---------------------------------------------------------------- one snapshot

  /** The answer to a request for `offset` is the snapshot from there on, as far as it goes. */
  predicate SliceOf(answer: Answer, snapshot: string, offset: nat) {
    && answer.Chunk? && answer.offset == offset && answer.total == |snapshot|
    && answer.bytes != "" && |answer.bytes| <= MAX_CHUNK && offset + |answer.bytes| <= |snapshot|
    && answer.bytes == snapshot[offset..offset + |answer.bytes|]
  }

  /** A server that slices one snapshot, some bytes at a time. */
  ghost predicate Slices(server: Server, snapshot: string) {
    forall k, offset :: 0 <= offset < |snapshot| ==> SliceOf(server(k, offset), snapshot, offset)
  }

  lemma GivenInit(server: Server, snapshot: string, chunks: seq<string>, total: nat)
    requires Given(server, chunks, total) && chunks != []
    requires forall k :: 0 <= k < |chunks| ==> |Joined(chunks[..k])| < |snapshot|
    ensures var init := chunks[..|chunks| - 1];
            && Given(server, init, total)
            && (forall k :: 0 <= k < |init| ==> |Joined(init[..k])| < |snapshot|)
            && |Joined(init)| < |snapshot|
            && server(|init|, |Joined(init)|) == Chunk(|Joined(init)|, total, chunks[|init|])
  {
    var init := chunks[..|chunks| - 1];
    forall k | 0 <= k < |init|
      ensures GivenAt(server, init, total, k) && init[..k] == chunks[..k]
    {
      assert init[..k] == chunks[..k];
      assert GivenAt(server, chunks, total, k);
    }
    assert GivenAt(server, chunks, total, |init|);
  }

  lemma {:induction false} ChunksAreSnapshot(server: Server, snapshot: string, chunks: seq<string>, total: nat)
    requires Slices(server, snapshot) && Given(server, chunks, total)
    requires forall k :: 0 <= k < |chunks| ==> |Joined(chunks[..k])| < |snapshot|
    ensures Joined(chunks) <= snapshot
  {
    if chunks != [] {
      var init := chunks[..|chunks| - 1];
      GivenInit(server, snapshot, chunks, total);
      ChunksAreSnapshot(server, snapshot, init, total);
      NextSlice(server, snapshot, Joined(init), |init|, total, chunks[|init|]);
    }
  }

  lemma NextSlice(server: Server, snapshot: string, prefix: string, round: nat, total: nat, chunk: string)
    requires Slices(server, snapshot) && prefix <= snapshot && |prefix| < |snapshot|
    requires server(round, |prefix|) == Chunk(|prefix|, total, chunk)
    ensures prefix + chunk <= snapshot
  {
    assert SliceOf(server(round, |prefix|), snapshot, |prefix|);
    Extend(prefix, snapshot, chunk);
  }

  lemma Extend(prefix: string, snapshot: string, chunk: string)
    requires prefix <= snapshot && |prefix| + |chunk| <= |snapshot|
    requires chunk == snapshot[|prefix|..|prefix| + |chunk|]
    ensures prefix + chunk <= snapshot
  {
  }

  lemma {:induction false} JoinedGrows(chunks: seq<string>, k: nat)
    requires k <= |chunks| && forall i :: 0 <= i < |chunks| ==> chunks[i] != ""
    ensures |Joined(chunks[..k])| <= |Joined(chunks)|
    ensures k < |chunks| ==> |Joined(chunks[..k])| < |Joined(chunks)|
    decreases |chunks|
  {
    if k < |chunks| {
      var init := chunks[..|chunks| - 1];
      assert init[..k] == chunks[..k];
      JoinedGrows(init, k);
    } else {
      assert chunks[..k] == chunks;
    }
  }

  /** Against one snapshot the transfer returns that snapshot, unless memory runs out. */
  lemma SnapshotArrives(server: Server, snapshot: string, chunks: seq<string>, total: nat)
    requires Slices(server, snapshot) && Given(server, chunks, total)
    requires |Joined(chunks)| == total && total > 0 && |snapshot| < U64 && snapshot != ""
    ensures Joined(chunks) == snapshot
  {
    FirstAnnounces(server, snapshot, chunks, total);
    NoneEmpty(server, chunks, total);
    forall k | 0 <= k < |chunks|
      ensures |Joined(chunks[..k])| < |snapshot|
    {
      JoinedGrows(chunks, k);
    }
    ChunksAreSnapshot(server, snapshot, chunks, total);
  }

  lemma FirstAnnounces(server: Server, snapshot: string, chunks: seq<string>, total: nat)
    requires Slices(server, snapshot) && Given(server, chunks, total) && chunks != [] && snapshot != ""
    ensures total == |snapshot|
  {
    assert GivenAt(server, chunks, total, 0) && chunks[..0] == [];
    assert SliceOf(server(0, 0), snapshot, 0);
  }

  /** A transfer of one non-empty text snapshot stops early only for want of memory. */
  lemma SnapshotNeverStuck(server: Server, snapshot: string, memory: nat -> bool, chunks: seq<string>,
                           total: nat)
    requires Slices(server, snapshot) && Given(server, chunks, total) && snapshot != "" && |snapshot| < U64
    requires ValidUtf8(snapshot) && (chunks != [] ==> |Joined(chunks)| <= total)
    requires Stuck(server, memory, chunks, total) && (chunks == [] || |Joined(chunks)| < total)
    ensures !memory(|chunks|)
  {
    if chunks != [] {
      FirstAnnounces(server, snapshot, chunks, total);
    }
    var offset := |Joined(chunks)|;
    assert SliceOf(server(|chunks|, offset), snapshot, offset);
  }

  lemma FitsIn(server: Server, snapshot: string)
    requires Slices(server, snapshot) && snapshot != "" && forall k, offset :: InRange(server(k, offset))
    ensures |snapshot| < U64
  {
    assert SliceOf(server(0, 0), snapshot, 0) && InRange(server(0, 0));
  }

  /** A transfer of text that has all the memory it asks for. */
  lemma SnapshotTransferred(server: Server, snapshot: string, memory: nat -> bool, value: Option<string>,
                            rounds: nat, chunks: seq<string>, total: nat)
    requires Slices(server, snapshot) && snapshot != "" && |snapshot| < U64 && ValidUtf8(snapshot)
    requires Transferred(server, memory, value, rounds, chunks, total)
    requires forall k :: 0 <= k < rounds ==> memory(k)
    ensures value == Some(snapshot)
  {
    if value.None? {
      if chunks != [] && |Joined(chunks)| == total {
        FirstAnnounces(server, snapshot, chunks, total);
        SnapshotArrives(server, snapshot, chunks, total);
      } else {
        SnapshotNeverStuck(server, snapshot, memory, chunks, total);
      }
      assert false;
    }
    SnapshotArrives(server, snapshot, chunks, total);
  }

  /** Against a server that slices one snapshot, whatever it is, that snapshot is returned exactly when it
      is not empty, is text, and memory never runs out; and nothing else is returned in its place. */
  lemma SnapshotIff(server: Server, snapshot: string, memory: nat -> bool, value: Option<string>,
                    rounds: nat, chunks: seq<string>, total: nat)
    requires Slices(server, snapshot) && forall k, offset :: InRange(server(k, offset))
    requires Transferred(server, memory, value, rounds, chunks, total)
    ensures value == Some(snapshot)
            <==> snapshot != "" && ValidUtf8(snapshot) && forall k :: 0 <= k < rounds ==> memory(k)
    ensures snapshot != "" && value.Some? ==> value.value == snapshot
  {
    if snapshot != "" {
      FitsIn(server, snapshot);
      if value.Some? {
        SnapshotArrives(server, snapshot, chunks, total);
      } else if ValidUtf8(snapshot) && forall k :: 0 <= k < rounds ==> memory(k) {
        SnapshotTransferred(server, snapshot, memory, value, rounds, chunks, total);
      }
    }
  }

  /** A server that announces an empty history is refused in the first round. */
  lemma EmptyIsRefused(server: Server, memory: nat -> bool, value: Option<string>, rounds: nat,
                       chunks: seq<string>, total: nat)
    requires server(0, 0).Chunk? ==> server(0, 0).total == 0
    requires Transferred(server, memory, value, rounds, chunks, total)
    ensures value.None? && rounds == 1
  {
    if chunks != [] {
      assert GivenAt(server, chunks, total, 0) && chunks[..0] == [];
      RoundsBounded(server, chunks, total);
      assert false;
    }
  }
}
