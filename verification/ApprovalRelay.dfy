/** The rooms and revocations of the approval relay (src/approval_relay/main.rs) as a state machine.

Handlers run concurrently; one step of a handler is one lock section or one write to the revocation
file. A revocation is written as `writeln!` writes it: the identifier, then the newline, then a sync,
each of which may fail and between any two of which other handlers run, the process dies or power is
lost. A process that dies leaves the file as it is; a loss of power keeps what was synced and any
number of the writes after that. */
module ApprovalRelay {
  import opened Text
  import opened RelayFile

  // ---------------------------------------------------------------- handlers

  datatype Response = BadRequest | Unauthorized | Gone | Granted | NoContent | ServerError

  datatype Request =
    | Authorize(room: string, credential: Option<string>)
    | Revoke(room: string, credential: Option<string>)

  /** Where a handler is, between two of its steps. */
  datatype Handler =
    | AuthCheck(room: string, credential: Option<string>)
    | AuthEnter(room: string, token: string)
    | RevokeCheck(room: string, token: string)
    | RevokeLook(room: string, token: string)
    | RevokeWrite(room: string)
    | RevokeEnd(room: string)
    | RevokeSync(room: string)
    | RevokeInsert(room: string)
    | RevokeRemove(room: string)

  datatype State = State(
    up: bool,
    rooms: map<string, string>,
    revoked: set<string>,
    file: seq<Piece>,
    synced: nat,
    handlers: map<nat, Handler>,
    responses: seq<(nat, Response)>)

  const INITIAL := State(true, map[], {}, [], 0, map[], [])

  /** A request arrives, a handler takes its next step, the process is started again, or power is lost,
      of the file only the first `keep` writes remain, and the process is started again. */
  datatype Event =
    | Arrive(id: nat, request: Request)
    | Advance(handler: nat, ok: bool)
    | Restart
    | PowerLoss(keep: nat)

  function Reply(s: State, id: nat, response: Response): State {
    s.(handlers := s.handlers - {id}, responses := s.responses + [(id, response)])
  }

  function Continue(s: State, id: nat, handler: Handler): State {
    s.(handlers := s.handlers[id := handler])
  }

  function Begin(s: State, id: nat, request: Request): State {
    if !ValidIdentifier(request.room) then Reply(s, id, BadRequest)
    else
      match request
      case Authorize(room, credential) => Continue(s, id, AuthCheck(room, credential))
      case Revoke(room, credential) =>
        if credential.None? then Reply(s, id, Unauthorized)
        else Continue(s, id, RevokeCheck(room, credential.value))
  }

  function AdvanceHandler(s: State, id: nat, ok: bool): State
    requires id in s.handlers
  {
    match s.handlers[id]
    case AuthCheck(room, credential) =>
      if room in s.revoked then Reply(s, id, Gone)
      else if credential.None? then Reply(s, id, Unauthorized)
      else Continue(s, id, AuthEnter(room, credential.value))
    case AuthEnter(room, token) =>
      var entered := if room in s.rooms then s else s.(rooms := s.rooms[room := token]);
      Reply(entered, id, if entered.rooms[room] == token then Granted else Unauthorized)
    case RevokeCheck(room, token) =>
      if room in s.revoked then Reply(s, id, NoContent) else Continue(s, id, RevokeLook(room, token))
    case RevokeLook(room, token) =>
      if room in s.rooms && s.rooms[room] != token then Reply(s, id, Unauthorized)
      else Continue(s, id, RevokeWrite(room))
    case RevokeWrite(room) =>
      if ok then Continue(s.(file := s.file + [Id(room)]), id, RevokeEnd(room))
      else Reply(s, id, ServerError)
    case RevokeEnd(room) =>
      if ok then Continue(s.(file := s.file + [Newline]), id, RevokeSync(room))
      else Reply(s, id, ServerError)
    case RevokeSync(room) =>
      if ok then Continue(s.(synced := |s.file|), id, RevokeInsert(room)) else Reply(s, id, ServerError)
    case RevokeInsert(room) =>
      Continue(s.(revoked := s.revoked + {room}), id, RevokeRemove(room))
    case RevokeRemove(room) =>
      Reply(s.(rooms := s.rooms - {room}), id, NoContent)
  }

  /** A start reads the file back; it fails, and leaves the relay down, when the file is malformed. */
  function Start(s: State): State {
    match Load(Render(s.file))
    case Some(revoked) => State(true, map[], revoked, s.file, s.synced, map[], s.responses)
    case None => State(false, map[], {}, s.file, s.synced, map[], s.responses)
  }

  /** What a loss of power can leave of the file. */
  predicate CanRemain(s: State, keep: nat) {
    s.synced <= keep <= |s.file|
  }

  function Cut(s: State, keep: nat): State
    requires keep <= |s.file|
  {
    s.(file := s.file[..keep], synced := keep)
  }

  function Step(s: State, e: Event): State {
    match e
    case Restart => Start(s)
    case PowerLoss(keep) => if CanRemain(s, keep) then Start(Cut(s, keep)) else s
    case Arrive(id, request) => if s.up && id !in s.handlers then Begin(s, id, request) else s
    case Advance(id, ok) => if s.up && id in s.handlers then AdvanceHandler(s, id, ok) else s
  }

  function Run(s: State, events: seq<Event>): State {
    if events == [] then s else Step(Run(s, events[..|events| - 1]), events[|events| - 1])
  }

  // ---------------------------------------------------------------- every reachable state

  /** The last line has no newline yet. */
  predicate Torn(file: seq<Piece>) {
    file != [] && file[|file| - 1].Id?
  }

  lemma {:induction false} AlternatesSnoc(open: bool, pieces: seq<Piece>, piece: Piece)
    ensures Alternates(open, pieces + [piece])
            <==> Alternates(open, pieces) && piece.Id? != (if pieces == [] then open else Torn(pieces))
    decreases |pieces|
  {
    var all := pieces + [piece];
    if pieces == [] {
      assert all[1..] == [];
    } else {
      AlternatesSnoc(!open, pieces[1..], piece);
      assert all[1..] == pieces[1..] + [piece];
      if |pieces| > 1 {
        assert pieces[1..][|pieces| - 2] == pieces[|pieces| - 1];
      }
    }
  }

  lemma WrittenSnoc(pieces: seq<Piece>, piece: Piece)
    ensures Written(pieces + [piece]) == Written(pieces) + (if piece.Id? then {piece.room} else {})
  {
    var all := pieces + [piece];
    forall room | room in Written(pieces)
      ensures room in Written(all)
    {
      var i :| 0 <= i < |pieces| && pieces[i].Id? && pieces[i].room == room;
      assert all[i] == pieces[i];
    }
    if piece.Id? {
      assert all[|pieces|] == piece;
    }
  }

  lemma WrittenPrefix(pieces: seq<Piece>, j: nat, k: nat)
    requires j <= k <= |pieces|
    ensures Written(pieces[..j]) <= Written(pieces[..k])
  {
    forall room | room in Written(pieces[..j])
      ensures room in Written(pieces[..k])
    {
      var i :| 0 <= i < j && pieces[..j][i].Id? && pieces[..j][i].room == room;
      assert pieces[..k][i] == pieces[..j][i];
    }
  }

  lemma {:induction false} AlternatesPrefix(open: bool, pieces: seq<Piece>, n: nat)
    requires n <= |pieces| && Alternates(open, pieces)
    ensures Alternates(open, pieces[..n])
    decreases |pieces|
  {
    if n > 0 {
      AlternatesPrefix(!open, pieces[1..], n - 1);
      assert pieces[..n][1..] == pieces[1..][..n - 1];
    }
  }

  /** The identifiers that no loss of power takes away. */
  function Durable(s: State): set<string> {
    if s.synced <= |s.file| then Written(s.file[..s.synced]) else {}
  }

  /** A handler that has already written its identifier. */
  predicate PastWrite(h: Handler) {
    h.RevokeEnd? || h.RevokeSync? || PastSync(h)
  }

  /** A handler that has also synced it. */
  predicate PastSync(h: Handler) {
    h.RevokeInsert? || h.RevokeRemove?
  }

  /** The first piece that is out of order, if there is one, is an identifier. */
  ghost predicate IdentifierFirst(file: seq<Piece>) {
    forall k :: 0 <= k < |file| ==> InOrderAt(file, k)
  }

  ghost predicate InOrderAt(file: seq<Piece>, k: nat)
    requires k < |file|
  {
    Alternates(false, file[..k]) && !Alternates(false, file[..k + 1]) ==> file[k].Id?
  }

  /** What holds of the file and of the set in memory. */
  ghost predicate FileInv(s: State) {
    && ValidPieces(s.file) && IdentifierFirst(s.file) && s.synced <= |s.file|
    && s.revoked <= Written(s.file)
    && (s.revoked <= Durable(s) || Alternates(false, s.file[..s.synced]))
  }

  /** What holds of the handlers. */
  ghost predicate HandlersInv(s: State) {
    && (forall h :: h in s.handlers ==> ValidIdentifier(s.handlers[h].room))
    && (forall h :: h in s.handlers && PastWrite(s.handlers[h]) ==> s.handlers[h].room in Written(s.file))
    && (forall h :: h in s.handlers && PastSync(s.handlers[h]) ==> s.handlers[h].room in Durable(s))
    && (Alternates(false, s.file) ==>
          && (forall h :: h in s.handlers && s.handlers[h].RevokeEnd? ==> Torn(s.file))
          && (forall h, k :: h in s.handlers && k in s.handlers ==>
                s.handlers[h].RevokeEnd? && s.handlers[k].RevokeEnd? ==> h == k))
    && (!s.up ==> !Alternates(false, s.file) && s.handlers == map[])
  }

  ghost predicate Inv(s: State) {
    FileInv(s) && HandlersInv(s)
  }

  /** An identifier is about to be written onto a line that is still open. */
  predicate Overlaps(s: State, e: Event) {
    && e.Advance? && e.ok && s.up && e.handler in s.handlers
    && s.handlers[e.handler].RevokeWrite? && Torn(s.file)
  }

  lemma InvReply(s: State, id: nat, response: Response)
    requires Inv(s)
    ensures Inv(Reply(s, id, response))
  {
  }

  /** One more piece changes nothing that was durable. */
  lemma FileAppend(s: State, piece: Piece)
    requires FileInv(s) && (piece.Id? ==> ValidIdentifier(piece.room))
    requires piece.Id? || !Alternates(false, s.file) || Torn(s.file)
    ensures FileInv(s.(file := s.file + [piece])) && Durable(s.(file := s.file + [piece])) == Durable(s)
  {
    var all := s.file + [piece];
    WrittenSnoc(s.file, piece);
    assert all[..s.synced] == s.file[..s.synced];
    AlternatesSnoc(false, s.file, piece);
    forall k | 0 <= k < |all|
      ensures InOrderAt(all, k)
    {
      assert all[..k] == s.file[..k];
      if k < |s.file| {
        assert all[..k + 1] == s.file[..k + 1] && InOrderAt(s.file, k);
      } else {
        assert all[..k + 1] == all && s.file[..k] == s.file;
      }
    }
  }

  lemma InvWrite(s: State, id: nat)
    requires Inv(s) && s.up && id in s.handlers && s.handlers[id].RevokeWrite?
    ensures Inv(AdvanceHandler(s, id, true))
  {
    var piece := Id(s.handlers[id].room);
    FileAppend(s, piece);
    AlternatesSnoc(false, s.file, piece);
    WrittenSnoc(s.file, piece);
    var t := AdvanceHandler(s, id, true);
    assert t.file[|t.file| - 1] == piece;
  }

  lemma InvEnd(s: State, id: nat)
    requires Inv(s) && s.up && id in s.handlers && s.handlers[id].RevokeEnd?
    ensures Inv(AdvanceHandler(s, id, true))
  {
    FileAppend(s, Newline);
    AlternatesSnoc(false, s.file, Newline);
    WrittenSnoc(s.file, Newline);
    HandlersEnd(s, id);
  }

  lemma HandlersEnd(s: State, id: nat)
    requires HandlersInv(s) && s.up && id in s.handlers && s.handlers[id].RevokeEnd?
    requires Written(s.file + [Newline]) == Written(s.file)
    requires Durable(s.(file := s.file + [Newline])) == Durable(s)
    requires Alternates(false, s.file + [Newline]) ==> Alternates(false, s.file)
    ensures HandlersInv(AdvanceHandler(s, id, true))
  {
  }

  lemma InvContinue(s: State, id: nat, handler: Handler)
    requires Inv(s) && s.up && ValidIdentifier(handler.room) && !handler.RevokeEnd?
    requires PastWrite(handler) ==> handler.room in Written(s.file)
    requires PastSync(handler) ==> handler.room in Durable(s)
    ensures Inv(Continue(s, id, handler))
  {
  }

  lemma InvSync(s: State, id: nat)
    requires Inv(s) && s.up && id in s.handlers && s.handlers[id].RevokeSync?
    ensures Inv(AdvanceHandler(s, id, true))
  {
    assert s.file[..|s.file|] == s.file;
    WrittenPrefix(s.file, s.synced, |s.file|);
    InvContinue(s.(synced := |s.file|), id, RevokeInsert(s.handlers[id].room));
  }

  lemma InvInsert(s: State, id: nat)
    requires Inv(s) && s.up && id in s.handlers && s.handlers[id].RevokeInsert?
    ensures Inv(AdvanceHandler(s, id, true))
  {
    var room := s.handlers[id].room;
    InvContinue(s.(revoked := s.revoked + {room}), id, RevokeRemove(room));
  }

  lemma InvRooms(s: State, rooms: map<string, string>)
    requires Inv(s)
    ensures Inv(s.(rooms := rooms))
  {
  }

  /** The steps of a revocation that touch the file or the set. */
  lemma InvRevoke(s: State, id: nat, ok: bool)
    requires Inv(s) && s.up && id in s.handlers
    requires var h := s.handlers[id]; h.RevokeWrite? || h.RevokeEnd? || h.RevokeSync? || h.RevokeInsert?
    ensures Inv(AdvanceHandler(s, id, ok))
  {
    var h := s.handlers[id];
    if h.RevokeInsert? {
      InvInsert(s, id);
    } else if !ok {
      InvReply(s, id, ServerError);
    } else if h.RevokeWrite? {
      InvWrite(s, id);
    } else if h.RevokeEnd? {
      InvEnd(s, id);
    } else {
      InvSync(s, id);
    }
  }

  lemma InvRemove(s: State, id: nat, ok: bool)
    requires Inv(s) && s.up && id in s.handlers && s.handlers[id].RevokeRemove?
    ensures Inv(AdvanceHandler(s, id, ok))
  {
    var rooms := s.rooms - {s.handlers[id].room};
    InvRooms(s, rooms);
    InvReply(s.(rooms := rooms), id, NoContent);
  }

  /** The steps that only look. */
  lemma InvLook(s: State, id: nat, ok: bool)
    requires Inv(s) && s.up && id in s.handlers
    requires s.handlers[id].RevokeCheck? || s.handlers[id].RevokeLook?
    ensures Inv(AdvanceHandler(s, id, ok))
  {
    match s.handlers[id]
    case RevokeCheck(room, token) =>
      InvReply(s, id, NoContent);
      InvContinue(s, id, RevokeLook(room, token));
    case RevokeLook(room, _) =>
      InvReply(s, id, Unauthorized);
      InvContinue(s, id, RevokeWrite(room));
  }

  lemma InvEnter(s: State, id: nat, ok: bool)
    requires Inv(s) && s.up && id in s.handlers && s.handlers[id].AuthEnter?
    ensures Inv(AdvanceHandler(s, id, ok))
  {
    var AuthEnter(room, token) := s.handlers[id];
    var entered := if room in s.rooms then s else s.(rooms := s.rooms[room := token]);
    InvRooms(s, entered.rooms);
    InvReply(entered, id, if entered.rooms[room] == token then Granted else Unauthorized);
  }

  lemma InvAdvance(s: State, id: nat, ok: bool)
    requires Inv(s) && s.up && id in s.handlers
    ensures Inv(AdvanceHandler(s, id, ok))
  {
    var h := s.handlers[id];
    if h.AuthCheck? {
      InvAuthCheck(s, id, ok);
    } else if h.AuthEnter? {
      InvEnter(s, id, ok);
    } else if h.RevokeRemove? {
      InvRemove(s, id, ok);
    } else if h.RevokeCheck? || h.RevokeLook? {
      InvLook(s, id, ok);
    } else {
      InvRevoke(s, id, ok);
    }
  }

  lemma InvAuthCheck(s: State, id: nat, ok: bool)
    requires Inv(s) && s.up && id in s.handlers && s.handlers[id].AuthCheck?
    ensures Inv(AdvanceHandler(s, id, ok))
  {
    var AuthCheck(room, credential) := s.handlers[id];
    InvReply(s, id, Gone);
    InvReply(s, id, Unauthorized);
    if credential.Some? {
      InvContinue(s, id, AuthEnter(room, credential.value));
    }
  }

  lemma InvArrive(s: State, id: nat, request: Request)
    requires Inv(s) && s.up && id !in s.handlers
    ensures Inv(Begin(s, id, request))
  {
    InvReply(s, id, BadRequest);
    InvReply(s, id, Unauthorized);
    if ValidIdentifier(request.room) {
      InvContinue(s, id, AuthCheck(request.room, request.credential));
      if request.credential.Some? {
        InvContinue(s, id, RevokeCheck(request.room, request.credential.value));
      }
    }
  }

  lemma InvStart(s: State)
    requires ValidPieces(s.file) && IdentifierFirst(s.file) && s.synced <= |s.file|
    ensures Inv(Start(s))
  {
    LoadReadsWritten(s.file);
    if Alternates(false, s.file) {
      AlternatesPrefix(false, s.file, s.synced);
    }
  }

  lemma InvCut(s: State, keep: nat)
    requires FileInv(s) && keep <= |s.file|
    ensures var t := Cut(s, keep); ValidPieces(t.file) && IdentifierFirst(t.file) && t.synced <= |t.file|
  {
    var file := s.file[..keep];
    forall k | 0 <= k < keep
      ensures InOrderAt(file, k)
    {
      assert file[..k] == s.file[..k] && file[..k + 1] == s.file[..k + 1] && InOrderAt(s.file, k);
    }
  }

  lemma InvStep(s: State, e: Event)
    requires Inv(s)
    ensures Inv(Step(s, e))
  {
    match e
    case Restart =>
      InvStart(s);
    case PowerLoss(keep) =>
      if CanRemain(s, keep) {
        InvCut(s, keep);
        InvStart(Cut(s, keep));
      }
    case Arrive(id, request) =>
      if s.up && id !in s.handlers {
        InvArrive(s, id, request);
      }
    case Advance(id, ok) =>
      if s.up && id in s.handlers {
        InvAdvance(s, id, ok);
      }
  }

  /** The invariant of every reachable state: what is revoked in memory was written to the file first;
      what a revocation inserts, or is about to insert, was durable first. */
  lemma {:induction false} RunInv(events: seq<Event>)
    ensures Inv(Run(INITIAL, events))
  {
    if events != [] {
      RunInv(events[..|events| - 1]);
      InvStep(Run(INITIAL, events[..|events| - 1]), events[|events| - 1]);
    }
  }

  // ---------------------------------------------------------------- what is durable before it is in memory

  /** The revoked rooms that were read back by a start from beyond what had been synced, as long as no
      sync has covered them and no loss of power or other start has come since. */
  function Loose(events: seq<Event>): set<string> {
    if events == [] then {}
    else
      var s := Run(INITIAL, events[..|events| - 1]);
      var e := events[|events| - 1];
      if e.Restart? then (if Start(s).up then Written(s.file) - Durable(s) else {})
      else if e.PowerLoss? && CanRemain(s, e.keep) then {}
      else if Syncs(s, e) then {}
      else Loose(events[..|events| - 1])
  }

  predicate Syncs(s: State, e: Event) {
    e.Advance? && e.ok && s.up && e.handler in s.handlers && s.handlers[e.handler].RevokeSync?
  }

  /** What one step does to the rooms that are in memory and not durable. */
  lemma LooseStep(s: State, e: Event)
    requires Inv(s)
    ensures var t := Step(s, e);
            t.revoked - Durable(t)
            == if e.Restart? then (if Start(s).up then Written(s.file) - Durable(s) else {})
               else if (e.PowerLoss? && CanRemain(s, e.keep)) || Syncs(s, e) then {}
               else s.revoked - Durable(s)
  {
    if e.Restart? {
      LoadReadsWritten(s.file);
    } else if e.PowerLoss? && CanRemain(s, e.keep) {
      InvCut(s, e.keep);
      LoadReadsWritten(s.file[..e.keep]);
      assert s.file[..e.keep][..e.keep] == s.file[..e.keep];
    } else if e.Advance? && s.up && e.handler in s.handlers {
      LooseAdvance(s, e.handler, e.ok);
    }
  }

  lemma LooseAdvance(s: State, id: nat, ok: bool)
    requires FileInv(s) && id in s.handlers
    requires s.handlers[id].RevokeInsert? ==> s.handlers[id].room in Durable(s)
    ensures var t := AdvanceHandler(s, id, ok);
            t.revoked - Durable(t) == if ok && s.handlers[id].RevokeSync? then {} else s.revoked - Durable(s)
  {
    var h := s.handlers[id];
    if ok {
      if h.RevokeWrite? {
        assert (s.file + [Id(h.room)])[..s.synced] == s.file[..s.synced];
      } else if h.RevokeEnd? {
        assert (s.file + [Newline])[..s.synced] == s.file[..s.synced];
      } else if h.RevokeSync? {
        assert s.file[..|s.file|] == s.file;
      }
    }
  }

  /** Exactly which members are in memory and not durable in the file. */
  lemma {:induction false} LooseIsAll(events: seq<Event>)
    ensures Run(INITIAL, events).revoked - Durable(Run(INITIAL, events)) == Loose(events)
  {
    if events != [] {
      var init, e := events[..|events| - 1], events[|events| - 1];
      LooseIsAll(init);
      RunInv(init);
      LooseStep(Run(INITIAL, init), e);
    }
  }

  lemma NoDifference(a: set<string>, b: set<string>)
    ensures a - b == {} <==> a <= b
  {
    if a - b == {} {
      forall x | x in a
        ensures x in b
      {
        assert x in b || x in a - b;
      }
    }
  }

  /** Every member in memory is durable in the file if and only if no start has read back an identifier
      that was unsynced and still is. */
  lemma DurableBeforeMemory(events: seq<Event>)
    ensures Run(INITIAL, events).revoked <= Durable(Run(INITIAL, events)) <==> Loose(events) == {}
  {
    LooseIsAll(events);
    NoDifference(Run(INITIAL, events).revoked, Durable(Run(INITIAL, events)));
  }

  // ---------------------------------------------------------------- when the file can be read back

  /** The identifiers that share a line with the one before them. */
  function Collisions(file: seq<Piece>): set<nat> {
    set i: nat | i < |file| && Collides(file, i)
  }

  predicate Collides(file: seq<Piece>, i: nat) {
    0 < i < |file| && file[i].Id? && file[i - 1].Id?
  }

  /** The numbers of the pieces that were written onto an open line and are still in the file. */
  function Misplaced(events: seq<Event>): set<nat> {
    if events == [] then {}
    else
      var s := Run(INITIAL, events[..|events| - 1]);
      var e := events[|events| - 1];
      var before := Misplaced(events[..|events| - 1]);
      if Overlaps(s, e) then before + {|s.file|}
      else if e.PowerLoss? && CanRemain(s, e.keep) then set i | i in before && i < e.keep
      else before
  }

  lemma CollisionsSnoc(file: seq<Piece>, piece: Piece)
    ensures Collisions(file + [piece])
            == Collisions(file) + (if piece.Id? && Torn(file) then {|file|} else {})
  {
    var all := file + [piece];
    forall i: nat | i < |file|
      ensures Collides(all, i) == Collides(file, i)
    {
    }
    assert Collides(all, |file|) == (piece.Id? && Torn(file));
  }

  lemma CollisionsCut(file: seq<Piece>, keep: nat)
    requires keep <= |file|
    ensures Collisions(file[..keep]) == set i | i in Collisions(file) && i < keep
  {
    forall i: nat | i < keep
      ensures Collides(file[..keep], i) == Collides(file, i)
    {
    }
  }

  lemma CollisionsStep(s: State, e: Event)
    ensures Collisions(Step(s, e).file)
            == if Overlaps(s, e) then Collisions(s.file) + {|s.file|}
               else if e.PowerLoss? && CanRemain(s, e.keep) then set i | i in Collisions(s.file) && i < e.keep
               else Collisions(s.file)
  {
    if e.PowerLoss? && CanRemain(s, e.keep) {
      CollisionsCut(s.file, e.keep);
    } else if e.Advance? && s.up && e.handler in s.handlers {
      if s.handlers[e.handler].RevokeWrite? {
        CollisionsSnoc(s.file, Id(s.handlers[e.handler].room));
      } else if s.handlers[e.handler].RevokeEnd? {
        CollisionsSnoc(s.file, Newline);
      }
    }
  }

  /** What is out of place in the file is exactly what was written onto an open line and is still there. */
  lemma {:induction false} FileSound(events: seq<Event>)
    ensures Collisions(Run(INITIAL, events).file) == Misplaced(events)
  {
    if events != [] {
      FileSound(events[..|events| - 1]);
      CollisionsStep(Run(INITIAL, events[..|events| - 1]), events[|events| - 1]);
    }
  }

  /** The first piece out of order. */
  lemma {:induction false} FirstFault(file: seq<Piece>, n: nat) returns (k: nat)
    requires n <= |file| && !Alternates(false, file[..n])
    ensures k < n && Alternates(false, file[..k]) && !Alternates(false, file[..k + 1])
  {
    if Alternates(false, file[..n - 1]) {
      k := n - 1;
    } else {
      k := FirstFault(file, n - 1);
    }
  }

  lemma InOrderPlaces(file: seq<Piece>, i: nat)
    requires i < |file| && Alternates(false, file)
    ensures !Collides(file, i)
  {
    AlternatesPrefix(false, file, i + 1);
    TakeMore(file, i);
    AlternatesSnoc(false, file[..i], file[i]);
  }

  lemma OutOfOrderCollides(file: seq<Piece>) returns (k: nat)
    requires IdentifierFirst(file) && !Alternates(false, file)
    ensures k in Collisions(file)
  {
    assert file[..|file|] == file;
    k := FirstFault(file, |file|);
    assert InOrderAt(file, k);
    TakeMore(file, k);
    AlternatesSnoc(false, file[..k], file[k]);
    assert Collides(file, k);
  }

  lemma OrderIff(file: seq<Piece>)
    requires IdentifierFirst(file)
    ensures Alternates(false, file) <==> Collisions(file) == {}
  {
    if Alternates(false, file) {
      forall i: nat | i < |file|
        ensures !Collides(file, i)
      {
        InOrderPlaces(file, i);
      }
    } else {
      var k := OutOfOrderCollides(file);
    }
  }

  /** The relay can be started again exactly when nothing in the file was written onto an open line, and
      then it gets back every identifier in the file, hence every revocation in memory. */
  lemma ReloadIff(events: seq<Event>)
    ensures var s := Run(INITIAL, events);
            && (Load(Render(s.file)).Some? <==> Misplaced(events) == {})
            && (Misplaced(events) == {} ==>
                  Load(Render(s.file)) == Some(Written(s.file)) && s.revoked <= Written(s.file))
  {
    RunInv(events);
    FileSound(events);
    OrderIff(Run(INITIAL, events).file);
    LoadReadsWritten(Run(INITIAL, events).file);
  }

  // ---------------------------------------------------------------- revocation is for ever

  /** The relay refuses the room, or is not there to answer. */
  predicate Refused(s: State, room: string) {
    s.up ==> room in s.revoked
  }

  predicate PowerStays(events: seq<Event>) {
    forall i :: 0 <= i < |events| ==> !events[i].PowerLoss?
  }

  lemma StartRefuses(s: State, room: string)
    requires ValidPieces(s.file) && room in Written(s.file)
    ensures Refused(Start(s), room)
  {
    LoadReadsWritten(s.file);
  }

  lemma RefusedStep(s: State, e: Event, room: string)
    requires Inv(s) && Refused(s, room) && (room in Durable(s) || !e.PowerLoss?)
    ensures Refused(Step(s, e), room)
  {
    if e.Restart? {
      LoadReadsWritten(s.file);
    } else if e.PowerLoss? && CanRemain(s, e.keep) {
      WrittenPrefix(s.file, s.synced, e.keep);
      StartRefuses(Cut(s, e.keep), room);
    }
  }

  lemma DurableStep(s: State, e: Event, room: string)
    requires Inv(s) && room in Durable(s)
    ensures room in Durable(Step(s, e))
  {
    if e.PowerLoss? && CanRemain(s, e.keep) {
      WrittenPrefix(s.file, s.synced, e.keep);
      assert s.file[..e.keep][..e.keep] == s.file[..e.keep];
    } else if e.Advance? && s.up && e.handler in s.handlers {
      DurableAdvance(s, e.handler, e.ok, room);
    }
  }

  lemma DurableAdvance(s: State, id: nat, ok: bool, room: string)
    requires id in s.handlers && s.synced <= |s.file| && room in Durable(s)
    ensures room in Durable(AdvanceHandler(s, id, ok))
  {
    var h := s.handlers[id];
    if ok {
      if h.RevokeWrite? {
        assert (s.file + [Id(h.room)])[..s.synced] == s.file[..s.synced];
      } else if h.RevokeEnd? {
        assert (s.file + [Newline])[..s.synced] == s.file[..s.synced];
      } else if h.RevokeSync? {
        WrittenPrefix(s.file, s.synced, |s.file|);
      }
    }
  }

  /** The conditions under which a revocation lasts. */
  predicate Lasts(s: State, room: string, more: seq<Event>) {
    room in Durable(s) || PowerStays(more)
  }

  lemma LastsInit(s: State, room: string, more: seq<Event>)
    requires more != [] && Lasts(s, room, more)
    ensures Lasts(s, room, more[..|more| - 1]) && (room in Durable(s) || !more[|more| - 1].PowerLoss?)
  {
  }

  lemma RunMore(events: seq<Event>, more: seq<Event>)
    requires more != []
    ensures Run(INITIAL, events + more)
            == Step(Run(INITIAL, events + more[..|more| - 1]), more[|more| - 1])
  {
    assert (events + more)[..|events + more| - 1] == events + more[..|more| - 1];
  }

  lemma {:induction false} DurableForever(events: seq<Event>, more: seq<Event>, room: string)
    requires room in Durable(Run(INITIAL, events))
    ensures room in Durable(Run(INITIAL, events + more))
    decreases |more|
  {
    if more == [] {
      assert events + more == events;
    } else {
      var init, last := more[..|more| - 1], more[|more| - 1];
      DurableForever(events, init, room);
      RunInv(events + init);
      DurableStep(Run(INITIAL, events + init), last, room);
      RunMore(events, more);
    }
  }

  /** A revoked room stays refused over every crash when it is durable, and over every crash of the
      process in any case. */
  lemma {:induction false} RefusedForever(events: seq<Event>, more: seq<Event>, room: string)
    requires room in Run(INITIAL, events).revoked && Lasts(Run(INITIAL, events), room, more)
    ensures Refused(Run(INITIAL, events + more), room)
    decreases |more|
  {
    if more == [] {
      assert events + more == events;
    } else {
      var init, last := more[..|more| - 1], more[|more| - 1];
      LastsInit(Run(INITIAL, events), room, more);
      RefusedForever(events, init, room);
      RunInv(events + init);
      if room in Durable(Run(INITIAL, events)) {
        DurableForever(events, init, room);
      }
      RefusedStep(Run(INITIAL, events + init), last, room);
      RunMore(events, more);
    }
  }

  /** Any authorization whose revoked check comes after the insertion is answered GONE, whatever
      happened in between, crashes included. */
  lemma GoneAfterRevocation(events: seq<Event>, more: seq<Event>, room: string, id: nat, ok: bool)
    requires room in Run(INITIAL, events).revoked && Lasts(Run(INITIAL, events), room, more)
    requires var s := Run(INITIAL, events + more);
             s.up && id in s.handlers && s.handlers[id].AuthCheck? && s.handlers[id].room == room
    ensures var s := Run(INITIAL, events + more);
            Step(s, Advance(id, ok)) == Reply(s, id, Gone)
  {
    RefusedForever(events, more, room);
  }

  /** What a revocation inserts is durable, so it is refused for ever. */
  lemma InsertedForever(events: seq<Event>, id: nat, ok: bool, more: seq<Event>)
    requires var s := Run(INITIAL, events); s.up && id in s.handlers && s.handlers[id].RevokeInsert?
    ensures var room := Run(INITIAL, events).handlers[id].room;
            Refused(Run(INITIAL, events + [Advance(id, ok)] + more), room)
  {
    var s := Run(INITIAL, events);
    RunInv(events);
    RunSnoc(INITIAL, events, Advance(id, ok));
    RefusedForever(events + [Advance(id, ok)], more, s.handlers[id].room);
  }

  /** Among revoked rooms, exactly the durable ones are refused whatever happens. */
  lemma DurableIff(events: seq<Event>, room: string)
    requires var s := Run(INITIAL, events); s.up && room in s.revoked
    ensures room in Durable(Run(INITIAL, events))
            <==> forall more :: Refused(Run(INITIAL, events + more), room)
  {
    var s := Run(INITIAL, events);
    RunInv(events);
    if room in Durable(s) {
      forall more
        ensures Refused(Run(INITIAL, events + more), room)
      {
        RefusedForever(events, more, room);
      }
    } else {
      Forgets(s, room);
      RunSnoc(INITIAL, events, PowerLoss(s.synced));
      assert !Refused(Run(INITIAL, events + [PowerLoss(s.synced)]), room);
    }
  }

  /** A loss of power right after what was synced forgets the rest. */
  lemma Forgets(s: State, room: string)
    requires Inv(s) && s.up && room in s.revoked && room !in Durable(s)
    ensures !Refused(Step(s, PowerLoss(s.synced)), room)
  {
    var t := Cut(s, s.synced);
    InvCut(s, s.synced);
    LoadReadsWritten(t.file);
  }

  // ---------------------------------------------------------------- rooms

  lemma CredentialStep(s: State, e: Event, room: string)
    requires room in s.rooms && room in Step(s, e).rooms
    ensures Step(s, e).rooms[room] == s.rooms[room]
  {
  }

  /** As long as an entry exists its credential is the one it was created with. */
  lemma {:induction false} CredentialFixed(s: State, events: seq<Event>, room: string)
    requires forall n :: 0 <= n <= |events| ==> room in Run(s, events[..n]).rooms
    ensures room in s.rooms && room in Run(s, events).rooms && Run(s, events).rooms[room] == s.rooms[room]
  {
    assert events[..|events|] == events;
    assert Run(s, events[..0]) == s;
    if events != [] {
      var init := events[..|events| - 1];
      forall n | 0 <= n <= |init|
        ensures room in Run(s, init[..n]).rooms
      {
        assert init[..n] == events[..n];
      }
      CredentialFixed(s, init, room);
      CredentialStep(Run(s, init), events[|events| - 1], room);
    }
  }

  /** No entry, and no authorization past its check that could still make one. */
  ghost predicate Vacated(s: State, room: string) {
    s.up ==>
      && room in s.revoked && room !in s.rooms
      && forall h :: h in s.handlers && s.handlers[h].AuthEnter? ==> s.handlers[h].room != room
  }

  lemma VacatedStep(s: State, e: Event, room: string)
    requires Inv(s) && Vacated(s, room) && (room in Durable(s) || !e.PowerLoss?)
    ensures Vacated(Step(s, e), room)
  {
    RefusedStep(s, e, room);
    if e.Advance? && s.up && e.handler in s.handlers {
      VacatedAdvance(s, e.handler, e.ok, room);
    }
  }

  lemma VacatedAdvance(s: State, id: nat, ok: bool, room: string)
    requires s.up && id in s.handlers && Vacated(s, room)
    ensures Vacated(AdvanceHandler(s, id, ok), room)
  {
  }

  /** Once the authorizations that were past their check are done and the entry is gone, a revoked room
      never has an entry again. */
  lemma {:induction false} VacatedForever(events: seq<Event>, more: seq<Event>, room: string)
    requires Vacated(Run(INITIAL, events), room) && Lasts(Run(INITIAL, events), room, more)
    ensures Vacated(Run(INITIAL, events + more), room)
    decreases |more|
  {
    if more == [] {
      assert events + more == events;
    } else {
      var init, last := more[..|more| - 1], more[|more| - 1];
      LastsInit(Run(INITIAL, events), room, more);
      VacatedForever(events, init, room);
      RunInv(events + init);
      if room in Durable(Run(INITIAL, events)) {
        DurableForever(events, init, room);
      }
      VacatedStep(Run(INITIAL, events + init), last, room);
      RunMore(events, more);
    }
  }

  lemma {:induction false} DownHasNoRooms(events: seq<Event>)
    ensures !Run(INITIAL, events).up ==> Run(INITIAL, events).rooms == map[]
  {
    if events != [] {
      DownHasNoRooms(events[..|events| - 1]);
    }
  }

  /** A revoked room that is not vacated has an entry now or after one step of some handler. */
  lemma NotVacated(s: State, room: string) returns (more: seq<Event>)
    requires s.up && room in s.revoked && !Vacated(s, room)
    ensures room in Run(s, more).rooms
  {
    if room in s.rooms {
      more := [];
    } else {
      var h :| h in s.handlers && s.handlers[h].AuthEnter? && s.handlers[h].room == room;
      more := [Advance(h, true)];
      RunOne(s, Advance(h, true));
    }
  }

  /** A room that is not revoked gets an entry in three steps. */
  function ToEntry(h: nat, room: string): seq<Event> {
    [Arrive(h, Authorize(room, Some("")))] + [Advance(h, true)] + [Advance(h, true)]
  }

  lemma ReachesEntry(s: State, h: nat, room: string)
    requires s.up && h !in s.handlers && ValidIdentifier(room) && room !in s.revoked
    ensures room in Run(s, ToEntry(h, room)).rooms
  {
    var e1 := Arrive(h, Authorize(room, Some("")));
    var e2 := Advance(h, true);
    RunOne(s, e1);
    RunSnoc(s, [e1], e2);
    RunSnoc(s, [e1] + [e2], e2);
    var s1 := Step(s, e1);
    var s2 := Step(s1, e2);
    assert s2.handlers[h] == AuthEnter(room, "");
  }

  lemma WrittenIsValid(pieces: seq<Piece>, room: string)
    requires ValidPieces(pieces) && room in Written(pieces)
    ensures ValidIdentifier(room)
  {
  }

  /** A room whose revocation a loss of power takes away gets an entry afterwards. */
  lemma ForgottenEnters(s: State, room: string)
    requires Inv(s) && s.up && room in s.revoked && room !in Durable(s)
    ensures room in Run(s, [PowerLoss(s.synced)] + ToEntry(0, room)).rooms
  {
    var e := PowerLoss(s.synced);
    Forgets(s, room);
    WrittenIsValid(s.file, room);
    RunOne(s, e);
    var t := Step(s, e);
    assert t == Start(Cut(s, s.synced)) && t.handlers == map[];
    ReachesEntry(t, 0, room);
    RunConcat(s, [e], ToEntry(0, room));
  }

  /** Exactly when a revoked room never has an entry again: no authorization can still make one, and no
      loss of power can take the revocation away. */
  lemma VacatedIff(events: seq<Event>, room: string)
    requires var s := Run(INITIAL, events); s.up && room in s.revoked
    ensures Vacated(Run(INITIAL, events), room) && room in Durable(Run(INITIAL, events))
            <==> forall more :: room !in Run(INITIAL, events + more).rooms
  {
    var s := Run(INITIAL, events);
    RunInv(events);
    if Vacated(s, room) && room in Durable(s) {
      forall more
        ensures room !in Run(INITIAL, events + more).rooms
      {
        VacatedForever(events, more, room);
        DownHasNoRooms(events + more);
      }
    } else {
      var more;
      if Vacated(s, room) {
        ForgottenEnters(s, room);
        more := [PowerLoss(s.synced)] + ToEntry(0, room);
      } else {
        more := NotVacated(s, room);
      }
      RunConcat(INITIAL, events, more);
      assert room in Run(INITIAL, events + more).rooms;
    }
  }

  // ---------------------------------------------------------------- what does not hold

  lemma RunSnoc(s: State, events: seq<Event>, e: Event)
    ensures Run(s, events + [e]) == Step(Run(s, events), e)
  {
    assert (events + [e])[..|events|] == events;
  }

  lemma RunOne(s: State, e: Event)
    ensures Run(s, [e]) == Step(s, e)
  {
    assert [e][..0] == [];
  }

  lemma {:induction false} RunConcat(s: State, a: seq<Event>, b: seq<Event>)
    ensures Run(s, a + b) == Run(Run(s, a), b)
    decreases |b|
  {
    if b == [] {
      assert a + b == a;
    } else {
      RunConcat(s, a, b[..|b| - 1]);
      assert (a + b)[..|a + b| - 1] == a + b[..|b| - 1];
    }
  }

  /** From arrival to the write of the identifier. */
  function ToWrite(h: nat, room: string, token: string): seq<Event> {
    [Arrive(h, Revoke(room, Some(token))), Advance(h, true), Advance(h, true)]
  }

  lemma ReachesWrite(s: State, h: nat, room: string, token: string)
    requires s.up && h !in s.handlers && ValidIdentifier(room) && room !in s.revoked
    requires room in s.rooms ==> s.rooms[room] == token
    ensures Run(s, ToWrite(h, room, token)) == s.(handlers := s.handlers[h := RevokeWrite(room)])
  {
    var s1 := Step(s, Arrive(h, Revoke(room, Some(token))));
    var s2 := Step(s1, Advance(h, true));
    var s3 := Step(s2, Advance(h, true));
    var e1: Event := Arrive(h, Revoke(room, Some(token)));
    RunOne(s, e1);
    RunSnoc(s, [e1], Advance(h, true));
    RunSnoc(s, [e1] + [Advance(h, true)], Advance(h, true));
    assert [e1] + [Advance(h, true)] + [Advance(h, true)] == ToWrite(h, room, token);
    assert s3.handlers == s.handlers[h := RevokeWrite(room)];
  }

  /** Two revocations whose writes interleave leave a file that no start accepts. */
  lemma OverlapSpoilsFile(a: string, b: string, token: string)
    requires ValidIdentifier(a) && ValidIdentifier(b)
    ensures var events := ToWrite(0, a, token) + ToWrite(1, b, token) + [Advance(0, true)] + [Advance(1, true)];
            Misplaced(events) != {} && Load(Render(Run(INITIAL, events).file)).None?
  {
    var e1, e2 := ToWrite(0, a, token), ToWrite(1, b, token);
    ReachesWrite(INITIAL, 0, a, token);
    var s1 := Run(INITIAL, e1);
    ReachesWrite(s1, 1, b, token);
    RunConcat(INITIAL, e1, e2);
    var s2 := Run(INITIAL, e1 + e2);
    RunSnoc(INITIAL, e1 + e2, Advance(0, true));
    var s3 := Step(s2, Advance(0, true));
    assert s3.file == [] + [Id(a)];
    assert Overlaps(s3, Advance(1, true));
    var before := e1 + e2 + [Advance(0, true)];
    assert (before + [Advance(1, true)])[..|before|] == before;
    ReloadIff(e1 + e2 + [Advance(0, true)] + [Advance(1, true)]);
  }

  /** From the write of the identifier to the end of the revocation. */
  function ToEnd(h: nat): seq<Event> {
    [Advance(h, true)] + [Advance(h, true)] + [Advance(h, true)] + [Advance(h, true)] + [Advance(h, true)]
  }

  lemma FiveSteps(s: State, e: Event)
    ensures Run(s, [e] + [e] + [e] + [e] + [e]) == Step(Step(Step(Step(Step(s, e), e), e), e), e)
  {
    RunOne(s, e);
    RunSnoc(s, [e], e);
    RunSnoc(s, [e] + [e], e);
    RunSnoc(s, [e] + [e] + [e], e);
    RunSnoc(s, [e] + [e] + [e] + [e], e);
  }

  lemma ReachesInsert(s: State, h: nat, room: string)
    requires s.up && h in s.handlers && s.handlers[h] == RevokeWrite(room)
    ensures var e := Advance(h, true);
            var t := Step(Step(Step(s, e), e), e);
            && t.up && t.rooms == s.rooms && t.handlers == s.handlers[h := RevokeInsert(room)]
  {
    var e := Advance(h, true);
    var s1 := Step(s, e);
    var s2 := Step(s1, e);
    assert s1.handlers[h] == RevokeEnd(room) && s2.handlers[h] == RevokeSync(room);
  }

  lemma ReachesEnd(s: State, h: nat, room: string)
    requires s.up && h in s.handlers && s.handlers[h] == RevokeWrite(room)
    ensures var t := Run(s, ToEnd(h));
            && t.up && room in t.revoked && t.rooms == s.rooms - {room}
            && t.handlers == s.handlers - {h}
  {
    var e := Advance(h, true);
    FiveSteps(s, e);
    ReachesInsert(s, h, room);
    InsertsAndRemoves(s, Step(Step(Step(s, e), e), e), h, room);
  }

  lemma InsertsAndRemoves(s: State, t: State, h: nat, room: string)
    requires t.up && t.rooms == s.rooms && t.handlers == s.handlers[h := RevokeInsert(room)]
    ensures var u := Step(Step(t, Advance(h, true)), Advance(h, true));
            && u.up && room in u.revoked && u.rooms == s.rooms - {room} && u.handlers == s.handlers - {h}
  {
    assert Step(t, Advance(h, true)).handlers[h] == RevokeRemove(room);
  }

  /** An authorization past its check can create an entry for a room that is already revoked. */
  lemma EntryAfterRevocation(room: string, token: string)
    requires ValidIdentifier(room)
    ensures exists events :: var s := Run(INITIAL, events); room in s.revoked && room in s.rooms
  {
    var start := [Arrive(0, Authorize(room, Some(token)))] + [Advance(0, true)];
    RunOne(INITIAL, Arrive(0, Authorize(room, Some(token))));
    RunSnoc(INITIAL, [Arrive(0, Authorize(room, Some(token)))], Advance(0, true));
    var s1 := Run(INITIAL, start);
    assert s1.handlers[0] == AuthEnter(room, token);
    var w := ToWrite(1, room, token);
    ReachesWrite(s1, 1, room, token);
    RunConcat(INITIAL, start, w);
    var s2 := Run(INITIAL, start + w);
    ReachesEnd(s2, 1, room);
    RunConcat(INITIAL, start + w, ToEnd(1));
    var s3 := Run(INITIAL, start + w + ToEnd(1));
    RunSnoc(INITIAL, start + w + ToEnd(1), Advance(0, true));
    assert s3.handlers[0] == AuthEnter(room, token);
  }

  /** A process that dies between write and sync reloads a revocation that was never durable, and a loss
      of power then takes it back. */
  lemma ReloadedThenForgotten(room: string, token: string)
    requires ValidIdentifier(room)
    ensures var events := ToWrite(0, room, token) + [Advance(0, true)] + [Restart];
            && room in Run(INITIAL, events).revoked && room !in Durable(Run(INITIAL, events))
            && !Refused(Run(INITIAL, events + [PowerLoss(0)]), room)
  {
    var w := ToWrite(0, room, token);
    ReachesWrite(INITIAL, 0, room, token);
    RunSnoc(INITIAL, w, Advance(0, true));
    var s1 := Run(INITIAL, w + [Advance(0, true)]);
    assert s1.file == [] + [Id(room)];
    RunSnoc(INITIAL, w + [Advance(0, true)], Restart);
    LoadReadsWritten(s1.file);
    assert s1.file[0] == Id(room);
    var events := w + [Advance(0, true)] + [Restart];
    var s2 := Run(INITIAL, events);
    assert s2.file[..0] == [];
    RunInv(events);
    Forgets(s2, room);
    RunSnoc(INITIAL, events, PowerLoss(0));
  }

  // ---------------------------------------------------------------- answers

  /** The step of a handler that answers is its last, and says this. */
  predicate Answers(s: State, t: State, id: nat, response: Response) {
    t.responses == s.responses + [(id, response)] && t.handlers == s.handlers - {id}
  }

  /** Past its checks, an authorization is granted exactly when the room has an entry after the step and the
      entry has the credential that was presented; otherwise it is unauthorized and changes nothing. */
  lemma GrantedStep(s: State, id: nat, ok: bool, room: string, token: string)
    requires s.up && id in s.handlers && s.handlers[id] == AuthEnter(room, token)
    ensures var t := Step(s, Advance(id, ok));
            && (Answers(s, t, id, Granted) <==> room in t.rooms && t.rooms[room] == token)
            && (!Answers(s, t, id, Granted) ==> Answers(s, t, id, Unauthorized) && t.rooms == s.rooms)
            && (room in s.rooms ==> t.rooms == s.rooms)
            && (room !in s.rooms ==> t.rooms == s.rooms[room := token])
            && t.file == s.file && t.revoked == s.revoked && t.synced == s.synced
  {
    assert (id, Granted) != (id, Unauthorized);
    assert (s.responses + [(id, Granted)])[|s.responses|] == (id, Granted);
    assert (s.responses + [(id, Unauthorized)])[|s.responses|] == (id, Unauthorized);
  }

  /** What a handler keeps of the request that it serves. */
  predicate Serves(h: Handler, request: Request) {
    h.room == request.room
    && match h
       case AuthCheck(_, credential) => request.Authorize? && request.credential == credential
       case AuthEnter(_, token) => request.Authorize? && request.credential == Some(token)
       case RevokeCheck(_, token) => request.Revoke? && request.credential == Some(token)
       case RevokeLook(_, token) => request.Revoke? && request.credential == Some(token)
       case _ => request.Revoke?
  }

  /** The request that a handler serves is the last one that arrived under its number. */
  ghost predicate Arrived(events: seq<Event>, id: nat, n: nat) {
    n < |events| && events[n].Arrive? && events[n].id == id && HeldSince(Holding(id), events, n)
  }

  ghost function Holding(id: nat): seq<Event> -> bool {
    events => id in Run(INITIAL, events).handlers
  }

  /** Something holds after `events[n]` and ever since, and did not hold before. */
  ghost predicate HeldSince(holds: seq<Event> -> bool, events: seq<Event>, n: nat) {
    n < |events| && !holds(events[..n]) && forall m :: n < m <= |events| ==> holds(events[..m])
  }

  lemma ServesStep(s: State, e: Event, id: nat, request: Request)
    requires id in s.handlers && id in Step(s, e).handlers && Serves(s.handlers[id], request)
    ensures Serves(Step(s, e).handlers[id], request)
  {
    if e.Advance? && e.handler == id && s.up {
      ServesAdvance(s, id, e.ok, request);
    } else {
      assert Step(s, e).handlers[id] == s.handlers[id];
    }
  }

  lemma ServesAdvance(s: State, id: nat, ok: bool, request: Request)
    requires id in s.handlers && id in AdvanceHandler(s, id, ok).handlers && Serves(s.handlers[id], request)
    ensures Serves(AdvanceHandler(s, id, ok).handlers[id], request)
  {
  }

  lemma ServesArrival(s: State, e: Event, id: nat)
    requires id !in s.handlers && id in Step(s, e).handlers
    ensures e.Arrive? && e.id == id && Serves(Step(s, e).handlers[id], e.request)
  {
  }

  /** Every handler serves a request that arrived, under the credential that came with it. */
  lemma {:induction false} HandlerServes(events: seq<Event>, id: nat) returns (n: nat)
    requires id in Run(INITIAL, events).handlers
    ensures Arrived(events, id, n) && Serves(Run(INITIAL, events).handlers[id], events[n].request)
  {
    var init, e := events[..|events| - 1], events[|events| - 1];
    if id in Run(INITIAL, init).handlers {
      n := HandlerServes(init, id);
      ServesStep(Run(INITIAL, init), e, id, init[n].request);
      ArrivedStill(events, id, n);
    } else {
      n := |events| - 1;
      ServesArrival(Run(INITIAL, init), e, id);
      JustArrived(events, id);
    }
  }

  lemma ArrivedStill(events: seq<Event>, id: nat, n: nat)
    requires events != [] && Arrived(events[..|events| - 1], id, n) && id in Run(INITIAL, events).handlers
    ensures Arrived(events, id, n)
  {
    StillHeld(Holding(id), events, n);
  }

  lemma JustArrived(events: seq<Event>, id: nat)
    requires events != [] && events[|events| - 1].Arrive? && events[|events| - 1].id == id
    requires id !in Run(INITIAL, events[..|events| - 1]).handlers && id in Run(INITIAL, events).handlers
    ensures Arrived(events, id, |events| - 1)
  {
    assert events[..|events|] == events;
  }

  lemma StillHeld(holds: seq<Event> -> bool, events: seq<Event>, n: nat)
    requires events != [] && HeldSince(holds, events[..|events| - 1], n) && holds(events)
    ensures HeldSince(holds, events, n)
  {
    var init := events[..|events| - 1];
    assert init[..n] == events[..n] && events[..|events|] == events;
    forall m | n < m <= |events|
      ensures holds(events[..m])
    {
      if m < |events| {
        assert init[..m] == events[..m];
      }
    }
  }

  /** Every grant, in every run: it answers an authorization that arrived for a room with a credential, and
      that is the credential of the room's entry when the answer is given. */
  lemma GrantedMeans(events: seq<Event>, e: Event, id: nat) returns (n: nat)
    requires Step(Run(INITIAL, events), e).responses == Run(INITIAL, events).responses + [(id, Granted)]
    ensures Arrived(events, id, n) && events[n].request.Authorize? && events[n].request.credential.Some?
    ensures var Authorize(room, credential) := events[n].request;
            var t := Step(Run(INITIAL, events), e);
            room in t.rooms && t.rooms[room] == credential.value
  {
    var s := Run(INITIAL, events);
    AnswerOf(s, e, id, Granted);
    var AuthEnter(room, token) := s.handlers[id];
    n := HandlerServes(events, id);
    GrantedStep(s, id, e.ok, room, token);
  }

  lemma AnswerOf(s: State, e: Event, id: nat, response: Response)
    requires Step(s, e).responses == s.responses + [(id, response)] && response == Granted
    ensures e.Advance? && e.handler == id && s.up && id in s.handlers && s.handlers[id].AuthEnter?
  {
    assert (s.responses + [(id, response)])[|s.responses|] == (id, response);
    var t := Step(s, e);
    assert t.responses[|s.responses|] == (id, Granted);
  }

  // ---------------------------------------------------------------- one request by itself

  /** What an authorization is told, going by the state that it finds. */
  function AuthorizeVerdict(s: State, room: string, credential: Option<string>): Response {
    if !ValidIdentifier(room) then BadRequest
    else if room in s.revoked then Gone
    else if credential.None? then Unauthorized
    else if room in s.rooms && s.rooms[room] != credential.value then Unauthorized
    else Granted
  }

  function AuthorizeAll(id: nat, room: string, credential: Option<string>): seq<Event> {
    [Arrive(id, Authorize(room, credential))] + [Advance(id, true)] + [Advance(id, true)]
  }

  /** An authorization that nothing interrupts: its answer, and the entry that a grant creates. */
  lemma AuthorizeAlone(s: State, id: nat, room: string, credential: Option<string>)
    requires s.up && id !in s.handlers
    ensures Run(s, AuthorizeAll(id, room, credential))
            == s.(responses := s.responses + [(id, AuthorizeVerdict(s, room, credential))],
                  rooms := if AuthorizeVerdict(s, room, credential).Granted? then s.rooms[room := credential.value]
                           else s.rooms)
  {
    var e1, e2 := Arrive(id, Authorize(room, credential)), Advance(id, true);
    ThreeSteps(s, e1, e2);
    var s1 := Step(s, e1);
    assert s.handlers - {id} == s.handlers;
    if ValidIdentifier(room) {
      assert s1.handlers[id] == AuthCheck(room, credential);
      assert s1.handlers - {id} == s.handlers;
      if room !in s.revoked && credential.Some? {
        var s2 := Step(s1, e2);
        assert s2.handlers[id] == AuthEnter(room, credential.value);
        assert s2.handlers - {id} == s.handlers;
        if room in s.rooms && s.rooms[room] == credential.value {
          assert s.rooms[room := credential.value] == s.rooms;
        }
      }
    }
  }

  lemma ThreeSteps(s: State, a: Event, b: Event)
    ensures Run(s, [a] + [b] + [b]) == Step(Step(Step(s, a), b), b)
  {
    RunOne(s, a);
    RunSnoc(s, [a], b);
    RunSnoc(s, [a] + [b], b);
  }

  /** What a revocation is told before it writes anything, `None` when it may go on to write. */
  function RevokeVerdict(s: State, room: string, credential: Option<string>): Option<Response> {
    if !ValidIdentifier(room) then Some(BadRequest)
    else if credential.None? then Some(Unauthorized)
    else if room in s.revoked then Some(NoContent)
    else if room in s.rooms && s.rooms[room] != credential.value then Some(Unauthorized)
    else None
  }

  function RevokeStart(id: nat, room: string, credential: Option<string>): seq<Event> {
    [Arrive(id, Revoke(room, credential))] + [Advance(id, true)] + [Advance(id, true)]
  }

  /** A revocation that is refused, or has nothing to do, leaves everything as it was. */
  lemma RevokeRefused(s: State, id: nat, room: string, credential: Option<string>)
    requires s.up && id !in s.handlers && RevokeVerdict(s, room, credential).Some?
    ensures Run(s, RevokeStart(id, room, credential))
            == s.(responses := s.responses + [(id, RevokeVerdict(s, room, credential).value)])
  {
    var e1, e2 := Arrive(id, Revoke(room, credential)), Advance(id, true);
    ThreeSteps(s, e1, e2);
    var s1 := Step(s, e1);
    assert s.handlers - {id} == s.handlers;
    if ValidIdentifier(room) && credential.Some? {
      assert s1.handlers[id] == RevokeCheck(room, credential.value);
      assert s1.handlers - {id} == s.handlers;
      var s2 := Step(s1, e2);
      if room !in s.revoked {
        assert s2.handlers[id] == RevokeLook(room, credential.value);
        assert s2.handlers - {id} == s.handlers;
      }
    }
  }

  /** A revocation that nothing interrupts and that may write: the identifier and a newline are in the file
      and synced, the room is revoked and has no entry, and the answer is NO CONTENT. */
  lemma RevokeAlone(s: State, id: nat, room: string, credential: Option<string>)
    requires s.up && id !in s.handlers && RevokeVerdict(s, room, credential).None?
    ensures Run(s, RevokeStart(id, room, credential) + ToEnd(id))
            == s.(file := s.file + [Id(room)] + [Newline], synced := |s.file| + 2,
                  revoked := s.revoked + {room}, rooms := s.rooms - {room},
                  responses := s.responses + [(id, NoContent)])
  {
    var token := credential.value;
    var start := RevokeStart(id, room, credential);
    ReachesWrite(s, id, room, token);
    assert start == ToWrite(id, room, token);
    RunConcat(s, start, ToEnd(id));
    var s1 := Run(s, start);
    var e := Advance(id, true);
    FiveSteps(s1, e);
    WritesAll(s1, id, room);
    assert s.handlers[id := RevokeWrite(room)] - {id} == s.handlers;
  }

  lemma WritesAll(s: State, id: nat, room: string)
    requires s.up && id in s.handlers && s.handlers[id] == RevokeWrite(room)
    ensures var e := Advance(id, true);
            Step(Step(Step(Step(Step(s, e), e), e), e), e)
            == s.(file := s.file + [Id(room)] + [Newline], synced := |s.file| + 2,
                  revoked := s.revoked + {room}, rooms := s.rooms - {room},
                  handlers := s.handlers - {id}, responses := s.responses + [(id, NoContent)])
  {
    var e := Advance(id, true);
    var s1 := Step(s, e);
    var s2 := Step(s1, e);
    var s3 := Step(s2, e);
    var s4 := Step(s3, e);
    assert s1.handlers[id] == RevokeEnd(room) && s2.handlers[id] == RevokeSync(room);
    assert s3.handlers[id] == RevokeInsert(room) && s4.handlers[id] == RevokeRemove(room);
    assert s4.handlers - {id} == s.handlers - {id};
  }

  // ---------------------------------------------------------------- who may revoke

  /** The step at which a revocation looked at the entry of its room: there was none, or it had the
      credential that came with the request. */
  ghost predicate Cleared(events: seq<Event>, id: nat, m: nat) {
    && m < |events| && events[m].Advance? && events[m].handler == id
    && var s := Run(INITIAL, events[..m]);
    && id in s.handlers && s.handlers[id].RevokeLook?
    && var RevokeLook(room, token) := s.handlers[id];
       room in s.rooms ==> s.rooms[room] == token
  }

  predicate Writing(h: Handler) {
    h.RevokeWrite? || PastWrite(h)
  }

  lemma WritingStep(s: State, e: Event, id: nat)
    requires id in Step(s, e).handlers && Writing(Step(s, e).handlers[id])
    requires !(id in s.handlers && Writing(s.handlers[id]))
    ensures e.Advance? && e.handler == id && id in s.handlers && s.handlers[id].RevokeLook?
    ensures var RevokeLook(room, token) := s.handlers[id];
            (room in s.rooms ==> s.rooms[room] == token) && Step(s, e).handlers[id].room == room
  {
  }

  /** Whoever writes to the file, in every run, has shown the credential of the room's entry, if it had one:
      a revocation with another credential appends and inserts nothing. */
  lemma {:induction false} WriterIsCleared(events: seq<Event>, id: nat) returns (m: nat)
    requires id in Run(INITIAL, events).handlers && Writing(Run(INITIAL, events).handlers[id])
    ensures Cleared(events, id, m)
    ensures Run(INITIAL, events[..m]).handlers[id].room == Run(INITIAL, events).handlers[id].room
  {
    var init, e := events[..|events| - 1], events[|events| - 1];
    var s := Run(INITIAL, init);
    if id in s.handlers && Writing(s.handlers[id]) {
      m := WriterIsCleared(init, id);
      assert init[..m] == events[..m];
      WritingRoom(s, e, id);
    } else {
      m := |events| - 1;
      WritingStep(s, e, id);
    }
  }

  lemma WritingRoom(s: State, e: Event, id: nat)
    requires id in s.handlers && Writing(s.handlers[id]) && id in Step(s, e).handlers
    ensures Step(s, e).handlers[id].room == s.handlers[id].room
  {
    if e.Advance? && e.handler == id && s.up {
      AdvanceRoom(s, id, e.ok);
    } else {
      assert Step(s, e).handlers[id] == s.handlers[id];
    }
  }

  lemma AdvanceRoom(s: State, id: nat, ok: bool)
    requires id in s.handlers && id in AdvanceHandler(s, id, ok).handlers
    ensures AdvanceHandler(s, id, ok).handlers[id].room == s.handlers[id].room
  {
  }

  /** Only a writing handler changes the file or adds to the set, and only for its own room. */
  lemma OnlyWritersWrite(s: State, e: Event)
    requires !e.Restart? && !e.PowerLoss?
    requires Step(s, e).file != s.file || Step(s, e).revoked != s.revoked
    ensures e.Advance? && e.handler in s.handlers && Writing(s.handlers[e.handler])
    ensures var room := s.handlers[e.handler].room;
            && (Step(s, e).file == s.file || Step(s, e).file == s.file + [Id(room)]
                || Step(s, e).file == s.file + [Newline])
            && Step(s, e).revoked <= s.revoked + {room}
  {
  }
}
