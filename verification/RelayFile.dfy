/** The file of revoked rooms of the approval relay (src/approval_relay/main.rs): how it is written, one piece at
a time, and how it is read back. */
module RelayFile {
  import opened Text

  predicate ValidIdentifier(s: string) {
    |s| == 43 && forall i :: 0 <= i < |s| ==> Alphanumeric(s[i]) || s[i] == '-' || s[i] == '_'
  }

  // ---------------------------------------------------------------- the revocation file

  /** The file as the writes that made it. */
  datatype Piece = Id(room: string) | Newline

  function Render(pieces: seq<Piece>): string {
    if pieces == [] then ""
    else (if pieces[0].Id? then pieces[0].room else "\n") + Render(pieces[1..])
  }

  /** `str::lines`, one line: a carriage return in front of the newline is not part of it. */
  function Chomp(line: string): string {
    if line != "" && line[|line| - 1] == '\r' then line[..|line| - 1] else line
  }

  function Lines(text: string): seq<string>
    decreases |text|
  {
    if text == "" then []
    else
      var i := IndexOf(text, '\n');
      if i == |text| then [text] else [Chomp(text[..i])] + Lines(text[i + 1..])
  }

  /** `load_revoked_rooms`: all lines, or an error when one of them is not an identifier. */
  function Load(text: string): Option<set<string>> {
    var lines := Lines(text);
    if forall i :: 0 <= i < |lines| ==> ValidIdentifier(lines[i])
    then Some(set line | line in lines)
    else None
  }

  // ---------------------------------------------------------------- the file read back

  /** The lines that pieces make when `open` was left on the last line. */
  function LinesFrom(open: string, pieces: seq<Piece>): seq<string>
    decreases |pieces|
  {
    if pieces == [] then (if open == "" then [] else [open])
    else if pieces[0].Id? then LinesFrom(open + pieces[0].room, pieces[1..])
    else [open] + LinesFrom("", pieces[1..])
  }

  predicate Plain(s: string) {
    '\n' !in s && '\r' !in s
  }

  predicate ValidPieces(pieces: seq<Piece>) {
    forall i :: 0 <= i < |pieces| && pieces[i].Id? ==> ValidIdentifier(pieces[i].room)
  }

  lemma IdentifierPlain(s: string)
    requires ValidIdentifier(s)
    ensures Plain(s)
  {
  }

  lemma ChompPlain(s: string)
    requires Plain(s)
    ensures Chomp(s) == s
  {
    if s != "" {
      assert s[|s| - 1] in s;
    }
  }

  lemma LinesOfOpen(open: string)
    requires Plain(open)
    ensures Lines(open) == LinesFrom(open, [])
  {
  }

  lemma LinesOfFirst(open: string, rest: string)
    requires Plain(open)
    ensures Lines(open + ("\n" + rest)) == [open] + Lines(rest)
  {
    ChompPlain(open);
    IndexOfConcat(open, '\n', rest);
    var text := open + ['\n'] + rest;
    assert text == open + ("\n" + rest);
    assert text[..|open|] == open && text[|open| + 1..] == rest;
  }

  lemma {:induction false} LinesOfRender(open: string, pieces: seq<Piece>)
    requires Plain(open) && ValidPieces(pieces)
    ensures Lines(open + Render(pieces)) == LinesFrom(open, pieces)
    decreases |pieces|
  {
    if pieces == [] {
      assert open + "" == open;
      LinesOfOpen(open);
    } else if pieces[0].Id? {
      var room, rest := pieces[0].room, Render(pieces[1..]);
      IdentifierPlain(room);
      LinesOfRender(open + room, pieces[1..]);
      Associate(open, room, rest);
    } else {
      LinesOfFirst(open, Render(pieces[1..]));
      LinesOfRender("", pieces[1..]);
      assert "" + Render(pieces[1..]) == Render(pieces[1..]);
    }
  }

  /** Identifiers and newlines alternate, starting with an identifier unless one is `open`. */
  predicate Alternates(open: bool, pieces: seq<Piece>)
    decreases |pieces|
  {
    pieces == [] || (pieces[0].Id? != open && Alternates(!open, pieces[1..]))
  }

  predicate AllValid(lines: seq<string>) {
    forall i :: 0 <= i < |lines| ==> ValidIdentifier(lines[i])
  }

  lemma {:induction false} LongLineInvalid(open: string, pieces: seq<Piece>)
    requires |open| > 43
    ensures !AllValid(LinesFrom(open, pieces))
    decreases |pieces|
  {
    if pieces == [] {
      assert !ValidIdentifier([open][0]);
    } else if pieces[0].Id? {
      LongLineInvalid(open + pieces[0].room, pieces[1..]);
    } else {
      assert !ValidIdentifier(LinesFrom(open, pieces)[0]);
    }
  }

  lemma AllValidCons(line: string, lines: seq<string>)
    ensures AllValid([line] + lines) <==> ValidIdentifier(line) && AllValid(lines)
  {
    if AllValid([line] + lines) {
      assert ([line] + lines)[0] == line;
      forall i | 0 <= i < |lines|
        ensures ValidIdentifier(lines[i])
      {
        assert ([line] + lines)[i + 1] == lines[i];
      }
    }
  }

  lemma {:induction false} LinesValid(open: string, pieces: seq<Piece>)
    requires (open == "" || ValidIdentifier(open)) && ValidPieces(pieces)
    ensures AllValid(LinesFrom(open, pieces)) <==> Alternates(open != "", pieces)
    decreases |pieces|
  {
    if pieces != [] {
      if pieces[0].Id? {
        if open == "" {
          assert "" + pieces[0].room == pieces[0].room;
          LinesValid(pieces[0].room, pieces[1..]);
        } else {
          LongLineInvalid(open + pieces[0].room, pieces[1..]);
        }
      } else {
        LinesValid("", pieces[1..]);
        AllValidCons(open, LinesFrom("", pieces[1..]));
      }
    }
  }

  /** The rooms whose identifier was written. */
  function Written(pieces: seq<Piece>): set<string> {
    set i | 0 <= i < |pieces| && pieces[i].Id? :: pieces[i].room
  }

  lemma {:induction false} LinesAreWritten(open: string, pieces: seq<Piece>, line: string)
    requires Alternates(open != "", pieces) && ValidPieces(pieces)
    ensures line in LinesFrom(open, pieces) <==> (line == open && open != "") || line in Written(pieces)
    decreases |pieces|
  {
    if pieces != [] {
      WrittenCons(pieces, line);
      if pieces[0].Id? {
        assert pieces[0].room != "";
        assert "" + pieces[0].room == pieces[0].room;
        LinesAreWritten(pieces[0].room, pieces[1..], line);
      } else {
        LinesAreWritten("", pieces[1..], line);
      }
    }
  }

  lemma WrittenCons(pieces: seq<Piece>, room: string)
    requires pieces != []
    ensures room in Written(pieces)
            <==> (pieces[0].Id? && pieces[0].room == room) || room in Written(pieces[1..])
  {
    if room in Written(pieces[1..]) {
      var i :| 0 <= i < |pieces[1..]| && pieces[1..][i].Id? && pieces[1..][i].room == room;
      assert pieces[i + 1].room == room;
    }
    if room in Written(pieces) {
      var i :| 0 <= i < |pieces| && pieces[i].Id? && pieces[i].room == room;
      if i > 0 {
        assert pieces[1..][i - 1] == pieces[i];
      }
    }
  }

  /** A file of whole writes loads exactly when identifiers and newlines alternate, and then gives back
      every identifier ever written. */
  lemma LoadReadsWritten(pieces: seq<Piece>)
    requires ValidPieces(pieces)
    ensures Load(Render(pieces)).Some? <==> Alternates(false, pieces)
    ensures Alternates(false, pieces) ==> Load(Render(pieces)) == Some(Written(pieces))
  {
    LinesOfRender("", pieces);
    assert "" + Render(pieces) == Render(pieces);
    LinesValid("", pieces);
    if Alternates(false, pieces) {
      SetOfLines(pieces);
    }
  }

  /** One line of a file, whoever wrote it, and how it ends. */
  datatype Entry = Entry(room: string, ending: string)

  function Spelled(entries: seq<Entry>): string {
    if entries == [] then "" else entries[0].room + entries[0].ending + Spelled(entries[1..])
  }

  /** A newline after every line, or a carriage return and a newline; the last one may go without. */
  predicate WellEnded(entries: seq<Entry>) {
    forall i :: 0 <= i < |entries| ==>
      entries[i].ending in {"\n", "\r\n"} || (entries[i].ending == "" && i == |entries| - 1)
  }

  /** 43 characters of the URL-safe alphabet, as many as 256 bits need. */
  predicate Identifier(s: string) {
    |s| == 43 && forall i :: 0 <= i < |s| ==>
      'A' <= s[i] <= 'Z' || 'a' <= s[i] <= 'z' || '0' <= s[i] <= '9' || s[i] in "-_"
  }

  predicate Identifiers(entries: seq<Entry>) {
    forall i :: 0 <= i < |entries| ==> Identifier(entries[i].room)
  }

  predicate Solid(line: string) {
    Plain(line) && line != ""
  }

  lemma IdentifierIff(s: string)
    ensures ValidIdentifier(s) <==> Identifier(s)
    ensures Identifier(s) ==> Solid(s)
  {
  }

  /** The lines of a file are those that were put into it. */
  predicate Reads(entries: seq<Entry>, lines: seq<string>) {
    |lines| == |entries| && forall i :: 0 <= i < |entries| ==> lines[i] == entries[i].room
  }

  /** A file is loaded exactly when it is a sequence of identifiers with line endings. */
  lemma LoadIff(text: string)
    ensures Load(text).Some? <==>
              exists entries :: WellEnded(entries) && Identifiers(entries) && Spelled(entries) == text
  {
    if Load(text).Some? {
      forall line
        ensures ValidIdentifier(line) ==> Solid(line) && Identifier(line)
      {
        IdentifierIff(line);
      }
      var entries := EntriesOf(text);
      assert Identifiers(entries);
    }
    if entries :| WellEnded(entries) && Identifiers(entries) && Spelled(entries) == text {
      LoadedAre(entries);
    }
  }

  /** And what is loaded is the set of these identifiers. */
  lemma LoadedAre(entries: seq<Entry>)
    requires WellEnded(entries) && Identifiers(entries)
    ensures Load(Spelled(entries)) == Some(set i | 0 <= i < |entries| :: entries[i].room)
  {
    forall i | 0 <= i < |entries|
      ensures Solid(entries[i].room) && ValidIdentifier(entries[i].room)
    {
      IdentifierIff(entries[i].room);
    }
    LinesOfEntries(entries);
    var lines := Lines(Spelled(entries));
    SameMembers(lines, entries);
    assert forall i :: 0 <= i < |lines| ==> ValidIdentifier(lines[i]);
  }

  lemma SameMembers(lines: seq<string>, entries: seq<Entry>)
    requires Reads(entries, lines)
    ensures (set line | line in lines) == set i | 0 <= i < |entries| :: entries[i].room
  {
    forall i | 0 <= i < |entries|
      ensures entries[i].room in lines
    {
      assert lines[i] in lines;
    }
    forall line | line in lines
      ensures exists i :: 0 <= i < |entries| && entries[i].room == line
    {
      var i :| 0 <= i < |lines| && lines[i] == line;
      assert entries[i].room == line;
    }
  }

  lemma {:induction false} LinesOfEntries(entries: seq<Entry>)
    requires WellEnded(entries) && forall i :: 0 <= i < |entries| ==> Solid(entries[i].room)
    ensures Reads(entries, Lines(Spelled(entries)))
  {
    if entries != [] {
      var first, rest := entries[0], entries[1..];
      assert first.ending == "" ==> rest == [];
      WellEndedTail(entries);
      LinesOfEntries(rest);
      FirstLine(first.room, first.ending, Spelled(rest));
      ReadsCons(first, rest, Lines(Spelled(rest)));
      assert entries == [first] + rest;
    }
  }

  lemma WellEndedTail(entries: seq<Entry>)
    requires entries != [] && WellEnded(entries)
    ensures WellEnded(entries[1..])
    ensures forall i :: 0 <= i < |entries| - 1 ==> entries[1..][i] == entries[i + 1]
  {
  }

  lemma ReadsCons(first: Entry, rest: seq<Entry>, lines: seq<string>)
    requires Reads(rest, lines)
    ensures Reads([first] + rest, [first.room] + lines)
  {
  }

  lemma WellEndedCons(first: Entry, rest: seq<Entry>)
    requires WellEnded(rest) && first.ending in {"\n", "\r\n"}
    ensures WellEnded([first] + rest) && Spelled([first] + rest) == first.room + first.ending + Spelled(rest)
  {
    assert ([first] + rest)[1..] == rest;
  }

  lemma FirstLine(room: string, ending: string, rest: string)
    requires Solid(room) && ending in {"\n", "\r\n", ""} && (ending == "" ==> rest == "")
    ensures Lines(room + ending + rest) == [room] + if ending == "" then [] else Lines(rest)
  {
    var text := room + ending + rest;
    if ending == "" {
      assert text == room;
    } else if ending == "\n" {
      LinesOfFirst(room, rest);
      Associate(room, "\n", rest);
    } else {
      var line := room + ['\r'];
      IndexOfConcat(line, '\n', rest);
      assert text == line + ['\n'] + rest;
      assert text[..|line|] == line && text[|line| + 1..] == rest;
      assert line[..|line| - 1] == room;
    }
  }

  predicate AllSolid(lines: seq<string>) {
    forall i :: 0 <= i < |lines| ==> Solid(lines[i])
  }

  lemma {:induction false} EntriesOf(text: string) returns (entries: seq<Entry>)
    requires AllSolid(Lines(text))
    ensures WellEnded(entries) && Spelled(entries) == text && Reads(entries, Lines(text))
    decreases |text|
  {
    var i := IndexOf(text, '\n');
    if i == |text| {
      entries := LastEntry(text);
    } else {
      var first, rest := text[..i], text[i + 1..];
      LinesStep(text, i);
      var more := EntriesOf(rest);
      entries := EntriesAdd(first, rest, Lines(rest), more);
    }
  }

  lemma LinesStep(text: string, i: nat)
    requires i == IndexOf(text, '\n') < |text|
    ensures Lines(text) == [Chomp(text[..i])] + Lines(text[i + 1..])
    ensures text == text[..i] + ['\n'] + text[i + 1..]
    ensures AllSolid(Lines(text)) ==> AllSolid(Lines(text[i + 1..]))
  {
    CutAt(text, i);
    SolidTail(Chomp(text[..i]), Lines(text[i + 1..]));
  }

  lemma SolidTail(line: string, lines: seq<string>)
    ensures AllSolid([line] + lines) ==> AllSolid(lines)
  {
    assert forall k :: 0 <= k < |lines| ==> lines[k] == ([line] + lines)[k + 1];
  }

  lemma LastEntry(text: string) returns (entries: seq<Entry>)
    requires IndexOf(text, '\n') == |text|
    ensures WellEnded(entries) && Spelled(entries) == text && Reads(entries, Lines(text))
  {
    if text == "" {
      entries := [];
    } else {
      entries := [Entry(text, "")];
      assert entries[1..] == [] && text + "" + "" == text;
    }
  }

  lemma EntriesAdd(first: string, rest: string, lines: seq<string>, more: seq<Entry>) returns (entries: seq<Entry>)
    requires WellEnded(more) && Spelled(more) == rest && Reads(more, lines)
    ensures WellEnded(entries) && Spelled(entries) == first + ['\n'] + rest
    ensures Reads(entries, [Chomp(first)] + lines)
  {
    entries := [EntryOf(first)] + more;
    WellEndedCons(EntryOf(first), more);
    ReadsCons(EntryOf(first), more, lines);
  }

  /** A line as it stands in front of its newline. */
  function EntryOf(line: string): (entry: Entry)
    ensures entry.room == Chomp(line) && entry.ending in {"\n", "\r\n"}
    ensures entry.room + entry.ending == line + ['\n']
  {
    if Chomp(line) == line then Entry(line, "\n") else Entry(Chomp(line), "\r\n")
  }

  lemma SetOfLines(pieces: seq<Piece>)
    requires Alternates(false, pieces) && ValidPieces(pieces)
    ensures (set line | line in LinesFrom("", pieces)) == Written(pieces)
  {
    var loaded := set line | line in LinesFrom("", pieces);
    forall line
      ensures line in loaded <==> line in Written(pieces)
    {
      LinesAreWritten("", pieces, line);
    }
    assert loaded == Written(pieces);
  }
}
