/**
 Printers and parsers of session messages in both languages: exactly which messages survive, and that
 each language reads what the other prints.
 */
module SessionCodec {
  import opened Prelude
  import opened SessionText

  /** A field the text can carry: nothing to trim, no newline. */
  predicate Clean(d: Dialect, field: string) {
    Trimmed(d, field) && '\n' !in field
  }

  predicate CleanFields(d: Dialect, m: Message) {
    && Clean(d, m.fromName) && Clean(d, m.team) && Clean(d, m.sessionId) && Clean(d, m.toName)
    && Clean(d, m.note) && Clean(d, m.payloadType) && Clean(d, m.payloadName)
  }

  /** The messages that survive: a known kind, an id, clean fields, no negative counts. */
  predicate WellFormed(d: Dialect, m: Message) {
    m.kind != Unknown && m.sessionId != "" && CleanFields(d, m) && m.fileCount >= 0 && m.totalBytes >= 0
  }

  /** The C++ fields are `uint32_t` and `uint64_t`. */
  predicate Representable(d: Dialect, m: Message) {
    d == Cpp ==> m.fileCount < WORD32 && m.totalBytes < WORD64
  }

  // ----- Splitting undoes terminating -----

  lemma {:induction false} SplitPiece(piece: string, separator: char, rest: string)
    requires separator !in piece
    ensures Split(piece + [separator] + rest, separator) == [piece] + Split(rest, separator)
  {
    var s := piece + [separator] + rest;
    if piece == [] {
      assert s[1..] == rest;
    } else {
      assert s[1..] == piece[1..] + [separator] + rest;
      SplitPiece(piece[1..], separator, rest);
      assert [piece[0]] + piece[1..] == piece;
    }
  }

  lemma {:induction false} SplitTerminated(lines: seq<string>)
    requires forall i :: 0 <= i < |lines| ==> '\n' !in lines[i]
    ensures Split(Terminated(lines), '\n') == lines + [""]
  {
    if lines != [] {
      SplitPiece(lines[0], '\n', Terminated(lines[1..]));
      assert Terminated(lines) == lines[0] + "\n" + Terminated(lines[1..]);
      SplitTerminated(lines[1..]);
    }
  }

  lemma {:induction false} PiecesHaveNoSeparator(s: string, separator: char)
    ensures forall i :: 0 <= i < |Split(s, separator)| ==> separator !in Split(s, separator)[i]
  {
    if s != [] {
      PiecesHaveNoSeparator(s[1..], separator);
    }
  }

  lemma {:induction false} FoldAppend(d: Dialect, a: seq<string>, b: seq<string>, m: Message)
    ensures FoldLines(d, a + b, m) ==
      match FoldLines(d, a, m) case None => None case Some(n) => FoldLines(d, b, n)
  {
    if a == [] {
      assert a + b == b;
    } else {
      assert (a + b)[1..] == a[1..] + b;
      match ParseRawLine(d, a[0], m)
      case None =>
      case Some(next) => FoldAppend(d, a[1..], b, next);
    }
  }

  // ----- One printed line is one assignment -----

  predicate PlainKey(d: Dialect, key: string) {
    key != [] && '=' !in key && '\n' !in key && Trimmed(d, key)
  }

  lemma KeysAreTold(f: Field)
    requires f != OtherField
    ensures FieldOf(KeyOf(f)) == f
  {
  }

  lemma KeysArePlain(d: Dialect, f: Field)
    requires f != OtherField
    ensures PlainKey(d, KeyOf(f)) && FieldOf(KeyOf(f)) == f
  {
    hide FieldOf;
    KeysAreTold(f);
  }

  lemma {:induction false} IndexAfterKey(key: string, value: string)
    requires '=' !in key
    ensures IndexOf(Line(key, value), '=') == |key|
  {
    if key != [] {
      assert Line(key, value)[1..] == Line(key[1..], value);
      IndexAfterKey(key[1..], value);
    }
  }

  lemma LineSplits(d: Dialect, key: string, value: string)
    requires PlainKey(d, key) && Trimmed(d, value)
    ensures var line := Line(key, value);
      && StripCr(line) == line && IndexOf(line, '=') == |key| < |line|
      && Trim(d, line[..|key|]) == key && Trim(d, line[|key| + 1..]) == value
  {
    var line := Line(key, value);
    IndexAfterKey(key, value);
    TrimFacts(d, key);
    TrimFacts(d, value);
    if value != [] {
      assert line[|line| - 1] == value[|value| - 1];
    } else {
      assert line[|line| - 1] == '=';
    }
    assert line[..|key|] == key && line[|key| + 1..] == value;
  }

  lemma EntryIsAssignment(d: Dialect, f: Field, value: string, m: Message)
    requires f != OtherField && Trimmed(d, value)
    ensures ParseRawLine(d, Entry(f, value), m) == Assign(d, f, value, m)
  {
    KeysArePlain(d, f);
    LineSplits(d, KeyOf(f), value);
  }

  /** One more printed line after lines that are already read. */
  lemma FoldThen(d: Dialect, lines: seq<string>, start: Message, m: Message, f: Field, value: string)
    requires FoldLines(d, lines, start) == Some(m) && f != OtherField && Trimmed(d, value)
    ensures FoldLines(d, lines + [Entry(f, value)], start) == Assign(d, f, value, m)
  {
    FoldAppend(d, lines, [Entry(f, value)], start);
    EntryIsAssignment(d, f, value, m);
    assert [Entry(f, value)][1..] == [];
  }

  lemma FoldThenOptional(d: Dialect, lines: seq<string>, start: Message, m: Message, f: Field, value: string)
    requires FoldLines(d, lines, start) == Some(m) && f != OtherField && Trimmed(d, value)
    ensures FoldLines(d, lines + Optional(f, value), start) == if value == "" then Some(m) else Assign(d, f, value, m)
  {
    if value == "" {
      assert lines + [] == lines;
    } else {
      FoldThen(d, lines, start, m, f, value);
    }
  }

  lemma FoldThenNumber(d: Dialect, lines: seq<string>, start: Message, m: Message, f: Field, n: int)
    requires FoldLines(d, lines, start) == Some(m) && f != OtherField
    ensures FoldLines(d, lines + OptionalNumber(f, n), start) == if n <= 0 then Some(m) else Assign(d, f, Decimal(n), m)
  {
    if n > 0 {
      DecimalRoundTrip(n);
      DigitsAreTrimmed(d, Decimal(n));
      FoldThen(d, lines, start, m, f, Decimal(n));
    } else {
      assert lines + [] == lines;
    }
  }

  lemma KindSurvives(d: Dialect, kind: Kind)
    ensures KindOf(KindText(kind)) == kind && Trimmed(d, KindText(kind)) && '\n' !in KindText(kind)
  {
  }

  lemma FoldHead(d: Dialect, m: Message)
    requires CleanFields(d, m)
    ensures FoldLines(d, Head(m), EmptyMessage())
         == Some(EmptyMessage().(kind := m.kind, fromName := m.fromName, team := m.team, sessionId := m.sessionId))
  {
    var m0 := EmptyMessage();
    KindSurvives(d, m.kind);
    var l1 := [Entry(KindField, KindText(m.kind))];
    assert [] + l1 == l1;
    FoldThen(d, [], m0, m0, KindField, KindText(m.kind));
    var m1 := m0.(kind := m.kind);
    FoldThen(d, l1, m0, m1, FromField, m.fromName);
    var l2, m2 := l1 + [Entry(FromField, m.fromName)], m1.(fromName := m.fromName);
    FoldThen(d, l2, m0, m2, TeamField, m.team);
    var l3, m3 := l2 + [Entry(TeamField, m.team)], m2.(team := m.team);
    FoldThen(d, l3, m0, m3, IdField, m.sessionId);
  }

  /** The message with its absent counts read as zero. */
  function CountsRead(m: Message): Message {
    m.(fileCount := Max(0, m.fileCount), totalBytes := Max(0, m.totalBytes))
  }

  /** Reading the printed lines gives the message back, whatever the counts. */
  lemma FoldPrinted(d: Dialect, m: Message)
    requires CleanFields(d, m) && Representable(d, m)
    ensures FoldLines(d, LinesOf(m), EmptyMessage()) == Some(CountsRead(m))
  {
    hide FoldLines, Head, Entry, OptionalNumber, Optional, Trimmed;
    var m0 := EmptyMessage();
    FoldHead(d, m);
    var l1, m1 := Head(m), m0.(kind := m.kind, fromName := m.fromName, team := m.team, sessionId := m.sessionId);
    FoldThenOptional(d, l1, m0, m1, ToField, m.toName);
    var l2, m2 := l1 + Optional(ToField, m.toName), m1.(toName := m.toName);
    FoldThenOptional(d, l2, m0, m2, NoteField, m.note);
    var l3, m3 := l2 + Optional(NoteField, m.note), m2.(note := m.note);
    FoldThenOptional(d, l3, m0, m3, TypeField, m.payloadType);
    var l4, m4 := l3 + Optional(TypeField, m.payloadType), m3.(payloadType := m.payloadType);
    FoldThenOptional(d, l4, m0, m4, NameField, m.payloadName);
    var l5, m5 := l4 + Optional(NameField, m.payloadName), m4.(payloadName := m.payloadName);
    FoldCounts(d, l5, m0, m5, m);
  }

  lemma FoldCounts(d: Dialect, lines: seq<string>, start: Message, read: Message, m: Message)
    requires FoldLines(d, lines, start) == Some(read) && Representable(d, m)
    requires read == m.(fileCount := 0, totalBytes := 0)
    ensures FoldLines(d, lines + OptionalNumber(FilesField, m.fileCount)
                               + OptionalNumber(BytesField, m.totalBytes), start)
         == Some(CountsRead(m))
  {
    hide FoldLines, OptionalNumber, Decimal, Number;
    if m.fileCount > 0 {
      NumberOfDecimal(d, m.fileCount);
    }
    if m.totalBytes > 0 {
      NumberOfDecimal(d, m.totalBytes);
    }
    FoldThenNumber(d, lines, start, read, FilesField, m.fileCount);
    FoldThenNumber(d, lines + OptionalNumber(FilesField, m.fileCount), start,
                   read.(fileCount := Max(0, m.fileCount)), BytesField, m.totalBytes);
  }

  lemma EntryHasNoNewline(d: Dialect, f: Field, value: string)
    requires f != OtherField && '\n' !in value
    ensures '\n' !in Entry(f, value)
  {
    KeysArePlain(d, f);
  }

  ghost predicate NewlineFree(lines: seq<string>) {
    forall i :: 0 <= i < |lines| ==> '\n' !in lines[i]
  }

  lemma OptionalIsNewlineFree(d: Dialect, f: Field, value: string, n: int)
    requires f != OtherField && '\n' !in value
    ensures NewlineFree(Optional(f, value)) && NewlineFree(OptionalNumber(f, n)) && NewlineFree([Entry(f, value)])
  {
    EntryHasNoNewline(d, f, value);
    if n > 0 {
      DecimalRoundTrip(n);
      DigitsAreTrimmed(d, Decimal(n));
      EntryHasNoNewline(d, f, Decimal(n));
    }
  }

  lemma HeadIsNewlineFree(d: Dialect, m: Message)
    requires CleanFields(d, m)
    ensures NewlineFree(Head(m))
  {
    KindSurvives(d, m.kind);
    EntryHasNoNewline(d, KindField, KindText(m.kind));
    EntryHasNoNewline(d, FromField, m.fromName);
    EntryHasNoNewline(d, TeamField, m.team);
    EntryHasNoNewline(d, IdField, m.sessionId);
  }

  lemma Joined(a: seq<string>, b: seq<string>)
    requires NewlineFree(a) && NewlineFree(b)
    ensures NewlineFree(a + b)
  {
  }

  lemma PrintedLinesAreLines(d: Dialect, m: Message)
    requires CleanFields(d, m)
    ensures NewlineFree(LinesOf(m))
  {
    HeadIsNewlineFree(d, m);
    OptionalIsNewlineFree(d, ToField, m.toName, 0);
    OptionalIsNewlineFree(d, NoteField, m.note, 0);
    OptionalIsNewlineFree(d, TypeField, m.payloadType, 0);
    OptionalIsNewlineFree(d, NameField, m.payloadName, 0);
    OptionalIsNewlineFree(d, FilesField, "", m.fileCount);
    OptionalIsNewlineFree(d, BytesField, "", m.totalBytes);
    var l1 := Head(m) + Optional(ToField, m.toName);
    Joined(Head(m), Optional(ToField, m.toName));
    Joined(l1, Optional(NoteField, m.note));
    var l2 := l1 + Optional(NoteField, m.note);
    Joined(l2, Optional(TypeField, m.payloadType));
    var l3 := l2 + Optional(TypeField, m.payloadType);
    Joined(l3, Optional(NameField, m.payloadName));
    var l4 := l3 + Optional(NameField, m.payloadName);
    Joined(l4, OptionalNumber(FilesField, m.fileCount));
    Joined(l4 + OptionalNumber(FilesField, m.fileCount), OptionalNumber(BytesField, m.totalBytes));
  }

  /** What a printed message reads as, when its fields are clean. */
  lemma PrintedReadsAs(d: Dialect, m: Message)
    requires CleanFields(d, m) && Representable(d, m)
    ensures Reading(d, TextOf(m)) == if m.kind == Unknown || m.sessionId == "" then Refused else Read(CountsRead(m))
  {
    PrintedLinesAreLines(d, m);
    SplitTerminated(LinesOf(m));
    assert TextOf(m)[|HEADER|..] == Terminated(LinesOf(m));
    FoldPrinted(d, m);
    FoldAppend(d, LinesOf(m), [""], EmptyMessage());
  }

  // ----- Only clean fields survive -----

  lemma AssignKeepsClean(d: Dialect, f: Field, value: string, m: Message)
    requires CleanFields(d, m) && Clean(d, value)
    ensures Assign(d, f, value, m).Some? ==> CleanFields(d, Assign(d, f, value, m).value)
  {
  }

  lemma ParseRawLineKeepsClean(d: Dialect, raw: string, m: Message)
    requires CleanFields(d, m) && '\n' !in raw
    ensures ParseRawLine(d, raw, m).Some? ==> CleanFields(d, ParseRawLine(d, raw, m).value)
  {
    var line := StripCr(raw);
    var eq := IndexOf(line, '=');
    if line != [] && eq < |line| {
      TrimFacts(d, line[eq + 1..]);
      AssignKeepsClean(d, FieldOf(Trim(d, line[..eq])), Trim(d, line[eq + 1..]), m);
    }
  }

  lemma {:induction false} FoldKeepsClean(d: Dialect, lines: seq<string>, m: Message)
    requires CleanFields(d, m) && NewlineFree(lines)
    ensures FoldLines(d, lines, m).Some? ==> CleanFields(d, FoldLines(d, lines, m).value)
  {
    if lines != [] {
      ParseRawLineKeepsClean(d, lines[0], m);
      match ParseRawLine(d, lines[0], m)
      case None =>
      case Some(next) => FoldKeepsClean(d, lines[1..], next);
    }
  }

  /** Whatever text a reader accepts, the message it returns has clean fields, a known kind and an id. */
  lemma ReadMessagesAreClean(d: Dialect, text: string)
    requires Reading(d, text).Read?
    ensures var m := Reading(d, text).message; CleanFields(d, m) && m.kind != Unknown && m.sessionId != ""
  {
    PiecesHaveNoSeparator(text[|HEADER|..], '\n');
    FoldKeepsClean(d, Split(text[|HEADER|..], '\n'), EmptyMessage());
  }

  /** Parse undoes print exactly for the well-formed messages. */
  lemma RoundTripIffWellFormed(d: Dialect, m: Message)
    requires Representable(d, m)
    ensures Reading(d, TextOf(m)) == Read(m) <==> WellFormed(d, m)
  {
    if Reading(d, TextOf(m)) == Read(m) {
      ReadMessagesAreClean(d, TextOf(m));
      PrintedReadsAs(d, m);
    } else if WellFormed(d, m) {
      PrintedReadsAs(d, m);
    }
  }

  lemma TypeScriptTrimsMore(m: Message)
    requires CleanFields(TypeScript, m)
    ensures CleanFields(Cpp, m)
  {
  }

  /** Each language reads what the other prints: a message that is well-formed to the stricter reader
      survives in both, from the one text that both print. */
  lemma BothLanguagesAgree(m: Message)
    requires WellFormed(TypeScript, m) && Representable(Cpp, m)
    ensures Reading(TypeScript, TextOf(m)) == Reading(Cpp, TextOf(m)) == Read(m)
  {
    TypeScriptTrimsMore(m);
    RoundTripIffWellFormed(TypeScript, m);
    RoundTripIffWellFormed(Cpp, m);
  }

  function TabbedOffer(): Message {
    EmptyMessage().(kind := Offer, sessionId := "1", note := "a\t")
  }

  lemma TabIsSpaceToOne()
    ensures WellFormed(Cpp, TabbedOffer()) && !WellFormed(TypeScript, TabbedOffer())
    ensures Representable(Cpp, TabbedOffer()) && Representable(TypeScript, TabbedOffer())
  {
  }

  /** The languages do differ: a trailing tab survives C++ and is lost in TypeScript. */
  lemma TabsTellTheReadersApart()
    ensures Reading(Cpp, TextOf(TabbedOffer())) == Read(TabbedOffer())
    ensures Reading(TypeScript, TextOf(TabbedOffer())) != Read(TabbedOffer())
  {
    hide *;
    TabIsSpaceToOne();
    RoundTripIffWellFormed(Cpp, TabbedOffer());
    RoundTripIffWellFormed(TypeScript, TabbedOffer());
  }

  // ----- The printers and readers as programs -----

  lemma {:induction false} TerminatedSnoc(lines: seq<string>, line: string)
    ensures Terminated(lines + [line]) == Terminated(lines) + line + "\n"
  {
    if lines == [] {
      assert [line][1..] == [] && lines + [line] == [line];
    } else {
      assert (lines + [line])[1..] == lines[1..] + [line];
      TerminatedSnoc(lines[1..], line);
    }
  }

  /** `lines.join('\n')`. */
  function Join(lines: seq<string>): string {
    if lines == [] then "" else if |lines| == 1 then lines[0] else lines[0] + "\n" + Join(lines[1..])
  }

  lemma {:induction false} JoinThenNewline(lines: seq<string>)
    requires lines != []
    ensures Join(lines) + "\n" == Terminated(lines)
  {
    if |lines| == 1 {
      assert lines[1..] == [];
    } else {
      JoinThenNewline(lines[1..]);
    }
  }

  /** The guarded `push` both printers repeat for each optional field. */
  method PushOptional(lines: seq<string>, f: Field, value: string) returns (r: seq<string>)
    ensures r == lines + Optional(f, value)
  {
    r := lines;
    if value != "" {
      r := lines + [Entry(f, value)];
    }
  }

  method PushNumber(lines: seq<string>, f: Field, n: int) returns (r: seq<string>)
    ensures r == lines + OptionalNumber(f, n)
  {
    r := lines;
    if n > 0 {
      r := lines + [Entry(f, Decimal(n))];
    }
  }

  method PushFields(start: seq<string>, m: Message) returns (r: seq<string>)
    ensures r == start + LinesOf(m)
  {
    var lines := start + Head(m);
    lines := PushOptional(lines, ToField, m.toName);
    lines := PushOptional(lines, NoteField, m.note);
    lines := PushOptional(lines, TypeField, m.payloadType);
    lines := PushOptional(lines, NameField, m.payloadName);
    lines := PushNumber(lines, FilesField, m.fileCount);
    lines := PushNumber(lines, BytesField, m.totalBytes);
    Regroup(start, Head(m), Optional(ToField, m.toName), Optional(NoteField, m.note),
            Optional(TypeField, m.payloadType), Optional(NameField, m.payloadName),
            OptionalNumber(FilesField, m.fileCount), OptionalNumber(BytesField, m.totalBytes));
    r := lines;
  }

  lemma Regroup(s: seq<string>, h: seq<string>, a: seq<string>, b: seq<string>, c: seq<string>, d: seq<string>,
                e: seq<string>, f: seq<string>)
    ensures s + h + a + b + c + d + e + f == s + (h + a + b + c + d + e + f)
  {
    assert s + h + a == s + (h + a);
    assert s + (h + a) + b == s + (h + a + b);
    assert s + (h + a + b) + c == s + (h + a + b + c);
    assert s + (h + a + b + c) + d == s + (h + a + b + c + d);
  }

  lemma TitleIsHeader()
    ensures "FABRIC-SESSION-v1" + "\n" == HEADER
  {
  }

  /** `serializeSessionMessage`: a growing array of lines, joined at the end. */
  method SerializeSessionMessage(m: Message) returns (text: string)
    ensures text == TextOf(m)
  {
    var title := "FABRIC-SESSION-v1";
    var lines := PushFields([title], m);
    text := Join(lines) + "\n";
    JoinThenNewline(lines);
    assert lines[0] == title && lines[1..] == LinesOf(m);
    TitleIsHeader();
  }

  /** Lines streamed one after the other. */
  method Stream(start: string, lines: seq<string>) returns (payload: string)
    ensures payload == start + Terminated(lines)
  {
    payload := start;
    for i := 0 to |lines|
      invariant payload == start + Terminated(lines[..i])
    {
      TerminatedSnoc(lines[..i], lines[i]);
      assert lines[..i + 1] == lines[..i] + [lines[i]];
      payload := payload + lines[i] + "\n";
    }
    assert lines[..|lines|] == lines;
  }

  /** `write_session_temp_file`: the text streamed line by line; nothing without a session id. */
  method WriteSessionText(m: Message) returns (r: Option<string>)
    ensures r == if m.sessionId == "" then None else Some(TextOf(m))
  {
    if m.sessionId == "" {
      return None;
    }
    var parts := PushFields([], m);
    assert parts == LinesOf(m);
    var payload := Stream(HEADER, parts);
    r := Some(payload);
  }

  /** `parseSessionPayload`: the pieces of `split('\n')` in turn. */
  method ParseSessionPayload(text: string) returns (r: ReadResult)
    ensures r == Reading(TypeScript, text)
  {
    if !(HEADER <= text) {
      return Refused;
    }
    var pieces := Split(text[|HEADER|..], '\n');
    var out := EmptyMessage();
    for i := 0 to |pieces|
      invariant FoldLines(TypeScript, pieces, EmptyMessage()) == FoldLines(TypeScript, pieces[i..], out)
    {
      assert pieces[i..][1..] == pieces[i + 1..];
      var next := ParseRawLine(TypeScript, pieces[i], out);
      match next
      case None => return Threw;
      case Some(m) => out := m;
    }
    if out.kind == Unknown || out.sessionId == "" {
      return Refused;
    }
    r := Read(out);
  }

  lemma {:induction false} SplitAtFirst(s: string, separator: char)
    ensures var k := IndexOf(s, separator);
      Split(s, separator) == if k == |s| then [s] else [s[..k]] + Split(s[k + 1..], separator)
  {
    if s != [] && s[0] != separator {
      SplitAtFirst(s[1..], separator);
      var k := IndexOf(s, separator);
      var pieces := Split(s[1..], separator);
      assert Split(s, separator) == [[s[0]] + pieces[0]] + pieces[1..];
      hide Split, IndexOf;
      if k < |s| {
        assert s[k + 1..] == s[1..][k..];
        assert pieces[0] == s[1..][..k - 1] && pieces[1..] == Split(s[k + 1..], separator);
        assert s[..k] == [s[0]] + s[1..][..k - 1];
      } else {
        assert pieces[0] == s[1..] && pieces[1..] == [];
        assert s == [s[0]] + s[1..];
      }
    }
  }

  /** `read_session_file`: `getline` takes one line after another off the stream; it yields no last empty line,
      which would be skipped anyway. */
  method ReadSessionText(text: string) returns (r: ReadResult)
    ensures r == Reading(Cpp, text)
  {
    if !(HEADER <= text) {
      return Refused;
    }
    var rest := text[|HEADER|..];
    var out := EmptyMessage();
    while rest != ""
      invariant FoldLines(Cpp, Split(text[|HEADER|..], '\n'), EmptyMessage()) == FoldLines(Cpp, Split(rest, '\n'), out)
      decreases |rest|
    {
      SplitAtFirst(rest, '\n');
      var k := IndexOf(rest, '\n');
      var line := rest[..k];
      if k == |rest| {
        assert line == rest && Split(rest, '\n')[1..] == [];
        rest := "";
      } else {
        assert Split(rest, '\n')[1..] == Split(rest[k + 1..], '\n');
        rest := rest[k + 1..];
      }
      var next := ParseRawLine(Cpp, line, out);
      match next
      case None => return Threw;
      case Some(m) => out := m;
    }
    if out.kind == Unknown || out.sessionId == "" {
      return Refused;
    }
    r := Read(out);
  }
}
