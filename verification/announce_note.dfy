/**
 The announce note, `port=..;receive=..;instance=..`, in both languages, and what survives the whole way
 from one station's announce to the other station's roster.
 */
module AnnounceNote {
  import opened Prelude
  import opened SessionText
  import opened SessionCodec

  const LEG_COUNT: nat := 4

  datatype ReceiveStatus = Open | AskFirst | Busy

  datatype Note = Note(leg: int, status: ReceiveStatus, instance: string)

  datatype Key = PortKey | ReceiveKey | InstanceKey | NoKey

  function PrefixOf(key: Key): string {
    match key
    case PortKey => "port="
    case ReceiveKey => "receive="
    case InstanceKey => "instance="
    case NoKey => ""
  }

  function StatusText(status: ReceiveStatus): string {
    match status
    case Open => "open"
    case AskFirst => "ask_first"
    case Busy => "busy"
  }

  function StatusOf(s: string): ReceiveStatus {
    if s == "open" || s == "auto" || s == "auto_accept" then Open
    else if s == "busy" then Busy
    else AskFirst
  }

  // ----- White space: `String.prototype.trim` and `std::isspace` -----

  /** What the readers of a note trim. */
  function Space(d: Dialect): Blanks {
    if d == TypeScript then JsBlanks else CBlanks
  }

  function StripEnd(d: Dialect, s: string): string {
    CutEnd(Space(d), s)
  }

  function StripStart(d: Dialect, s: string): string {
    CutStart(Space(d), s)
  }

  function Strip(d: Dialect, s: string): string {
    Cut(Space(d), s)
  }

  predicate Stripped(d: Dialect, s: string) {
    NothingToCut(Space(d), s)
  }

  /** Trailing space can be cut in one go or, behind text that does not start with space, together with it. */
  lemma {:induction false} StripEndBehind(d: Dialect, p: string, s: string)
    requires p != [] && !BlankAtEnd(Space(d), p[|p| - 1])
    ensures StripEnd(d, p + s) == p + StripEnd(d, s)
  {
    if s == [] {
      assert p + s == p;
    } else {
      assert (p + s)[|p + s| - 1] == s[|s| - 1];
      if BlankAtEnd(Space(d), s[|s| - 1]) {
        assert (p + s)[..|p + s| - 1] == p + s[..|s| - 1];
        StripEndBehind(d, p, s[..|s| - 1]);
      }
    }
  }

  lemma StripTwice(d: Dialect, s: string)
    ensures Strip(d, StripEnd(d, s)) == Strip(d, s)
  {
    CutEndShape(Space(d), s);
  }

  // ----- Reading -----

  function LegFromWire(port: int): Option<int> {
    if 1 <= port <= LEG_COUNT then Some(port - 1)
    else if 0 <= port < LEG_COUNT then Some(port)
    else None
  }

  /** `Number.parseInt`, which skips leading white space; `std::stoi` of the trimmed value, whose exceptions
      (no digits, or more than an `int`) keep the default. */
  function WirePort(d: Dialect, value: string): Option<int> {
    match d
    case TypeScript => Signed(StripStart(d, value))
    case Cpp =>
      match Signed(Strip(d, value))
      case None => None
      case Some(n) => if -0x8000_0000 <= n < 0x8000_0000 then Some(n) else None
  }

  /** Only the TypeScript reader trims the token before it looks for a key. */
  function TokenText(d: Dialect, token: string): string {
    if d == TypeScript then Strip(d, token) else token
  }

  function KeyAt(t: string): Key {
    if PrefixOf(PortKey) <= t then PortKey
    else if PrefixOf(ReceiveKey) <= t then ReceiveKey
    else if PrefixOf(InstanceKey) <= t then InstanceKey
    else NoKey
  }

  function Store(d: Dialect, key: Key, value: string, note: Note): Note {
    match key
    case PortKey =>
      (match WirePort(d, value)
       case None => note
       case Some(port) =>
         match LegFromWire(port)
         case None => note
         case Some(leg) => note.(leg := leg))
    case ReceiveKey => note.(status := StatusOf(if d == Cpp then Strip(d, value) else value))
    case InstanceKey => note.(instance := Strip(d, value))
    case NoKey => note
  }

  function ReadToken(d: Dialect, token: string, note: Note): Note {
    var t := TokenText(d, token);
    var key := KeyAt(t);
    Store(d, key, if PrefixOf(key) <= t then t[|PrefixOf(key)|..] else t, note)
  }

  function ReadTokens(d: Dialect, tokens: seq<string>, note: Note): Note {
    if tokens == [] then note else ReadTokens(d, tokens[1..], ReadToken(d, tokens[0], note))
  }

  /** Reading on, with `note` so far. */
  function ReadFrom(d: Dialect, text: string, note: Note): Note {
    ReadTokens(d, Split(text, ';'), note)
  }

  function ReadNote(d: Dialect, text: string, defaultLeg: int): Note {
    ReadFrom(d, text, Note(defaultLeg, AskFirst, ""))
  }

  lemma ReadPiece(d: Dialect, piece: string, rest: string, note: Note)
    requires ';' !in piece
    ensures ReadFrom(d, piece + [';'] + rest, note) == ReadFrom(d, rest, ReadToken(d, piece, note))
  {
    SplitPiece(piece, ';', rest);
    var pieces := [piece] + Split(rest, ';');
    assert pieces[0] == piece && pieces[1..] == Split(rest, ';');
  }

  lemma ReadLast(d: Dialect, piece: string, note: Note)
    requires ';' !in piece
    ensures ReadFrom(d, piece, note) == ReadToken(d, piece, note)
  {
    SplitLast(piece, ';');
    var one := [piece];
    assert one[0] == piece && one[1..] == [];
    assert ReadTokens(d, one, note) == ReadTokens(d, [], ReadToken(d, piece, note));
  }

  /** A separator ends the token being collected. */
  lemma AtSeparator(seen: seq<string>, current: string, text: string, i: nat)
    requires i < |text| && text[i] == ';' && ';' !in current
    ensures seen + Split(current + text[i..], ';') == (seen + [current]) + Split("" + text[i + 1..], ';')
  {
    assert current + text[i..] == current + [';'] + text[i + 1..];
    assert "" + text[i + 1..] == text[i + 1..];
    SplitPiece(current, ';', text[i + 1..]);
    var rest := Split(text[i + 1..], ';');
    assert seen + ([current] + rest) == (seen + [current]) + rest;
  }

  lemma AtOther(current: string, text: string, i: nat)
    requires i < |text|
    ensures current + text[i..] == (current + [text[i]]) + text[i + 1..]
  {
  }

  lemma {:induction false} ReadSnoc(d: Dialect, seen: seq<string>, token: string, start: Note)
    ensures ReadTokens(d, seen + [token], start) == ReadToken(d, token, ReadTokens(d, seen, start))
  {
    if seen == [] {
      assert seen + [token] == [token] && [token][1..] == [];
    } else {
      assert (seen + [token])[1..] == seen[1..] + [token];
      ReadSnoc(d, seen[1..], token, ReadToken(d, seen[0], start));
    }
  }

  lemma EmptyTokensSayNothing(d: Dialect, note: Note)
    ensures ReadToken(d, "", note) == note
  {
    assert TokenText(d, "") == "";
    assert KeyAt("") == NoKey;
  }

  lemma {:induction false} SplitLast(piece: string, separator: char)
    requires separator !in piece
    ensures Split(piece, separator) == [piece]
  {
    if piece != [] {
      SplitLast(piece[1..], separator);
      assert [piece[0]] + piece[1..] == piece;
    }
  }

  // ----- Printing -----

  function Printed(n: int): string {
    if n < 0 then "-" + Decimal(-n) else Decimal(n)
  }

  function Token(key: Key, value: string): string {
    PrefixOf(key) + value
  }

  function NoteText(note: Note): string {
    Token(PortKey, Printed(note.leg + 1)) + [';'] + Token(ReceiveKey, StatusText(note.status))
    + if note.instance == "" then "" else [';'] + Token(InstanceKey, note.instance)
  }

  /** `parseAnnounceNote`: the pieces of `split(';')` in turn. */
  method ParseNoteBySplitting(text: string, defaultLeg: int) returns (note: Note)
    ensures note == ReadNote(TypeScript, text, defaultLeg)
  {
    var tokens := Split(text, ';');
    note := Note(defaultLeg, AskFirst, "");
    for i := 0 to |tokens|
      invariant ReadTokens(TypeScript, tokens[i..], note) == ReadNote(TypeScript, text, defaultLeg)
    {
      assert tokens[i..][1..] == tokens[i + 1..];
      note := ReadToken(TypeScript, tokens[i], note);
    }
  }

  /** `parse_announce_note`: one pass over the characters with a token being collected. */
  method ParseNoteByCharacters(text: string, defaultLeg: int) returns (note: Note)
    ensures note == ReadNote(Cpp, text, defaultLeg)
  {
    note := Note(defaultLeg, AskFirst, "");
    var current: string := "";
    ghost var seen: seq<string> := [];
    assert current + text[0..] == text;
    for i := 0 to |text|
      invariant ';' !in current
      invariant note == ReadTokens(Cpp, seen, Note(defaultLeg, AskFirst, ""))
      invariant Split(text, ';') == seen + Split(current + text[i..], ';')
    {
      if text[i] == ';' {
        AtSeparator(seen, current, text, i);
        ReadSnoc(Cpp, seen, current, Note(defaultLeg, AskFirst, ""));
        note := ReadToken(Cpp, current, note);
        seen := seen + [current];
        current := "";
      } else {
        AtOther(current, text, i);
        current := current + [text[i]];
      }
    }
    assert current + text[|text|..] == current;
    SplitLast(current, ';');
    ReadSnoc(Cpp, seen, current, Note(defaultLeg, AskFirst, ""));
    EmptyTokensSayNothing(Cpp, note);
    if current != "" {
      note := ReadToken(Cpp, current, note);
    }
  }

  // ----- What one printed token reads as -----

  lemma PrefixesAreKeys(key: Key, value: string)
    requires key != NoKey
    ensures KeyAt(Token(key, value)) == key && Token(key, value)[|PrefixOf(key)|..] == value
    ensures PrefixOf(key) <= Token(key, value)
  {
    var t := Token(key, value);
    assert t[0] == PrefixOf(key)[0] == (match key case PortKey => 'p' case ReceiveKey => 'r' case _ => 'i');
    assert PrefixOf(key) <= t && t[|PrefixOf(key)|..] == value;
    assert PrefixOf(PortKey)[0] == 'p' && PrefixOf(ReceiveKey)[0] == 'r' && PrefixOf(InstanceKey)[0] == 'i';
  }

  lemma PrefixFacts(d: Dialect, key: Key)
    requires key != NoKey
    ensures var p := PrefixOf(key);
      p != [] && !BlankAtStart(Space(d), p[0]) && !BlankAtEnd(Space(d), p[|p| - 1]) && ';' !in p
  {
  }

  /** A reader sees the token's key and its value, the TypeScript one without trailing space. */
  lemma ReadPrintedToken(d: Dialect, key: Key, value: string, note: Note)
    requires key != NoKey
    ensures ReadToken(d, Token(key, value), note)
         == Store(d, key, if d == TypeScript then StripEnd(d, value) else value, note)
  {
    PrefixFacts(d, key);
    var seen := if d == TypeScript then StripEnd(d, value) else value;
    StripEndBehind(d, PrefixOf(key), value);
    assert TokenText(d, Token(key, value)) == Token(key, seen);
    PrefixesAreKeys(key, seen);
  }

  lemma PrintedIsPlain(n: int)
    ensures Signed(Printed(n)) == Some(n)
    ensures Printed(n) != [] && forall i :: 0 <= i < |Printed(n)| ==> Printed(n)[i] == '-' || IsDigit(Printed(n)[i])
  {
    if n >= 0 {
      DecimalRoundTrip(n);
      SignedOfDigits(Decimal(n));
    } else {
      DecimalRoundTrip(-n);
      DigitRunOfDigits(Decimal(-n));
      assert Printed(n)[1..] == Decimal(-n) && Decimal(-n)[..|Decimal(-n)|] == Decimal(-n);
    }
  }

  lemma PlainIsStripped(d: Dialect, s: string)
    requires s != [] && forall i :: 0 <= i < |s| ==> s[i] == '-' || IsDigit(s[i])
    ensures StripEnd(d, s) == s && StripStart(d, s) == s && Strip(d, s) == s && ';' !in s
  {
    assert s[0] == '-' || IsDigit(s[0]);
    assert s[|s| - 1] == '-' || IsDigit(s[|s| - 1]);
  }

  /** The leg a reader ends up with: out-of-range legs leave the default, and -1, printed as 0, reads as 0. */
  function LegRead(leg: int, defaultLeg: int): int {
    if 0 <= leg < LEG_COUNT then leg else if leg == -1 then 0 else defaultLeg
  }

  lemma ReadPortToken(d: Dialect, leg: int, note: Note)
    ensures ReadToken(d, Token(PortKey, Printed(leg + 1)), note) == note.(leg := LegRead(leg, note.leg))
  {
    var value := Printed(leg + 1);
    PrintedIsPlain(leg + 1);
    PlainIsStripped(d, value);
    ReadPrintedToken(d, PortKey, value, note);
    hide ReadToken, Store;
    StorePort(d, value, leg + 1, note);
  }

  lemma StorePort(d: Dialect, value: string, port: int, note: Note)
    requires StripStart(d, value) == value && Strip(d, value) == value && Signed(value) == Some(port)
    ensures Store(d, PortKey, value, note) == note.(leg := LegRead(port - 1, note.leg))
  {
    hide Signed, StripStart, Strip;
  }

  lemma StatusSurvives(d: Dialect, status: ReceiveStatus)
    ensures StatusOf(StatusText(status)) == status && ';' !in StatusText(status)
    ensures StripEnd(d, StatusText(status)) == StatusText(status) && Strip(d, StatusText(status)) == StatusText(status)
  {
  }

  lemma ReadStatusToken(d: Dialect, status: ReceiveStatus, note: Note)
    ensures ReadToken(d, Token(ReceiveKey, StatusText(status)), note) == note.(status := status)
  {
    StatusSurvives(d, status);
    ReadPrintedToken(d, ReceiveKey, StatusText(status), note);
  }

  lemma ReadInstanceToken(d: Dialect, instance: string, note: Note)
    ensures ReadToken(d, Token(InstanceKey, instance), note) == note.(instance := Strip(d, instance))
  {
    ReadPrintedToken(d, InstanceKey, instance, note);
    StripTwice(d, instance);
  }

  // ----- Round trips -----

  predicate NoneIn(s: string) {
    ';' !in s && '\n' !in s
  }

  lemma TokensArePlain(leg: int, status: ReceiveStatus)
    ensures NoneIn(Token(PortKey, Printed(leg + 1))) && NoneIn(Token(ReceiveKey, StatusText(status)))
    ensures NoneIn(PrefixOf(InstanceKey))
  {
    PrintedIsPlain(leg + 1);
    assert NoneIn(Printed(leg + 1));
    assert NoneIn(PrefixOf(PortKey)) && NoneIn(PrefixOf(ReceiveKey));
    assert NoneIn(StatusText(status));
  }

  /** Every printed note reads back with its status, the leg of `LegRead` and, if it holds no `;`, the
      instance without outer space. */
  lemma PrintedNoteReadsAs(d: Dialect, note: Note, defaultLeg: int)
    requires ';' !in note.instance
    ensures ReadNote(d, NoteText(note), defaultLeg)
         == Note(LegRead(note.leg, defaultLeg), note.status, Strip(d, note.instance))
  {
    var n0 := Note(defaultLeg, AskFirst, "");
    var n1 := n0.(leg := LegRead(note.leg, defaultLeg));
    var n2 := n1.(status := note.status);
    var port, status := Token(PortKey, Printed(note.leg + 1)), Token(ReceiveKey, StatusText(note.status));
    TokensArePlain(note.leg, note.status);
    ReadPortToken(d, note.leg, n0);
    ReadStatusToken(d, note.status, n1);
    if note.instance == "" {
      TwoTokens(d, port, status, n0);
    } else {
      var instance := Token(InstanceKey, note.instance);
      ThreeTokens(d, port, status, instance, n0);
      ReadInstanceToken(d, note.instance, n2);
    }
  }

  lemma TwoTokens(d: Dialect, a: string, b: string, note: Note)
    requires ';' !in a && ';' !in b
    ensures ReadFrom(d, a + [';'] + b + "", note) == ReadToken(d, b, ReadToken(d, a, note))
  {
    ReadPiece(d, a, b, note);
    ReadLast(d, b, ReadToken(d, a, note));
    assert a + [';'] + b + "" == a + [';'] + b;
  }

  lemma ThreeTokens(d: Dialect, a: string, b: string, c: string, note: Note)
    requires ';' !in a && ';' !in b && ';' !in c
    ensures ReadFrom(d, a + [';'] + b + ([';'] + c), note) == ReadToken(d, c, ReadToken(d, b, ReadToken(d, a, note)))
  {
    assert a + [';'] + b + ([';'] + c) == a + [';'] + (b + [';'] + c);
    ReadPiece(d, a, b + [';'] + c, note);
    ReadPiece(d, b, c, ReadToken(d, a, note));
    ReadLast(d, c, ReadToken(d, b, ReadToken(d, a, note)));
  }

  /** No reader ever returns an instance with a separator in it. */
  lemma {:induction false} InstancesHaveNoSeparator(d: Dialect, tokens: seq<string>, note: Note)
    requires ';' !in note.instance && forall i :: 0 <= i < |tokens| ==> ';' !in tokens[i]
    ensures ';' !in ReadTokens(d, tokens, note).instance
  {
    if tokens != [] {
      var t := TokenText(d, tokens[0]);
      CutFacts(Space(d), tokens[0]);
      var key := KeyAt(t);
      var value := if PrefixOf(key) <= t then t[|PrefixOf(key)|..] else t;
      CutFacts(Space(d), value);
      InstancesHaveNoSeparator(d, tokens[1..], ReadToken(d, tokens[0], note));
    }
  }

  predicate CarriesInstance(d: Dialect, instance: string) {
    Stripped(d, instance) && ';' !in instance
  }

  predicate CarriesLeg(leg: int, defaultLeg: int) {
    0 <= leg < LEG_COUNT || (leg == defaultLeg && leg != -1)
  }

  /** Parse undoes build exactly for legs 0 to 3 (or the default itself) and instances a token can hold. */
  lemma NoteRoundTrip(d: Dialect, note: Note, defaultLeg: int)
    ensures ReadNote(d, NoteText(note), defaultLeg) == note
       <==> CarriesLeg(note.leg, defaultLeg) && CarriesInstance(d, note.instance)
  {
    if ';' in note.instance {
      PiecesHaveNoSeparator(NoteText(note), ';');
      InstancesHaveNoSeparator(d, Split(NoteText(note), ';'), Note(defaultLeg, AskFirst, ""));
    } else {
      PrintedNoteReadsAs(d, note, defaultLeg);
      CutFacts(Space(d), note.instance);
    }
  }

  /** `build_announce_note` and `buildAnnounceNote`: what either reader makes of the built note. */
  method BuildAnnounceNote(leg: int, status: ReceiveStatus, instance: string) returns (text: string)
    ensures text == NoteText(Note(leg, status, instance))
    ensures forall d: Dialect, defaultLeg: int ::
      ReadNote(d, text, defaultLeg) == Note(leg, status, instance)
      <==> CarriesLeg(leg, defaultLeg) && CarriesInstance(d, instance)
  {
    text := PrefixOf(PortKey) + Printed(leg + 1) + [';'] + PrefixOf(ReceiveKey) + StatusText(status);
    if instance != "" {
      text := text + [';'] + PrefixOf(InstanceKey) + instance;
    }
    assert text == NoteText(Note(leg, status, instance)) by {
      hide Printed, PrefixOf, StatusText;
      Grouped(PrefixOf(PortKey), Printed(leg + 1), PrefixOf(ReceiveKey), StatusText(status),
              PrefixOf(InstanceKey), instance);
    }
    hide *;
    EveryReader(Note(leg, status, instance));
  }

  lemma Grouped(a: string, b: string, c: string, d: string, e: string, f: string)
    ensures a + b + [';'] + c + d == (a + b) + [';'] + (c + d) + ""
    ensures a + b + [';'] + c + d + [';'] + e + f == (a + b) + [';'] + (c + d) + ([';'] + (e + f))
  {
  }

  lemma EveryReader(note: Note)
    ensures forall d: Dialect, defaultLeg: int ::
      ReadNote(d, NoteText(note), defaultLeg) == note
      <==> CarriesLeg(note.leg, defaultLeg) && CarriesInstance(d, note.instance)
  {
    hide *;
    forall d: Dialect, defaultLeg: int
      ensures ReadNote(d, NoteText(note), defaultLeg) == note
         <==> CarriesLeg(note.leg, defaultLeg) && CarriesInstance(d, note.instance)
    {
      NoteRoundTrip(d, note, defaultLeg);
    }
  }

  /** An announce as `buildAnnounceMessage` and `maybe_send_announce` fill it in. */
  function AnnounceMessage(fromName: string, team: string, sessionId: string, note: Note): Message {
    EmptyMessage().(
      kind := Announce, fromName := fromName, team := team, sessionId := sessionId, note := NoteText(note))
  }

  predicate Heard(d: Dialect, message: Message, note: Note, defaultLeg: int) {
    Reading(d, TextOf(message)) == Read(message) && ReadNote(d, message.note, defaultLeg) == note
  }

  lemma NoteIsClean(d: Dialect, note: Note)
    requires CarriesInstance(d, note.instance)
    ensures Trimmed(d, NoteText(note)) && ('\n' in NoteText(note) <==> '\n' in note.instance)
  {
    NoteNewlines(note);
    NoteEnds(note);
  }

  lemma NoteNewlines(note: Note)
    ensures '\n' in NoteText(note) <==> '\n' in note.instance
  {
    TokensArePlain(note.leg, note.status);
    if note.instance != "" {
      var front := Token(PortKey, Printed(note.leg + 1)) + [';'] + Token(ReceiveKey, StatusText(note.status)) + [';']
                   + PrefixOf(InstanceKey);
      assert '\n' !in Token(PortKey, Printed(note.leg + 1)) && '\n' !in Token(ReceiveKey, StatusText(note.status));
      assert '\n' !in front;
      assert NoteText(note) == front + note.instance;
    }
  }

  lemma NoteEnds(note: Note)
    ensures NoteText(note) != [] && NoteText(note)[0] == 'p'
    ensures var last := NoteText(note)[|NoteText(note)| - 1];
      if note.instance == "" then 'a' <= last <= 'z' else last == note.instance[|note.instance| - 1]
  {
    var port := Token(PortKey, Printed(note.leg + 1));
    assert port[0] == 'p' && NoteText(note)[0] == port[0];
    if note.instance == "" {
      var status := StatusText(note.status);
      assert NoteText(note)[|NoteText(note)| - 1] == status[|status| - 1];
    }
  }

  /** The whole way, note to message to text to message to note, in either reader: an announce for a leg of
      the fabric survives exactly when its instance has no outer space, no `;` and no newline. */
  lemma AnnounceSurvives(d: Dialect, fromName: string, team: string, sessionId: string, note: Note, defaultLeg: int)
    requires 0 <= note.leg < LEG_COUNT && sessionId != ""
    requires Clean(d, fromName) && Clean(d, team) && Clean(d, sessionId)
    ensures Heard(d, AnnounceMessage(fromName, team, sessionId, note), note, defaultLeg)
       <==> CarriesInstance(d, note.instance) && '\n' !in note.instance
    ensures Heard(d, AnnounceMessage(fromName, team, sessionId, note), note, defaultLeg) ==>
      var heard := Reading(d, TextOf(AnnounceMessage(fromName, team, sessionId, note))).message;
      heard.kind == Announce && heard.fromName == fromName && heard.team == team && heard.sessionId == sessionId
  {
    var message := AnnounceMessage(fromName, team, sessionId, note);
    NoteRoundTrip(d, note, defaultLeg);
    RoundTripIffWellFormed(d, message);
    if CarriesInstance(d, note.instance) {
      NoteIsClean(d, note);
    }
  }

  /** The readers do differ: a no-break space at the end of an instance survives in C++ and is lost in TypeScript. */
  lemma SpacesTellTheReadersApart(defaultLeg: int)
    ensures var note := Note(0, Open, "a\U{A0}");
      && ReadNote(Cpp, NoteText(note), defaultLeg) == note
      && ReadNote(TypeScript, NoteText(note), defaultLeg) != note
  {
    var note := Note(0, Open, "a\U{A0}");
    assert CarriesInstance(Cpp, note.instance) && !CarriesInstance(TypeScript, note.instance);
    hide *;
    NoteRoundTrip(Cpp, note, defaultLeg);
    NoteRoundTrip(TypeScript, note, defaultLeg);
    assert CarriesLeg(0, defaultLeg) by {
      LegZeroIsCarried(defaultLeg);
    }
  }

  lemma LegZeroIsCarried(defaultLeg: int)
    ensures CarriesLeg(0, defaultLeg)
  {
  }

  /** The ids `make_instance_id` draws, twelve hexadecimal digits, always survive. */
  lemma GeneratedIdsSurvive(d: Dialect, instance: string)
    requires forall i :: 0 <= i < |instance| ==> IsDigit(instance[i]) || 'a' <= instance[i] <= 'f'
    ensures CarriesInstance(d, instance) && '\n' !in instance
  {
    if instance != "" {
      assert IsDigit(instance[0]) || 'a' <= instance[0] <= 'f';
      assert IsDigit(instance[|instance| - 1]) || 'a' <= instance[|instance| - 1] <= 'f';
    }
  }
}
