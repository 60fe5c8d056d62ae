/**
 What a reader of session messages makes of any text at all: every field has the value that the last line for it
 gives, lines for nothing known are ignored, and numbers are read as far as they go.
 */
module SessionReading {
  import opened Prelude
  import opened SessionText
  import opened SessionCodec

  // ----- What a line says -----

  /** The value a line gives for a field: what is behind the first `=`, when what is before it is the field's key; the
      space around both does not count. */
  function ValueIn(d: Dialect, line: string, f: Field): Option<string> {
    var eq := IndexOf(line, '=');
    if eq < |line| && FieldOf(Trim(d, line[..eq])) == f then Some(Trim(d, line[eq + 1..])) else None
  }

  function OrElse(newer: Option<string>, older: Option<string>): Option<string> {
    if newer.Some? then newer else older
  }

  /** The value that the last line for the field gives. */
  function LastIn(d: Dialect, lines: seq<string>, f: Field): Option<string> {
    if lines == [] then None
    else OrElse(ValueIn(d, lines[|lines| - 1], f), LastIn(d, lines[..|lines| - 1], f))
  }

  function TextIn(d: Dialect, lines: seq<string>, f: Field): string {
    match LastIn(d, lines, f)
    case None => ""
    case Some(value) => value
  }

  /** An absent count is zero. */
  function CountIn(d: Dialect, lines: seq<string>, f: Field): Option<int> {
    match LastIn(d, lines, f)
    case None => Some(0)
    case Some(value) => Number(d, value)
  }

  /** Every field is what the lines say; the C++ reader keeps 32 bits of the number of files. */
  predicate SaidBy(d: Dialect, lines: seq<string>, m: Message) {
    && m.kind == KindOf(TextIn(d, lines, KindField))
    && m.fromName == TextIn(d, lines, FromField)
    && m.team == TextIn(d, lines, TeamField)
    && m.sessionId == TextIn(d, lines, IdField)
    && m.toName == TextIn(d, lines, ToField)
    && m.note == TextIn(d, lines, NoteField)
    && m.payloadType == TextIn(d, lines, TypeField)
    && m.payloadName == TextIn(d, lines, NameField)
    && CountIn(d, lines, BytesField) == Some(m.totalBytes)
    && CountIn(d, lines, FilesField).Some?
    && var files := CountIn(d, lines, FilesField).value; m.fileCount == if d == Cpp then files % WORD32 else files
  }

  /** A count in which no number, or one out of range, can be read makes the reader throw. */
  predicate ThrowsAt(d: Dialect, line: string) {
    exists f :: f in [FilesField, BytesField] && ValueIn(d, line, f).Some? && Number(d, ValueIn(d, line, f).value).None?
  }

  predicate ThrowsIn(d: Dialect, lines: seq<string>) {
    exists i :: 0 <= i < |lines| && ThrowsAt(d, lines[i])
  }

  // ----- One line at a time -----

  lemma CutOfCr(d: Dialect, s: string)
    requires s != [] && s[|s| - 1] == '\r'
    ensures Trim(d, s) == Trim(d, s[..|s| - 1])
  {
  }

  lemma {:induction false} IndexInFront(s: string, c: char)
    requires s != [] && s[|s| - 1] != c
    ensures IndexOf(s[..|s| - 1], c) == if IndexOf(s, c) == |s| then |s| - 1 else IndexOf(s, c)
  {
    if |s| > 1 && s[0] != c {
      IndexInFront(s[1..], c);
      assert s[..|s| - 1][1..] == s[1..][..|s| - 2];
    }
  }

  /** What `parse_line` makes of a line, empty or not. */
  function Meaning(d: Dialect, line: string, m: Message): Option<Message> {
    var eq := IndexOf(line, '=');
    if eq == |line| then Some(m) else Assign(d, FieldOf(Trim(d, line[..eq])), Trim(d, line[eq + 1..]), m)
  }

  lemma MeaningOfBare(d: Dialect, line: string, m: Message)
    requires line != [] && line[|line| - 1] == '\r'
    ensures Meaning(d, line[..|line| - 1], m) == Meaning(d, line, m)
  {
    IndexInFront(line, '=');
    var bare, eq := line[..|line| - 1], IndexOf(line, '=');
    hide Trim, FieldOf, Assign, IndexOf;
    if eq < |line| {
      assert line[..eq] == bare[..eq];
      assert bare[eq + 1..] == line[eq + 1..][..|line[eq + 1..]| - 1];
      CutOfCr(d, line[eq + 1..]);
    }
  }

  /** A carriage return at the end does not count, nor does a line without `=`. */
  lemma LineMeans(d: Dialect, line: string, m: Message)
    ensures ParseRawLine(d, line, m) == Meaning(d, line, m)
  {
    hide Trim, FieldOf, Assign;
    if line != [] && line[|line| - 1] == '\r' {
      MeaningOfBare(d, line, m);
    }
  }

  lemma LastSnoc(d: Dialect, front: seq<string>, line: string, f: Field)
    ensures LastIn(d, front + [line], f) == OrElse(ValueIn(d, line, f), LastIn(d, front, f))
  {
    assert (front + [line])[..|front|] == front;
  }

  /** Assigning one field makes the message say what the lines say then. */
  lemma AssignSays(d: Dialect, front: seq<string>, lines: seq<string>, f: Field, value: string, m: Message)
    requires SaidBy(d, front, m)
    requires forall g: Field :: g != OtherField ==>
      LastIn(d, lines, g) == if g == f then Some(value) else LastIn(d, front, g)
    ensures match Assign(d, f, value, m)
      case None => (f == FilesField || f == BytesField) && Number(d, value).None?
      case Some(n) => SaidBy(d, lines, n) && (f == FilesField || f == BytesField ==> Number(d, value).Some?)
  {
    hide LastIn, KindOf, Number;
  }

  lemma LastAfter(d: Dialect, front: seq<string>, line: string)
    ensures forall f: Field :: LastIn(d, front + [line], f) == OrElse(ValueIn(d, line, f), LastIn(d, front, f))
  {
    forall f: Field ensures LastIn(d, front + [line], f) == OrElse(ValueIn(d, line, f), LastIn(d, front, f)) {
      LastSnoc(d, front, line, f);
    }
  }

  lemma ReadOne(d: Dialect, front: seq<string>, line: string, m: Message)
    requires SaidBy(d, front, m)
    ensures ParseRawLine(d, line, m).None? <==> ThrowsAt(d, line)
    ensures ParseRawLine(d, line, m).Some? ==> SaidBy(d, front + [line], ParseRawLine(d, line, m).value)
  {
    hide ParseRawLine, Trim, FieldOf, LastIn, IndexOf, Assign, KindOf, Number;
    LineMeans(d, line, m);
    LastAfter(d, front, line);
    var eq := IndexOf(line, '=');
    if eq < |line| {
      var f, value := FieldOf(Trim(d, line[..eq])), Trim(d, line[eq + 1..]);
      assert forall g: Field :: ValueIn(d, line, g) == if g == f then Some(value) else None;
      assert Meaning(d, line, m) == Assign(d, f, value, m);
      hide SaidBy, ValueIn, Meaning;
      AssignSays(d, front, front + [line], f, value, m);
      if f == FilesField || f == BytesField {
        assert ThrowsAt(d, line) <==> Number(d, ValueIn(d, line, f).value).None?;
      }
    }
  }

  lemma ThrowsSnoc(d: Dialect, front: seq<string>, last: string)
    ensures ThrowsIn(d, front + [last]) <==> ThrowsIn(d, front) || ThrowsAt(d, last)
  {
    hide ThrowsAt;
    var lines := front + [last];
    assert lines[|front|] == last && forall i :: 0 <= i < |front| ==> front[i] == lines[i];
  }

  lemma {:induction false} ReadAll(d: Dialect, lines: seq<string>)
    ensures match FoldLines(d, lines, EmptyMessage())
      case None => ThrowsIn(d, lines)
      case Some(m) => !ThrowsIn(d, lines) && SaidBy(d, lines, m)
  {
    if lines != [] {
      hide SaidBy, ThrowsAt, ThrowsIn, ParseRawLine;
      var front, last := lines[..|lines| - 1], lines[|lines| - 1];
      assert lines == front + [last];
      ReadAll(d, front);
      FoldAppend(d, front, [last], EmptyMessage());
      assert [last][1..] == [];
      ThrowsSnoc(d, front, last);
      var before := FoldLines(d, front, EmptyMessage());
      if before.Some? {
        ReadOne(d, front, last, before.value);
      }
    }
  }

  /** Any text at all: behind the title, a line whose count cannot be read makes the C++ reader throw, and nothing
      makes the other throw; otherwise the text is refused for want of a known kind or of an id, or every field of the
      message is what the last line for it says. */
  lemma ReadingMeans(d: Dialect, text: string)
    ensures !(HEADER <= text) ==> Reading(d, text) == Refused
    ensures HEADER <= text ==>
      var lines := Split(text[|HEADER|..], '\n');
      && (Reading(d, text) == Threw <==> ThrowsIn(d, lines))
      && (ThrowsIn(d, lines) ==> d == Cpp)
      && (Reading(d, text) == Refused <==>
            !ThrowsIn(d, lines) && (KindOf(TextIn(d, lines, KindField)) == Unknown || TextIn(d, lines, IdField) == ""))
      && (Reading(d, text).Read? ==> SaidBy(d, lines, Reading(d, text).message))
  {
    if HEADER <= text {
      var lines := Split(text[|HEADER|..], '\n');
      ReadAll(d, lines);
      hide FoldLines, LastIn;
      if i :| 0 <= i < |lines| && ThrowsAt(d, lines[i]) {
      }
    }
  }

  // ----- Numbers -----

  predicate Digits(s: string) {
    forall i :: 0 <= i < |s| ==> IsDigit(s[i])
  }

  lemma {:induction false} DigitRunStops(digits: string, tail: string)
    requires Digits(digits) && (tail == "" || !IsDigit(tail[0]))
    ensures DigitRun(digits + tail) == |digits|
  {
    if digits == "" {
      assert digits + tail == tail;
    } else {
      assert (digits + tail)[1..] == digits[1..] + tail;
      DigitRunStops(digits[1..], tail);
    }
  }

  lemma SignedPlain(digits: string, tail: string)
    requires Digits(digits) && (tail == "" || !IsDigit(tail[0]))
    requires digits == "" ==> tail == "" || (tail[0] != '-' && tail[0] != '+')
    ensures Signed(digits + tail) == if digits == "" then None else Some(Value(digits))
  {
    var s := digits + tail;
    DigitRunStops(digits, tail);
    assert s[..|digits|] == digits;
    hide DigitRun, Value;
    assert s != "" ==> s[0] == if digits != "" then digits[0] else tail[0];
  }

  lemma SignedWithSign(sign: char, digits: string, tail: string)
    requires (sign == '+' || sign == '-') && Digits(digits) && (tail == "" || !IsDigit(tail[0]))
    ensures Signed([sign] + (digits + tail))
         == if digits == "" then None else Some(if sign == '-' then -(Value(digits) as int) else Value(digits))
  {
    var s := [sign] + (digits + tail);
    DigitRunStops(digits, tail);
    assert (digits + tail)[..|digits|] == digits;
    assert s[0] == sign && s[1..] == digits + tail;
    hide DigitRun, Value;
  }

  lemma {:induction false} SpaceIsSkipped(space: string, s: string)
    requires forall i :: 0 <= i < |space| ==> BlankAtStart(CBlanks, space[i])
    requires s != "" ==> !BlankAtStart(CBlanks, s[0])
    ensures SkipSpace(space + s) == s
  {
    if space == "" {
      assert space + s == s;
    } else {
      assert (space + s)[1..] == space[1..] + s;
      SpaceIsSkipped(space[1..], s);
    }
  }

  /** What the readers make of a count in which `v` can be read, if anything can, behind space that only C++ skips. */
  predicate ReadAs(space: string, s: string, v: Option<int>) {
    && Number(TypeScript, s) == Some(if v.Some? then v.value else 0)
    && Number(Cpp, space + s) == if v.Some? && -WORD64 < v.value < WORD64 then Some(v.value % WORD64) else None
  }

  lemma ReadAsSigned(space: string, s: string)
    requires forall i :: 0 <= i < |space| ==> BlankAtStart(CBlanks, space[i])
    requires s != "" ==> !BlankAtStart(CBlanks, s[0])
    ensures ReadAs(space, s, Signed(s))
  {
    SpaceIsSkipped(space, s);
    hide Signed, SkipSpace;
  }

  /** A count is read as far as it goes: a sign, then digits, then anything.  Without digits the TypeScript reader
      takes zero and the C++ reader throws; it also throws out of range, and wraps a negative number around. */
  lemma NumbersAreRead(space: string, sign: char, digits: string, tail: string)
    requires forall i :: 0 <= i < |space| ==> BlankAtStart(CBlanks, space[i])
    requires (sign == '+' || sign == '-') && Digits(digits) && (tail == "" || !IsDigit(tail[0]))
    ensures ReadAs(space, [sign] + (digits + tail),
                   if digits == "" then None else Some(if sign == '-' then -(Value(digits) as int) else Value(digits)))
    ensures digits != "" ==> ReadAs(space, digits + tail, Some(Value(digits)))
    ensures tail == "" || !(BlankAtStart(CBlanks, tail[0]) || tail[0] == '-' || tail[0] == '+') ==>
      ReadAs(space, tail, None)
  {
    SignedWithSign(sign, digits, tail);
    ReadAsSigned(space, [sign] + (digits + tail));
    if digits != "" {
      SignedPlain(digits, tail);
      assert (digits + tail)[0] == digits[0];
      ReadAsSigned(space, digits + tail);
    }
    if tail == "" || !(BlankAtStart(CBlanks, tail[0]) || tail[0] == '-' || tail[0] == '+') {
      SignedPlain("", tail);
      assert "" + tail == tail;
      ReadAsSigned(space, tail);
    }
    hide *;
  }

  // ----- The format itself -----

  /** The title, the keys and their order, as they go over the wire. */
  lemma PrintedOffer()
    ensures TextOf(EmptyMessage())[..18] == "FABRIC-SESSION-v1\n"
    ensures LinesOf(Message(Offer, "A", "red", "s1", "B", "hi", "file", "x.bin", 1, 20))
         == ["kind=offer", "from=A", "team=red", "session_id=s1", "to=B", "note=hi",
             "payload_type=file", "payload_name=x.bin", "files=1", "total_bytes=20"]
    ensures [KindText(Accept), KindText(Decline), KindText(Ready), KindText(Announce)]
         == ["accept", "decline", "ready", "announce"]
  {
    SampleEntries();
    var m := Message(Offer, "A", "red", "s1", "B", "hi", "file", "x.bin", 1, 20);
    hide Entry, Decimal;
    assert Head(m) == ["kind=offer"] + ["from=A"] + ["team=red"] + ["session_id=s1"];
    assert Optional(ToField, m.toName) == ["to=B"] && Optional(NoteField, m.note) == ["note=hi"];
    assert Optional(TypeField, m.payloadType) == ["payload_type=file"];
    assert Optional(NameField, m.payloadName) == ["payload_name=x.bin"];
    assert OptionalNumber(FilesField, 1) == ["files=1"] && OptionalNumber(BytesField, 20) == ["total_bytes=20"];
  }

  lemma SampleEntries()
    ensures Entry(KindField, "offer") == "kind=offer" && Entry(FromField, "A") == "from=A"
    ensures Entry(TeamField, "red") == "team=red" && Entry(IdField, "s1") == "session_id=s1"
    ensures Entry(ToField, "B") == "to=B" && Entry(NoteField, "hi") == "note=hi"
    ensures Entry(TypeField, "file") == "payload_type=file" && Entry(NameField, "x.bin") == "payload_name=x.bin"
    ensures Entry(FilesField, Decimal(1)) == "files=1" && Entry(BytesField, Decimal(20)) == "total_bytes=20"
  {
    assert Decimal(2) == "2" && Decimal(1) == "1" && Decimal(20) == Decimal(2) + "0";
  }
}
