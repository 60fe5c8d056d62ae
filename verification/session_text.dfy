/**
 FABRIC-SESSION-v1: the text that carries session messages, as the TypeScript SDK and the C++ library
 print and read it.
 */
module SessionText {
  import opened Prelude

  datatype Kind = Offer | Accept | Decline | Ready | Announce | Unknown

  datatype Message = Message(
    kind: Kind,
    fromName: string,
    team: string,
    sessionId: string,
    toName: string,
    note: string,
    payloadType: string,
    payloadName: string,
    fileCount: int,
    totalBytes: int)

  /** The two readers differ in what they trim and in how they read numbers. */
  datatype Dialect = TypeScript | Cpp

  datatype ReadResult = Read(message: Message) | Refused | Threw

  const HEADER: string := "FABRIC-SESSION-v1\n"
  const WORD32: int := 0x1_0000_0000
  const WORD64: int := 0x1_0000_0000_0000_0000

  /** The keys of the format, in the order they are printed. */
  datatype Field =
    | KindField | FromField | TeamField | IdField | ToField | NoteField
    | TypeField | NameField | FilesField | BytesField | OtherField

  function KeyOf(f: Field): string {
    match f
    case KindField => "kind"
    case FromField => "from"
    case TeamField => "team"
    case IdField => "session_id"
    case ToField => "to"
    case NoteField => "note"
    case TypeField => "payload_type"
    case NameField => "payload_name"
    case FilesField => "files"
    case BytesField => "total_bytes"
    case OtherField => ""
  }

  function FieldOf(key: string): Field {
    if key == "kind" then KindField
    else if key == "from" then FromField
    else if key == "team" then TeamField
    else if key == "session_id" then IdField
    else if key == "to" then ToField
    else if key == "note" then NoteField
    else if key == "payload_type" then TypeField
    else if key == "payload_name" then NameField
    else if key == "files" then FilesField
    else if key == "total_bytes" then BytesField
    else OtherField
  }

  function EmptyMessage(): Message {
    Message(Unknown, "", "", "", "", "", "", "", 0, 0)
  }

  function KindText(kind: Kind): string {
    match kind
    case Offer => "offer"
    case Accept => "accept"
    case Decline => "decline"
    case Ready => "ready"
    case Announce => "announce"
    case Unknown => "unknown"
  }

  function KindOf(s: string): Kind {
    if s == "offer" then Offer
    else if s == "accept" then Accept
    else if s == "decline" then Decline
    else if s == "ready" then Ready
    else if s == "announce" then Announce
    else Unknown
  }

  // ----- Trimming -----

  /** White space to `String.prototype.trim`. */
  predicate IsJsSpace(c: char) {
    || c == '\t' || c == '\n' || c == '\U{0B}' || c == '\U{0C}' || c == '\r' || c == ' '
    || c == '\U{A0}' || c == '\U{1680}' || '\U{2000}' <= c <= '\U{200A}'
    || c == '\U{2028}' || c == '\U{2029}' || c == '\U{202F}' || c == '\U{205F}' || c == '\U{3000}' || c == '\U{FEFF}'
  }

  /** What counts as outer space: to JavaScript, to the C++ line reader, to `std::isspace`. */
  datatype Blanks = JsBlanks | LineBlanks | CBlanks

  predicate BlankAtEnd(b: Blanks, c: char) {
    match b
    case JsBlanks => IsJsSpace(c)
    case LineBlanks => c == '\r' || c == '\n' || c == ' '
    case CBlanks => c == ' ' || '\t' <= c <= '\r'
  }

  predicate BlankAtStart(b: Blanks, c: char) {
    match b
    case JsBlanks => IsJsSpace(c)
    case LineBlanks => c == ' '
    case CBlanks => c == ' ' || '\t' <= c <= '\r'
  }

  function CutEnd(b: Blanks, s: string): string {
    if s != [] && BlankAtEnd(b, s[|s| - 1]) then CutEnd(b, s[..|s| - 1]) else s
  }

  function CutStart(b: Blanks, s: string): string {
    if s != [] && BlankAtStart(b, s[0]) then CutStart(b, s[1..]) else s
  }

  function Cut(b: Blanks, s: string): string {
    CutStart(b, CutEnd(b, s))
  }

  predicate NothingToCut(b: Blanks, s: string) {
    s == [] || (!BlankAtStart(b, s[0]) && !BlankAtEnd(b, s[|s| - 1]))
  }

  lemma {:induction false} CutEndShape(b: Blanks, s: string)
    ensures CutEnd(b, s) <= s
    ensures var t := CutEnd(b, s); t == [] || !BlankAtEnd(b, t[|t| - 1])
  {
    if s != [] && BlankAtEnd(b, s[|s| - 1]) {
      CutEndShape(b, s[..|s| - 1]);
    }
  }

  lemma {:induction false} CutStartShape(b: Blanks, s: string)
    ensures var t := CutStart(b, s); |t| <= |s| && t == s[|s| - |t|..] && (t == [] || !BlankAtStart(b, t[0]))
  {
    if s != [] && BlankAtStart(b, s[0]) {
      CutStartShape(b, s[1..]);
      var t := CutStart(b, s);
      assert t == s[1..][|s| - 1 - |t|..] == s[|s| - |t|..];
    }
  }

  /** Cutting leaves nothing to cut, takes its text from the original, and leaves exactly such text alone. */
  lemma CutFacts(b: Blanks, s: string)
    ensures NothingToCut(b, Cut(b, s))
    ensures Cut(b, s) == s <==> NothingToCut(b, s)
    ensures forall c :: c in Cut(b, s) ==> c in s
  {
    CutEndShape(b, s);
    CutStartShape(b, CutEnd(b, s));
  }

  /** What a session reader trims. */
  function BlanksOf(d: Dialect): Blanks {
    if d == TypeScript then JsBlanks else LineBlanks
  }

  function Trim(d: Dialect, s: string): string {
    Cut(BlanksOf(d), s)
  }

  /** Nothing for the reader to trim. */
  predicate Trimmed(d: Dialect, s: string) {
    NothingToCut(BlanksOf(d), s)
  }

  lemma TrimFacts(d: Dialect, s: string)
    ensures Trimmed(d, Trim(d, s))
    ensures Trim(d, s) == s <==> Trimmed(d, s)
    ensures forall c :: c in Trim(d, s) ==> c in s
  {
    CutFacts(BlanksOf(d), s);
  }

  // ----- Numbers -----

  function Digit(n: nat): char
    requires n < 10
  {
    '0' + n as char
  }

  function Decimal(n: nat): (s: string)
    ensures s != []
  {
    if n < 10 then [Digit(n)] else Decimal(n / 10) + [Digit(n % 10)]
  }

  predicate IsDigit(c: char) {
    '0' <= c <= '9'
  }

  /** How many digits `s` starts with. */
  function DigitRun(s: string): (k: nat)
    ensures k <= |s| && forall i :: 0 <= i < k ==> IsDigit(s[i])
  {
    if s == [] || !IsDigit(s[0]) then 0 else 1 + DigitRun(s[1..])
  }

  function Value(s: string): nat
    requires forall i :: 0 <= i < |s| ==> IsDigit(s[i])
  {
    if s == [] then 0 else assert IsDigit(s[|s| - 1]); 10 * Value(s[..|s| - 1]) + (s[|s| - 1] as int - '0' as int)
  }

  lemma {:induction false} DecimalIsDigits(n: nat)
    ensures forall i :: 0 <= i < |Decimal(n)| ==> IsDigit(Decimal(n)[i])
  {
    if n >= 10 {
      DecimalIsDigits(n / 10);
    }
  }

  lemma {:induction false} DecimalRoundTrip(n: nat)
    ensures forall i :: 0 <= i < |Decimal(n)| ==> IsDigit(Decimal(n)[i])
    ensures Value(Decimal(n)) == n
  {
    DecimalIsDigits(n);
    if n >= 10 {
      DecimalIsDigits(n / 10);
      DecimalRoundTrip(n / 10);
      assert Decimal(n)[..|Decimal(n)| - 1] == Decimal(n / 10);
    }
  }

  lemma {:induction false} DigitRunOfDigits(s: string)
    requires forall i :: 0 <= i < |s| ==> IsDigit(s[i])
    ensures DigitRun(s) == |s|
  {
    if s != [] {
      DigitRunOfDigits(s[1..]);
    }
  }

  function SkipSpace(s: string): string {
    if s != [] && (s[0] == ' ' || '\t' <= s[0] <= '\r') then SkipSpace(s[1..]) else s
  }

  /** A sign, then as many digits as there are. */
  function Signed(s: string): Option<int> {
    var negative := s != [] && s[0] == '-';
    var body := if s != [] && (s[0] == '-' || s[0] == '+') then s[1..] else s;
    var k := DigitRun(body);
    if k == 0 then None else Some(if negative then -(Value(body[..k]) as int) else Value(body[..k]))
  }

  /** `Number.parseInt(value, 10) || 0`; `std::stoull(value)`, which throws without digits or out of range
      and wraps a negative number. */
  function Number(d: Dialect, s: string): Option<int> {
    match d
    case TypeScript => Some(match Signed(s) case None => 0 case Some(n) => n)
    case Cpp =>
      match Signed(SkipSpace(s))
      case None => None
      case Some(n) => if n <= -WORD64 || n >= WORD64 then None else Some(if n < 0 then n + WORD64 else n)
  }

  lemma SignedOfDigits(s: string)
    requires s != [] && forall i :: 0 <= i < |s| ==> IsDigit(s[i])
    ensures Signed(s) == Some(Value(s)) && SkipSpace(s) == s
  {
    DigitRunOfDigits(s);
    assert s[0] != '-' && s[0] != '+';
    assert s[..|s|] == s;
  }

  lemma DigitsAreTrimmed(d: Dialect, s: string)
    requires forall i :: 0 <= i < |s| ==> IsDigit(s[i])
    ensures Trimmed(d, s) && '\n' !in s
  {
    if s != [] {
      assert IsDigit(s[0]) && IsDigit(s[|s| - 1]);
    }
  }

  lemma NumberOfDigits(d: Dialect, s: string)
    requires s != [] && forall i :: 0 <= i < |s| ==> IsDigit(s[i])
    requires d == Cpp ==> Value(s) < WORD64
    ensures Number(d, s) == Some(Value(s))
  {
    SignedOfDigits(s);
    var v := Value(s);
    assert Signed(SkipSpace(s)) == Some(v);
  }

  lemma NumberOfDecimal(d: Dialect, n: nat)
    requires d == Cpp ==> n < WORD64
    ensures Number(d, Decimal(n)) == Some(n)
    ensures Trimmed(d, Decimal(n)) && '\n' !in Decimal(n)
  {
    var s := Decimal(n);
    DecimalRoundTrip(n);
    NumberOfDigits(d, s);
    DigitsAreTrimmed(d, s);
  }

  // ----- Lines -----

  function IndexOf(s: string, c: char): (k: nat)
    ensures k <= |s| && (k < |s| ==> s[k] == c) && c !in s[..k]
  {
    if s == [] || s[0] == c then 0 else 1 + IndexOf(s[1..], c)
  }

  function Assign(d: Dialect, f: Field, value: string, m: Message): Option<Message> {
    match f
    case KindField => Some(m.(kind := KindOf(value)))
    case FromField => Some(m.(fromName := value))
    case TeamField => Some(m.(team := value))
    case IdField => Some(m.(sessionId := value))
    case ToField => Some(m.(toName := value))
    case NoteField => Some(m.(note := value))
    case TypeField => Some(m.(payloadType := value))
    case NameField => Some(m.(payloadName := value))
    case FilesField =>
      (match Number(d, value)
       case None => None
       case Some(n) => Some(m.(fileCount := if d == Cpp then n % WORD32 else n)))
    case BytesField =>
      (match Number(d, value)
       case None => None
       case Some(n) => Some(m.(totalBytes := n)))
    case OtherField => Some(m)
  }

  /** `parse_line`; `None` stands for an exception. */
  function ParseLine(d: Dialect, line: string, m: Message): Option<Message> {
    var eq := IndexOf(line, '=');
    if eq == |line| then Some(m)
    else Assign(d, FieldOf(Trim(d, line[..eq])), Trim(d, line[eq + 1..]), m)
  }

  function StripCr(line: string): string {
    if line != [] && line[|line| - 1] == '\r' then line[..|line| - 1] else line
  }

  function ParseRawLine(d: Dialect, raw: string, m: Message): Option<Message> {
    var line := StripCr(raw);
    if line == [] then Some(m) else ParseLine(d, line, m)
  }

  function FoldLines(d: Dialect, lines: seq<string>, m: Message): Option<Message> {
    if lines == [] then Some(m)
    else
      match ParseRawLine(d, lines[0], m)
      case None => None
      case Some(next) => FoldLines(d, lines[1..], next)
  }

  /** `split`: one more piece than there are separators. */
  function Split(s: string, separator: char): (pieces: seq<string>)
    ensures |pieces| > 0
  {
    if s == [] then [[]]
    else if s[0] == separator then [[]] + Split(s[1..], separator)
    else
      var rest := Split(s[1..], separator);
      [[s[0]] + rest[0]] + rest[1..]
  }

  /** What both readers compute. */
  function Reading(d: Dialect, text: string): ReadResult {
    if !(HEADER <= text) then Refused
    else
      match FoldLines(d, Split(text[|HEADER|..], '\n'), EmptyMessage())
      case None => Threw
      case Some(m) => if m.kind == Unknown || m.sessionId == "" then Refused else Read(m)
  }

  // ----- Printing -----

  function Line(key: string, value: string): string {
    key + "=" + value
  }

  function Entry(f: Field, value: string): string {
    Line(KeyOf(f), value)
  }

  function Optional(f: Field, value: string): seq<string> {
    if value == "" then [] else [Entry(f, value)]
  }

  function OptionalNumber(f: Field, n: int): seq<string> {
    if n > 0 then [Entry(f, Decimal(n))] else []
  }

  function Head(m: Message): seq<string> {
    [Entry(KindField, KindText(m.kind))] + [Entry(FromField, m.fromName)]
    + [Entry(TeamField, m.team)] + [Entry(IdField, m.sessionId)]
  }

  function LinesOf(m: Message): seq<string> {
    Head(m)
    + Optional(ToField, m.toName) + Optional(NoteField, m.note)
    + Optional(TypeField, m.payloadType) + Optional(NameField, m.payloadName)
    + OptionalNumber(FilesField, m.fileCount) + OptionalNumber(BytesField, m.totalBytes)
  }

  /** Every line followed by a newline. */
  function Terminated(lines: seq<string>): string {
    if lines == [] then "" else lines[0] + "\n" + Terminated(lines[1..])
  }

  function TextOf(m: Message): string {
    HEADER + Terminated(LinesOf(m))
  }
}
