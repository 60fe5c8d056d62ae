/**
 What a reader makes of any announce note at all: of the tokens between semicolons the last one of each kind counts.
 */
module NoteReading {
  import opened Prelude
  import opened SessionText
  import opened AnnounceNote

  /** What is behind `prefix` at the start of a token. */
  function Behind(d: Dialect, token: string, prefix: string): Option<string> {
    var t := TokenText(d, token);
    if prefix <= t then Some(t[|prefix|..]) else None
  }

  /** The leg a token gives: `port=` and a number from 1 to 4, or 0 for the first leg. */
  function LegIn(d: Dialect, token: string): Option<int> {
    match Behind(d, token, "port=")
    case None => None
    case Some(value) =>
      match WirePort(d, value)
      case Some(port) => if port == 0 then Some(0) else if 1 <= port <= 4 then Some(port - 1) else None
      case None => None
  }

  /** The status a token gives; only the C++ reader trims the word, as the other has trimmed the token. */
  function StatusIn(d: Dialect, token: string): Option<ReceiveStatus> {
    match Behind(d, token, "receive=")
    case None => None
    case Some(value) =>
      var word := if d == Cpp then Strip(d, value) else value;
      Some(if word in ["open", "auto", "auto_accept"] then Open else if word == "busy" then Busy else AskFirst)
  }

  function InstanceIn(d: Dialect, token: string): Option<string> {
    match Behind(d, token, "instance=")
    case None => None
    case Some(value) => Some(Strip(d, value))
  }

  /** What the last token that gives anything gives, and a default without any. */
  function Last<T>(tokens: seq<string>, given: string -> Option<T>, default: T): T {
    if tokens == [] then default
    else
      match given(tokens[|tokens| - 1])
      case Some(value) => value
      case None => Last(tokens[..|tokens| - 1], given, default)
  }

  lemma LastSnoc<T>(front: seq<string>, token: string, given: string -> Option<T>, default: T)
    ensures Last(front + [token], given, default)
         == match given(token) case Some(value) => value case None => Last(front, given, default)
  {
    assert (front + [token])[..|front|] == front;
  }

  function OrOld<T>(given: Option<T>, was: T): T {
    match given
    case Some(value) => value
    case None => was
  }

  /** One token changes what it is for and nothing else. */
  lemma TokenMeans(d: Dialect, token: string, note: Note)
    ensures ReadToken(d, token, note)
         == Note(OrOld(LegIn(d, token), note.leg), OrOld(StatusIn(d, token), note.status),
                 OrOld(InstanceIn(d, token), note.instance))
  {
    hide WirePort, Strip;
    var t := TokenText(d, token);
    if t != "" {
      assert "port=" <= t ==> t[0] == 'p';
      assert "receive=" <= t ==> t[0] == 'r';
      assert "instance=" <= t ==> t[0] == 'i';
    }
  }

  lemma {:induction false} LastTokensCount(d: Dialect, tokens: seq<string>, start: Note)
    ensures ReadTokens(d, tokens, start)
         == Note(Last(tokens, t => LegIn(d, t), start.leg), Last(tokens, t => StatusIn(d, t), start.status),
                 Last(tokens, t => InstanceIn(d, t), start.instance))
  {
    if tokens != [] {
      var front, token := tokens[..|tokens| - 1], tokens[|tokens| - 1];
      assert tokens == front + [token];
      LastTokensCount(d, front, start);
      ReadSnoc(d, front, token, start);
      TokenMeans(d, token, ReadTokens(d, front, start));
    }
  }

  /** Any text: the leg, the status and the instance are what the last token of each kind gives; a port that is no leg
      gives nothing, and without such a token the leg is the default and the station asks first. */
  lemma ReadNoteMeans(d: Dialect, text: string, defaultLeg: int)
    ensures var tokens := Split(text, ';');
      ReadNote(d, text, defaultLeg)
      == Note(Last(tokens, t => LegIn(d, t), defaultLeg), Last(tokens, t => StatusIn(d, t), AskFirst),
              Last(tokens, t => InstanceIn(d, t), ""))
  {
    LastTokensCount(d, Split(text, ';'), Note(defaultLeg, AskFirst, ""));
  }
}
