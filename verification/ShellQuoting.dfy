/** The self-upgrade command and the quoting of the package version in it. */
module ShellQuoting {
  import opened Text

  /** The escaped form: the string in single quotes, each quote in it as quote, backslash, quote, quote. */
  function EscapedBody(s: string): string {
    if s == "" then "" else EscapedBody(s[..|s| - 1]) + (if s[|s| - 1] == '\'' then "'\\''" else [s[|s| - 1]])
  }

  function Escaped(s: string): string {
    "'" + EscapedBody(s) + "'"
  }

  method ShellEscape(s: string) returns (out: string)
    ensures out == Escaped(s)
  {
    out := "'";
    for i := 0 to |s|
      invariant out == "'" + EscapedBody(s[..i])
    {
      assert s[..i + 1][..i] == s[..i];
      if s[i] == '\'' {
        out := out + "'\\''";
      } else {
        out := out + [s[i]];
      }
    }
    assert s[..|s|] == s;
    out := out + "'";
  }

  /** The fixed part of the command, cut into short pieces. */
  const FRONTEND := "DEBIAN_FRONTEND=noninteractive "
  const CONFIGURE := "dpkg --configure -a && "
  const VRF := "ip vrf exec mgmt "
  const UPDATE := "apt-get update "
  const SOURCE_LIST := "-o Dir::Etc::sourcelist="
  const LIST_FILE := "sources.list.d/forge.list "
  const SOURCE_PARTS := "-o Dir::Etc::sourceparts=- "
  const LIST_CLEANUP := "-o APT::Get::List-Cleanup=0 "
  const AUTOCLEAN := "&& apt-get autoclean && "
  const INSTALL := "apt-get install --yes "
  const OPTIONS := "--allow-downgrades --reinstall "
  const PIECES: seq<string> :=
    [FRONTEND, CONFIGURE, VRF, UPDATE, SOURCE_LIST, LIST_FILE, SOURCE_PARTS, LIST_CLEANUP, AUTOCLEAN, FRONTEND, VRF,
     INSTALL, OPTIONS]
  const PACKAGE := "forge-dpu="

  function UpgradeCmd(version: string): string {
    Join(PIECES, "") + PACKAGE + Escaped(version)
  }

  method MakeUpgradeCmd(version: string) returns (cmd: string)
    ensures cmd == UpgradeCmd(version)
  {
    var escaped := ShellEscape(version);
    cmd := Join(PIECES, "") + PACKAGE + escaped;
  }

  // ---------------------------------------------------------------- the shell's side

  /**
   * Token recognition of the Shell Command Language of IEEE Std 1003.1-2017, restricted to the escape character
   * (section 2.2.1) and single quotes (section 2.2.2). Double quotes, expansions and comments end in `Outside`.
   * Operator characters are tokens of their own: `&&` reads as two.
   */
  datatype Mode = Unquoted | Escape | SingleQuoted | Outside

  /** A character of a word, and whether it is quoted, that is, protected from every expansion. */
  datatype Letter = Letter(c: char, quoted: bool)
  datatype Token = Word(letters: seq<Letter>) | Operator(c: char)

  datatype Lexer = Lexer(mode: Mode, word: Option<seq<Letter>>, tokens: seq<Token>)
  const LEXER := Lexer(Unquoted, None, [])

  function Letters(word: Option<seq<Letter>>): seq<Letter> {
    if word.Some? then word.value else []
  }

  function Add(l: Lexer, c: char, quoted: bool): Lexer {
    l.(word := Some(Letters(l.word) + [Letter(c, quoted)]))
  }

  function Delimit(l: Lexer): Lexer {
    if l.word.Some? then l.(word := None, tokens := l.tokens + [Word(l.word.value)]) else l
  }

  predicate IsOperator(c: char) {
    c == '\n' || c == '|' || c == '&' || c == ';' || c == '<' || c == '>' || c == '(' || c == ')'
  }

  function Read(l: Lexer, c: char): Lexer {
    match l.mode
    case Outside => l
    case SingleQuoted => if c == '\'' then l.(mode := Unquoted) else Add(l, c, true)
    case Escape => if c == '\n' then l.(mode := Unquoted) else Add(l.(mode := Unquoted), c, true)
    case Unquoted =>
      if c == '\'' then l.(mode := SingleQuoted, word := Some(Letters(l.word)))
      else if c == '\\' then l.(mode := Escape)
      else if c == ' ' || c == '\t' then Delimit(l)
      else if IsOperator(c) then var l' := Delimit(l); l'.(tokens := l'.tokens + [Operator(c)])
      else if c == '"' || c == '$' || c == '`' || (c == '#' && l.word.None?) then l.(mode := Outside)
      else Add(l, c, false)
  }

  function ReadAll(l: Lexer, s: string): Lexer {
    if s == "" then l else Read(ReadAll(l, s[..|s| - 1]), s[|s| - 1])
  }

  /** The tokens of a whole command; none if it ends inside quotes or leaves the modelled part of the language. */
  function Tokens(s: string): Option<seq<Token>> {
    var l := ReadAll(LEXER, s);
    if l.mode == Unquoted then Some(Delimit(l).tokens) else None
  }

  function Quoted(s: string, quoted: bool): seq<Letter> {
    seq(|s|, i requires 0 <= i < |s| => Letter(s[i], quoted))
  }

  lemma {:induction false} ReadConcat(l: Lexer, a: string, b: string)
    ensures ReadAll(l, a + b) == ReadAll(ReadAll(l, a), b)
  {
    if b == "" {
      assert a + b == a;
    } else {
      ReadConcat(l, a, b[..|b| - 1]);
      assert (a + b)[..|a + b| - 1] == a + b[..|b| - 1];
    }
  }

  lemma ReadOne(l: Lexer, c: char)
    ensures ReadAll(l, [c]) == Read(l, c)
  {
    assert [c][..0] == "";
  }

  /** Close, escape, reopen: in single quotes the four characters read as one quoted quote. */
  lemma QuoteReads(l: Lexer)
    requires l.mode == SingleQuoted && l.word.Some?
    ensures ReadAll(l, "'\\''") == Add(l, '\'', true)
  {
    ReadConcat(l, "'", "\\''");
    ReadConcat(ReadAll(l, "'"), "\\", "''");
    ReadConcat(ReadAll(ReadAll(l, "'"), "\\"), "'", "'");
    assert "'" + "\\''" == "'\\''" && "\\" + "''" == "\\''" && "'" + "'" == "''";
    ReadOne(l, '\'');
    ReadOne(ReadAll(l, "'"), '\\');
    ReadOne(ReadAll(ReadAll(l, "'"), "\\"), '\'');
    ReadOne(ReadAll(ReadAll(ReadAll(l, "'"), "\\"), "'"), '\'');
  }

  lemma {:induction false} BodyReads(l: Lexer, s: string)
    requires l.mode == SingleQuoted && l.word.Some?
    ensures ReadAll(l, EscapedBody(s)) == l.(word := Some(l.word.value + Quoted(s, true)))
  {
    if s == "" {
      assert l.word.value + Quoted(s, true) == l.word.value;
    } else {
      var front, c := s[..|s| - 1], s[|s| - 1];
      BodyReads(l, front);
      var l' := l.(word := Some(l.word.value + Quoted(front, true)));
      ReadConcat(l, EscapedBody(front), if c == '\'' then "'\\''" else [c]);
      if c == '\'' {
        QuoteReads(l');
      } else {
        ReadOne(l', c);
      }
      assert l.word.value + Quoted(front, true) + [Letter(c, true)] == l.word.value + Quoted(s, true);
    }
  }

  /**
   * From any unquoted point, the escaped string reads as exactly the string, fully quoted, within one word, and ends
   * unquoted.
   */
  lemma EscapedReadsBack(l: Lexer, s: string)
    requires l.mode == Unquoted
    ensures ReadAll(l, Escaped(s)) == l.(word := Some(Letters(l.word) + Quoted(s, true)))
  {
    ReadConcat(l, "'" + EscapedBody(s), "'");
    ReadConcat(l, "'", EscapedBody(s));
    ReadOne(l, '\'');
    var inQuotes := l.(mode := SingleQuoted, word := Some(Letters(l.word)));
    BodyReads(inQuotes, s);
    ReadOne(ReadAll(inQuotes, EscapedBody(s)), '\'');
  }

  /** Text without quotes, escapes, expansions or comment signs. */
  predicate Plain(s: string) {
    forall i :: 0 <= i < |s| ==>
      s[i] != '\'' && s[i] != '\\' && s[i] != '"' && s[i] != '$' && s[i] != '`' && s[i] != '#'
  }

  lemma {:induction false} PlainStaysUnquoted(l: Lexer, s: string)
    requires l.mode == Unquoted && Plain(s)
    ensures ReadAll(l, s).mode == Unquoted
  {
    if s != "" {
      PlainStaysUnquoted(l, s[..|s| - 1]);
    }
  }

  lemma {:induction false} PlainWordReads(l: Lexer, s: string)
    requires l.mode == Unquoted && Plain(s) && forall i :: 0 <= i < |s| ==>
      s[i] != ' ' && s[i] != '\t' && !IsOperator(s[i])
    requires s != ""
    ensures ReadAll(l, s) == l.(word := Some(Letters(l.word) + Quoted(s, false)))
  {
    var front, c := s[..|s| - 1], s[|s| - 1];
    if front == "" {
      assert s == [c];
      ReadOne(l, c);
      assert Quoted(s, false) == [Letter(c, false)];
    } else {
      PlainWordReads(l, front);
      assert Letters(l.word) + Quoted(front, false) + [Letter(c, false)] == Letters(l.word) + Quoted(s, false);
    }
  }

  lemma {:induction false} JoinIsPlain(pieces: seq<string>)
    requires forall i :: 0 <= i < |pieces| ==> Plain(pieces[i])
    ensures Plain(Join(pieces, ""))
  {
    if |pieces| > 1 {
      JoinIsPlain(pieces[1..]);
      assert Join(pieces, "") == pieces[0] + Join(pieces[1..], "");
    }
  }

  lemma {:induction false} EndsLikeLastPiece(pieces: seq<string>)
    requires pieces != [] && pieces[|pieces| - 1] != ""
    ensures Join(pieces, "") != "" &&
      Join(pieces, "")[|Join(pieces, "")| - 1] == pieces[|pieces| - 1][|pieces[|pieces| - 1]| - 1]
  {
    if |pieces| > 1 {
      EndsLikeLastPiece(pieces[1..]);
    }
  }

  lemma ConfigurePiecesArePlain()
    ensures Plain(FRONTEND) && Plain(CONFIGURE) && Plain(VRF)
  {
  }

  lemma UpdatePiecesArePlain()
    ensures Plain(UPDATE) && Plain(SOURCE_LIST) && Plain(LIST_FILE)
  {
  }

  lemma CleanPiecesArePlain()
    ensures Plain(SOURCE_PARTS) && Plain(LIST_CLEANUP) && Plain(AUTOCLEAN)
  {
  }

  lemma InstallPiecesArePlain()
    ensures Plain(INSTALL) && Plain(OPTIONS)
  {
  }

  lemma CommandIsPlain()
    ensures Plain(Join(PIECES, ""))
  {
    ConfigurePiecesArePlain();
    UpdatePiecesArePlain();
    CleanPiecesArePlain();
    InstallPiecesArePlain();
    hide Plain;
    JoinIsPlain(PIECES);
  }

  lemma PackageReads(l: Lexer)
    requires l.mode == Unquoted && l.word == None
    ensures ReadAll(l, PACKAGE) == l.(word := Some(Quoted(PACKAGE, false)))
  {
    PlainWordReads(l, PACKAGE);
    assert [] + Quoted(PACKAGE, false) == Quoted(PACKAGE, false);
  }

  /** The fixed part leaves the lexer between two words. */
  lemma CommandReads()
    ensures var l := ReadAll(LEXER, Join(PIECES, "")); l.mode == Unquoted && l.word == None
  {
    var s := Join(PIECES, "");
    CommandIsPlain();
    EndsLikeLastPiece(PIECES);
    assert PIECES[|PIECES| - 1] == OPTIONS && OPTIONS[|OPTIONS| - 1] == ' ';
    hide Join;
    PlainStaysUnquoted(LEXER, s[..|s| - 1]);
    PlainStaysUnquoted(LEXER, s);
  }

  /**
   * Whatever the version string, the upgrade command has the same tokens up to its last one, and that last token is
   * the single word `forge-dpu=` followed by exactly the version, with every character of the version quoted.
   */
  lemma VersionIsOneWord(version: string)
    ensures Tokens(UpgradeCmd(version))
         == Some(ReadAll(LEXER, Join(PIECES, "")).tokens + [Word(Quoted(PACKAGE, false) + Quoted(version, true))])
  {
    CommandReads();
    hide ReadAll, Escaped, Quoted, Join, Read;
    var command := Join(PIECES, "");
    var before := ReadAll(LEXER, command);
    ReadConcat(LEXER, command + PACKAGE, Escaped(version));
    ReadConcat(LEXER, command, PACKAGE);
    PackageReads(before);
    EscapedReadsBack(ReadAll(before, PACKAGE), version);
  }
}
