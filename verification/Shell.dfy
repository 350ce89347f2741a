/**
 The command line that is sent through SSH to the remote shell, and the shell's reading of
 it: quoting as in sections 2.2.1 and 2.2.2 and token recognition as in section 2.3 of
 POSIX.1-2017 XCU, for simple commands.
 */
module Shell {
  import opened Bytes

  const BABYSIT: string := "babysit"

  // ---------------------------------------------------------------- printing

  /** Every single quote becomes: close the quotes, a backslashed quote, open them again. */
  function EscapeQuotes(s: string): string {
    if s == "" then "" else (if s[0] == '\'' then "'\\''" else [s[0]]) + EscapeQuotes(s[1..])
  }

  function ShellQuote(s: string): string {
    if s == "" then "''" else "'" + EscapeQuotes(s) + "'"
  }

  function JoinQuoted(words: seq<string>): string
    requires words != []
  {
    if |words| == 1 then ShellQuote(words[0]) else ShellQuote(words[0]) + " " + JoinQuoted(words[1..])
  }

  function RemoteCommandWithTerm(args: seq<string>, term: Option<string>): string {
    var command := JoinQuoted([BABYSIT] + args);
    if term.Some? && term.value != "" then "TERM=" + ShellQuote(term.value) + " " + command else command
  }

  // ---------------------------------------------------------------- the shell

  /** A character of a word, and whether it was quoted. */
  datatype Mark = Mark(c: char, quoted: bool)

  type Word = seq<Mark>

  /** Between words, inside one, after a backslash in one, inside single quotes. */
  datatype Mode = Between | Inside | Escaped | Single

  datatype Lexer = Lexer(mode: Mode, word: Word, words: seq<Word>) | Rejected

  const START: Lexer := Lexer(Between, [], [])

  predicate IsBlank(c: char) { c == ' ' || c == '\t' }

  /** Unquoted, these start operators, expansions, double quotes, comments, patterns or the
      next command: the lexer does not go on, because the line would not be one command of
      literal words. */
  predicate IsSpecial(c: char) { c in "|&;<>()$`\"*?[#~\n" }

  function Step(lexer: Lexer, c: char): Lexer {
    match lexer
    case Rejected => Rejected
    case Lexer(Single, word, words) =>
      if c == '\'' then Lexer(Inside, word, words) else Lexer(Single, word + [Mark(c, true)], words)
    case Lexer(Escaped, word, words) =>
      // a backslash and a newline together continue the line
      if c == '\n' then Lexer(Inside, word, words) else Lexer(Inside, word + [Mark(c, true)], words)
    case Lexer(mode, word, words) =>
      if c == '\'' then Lexer(Single, word, words)
      else if c == '\\' then Lexer(Escaped, word, words)
      else if IsBlank(c) then Lexer(Between, [], if mode == Inside then words + [word] else words)
      else if IsSpecial(c) then Rejected
      else Lexer(Inside, word + [Mark(c, false)], words)
  }

  function Lex(lexer: Lexer, s: string): Lexer
    decreases |s|
  {
    if s == "" then lexer else Lex(Step(lexer, s[0]), s[1..])
  }

  /** The words of a line, if it ends outside quotes. */
  function WordsOf(line: string): Option<seq<Word>> {
    match Lex(START, line)
    case Lexer(Between, _, words) => Some(words)
    case Lexer(Inside, word, words) => Some(words + [word])
    case _ => None
  }

  function Text(word: Word): string {
    if word == [] then "" else [word[0].c] + Text(word[1..])
  }

  predicate IsNameChar(c: char, first: bool) {
    c == '_' || 'a' <= c <= 'z' || 'A' <= c <= 'Z' || (!first && '0' <= c <= '9')
  }

  /** How many leading characters of the word form an unquoted name. */
  function NameLength(word: Word, from: nat): nat
    requires from <= |word|
    decreases |word| - from
  {
    if from < |word| && !word[from].quoted && IsNameChar(word[from].c, from == 0)
    then NameLength(word, from + 1) else from
  }

  /** `name=value` with an unquoted name and equals sign. */
  function AssignmentOf(word: Word): Option<(string, string)> {
    var n := NameLength(word, 0);
    if 0 < n < |word| && !word[n].quoted && word[n].c == '='
    then Some((Text(word[..n]), Text(word[n + 1..]))) else None
  }

  datatype Command = Command(assignments: seq<(string, string)>, words: seq<string>)

  function Texts(words: seq<Word>): seq<string> {
    if words == [] then [] else [Text(words[0])] + Texts(words[1..])
  }

  /** Assignments come first; from the first word that is not one, all are words. */
  function Simple(words: seq<Word>): Command
    decreases |words|
  {
    if words == [] then Command([], [])
    else if AssignmentOf(words[0]).Some? then
      var rest := Simple(words[1..]);
      rest.(assignments := [AssignmentOf(words[0]).value] + rest.assignments)
    else Command([], Texts(words))
  }

  function ParseCommand(line: string): Option<Command> {
    match WordsOf(line)
    case Some(words) => Some(Simple(words))
    case None => None
  }

  // ---------------------------------------------------------------- the round trip

  function Quoted(s: string): Word {
    if s == "" then [] else [Mark(s[0], true)] + Quoted(s[1..])
  }

  function QuotedAll(words: seq<string>): seq<Word> {
    if words == [] then [] else [Quoted(words[0])] + QuotedAll(words[1..])
  }

  lemma {:induction false} LexConcat(lexer: Lexer, a: string, b: string)
    ensures Lex(lexer, a + b) == Lex(Lex(lexer, a), b)
    decreases |a|
  {
    if a == "" {
      assert a + b == b;
    } else {
      assert (a + b)[0] == a[0] && (a + b)[1..] == a[1..] + b;
      LexConcat(Step(lexer, a[0]), a[1..], b);
    }
  }

  lemma LexQuoteSequence(word: Word, words: seq<Word>)
    ensures Lex(Lexer(Single, word, words), "'\\''") == Lexer(Single, word + [Mark('\'', true)], words)
  {
    var l := Lexer(Single, word, words);
    LexConcat(l, "'", "\\''");
    LexConcat(Lexer(Inside, word, words), "\\", "''");
    LexConcat(Lexer(Escaped, word, words), "'", "'");
    assert "'\\''" == "'" + "\\''" && "\\''" == "\\" + "''" && "''" == "'" + "'";
  }

  /** Inside single quotes the escaped text yields its characters, all quoted. */
  lemma {:induction false} LexEscaped(word: Word, words: seq<Word>, s: string)
    ensures Lex(Lexer(Single, word, words), EscapeQuotes(s)) == Lexer(Single, word + Quoted(s), words)
    decreases |s|
  {
    if s == "" {
      assert word + [] == word;
    } else {
      var first := if s[0] == '\'' then "'\\''" else [s[0]];
      LexConcat(Lexer(Single, word, words), first, EscapeQuotes(s[1..]));
      if s[0] == '\'' {
        LexQuoteSequence(word, words);
      } else {
        assert [s[0]][1..] == "";
        assert Lex(Lexer(Single, word, words), [s[0]]) == Lexer(Single, word + [Mark(s[0], true)], words);
      }
      LexEscaped(word + [Mark(s[0], true)], words, s[1..]);
      Regroup(word, [Mark(s[0], true)], Quoted(s[1..]));
    }
  }

  /** A quoted string adds exactly its characters to the current word, whatever they are. */
  lemma LexQuotedString(mode: Mode, word: Word, words: seq<Word>, s: string)
    requires mode == Between || mode == Inside
    ensures Lex(Lexer(mode, word, words), ShellQuote(s)) == Lexer(Inside, word + Quoted(s), words)
  {
    var l := Lexer(mode, word, words);
    var body := EscapeQuotes(s);
    assert ShellQuote(s) == "'" + (body + "'");
    LexConcat(l, "'", body + "'");
    LexConcat(Lexer(Single, word, words), body, "'");
    LexEscaped(word, words, s);
    assert "'"[1..] == "";
    assert Lex(l, "'") == Lexer(Single, word, words);
  }

  lemma LexBlank(word: Word, words: seq<Word>)
    ensures Lex(Lexer(Inside, word, words), " ") == Lexer(Between, [], words + [word])
  {
    assert " "[1..] == "";
  }

  lemma {:induction false} LexJoined(words: seq<Word>, strings: seq<string>)
    requires strings != []
    ensures var l := Lex(Lexer(Between, [], words), JoinQuoted(strings));
            l.Lexer? && l.mode == Inside && l.words + [l.word] == words + QuotedAll(strings)
    decreases |strings|
  {
    hide Lex, ShellQuote, Step;
    var s := strings[0];
    LexQuotedString(Between, [], words, s);
    assert [] + Quoted(s) == Quoted(s);
    if |strings| == 1 {
      assert QuotedAll(strings) == [Quoted(s)];
    } else {
      var rest := JoinQuoted(strings[1..]);
      assert JoinQuoted(strings) == ShellQuote(s) + (" " + rest);
      LexConcat(Lexer(Between, [], words), ShellQuote(s), " " + rest);
      LexConcat(Lexer(Inside, Quoted(s), words), " ", rest);
      LexBlank(Quoted(s), words);
      LexJoined(words + [Quoted(s)], strings[1..]);
      Regroup(words, [Quoted(s)], QuotedAll(strings[1..]));
    }
  }

  lemma {:induction false} TextOfQuoted(s: string)
    ensures Text(Quoted(s)) == s
  {
    if s != "" {
      TextOfQuoted(s[1..]);
      assert Quoted(s)[1..] == Quoted(s[1..]);
      assert [s[0]] + s[1..] == s;
    }
  }

  lemma {:induction false} TextsOfQuoted(strings: seq<string>)
    ensures Texts(QuotedAll(strings)) == strings
  {
    if strings != [] {
      TextsOfQuoted(strings[1..]);
      TextOfQuoted(strings[0]);
      assert QuotedAll(strings)[1..] == QuotedAll(strings[1..]);
      assert [strings[0]] + strings[1..] == strings;
    }
  }

  function Unquoted(s: string): Word {
    if s == "" then [] else [Mark(s[0], false)] + Unquoted(s[1..])
  }

  predicate IsPlain(c: char) { c != '\'' && c != '\\' && !IsBlank(c) && !IsSpecial(c) }

  /** Unquoted plain characters extend the current word. */
  lemma {:induction false} LexPlain(word: Word, words: seq<Word>, s: string)
    requires forall c | c in s :: IsPlain(c)
    ensures Lex(Lexer(Inside, word, words), s) == Lexer(Inside, word + Unquoted(s), words)
    decreases |s|
  {
    if s == "" {
      assert word + [] == word;
    } else {
      assert s[0] in s && forall c | c in s[1..] :: c in s;
      LexPlain(word + [Mark(s[0], false)], words, s[1..]);
      Regroup(word, [Mark(s[0], false)], Unquoted(s[1..]));
    }
  }

  lemma LexTermPrefix()
    ensures Lex(START, "TERM=") == Lexer(Inside, Unquoted("TERM="), [])
  {
    assert "TERM="[1..] == "ERM=";
    assert [] + [Mark('T', false)] == [Mark('T', false)];
    LexPlain([Mark('T', false)], [], "ERM=");
  }

  lemma TermMarks()
    ensures Unquoted("TERM=")
         == [Mark('T', false), Mark('E', false), Mark('R', false), Mark('M', false), Mark('=', false)]
  {
    assert "TERM="[1..] == "ERM=" && "ERM="[1..] == "RM=" && "RM="[1..] == "M=" && "M="[1..] == "=" && "="[1..] == "";
    assert Unquoted("RM=") == [Mark('R', false)] + ([Mark('M', false)] + Unquoted("="));
  }

  /** The word `TERM=` followed by quoted text assigns exactly that text. */
  lemma TermIsAssigned(value: string)
    ensures AssignmentOf(Unquoted("TERM=") + Quoted(value)) == Some(("TERM", value))
  {
    TermMarks();
    var word := Unquoted("TERM=") + Quoted(value);
    assert NameLength(word, 4) == 4;
    assert NameLength(word, 2) == NameLength(word, 3) == NameLength(word, 4);
    assert NameLength(word, 0) == NameLength(word, 1) == NameLength(word, 2);
    assert word[5..] == Quoted(value);
    TextOfQuoted(value);
    assert word[..4] == [Mark('T', false), Mark('E', false), Mark('R', false), Mark('M', false)];
    FourLetters('T', 'E', 'R', 'M');
  }

  lemma FourLetters(a: char, b: char, c: char, d: char)
    ensures Text([Mark(a, false), Mark(b, false), Mark(c, false), Mark(d, false)]) == [a, b, c, d]
  {
    var w := [Mark(a, false), Mark(b, false), Mark(c, false), Mark(d, false)];
    assert w[1..] == [Mark(b, false), Mark(c, false), Mark(d, false)];
    assert w[1..][1..] == [Mark(c, false), Mark(d, false)];
    assert w[1..][1..][1..] == [Mark(d, false)];
    assert w[1..][1..][1..][1..] == [];
    assert Text(w[1..][1..]) == [c] + ([d] + Text([]));
  }

  lemma QuotedIsNoAssignment(s: string)
    ensures AssignmentOf(Quoted(s)) == None
  {
  }

  lemma QuotedCommand(strings: seq<string>)
    requires strings != []
    ensures Simple(QuotedAll(strings)) == Command([], strings)
  {
    QuotedIsNoAssignment(strings[0]);
    TextsOfQuoted(strings);
  }

  lemma LexTermWord(value: string, rest: string)
    ensures var word := Unquoted("TERM=") + Quoted(value);
            Lex(START, "TERM=" + ShellQuote(value) + " " + rest) == Lex(Lexer(Between, [], [word]), rest)
  {
    hide Lex, ShellQuote, Unquoted, Quoted;
    var word := Unquoted("TERM=") + Quoted(value);
    Regroup("TERM=" + ShellQuote(value), " ", rest);
    Regroup("TERM=", ShellQuote(value), " " + rest);
    LexConcat(START, "TERM=", ShellQuote(value) + (" " + rest));
    LexTermPrefix();
    LexConcat(Lexer(Inside, Unquoted("TERM="), []), ShellQuote(value), " " + rest);
    LexQuotedString(Inside, Unquoted("TERM="), [], value);
    LexConcat(Lexer(Inside, word, []), " ", rest);
    LexBlank(word, []);
    assert [] + [word] == [word];
  }

  /** The remote shell runs exactly `babysit` with exactly these arguments, and with exactly
      this terminal type, for arbitrary strings: nothing in them is split, expanded, taken
      for an operator, or lost. */
  lemma RemoteCommandRoundTrip(args: seq<string>, term: Option<string>)
    ensures ParseCommand(RemoteCommandWithTerm(args, term))
         == Some(Command(if term.Some? && term.value != "" then [("TERM", term.value)] else [], [BABYSIT] + args))
  {
    hide Lex, JoinQuoted, ShellQuote, AssignmentOf, Texts;
    var strings := [BABYSIT] + args;
    QuotedCommand(strings);
    if term.Some? && term.value != "" {
      var value := term.value;
      var word := Unquoted("TERM=") + Quoted(value);
      var rest := JoinQuoted(strings);
      LexTermWord(value, rest);
      LexJoined([word], strings);
      TermIsAssigned(value);
      hide Lex, JoinQuoted, ShellQuote, AssignmentOf, Texts, QuotedAll, Quoted, Unquoted;
      var all := [word] + QuotedAll(strings);
      assert all[0] == word && all[1..] == QuotedAll(strings);
      assert [("TERM", value)] + [] == [("TERM", value)];
      assert Simple(all) == Command([("TERM", value)], strings);
    } else {
      LexJoined([], strings);
      assert [] + QuotedAll(strings) == QuotedAll(strings);
    }
  }

  /** Hence quoting is injective: different arguments never become the same line. */
  lemma QuotingIsInjective(args: seq<string>, args': seq<string>, term: Option<string>)
    requires RemoteCommandWithTerm(args, term) == RemoteCommandWithTerm(args', term)
    ensures args == args'
  {
    RemoteCommandRoundTrip(args, term);
    RemoteCommandRoundTrip(args', term);
    assert args == ([BABYSIT] + args)[1..] && args' == ([BABYSIT] + args')[1..];
  }
}
