/**
 Writing a file through a shell (webapp/server/src/tikoenv.ts): every line is single-quoted and
 handed to `printf '%s\n'`. The shell's side is a lexer by sections 2.2.1 (backslash) and 2.2.2
 (single quotes) of the POSIX.1-2017 Shell Command Language.
 */
module ShellQuotes {

  import opened Wrappers

  const TIKO_ENV_PATH := "/var/lib/postgresql/tiko.env"

  // ----- the writer -----

  function Escaped(s: string): string {
    if s == [] then []
    else (if s[0] == '\'' then "'\\''" else [s[0]]) + Escaped(s[1..])
  }

  function ShellQuote(s: string): string {
    "'" + Escaped(s) + "'"
  }

  /** White space as ECMAScript's `trimEnd` sees it. */
  predicate IsSpace(c: char) {
    || c == ' ' || '\t' <= c <= '\r'
    || c == '\U{00A0}' || c == '\U{1680}' || '\U{2000}' <= c <= '\U{200A}' || c == '\U{2028}' || c == '\U{2029}'
    || c == '\U{202F}' || c == '\U{205F}' || c == '\U{3000}' || c == '\U{FEFF}'
  }

  function TrimEnd(s: string): (r: string)
    ensures r <= s && (r != [] ==> !IsSpace(r[|r| - 1]))
    ensures forall i :: |r| <= i < |s| ==> IsSpace(s[i])
  {
    if s == [] || !IsSpace(s[|s| - 1]) then s else TrimEnd(s[..|s| - 1])
  }

  function Split(s: string): (lines: seq<string>)
    ensures lines != []
  {
    if s == [] then [""]
    else
      var rest := Split(s[1..]);
      if s[0] == '\n' then [""] + rest else [[s[0]] + rest[0]] + rest[1..]
  }

  function QuotedLines(lines: seq<string>): string
    requires lines != []
  {
    if |lines| == 1 then ShellQuote(lines[0]) else ShellQuote(lines[0]) + " " + QuotedLines(lines[1..])
  }

  /** The script given to `bash -c`. */
  function WriteScript(content: string): string {
    "printf '%s\\n' " + QuotedLines(Split(TrimEnd(content))) + " > " + TIKO_ENV_PATH
    + " && chown postgres:postgres " + TIKO_ENV_PATH
  }

  // ----- the shell -----

  /** Unquoted, these would mean something the lexer does not model. */
  predicate IsSpecial(c: char) {
    c in "|&;<()$`\"\n*?[#~"
  }

  function Flush(word: Option<string>): seq<string> {
    if word.Some? then [word.value] else []
  }

  function Grown(word: Option<string>, c: char): Option<string> {
    Some((if word.Some? then word.value else "") + [c])
  }

  /** A simple command: its words, and the text behind the `>` of its redirection, if it has one. */
  datatype Parsed = Parsed(words: seq<string>, redirect: Option<string>)

  /**
   The words of a simple command up to its redirection. `word` is the word being read, `quoted`
   says whether single quotes are open; `None` means text outside the modelled grammar.
   */
  function Lex(s: string, word: Option<string>, quoted: bool): Option<Parsed>
    decreases |s|
  {
    if s == [] then (if quoted then None else Some(Parsed(Flush(word), None)))
    else if quoted then
      if s[0] == '\'' then Lex(s[1..], word, false) else Lex(s[1..], Grown(word, s[0]), true)
    else if s[0] == '\'' then Lex(s[1..], Some(if word.Some? then word.value else ""), true)
    else if s[0] == '\\' then
      if |s| == 1 then None
      else if s[1] == '\n' then Lex(s[2..], word, false)
      else Lex(s[2..], Grown(word, s[1]), false)
    else if s[0] == ' ' || s[0] == '\t' then
      var rest := Lex(s[1..], None, false);
      if rest.None? then None else Some(Parsed(Flush(word) + rest.value.words, rest.value.redirect))
    else if s[0] == '>' then Some(Parsed(Flush(word), Some(s[1..])))
    else if IsSpecial(s[0]) then None
    else Lex(s[1..], Grown(word, s[0]), false)
  }

  /** The output of `printf '%s\n'`, which uses its format once for each argument. */
  function Printed(lines: seq<string>): string {
    if lines == [] then [] else lines[0] + "\n" + Printed(lines[1..])
  }

  // ----- the lexer, one step at a time -----

  lemma Tail(a: string, rest: string)
    ensures (a + rest)[|a|..] == rest
  {
  }

  lemma StepInside(c: char, rest: string, word: string)
    requires c != '\''
    ensures Lex([c] + rest, Some(word), true) == Lex(rest, Some(word + [c]), true)
  {
    Tail([c], rest);
  }

  lemma StepClose(rest: string, word: Option<string>)
    ensures Lex("'" + rest, word, true) == Lex(rest, word, false)
  {
    Tail("'", rest);
  }

  lemma StepOpen(rest: string, word: Option<string>)
    ensures Lex("'" + rest, word, false) == Lex(rest, Some(if word.Some? then word.value else ""), true)
  {
    Tail("'", rest);
  }

  lemma StepEscape(c: char, rest: string, word: string)
    requires c != '\n'
    ensures Lex(['\\', c] + rest, Some(word), false) == Lex(rest, Some(word + [c]), false)
  {
    Tail(['\\', c], rest);
  }

  lemma StepBlank(rest: string, word: string, p: Parsed)
    requires Lex(rest, None, false) == Some(p)
    ensures Lex(" " + rest, Some(word), false) == Some(Parsed([word] + p.words, p.redirect))
  {
    Tail(" ", rest);
  }

  lemma StepLetter(c: char, rest: string, word: Option<string>)
    requires 'a' <= c <= 'z'
    ensures Lex([c] + rest, word, false) == Lex(rest, Grown(word, c), false)
  {
    Tail([c], rest);
  }

  /** An escaped single quote, from inside quotes back to inside quotes. */
  lemma StepQuoteMark(rest: string, word: string)
    ensures Lex("'" + (['\\', '\''] + ("'" + rest)), Some(word), true) == Lex(rest, Some(word + ['\'']), true)
  {
    hide Lex;
    StepClose(['\\', '\''] + ("'" + rest), Some(word));
    StepEscape('\'', "'" + rest, word);
    StepOpen(rest, Some(word + ['\'']));
  }

  // ----- the round trip -----

  lemma Assoc(a: string, b: string, c: string)
    ensures a + b + c == a + (b + c)
  {
  }

  /** The escaped mark, spelled as the lexer meets it. */
  lemma MarkShape(tail: string)
    ensures "'\\''" + tail == "'" + (['\\', '\''] + ("'" + tail))
  {
  }

  /** The rest of a quoted string reads back as itself, whatever follows. */
  lemma {:induction false} LexEscaped(s: string, word: string, rest: string)
    ensures Lex(Escaped(s) + "'" + rest, Some(word), true) == Lex(rest, Some(word + s), false)
    decreases |s|
  {
    var last := "'" + rest;
    Assoc(Escaped(s), "'", rest);
    if s == [] {
      assert Escaped(s) + last == last && word + s == word;
      hide Lex;
      StepClose(rest, Some(word));
    } else {
      var e := Escaped(s[1..]);
      var tail := e + last;
      Assoc(e, "'", rest);
      if s[0] == '\'' {
        assert Escaped(s) == "'\\''" + e;
        hide Lex, Escaped;
        Assoc("'\\''", e, last);
        MarkShape(tail);
        StepQuoteMark(tail, word);
      } else {
        assert Escaped(s) == [s[0]] + e;
        hide Lex, Escaped;
        Assoc([s[0]], e, last);
        StepInside(s[0], tail, word);
      }
      LexEscaped(s[1..], word + [s[0]], rest);
      assert word + [s[0]] + s[1..] == word + s;
    }
  }

  lemma LexQuoted(s: string, rest: string)
    ensures Lex(ShellQuote(s) + rest, None, false) == Lex(rest, Some(s), false)
  {
    hide Lex;
    assert ShellQuote(s) + rest == "'" + (Escaped(s) + "'" + rest);
    StepOpen(Escaped(s) + "'" + rest, None);
    LexEscaped(s, "", rest);
    assert "" + s == s;
  }

  lemma LexEnd(word: string, rest: string)
    ensures Lex(" >" + rest, Some(word), false) == Some(Parsed([word], Some(rest)))
  {
    assert " >" + rest == " " + (">" + rest);
    Tail(">", rest);
    assert Lex(">" + rest, None, false) == Some(Parsed([], Some(rest)));
    hide Lex;
    StepBlank(">" + rest, word, Parsed([], Some(rest)));
    assert [word] + [] == [word];
  }

  lemma {:induction false} LexLines(lines: seq<string>, rest: string)
    requires lines != []
    ensures Lex(QuotedLines(lines) + " >" + rest, None, false) == Some(Parsed(lines, Some(rest)))
    decreases |lines|
  {
    hide Lex, ShellQuote;
    if |lines| == 1 {
      assert QuotedLines(lines) + " >" + rest == ShellQuote(lines[0]) + (" >" + rest);
      LexQuoted(lines[0], " >" + rest);
      LexEnd(lines[0], rest);
      assert [lines[0]] == lines;
    } else {
      var more := QuotedLines(lines[1..]) + " >" + rest;
      assert QuotedLines(lines) + " >" + rest == ShellQuote(lines[0]) + (" " + more);
      LexQuoted(lines[0], " " + more);
      LexLines(lines[1..], rest);
      StepBlank(more, lines[0], Parsed(lines[1..], Some(rest)));
      assert [lines[0]] + lines[1..] == lines;
    }
  }

  lemma {:induction false} LexLetters(s: string, word: string, rest: string)
    requires forall i :: 0 <= i < |s| ==> 'a' <= s[i] <= 'z'
    ensures Lex(s + rest, Some(word), false) == Lex(rest, Some(word + s), false)
    decreases |s|
  {
    hide Lex;
    if s == [] {
      assert s + rest == rest && word + s == word;
    } else {
      assert s + rest == [s[0]] + (s[1..] + rest);
      StepLetter(s[0], s[1..] + rest, Some(word));
      LexLetters(s[1..], word + [s[0]], rest);
      assert word + [s[0]] + s[1..] == word + s;
    }
  }

  /** A command name of letters reads as a word. */
  lemma LexName(s: string, rest: string)
    requires s != [] && forall i :: 0 <= i < |s| ==> 'a' <= s[i] <= 'z'
    ensures Lex(s + rest, None, false) == Lex(rest, Some(s), false)
  {
    hide Lex;
    assert s + rest == [s[0]] + (s[1..] + rest);
    StepLetter(s[0], s[1..] + rest, None);
    LexLetters(s[1..], "" + [s[0]], rest);
    assert "" + [s[0]] + s[1..] == s;
  }

  /**
   The shell hands `printf` its format and then exactly the lines of the trimmed content, and sends what
   it prints to the file.
   */
  lemma ScriptWords(content: string)
    ensures Lex(WriteScript(content), None, false)
            == Some(Parsed(["printf", "%s\\n"] + Split(TrimEnd(content)),
                           Some(" " + TIKO_ENV_PATH + " && chown postgres:postgres " + TIKO_ENV_PATH)))
  {
    var lines := Split(TrimEnd(content));
    var rest := " " + TIKO_ENV_PATH + " && chown postgres:postgres " + TIKO_ENV_PATH;
    var args := QuotedLines(lines) + " >" + rest;
    ScriptShape(content, lines, args);
    hide Lex, Split, TrimEnd, QuotedLines, WriteScript;
    LexLines(lines, rest);
    LexHead(args, Parsed(lines, Some(rest)));
  }

  lemma LexHead(args: string, p: Parsed)
    requires Lex(args, None, false) == Some(p)
    ensures Lex("printf" + (" " + (ShellQuote("%s\\n") + (" " + args))), None, false)
            == Some(Parsed(["printf", "%s\\n"] + p.words, p.redirect))
  {
    hide Lex, ShellQuote;
    var format := "%s\\n";
    StepBlank(args, format, p);
    LexQuoted(format, " " + args);
    var p1 := Parsed([format] + p.words, p.redirect);
    StepBlank(ShellQuote(format) + (" " + args), "printf", p1);
    LexName("printf", " " + (ShellQuote(format) + (" " + args)));
    assert ["printf"] + ([format] + p.words) == ["printf", format] + p.words;
  }

  lemma ScriptShape(content: string, lines: seq<string>, args: string)
    requires lines == Split(TrimEnd(content))
    requires args == QuotedLines(lines) + " >" + (" " + TIKO_ENV_PATH + " && chown postgres:postgres " + TIKO_ENV_PATH)
    ensures WriteScript(content) == "printf" + (" " + (ShellQuote("%s\\n") + (" " + args)))
  {
    FormatQuoted();
    hide Split, TrimEnd, QuotedLines, ShellQuote;
  }

  lemma FormatQuoted()
    ensures ShellQuote("%s\\n") == "'%s\\n'"
  {
    EscapedPlain("%s\\n");
  }

  lemma {:induction false} EscapedPlain(s: string)
    requires '\'' !in s
    ensures Escaped(s) == s
  {
    if s != [] {
      assert s[0] in s && forall c :: c in s[1..] ==> c in s;
      EscapedPlain(s[1..]);
    }
  }

  lemma {:induction false} PrintedSplit(s: string)
    ensures Printed(Split(s)) == s + "\n"
  {
    if s == [] {
      PrintedCons("", []);
    } else {
      var rest := Split(s[1..]);
      PrintedSplit(s[1..]);
      if s[0] == '\n' {
        PrintedCons("", rest);
      } else {
        PrintedLonger(s[0], rest);
        assert [s[0]] + (s[1..] + "\n") == s + "\n";
      }
    }
  }

  lemma PrintedLonger(c: char, lines: seq<string>)
    requires lines != []
    ensures Printed([[c] + lines[0]] + lines[1..]) == [c] + Printed(lines)
  {
    var line, rest := lines[0], lines[1..];
    PrintedCons([c] + line, rest);
    PrintedCons(line, rest);
    assert [line] + rest == lines;
    LongerLine(c, line, Printed(rest));
  }

  lemma LongerLine(c: char, line: string, after: string)
    ensures [c] + line + "\n" + after == [c] + (line + "\n" + after)
  {
  }

  lemma PrintedCons(line: string, lines: seq<string>)
    ensures Printed([line] + lines) == line + "\n" + Printed(lines)
  {
    assert ([line] + lines)[1..] == lines;
  }

  /**
   The round trip: what `printf` writes is the content without its trailing white space, plus one
   newline; so the content itself is written if and only if it ends that way.
   */
  lemma WrittenContent(content: string)
    ensures var p := Lex(WriteScript(content), None, false);
      && p.Some? && |p.value.words| > 2 && p.value.words[..2] == ["printf", "%s\\n"]
      && Printed(p.value.words[2..]) == TrimEnd(content) + "\n"
      && (Printed(p.value.words[2..]) == content <==>
            content != "" && content[|content| - 1] == '\n'
            && (|content| > 1 ==> !IsSpace(content[|content| - 2])))
  {
    ScriptWords(content);
    hide Lex, WriteScript;
    var lines := Split(TrimEnd(content));
    assert (["printf", "%s\\n"] + lines)[2..] == lines;
    PrintedSplit(TrimEnd(content));
    TrimmedEnds(content);
  }

  /** Of the ASCII characters, the blank and the five from tab to carriage return are trimmed, and no visible one is. */
  lemma AsciiSpace(c: char)
    ensures c in " \t\n\r" || c as int in {11, 12} ==> IsSpace(c)
    ensures 33 <= c as int <= 126 ==> !IsSpace(c)
  {
  }

  /** A single quote is written as its closing, an escaped quote and a new opening. */
  lemma QuoteExample()
    ensures ShellQuote("it's") == "'it'\\''s'"
  {
    assert Escaped("s") == "s" && Escaped("'s") == "'\\''" + "s";
    assert "'s"[1..] == "s" && "t's"[1..] == "'s" && "it's"[1..] == "t's" && "s"[1..] == "";
    assert Escaped("t's") == "t" + ("'\\''" + "s");
    assert Escaped("it's") == "i" + ("t" + ("'\\''" + "s"));
  }

  lemma TrimIdentity(s: string)
    ensures TrimEnd(s) == s <==> s == "" || !IsSpace(s[|s| - 1])
  {
    hide IsSpace;
    if s != "" && IsSpace(s[|s| - 1]) {
      assert |TrimEnd(s[..|s| - 1])| < |s|;
    }
  }

  lemma TrimNewline(body: string)
    ensures TrimEnd(body + "\n") == TrimEnd(body)
  {
    assert (body + "\n")[..|body|] == body && (body + "\n")[|body|] == '\n';
  }

  lemma TrimmedBody(s: string, body: string)
    requires s == body + "\n"
    ensures TrimEnd(s) + "\n" == s <==> body == "" || !IsSpace(body[|body| - 1])
  {
    hide IsSpace, TrimEnd;
    TrimNewline(body);
    TrimIdentity(body);
    Extended(TrimEnd(body), body);
  }

  lemma SplitLast(s: string) returns (body: string)
    requires s != "" && s[|s| - 1] == '\n'
    ensures s == body + "\n" && |body| == |s| - 1 && (|s| > 1 ==> body[|body| - 1] == s[|s| - 2])
  {
    body := s[..|s| - 1];
  }

  lemma TrimmedEnds(s: string)
    ensures TrimEnd(s) + "\n" == s <==>
            s != "" && s[|s| - 1] == '\n' && (|s| > 1 ==> !IsSpace(s[|s| - 2]))
  {
    hide IsSpace, TrimEnd;
    if s != "" && s[|s| - 1] == '\n' {
      var body := SplitLast(s);
      TrimmedBody(s, body);
    } else {
      NoNewline(TrimEnd(s), s);
    }
  }

  lemma NoNewline(t: string, s: string)
    requires s == "" || s[|s| - 1] != '\n'
    ensures t + "\n" != s
  {
    var u := t + "\n";
    assert u[|u| - 1] == '\n';
  }

  lemma Extended(a: string, b: string)
    ensures a == b <==> a + "\n" == b + "\n"
  {
    assert (a + "\n")[..|a + "\n"| - 1] == a && (b + "\n")[..|b + "\n"| - 1] == b;
  }
}
