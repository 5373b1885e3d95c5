/** The single-quote escape server.js applies before embedding a JSON line in a remote
    `echo '...'` command, and a reader for one shell word under the quoting rules of
    POSIX.1-2017 Shell Command Language, sections 2.2.1 (Escape Character), 2.2.2
    (Single-Quotes) and 2.2.3 (Double-Quotes), against which the escape is proved. */
module ShellQuote {
  import opened JsValues

  const QuoteEscape: string := "'\"'\"'"

  /** `s.replace(/'/g, "'\"'\"'")`: each `'` closes the single-quoted text, is written
      inside double quotes, and the single-quoted text is reopened. */
  function Escape(s: string): (r: string)
    ensures '\'' !in s ==> r == s
  {
    if s == [] then ""
    else if s[0] == '\'' then QuoteEscape + Escape(s[1..])
    else [s[0]] + Escape(s[1..])
  }

  /** The word `'<escaped s>'` as it appears in the command. */
  function SingleQuoted(s: string): string
  {
    "'" + Escape(s) + "'"
  }

  /** Where the reader is: outside quotes, inside `'...'` or inside `"..."`. */
  datatype Mode = Unquoted | InSingle | InDouble

  /** Characters that end an unquoted word: blanks, newline and the operator characters. */
  predicate EndsWord(c: char)
  {
    c == ' ' || c == '\t' || c == '\n' || c in "|&;<>()"
  }

  /** Unquoted characters that start an expansion or a pattern; the reader does not
      model these and gives up on them. */
  predicate Special(c: char)
  {
    c in "$`*?[#~"
  }

  /** Characters a backslash escapes inside double quotes. */
  predicate DoubleEscapable(c: char)
  {
    c in "$`\"\\\n"
  }

  /** Reads one word from `s` in mode `mode`, having collected `acc` so far: the word's
      text after quote removal, and the input after it. None when a quote is left open
      or an expansion would happen. */
  function ReadWord(s: string, mode: Mode, acc: string): Option<(string, string)>
    decreases |s|
  {
    match mode
    case Unquoted =>
      if s == [] then Some((acc, s))
      else if EndsWord(s[0]) then Some((acc, s))
      else if s[0] == '\'' then ReadWord(s[1..], InSingle, acc)
      else if s[0] == '"' then ReadWord(s[1..], InDouble, acc)
      else if s[0] == '\\' then
        if |s| < 2 then None
        else if s[1] == '\n' then ReadWord(s[2..], Unquoted, acc)
        else ReadWord(s[2..], Unquoted, acc + [s[1]])
      else if Special(s[0]) then None
      else ReadWord(s[1..], Unquoted, acc + [s[0]])
    case InSingle =>
      if s == [] then None
      else if s[0] == '\'' then ReadWord(s[1..], Unquoted, acc)
      else ReadWord(s[1..], InSingle, acc + [s[0]])
    case InDouble =>
      if s == [] then None
      else if s[0] == '"' then ReadWord(s[1..], Unquoted, acc)
      else if s[0] == '$' || s[0] == '`' then None
      else if s[0] == '\\' && |s| >= 2 && DoubleEscapable(s[1]) then
        if s[1] == '\n' then ReadWord(s[2..], InDouble, acc)
        else ReadWord(s[2..], InDouble, acc + [s[1]])
      else ReadWord(s[1..], InDouble, acc + [s[0]])
  }

  /** Inside single quotes, a character other than `'` is taken as it is. */
  lemma SingleQuotedChar(c: char, e: string, acc: string)
    requires c != '\''
    ensures ReadWord([c] + e, InSingle, acc) == ReadWord(e, InSingle, acc + [c])
  {
    assert ([c] + e)[1..] == e;
  }

  /** Inside single quotes, `'"'"'` stands for one `'`. */
  lemma QuoteEscapeRead(e: string, acc: string)
    ensures ReadWord(QuoteEscape + e, InSingle, acc) == ReadWord(e, InSingle, acc + "'")
  {
    var x := QuoteEscape + e;
    assert x[1..] == "\"'\"'" + e;
    assert x[2..] == "'\"'" + e;
    assert x[3..] == "\"'" + e;
    assert x[4..] == "'" + e;
    assert x[5..] == e;
    calc {
      ReadWord(x, InSingle, acc);
      ReadWord(x[1..], Unquoted, acc);
      ReadWord(x[2..], InDouble, acc);
      ReadWord(x[3..], InDouble, acc + "'");
      ReadWord(x[4..], Unquoted, acc + "'");
      ReadWord(x[5..], InSingle, acc + "'");
    }
  }

  /** Escaping the first character, then the rest. */
  lemma EscapeCons(s: string)
    requires s != []
    ensures Escape(s) == (if s[0] == '\'' then QuoteEscape else [s[0]]) + Escape(s[1..])
  {
  }

  /** Inside single quotes, the escaped text reads back as the original. */
  lemma {:induction false} ReadEscaped(s: string, tail: string, acc: string)
    ensures ReadWord(Escape(s) + tail, InSingle, acc) == ReadWord(tail, InSingle, acc + s)
  {
    if s == [] {
      assert Escape(s) + tail == tail;
      assert acc + s == acc;
    } else {
      var c := s[0];
      var e := Escape(s[1..]) + tail;
      assert ReadWord(e, InSingle, acc + [c]) == ReadWord(tail, InSingle, acc + s) by {
        ReadEscaped(s[1..], tail, acc + [c]);
        assert acc + [c] + s[1..] == acc + s;
      }
      EscapeCons(s);
      if c == '\'' {
        assert Escape(s) + tail == QuoteEscape + e;
        QuoteEscapeRead(e, acc);
        assert acc + "'" == acc + [c];
      } else {
        assert Escape(s) + tail == [c] + e;
        SingleQuotedChar(c, e, acc);
      }
    }
  }

  /** The quoted word reads back as exactly `s`, when what follows it ends the word. */
  lemma SingleQuotedRoundTrip(s: string, rest: string)
    requires rest == [] || EndsWord(rest[0])
    ensures ReadWord(SingleQuoted(s) + rest, Unquoted, "") == Some((s, rest))
  {
    var x := SingleQuoted(s) + rest;
    assert x == "'" + (Escape(s) + ("'" + rest));
    assert x[1..] == Escape(s) + ("'" + rest);
    ReadEscaped(s, "'" + rest, "");
    assert ("'" + rest)[1..] == rest;
    assert "" + s == s;
  }

  /** Outside the five-character `'"'"'` pattern the escaped text has no `'`. */
  predicate WellEscaped(e: string)
    decreases |e|
  {
    e == []
    || (|e| >= |QuoteEscape| && e[..|QuoteEscape|] == QuoteEscape && WellEscaped(e[|QuoteEscape|..]))
    || (e[0] != '\'' && WellEscaped(e[1..]))
  }

  lemma {:induction false} EscapeWellEscaped(s: string)
    ensures WellEscaped(Escape(s))
  {
    if s != [] {
      EscapeWellEscaped(s[1..]);
      var e := Escape(s);
      if s[0] == '\'' {
        assert e[..|QuoteEscape|] == QuoteEscape;
        assert e[|QuoteEscape|..] == Escape(s[1..]);
      } else {
        assert e[1..] == Escape(s[1..]);
      }
    }
  }
}
