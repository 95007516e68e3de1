/** The other reader of kiosk.conf: a POSIX shell that sources it. */
module ShellWords {
  import opened Basics
  import opened ConfigText

  datatype Mode = Bare | InSingle | InDouble

  /** Characters that a shell may treat specially in an unquoted word: operators, blanks,
      expansions, globs, comments (sections 2.2 and 2.3 of POSIX.1-2017 Shell Command Language). */
  predicate Special(c: char) {
    IsSpace(c) || c == '|' || c == '&' || c == ';' || c == '<' || c == '>' || c == '(' || c == ')' || c == '$'
    || c == '`' || c == '\\' || c == '*' || c == '?' || c == '[' || c == ']' || c == '#' || c == '~' || c == '{'
    || c == '}' || c == '!' || c == '^'
  }

  /** Reading one word and removing its quotes (sections 2.2.2, 2.2.3 and 2.6.7): single
      quotes keep everything; double quotes keep everything but `$`, backquote and
      backslash, whose meaning is not modelled here; elsewhere only characters without
      special meaning are words. None: not a single literal word. */
  function RemoveQuotes(s: string, mode: Mode): Option<string>
    decreases |s|
  {
    if s == "" then (if mode == Bare then Some("") else None)
    else
      var (c, rest) := (s[0], s[1..]);
      match mode
      case InSingle => if IsSingle(c) then RemoveQuotes(rest, Bare) else Keep(c, RemoveQuotes(rest, InSingle))
      case InDouble =>
        if IsDouble(c) then RemoveQuotes(rest, Bare)
        else if c == '$' || c == '`' || c == '\\' then None
        else Keep(c, RemoveQuotes(rest, InDouble))
      case Bare =>
        if IsSingle(c) then RemoveQuotes(rest, InSingle)
        else if IsDouble(c) then RemoveQuotes(rest, InDouble)
        else if Special(c) then None
        else Keep(c, RemoveQuotes(rest, Bare))
  }

  function Keep(c: char, rest: Option<string>): Option<string> {
    if rest.None? then None else Some([c] + rest.value)
  }

  lemma {:induction false} SafeWordIsItself(v: string)
    requires AllSafe(v)
    ensures RemoveQuotes(v, Bare) == Some(v)
  {
    if v != "" {
      assert SafeChar(v[0]);
      SafeWordIsItself(v[1..]);
      assert [v[0]] + v[1..] == v;
    }
  }

  /** Unquoted text is a word of its own exactly if no character of it is special. */
  lemma {:induction false} BareWordExactly(v: string)
    requires forall i | 0 <= i < |v| :: v[i] != '\'' && v[i] != '"'
    ensures RemoveQuotes(v, Bare) == if exists i | 0 <= i < |v| :: Special(v[i]) then None else Some(v)
  {
    if v != "" {
      BareWordExactly(v[1..]);
      assert v == [v[0]] + v[1..];
      assert forall i | 0 < i < |v| :: v[i] == v[1..][i - 1];
      if i :| 0 <= i < |v[1..]| && Special(v[1..][i]) {
        assert v[i + 1] == v[1..][i];
      }
    }
  }

  lemma EscapedQuoteReopens(rest: string)
    ensures RemoveQuotes(ESCAPED_QUOTE + rest, InSingle) == Keep('\'', RemoveQuotes(rest, InSingle))
  {
    var s := ESCAPED_QUOTE + rest;
    assert s[0] == '\'' && s[1] == '"' && s[2] == '\'' && s[3] == '"' && s[4] == '\'';
    assert s[1..][1..] == s[2..] && s[2..][1..] == s[3..] && s[3..][1..] == s[4..] && s[4..][1..] == s[5..] == rest;
    assert RemoveQuotes(s, InSingle) == RemoveQuotes(s[1..], Bare);
    assert RemoveQuotes(s[1..], Bare) == RemoveQuotes(s[2..], InDouble);
    assert RemoveQuotes(s[2..], InDouble) == Keep('\'', RemoveQuotes(s[3..], InDouble));
    assert RemoveQuotes(s[3..], InDouble) == RemoveQuotes(s[4..], Bare);
    assert RemoveQuotes(s[4..], Bare) == RemoveQuotes(rest, InSingle);
  }

  lemma {:induction false} EscapedBodyIsLiteral(v: string)
    ensures RemoveQuotes(Escape(v) + "'", InSingle) == Some(v)
  {
    if v == "" {
      assert Escape(v) + "'" == "'";
    } else {
      EscapedBodyIsLiteral(v[1..]);
      var rest := Escape(v[1..]) + "'";
      if IsSingle(v[0]) {
        assert Escape(v) + "'" == ESCAPED_QUOTE + rest;
        EscapedQuoteReopens(rest);
      } else {
        assert Escape(v) + "'" == [v[0]] + rest;
        assert ([v[0]] + rest)[1..] == rest;
      }
      assert [v[0]] + v[1..] == v;
    }
  }

  /** Every value, quotes and line breaks included, is printed as one shell word that quote
      removal turns back into exactly that value. */
  lemma ShellReadsBackEverything(v: string)
    ensures RemoveQuotes(Quote(v), Bare) == Some(v)
  {
    if v == "" {
      assert "''"[1..] == "'" && "'"[1..] == "";
    } else if AllSafe(v) {
      SafeWordIsItself(v);
    } else {
      EscapedBodyIsLiteral(v);
      assert Quote(v) == "'" + Escape(v) + "'";
      assert Quote(v)[1..] == Escape(v) + "'";
    }
  }
}
