/** kiosk.conf line by line: how a text splits into lines, which settings its lines hold, and
    that what is read from a printed dict is exactly what its settings' own lines hold. */
module ConfigLines {
  import opened Basics
  import opened ConfigText
  import opened ConfigFile

  // ---- The defaults and the header are well formed ----

  lemma LongKeysShaped()
    ensures KeyShaped("BLUEBIRD_BACKEND") && KeyShaped("HEARTBEAT_INTERVAL_SEC")
    ensures KeyShaped("PRINT_AGENT_ENABLED") && KeyShaped("LEGACY_WALL_URL")
  {
  }

  lemma ShortKeysShaped()
    ensures KeyShaped("SCHOOL_SLUG") && KeyShaped("DEVICE_ID") && KeyShaped("ADMIN_PORT")
    ensures KeyShaped("DISPLAY_MODE") && KeyShaped("SIGNAGE_URL") && KeyShaped("VISITOR_URL")
  {
  }

  lemma DefaultTextsOneLine()
    ensures OneLine("https://bluebird-alerts.com") && OneLine("legacy_wall")
    ensures OneLine("7311") && OneLine("60") && OneLine("0") && OneLine("")
  {
  }

  /** Enough of each default key to tell it from the others: its length, then its first
      and second letters. */
  lemma DefaultKeysDiffer(i: nat, j: nat)
    requires i < j < |DEFAULTS|
    ensures DEFAULTS[i].key != DEFAULTS[j].key
  {
    var (a, b) := (DEFAULTS[i].key, DEFAULTS[j].key);
    assert |a| != |b| || a[0] != b[0] || a[1] != b[1];
  }

  lemma DefaultsFileable()
    ensures Fileable(DEFAULTS)
  {
    LongKeysShaped();
    ShortKeysShaped();
    DefaultTextsOneLine();
    forall i, j | 0 <= i < j < |DEFAULTS| ensures DEFAULTS[i].key != DEFAULTS[j].key {
      DefaultKeysDiffer(i, j);
    }
  }

  lemma HeaderOneLine()
    ensures OneLine(HEADER)
  {
    assert OneLine("# BlueBird Kiosk OS \U{2014} ");
    assert OneLine("runtime configuration ");
    assert OneLine("(written by control plane)");
  }

  lemma HeaderIsAComment()
    ensures OneLine(HEADER) && ParseLine(HEADER) == None
  {
    HeaderOneLine();
    assert HEADER[0] == '#' && HEADER[|HEADER| - 1] == ')';
    TrimExact(HEADER, IsSpace, 0, |HEADER|);
    assert HEADER[0..|HEADER|] == HEADER;
  }

  // ---- Reading gives fileable dicts ----

  lemma ParsedIsFileable(line: string)
    requires OneLine(line) && ParseLine(line).Some?
    ensures KeyShaped(ParseLine(line).value.key) && OneLine(ParseLine(line).value.value)
  {
    var stripped := Trim(line, IsSpace);
    TrimOneLine(line, IsSpace);
    var raw := stripped[EqualsAt(stripped) + 1..];
    TrimOneLine(raw, IsSpace);
    TrimOneLine(Trim(raw, IsSpace), IsDouble);
    TrimOneLine(Trim(Trim(raw, IsSpace), IsDouble), IsSingle);
  }

  lemma {:induction false} LinesHaveNoBreaks(s: string)
    ensures forall i | 0 <= i < |SplitLines(s)| :: OneLine(SplitLines(s)[i])
    decreases |s|
  {
    if s != "" {
      var i := BreakAt(s);
      if i < |s| {
        LinesHaveNoBreaks(s[i + 1..]);
        if i + 1 < |s| { LinesHaveNoBreaks(s[i + 2..]); }
      }
    }
  }

  lemma {:induction false} ReadLinesFileable(d: Dict, lines: seq<string>)
    requires Fileable(d) && forall i | 0 <= i < |lines| :: OneLine(lines[i])
    ensures Fileable(ReadLines(d, lines))
    decreases |lines|
  {
    if lines != [] {
      var parsed := ParseLine(lines[0]);
      if parsed.Some? {
        ParsedIsFileable(lines[0]);
        PutFileable(d, parsed.value.key, parsed.value.value);
      }
      ReadLinesFileable(ReadLine(d, lines[0]), lines[1..]);
    }
  }

  /** No value read from any file contains a line break, whatever was written to it. */
  lemma {:induction false} ReadFileable(text: Option<string>)
    ensures Fileable(Read(text))
  {
    DefaultsFileable();
    if text.Some? {
      LinesHaveNoBreaks(text.value);
      ReadLinesFileable(DEFAULTS, SplitLines(text.value));
    }
  }

  // ---- Printing and reading one dict ----

  lemma {:induction false} BreakAtFirst(line: string, rest: string)
    requires OneLine(line)
    ensures BreakAt(line + "\n" + rest) == |line|
  {
    var s := line + "\n" + rest;
    if line != "" {
      BreakAtFirst(line[1..], rest);
      assert s[1..] == line[1..] + "\n" + rest;
    }
  }

  lemma SplitFirst(line: string, rest: string)
    requires OneLine(line)
    ensures SplitLines(line + "\n" + rest) == [line] + SplitLines(rest)
  {
    var s := line + "\n" + rest;
    BreakAtFirst(line, rest);
    assert s[..|line|] == line && s[|line|] == '\n' && s[|line| + 1..] == rest;
  }

  lemma {:induction false} EscapeOneLine(v: string)
    requires OneLine(v)
    ensures OneLine(Escape(v))
  {
    if v != "" {
      EscapeOneLine(v[1..]);
    }
  }

  lemma QuoteOneLine(v: string)
    requires OneLine(v)
    ensures OneLine(Quote(v))
  {
    EscapeOneLine(v);
  }

  lemma EqualsAfterKey(k: string, w: string)
    requires KeyShaped(k)
    ensures EqualsAt(k + "=" + w) == |k|
  {
    var line := k + "=" + w;
    assert line[|k|] == '=';
    assert forall e | 0 <= e < |k| :: line[e] == k[e] && k[e] != '=';
  }

  /** A key, `=` and a word that neither starts nor ends with a space. */
  lemma LineParses(k: string, w: string)
    requires KeyShaped(k) && w != "" && !IsSpace(w[0]) && !IsSpace(w[|w| - 1])
    ensures ParseLine(k + "=" + w) == Some(Setting(k, Unquote(w)))
  {
    var line := k + "=" + w;
    EqualsAfterKey(k, w);
    assert line[..|k|] == k && line[|k| + 1..] == w && line[0] == k[0] && line[|line| - 1] == w[|w| - 1];
    TrimExact(line, IsSpace, 0, |line|);
    assert line[0..|line|] == line;
  }

  lemma PrintedOneLine(s: Setting)
    requires KeyShaped(s.key) && OneLine(s.value)
    ensures OneLine(PrintLine(s))
  {
    QuoteOneLine(s.value);
    var (k, w) := (s.key, Quote(s.value));
    forall i | 0 <= i < |PrintLine(s)| ensures !IsLineBreak(PrintLine(s)[i]) {
      if i < |k| {
        assert PrintLine(s)[i] == k[i];
      } else if i > |k| {
        assert PrintLine(s)[i] == w[i - |k| - 1];
      }
    }
  }

  /** A printed line parses back to its key and to what the quoting makes of its value. */
  lemma PrintedLineParses(s: Setting)
    requires KeyShaped(s.key) && OneLine(s.value)
    ensures OneLine(PrintLine(s))
    ensures ParseLine(PrintLine(s)) == Some(Setting(s.key, Reread(s.value)))
  {
    PrintedOneLine(s);
    QuoteEnds(s.value);
    LineParses(s.key, Quote(s.value));
  }

  /** A hand-written line with its value in double quotes reads as that value. */
  lemma DoubleQuotedLineParses(k: string, v: string)
    requires KeyShaped(k) && v != ""
    requires !IsDouble(v[0]) && !IsDouble(v[|v| - 1]) && !IsSingle(v[0]) && !IsSingle(v[|v| - 1])
    ensures ParseLine(k + "=" + ("\"" + v + "\"")) == Some(Setting(k, v))
  {
    LineParses(k, "\"" + v + "\"");
    DoubleQuotesStripped(v);
  }

  lemma DoubleQuotesStripped(v: string)
    requires v != ""
    requires !IsDouble(v[0]) && !IsDouble(v[|v| - 1]) && !IsSingle(v[0]) && !IsSingle(v[|v| - 1])
    ensures Unquote("\"" + v + "\"") == v
  {
    var w := "\"" + v + "\"";
    assert w[0..|w|] == w && v[0..|v|] == v && w[1..|v| + 1] == v;
    TrimExact(w, IsSpace, 0, |w|);
    TrimExact(w, IsDouble, 1, |v| + 1);
    TrimExact(v, IsSingle, 0, |v|);
  }

  // ---- Dicts and assignments ----

  /** The value a sequence of assignments leaves for a key it names. */
  function Latest(values: seq<Setting>, k: string): Option<string> {
    if values == [] then None
    else
      var later := Latest(values[1..], k);
      if later.Some? then later else if values[0].key == k then Some(values[0].value) else None
  }

  lemma {:induction false} GetMerge(d: Dict, values: seq<Setting>, k: string)
    ensures Get(Merge(d, values), k) == if Latest(values, k).Some? then Latest(values, k) else Get(d, k)
    decreases |values|
  {
    if values != [] {
      GetPut(d, values[0].key, values[0].value, k);
      GetMerge(Put(d, values[0].key, values[0].value), values[1..], k);
    }
  }

  lemma {:induction false} GetMember(d: Dict, k: string)
    ensures Get(d, k).None? <==> forall i | 0 <= i < |d| :: d[i].key != k
    ensures Get(d, k).Some? ==> exists i :: 0 <= i < |d| && d[i] == Setting(k, Get(d, k).value)
  {
    if d != [] {
      GetMember(d[1..], k);
      assert forall i | 0 < i < |d| :: d[i] == d[1..][i - 1];
      if d[0].key != k && Get(d, k).Some? {
        var i :| 0 <= i < |d[1..]| && d[1..][i] == Setting(k, Get(d[1..], k).value);
        assert d[i + 1] == Setting(k, Get(d, k).value);
      }
    }
  }

  function RereadOption(v: Option<string>): Option<string> {
    if v.Some? then Some(Reread(v.value)) else None
  }

  lemma {:induction false} LinesKeepKeys(d: Dict, lines: seq<string>, k: string)
    requires Get(d, k).Some?
    ensures Get(ReadLines(d, lines), k).Some?
    decreases |lines|
  {
    if lines != [] {
      var parsed := ParseLine(lines[0]);
      if parsed.Some? {
        GetPut(d, parsed.value.key, parsed.value.value, k);
      }
      LinesKeepKeys(ReadLine(d, lines[0]), lines[1..], k);
    }
  }

  lemma {:induction false} LatestConcat(a: seq<Setting>, b: seq<Setting>, k: string)
    ensures Latest(a + b, k) == if Latest(b, k).Some? then Latest(b, k) else Latest(a, k)
    decreases |a|
  {
    if a == [] {
      assert a + b == b;
    } else {
      assert (a + b)[0] == a[0] && (a + b)[1..] == a[1..] + b;
      LatestConcat(a[1..], b, k);
    }
  }

  lemma {:induction false} MergeMembers(d: Dict, values: seq<Setting>)
    requires Unique(d)
    ensures Unique(Merge(d, values)) && forall s | s in Merge(d, values) :: s in d || s in values
    decreases |values|
  {
    if values != [] {
      var (first, rest) := (values[0], values[1..]);
      assert values == [first] + rest;
      PutMembers(d, first.key, first.value);
      MergeMembers(Put(d, first.key, first.value), rest);
    }
  }

  // ---- The settings that lines hold ----

  function Held(line: string): seq<Setting> {
    match ParseLine(line)
    case None => []
    case Some(s) => [s]
  }

  function Parsed(lines: seq<string>): seq<Setting> {
    if lines == [] then [] else Held(lines[0]) + Parsed(lines[1..])
  }

  lemma {:induction false} ReadLinesMerges(d: Dict, lines: seq<string>)
    ensures ReadLines(d, lines) == Merge(d, Parsed(lines))
    decreases |lines|
  {
    if lines != [] {
      ReadLinesMerges(ReadLine(d, lines[0]), lines[1..]);
      if ParseLine(lines[0]).Some? {
        var s := ParseLine(lines[0]).value;
        assert Parsed(lines)[0] == s && Parsed(lines)[1..] == Parsed(lines[1..]);
      } else {
        assert Parsed(lines) == Parsed(lines[1..]);
      }
    }
  }

  lemma ParsedCons(line: string, lines: seq<string>)
    ensures Parsed([line] + lines) == Held(line) + Parsed(lines)
  {
    assert ([line] + lines)[1..] == lines;
  }

  lemma ParsedOne(line: string)
    ensures Parsed([line]) == Held(line)
  {
    assert [line][1..] == [];
  }

  lemma DropInto(a: string, b: string, c: string, j: nat)
    requires j <= |a|
    ensures (a + b + c)[j..] == a[j..] + b + c
  {
  }

  /** A text with a line break, alone and before more text: both start with the same line; what
      follows it is None if that break and the one after the text are one. */
  lemma FirstLine(a: string, rest: string) returns (line: string, next: Option<string>)
    requires BreakAt(a) < |a|
    ensures next.Some? ==> |next.value| < |a|
    ensures SplitLines(a) == [line] + if next.Some? then SplitLines(next.value) else []
    ensures SplitLines(a + "\n" + rest)
         == [line] + if next.Some? then SplitLines(next.value + "\n" + rest) else SplitLines(rest)
  {
    var (i, s) := (BreakAt(a), a + "\n" + rest);
    assert BreakAt(s) == i by {
      assert forall k | 0 <= k <= i :: s[k] == a[k];
    }
    line := s[..i];
    assert line == a[..i];
    var j := if a[i] == '\r' && i + 1 < |s| && s[i + 1] == '\n' then i + 2 else i + 1;
    if j <= |a| {
      next := Some(a[j..]);
      DropInto(a, "\n", rest, j);
    } else {
      next := None;
      assert s[j..] == rest && a[i + 1..] == "";
    }
  }

  lemma LastLine(a: string, rest: string)
    requires OneLine(a)
    ensures Parsed(SplitLines(a + "\n" + rest)) == Parsed(SplitLines(a)) + Parsed(SplitLines(rest))
  {
    SplitFirst(a, rest);
    ParsedCons(a, SplitLines(rest));
    ParsedOne(a);
    if a != "" {
      SplitOneLine(a);
    }
  }

  lemma SplitOneLine(line: string)
    requires OneLine(line) && line != ""
    ensures SplitLines(line) == [line]
  {
  }

  lemma BreakInside(a: string)
    ensures BreakAt(a) == |a| <==> OneLine(a)
  {
  }

  lemma SameFirstLine(line: string, part: seq<string>, whole: seq<string>, rest: seq<string>)
    requires Parsed(whole) == Parsed(part) + Parsed(rest)
    ensures Parsed([line] + whole) == Parsed([line] + part) + Parsed(rest)
  {
    ParsedCons(line, part);
    ParsedCons(line, whole);
    Reassociate(Held(line), Parsed(part), Parsed(rest));
  }

  lemma Reassociate(a: seq<Setting>, b: seq<Setting>, c: seq<Setting>)
    ensures a + (b + c) == (a + b) + c
  {
  }

  /** A line break separates: the settings before it are those of the text before it. (An empty
      line may come in between, which holds nothing.) */
  lemma {:induction false} ParsedSplit(a: string, rest: string)
    ensures Parsed(SplitLines(a + "\n" + rest)) == Parsed(SplitLines(a)) + Parsed(SplitLines(rest))
    decreases |a|
  {
    BreakInside(a);
    if OneLine(a) {
      LastLine(a, rest);
    } else {
      var line, next := FirstLine(a, rest);
      if next.Some? {
        ParsedSplit(next.value, rest);
        SameFirstLine(line, SplitLines(next.value), SplitLines(next.value + "\n" + rest), SplitLines(rest));
      } else {
        assert Parsed([]) == [];
        SameFirstLine(line, [], SplitLines(rest), SplitLines(rest));
      }
    }
  }

  /** The settings held by the lines that one setting is printed as: for a one-line value the
      setting itself, reread; for a value with line breaks whatever its lines say. */
  function LineSettings(s: Setting): seq<Setting> {
    Parsed(SplitLines(PrintLine(s)))
  }

  function Printed(d: Dict): seq<Setting> {
    if d == [] then [] else LineSettings(d[0]) + Printed(d[1..])
  }

  lemma {:induction false} BodyHoldsPrinted(d: Dict)
    ensures Parsed(SplitLines(Body(d))) == Printed(d)
    decreases |d|
  {
    if d != [] {
      ParsedSplit(PrintLine(d[0]), Body(d[1..]));
      BodyHoldsPrinted(d[1..]);
    }
  }

  lemma {:induction false} PrintedConcat(a: Dict, b: Dict)
    ensures Printed(a + b) == Printed(a) + Printed(b)
    decreases |a|
  {
    if a == [] {
      assert a + b == b;
    } else {
      assert (a + b)[0] == a[0] && (a + b)[1..] == a[1..] + b;
      PrintedConcat(a[1..], b);
    }
  }

  /** One write of any values at all, then one read: the defaults, overlaid by what the lines of
      each merged setting hold, in order. */
  lemma ReadAfterAnyWrite(text: Option<string>, values: seq<Setting>)
    ensures Read(Some(Write(text, values))) == Merge(DEFAULTS, Printed(Merge(Read(text), values)))
  {
    var d := Merge(Read(text), values);
    PrintHoldsPrinted(d);
    ReadLinesMerges(DEFAULTS, SplitLines(Print(d)));
  }

  lemma PrintHoldsPrinted(d: Dict)
    ensures Parsed(SplitLines(Print(d))) == Printed(d)
  {
    HeaderIsAComment();
    SkipComment(HEADER, Body(d));
    BodyHoldsPrinted(d);
  }

  lemma SkipComment(line: string, rest: string)
    requires OneLine(line) && ParseLine(line) == None
    ensures Parsed(SplitLines(line + "\n" + rest)) == Parsed(SplitLines(rest))
  {
    SplitFirst(line, rest);
    ParsedCons(line, SplitLines(rest));
    ParsedOne(line);
  }

  lemma OneLineHoldsItself(s: Setting)
    requires KeyShaped(s.key) && OneLine(s.value)
    ensures LineSettings(s) == [Setting(s.key, Reread(s.value))]
  {
    PrintedLineParses(s);
    SplitOneLine(PrintLine(s));
    ParsedOne(PrintLine(s));
  }
}
