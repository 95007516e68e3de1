/** What the lines of a value with line breaks may set once it is printed: quoting adds nothing
    to them, so only the value's own lines count. */
module UrlLines {
  import opened Basics
  import opened ConfigText
  import opened ConfigFile
  import opened ConfigLines
  import opened ConfigRoundTrip

  /** The line is a setting of key k. */
  predicate Sets(line: string, k: string) {
    ParseLine(line).Some? && ParseLine(line).value.key == k
  }

  predicate NoneSets(lines: seq<string>, k: string) {
    forall i | 0 <= i < |lines| :: !Sets(lines[i], k)
  }

  lemma {:induction false} NoneSetsExactly(lines: seq<string>, k: string)
    ensures NoneSets(lines, k) <==> Latest(Parsed(lines), k).None?
  {
    if lines != [] {
      NoneSetsExactly(lines[1..], k);
      LatestConcat(Held(lines[0]), Parsed(lines[1..]), k);
      NoneSetsCons(lines[0], lines[1..], k);
      assert lines == [lines[0]] + lines[1..];
    }
  }

  lemma NoneSetsCons(line: string, lines: seq<string>, k: string)
    ensures NoneSets([line] + lines, k) <==> !Sets(line, k) && NoneSets(lines, k)
  {
    var all := [line] + lines;
    assert all[0] == line && forall i | 0 <= i < |lines| :: all[i + 1] == lines[i];
  }

  // ---- Which lines set a key ----

  /** Blanks, the key, an equals sign, and anything at all. */
  lemma LineStarts(blanks: string, k: string, w: string)
    requires KeyShaped(k) && forall i | 0 <= i < |blanks| :: IsSpace(blanks[i])
    ensures Sets(blanks + k + "=" + w, k)
  {
    var line, rest := blanks + k + "=" + w, k + "=" + w;
    assert line[|blanks|..] == rest && line[|blanks|] == k[0];
    TrimLeftExact(line, IsSpace, |blanks|);
    StripKeepsKey(k, w);
  }

  lemma StripKeepsKey(k: string, w: string)
    requires KeyShaped(k)
    ensures
      var stripped := TrimRight(k + "=" + w, IsSpace);
      |stripped| > |k| && stripped[..|k|] == k && EqualsAt(stripped) == |k|
  {
    var rest := k + "=" + w;
    TrimRightSpec(rest, IsSpace);
    assert rest[|k|] == '=';
    var stripped := TrimRight(rest, IsSpace);
    assert |stripped| > |k|;
    assert stripped[|k|] == '=' && forall i | 0 <= i < |k| :: stripped[i] == k[i] && k[i] != '=';
  }

  lemma SettingLineShape(line: string, k: string) returns (blanks: string)
    requires Sets(line, k)
    ensures (forall i | 0 <= i < |blanks| :: IsSpace(blanks[i])) && KeyShaped(k) && blanks + k + "=" <= line
  {
    var i := TrimLeftSpec(line, IsSpace);
    blanks := line[..i];
    TrimRightSpec(line[i..], IsSpace);
    var e := KeyInside(Trim(line, IsSpace), line, k);
    Rejoin(line, i, Trim(line, IsSpace), k);
  }

  lemma KeyInside(stripped: string, line: string, k: string) returns (e: nat)
    requires stripped == Trim(line, IsSpace) && Sets(line, k)
    ensures KeyShaped(k) && k + "=" <= stripped && e == |k|
  {
    e := EqualsAt(stripped);
    assert stripped[..e] == k && stripped[e] == '=';
  }

  lemma Rejoin(line: string, i: nat, stripped: string, k: string)
    requires i <= |line| && stripped <= line[i..] && k + "=" <= stripped
    ensures line[..i] + k + "=" <= line
  {
    var n := |k| + 1;
    assert line[i..i + n] == k + "=";
    assert line[..i] + k + "=" == line[..i + n];
  }

  lemma SettingLineFirst(line: string, k: string)
    requires Sets(line, k)
    ensures line != "" && (IsSpace(line[0]) || KeyStart(line[0]))
  {
    var blanks := SettingLineShape(line, k);
    assert (blanks + k + "=")[0] == line[0];
  }

  lemma PathSetsNothing(line: string, k: string)
    requires line != "" && line[0] == '/'
    ensures !Sets(line, k)
  {
    if Sets(line, k) {
      SettingLineFirst(line, k);
    }
  }

  // ---- Quoting sets nothing new ----

  lemma {:induction false} PrefixOfEscaped(p: string, v: string, end: string)
    requires !HasQuote(p) && (end == "" || end == "'") && p <= Escape(v) + end
    ensures p <= v
  {
    if p != "" {
      assert !IsSingle(p[0]);
      if v != "" {
        assert Escape(v)[0] == v[0] by { EscapeLength(v); }
        assert Escape(v) == [v[0]] + Escape(v[1..]);
        assert p[1..] <= Escape(v[1..]) + end;
        assert forall i | 0 <= i < |p[1..]| :: p[1..][i] == p[i + 1];
        PrefixOfEscaped(p[1..], v[1..], end);
      }
    }
  }

  /** An escaped line, with or without the closing quote, sets only what the line itself sets. */
  lemma EscapedLineSets(line: string, end: string, k: string)
    requires (end == "" || end == "'") && Sets(Escape(line) + end, k)
    ensures Sets(line, k)
  {
    var blanks := SettingLineShape(Escape(line) + end, k);
    var p := blanks + k + "=";
    assert !HasQuote(p);
    PrefixOfEscaped(p, line, end);
    assert line == blanks + k + "=" + line[|p|..];
    LineStarts(blanks, k, line[|p|..]);
  }

  // ---- Splitting at one break ----

  /** `brk` is one line break where it stands. */
  predicate Breaks(brk: string, rest: string) {
    brk == "\r\n" || (|brk| == 1 && IsLineBreak(brk[0]) && !(brk == "\r" && rest != "" && rest[0] == '\n'))
  }

  lemma SplitBreak(line: string, brk: string, rest: string)
    requires OneLine(line) && Breaks(brk, rest)
    ensures SplitLines(line + brk + rest) == [line] + SplitLines(rest)
  {
    var s := line + brk + rest;
    var n := |line|;
    assert BreakAt(s) == n by {
      assert forall i | 0 <= i < n :: s[i] == line[i];
      assert s[n] == brk[0];
    }
    assert s[..n] == line;
    if brk == "\r\n" {
      assert s[n + 1] == '\n' && s[n + 2..] == rest;
    } else {
      assert s[n + 1..] == rest;
      assert n + 1 < |s| ==> s[n + 1] == rest[0];
    }
  }

  lemma FindBreak(s: string) returns (line: string, brk: string, rest: string)
    requires !OneLine(s)
    ensures s == line + brk + rest && OneLine(line) && Breaks(brk, rest)
  {
    BreakInside(s);
    var i := BreakAt(s);
    line := s[..i];
    var j := if s[i] == '\r' && i + 1 < |s| && s[i + 1] == '\n' then i + 2 else i + 1;
    brk, rest := s[i..j], s[j..];
  }

  lemma BreaksClean(brk: string, rest: string)
    requires Breaks(brk, rest)
    ensures !HasQuote(brk) && brk != "" && !OneLine(brk) && Breaks(brk, Escape(rest) + "'")
  {
    assert IsLineBreak(brk[0]);
    EscapeLength(rest);
    assert rest != "" ==> (Escape(rest) + "'")[0] == rest[0];
  }

  lemma EscapeAround(line: string, brk: string, rest: string)
    requires !HasQuote(brk)
    ensures Escape(line + brk + rest) + "'" == Escape(line) + brk + (Escape(rest) + "'")
  {
    EscapeConcat(line + brk, rest);
    EscapeConcat(line, brk);
    EscapeClean(brk);
  }

  /** If no line of a value sets the key, none of its quoted form does. */
  lemma {:induction false} EscapedValueSets(v: string, k: string)
    requires NoneSets(SplitLines(v), k)
    ensures NoneSets(SplitLines(Escape(v) + "'"), k)
    decreases |v|
  {
    if OneLine(v) {
      EscapeOneLine(v);
      SplitOneLine(Escape(v) + "'");
      if v != "" {
        SplitOneLine(v);
        assert SplitLines(v)[0] == v;
      }
      if Sets(Escape(v) + "'", k) {
        EscapedLineSets(v, "'", k);
      }
    } else {
      var line, brk, rest := FindBreak(v);
      BreaksClean(brk, rest);
      SplitBreak(line, brk, rest);
      NoneSetsCons(line, SplitLines(rest), k);
      EscapedValueSets(rest, k);
      EscapeAround(line, brk, rest);
      EscapeOneLine(line);
      SplitBreak(Escape(line), brk, Escape(rest) + "'");
      NoneSetsCons(Escape(line), SplitLines(Escape(rest) + "'"), k);
      if Sets(Escape(line), k) {
        assert Escape(line) + "" == Escape(line);
        EscapedLineSets(line, "", k);
      }
    }
  }

  // ---- A printed setting with line breaks ----

  /** A value made of a one-line start and a tail with line breaks, none of which sets key k,
      cannot disturb k under any other key. */
  lemma TailIsHarmless(key: string, start: string, tail: string, k: string)
    requires KeyShaped(key) && key != k && OneLine(start) && !OneLine(tail) && NoneSets(SplitLines(tail), k)
    ensures Harmless(Setting(key, start + tail), k)
  {
    var line, brk, rest := FindBreak(tail);
    BreaksClean(brk, rest);
    SplitBreak(line, brk, rest);
    NoneSetsCons(line, SplitLines(rest), k);
    EscapedValueSets(rest, k);
    var first := PrintedFirstLine(key, start, line, brk, rest);
    NoneSetsCons(first, SplitLines(Escape(rest) + "'"), k);
    NoneSetsExactly(SplitLines(PrintLine(Setting(key, start + tail))), k);
  }

  function OpenedLine(key: string, head: string): string {
    key + "=" + ("'" + Escape(head))
  }

  lemma PrintedShape(key: string, head: string, brk: string, rest: string)
    requires Breaks(brk, rest)
    ensures PrintLine(Setting(key, head + brk + rest)) == OpenedLine(key, head) + brk + (Escape(rest) + "'")
  {
    QuotedAround(head, brk, rest);
    Regrouped(key + "=", "'" + Escape(head), brk, Escape(rest) + "'");
  }

  lemma PrintedFirstLine(key: string, start: string, line: string, brk: string, rest: string) returns (first: string)
    requires KeyShaped(key) && OneLine(start) && OneLine(line) && Breaks(brk, rest)
    ensures Sets(first, key)
    ensures SplitLines(PrintLine(Setting(key, start + (line + brk + rest)))) == [first] + SplitLines(Escape(rest) + "'")
  {
    first := OpenedLine(key, start + line);
    Regrouped(start, line, brk, rest);
    PrintedShape(key, start + line, brk, rest);
    BreaksClean(brk, rest);
    FirstLineIsOne(key, start + line);
    SplitBreak(first, brk, Escape(rest) + "'");
    OpenedLineSets(key, start + line);
  }

  lemma NoBlanks(k: string, w: string)
    ensures "" + k + "=" + w == k + "=" + w
  {
  }

  lemma OpenedLineSets(key: string, head: string)
    requires KeyShaped(key)
    ensures Sets(OpenedLine(key, head), key)
  {
    LineStarts("", key, "'" + Escape(head));
    NoBlanks(key, "'" + Escape(head));
  }

  lemma Regrouped(a: string, b: string, c: string, d: string)
    ensures a + (b + c + d) == (a + b) + c + d
  {
  }

  lemma QuotedAround(head: string, brk: string, rest: string)
    requires Breaks(brk, rest)
    ensures Quote(head + brk + rest) == "'" + Escape(head) + brk + (Escape(rest) + "'")
  {
    var v := head + brk + rest;
    BreaksClean(brk, rest);
    BreakIsUnsafe(head, brk, rest);
    EscapeAround(head, brk, rest);
    Requote("'", Escape(v), "'", Escape(head) + brk, Escape(rest) + "'");
  }

  lemma BreakIsUnsafe(head: string, brk: string, rest: string)
    requires Breaks(brk, rest)
    ensures head + brk + rest != "" && !AllSafe(head + brk + rest)
  {
    var v := head + brk + rest;
    assert v[|head|] == brk[0] && !SafeChar(v[|head|]);
  }

  lemma Requote(a: string, b: string, c: string, d: string, e: string)
    requires b + c == d + e
    ensures a + b + c == a + d + e
  {
    assert a + b + c == a + (b + c) && a + d + e == a + (d + e);
  }

  lemma FirstLineIsOne(key: string, head: string)
    requires KeyShaped(key) && OneLine(head)
    ensures OneLine(OpenedLine(key, head))
  {
    EscapeOneLine(head);
    var (s, w) := (OpenedLine(key, head), "'" + Escape(head));
    forall i | 0 <= i < |s| ensures !IsLineBreak(s[i]) {
      if i < |key| {
        assert s[i] == key[i];
      } else if i > |key| {
        assert s[i] == w[i - |key| - 1];
      }
    }
  }
}
