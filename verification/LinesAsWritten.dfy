/** kiosk.conf character by character: which lines set what, and what a rewrite begins with. */
module LinesAsWritten {
  import opened Basics
  import opened ConfigText
  import opened ConfigFile
  import opened ConfigLines

  // ---- Characters ----

  /** Lines end at the characters at which Python's `splitlines` ends them. */
  lemma BreaksSpelt(c: char)
    ensures IsLineBreak(c) <==> c in "\n\r\U{0B}\U{0C}\U{1C}\U{1D}\U{1E}\U{85}\U{2028}\U{2029}"
  {
    assert "\n\r\U{0B}\U{0C}\U{1C}\U{1D}\U{1E}\U{85}\U{2028}\U{2029}"
        == ['\n', '\r', '\U{0B}', '\U{0C}', '\U{1C}', '\U{1D}', '\U{1E}', '\U{85}', '\U{2028}', '\U{2029}'];
  }

  /** Blank: each line end, the tab, the four separators, and Unicode's spaces. */
  lemma SpacesSpelt(c: char)
    ensures IsSpace(c) <==> IsLineBreak(c) || c in "\t \U{1F}\U{A0}\U{1680}\U{202F}\U{205F}\U{3000}"
                            || '\U{2000}' <= c <= '\U{200A}'
  {
    assert "\t \U{1F}\U{A0}\U{1680}\U{202F}\U{205F}\U{3000}"
        == ['\t', ' ', '\U{1F}', '\U{A0}', '\U{1680}', '\U{202F}', '\U{205F}', '\U{3000}'];
  }

  predicate IsLetterOrDigit(c: char) {
    'a' <= c <= 'z' || 'A' <= c <= 'Z' || '0' <= c <= '9'
  }

  /** A value is printed bare exactly if it is not empty and holds nothing but letters, digits and
      the ten signs that `shlex` lets pass; any other stands between single quotes. */
  lemma PrintedBareExactly(v: string)
    ensures Quote(v) == v <==> v != "" && forall i | 0 <= i < |v| :: IsLetterOrDigit(v[i]) || v[i] in "_@%+=:,./-"
    ensures Quote(v) != v ==> |Quote(v)| >= 2 && Quote(v)[0] == '\'' && Quote(v)[|Quote(v)| - 1] == '\''
  {
    assert "_@%+=:,./-" == ['_', '@', '%', '+', '=', ':', ',', '.', '/', '-'];
    if v != "" {
      EscapeLength(v);
      assert |"'" + Escape(v) + "'"| == |Escape(v)| + 2;
    }
  }

  // ---- Lines ----

  predicate Blanks(s: string) {
    forall i | 0 <= i < |s| :: s[i] == ' ' || s[i] == '\t'
  }

  lemma Unpad(before: string, s: string, after: string)
    requires Blanks(before) && Blanks(after) && s != "" && !IsSpace(s[0]) && !IsSpace(s[|s| - 1])
    ensures Trim(before + s + after, IsSpace) == s
  {
    var padded := before + s + after;
    assert padded[|before|..|before| + |s|] == s;
    assert padded[|before|] == s[0] && padded[|before| + |s| - 1] == s[|s| - 1];
    TrimExact(padded, IsSpace, |before|, |before| + |s|);
  }

  /** A comment sets nothing, however it is indented. */
  lemma CommentSetsNothing(before: string, text: string, after: string)
    requires Blanks(before) && Blanks(after) && (text != "" ==> !IsSpace(text[|text| - 1]))
    ensures ParseLine(before + ("#" + text) + after) == None
  {
    Unpad(before, "#" + text, after);
  }

  /** A key of capitals, digits and underscores, not starting with a digit. */
  predicate IsKey(k: string) {
    && k != "" && !('0' <= k[0] <= '9')
    && forall i | 0 <= i < |k| :: 'A' <= k[i] <= 'Z' || '0' <= k[i] <= '9' || k[i] == '_'
  }

  /** A line `KEY=value`, indented or not, sets exactly such keys. */
  lemma PlainLineParses(before: string, k: string, v: string, after: string)
    requires Blanks(before) && Blanks(after) && forall i | 0 <= i < |k| :: k[i] != '=' && k[i] != '#' && !IsSpace(k[i])
    requires k != "" && v != "" && !IsSpace(v[0]) && !IsSpace(v[|v| - 1])
    requires v[0] != '"' && v[|v| - 1] != '"' && v[0] != '\'' && v[|v| - 1] != '\''
    ensures ParseLine(before + (k + "=" + v) + after) == if IsKey(k) then Some(Setting(k, v)) else None
  {
    Unpad(before, k + "=" + v, after);
    SplitAtEquals(k, v);
    PlainValue(v);
    assert k[0] != '#';
  }

  lemma PlainValue(v: string)
    requires v != "" && !IsSpace(v[0]) && !IsSpace(v[|v| - 1])
    requires v[0] != '"' && v[|v| - 1] != '"' && v[0] != '\'' && v[|v| - 1] != '\''
    ensures Unquote(v) == v
  {
    TrimExact(v, IsSpace, 0, |v|);
    TrimExact(v, IsDouble, 0, |v|);
    TrimExact(v, IsSingle, 0, |v|);
    assert v[0..|v|] == v;
  }

  lemma SplitAtEquals(k: string, v: string)
    requires k != "" && forall i | 0 <= i < |k| :: k[i] != '='
    ensures
      var line := k + "=" + v;
      && EqualsAt(line) == |k| && |line| > |k| && line[..|k|] == k && line[|k| + 1..] == v && line[0] == k[0]
      && (KeyShaped(k) <==> IsKey(k))
  {
    FirstEquals(k, v);
  }

  lemma FirstEquals(k: string, v: string)
    requires forall i | 0 <= i < |k| :: k[i] != '='
    ensures EqualsAt(k + "=" + v) == |k|
  {
    var s := k + "=" + v;
    assert s[|k|] == '=' && forall i | 0 <= i < |k| :: s[i] == k[i];
  }

  // ---- The file ----

  /** Every rewrite begins with the same comment. */
  lemma HeaderComesFirst(text: Option<string>, values: seq<Setting>)
    ensures
      var header := "# BlueBird Kiosk OS \U{2014} " + "runtime configuration " + "(written by control plane)" + "\n";
      header <= Write(text, values)
  {
    var header := "# BlueBird Kiosk OS \U{2014} " + "runtime configuration " + "(written by control plane)" + "\n";
    assert Print(Merge(Read(text), values)) == header + Body(Merge(Read(text), values));
  }
}
