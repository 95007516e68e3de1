/** The text of kiosk.conf: how a value is printed, how a line is parsed, and what the
    one makes of the other. */
module ConfigText {
  import opened Basics

  // ---- Characters ----

  /** Where Python's `splitlines` breaks. */
  predicate IsLineBreak(c: char) {
    var n := c as int;
    0x0A <= n <= 0x0D || 0x1C <= n <= 0x1E || n == 0x85 || n == 0x2028 || n == 0x2029
  }

  /** What Python's `strip()` removes. */
  predicate IsSpace(c: char) {
    var n := c as int;
    0x09 <= n <= 0x0D || 0x1C <= n <= 0x20 || n == 0x85 || n == 0xA0 || n == 0x1680
    || 0x2000 <= n <= 0x200A || n == 0x2028 || n == 0x2029 || n == 0x202F || n == 0x205F || n == 0x3000
  }

  predicate IsDouble(c: char) { c == '"' }

  predicate IsSingle(c: char) { c == '\'' }

  predicate OneLine(s: string) {
    forall i | 0 <= i < |s| :: !IsLineBreak(s[i])
  }

  predicate HasQuote(s: string) {
    exists i | 0 <= i < |s| :: IsSingle(s[i])
  }

  // ---- Stripping ----

  function TrimLeft(s: string, drop: char -> bool): string {
    if s == "" || !drop(s[0]) then s else TrimLeft(s[1..], drop)
  }

  function TrimRight(s: string, drop: char -> bool): string {
    if s == "" || !drop(s[|s| - 1]) then s else TrimRight(s[..|s| - 1], drop)
  }

  function Trim(s: string, drop: char -> bool): string {
    TrimRight(TrimLeft(s, drop), drop)
  }

  lemma {:induction false} TrimLeftExact(s: string, drop: char -> bool, i: nat)
    requires i <= |s| && (forall k | 0 <= k < i :: drop(s[k])) && (i == |s| || !drop(s[i]))
    ensures TrimLeft(s, drop) == s[i..]
    decreases i
  {
    if i > 0 {
      TrimLeftExact(s[1..], drop, i - 1);
      assert s[1..][i - 1..] == s[i..];
    }
  }

  lemma {:induction false} TrimRightExact(s: string, drop: char -> bool, j: nat)
    requires j <= |s| && (forall k | j <= k < |s| :: drop(s[k])) && (j == 0 || !drop(s[j - 1]))
    ensures TrimRight(s, drop) == s[..j]
    decreases |s| - j
  {
    if j < |s| {
      TrimRightExact(s[..|s| - 1], drop, j);
      assert s[..|s| - 1][..j] == s[..j];
    }
  }

  /** Stripping stops at the first and last characters that are not dropped. */
  lemma TrimExact(s: string, drop: char -> bool, i: nat, j: nat)
    requires i < j <= |s| && !drop(s[i]) && !drop(s[j - 1])
    requires (forall k | 0 <= k < i :: drop(s[k])) && (forall k | j <= k < |s| :: drop(s[k]))
    ensures Trim(s, drop) == s[i..j]
  {
    TrimLeftExact(s, drop, i);
    TrimRightExact(s[i..], drop, j - i);
    assert s[i..][..j - i] == s[i..j];
  }

  lemma {:induction false} TrimIsSlice(s: string, drop: char -> bool) returns (i: nat, j: nat)
    ensures i <= j <= |s| && Trim(s, drop) == s[i..j]
  {
    i := 0;
    while i < |s| && drop(s[i])
      invariant i <= |s| && forall k | 0 <= k < i :: drop(s[k])
    {
      i := i + 1;
    }
    TrimLeftExact(s, drop, i);
    var t := s[i..];
    j := |t|;
    while j > 0 && drop(t[j - 1])
      invariant j <= |t| && forall k | j <= k < |t| :: drop(t[k])
    {
      j := j - 1;
    }
    TrimRightExact(t, drop, j);
    assert t[..j] == s[i..i + j];
    j := i + j;
  }

  lemma {:induction false} TrimRightSpec(s: string, drop: char -> bool)
    ensures
      var t := TrimRight(s, drop);
      t <= s && (forall k | |t| <= k < |s| :: drop(s[k])) && (t == "" || !drop(t[|t| - 1]))
  {
    if s != "" && drop(s[|s| - 1]) {
      TrimRightSpec(s[..|s| - 1], drop);
    }
  }

  lemma {:induction false} TrimLeftSpec(s: string, drop: char -> bool) returns (i: nat)
    ensures i <= |s| && TrimLeft(s, drop) == s[i..] && forall k | 0 <= k < i :: drop(s[k])
  {
    i := 0;
    if s != "" && drop(s[0]) {
      var j := TrimLeftSpec(s[1..], drop);
      i := j + 1;
      assert s[1..][j..] == s[i..];
      assert forall k | 0 < k < i :: s[k] == s[1..][k - 1];
    }
  }

  lemma TrimOneLine(s: string, drop: char -> bool)
    requires OneLine(s)
    ensures OneLine(Trim(s, drop))
  {
    var i, j := TrimIsSlice(s, drop);
  }

  // ---- Printing: `shlex.quote` ----

  predicate SafeChar(c: char) {
    'a' <= c <= 'z' || 'A' <= c <= 'Z' || '0' <= c <= '9'
    || c == '_' || c == '@' || c == '%' || c == '+' || c == '=' || c == ':' || c == ',' || c == '.'
    || c == '/' || c == '-'
  }

  /** A single quote cannot be written between single quotes: '"'"' closes, quotes it, reopens. */
  const ESCAPED_QUOTE := "'\"'\"'"

  function Escape(v: string): string {
    if v == "" then "" else (if IsSingle(v[0]) then ESCAPED_QUOTE else [v[0]]) + Escape(v[1..])
  }

  predicate AllSafe(v: string) {
    forall i | 0 <= i < |v| :: SafeChar(v[i])
  }

  function Quote(v: string): string {
    if v == "" then "''" else if AllSafe(v) then v else "'" + Escape(v) + "'"
  }

  // ---- Parsing ----

  datatype Setting = Setting(key: string, value: string)

  predicate KeyStart(c: char) {
    'A' <= c <= 'Z' || c == '_'
  }

  predicate KeyShaped(k: string) {
    k != "" && KeyStart(k[0]) && forall i | 0 <= i < |k| :: KeyStart(k[i]) || '0' <= k[i] <= '9'
  }

  /** The first `=`, or the length if there is none. */
  function EqualsAt(s: string): (i: nat)
    ensures i <= |s| && (forall k | 0 <= k < i :: s[k] != '=') && (i < |s| ==> s[i] == '=')
  {
    if s == "" || s[0] == '=' then 0 else 1 + EqualsAt(s[1..])
  }

  function Unquote(raw: string): string {
    Trim(Trim(Trim(raw, IsSpace), IsDouble), IsSingle)
  }

  function ParseLine(line: string): Option<Setting> {
    var stripped := Trim(line, IsSpace);
    if stripped == "" || stripped[0] == '#' then None
    else
      var e := EqualsAt(stripped);
      if e == |stripped| || !KeyShaped(stripped[..e]) then None
      else Some(Setting(stripped[..e], Unquote(stripped[e + 1..])))
  }

  /** What is read back where `v` was printed. */
  function Reread(v: string): string {
    Unquote(Quote(v))
  }

  lemma {:induction false} EscapeClean(v: string)
    requires !HasQuote(v)
    ensures Escape(v) == v
  {
    if v != "" {
      assert v == [v[0]] + v[1..];
      assert !HasQuote(v[1..]) by {
        forall i | 0 <= i < |v[1..]| ensures !IsSingle(v[1..][i]) {
          assert v[1..][i] == v[i + 1];
        }
      }
      EscapeClean(v[1..]);
    }
  }

  /** The printed word never starts or ends with a space, nor is it empty. */
  lemma QuoteEnds(v: string)
    ensures Quote(v) != "" && !IsSpace(Quote(v)[0]) && !IsSpace(Quote(v)[|Quote(v)| - 1])
    ensures !IsDouble(Quote(v)[0]) && !IsDouble(Quote(v)[|Quote(v)| - 1])
  {
  }

  lemma UnquoteOfQuote(v: string)
    ensures Reread(v) == Trim(Quote(v), IsSingle)
  {
    QuoteEnds(v);
    var w := Quote(v);
    TrimExact(w, IsSpace, 0, |w|);
    TrimExact(w, IsDouble, 0, |w|);
    assert w[0..|w|] == w;
  }

  lemma RereadClean(v: string)
    requires !HasQuote(v)
    ensures Reread(v) == v
  {
    UnquoteOfQuote(v);
    var w := Quote(v);
    if v == "" {
      TrimLeftExact(w, IsSingle, 2);
    } else if AllSafe(v) {
      TrimExact(w, IsSingle, 0, |w|);
    } else {
      EscapeClean(v);
      assert w[1..|v| + 1] == v;
      TrimExact(w, IsSingle, 1, |v| + 1);
    }
  }

  /** A single quote with a double quote on either side. */
  predicate WrappedQuote(e: string, i: int) {
    0 < i < |e| - 1 && e[i - 1] == '"' && IsSingle(e[i]) && e[i + 1] == '"'
  }

  lemma {:induction false} EscapeLength(v: string)
    ensures |Escape(v)| >= |v|
    ensures HasQuote(v) ==> |Escape(v)| >= |v| + 4
    ensures HasQuote(v) ==> exists i :: WrappedQuote(Escape(v), i)
    ensures v != "" ==> Escape(v)[0] == v[0] && (IsSingle(v[0]) ==> |Escape(v)| >= 2 && Escape(v)[1] == '"')
  {
    if v != "" {
      EscapeLength(v[1..]);
      var rest := Escape(v[1..]);
      if IsSingle(v[0]) {
        assert Escape(v) == ESCAPED_QUOTE + rest;
        assert WrappedQuote(Escape(v), 2);
      } else if HasQuote(v) {
        var j :| 0 <= j < |v| && IsSingle(v[j]);
        assert IsSingle(v[1..][j - 1]);
        var i :| WrappedQuote(rest, i);
        assert Escape(v) == [v[0]] + rest;
        assert WrappedQuote(Escape(v), i + 1);
      }
    }
  }

  lemma {:induction false} EscapeConcat(a: string, b: string)
    ensures Escape(a + b) == Escape(a) + Escape(b)
  {
    if a == "" {
      assert a + b == b;
    } else {
      var head := if IsSingle(a[0]) then ESCAPED_QUOTE else [a[0]];
      EscapeConcat(a[1..], b);
      assert (a + b)[1..] == a[1..] + b && (a + b)[0] == a[0];
      assert Escape(a + b) == head + (Escape(a[1..]) + Escape(b));
      assert head + (Escape(a[1..]) + Escape(b)) == (head + Escape(a[1..])) + Escape(b);
    }
  }

  lemma EscapeEnd(v: string)
    requires v != ""
    ensures |Escape(v)| >= 1 && Escape(v)[|Escape(v)| - 1] == v[|v| - 1]
    ensures IsSingle(v[|v| - 1]) ==> |Escape(v)| >= 2 && Escape(v)[|Escape(v)| - 2] == '"'
  {
    var before, last := v[..|v| - 1], [v[|v| - 1]];
    assert v == before + last;
    EscapeConcat(before, last);
    assert last[1..] == "";
    assert Escape(last) == if IsSingle(last[0]) then ESCAPED_QUOTE else last;
  }

  predicate StartsQuoted(v: string) {
    v != "" && IsSingle(v[0])
  }

  predicate EndsQuoted(v: string) {
    v != "" && IsSingle(v[|v| - 1])
  }

  function One(b: bool): nat {
    if b then 1 else 0
  }

  /** What is left of e without its first l and last r characters. */
  function Middle(e: string, l: nat, r: nat): string
    requires l + r <= |e|
  {
    e[l..|e| - r]
  }

  /** Stripping a quoted word whose inside e has l quotes in front and r behind. */
  lemma StripQuotedWord(e: string, l: nat, r: nat)
    requires l + r < |e|
    requires (forall k | 0 <= k < l :: IsSingle(e[k])) && (forall k | |e| - r <= k < |e| :: IsSingle(e[k]))
    requires !IsSingle(e[l]) && !IsSingle(e[|e| - r - 1])
    ensures Trim("'" + e + "'", IsSingle) == Middle(e, l, r)
  {
    var w := "'" + e + "'";
    assert forall k | 0 <= k < |e| :: w[k + 1] == e[k];
    assert IsSingle(w[0]) && IsSingle(w[|e| + 1]);
    TrimExact(w, IsSingle, l + 1, |e| - r + 1);
    assert w[l + 1..|e| - r + 1] == e[l..|e| - r];
  }

  /** Besides the two outer quotes stripping takes one more on each side where the value
      itself has one. */
  lemma QuotedWordStripped(v: string)
    requires HasQuote(v)
    ensures |Escape(v)| >= |v| + 4
    ensures Trim("'" + Escape(v) + "'", IsSingle)
         == Middle(Escape(v), One(StartsQuoted(v)), One(EndsQuoted(v)))
  {
    EscapeLength(v);
    EscapeEnd(v);
    StripQuotedWord(Escape(v), One(StartsQuoted(v)), One(EndsQuoted(v)));
  }

  lemma QuotedNotSafe(v: string)
    requires HasQuote(v)
    ensures v != "" && !AllSafe(v)
  {
    var q :| 0 <= q < |v| && IsSingle(v[q]);
    assert !SafeChar(v[q]);
  }

  /** The escaped form keeps a quote away from both ends. */
  lemma MiddleKeepsQuote(v: string)
    requires HasQuote(v) && |Escape(v)| >= 2
    ensures
      var m := Middle(Escape(v), One(StartsQuoted(v)), One(EndsQuoted(v)));
      HasQuote(m) && !EndsQuoted(m)
  {
    EscapeLength(v);
    EscapeEnd(v);
    var i :| WrappedQuote(Escape(v), i);
    var m := Middle(Escape(v), One(StartsQuoted(v)), One(EndsQuoted(v)));
    assert IsSingle(m[i - One(StartsQuoted(v))]);
  }

  /** A value with a single quote never reads back as itself: it comes back escaped, hence
      longer, still with a quote in it but none at its end. */
  lemma RereadGrows(v: string)
    requires HasQuote(v)
    ensures |Escape(v)| >= |v| + 4
    ensures Reread(v) == Middle(Escape(v), One(StartsQuoted(v)), One(EndsQuoted(v)))
    ensures |Reread(v)| >= |v| + 2 && HasQuote(Reread(v)) && !EndsQuoted(Reread(v))
  {
    UnquoteOfQuote(v);
    QuotedNotSafe(v);
    QuotedWordStripped(v);
    MiddleKeepsQuote(v);
  }

  /** One value survives printing and parsing exactly when it has no single quote. */
  lemma RereadExactly(v: string)
    ensures Reread(v) == v <==> !HasQuote(v)
  {
    if HasQuote(v) { RereadGrows(v); } else { RereadClean(v); }
  }
}
