/** kiosk.conf: reading it into a dict with defaults, rewriting it with merged values,
    and what any number of rewrites leaves readable. */
module ConfigFile {
  import opened Basics
  import opened ConfigText

  /** A Python dict with string keys: distinct keys in insertion order. */
  type Dict = seq<Setting>

  function Get(d: Dict, k: string): Option<string> {
    if d == [] then None else if d[0].key == k then Some(d[0].value) else Get(d[1..], k)
  }

  /** Assignment keeps the place of an existing key. */
  function Put(d: Dict, k: string, v: string): Dict {
    if d == [] then [Setting(k, v)]
    else if d[0].key == k then [Setting(k, v)] + d[1..]
    else [d[0]] + Put(d[1..], k, v)
  }

  /** `dict.update`. */
  function Merge(d: Dict, values: seq<Setting>): Dict
    decreases |values|
  {
    if values == [] then d else Merge(Put(d, values[0].key, values[0].value), values[1..])
  }

  const DEFAULTS: Dict := [
    Setting("BLUEBIRD_BACKEND", "https://bluebird-alerts.com"),
    Setting("SCHOOL_SLUG", ""),
    Setting("LEGACY_WALL_URL", ""),
    Setting("DEVICE_ID", ""),
    Setting("ADMIN_PORT", "7311"),
    Setting("HEARTBEAT_INTERVAL_SEC", "60"),
    Setting("DISPLAY_MODE", "legacy_wall"),
    Setting("SIGNAGE_URL", ""),
    Setting("VISITOR_URL", ""),
    Setting("PRINT_AGENT_ENABLED", "0")]

  const HEADER := "# BlueBird Kiosk OS \U{2014} " + "runtime configuration " + "(written by control plane)"

  // ---- Reading ----

  function BreakAt(s: string): (i: nat)
    ensures i <= |s| && (forall k | 0 <= k < i :: !IsLineBreak(s[k])) && (i < |s| ==> IsLineBreak(s[i]))
  {
    if s == "" || IsLineBreak(s[0]) then 0 else 1 + BreakAt(s[1..])
  }

  /** `str.splitlines`: a carriage return and line feed together are one break, and a
      final break opens no further line. */
  function SplitLines(s: string): seq<string>
    decreases |s|
  {
    if s == "" then []
    else
      var i := BreakAt(s);
      if i == |s| then [s]
      else if s[i] == '\r' && i + 1 < |s| && s[i + 1] == '\n' then [s[..i]] + SplitLines(s[i + 2..])
      else [s[..i]] + SplitLines(s[i + 1..])
  }

  function ReadLine(d: Dict, line: string): Dict {
    match ParseLine(line)
    case None => d
    case Some(s) => Put(d, s.key, s.value)
  }

  function ReadLines(d: Dict, lines: seq<string>): Dict
    decreases |lines|
  {
    if lines == [] then d else ReadLines(ReadLine(d, lines[0]), lines[1..])
  }

  /** The configuration in force for a file's text; None is a missing file. */
  function Read(text: Option<string>): Dict {
    if text.None? then DEFAULTS else ReadLines(DEFAULTS, SplitLines(text.value))
  }

  // ---- Writing ----

  function PrintLine(s: Setting): string {
    s.key + "=" + Quote(s.value)
  }

  function Body(d: Dict): string {
    if d == [] then "" else PrintLine(d[0]) + "\n" + Body(d[1..])
  }

  function Print(d: Dict): string {
    HEADER + "\n" + Body(d)
  }

  /** The text after one `write_config(values)`. */
  function Write(text: Option<string>, values: seq<Setting>): string {
    Print(Merge(Read(text), values))
  }

  class KioskConf {
    var text: Option<string>

    constructor (text: Option<string>)
      ensures this.text == text
    {
      this.text := text;
    }

    method ReadConfig() returns (values: Dict)
      ensures values == Read(text)
    {
      values := DEFAULTS;
      if text.Some? {
        var lines := SplitLines(text.value);
        for i := 0 to |lines|
          invariant ReadLines(values, lines[i..]) == ReadLines(DEFAULTS, lines)
        {
          assert lines[i..][1..] == lines[i + 1..];
          var parsed := ParseLine(lines[i]);
          if parsed.Some? {
            values := Put(values, parsed.value.key, parsed.value.value);
          }
        }
      }
    }

    method WriteConfig(values: seq<Setting>)
      modifies this
      ensures text == Some(Write(old(text), values))
    {
      var merged := ReadConfig();
      for i := 0 to |values|
        invariant Merge(merged, values[i..]) == Merge(Read(old(text)), values)
        invariant text == old(text)
      {
        assert values[i..][1..] == values[i + 1..];
        merged := Put(merged, values[i].key, values[i].value);
      }
      var out := HEADER + "\n";
      for i := 0 to |merged|
        invariant out + Body(merged[i..]) == Print(merged)
      {
        assert merged[i..][1..] == merged[i + 1..];
        var line := PrintLine(merged[i]) + "\n";
        assert out + (line + Body(merged[i + 1..])) == (out + line) + Body(merged[i + 1..]);
        out := out + line;
      }
      assert out + "" == out;
      text := Some(out);
    }
  }

  // ---- Dicts ----

  lemma {:induction false} GetPut(d: Dict, k: string, v: string, k': string)
    ensures Get(Put(d, k, v), k') == if k' == k then Some(v) else Get(d, k')
  {
    if d != [] && d[0].key != k {
      GetPut(d[1..], k, v, k');
      assert Put(d, k, v)[1..] == Put(d[1..], k, v);
    } else if d != [] {
      assert Put(d, k, v)[1..] == d[1..];
    }
  }

  ghost predicate Keyed(d: Dict) {
    forall i | 0 <= i < |d| :: KeyShaped(d[i].key)
  }

  ghost predicate Unique(d: Dict) {
    forall i, j | 0 <= i < j < |d| :: d[i].key != d[j].key
  }

  ghost predicate OneLiners(d: seq<Setting>) {
    forall i | 0 <= i < |d| :: OneLine(d[i].value)
  }

  /** A dict that came out of, or may go into, the file. */
  ghost predicate Fileable(d: Dict) {
    Keyed(d) && Unique(d) && OneLiners(d)
  }

  lemma {:induction false} PutMembers(d: Dict, k: string, v: string)
    ensures forall s | s in Put(d, k, v) :: s == Setting(k, v) || s in d
    ensures Unique(d) ==> Unique(Put(d, k, v))
  {
    if d != [] {
      assert d == [d[0]] + d[1..];
      PutMembers(d[1..], k, v);
      if d[0].key == k {
        assert forall i | 0 < i < |d| :: Put(d, k, v)[i] == d[i];
      } else {
        var rest := Put(d[1..], k, v);
        if Unique(d) {
          forall j | 0 <= j < |rest| ensures rest[j].key != d[0].key {
            assert rest[j] in rest;
            if rest[j] != Setting(k, v) {
              var i :| 0 <= i < |d[1..]| && d[1..][i] == rest[j];
              assert d[i + 1] == rest[j];
            }
          }
        }
      }
    }
  }

  lemma PutFileable(d: Dict, k: string, v: string)
    requires Fileable(d) && KeyShaped(k) && OneLine(v)
    ensures Fileable(Put(d, k, v))
  {
    PutMembers(d, k, v);
    forall i | 0 <= i < |Put(d, k, v)| ensures KeyShaped(Put(d, k, v)[i].key) && OneLine(Put(d, k, v)[i].value) {
      assert Put(d, k, v)[i] in Put(d, k, v);
      if Put(d, k, v)[i] != Setting(k, v) {
        var j :| 0 <= j < |d| && d[j] == Put(d, k, v)[i];
      }
    }
  }
}
